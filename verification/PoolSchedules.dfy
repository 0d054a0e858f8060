/** Schedules of the rollout pool that a clearing check makes possible: how a pool gets stuck, and how its batch ends up empty.

Each schedule is built from parts that move one worker, or the main thread, and leave everybody else where they are. */
module PoolSchedules {
  import opened PyList
  import opened TaskGroups
  import opened SwarmEpisode
  import opened RolloutPool
  import opened PoolCounting
  import opened PoolClearing

  /** Only worker u has moved, and nothing else has changed but the map and the record of the run. */
  ghost predicate OnlyMoved(s: State, s': State, u: nat) {
    && |s'.workers| == |s.workers| && u < |s.workers| && s'.main == s.main && s'.stop == s.stop
    && forall v :: 0 <= v < |s.workers| && v != u ==> s'.workers[v] == s.workers[v]
  }

  ghost predicate FlagsAreUp(s: State) {
    forall u :: 0 <= u < |s.stop| ==> s.stop[u]
  }

  lemma LeadsNowhere(c: Config, s: State)
    requires Sized(c, s)
    ensures Leads(c, s, [], s)
  {
  }

  /** One more step at the front. */
  lemma LeadsFirst(c: Config, s: State, step: Step, steps: seq<Step>, s': State)
    requires Sized(c, s) && Apply(c, s, step).Some? && Leads(c, Apply(c, s, step).value, steps, s')
    ensures Leads(c, s, [step] + steps, s')
  {
    assert ([step] + steps)[1..] == steps;
  }

  /** Two parts that keep the map well filed do so together. */
  lemma {:induction false} LeadsConserved(c: Config, s: State, steps: seq<Step>, s': State)
    requires Conserved(s) && Leads(c, s, steps, s')
    ensures Conserved(s')
    decreases |steps|
  {
    if steps != [] {
      match steps[0] {
        case OfWorker(t, act) => ConservedWorkerStep(c, s, t, act);
        case OfMain(act) => ConservedMainStep(c, s, act);
      }
      LeadsConserved(c, Apply(c, s, steps[0]).value, steps[1..], s');
    }
  }

  // ----- Workers file what they hold -----

  /** The first n workers file the episodes they hold; everybody else stays. */
  lemma {:induction false} FileAllHeld(c: Config, s: State, n: nat) returns (steps: seq<Step>, s': State)
    requires Sized(c, s) && n <= c.threads
    ensures Leads(c, s, steps, s') && s'.main == s.main && s'.stop == s.stop
    ensures forall u :: 0 <= u < n ==> !HoldsEpisode(s'.workers[u])
    ensures forall u :: 0 <= u < c.threads && (u >= n || !HoldsEpisode(s.workers[u])) ==> s'.workers[u] == s.workers[u]
    ensures forall u :: 0 <= u < n && HoldsEpisode(s.workers[u]) ==> s'.workers[u] == Checking
  {
    if n == 0 {
      steps, s' := [], s;
      LeadsNowhere(c, s);
    } else {
      var before, m := FileAllHeld(c, s, n - 1);
      var u := n - 1;
      if HoldsEpisode(m.workers[u]) {
        var step := OfWorker(u, File);
        s' := Apply(c, m, step).value;
        LeadsOne(c, m, step);
        LeadsOn(c, s, before, m, [step], s');
        steps := before + [step];
      } else {
        steps, s' := before, m;
      }
    }
  }

  // ----- Everybody leaves an empty pool -----

  /** How far a worker is from leaving when its stop flag is up and the map is empty. */
  function Rank(c: Config, p: Phase): nat {
    match p
    case Exited(_) => 0
    case Top => 1
    case Looking => 1
    case NotStarted => 2
    case Stopping(k) => if k < c.threads then 1 + (c.threads - k) else 1
    case Counted(_, overflow) => c.threads + 2 + (if overflow then 1 else 0)
    case Counting(unread, _) => c.threads + 4 + |unread|
    case Checking => c.threads + 5
    case Holding(_) => c.threads + 6
    case InEpisode => c.threads + 7
  }

  /** An attempt that finds a stop flag up: no episode comes of it. */
  function Aborted(): Attempt {
    SwarmEpisode.Attempt("", true, false, [])
  }

  lemma AbortedGivesNothing(policy: Policy)
    ensures Retry([Aborted()], policy) == NoEpisode
  {
  }

  function LeaveAct(p: Phase): Act {
    match p
    case NotStarted => Start
    case Top => LookAtTop
    case InEpisode => Finish([Aborted()])
    case Holding(_) => File
    case Checking => Snapshot
    case Counting(unread, _) => if unread != [] then Read else Tally
    case Counted(_, overflow) => if overflow then Clear else Decide
    case Stopping(_) => RaiseFlag
    case _ => LookAgain
  }

  /** Ways out that do not count. */
  predicate Quiet(p: Phase) {
    p.NotStarted? || p.Top? || p.InEpisode? || p.Holding? || p.Looking?
  }

  /** One step has taken this worker closer to leaving. */
  ghost predicate Closer(c: Config, s: State, next: Option<State>, u: nat)
    requires Sized(c, s) && u < c.threads
  {
    && next.Some? && OnlyMoved(s, next.value, u) && next.value.groups == []
    && Rank(c, next.value.workers[u]) < Rank(c, s.workers[u])
    && !HoldsEpisode(next.value.workers[u]) && next.value.workers[u] != Exited(true)
  }

  lemma OneQuietStepOut(c: Config, s: State, u: nat)
    requires Sized(c, s) && u < c.threads && s.groups == [] && FlagsAreUp(s)
    requires Quiet(s.workers[u]) && !HoldsEpisode(s.workers[u])
    ensures Closer(c, s, WorkerStep(c, s, u, LeaveAct(s.workers[u])), u)
  {
    AbortedGivesNothing(c.policy);
  }

  lemma OneLoudStepOut(c: Config, s: State, u: nat)
    requires Sized(c, s) && u < c.threads && s.groups == [] && FlagsAreUp(s)
    requires !s.workers[u].Exited? && !Quiet(s.workers[u])
    ensures Closer(c, s, WorkerStep(c, s, u, LeaveAct(s.workers[u])), u)
  {
    if s.workers[u].Stopping? && s.workers[u].next < c.threads {
      assert s.stop[s.workers[u].next := true] == s.stop;
    }
  }

  /** A worker that holds no episode leaves an empty pool without filing anything. */
  lemma {:induction false} DriveOut(c: Config, s: State, u: nat) returns (steps: seq<Step>, s': State)
    requires Sized(c, s) && u < c.threads && s.groups == [] && FlagsAreUp(s) && !HoldsEpisode(s.workers[u])
    ensures Leads(c, s, steps, s') && OnlyMoved(s, s', u) && s'.groups == []
    ensures s'.workers[u] == if s.workers[u].Exited? then s.workers[u] else Exited(false)
    decreases Rank(c, s.workers[u])
  {
    if s.workers[u].Exited? {
      steps, s' := [], s;
      LeadsNowhere(c, s);
    } else {
      var act := LeaveAct(s.workers[u]);
      if Quiet(s.workers[u]) {
        OneQuietStepOut(c, s, u);
      } else {
        OneLoudStepOut(c, s, u);
      }
      var m := WorkerStep(c, s, u, act).value;
      var rest;
      rest, s' := DriveOut(c, m, u);
      LeadsFirst(c, s, OfWorker(u, act), rest, s');
      steps := [OfWorker(u, act)] + rest;
    }
  }

  lemma {:induction false} DriveAllOut(c: Config, s: State, n: nat) returns (steps: seq<Step>, s': State)
    requires Sized(c, s) && n <= c.threads && s.groups == [] && FlagsAreUp(s)
    requires forall u :: 0 <= u < c.threads ==> !HoldsEpisode(s.workers[u])
    ensures Leads(c, s, steps, s') && s'.main == s.main && s'.stop == s.stop && s'.groups == []
    ensures forall u :: 0 <= u < n ==> s'.workers[u] == if s.workers[u].Exited? then s.workers[u] else Exited(false)
    ensures forall u :: n <= u < c.threads ==> s'.workers[u] == s.workers[u]
  {
    if n == 0 {
      steps, s' := [], s;
      LeadsNowhere(c, s);
    } else {
      var before, m := DriveAllOut(c, s, n - 1);
      var rest;
      rest, s' := DriveOut(c, m, n - 1);
      LeadsOn(c, s, before, m, rest, s');
      steps := before + rest;
    }
  }

  // ----- A worker clears and stops everybody -----

  lemma {:induction false} RaiseAll(c: Config, s: State, t: nat, k: nat) returns (steps: seq<Step>, s': State)
    requires Sized(c, s) && t < c.threads && s.workers[t] == Stopping(k) && k <= c.threads && forall j :: 0 <= j < k ==> s.stop[j]
    ensures Leads(c, s, steps, s') && s' == At(s, t, Exited(false)).(stop := s'.stop) && FlagsAreUp(s')
    decreases c.threads - k
  {
    var step := OfWorker(t, RaiseFlag);
    var m := Apply(c, s, step).value;
    if k == c.threads {
      s' := m;
      LeadsOne(c, s, step);
      steps := [step];
      assert s.stop == s'.stop;
    } else {
      var rest;
      rest, s' := RaiseAll(c, m, t, k + 1);
      LeadsFirst(c, s, step, rest, s');
      steps := [step] + rest;
      assert m.workers[t := Exited(false)] == s.workers[t := Exited(false)];
    }
  }

  /** The worker clears the map, finds that its count was enough, stops everybody and leaves. */
  lemma ClearAndStop(c: Config, s: State, t: nat) returns (steps: seq<Step>, s': State)
    requires Sized(c, s) && t < c.threads && s.workers[t] == Counted(true, true)
    ensures Leads(c, s, steps, s') && s'.groups == [] && FlagsAreUp(s') && s'.main == s.main
    ensures s'.workers == s.workers[t := Exited(false)]
  {
    var cleared := WorkerStep(c, s, t, Clear).value;
    LeadsOne(c, s, OfWorker(t, Clear));
    var decided := WorkerStep(c, cleared, t, Decide).value;
    LeadsOne(c, cleared, OfWorker(t, Decide));
    LeadsOn(c, s, [OfWorker(t, Clear)], cleared, [OfWorker(t, Decide)], decided);
    var first := [OfWorker(t, Clear)] + [OfWorker(t, Decide)];
    if decided.workers[t].Exited? {
      steps, s' := first, decided;
      assert s'.workers == s.workers[t := Exited(false)];
    } else {
      var rest;
      rest, s' := RaiseAll(c, decided, t, 0);
      LeadsOn(c, s, first, decided, rest, s');
      steps := first + rest;
      assert s'.workers == s.workers[t := Exited(false)];
    }
  }

  // ----- When a pool can get stuck -----

  /** The main thread has not counted enough: it is not counting, or not enough so far, or has counted too little. */
  ghost predicate Undecided(c: Config, m: MainPhase) {
    m.Polling? || (m.MainCounting? && !Met(c, m.seen)) || (m.MainCounted? && !m.met)
  }

  /** No worker has died in between. */
  ghost predicate NobodyDied(s: State, s': State) {
    |s.workers| == |s'.workers| && forall u :: 0 <= u < |s.workers| && s'.workers[u] == Exited(true) ==> s.workers[u] == Exited(true)
  }

  lemma EmptyReads(unread: seq<Id>)
    ensures ReadAll(unread, []) == []
  {
    if unread != [] {
      EmptyReads(unread[1..]);
    }
  }

  lemma ToStuck(c: Config, s: State, t: nat) returns (steps: seq<Step>, s': State)
    requires Sensible(c) && Sized(c, s) && t < c.threads && s.workers[t] == Counted(true, true) && Undecided(c, s.main)
    ensures Leads(c, s, steps, s') && Stuck(c, s') && NobodyDied(s, s')
  {
    var a, filed := FileAllHeld(c, s, c.threads);
    var b, cleared := ClearAndStop(c, filed, t);
    LeadsOn(c, s, a, filed, b, cleared);
    var d;
    d, s' := DriveAllOut(c, cleared, c.threads);
    LeadsOn(c, s, a + b, cleared, d, s');
    steps := a + b + d;
    assert c.target * c.rolloutN > 0;
    if s'.main.MainCounting? {
      EmptyReads(s'.main.unread);
      assert View(s'.main.unread, s'.main.seen, []) == s'.main.seen;
    }
  }

  lemma {:induction false} DecidedForGood(c: Config, s: State, steps: seq<Step>, s': State)
    requires Leads(c, s, steps, s') && !Undecided(c, s.main)
    ensures !Undecided(c, s'.main)
    decreases |steps|
  {
    if steps != [] {
      if steps[0] == OfMain(PollRead) && s.main.unread != [] {
        SeenStaysMet(c, s.main.seen, EntryOf(s.groups, s.main.unread[0]));
      }
      DecidedForGood(c, Apply(c, s, steps[0]).value, steps[1..], s');
    }
  }

  lemma StuckIsUndecided(c: Config, s: State)
    requires Stuck(c, s)
    ensures Undecided(c, s.main)
  {
    if s.main.MainCounting? && Met(c, s.main.seen) {
      SeenStaysMet(c, s.main.seen, ReadAll(s.main.unread, s.groups));
    }
  }

  ghost predicate CanGetStuck(c: Config, s: State)
    requires Sized(c, s)
  {
    exists steps: seq<Step>, s': State :: Leads(c, s, steps, s') && Stuck(c, s') && NobodyDied(s, s')
  }

  /** Over whole interleavings: when some worker has counted a met target on a map that its check is about to clear, a stuck pool in
      which no further worker has died can be reached if and only if the main thread has not itself counted enough by then. */
  lemma StuckReachableIff(c: Config, s: State, t: nat)
    requires Sensible(c) && Sized(c, s) && t < c.threads && s.workers[t] == Counted(true, true)
    ensures CanGetStuck(c, s) <==> Undecided(c, s.main)
  {
    if Undecided(c, s.main) {
      var steps, s' := ToStuck(c, s, t);
    } else if CanGetStuck(c, s) {
      var steps: seq<Step>, s': State :| Leads(c, s, steps, s') && Stuck(c, s') && NobodyDied(s, s');
      DecidedForGood(c, s, steps, s');
      StuckIsUndecided(c, s');
    }
  }
}
