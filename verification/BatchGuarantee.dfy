/** When the batch of the rollout pool is sure to meet the target: `rollout_swarm` of ajet/task_rollout/native_parallel_worker.py from
the moment the main thread has counted enough until it collects. */
module BatchGuarantee {
  import opened PyList
  import opened TaskGroups
  import opened SwarmEpisode
  import opened RolloutPool
  import opened PoolCounting
  import opened PoolStopping
  import opened PoolClearing
  import opened PoolSchedules

  /** The main thread has counted enough and has not collected yet. */
  predicate PastCount(m: MainPhase) {
    (m.MainCounted? && m.met) || m.MainStopping? || m.Joining?
  }

  // ----- Stop flags -----

  /** The main thread has raised the flags it has passed. */
  ghost predicate FlagsRaised(c: Config, s: State) {
    && (s.main.MainStopping? ==> s.main.next <= c.threads && forall j :: 0 <= j < s.main.next && j < |s.stop| ==> s.stop[j])
    && (s.main.Joining? ==> FlagsAreUp(s))
  }

  lemma {:induction false} RunsRaiseFlags(c: Config, steps: seq<Step>)
    requires Run(c, steps).Some?
    ensures FlagsRaised(c, Run(c, steps).value)
  {
    if steps != [] {
      var s := Before(c, steps);
      RunsRaiseFlags(c, steps[..|steps| - 1]);
      FlagsStayRaised(c, s, steps[|steps| - 1]);
    }
  }

  lemma FlagsStayRaised(c: Config, s: State, step: Step)
    requires Sized(c, s) && FlagsRaised(c, s) && Apply(c, s, step).Some?
    ensures FlagsRaised(c, Apply(c, s, step).value)
  {
    match step
    case OfWorker(t, act) => MainStays(c, s, t, act);
    case OfMain(_) =>
  }

  /** A worker leaves the main thread where it is, and only ever raises flags. */
  lemma MainStays(c: Config, s: State, t: nat, act: Act)
    requires Sized(c, s) && t < c.threads && WorkerStep(c, s, t, act).Some?
    ensures var s' := WorkerStep(c, s, t, act).value;
      s'.main == s.main && |s'.stop| == |s.stop| && forall j :: 0 <= j < |s.stop| && s.stop[j] ==> s'.stop[j]
  {
  }

  // ----- An empty batch -----

  lemma {:induction false} MainStops(c: Config, s: State, k: nat) returns (steps: seq<Step>, s': State)
    requires Sized(c, s) && s.main == MainStopping(k) && k <= c.threads && forall j :: 0 <= j < k ==> s.stop[j]
    ensures Leads(c, s, steps, s') && s' == s.(main := Joining, stop := s'.stop) && FlagsAreUp(s')
    decreases c.threads - k
  {
    var step := OfMain(MainRaiseFlag);
    var m := Apply(c, s, step).value;
    if k == c.threads {
      s' := m;
      LeadsOne(c, s, step);
      steps := [step];
    } else {
      var rest;
      rest, s' := MainStops(c, m, k + 1);
      LeadsFirst(c, s, step, rest, s');
      steps := [step] + rest;
    }
  }

  /** On an empty map the main thread goes on to wait for its workers, with all flags up. */
  lemma MainJoins(c: Config, s: State) returns (steps: seq<Step>, s': State)
    requires Sized(c, s) && FlagsRaised(c, s) && PastCount(s.main) && s.groups == []
    ensures Leads(c, s, steps, s') && s'.main == Joining && s'.groups == [] && s'.workers == s.workers && FlagsAreUp(s')
    decreases s.main.MainCounted?, s.main.MainCounted? && s.main.overflow
  {
    match s.main
    case Joining =>
      steps, s' := [], s;
      LeadsNowhere(c, s);
    case MainStopping(k) =>
      steps, s' := MainStops(c, s, k);
    case MainCounted(_, overflow) =>
      var step := OfMain(if overflow then PollClear else PollDecide);
      var m := Apply(c, s, step).value;
      var rest;
      rest, s' := MainJoins(c, m);
      LeadsFirst(c, s, step, rest, s');
      steps := [step] + rest;
  }

  /** Somebody has counted too many episodes and is about to clear the map. */
  ghost predicate ClearPending(s: State) {
    || (s.main.MainCounted? && s.main.overflow)
    || (exists u :: 0 <= u < |s.workers| && s.workers[u].Counted? && s.workers[u].overflow)
  }

  /** The pending clear happens, after everything that is held has been filed. */
  lemma ClearAfterFiling(c: Config, s: State) returns (steps: seq<Step>, s': State)
    requires Sized(c, s) && FlagsRaised(c, s) && PastCount(s.main) && ClearPending(s)
    ensures Leads(c, s, steps, s') && s'.groups == [] && FlagsRaised(c, s') && PastCount(s'.main)
    ensures forall u :: 0 <= u < |s'.workers| ==> !HoldsEpisode(s'.workers[u])
  {
    var a, filed := FileAllHeld(c, s, c.threads);
    var step: Step;
    if s.main.MainCounted? && s.main.overflow {
      step := OfMain(PollClear);
    } else {
      var u: nat :| u < |s.workers| && s.workers[u].Counted? && s.workers[u].overflow;
      step := OfWorker(u, Clear);
    }
    s' := Apply(c, filed, step).value;
    LeadsOne(c, filed, step);
    LeadsOn(c, s, a, filed, [step], s');
    steps := a + [step];
  }

  ghost predicate Short(c: Config, s: State) {
    s.main.Collected? && !Met(c, GroupByTask(s.main.batch))
  }

  /** On an empty map everybody leaves and the main thread collects nothing. */
  lemma CollectNothing(c: Config, s: State) returns (steps: seq<Step>, s': State)
    requires Sensible(c) && Sized(c, s) && s.main == Joining && s.groups == [] && FlagsAreUp(s)
    requires forall u :: 0 <= u < c.threads ==> !HoldsEpisode(s.workers[u])
    ensures Leads(c, s, steps, s') && s'.main == Collected([])
  {
    var a, gone := DriveAllOut(c, s, c.threads);
    assert AllExited(gone);
    var step := OfMain(Collecting);
    s' := Apply(c, gone, step).value;
    LeadsOne(c, gone, step);
    LeadsOn(c, s, a, gone, [step], s');
    steps := a + [step];
  }

  lemma NothingIsShort(c: Config, s: State)
    requires Sensible(c) && s.main == Collected([])
    ensures Short(c, s)
  {
    assert c.target * c.rolloutN > 0;
  }

  /** With a clear pending, the main thread may end up with an empty batch although it has counted enough. */
  lemma EmptyBatchReachable(c: Config, s: State) returns (steps: seq<Step>, s': State)
    requires Sensible(c) && Sized(c, s) && FlagsRaised(c, s) && PastCount(s.main) && ClearPending(s)
    ensures Leads(c, s, steps, s') && s'.main == Collected([]) && Short(c, s')
  {
    var a, cleared := ClearAfterFiling(c, s);
    var b, joining := MainJoins(c, cleared);
    LeadsOn(c, s, a, cleared, b, joining);
    var d;
    d, s' := CollectNothing(c, joining);
    LeadsOn(c, s, a + b, joining, d, s');
    steps := a + b + d;
    NothingIsShort(c, s');
  }

  // ----- Who may still file, and who may still count -----

  /** The worker may file one more episode, once the target is met. */
  ghost predicate MayFile(c: Config, s: State, u: nat)
    requires Sized(c, s) && u < c.threads
  {
    match s.workers[u]
    case Holding(o) => Fileable(o)
    case InEpisode => true
    case NotStarted => !s.stop[u]
    case Top => !s.stop[u]
    case Looking => !s.stop[u]
    case Counted(met, _) => !met && !s.stop[u]
    case Counting(unread, seen) => !Met(c, View(unread, seen, s.groups)) && !s.stop[u]
    case _ => false
  }

  ghost function Filers(c: Config, s: State): set<nat>
    requires Sized(c, s)
  {
    set u: nat | u < c.threads && MayFile(c, s, u)
  }

  /** The worker may begin another count. */
  ghost predicate MayCount(c: Config, s: State, u: nat)
    requires Sized(c, s) && u < c.threads
  {
    s.workers[u].Checking? || s.workers[u].Holding? || MayFile(c, s, u)
  }

  /** No check can clear the map any more: none is about to, the counts under way stay within the limit, and if there may be further
      ones, so do all cached episodes together with one for every worker that may still file. */
  ghost predicate SafeFromClears(c: Config, s: State)
    requires Sized(c, s)
  {
    && !ClearPending(s)
    && (c.how == EnoughEpisodes || (
      && (forall u :: 0 <= u < c.threads && MayCount(c, s, u) ==> Episodes(s.groups) + |Filers(c, s)| <= c.maxCached)
      && (forall u :: 0 <= u < c.threads && s.workers[u].Counting? ==>
            Episodes(View(s.workers[u].unread, s.workers[u].seen, s.groups)) <= c.maxCached)))
  }

  /** The state of a pool without clears whose main thread has counted enough. */
  ghost predicate Settled(c: Config, s: State) {
    && Sensible(c) && Sized(c, s) && Conserved(s) && FlagsRaised(c, s) && AllRead(s) && !s.cleared
    && (if s.main.Collected? then Met(c, GroupByTask(s.main.batch)) else PastCount(s.main) && Met(c, s.groups))
  }

  // ----- A safe pool stays safe -----

  lemma FilersShrink(c: Config, s: State, s': State)
    requires Sized(c, s) && Sized(c, s') && forall u :: 0 <= u < c.threads && MayFile(c, s', u) ==> MayFile(c, s, u)
    ensures |Filers(c, s')| <= |Filers(c, s)|
  {
    SubsetCount(Filers(c, s'), Filers(c, s));
  }

  lemma FilersShrinkByOne(c: Config, s: State, s': State, t: nat)
    requires Sized(c, s) && Sized(c, s') && forall u :: 0 <= u < c.threads && MayFile(c, s', u) ==> MayFile(c, s, u)
    requires t < c.threads && MayFile(c, s, t) && !MayFile(c, s', t)
    ensures |Filers(c, s')| + 1 <= |Filers(c, s)|
  {
    assert t !in Filers(c, s');
    SubsetCount(Filers(c, s') + {t}, Filers(c, s));
  }

  /** What one worker may do is decided by its phase and flag, unless it is counting. */
  lemma MayFileKept(c: Config, s: State, s': State, u: nat)
    requires Sized(c, s) && Sized(c, s') && u < c.threads && s'.workers[u] == s.workers[u] && (s.stop[u] ==> s'.stop[u])
    requires s'.groups == s.groups || (s.workers[u].Counting? ==>
        Met(c, View(s.workers[u].unread, s.workers[u].seen, s.groups)) ==> Met(c, View(s.workers[u].unread, s.workers[u].seen, s'.groups)))
    ensures MayFile(c, s', u) ==> MayFile(c, s, u)
  {
  }

  /** The moving worker, while it counts: it can do no more than before. */
  lemma CountingRights(c: Config, s: State, t: nat, act: Act)
    requires Sized(c, s) && WellFiled(s.groups) && Met(c, s.groups) && t < c.threads && WorkerStep(c, s, t, act).Some?
    requires act.Snapshot? || act.Read? || act.Tally?
    ensures var s' := WorkerStep(c, s, t, act).value;
      s'.groups == s.groups && (MayFile(c, s', t) ==> MayFile(c, s, t)) && (MayCount(c, s', t) ==> MayCount(c, s, t))
  {
    if act.Snapshot? {
      SnapshotReads(s.groups);
    } else if act.Read? {
      ReadKeepsView(s.workers[t].unread, s.workers[t].seen, s.groups);
    } else {
      assert View([], s.workers[t].seen, s.groups) == s.workers[t].seen;
    }
  }

  /** Nor by any other step that files nothing. */
  lemma OwnRights(c: Config, s: State, t: nat, act: Act)
    requires Sized(c, s) && t < c.threads && WorkerStep(c, s, t, act).Some?
    requires !act.Snapshot? && !act.Read? && !act.Tally? && !act.Clear? && !(act.File? && Fileable(s.workers[t].result))
    ensures var s' := WorkerStep(c, s, t, act).value;
      s'.groups == s.groups && (MayFile(c, s', t) ==> MayFile(c, s, t)) && (MayCount(c, s', t) ==> MayCount(c, s, t))
  {
  }

  /** Nor does its count see more than allowed. */
  lemma OwnCountIsSmall(c: Config, s: State, t: nat, act: Act)
    requires Settled(c, s) && SafeFromClears(c, s) && c.how != EnoughEpisodes
    requires !s.main.Collected? && t < c.threads && WorkerStep(c, s, t, act).Some? && !act.File?
    ensures var s' := WorkerStep(c, s, t, act).value;
      && !act.Clear? && !(s'.workers[t].Counted? && s'.workers[t].overflow)
      && (s'.workers[t].Counting? ==>
            Episodes(View(s'.workers[t].unread, s'.workers[t].seen, s'.groups)) <= c.maxCached)
  {
    if act.Snapshot? {
      SnapshotReads(s.groups);
      assert MayCount(c, s, t);
    } else if act.Read? {
      ReadKeepsView(s.workers[t].unread, s.workers[t].seen, s.groups);
    } else if act.Tally? {
      assert View([], s.workers[t].seen, s.groups) == s.workers[t].seen;
    }
  }

  /** The parts of `Settled` that any step without a clear keeps. */
  lemma SettledStep(c: Config, s: State, step: Step)
    requires Settled(c, s) && Apply(c, s, step).Some? && !Clears(step)
    ensures Settled(c, Apply(c, s, step).value)
  {
    FlagsStayRaised(c, s, step);
    MetPersists(c, s, step);
    match step {
      case OfWorker(t, act) =>
        ConservedWorkerStep(c, s, t, act);
        WorkerKeepsReads(c, s, t, act);
        MainStays(c, s, t, act);
        if s.main.Collected? {
          CollectedIsOver(c, s, t, act);
        }
      case OfMain(act) =>
        ConservedMainStep(c, s, act);
        MainKeepsReads(c, s, act);
    }
  }

  lemma SafeQuietStep(c: Config, s: State, t: nat, act: Act)
    requires Settled(c, s) && SafeFromClears(c, s) && c.how != EnoughEpisodes
    requires !s.main.Collected? && t < c.threads && WorkerStep(c, s, t, act).Some? && !(act.File? && Fileable(s.workers[t].result))
    ensures !act.Clear? && SafeFromClears(c, WorkerStep(c, s, t, act).value)
  {
    var s' := WorkerStep(c, s, t, act).value;
    MapStep(c, s, t, act);
    MainStays(c, s, t, act);
    if !act.File? {
      OwnCountIsSmall(c, s, t, act);
    }
    if act.Snapshot? || act.Read? || act.Tally? {
      CountingRights(c, s, t, act);
    } else {
      OwnRights(c, s, t, act);
    }
    forall u | 0 <= u < c.threads
      ensures MayFile(c, s', u) ==> MayFile(c, s, u)
    {
      if u != t {
        MayFileKept(c, s, s', u);
      }
    }
    FilersShrink(c, s, s');
    forall u | 0 <= u < c.threads && MayCount(c, s', u)
      ensures Episodes(s'.groups) + |Filers(c, s')| <= c.maxCached
    {
      assert MayCount(c, s, u);
    }
    forall u | 0 <= u < c.threads && s'.workers[u].Counting?
      ensures Episodes(View(s'.workers[u].unread, s'.workers[u].seen, s'.groups)) <= c.maxCached
    {
      assert u != t ==> s'.workers[u] == s.workers[u];
    }
  }

  /** Another worker gains no right to file when an episode is filed. */
  lemma FilingGivesNoRights(c: Config, s: State, t: nat, u: nat)
    requires Settled(c, s) && !s.main.Collected? && t < c.threads && HoldsEpisode(s.workers[t])
    requires u < c.threads && u != t
    ensures MayFile(c, WorkerStep(c, s, t, File).value, u) ==> MayFile(c, s, u)
  {
    var s', x := WorkerStep(c, s, t, File).value, s.workers[t].result.tracker;
    assert PhaseReads(s.workers[u], s.groups);
    if s.workers[u].Counting? && Met(c, View(s.workers[u].unread, s.workers[u].seen, s.groups)) {
      OtherStaysSpent(c, s, s.workers[u], x);
    }
    MayFileKept(c, s, s', u);
  }

  /** A count under way sees no more episodes than there are. */
  lemma ViewsStaySmall(c: Config, s: State, u: nat)
    requires Sized(c, s) && WellFiled(s.groups) && AllRead(s) && u < c.threads && s.workers[u].Counting?
    ensures Episodes(View(s.workers[u].unread, s.workers[u].seen, s.groups)) <= Episodes(s.groups)
  {
    assert PhaseReads(s.workers[u], s.groups);
    ViewIsOlder(s.workers[u].unread, s.workers[u].seen, s.groups);
    OlderCounts(View(s.workers[u].unread, s.workers[u].seen, s.groups), s.groups, c.rolloutN);
  }

  lemma OneFilerLess(c: Config, s: State, t: nat)
    requires Settled(c, s) && !s.main.Collected? && t < c.threads && HoldsEpisode(s.workers[t])
    ensures |Filers(c, WorkerStep(c, s, t, File).value)| + 1 <= |Filers(c, s)|
  {
    var s' := WorkerStep(c, s, t, File).value;
    forall u | 0 <= u < c.threads
      ensures MayFile(c, s', u) ==> MayFile(c, s, u)
    {
      if u != t {
        FilingGivesNoRights(c, s, t, u);
      }
    }
    FilersShrinkByOne(c, s, s', t);
  }

  lemma SafeFiling(c: Config, s: State, t: nat)
    requires Settled(c, s) && SafeFromClears(c, s) && c.how != EnoughEpisodes
    requires !s.main.Collected? && t < c.threads && HoldsEpisode(s.workers[t])
    ensures SafeFromClears(c, WorkerStep(c, s, t, File).value)
  {
    var s' := WorkerStep(c, s, t, File).value;
    SettledStep(c, s, OfWorker(t, File));
    CountsAreMonotone(s.groups, s.workers[t].result.tracker, c.rolloutN);
    OneFilerLess(c, s, t);
    assert MayCount(c, s, t);
    forall u | 0 <= u < c.threads && s'.workers[u].Counting?
      ensures Episodes(View(s'.workers[u].unread, s'.workers[u].seen, s'.groups)) <= c.maxCached
    {
      ViewsStaySmall(c, s', u);
    }
  }

  lemma SafeMainStep(c: Config, s: State, act: MainAct)
    requires Settled(c, s) && SafeFromClears(c, s) && MainStep(c, s, act).Some?
    ensures !act.PollClear? && SafeFromClears(c, MainStep(c, s, act).value)
  {
    if act.Collecting? {
      CollectedIsSafe(c, s);
    } else {
      MainRights(c, s, act);
    }
  }

  lemma CollectedIsSafe(c: Config, s: State)
    requires Sized(c, s) && MainStep(c, s, Collecting).Some?
    ensures SafeFromClears(c, MainStep(c, s, Collecting).value)
  {
  }

  lemma MainRights(c: Config, s: State, act: MainAct)
    requires Sized(c, s) && MainStep(c, s, act).Some? && !act.PollClear? && !act.Collecting?
    ensures var s' := MainStep(c, s, act).value;
      && s'.groups == s.groups && s'.workers == s.workers && |Filers(c, s')| <= |Filers(c, s)|
      && (forall u :: 0 <= u < c.threads && MayCount(c, s', u) ==> MayCount(c, s, u))
  {
    var s' := MainStep(c, s, act).value;
    forall u | 0 <= u < c.threads
      ensures MayFile(c, s', u) ==> MayFile(c, s, u)
    {
      MayFileKept(c, s, s', u);
    }
    FilersShrink(c, s, s');
  }

  lemma SafeStep(c: Config, s: State, step: Step)
    requires Settled(c, s) && SafeFromClears(c, s) && Apply(c, s, step).Some?
    ensures Settled(c, Apply(c, s, step).value) && SafeFromClears(c, Apply(c, s, step).value)
  {
    match step {
      case OfMain(act) =>
        SafeMainStep(c, s, act);
      case OfWorker(t, act) =>
        if s.main.Collected? {
          CollectedIsOver(c, s, t, act);
        } else if c.how == EnoughEpisodes {
          NoOverflow(c, s, t, act);
        } else if act.File? && Fileable(s.workers[t].result) {
          SafeFiling(c, s, t);
        } else {
          SafeQuietStep(c, s, t, act);
        }
    }
    SettledStep(c, s, step);
  }

  lemma NoOverflow(c: Config, s: State, t: nat, act: Act)
    requires Sized(c, s) && c.how == EnoughEpisodes && !ClearPending(s) && t < c.threads && WorkerStep(c, s, t, act).Some?
    ensures !act.Clear? && !ClearPending(WorkerStep(c, s, t, act).value)
  {
    MapStep(c, s, t, act);
  }

  lemma {:induction false} SafeForGood(c: Config, s: State, steps: seq<Step>, s': State)
    requires Settled(c, s) && SafeFromClears(c, s) && Leads(c, s, steps, s')
    ensures Settled(c, s')
    decreases |steps|
  {
    if steps != [] {
      SafeStep(c, s, steps[0]);
      SafeForGood(c, Apply(c, s, steps[0]).value, steps[1..], s');
    }
  }

  // ----- An unsafe pool can be made to clear -----

  /** Merging leaves an episode of a single timeline in place. */
  ghost predicate CanEarn(c: Config) {
    c.policy.merged([0]) > 0
  }

  /** A count under way is brought to its end; nobody else moves. */
  lemma {:induction false} FinishCount(c: Config, s: State, u: nat) returns (steps: seq<Step>, s': State)
    requires Sized(c, s) && u < c.threads && s.workers[u].Counting?
    ensures var view := View(s.workers[u].unread, s.workers[u].seen, s.groups);
      Leads(c, s, steps, s') && s' == At(s, u, Counted(Met(c, view), Overflows(c, view)))
    decreases |s.workers[u].unread|
  {
    var unread, seen := s.workers[u].unread, s.workers[u].seen;
    if unread == [] {
      s' := Apply(c, s, OfWorker(u, Tally)).value;
      LeadsOne(c, s, OfWorker(u, Tally));
      steps := [OfWorker(u, Tally)];
      assert View(unread, seen, s.groups) == seen;
    } else {
      var m := Apply(c, s, OfWorker(u, Read)).value;
      ReadKeepsView(unread, seen, s.groups);
      var rest;
      rest, s' := FinishCount(c, m, u);
      LeadsFirst(c, s, OfWorker(u, Read), rest, s');
      steps := [OfWorker(u, Read)] + rest;
      assert s'.workers == s.workers[u := s'.workers[u]];
    }
  }

  predicate Ready(p: Phase) {
    p.InEpisode? || (p.Holding? && Fileable(p.result))
  }

  function ReadyRank(p: Phase): nat {
    match p
    case Counting(_, _) => 4
    case Counted(_, _) => 3
    case Looking => 2
    case NotStarted => 2
    case Top => 1
    case _ => 0
  }

  /** A worker that may file gets to where it has an episode to run or to file; nobody else moves. */
  lemma {:induction false} MakeReady(c: Config, s: State, u: nat) returns (steps: seq<Step>, s': State)
    requires Sized(c, s) && u < c.threads && MayFile(c, s, u) && !(s.workers[u].Counted? && s.workers[u].overflow)
    requires s.workers[u].Counting? ==> !Overflows(c, View(s.workers[u].unread, s.workers[u].seen, s.groups))
    ensures Leads(c, s, steps, s') && Ready(s'.workers[u]) && s' == At(s, u, s'.workers[u])
    decreases ReadyRank(s.workers[u])
  {
    if Ready(s.workers[u]) {
      steps, s' := [], s;
      LeadsNowhere(c, s);
      assert s.workers[u := s.workers[u]] == s.workers;
    } else {
      var first, m;
      if s.workers[u].Counting? {
        first, m := FinishCount(c, s, u);
      } else {
        var act := LeaveAct(s.workers[u]);
        m := WorkerStep(c, s, u, act).value;
        LeadsOne(c, s, OfWorker(u, act));
        first := [OfWorker(u, act)];
      }
      var rest;
      rest, s' := MakeReady(c, m, u);
      LeadsOn(c, s, first, m, rest, s');
      steps := first + rest;
      assert s.workers[u := m.workers[u]][u := s'.workers[u]] == s.workers[u := s'.workers[u]];
    }
  }

  /** Nobody is about to clear, and no count under way will be. */
  ghost predicate NoneOverflows(c: Config, s: State)
    requires Sized(c, s)
  {
    forall u :: 0 <= u < c.threads ==>
      && !(s.workers[u].Counted? && s.workers[u].overflow)
      && (s.workers[u].Counting? ==> !Overflows(c, View(s.workers[u].unread, s.workers[u].seen, s.groups)))
  }

  /** The first n of those that may file get ready. */
  lemma {:induction false} MakeAllReady(c: Config, s: State, n: nat) returns (steps: seq<Step>, s': State)
    requires Sized(c, s) && n <= c.threads && NoneOverflows(c, s)
    ensures Leads(c, s, steps, s') && s' == s.(workers := s'.workers)
    ensures forall u :: 0 <= u < c.threads && (u >= n || u !in Filers(c, s)) ==> s'.workers[u] == s.workers[u]
    ensures forall u :: 0 <= u < n && u in Filers(c, s) ==> Ready(s'.workers[u])
  {
    if n == 0 {
      steps, s' := [], s;
      LeadsNowhere(c, s);
    } else {
      var before, m := MakeAllReady(c, s, n - 1);
      var u := n - 1;
      if u in Filers(c, s) {
        var rest;
        rest, s' := MakeReady(c, m, u);
        LeadsOn(c, s, before, m, rest, s');
        steps := before + rest;
      } else {
        steps, s' := before, m;
      }
    }
  }

  // ----- New episodes -----

  lemma {:induction false} LongerThanAll(used: set<Id>) returns (id: Id)
    ensures id != "" && forall x :: x in used ==> |x| < |id|
  {
    if used == {} {
      id := "e";
    } else {
      var x :| x in used;
      var y := LongerThanAll(used - {x});
      id := x + y;
      forall z | z in used
        ensures |z| < |id|
      {
        assert z == x || z in used - {x};
      }
    }
  }

  function HeldIds(workers: seq<Phase>): set<Id> {
    set u: nat | u < |workers| && Held(workers[u]).Some? :: Held(workers[u]).value.uuid
  }

  lemma FreshIdExists(s: State) returns (id: Id)
    ensures FreshId(s, id)
  {
    var filed := set x | x in s.inserted :: x.uuid;
    id := LongerThanAll(filed + HeldIds(s.workers));
    forall x | x in s.inserted
      ensures x.uuid != id
    {
      assert x.uuid in filed;
    }
    forall u | 0 <= u < |s.workers| && Held(s.workers[u]).Some?
      ensures Held(s.workers[u]).value.uuid != id
    {
      assert Held(s.workers[u]).value.uuid in HeldIds(s.workers);
    }
  }

  /** One timeline is recorded and an output comes in. */
  function Earning(id: Id): Attempt {
    SwarmEpisode.Attempt(id, false, true, [Recorded(0, false), Received(Other(Some(WorkflowOutput(Some("t"), Scalar(0.0)))))])
  }

  lemma EarningEarns(c: Config, id: Id)
    requires CanEarn(c)
    ensures var o := Retry([Earning(id)], c.policy); Fileable(o) && o.tracker.uuid == id
  {
    var events := Earning(id).events;
    var output := events[1];
    assert events[1..] == [output];
    assert Wait(events, [], false, []) == Wait([output], [0], false, []);
    assert Wait([output], [0], false, []) == Waited(Ended(output.message.parsed), [0], false, [Receive(output.message), Ack]);
  }

  /** A ready worker files an episode; the map holds one more, and nobody else moves. */
  lemma FileOne(c: Config, s: State, u: nat) returns (steps: seq<Step>, s': State)
    requires Sized(c, s) && u < c.threads && CanEarn(c) && Ready(s.workers[u])
    ensures Leads(c, s, steps, s') && OnlyMoved(s, s', u) && s'.workers[u] == Checking
    ensures Episodes(s'.groups) == Episodes(s.groups) + 1
  {
    var m, first := s, [];
    LeadsNowhere(c, s);
    if s.workers[u].InEpisode? {
      var id := FreshIdExists(s);
      EarningEarns(c, id);
      var step := OfWorker(u, Finish([Earning(id)]));
      m := Apply(c, s, step).value;
      LeadsOne(c, s, step);
      first := [step];
    }
    CountsAreMonotone(m.groups, m.workers[u].result.tracker, c.rolloutN);
    s' := Apply(c, m, OfWorker(u, File)).value;
    LeadsOne(c, m, OfWorker(u, File));
    LeadsOn(c, s, first, m, [OfWorker(u, File)], s');
    steps := first + [OfWorker(u, File)];
  }

  function Below(f: set<nat>, n: nat): nat {
    if n == 0 then 0 else Below(f, n - 1) + (if n - 1 in f then 1 else 0)
  }

  lemma {:induction false} BelowIsCount(f: set<nat>, n: nat)
    requires forall u :: u in f ==> u < n
    ensures Below(f, n) == |f|
  {
    if n == 0 {
      assert f == {};
    } else if n - 1 in f {
      BelowIsCount(f - {n - 1}, n - 1);
      BelowIgnores(f, n - 1, n - 1);
    } else {
      BelowIsCount(f, n - 1);
    }
  }

  lemma {:induction false} BelowIgnores(f: set<nat>, x: nat, n: nat)
    requires n <= x
    ensures Below(f - {x}, n) == Below(f, n)
  {
    if n > 0 {
      BelowIgnores(f, x, n - 1);
    }
  }

  /** The first n of these ready workers file an episode each. */
  lemma {:induction false} FileEach(c: Config, s: State, f: set<nat>, n: nat) returns (steps: seq<Step>, s': State)
    requires Sized(c, s) && n <= c.threads && CanEarn(c) && forall u :: u in f ==> u < c.threads && Ready(s.workers[u])
    ensures Leads(c, s, steps, s') && s'.main == s.main && s'.stop == s.stop
    ensures Episodes(s'.groups) == Episodes(s.groups) + Below(f, n)
    ensures forall u :: 0 <= u < c.threads && (u >= n || u !in f) ==> s'.workers[u] == s.workers[u]
    ensures forall u :: 0 <= u < n && u in f ==> s'.workers[u] == Checking
  {
    if n == 0 {
      steps, s' := [], s;
      LeadsNowhere(c, s);
    } else {
      var before, m := FileEach(c, s, f, n - 1);
      var u: nat := n - 1;
      if u in f {
        assert m.workers[u] == s.workers[u] && Ready(m.workers[u]);
        var rest;
        rest, s' := FileOne(c, m, u);
        LeadsOn(c, s, before, m, rest, s');
        steps := before + rest;
      } else {
        steps, s' := before, m;
      }
    }
  }

  /** A worker about to check counts a map that is too full. */
  lemma CheckOverflows(c: Config, s: State, u: nat) returns (steps: seq<Step>, s': State)
    requires Sized(c, s) && u < c.threads && s.workers[u].Checking? && WellFiled(s.groups) && Overflows(c, s.groups)
    ensures Leads(c, s, steps, s') && s'.main == s.main && s'.stop == s.stop && ClearPending(s')
  {
    var m := Apply(c, s, OfWorker(u, Snapshot)).value;
    LeadsOne(c, s, OfWorker(u, Snapshot));
    SnapshotReads(s.groups);
    var rest;
    rest, s' := FinishCount(c, m, u);
    LeadsOn(c, s, [OfWorker(u, Snapshot)], m, rest, s');
    steps := [OfWorker(u, Snapshot)] + rest;
    assert s'.workers[u].Counted? && s'.workers[u].overflow;
  }

  /** When all that may file have filed, somebody is about to check. */
  lemma FillAndCheck(c: Config, s: State, u: nat) returns (steps: seq<Step>, s': State)
    requires Settled(c, s) && !s.main.Collected? && CanEarn(c) && NoneOverflows(c, s) && c.how != EnoughEpisodes
    requires u < c.threads && MayCount(c, s, u) && Episodes(s.groups) + |Filers(c, s)| > c.maxCached
    ensures Leads(c, s, steps, s') && s'.main == s.main && s'.stop == s.stop && ClearPending(s')
  {
    var f := Filers(c, s);
    var a, ready := MakeAllReady(c, s, c.threads);
    var b, filed := FileEach(c, ready, f, c.threads);
    BelowIsCount(f, c.threads);
    LeadsOn(c, s, a, ready, b, filed);
    LeadsConserved(c, s, a + b, filed);
    var checker, e, checking := u, [], filed;
    LeadsNowhere(c, filed);
    if u !in f && s.workers[u].Holding? {
      checking := Apply(c, filed, OfWorker(u, File)).value;
      LeadsOne(c, filed, OfWorker(u, File));
      e := [OfWorker(u, File)];
    }
    LeadsOn(c, s, a + b, filed, e, checking);
    var d;
    d, s' := CheckOverflows(c, checking, checker);
    LeadsOn(c, s, a + b + e, checking, d, s');
    steps := a + b + e + d;
  }

  lemma ToPending(c: Config, s: State) returns (steps: seq<Step>, s': State)
    requires Settled(c, s) && !s.main.Collected? && CanEarn(c) && !SafeFromClears(c, s)
    ensures Leads(c, s, steps, s') && s'.main == s.main && s'.stop == s.stop && ClearPending(s')
  {
    if ClearPending(s) {
      steps, s' := [], s;
      LeadsNowhere(c, s);
    } else if !NoneOverflows(c, s) {
      var u :| 0 <= u < c.threads && s.workers[u].Counting?
        && Overflows(c, View(s.workers[u].unread, s.workers[u].seen, s.groups));
      steps, s' := FinishCount(c, s, u);
      assert s'.workers[u].Counted? && s'.workers[u].overflow;
    } else {
      var u :| 0 <= u < c.threads && MayCount(c, s, u) && Episodes(s.groups) + |Filers(c, s)| > c.maxCached;
      steps, s' := FillAndCheck(c, s, u);
    }
  }

  // ----- The guarantee -----

  ghost predicate EveryBatchMeets(c: Config, s: State)
    requires Sized(c, s)
  {
    forall steps: seq<Step>, s': State :: Leads(c, s, steps, s') && s'.main.Collected? ==> !Short(c, s')
  }

  lemma EveryBatchMeetsIff(c: Config, s: State)
    requires Settled(c, s) && !s.main.Collected? && CanEarn(c)
    ensures EveryBatchMeets(c, s) <==> SafeFromClears(c, s)
  {
    if SafeFromClears(c, s) {
      forall steps: seq<Step>, s': State | Leads(c, s, steps, s') && s'.main.Collected?
        ensures !Short(c, s')
      {
        SafeForGood(c, s, steps, s');
      }
    } else {
      var a, pending := ToPending(c, s);
      var b, s' := EmptyBatchReachable(c, pending);
      LeadsOn(c, s, a, pending, b, s');
    }
  }

  /** Over whole interleavings: once the main thread has counted enough in a run without clears, every batch it can still collect meets
      the target if and only if no check can clear the map any more.  That is: nobody is about to clear, no count under way exceeds
      the limit, and unless nobody will begin another count, the cached episodes and one more for each worker that may still
      file stay within it.  Otherwise the batch can even be empty. */
  lemma BatchIsSureIff(c: Config, steps: seq<Step>)
    requires Sensible(c) && CanEarn(c) && Run(c, steps).Some?
    requires !Run(c, steps).value.cleared && PastCount(Run(c, steps).value.main)
    ensures (forall more :: Run(c, steps + more).Some? && Run(c, steps + more).value.main.Collected? ==>
        Met(c, GroupByTask(Run(c, steps + more).value.main.batch)))
      <==> SafeFromClears(c, Run(c, steps).value)
  {
    var s := Run(c, steps).value;
    RunsConserve(c, steps);
    RunsAreTruthful(c, steps);
    RunsRaiseFlags(c, steps);
    EveryBatchMeetsIff(c, s);
    if SafeFromClears(c, s) {
      forall more | Run(c, steps + more).Some? && Run(c, steps + more).value.main.Collected?
        ensures Met(c, GroupByTask(Run(c, steps + more).value.main.batch))
      {
        RunThenFrom(c, steps, more);
        assert Leads(c, s, more, Run(c, steps + more).value);
      }
    } else {
      var more: seq<Step>, s': State :| Leads(c, s, more, s') && s'.main.Collected? && Short(c, s');
      RunThenFrom(c, steps, more);
    }
  }
}
