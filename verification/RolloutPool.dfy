/** The swarm rollout pool as interleaved steps: `rollout_swarm` of ajet/task_rollout/native_parallel_worker.py and
`rollout_env_worker_loop` of ajet/task_rollout/single_worker.py.

Each thread moves through the phases of its loop and the main thread through its own; a step moves one of them.
A count takes a snapshot of the keys and then reads one entry a step, as `IterationSafeDict` does; clearing the map and acting on
the count are further steps, and stop flags are raised one at a time, because the source does none of this under a lock.  A run
is any sequence of enabled steps. */
module RolloutPool {
  import opened PyList
  import opened TaskGroups
  import opened TaskTargets
  import opened SwarmEpisode

  /** The collection methods that count. */
  datatype Method = EnoughEpisodes | EnoughTasks | EnoughNonDummyTasks

  datatype Config = Config(threads: nat, target: nat, rolloutN: nat, how: Method, maxCached: int, policy: Policy)

  ghost predicate Sensible(c: Config) {
    c.target > 0 && c.rolloutN > 0 && c.threads > 0
  }

  // ----- The stop condition -----

  /** Is the target met by this map? */
  predicate Met(c: Config, groups: seq<Group>) {
    match c.how
    case EnoughEpisodes => Episodes(groups) >= c.target * c.rolloutN
    case EnoughTasks => FinishedTasks(groups, c.rolloutN) >= c.target
    case EnoughNonDummyTasks => NonDummyTasks(groups, c.rolloutN) >= c.target
  }

  /** Does evaluating the condition on this map also clear it? */
  predicate Overflows(c: Config, groups: seq<Group>) {
    c.how != EnoughEpisodes && Episodes(groups) > c.maxCached
  }

  /** `stop_condition(map)` evaluated without interruption: the verdict comes from the counts taken before the clear. */
  method StopCondition(c: Config, groups: seq<Group>) returns (met: bool, left: seq<Group>)
    ensures met == Met(c, groups)
    ensures left == if Overflows(c, groups) then [] else groups
    ensures left == if c.how != EnoughEpisodes && |Collect(groups)| > c.maxCached then [] else groups
  {
    var episodes, tasks, nonDummyTasks := CountTasks(groups, c.rolloutN);
    left := groups;
    match c.how {
      case EnoughEpisodes =>
        met := episodes >= c.target * c.rolloutN;
      case EnoughTasks =>
        if episodes > c.maxCached {
          left := [];
        }
        met := tasks >= c.target;
      case EnoughNonDummyTasks =>
        if episodes > c.maxCached {
          left := [];
        }
        met := nonDummyTasks >= c.target;
    }
  }

  /** What the target asks of the episodes in a well-filed map: enough of them, or enough tasks with `rolloutN` of them each, or
      enough such tasks with two different rewards. */
  lemma MetIff(c: Config, groups: seq<Group>)
    requires WellFiled(groups)
    ensures c.how == EnoughEpisodes ==> (Met(c, groups) <==> |Collect(groups)| >= c.target * c.rolloutN)
    ensures c.how == EnoughTasks ==> (Met(c, groups) <==> |FullTasks(Collect(groups), c.rolloutN)| >= c.target)
    ensures c.how == EnoughNonDummyTasks ==> (Met(c, groups) <==> |MixedTasks(Collect(groups), c.rolloutN)| >= c.target)
  {
    CountsAreTasks(groups, c.rolloutN);
  }

  /** The same for a batch. */
  lemma BatchMeetsIff(c: Config, batch: seq<Tracker>)
    ensures c.how == EnoughEpisodes ==> (Met(c, GroupByTask(batch)) <==> |batch| >= c.target * c.rolloutN)
    ensures c.how == EnoughTasks ==> (Met(c, GroupByTask(batch)) <==> |FullTasks(batch, c.rolloutN)| >= c.target)
    ensures c.how == EnoughNonDummyTasks ==> (Met(c, GroupByTask(batch)) <==> |MixedTasks(batch, c.rolloutN)| >= c.target)
  {
    CountsOfBatch(batch, c.rolloutN);
    GroupingCollects(batch);
    assert |multiset(Collect(GroupByTask(batch)))| == |multiset(batch)|;
  }

  lemma MetIsMonotone(c: Config, groups: seq<Group>, x: Tracker)
    requires Met(c, groups)
    ensures Met(c, Insert(groups, x))
  {
    CountsAreMonotone(groups, x, c.rolloutN);
  }

  /** A check that succeeds leaves a map on which the next check succeeds exactly when it did not overflow. */
  lemma MetSurvivesCheckIff(c: Config, groups: seq<Group>)
    requires Sensible(c) && Met(c, groups)
    ensures Met(c, if Overflows(c, groups) then [] else groups) <==> !Overflows(c, groups)
  {
    assert c.target * c.rolloutN > 0;
  }

  // ----- States and steps -----

  datatype Phase =
    | NotStarted
    | Top                                  // about to look at its stop flag, before an episode
    | InEpisode
    | Holding(result: Outcome)             // the episode is over, nothing filed yet
    | Checking                             // about to take the snapshot of the keys
    | Counting(unread: seq<Id>, seen: seq<Group>)   // keys still to be read, and the entries as they were read
    | Counted(met: bool, overflow: bool)   // has counted, may still have to clear
    | Stopping(next: nat)                  // raising the stop flags from `next` on
    | Looking                              // the condition was not met; about to look at its stop flag
    | Exited(failed: bool)                 // returned, or died of an exception

  datatype MainPhase =
    | Polling
    | MainCounting(unread: seq<Id>, seen: seq<Group>)
    | MainCounted(met: bool, overflow: bool)
    | MainStopping(next: nat)
    | Joining
    | Collected(batch: seq<Tracker>)

  /** `inserted`, `discarded`, `cleared` and `late` record the run: everything ever filed, what a clear threw away, whether there was
      a clear, and how many episodes were filed when the target was already met. */
  datatype State = State(
    workers: seq<Phase>, main: MainPhase, stop: seq<bool>, groups: seq<Group>,
    inserted: multiset<Tracker>, discarded: multiset<Tracker>, cleared: bool, late: nat)

  datatype Act =
    | Start | LookAtTop | Finish(attempts: seq<Attempt>) | File | Snapshot | Read | Tally | Clear | Decide | RaiseFlag | LookAgain

  datatype MainAct = PollSnapshot | PollRead | PollTally | PollClear | PollDecide | MainRaiseFlag | Collecting

  datatype Step = OfWorker(t: nat, act: Act) | OfMain(mainAct: MainAct)

  function Init(c: Config): State {
    State(seq(c.threads, _ => NotStarted), Polling, seq(c.threads, _ => false), [], multiset{}, multiset{}, false, 0)
  }

  ghost predicate Sized(c: Config, s: State) {
    |s.workers| == |s.stop| == c.threads
  }

  function At(s: State, t: nat, p: Phase): State
    requires t < |s.workers|
  {
    s.(workers := s.workers[t := p])
  }

  /** The map is cleared; its episodes are lost. */
  function Cleared(s: State): State {
    s.(groups := [], discarded := s.discarded + multiset(Collect(s.groups)), cleared := true)
  }

  /** The episode this worker has finished and not yet filed. */
  function Held(p: Phase): Option<Tracker> {
    if p.Holding? && p.result.Episode? then Some(p.result.tracker) else None
  }

  /** No other episode carries this id: ids are drawn afresh for each attempt. */
  ghost predicate FreshId(s: State, uuid: Id) {
    && (forall x :: x in s.inserted ==> x.uuid != uuid)
    && (forall u :: 0 <= u < |s.workers| && Held(s.workers[u]).Some? ==> Held(s.workers[u]).value.uuid != uuid)
  }

  function Tasks(groups: seq<Group>): seq<Id> {
    seq(|groups|, i requires 0 <= i < |groups| => groups[i].task)
  }

  /** `self[key]` if the key is still there. */
  function EntryOf(groups: seq<Group>, task: Id): seq<Group> {
    if groups == [] then [] else if groups[0].task == task then [groups[0]] else EntryOf(groups[1..], task)
  }

  /** The episode is filed under its task. */
  function Filed(c: Config, s: State, x: Tracker): State {
    s.(groups := Insert(s.groups, x), inserted := s.inserted + multiset{x}, late := if Met(c, s.groups) then s.late + 1 else s.late)
  }

  /** What a worker's step does, if it is enabled. */
  ghost function WorkerStep(c: Config, s: State, t: nat, act: Act): (r: Option<State>)
    requires Sized(c, s) && t < c.threads
    ensures r.Some? ==> Sized(c, r.value)
  {
    match (act, s.workers[t])
    case (Start, NotStarted) => Some(At(s, t, Top))
    case (LookAtTop, Top) => Some(At(s, t, if s.stop[t] then Exited(false) else InEpisode))
    case (Finish(attempts), InEpisode) =>
      var o := Retry(attempts, c.policy);
      if o.StillWaiting? || (o.Episode? && !FreshId(s, o.tracker.uuid)) then None
      else Some(At(s, t, if o.Raised? then Exited(true) else Holding(o)))
    case (File, Holding(o)) => Some(At(if Fileable(o) then Filed(c, s, o.tracker) else s, t, Checking))
    case (Snapshot, Checking) => Some(At(s, t, Counting(Tasks(s.groups), [])))
    case (Read, Counting(unread, seen)) =>
      if unread == [] then None else Some(At(s, t, Counting(unread[1..], seen + EntryOf(s.groups, unread[0]))))
    case (Tally, Counting(unread, seen)) =>
      if unread != [] then None else Some(At(s, t, Counted(Met(c, seen), Overflows(c, seen))))
    case (Clear, Counted(met, true)) => Some(At(Cleared(s), t, Counted(met, false)))
    case (Decide, Counted(met, false)) =>
      Some(At(s, t, if !met then Looking else if forall u :: 0 <= u < c.threads ==> s.stop[u] then Exited(false) else Stopping(0)))
    case (RaiseFlag, Stopping(k)) =>
      Some(if k < c.threads then At(s, t, Stopping(k + 1)).(stop := s.stop[k := true]) else At(s, t, Exited(false)))
    case (LookAgain, Looking) => Some(At(s, t, if s.stop[t] then Exited(false) else Top))
    case _ => None
  }

  ghost predicate AllExited(s: State) {
    forall u :: 0 <= u < |s.workers| ==> s.workers[u].Exited?
  }

  /** What a step of the main thread does, if it is enabled. */
  ghost function MainStep(c: Config, s: State, act: MainAct): (r: Option<State>)
    requires Sized(c, s)
    ensures r.Some? ==> Sized(c, r.value)
  {
    match (act, s.main)
    case (PollSnapshot, Polling) => Some(s.(main := MainCounting(Tasks(s.groups), [])))
    case (PollRead, MainCounting(unread, seen)) =>
      if unread == [] then None else Some(s.(main := MainCounting(unread[1..], seen + EntryOf(s.groups, unread[0]))))
    case (PollTally, MainCounting(unread, seen)) =>
      if unread != [] then None else Some(s.(main := MainCounted(Met(c, seen), Overflows(c, seen))))
    case (PollClear, MainCounted(met, true)) => Some(Cleared(s).(main := MainCounted(met, false)))
    case (PollDecide, MainCounted(met, false)) => Some(s.(main := if met then MainStopping(0) else Polling))
    case (MainRaiseFlag, MainStopping(k)) =>
      Some(if k < c.threads then s.(main := MainStopping(k + 1), stop := s.stop[k := true]) else s.(main := Joining))
    case (Collecting, Joining) => if AllExited(s) then Some(s.(main := Collected(Collect(s.groups)), groups := [])) else None
    case _ => None
  }

  ghost function Apply(c: Config, s: State, step: Step): (r: Option<State>)
    requires Sized(c, s)
    ensures r.Some? ==> Sized(c, r.value)
  {
    match step
    case OfWorker(t, act) => if t < c.threads then WorkerStep(c, s, t, act) else None
    case OfMain(act) => MainStep(c, s, act)
  }

  /** The state after these steps, if each was enabled in its turn. */
  ghost function Run(c: Config, steps: seq<Step>): (r: Option<State>)
    ensures r.Some? ==> Sized(c, r.value)
  {
    if steps == [] then Some(Init(c))
    else
      var before := Run(c, steps[..|steps| - 1]);
      if before == None then None else Apply(c, before.value, steps[|steps| - 1])
  }

  // ----- Conservation: every filed episode ends up in the batch once, unless a clear discarded it -----

  /** The episodes still to be found: in the map, or in the batch once it has been collected. */
  function Present(s: State): seq<Tracker> {
    if s.main.Collected? then s.main.batch else Collect(s.groups)
  }

  ghost predicate Conserved(s: State) {
    && WellFiled(s.groups)
    && multiset(Present(s)) + s.discarded == s.inserted
    && (s.main.Collected? ==> AllExited(s) && s.groups == [])
  }

  lemma ConservedFiling(c: Config, s: State, x: Tracker)
    requires Conserved(s) && !s.main.Collected?
    ensures Conserved(Filed(c, s, x))
  {
    InsertKeepsFiling(s.groups, x);
    assert multiset(Collect(s.groups)) + multiset{x} + s.discarded == s.inserted + multiset{x};
  }

  lemma ConservedWorkerStep(c: Config, s: State, t: nat, act: Act)
    requires Sized(c, s) && t < c.threads && Conserved(s) && WorkerStep(c, s, t, act).Some?
    ensures Conserved(WorkerStep(c, s, t, act).value)
  {
    assert !s.main.Collected?;
    if act.File? && Fileable(s.workers[t].result) {
      ConservedFiling(c, s, s.workers[t].result.tracker);
    } else if act.Clear? {
      ConservedClear(s);
    } else {
      QuietWorkerStep(c, s, t, act);
    }
  }

  lemma QuietWorkerStep(c: Config, s: State, t: nat, act: Act)
    requires Sized(c, s) && t < c.threads && WorkerStep(c, s, t, act).Some?
    requires !act.Clear? && !(act.File? && Fileable(s.workers[t].result))
    ensures var s' := WorkerStep(c, s, t, act).value; s' == s.(workers := s'.workers, stop := s'.stop)
  {
  }

  lemma ConservedClear(s: State)
    requires Conserved(s) && !s.main.Collected?
    ensures Conserved(Cleared(s))
  {
    assert Collect([]) == [];
  }

  lemma ConservedCollecting(c: Config, s: State)
    requires Sized(c, s) && Conserved(s) && MainStep(c, s, Collecting).Some?
    ensures Conserved(MainStep(c, s, Collecting).value)
  {
    assert Collect([]) == [];
  }

  lemma ConservedMainStep(c: Config, s: State, act: MainAct)
    requires Sized(c, s) && Conserved(s) && MainStep(c, s, act).Some?
    ensures Conserved(MainStep(c, s, act).value)
  {
    if act.PollClear? {
      ConservedClear(s);
    } else if act.Collecting? {
      ConservedCollecting(c, s);
    } else {
      QuietMainStep(c, s, act);
    }
  }

  lemma QuietMainStep(c: Config, s: State, act: MainAct)
    requires Sized(c, s) && MainStep(c, s, act).Some? && !act.PollClear? && !act.Collecting?
    ensures var s' := MainStep(c, s, act).value; s' == s.(main := s'.main, stop := s'.stop) && !s.main.Collected? && !s'.main.Collected?
  {
  }

  /** The state before the last step. */
  ghost function Before(c: Config, steps: seq<Step>): (s: State)
    requires steps != [] && Run(c, steps).Some?
    ensures Sized(c, s) && Run(c, steps[..|steps| - 1]) == Some(s)
    ensures Run(c, steps) == Apply(c, s, steps[|steps| - 1])
  {
    Run(c, steps[..|steps| - 1]).value
  }

  lemma {:induction false} RunsConserve(c: Config, steps: seq<Step>)
    requires Run(c, steps).Some?
    ensures Conserved(Run(c, steps).value)
  {
    if steps != [] {
      var s := Before(c, steps);
      RunsConserve(c, steps[..|steps| - 1]);
      match steps[|steps| - 1]
      case OfWorker(t, act) => ConservedWorkerStep(c, s, t, act);
      case OfMain(act) => ConservedMainStep(c, s, act);
    }
  }

  /** Every filed episode, and every episode held, was earned by an attempt; filed ones hold at least one timeline. */
  ghost predicate AllEarned(policy: Policy, inserted: multiset<Tracker>, workers: seq<Phase>) {
    && (forall x :: x in inserted ==> x.stepRewards != [] && exists a :: Earned(a, x, policy))
    && (forall u :: 0 <= u < |workers| && Held(workers[u]).Some? ==> exists a :: Earned(a, Held(workers[u]).value, policy))
  }

  ghost predicate Differ(p: Phase, q: Phase) {
    Held(p).Some? && Held(q).Some? ==> Held(p).value.uuid != Held(q).value.uuid
  }

  /** All episodes, filed or held, have different ids. */
  ghost predicate DistinctIds(inserted: multiset<Tracker>, workers: seq<Phase>) {
    && (forall x :: x in inserted ==> inserted[x] == 1)
    && (forall x, y :: x in inserted && y in inserted && x.uuid == y.uuid ==> x == y)
    && (forall u, x :: 0 <= u < |workers| && x in inserted && Held(workers[u]).Some? ==> x.uuid != Held(workers[u]).value.uuid)
    && (forall u, v :: 0 <= u < v < |workers| ==> Differ(workers[u], workers[v]))
  }

  /** A step either files the episode its worker holds, or hands a worker a new one, or leaves both kinds as they are. */
  lemma EpisodesOfStep(c: Config, s: State, t: nat, act: Act)
    requires Sized(c, s) && t < c.threads && WorkerStep(c, s, t, act).Some?
    ensures var s' := WorkerStep(c, s, t, act).value;
      && (forall u :: 0 <= u < |s.workers| && u != t ==> s'.workers[u] == s.workers[u])
      && (if act.File? && Fileable(s.workers[t].result) then
            Held(s.workers[t]).Some? && s'.inserted == s.inserted + multiset{Held(s.workers[t]).value} && Held(s'.workers[t]).None?
          else s'.inserted == s.inserted)
      && (Held(s'.workers[t]).Some? ==> act.Finish? && Held(s'.workers[t]) == Some(Retry(act.attempts, c.policy).tracker))
      && (Held(s'.workers[t]).Some? ==> FreshId(s, Held(s'.workers[t]).value.uuid))
  {
  }

  /** Filing an episode that was held, or holding one that was earned, keeps all of them earned. */
  lemma EarnedUpdate(policy: Policy, inserted: multiset<Tracker>, workers: seq<Phase>, t: nat, p: Phase, filed: Option<Tracker>)
    requires AllEarned(policy, inserted, workers) && t < |workers|
    requires filed.Some? ==> filed == Held(workers[t]) && filed.value.stepRewards != []
    requires Held(p).Some? ==> exists a :: Earned(a, Held(p).value, policy)
    ensures AllEarned(policy, if filed.Some? then inserted + multiset{filed.value} else inserted, workers[t := p])
  {
  }

  lemma EarnedStep(c: Config, s: State, t: nat, act: Act)
    requires Sized(c, s) && t < c.threads && WorkerStep(c, s, t, act).Some? && AllEarned(c.policy, s.inserted, s.workers)
    ensures var s' := WorkerStep(c, s, t, act).value; AllEarned(c.policy, s'.inserted, s'.workers)
  {
    var s' := WorkerStep(c, s, t, act).value;
    EpisodesOfStep(c, s, t, act);
    if Held(s'.workers[t]).Some? {
      EpisodesAreEarnedIff(act.attempts, c.policy, Held(s'.workers[t]).value);
    }
    assert s'.workers == s.workers[t := s'.workers[t]];
    EarnedUpdate(c.policy, s.inserted, s.workers, t, s'.workers[t],
      if act.File? && Fileable(s.workers[t].result) then Held(s.workers[t]) else None);
  }

  /** A new episode with a fresh id keeps all ids different, and so does filing one that was held. */
  lemma DistinctUpdate(inserted: multiset<Tracker>, workers: seq<Phase>, t: nat, p: Phase, filed: Option<Tracker>)
    requires DistinctIds(inserted, workers) && t < |workers|
    requires filed == None || (filed == Held(workers[t]) && Held(p).None?)
    requires Held(p).Some? ==> forall x :: x in inserted ==> x.uuid != Held(p).value.uuid
    requires Held(p).Some? ==> forall u :: 0 <= u < |workers| ==> Differ(p, workers[u])
    ensures DistinctIds(if filed.Some? then inserted + multiset{filed.value} else inserted, workers[t := p])
  {
    var inserted' := if filed.Some? then inserted + multiset{filed.value} else inserted;
    var workers' := workers[t := p];
    forall u, v | 0 <= u < v < |workers|
      ensures Differ(workers'[u], workers'[v])
    {
      assert Differ(workers[u], workers[v]);
    }
    forall u, x | 0 <= u < |workers| && x in inserted' && Held(workers'[u]).Some?
      ensures x.uuid != Held(workers'[u]).value.uuid
    {
      if filed == Some(x) {
        assert Differ(workers[if u < t then u else t], workers[if u < t then t else u]);
      }
    }
  }

  lemma DistinctStep(c: Config, s: State, t: nat, act: Act)
    requires Sized(c, s) && t < c.threads && WorkerStep(c, s, t, act).Some? && DistinctIds(s.inserted, s.workers)
    ensures var s' := WorkerStep(c, s, t, act).value; DistinctIds(s'.inserted, s'.workers)
  {
    var s' := WorkerStep(c, s, t, act).value;
    EpisodesOfStep(c, s, t, act);
    assert s'.workers == s.workers[t := s'.workers[t]];
    DistinctUpdate(s.inserted, s.workers, t, s'.workers[t],
      if act.File? && Fileable(s.workers[t].result) then Held(s.workers[t]) else None);
  }

  lemma MainKeepsEpisodes(c: Config, s: State, act: MainAct)
    requires Sized(c, s) && MainStep(c, s, act).Some?
    ensures MainStep(c, s, act).value.inserted == s.inserted && MainStep(c, s, act).value.workers == s.workers
  {
  }

  lemma {:induction false} RunsAreEarned(c: Config, steps: seq<Step>)
    requires Run(c, steps).Some?
    ensures AllEarned(c.policy, Run(c, steps).value.inserted, Run(c, steps).value.workers)
    ensures DistinctIds(Run(c, steps).value.inserted, Run(c, steps).value.workers)
  {
    if steps != [] {
      var s := Before(c, steps);
      RunsAreEarned(c, steps[..|steps| - 1]);
      match steps[|steps| - 1] {
        case OfWorker(t, act) =>
          EarnedStep(c, s, t, act);
          DistinctStep(c, s, t, act);
        case OfMain(act) => MainKeepsEpisodes(c, s, act);
      }
    }
  }

  /** Conservation over every run: once the batch is collected, batch and discarded episodes together are exactly the filed
      episodes.  No episode appears twice, each was filed under its own task, and each was earned: its wait loop ended on an
      output message while the tracker held a timeline recorded since the last reset. */
  lemma BatchConservesEpisodes(c: Config, steps: seq<Step>)
    requires Run(c, steps).Some? && Run(c, steps).value.main.Collected?
    ensures var s := Run(c, steps).value;
      && multiset(s.main.batch) + s.discarded == s.inserted
      && (forall x :: x in s.main.batch ==> multiset(s.main.batch)[x] == 1 && x !in s.discarded)
      && (forall x, y :: x in s.main.batch && y in s.main.batch && x.uuid == y.uuid ==> x == y)
      && (forall x :: x in s.main.batch ==> exists a :: Earned(a, x, c.policy))
  {
    RunsConserve(c, steps);
    RunsAreEarned(c, steps);
    var s := Run(c, steps).value;
    forall x | x in s.main.batch
      ensures x in s.inserted && multiset(s.main.batch)[x] == 1 && x !in s.discarded
    {
      BatchedOnce(s.main.batch, s.discarded, s.inserted, x);
    }
  }

  lemma BatchedOnce(batch: seq<Tracker>, discarded: multiset<Tracker>, inserted: multiset<Tracker>, x: Tracker)
    requires multiset(batch) + discarded == inserted && x in batch && (x in inserted ==> inserted[x] == 1)
    ensures x in inserted && multiset(batch)[x] == 1 && x !in discarded
  {
    assert x in multiset(batch);
    assert multiset(batch)[x] + discarded[x] == inserted[x];
  }
}
