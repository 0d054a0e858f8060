/** When the rollout pool stops, and by how much it overshoots: runs of `rollout_swarm`
(ajet/task_rollout/native_parallel_worker.py) in which no check cleared the map, and what a clear can break. */
module PoolStopping {
  import opened PyList
  import opened TaskGroups
  import opened TaskTargets
  import opened SwarmEpisode
  import opened RolloutPool
  import opened PoolCounting

  // ----- Nobody stops before the target is met -----

  /** The map, or the map the batch was collected from. */
  ghost function Gathered(s: State): seq<Group> {
    if s.main.Collected? then GroupByTask(s.main.batch) else s.groups
  }

  /** The worker has concluded that the target is met, or has left because of it. */
  predicate SaysMet(p: Phase) {
    p.Stopping? || (p.Counted? && p.met) || p == Exited(false)
  }

  predicate MainSaysMet(m: MainPhase) {
    m.MainStopping? || (m.MainCounted? && m.met) || m.Joining? || m.Collected?
  }

  /** Someone has concluded that the target is met, or was told so. */
  ghost predicate Signalled(s: State) {
    || MainSaysMet(s.main)
    || (exists u :: 0 <= u < |s.stop| && s.stop[u])
    || (exists u :: 0 <= u < |s.workers| && SaysMet(s.workers[u]))
  }

  ghost predicate PhaseReads(p: Phase, groups: seq<Group>) {
    p.Counting? ==> Reading(p.unread, p.seen, groups)
  }

  ghost predicate MainReads(m: MainPhase, groups: seq<Group>) {
    m.MainCounting? ==> Reading(m.unread, m.seen, groups)
  }

  /** Every count under way began after the last clear. */
  ghost predicate AllRead(s: State) {
    (forall u :: 0 <= u < |s.workers| ==> PhaseReads(s.workers[u], s.groups)) && MainReads(s.main, s.groups)
  }

  /** Without a clear, counts are in order and what anyone concluded is so. */
  ghost predicate Truthful(c: Config, s: State) {
    s.cleared || (AllRead(s) && (Signalled(s) ==> Met(c, Gathered(s))))
  }

  // ----- One step -----

  /** What a worker's step does to the map. */
  lemma MapStep(c: Config, s: State, t: nat, act: Act)
    requires Sized(c, s) && t < c.threads && WorkerStep(c, s, t, act).Some?
    ensures var s' := WorkerStep(c, s, t, act).value;
      s'.main == s.main && (s.cleared ==> s'.cleared) && (if act.File? && Fileable(s.workers[t].result) then
        s'.groups == Insert(s.groups, s.workers[t].result.tracker) else s'.groups == s.groups || s'.cleared)
    ensures WorkerStep(c, s, t, act).value.workers == s.workers[t := WorkerStep(c, s, t, act).value.workers[t]]
  {
  }

  /** The map only grows, as long as no step clears it. */
  lemma MetPersists(c: Config, s: State, step: Step)
    requires Sized(c, s) && Conserved(s) && Apply(c, s, step).Some?
    ensures var s' := Apply(c, s, step).value;
      && (s.cleared ==> s'.cleared)
      && (!s'.cleared && Met(c, Gathered(s)) ==> Met(c, Gathered(s')))
  {
    match step
    case OfWorker(t, act) =>
      MapStep(c, s, t, act);
      assert !s.main.Collected?;
      if act.File? && Fileable(s.workers[t].result) && Met(c, s.groups) {
        MetIsMonotone(c, s.groups, s.workers[t].result.tracker);
      }
    case OfMain(act) => GatheredInMain(c, s, act);
  }

  /** Collecting the batch loses nothing of the map it came from. */
  lemma GatheredInMain(c: Config, s: State, act: MainAct)
    requires Sized(c, s) && Conserved(s) && MainStep(c, s, act).Some?
    ensures var s' := MainStep(c, s, act).value; s'.cleared || Gathered(s') == Gathered(s)
  {
    if act.Collecting? {
      var s' := MainStep(c, s, act).value;
      assert s'.main == Collected(Collect(s.groups)) && Gathered(s) == s.groups;
      CollectThenGroup(s.groups);
    } else if !act.PollClear? {
      QuietMainStep(c, s, act);
    }
  }

  /** The moving worker's own count. */
  lemma OwnCountReads(c: Config, s: State, t: nat, act: Act)
    requires Sized(c, s) && Conserved(s) && t < c.threads && WorkerStep(c, s, t, act).Some? && PhaseReads(s.workers[t], s.groups)
    ensures var s' := WorkerStep(c, s, t, act).value; s'.workers[t].Counting? ==> PhaseReads(s'.workers[t], s.groups)
    ensures var s' := WorkerStep(c, s, t, act).value; s'.workers[t].Counting? ==> s'.groups == s.groups
  {
    if act.Snapshot? {
      SnapshotReads(s.groups);
    } else if act.Read? {
      ReadGoesOn(s.workers[t].unread, s.workers[t].seen, s.groups);
    }
  }

  lemma OthersRead(s: State, x: Tracker)
    requires AllRead(s) && WellFiled(s.groups)
    ensures forall u :: 0 <= u < |s.workers| ==> PhaseReads(s.workers[u], Insert(s.groups, x))
    ensures MainReads(s.main, Insert(s.groups, x))
  {
    forall u | 0 <= u < |s.workers|
      ensures PhaseReads(s.workers[u], Insert(s.groups, x))
    {
      assert PhaseReads(s.workers[u], s.groups);
      if s.workers[u].Counting? {
        ReadingSurvivesFiling(s.workers[u].unread, s.workers[u].seen, s.groups, x);
      }
    }
    if s.main.MainCounting? {
      ReadingSurvivesFiling(s.main.unread, s.main.seen, s.groups, x);
    }
  }

  lemma WorkerKeepsReads(c: Config, s: State, t: nat, act: Act)
    requires Sized(c, s) && Conserved(s) && AllRead(s) && t < c.threads && WorkerStep(c, s, t, act).Some?
    ensures var s' := WorkerStep(c, s, t, act).value; s'.cleared || AllRead(s')
  {
    var s' := WorkerStep(c, s, t, act).value;
    MapStep(c, s, t, act);
    OwnCountReads(c, s, t, act);
    if act.File? && Fileable(s.workers[t].result) {
      OthersRead(s, s.workers[t].result.tracker);
    }
    if !s'.cleared {
      forall u | 0 <= u < |s'.workers|
        ensures PhaseReads(s'.workers[u], s'.groups)
      {
        assert u != t ==> PhaseReads(s.workers[u], s'.groups);
      }
    }
  }

  lemma MainKeepsReads(c: Config, s: State, act: MainAct)
    requires Sized(c, s) && Conserved(s) && AllRead(s) && MainStep(c, s, act).Some?
    ensures var s' := MainStep(c, s, act).value; s'.cleared || AllRead(s')
  {
    if act.PollSnapshot? {
      SnapshotReads(s.groups);
    } else if act.PollRead? {
      ReadGoesOn(s.main.unread, s.main.seen, s.groups);
    }
  }

  lemma UnmetCount(c: Config, unread: seq<Id>, seen: seq<Group>, groups: seq<Group>)
    requires Reading(unread, seen, groups) && !Met(c, groups)
    ensures !Met(c, seen)
  {
    if Met(c, seen) {
      OlderIsMet(c, seen, groups);
    }
  }

  /** A worker that has not concluded anything raises no flag, and concludes only what it counts. */
  lemma HonestStep(c: Config, s: State, t: nat, act: Act)
    requires Sized(c, s) && t < c.threads && WorkerStep(c, s, t, act).Some?
    requires !Met(c, s.groups) && !SaysMet(s.workers[t]) && !s.stop[t] && PhaseReads(s.workers[t], s.groups)
    ensures var s' := WorkerStep(c, s, t, act).value;
      s'.main == s.main && s'.stop == s.stop && s'.workers == s.workers[t := s'.workers[t]] && !SaysMet(s'.workers[t])
  {
    if act.Tally? {
      UnmetCount(c, [], s.workers[t].seen, s.groups);
    }
  }

  lemma TruthfulWorker(c: Config, s: State, t: nat, act: Act)
    requires Sized(c, s) && Conserved(s) && Truthful(c, s) && t < c.threads && WorkerStep(c, s, t, act).Some?
    requires !s.cleared && !s.main.Collected? && !Met(c, s.groups)
    ensures Truthful(c, WorkerStep(c, s, t, act).value)
  {
    assert !SaysMet(s.workers[t]);
    HonestStep(c, s, t, act);
    WorkerKeepsReads(c, s, t, act);
  }

  lemma TruthfulMain(c: Config, s: State, act: MainAct)
    requires Sized(c, s) && Conserved(s) && Truthful(c, s) && MainStep(c, s, act).Some?
    requires !s.cleared && !Met(c, Gathered(s))
    ensures Truthful(c, MainStep(c, s, act).value)
  {
    assert !s.main.Collected?;
    GatheredInMain(c, s, act);
    MainKeepsReads(c, s, act);
    if act.PollTally? {
      UnmetCount(c, [], s.main.seen, s.groups);
    }
  }

  lemma {:induction false} RunsAreTruthful(c: Config, steps: seq<Step>)
    requires Sensible(c) && Run(c, steps).Some?
    ensures Truthful(c, Run(c, steps).value)
  {
    if steps != [] {
      var s := Before(c, steps);
      var last := steps[|steps| - 1];
      RunsAreTruthful(c, steps[..|steps| - 1]);
      RunsConserve(c, steps[..|steps| - 1]);
      MetPersists(c, s, last);
      if !s.cleared {
        StepIsTruthful(c, s, last);
      }
    }
  }

  lemma StepIsTruthful(c: Config, s: State, step: Step)
    requires Sized(c, s) && Conserved(s) && Truthful(c, s) && Apply(c, s, step).Some? && !s.cleared
    ensures Truthful(c, Apply(c, s, step).value)
  {
    MetPersists(c, s, step);
    match step
    case OfWorker(t, act) =>
      WorkerKeepsReads(c, s, t, act);
      if !Met(c, Gathered(s)) {
        assert !MainSaysMet(s.main);
        TruthfulWorker(c, s, t, act);
      }
    case OfMain(act) =>
      MainKeepsReads(c, s, act);
      if !Met(c, Gathered(s)) {
        TruthfulMain(c, s, act);
      }
  }

  // ----- The main thread follows -----

  /** The main thread is bound to find the target met: it has, or it will if it goes on counting, or it is about to begin. */
  ghost predicate Convinced(c: Config, s: State) {
    match s.main
    case Polling => Met(c, s.groups)
    case MainCounting(unread, seen) => Met(c, View(unread, seen, s.groups))
    case MainCounted(met, _) => met
    case _ => true
  }

  lemma ConvincedWorker(c: Config, s: State, t: nat, act: Act)
    requires Sized(c, s) && Conserved(s) && AllRead(s) && Convinced(c, s) && t < c.threads && WorkerStep(c, s, t, act).Some?
    ensures var s' := WorkerStep(c, s, t, act).value; s'.cleared || Convinced(c, s')
  {
    MapStep(c, s, t, act);
    if act.File? && Fileable(s.workers[t].result) {
      var x := s.workers[t].result.tracker;
      if s.main.Polling? {
        MetIsMonotone(c, s.groups, x);
      } else if s.main.MainCounting? {
        var unread, seen := s.main.unread, s.main.seen;
        ReadingSurvivesFiling(unread, seen, s.groups, x);
        OlderIsMet(c, View(unread, seen, s.groups), View(unread, seen, Insert(s.groups, x)));
      }
    }
  }

  lemma ConvincedMain(c: Config, s: State, act: MainAct)
    requires Sized(c, s) && Conserved(s) && Convinced(c, s) && MainStep(c, s, act).Some?
    ensures var s' := MainStep(c, s, act).value; s'.cleared || Convinced(c, s')
  {
    if act.PollSnapshot? {
      SnapshotReads(s.groups);
    } else if act.PollRead? {
      ReadKeepsView(s.main.unread, s.main.seen, s.groups);
    } else if act.PollTally? {
      assert View([], s.main.seen, s.groups) == s.main.seen;
    }
  }

  lemma {:induction false} ConvincedForGood(c: Config, steps: seq<Step>, more: seq<Step>)
    requires Sensible(c) && Run(c, steps).Some? && Convinced(c, Run(c, steps).value)
    requires Run(c, steps + more).Some? && !Run(c, steps + more).value.cleared
    ensures Convinced(c, Run(c, steps + more).value)
    decreases |more|
  {
    if more == [] {
      assert steps + more == steps;
    } else {
      var n := |more| - 1;
      var all := steps + more;
      assert all[..|all| - 1] == steps + more[..n];
      var s := Before(c, all);
      RunsConserve(c, steps + more[..n]);
      RunsAreTruthful(c, steps + more[..n]);
      MetPersists(c, s, all[|all| - 1]);
      ConvincedForGood(c, steps, more[..n]);
      match all[|all| - 1]
      case OfWorker(t, act) => ConvincedWorker(c, s, t, act);
      case OfMain(act) => ConvincedMain(c, s, act);
    }
  }

  /** In a run without clears, once anyone has concluded that the target is met, or any stop flag is up, the main thread's next poll
      succeeds too: from a moment when it is about to poll, it never counts an unmet target again.  The batch it ends up with
      meets the target. */
  lemma SignalledPollSucceeds(c: Config, steps: seq<Step>, more: seq<Step>)
    requires Sensible(c) && Run(c, steps).Some? && Signalled(Run(c, steps).value) && Run(c, steps).value.main.Polling?
    requires Run(c, steps + more).Some? && !Run(c, steps + more).value.cleared
    ensures var s := Run(c, steps + more).value;
      && (s.main.MainCounted? ==> s.main.met)
      && (s.main.Collected? ==> Met(c, GroupByTask(s.main.batch)))
  {
    ClearsAreRemembered(c, steps, more);
    RunsAreTruthful(c, steps);
    ConvincedForGood(c, steps, more);
    RunsAreTruthful(c, steps + more);
  }

  lemma {:induction false} ClearsAreRemembered(c: Config, steps: seq<Step>, more: seq<Step>)
    requires Run(c, steps + more).Some?
    ensures Run(c, steps).Some? && (Run(c, steps).value.cleared ==> Run(c, steps + more).value.cleared)
    decreases |more|
  {
    if more == [] {
      assert steps + more == steps;
    } else {
      var n := |more| - 1;
      var all := steps + more;
      assert all[..|all| - 1] == steps + more[..n];
      var s := Before(c, all);
      ClearsAreRemembered(c, steps, more[..n]);
      RunsConserve(c, steps + more[..n]);
      MetPersists(c, s, all[|all| - 1]);
    }
  }

  /** In a run without clears the collected batch meets the target. */
  lemma CollectedMeetsTarget(c: Config, steps: seq<Step>)
    requires Sensible(c) && Run(c, steps).Some? && !Run(c, steps).value.cleared && Run(c, steps).value.main.Collected?
    ensures Met(c, GroupByTask(Run(c, steps).value.main.batch))
  {
    RunsAreTruthful(c, steps);
  }

  /** In task mode without clears, the batch has the target number of tasks with `rolloutN` episodes each. */
  lemma TaskBatchIsFull(c: Config, steps: seq<Step>)
    requires Sensible(c) && c.how == EnoughTasks
    requires Run(c, steps).Some? && !Run(c, steps).value.cleared && Run(c, steps).value.main.Collected?
    ensures |FullTasks(Run(c, steps).value.main.batch, c.rolloutN)| >= c.target
  {
    CollectedMeetsTarget(c, steps);
    BatchMeetsIff(c, Run(c, steps).value.main.batch);
  }

  /** In non-dummy mode without clears, the batch has the target number of tasks with `rolloutN` episodes each, two of them with
      different rewards, and exactly these tasks still have `rolloutN` episodes once dummy tasks are dropped. */
  lemma NonDummyBatchIsFull(c: Config, steps: seq<Step>)
    requires Sensible(c) && c.how == EnoughNonDummyTasks
    requires Run(c, steps).Some? && !Run(c, steps).value.cleared && Run(c, steps).value.main.Collected?
    ensures var batch := Run(c, steps).value.main.batch;
      && |MixedTasks(batch, c.rolloutN)| >= c.target
      && FullTasks(FilterOutDummyTasks(batch), c.rolloutN) == MixedTasks(batch, c.rolloutN)
  {
    var batch := Run(c, steps).value.main.batch;
    CollectedMeetsTarget(c, steps);
    BatchMeetsIff(c, batch);
    MixedTasksSurvive(batch, c.rolloutN);
  }

  // ----- Overshoot -----

  /** Once the target is met, a worker in one of these phases files no further episode: it has concluded so, or will as soon as it
      has counted. */
  ghost predicate Spent(c: Config, p: Phase, groups: seq<Group>) {
    || p.Checking? || p.Stopping? || p.Exited? || (p.Counted? && p.met)
    || (p.Counting? && Met(c, View(p.unread, p.seen, groups)))
  }

  ghost function SpentWorkers(c: Config, workers: seq<Phase>, groups: seq<Group>): set<nat> {
    set u: nat | u < |workers| && Spent(c, workers[u], groups)
  }

  lemma {:induction false} SubsetCount(small: set<nat>, big: set<nat>)
    requires small <= big
    ensures |small| <= |big|
  {
    if small != {} {
      var x :| x in small;
      SubsetCount(small - {x}, big - {x});
    }
  }

  lemma {:induction false} BelowCount(s: set<nat>, n: nat)
    requires forall x :: x in s ==> x < n
    ensures |s| <= n
  {
    if n > 0 {
      BelowCount(s - {n - 1}, n - 1);
    } else {
      assert s == {};
    }
  }

  /** The number of spent workers does not fall when spent workers stay spent, and grows by one when a busy one becomes spent. */
  lemma SpentUpdate(c: Config, before: seq<Phase>, after: seq<Phase>, g: seq<Group>, g': seq<Group>, t: nat)
    requires t < |before| == |after|
    requires forall u :: 0 <= u < |before| && Spent(c, before[u], g) ==> Spent(c, after[u], g')
    ensures var was, now := SpentWorkers(c, before, g), SpentWorkers(c, after, g');
      |now| >= |was| + (if !Spent(c, before[t], g) && Spent(c, after[t], g') then 1 else 0)
  {
    var was, now := SpentWorkers(c, before, g), SpentWorkers(c, after, g');
    if !Spent(c, before[t], g) && Spent(c, after[t], g') {
      SubsetCount(was + {t}, now);
      assert t !in was;
    } else {
      SubsetCount(was, now);
    }
  }

  /** Every late episode has its own spent worker, besides the one that met the target. */
  ghost predicate LateIsPaid(c: Config, s: State) {
    s.cleared || if Met(c, Gathered(s)) then s.late + 1 <= |SpentWorkers(c, s.workers, s.groups)| else s.late == 0
  }

  lemma OwnPhaseStep(c: Config, s: State, t: nat, act: Act)
    requires Sized(c, s) && Conserved(s) && t < c.threads && WorkerStep(c, s, t, act).Some?
    requires Met(c, s.groups) && !WorkerStep(c, s, t, act).value.cleared && Spent(c, s.workers[t], s.groups)
    ensures var s' := WorkerStep(c, s, t, act).value; Spent(c, s'.workers[t], s'.groups)
  {
    if act.Snapshot? {
      SnapshotReads(s.groups);
    } else if act.Read? {
      ReadKeepsView(s.workers[t].unread, s.workers[t].seen, s.groups);
    } else if act.Tally? {
      assert View([], s.workers[t].seen, s.groups) == s.workers[t].seen;
    }
  }

  /** Filing makes a worker spent that was not, and is late when the target was met. */
  lemma FilingStep(c: Config, s: State, t: nat, act: Act)
    requires Sized(c, s) && t < c.threads && WorkerStep(c, s, t, act).Some?
    ensures var s' := WorkerStep(c, s, t, act).value;
      && (if act.File? && Fileable(s.workers[t].result) then s'.late == (if Met(c, s.groups) then s.late + 1 else s.late)
          else s'.late == s.late)
      && (act.File? ==> !Spent(c, s.workers[t], s.groups) && s'.workers[t].Checking?)
  {
  }

  lemma OtherStaysSpent(c: Config, s: State, p: Phase, x: Tracker)
    requires WellFiled(s.groups) && PhaseReads(p, s.groups) && Spent(c, p, s.groups)
    ensures Spent(c, p, Insert(s.groups, x))
  {
    if p.Counting? {
      ReadingSurvivesFiling(p.unread, p.seen, s.groups, x);
      OlderIsMet(c, View(p.unread, p.seen, s.groups), View(p.unread, p.seen, Insert(s.groups, x)));
    }
  }

  lemma SpentStaySpent(c: Config, s: State, t: nat, act: Act)
    requires Sized(c, s) && Conserved(s) && AllRead(s) && t < c.threads && WorkerStep(c, s, t, act).Some?
    requires Met(c, s.groups) && !WorkerStep(c, s, t, act).value.cleared
    ensures var s' := WorkerStep(c, s, t, act).value;
      forall u :: 0 <= u < |s.workers| && Spent(c, s.workers[u], s.groups) ==> Spent(c, s'.workers[u], s'.groups)
  {
    var s' := WorkerStep(c, s, t, act).value;
    MapStep(c, s, t, act);
    forall u | 0 <= u < |s.workers| && Spent(c, s.workers[u], s.groups)
      ensures Spent(c, s'.workers[u], s'.groups)
    {
      if u == t {
        OwnPhaseStep(c, s, t, act);
      } else if act.File? && Fileable(s.workers[t].result) {
        assert PhaseReads(s.workers[u], s.groups);
        OtherStaysSpent(c, s, s.workers[u], s.workers[t].result.tracker);
      }
    }
  }

  lemma LateIsPaidWorker(c: Config, s: State, t: nat, act: Act)
    requires Sized(c, s) && Conserved(s) && AllRead(s) && LateIsPaid(c, s) && t < c.threads && WorkerStep(c, s, t, act).Some?
    requires !s.cleared && !s.main.Collected?
    ensures LateIsPaid(c, WorkerStep(c, s, t, act).value)
  {
    var s' := WorkerStep(c, s, t, act).value;
    MapStep(c, s, t, act);
    FilingStep(c, s, t, act);
    MetPersists(c, s, OfWorker(t, act));
    if !s'.cleared && Met(c, s.groups) {
      SpentStaySpent(c, s, t, act);
      SpentUpdate(c, s.workers, s'.workers, s.groups, s'.groups, t);
    } else if !s'.cleared && Met(c, s'.groups) {
      SubsetCount({t}, SpentWorkers(c, s'.workers, s'.groups));
    }
  }

  lemma MainStepIsPunctual(c: Config, s: State, act: MainAct)
    requires Sized(c, s) && Conserved(s) && MainStep(c, s, act).Some?
    ensures var s' := MainStep(c, s, act).value; s'.workers == s.workers && s'.late == s.late && (s.cleared ==> s'.cleared)
    ensures var s' := MainStep(c, s, act).value; s'.cleared || Gathered(s') == Gathered(s)
  {
    GatheredInMain(c, s, act);
  }

  lemma LateIsPaidMain(c: Config, s: State, act: MainAct)
    requires Sized(c, s) && Conserved(s) && LateIsPaid(c, s) && MainStep(c, s, act).Some? && !s.cleared
    ensures LateIsPaid(c, MainStep(c, s, act).value)
  {
    MainStepIsPunctual(c, s, act);
    if act.Collecting? {
      AllAreSpent(c, s, MainStep(c, s, act).value.groups);
    } else {
      MapOfMainStep(c, s, act);
    }
  }

  lemma MapOfMainStep(c: Config, s: State, act: MainAct)
    requires Sized(c, s) && MainStep(c, s, act).Some? && !act.Collecting?
    ensures var s' := MainStep(c, s, act).value; s'.cleared || s'.groups == s.groups
  {
  }

  /** Workers that have left are spent, whatever the map holds. */
  lemma AllAreSpent(c: Config, s: State, g: seq<Group>)
    requires AllExited(s)
    ensures |SpentWorkers(c, s.workers, g)| >= |SpentWorkers(c, s.workers, s.groups)|
  {
    SubsetCount(SpentWorkers(c, s.workers, s.groups), SpentWorkers(c, s.workers, g));
  }

  lemma CollectedIsOver(c: Config, s: State, t: nat, act: Act)
    requires Sized(c, s) && Conserved(s) && s.main.Collected? && t < c.threads
    ensures WorkerStep(c, s, t, act) == None
  {
  }

  lemma {:induction false} RunsPayForLateness(c: Config, steps: seq<Step>)
    requires Sensible(c) && Run(c, steps).Some?
    ensures LateIsPaid(c, Run(c, steps).value)
  {
    if steps == [] {
      assert c.target * c.rolloutN > 0;
    } else {
      var s := Before(c, steps);
      RunsPayForLateness(c, steps[..|steps| - 1]);
      RunsConserve(c, steps[..|steps| - 1]);
      RunsAreTruthful(c, steps[..|steps| - 1]);
      MetPersists(c, s, steps[|steps| - 1]);
      if !s.cleared {
        match steps[|steps| - 1]
        case OfWorker(t, act) =>
          if s.main.Collected? {
            CollectedIsOver(c, s, t, act);
          } else {
            LateIsPaidWorker(c, s, t, act);
          }
        case OfMain(act) => LateIsPaidMain(c, s, act);
      }
    }
  }

  /** Without clears, fewer episodes than there are threads are filed after the target was met. */
  lemma OvershootIsBounded(c: Config, steps: seq<Step>)
    requires Sensible(c) && Run(c, steps).Some? && !Run(c, steps).value.cleared
    ensures Run(c, steps).value.late < c.threads
  {
    var s := Run(c, steps).value;
    RunsPayForLateness(c, steps);
    BelowCount(SpentWorkers(c, s.workers, s.groups), c.threads);
  }

  /** When episodes are counted, nothing is ever cleared, and everything beyond the target was filed late. */
  ghost predicate CountedExactly(c: Config, s: State) {
    && !s.cleared
    && (forall u :: 0 <= u < |s.workers| && s.workers[u].Counted? ==> !s.workers[u].overflow)
    && (s.main.MainCounted? ==> !s.main.overflow)
    && (if Met(c, Gathered(s)) then Episodes(Gathered(s)) == c.target * c.rolloutN + s.late else s.late == 0)
  }

  lemma CountedFiling(c: Config, s: State, x: Tracker)
    requires Sensible(c) && c.how == EnoughEpisodes && CountedExactly(c, s) && !s.main.Collected?
    ensures CountedExactly(c, Filed(c, s, x))
  {
    CountsAreMonotone(s.groups, x, c.rolloutN);
  }

  lemma CountedWorker(c: Config, s: State, t: nat, act: Act)
    requires Sensible(c) && c.how == EnoughEpisodes && !s.main.Collected?
    requires Sized(c, s) && CountedExactly(c, s) && t < c.threads && WorkerStep(c, s, t, act).Some?
    ensures CountedExactly(c, WorkerStep(c, s, t, act).value)
  {
    if act.File? && Fileable(s.workers[t].result) {
      CountedFiling(c, s, s.workers[t].result.tracker);
    }
  }

  lemma CountedMain(c: Config, s: State, act: MainAct)
    requires Sensible(c) && c.how == EnoughEpisodes
    requires Sized(c, s) && Conserved(s) && CountedExactly(c, s) && MainStep(c, s, act).Some?
    ensures CountedExactly(c, MainStep(c, s, act).value)
  {
    MainStepIsPunctual(c, s, act);
    assert !MainStep(c, s, act).value.cleared;
  }

  lemma {:induction false} RunsCountExactly(c: Config, steps: seq<Step>)
    requires Sensible(c) && c.how == EnoughEpisodes && Run(c, steps).Some?
    ensures CountedExactly(c, Run(c, steps).value)
  {
    if steps == [] {
      assert c.target * c.rolloutN > 0;
    } else {
      var s := Before(c, steps);
      RunsCountExactly(c, steps[..|steps| - 1]);
      RunsConserve(c, steps[..|steps| - 1]);
      match steps[|steps| - 1]
      case OfWorker(t, act) =>
        if s.main.Collected? {
          CollectedIsOver(c, s, t, act);
        } else {
          CountedWorker(c, s, t, act);
        }
      case OfMain(act) => CountedMain(c, s, act);
    }
  }

  /** In episode mode every collected batch holds at least `target * rolloutN` episodes and fewer than that plus the threads. */
  lemma EpisodeBatchSize(c: Config, steps: seq<Step>)
    requires Sensible(c) && c.how == EnoughEpisodes && Run(c, steps).Some? && Run(c, steps).value.main.Collected?
    ensures c.target * c.rolloutN <= |Run(c, steps).value.main.batch| < c.target * c.rolloutN + c.threads
  {
    var s := Run(c, steps).value;
    RunsCountExactly(c, steps);
    CollectedMeetsTarget(c, steps);
    OvershootIsBounded(c, steps);
    GroupingFilesWell(s.main.batch);
    assert |multiset(Collect(GroupByTask(s.main.batch)))| == |multiset(s.main.batch)|;
  }

  // ----- Threads and their observation slots -----

  /** `min(len(tasks), ceil(max_parallel / rollout_n))` */
  function TaskSlots(tasks: nat, maxParallel: nat, rolloutN: nat): nat
    requires rolloutN > 0
  {
    var wanted := (maxParallel + rolloutN - 1) / rolloutN;
    if tasks < wanted then tasks else wanted
  }

  /** The submission loop: every thread gets its own slot of the observation window, no slot is left over, and there are fewer
      threads than `maxParallel + rolloutN`. */
  method SubmitThreads(tasks: nat, maxParallel: nat, rolloutN: nat) returns (slots: seq<nat>)
    requires rolloutN > 0
    ensures |slots| == TaskSlots(tasks, maxParallel, rolloutN) * rolloutN
    ensures forall k :: 0 <= k < |slots| ==> slots[k] == k
    ensures |slots| < maxParallel + rolloutN
    ensures maxParallel <= |slots| || |slots| == tasks * rolloutN
  {
    slots := [];
    var n := TaskSlots(tasks, maxParallel, rolloutN);
    for batchIndex := 0 to n
      invariant |slots| == batchIndex * rolloutN
      invariant forall k :: 0 <= k < |slots| ==> slots[k] == k
    {
      for rolloutIndex := 0 to rolloutN
        invariant |slots| == batchIndex * rolloutN + rolloutIndex
        invariant forall k :: 0 <= k < |slots| ==> slots[k] == k
      {
        slots := slots + [batchIndex * rolloutN + rolloutIndex];
      }
      assert (batchIndex + 1) * rolloutN == batchIndex * rolloutN + rolloutN;
    }
    RoundedUp(maxParallel, rolloutN);
    var wanted := (maxParallel + rolloutN - 1) / rolloutN;
    if tasks < wanted {
      assert tasks * rolloutN <= wanted * rolloutN;
    }
  }

  lemma RoundedUp(maxParallel: nat, rolloutN: nat)
    requires rolloutN > 0
    ensures maxParallel <= (maxParallel + rolloutN - 1) / rolloutN * rolloutN < maxParallel + rolloutN
  {
    var a := maxParallel + rolloutN - 1;
    assert a == a / rolloutN * rolloutN + a % rolloutN;
  }
}
