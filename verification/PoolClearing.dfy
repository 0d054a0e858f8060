/** What a check that clears the map can do to the rollout pool of ajet/task_rollout/native_parallel_worker.py.

A check that counts too many cached episodes clears the map and still returns the verdict of its count.  All results are about whole
interleavings: steps of every worker and of the main thread, in any order. */
module PoolClearing {
  import opened PyList
  import opened TaskGroups
  import opened SwarmEpisode
  import opened RolloutPool
  import opened PoolCounting
  import opened PoolStopping

  // ----- The map is what was filed since the last clear -----

  predicate Clears(step: Step) {
    (step.OfWorker? && step.act.Clear?) || (step.OfMain? && step.mainAct.PollClear?)
  }

  /** A log of filed episodes after one more step: a clear forgets them all. */
  ghost function Logged(s: State, log: seq<Tracker>, step: Step): seq<Tracker> {
    if Clears(step) then []
    else if step.OfWorker? && step.act.File? && step.t < |s.workers| && HoldsEpisode(s.workers[step.t]) then
      log + [s.workers[step.t].result.tracker]
    else log
  }

  predicate HoldsEpisode(p: Phase) {
    p.Holding? && Fileable(p.result)
  }

  /** The episodes filed since the last clear, in order. */
  ghost function FiledSince(c: Config, steps: seq<Step>): seq<Tracker>
    requires Run(c, steps).Some?
  {
    if steps == [] then []
    else Logged(Before(c, steps), FiledSince(c, steps[..|steps| - 1]), steps[|steps| - 1])
  }

  lemma WorkerLogs(c: Config, s: State, log: seq<Tracker>, t: nat, act: Act)
    requires Sized(c, s) && t < c.threads && WorkerStep(c, s, t, act).Some? && s.groups == GroupByTask(log)
    ensures WorkerStep(c, s, t, act).value.groups == GroupByTask(Logged(s, log, OfWorker(t, act)))
  {
    if act.File? && HoldsEpisode(s.workers[t]) {
      var x := s.workers[t].result.tracker;
      assert (log + [x])[..|log|] == log;
    }
  }

  lemma MainLogs(c: Config, s: State, log: seq<Tracker>, act: MainAct)
    requires Sized(c, s) && MainStep(c, s, act).Some? && !act.Collecting? && !s.main.Collected? && s.groups == GroupByTask(log)
    ensures MainStep(c, s, act).value.groups == GroupByTask(Logged(s, log, OfMain(act)))
    ensures !MainStep(c, s, act).value.main.Collected?
  {
  }

  lemma WorkerIsLogged(c: Config, s: State, log: seq<Tracker>, t: nat, act: Act)
    requires Sized(c, s) && Conserved(s) && t < c.threads && WorkerStep(c, s, t, act).Some? && Gathered(s) == GroupByTask(log)
    ensures Gathered(WorkerStep(c, s, t, act).value) == GroupByTask(Logged(s, log, OfWorker(t, act)))
  {
    if s.main.Collected? {
      CollectedIsOver(c, s, t, act);
    } else {
      WorkerLogs(c, s, log, t, act);
      MainOfWorkerStep(c, s, t, act);
    }
  }

  lemma CollectingGathers(c: Config, s: State)
    requires Sized(c, s) && WellFiled(s.groups) && !s.main.Collected? && MainStep(c, s, Collecting).Some?
    ensures Gathered(MainStep(c, s, Collecting).value) == Gathered(s)
  {
    CollectThenGroup(s.groups);
    assert MainStep(c, s, Collecting).value.main == Collected(Collect(s.groups));
  }

  lemma MainIsLogged(c: Config, s: State, log: seq<Tracker>, act: MainAct)
    requires Sized(c, s) && Conserved(s) && MainStep(c, s, act).Some? && Gathered(s) == GroupByTask(log)
    ensures Gathered(MainStep(c, s, act).value) == GroupByTask(Logged(s, log, OfMain(act)))
  {
    assert !s.main.Collected?;
    if act.Collecting? {
      CollectingGathers(c, s);
      assert Logged(s, log, OfMain(act)) == log;
    } else {
      MainLogs(c, s, log, act);
    }
  }

  lemma {:induction false} MapIsLog(c: Config, steps: seq<Step>)
    requires Run(c, steps).Some?
    ensures Gathered(Run(c, steps).value) == GroupByTask(FiledSince(c, steps))
  {
    if steps != [] {
      var init := steps[..|steps| - 1];
      MapIsLog(c, init);
      RunsConserve(c, init);
      match steps[|steps| - 1]
      case OfMain(act) => MainIsLogged(c, Before(c, steps), FiledSince(c, init), act);
      case OfWorker(t, act) => WorkerIsLogged(c, Before(c, steps), FiledSince(c, init), t, act);
    }
  }

  lemma MainOfWorkerStep(c: Config, s: State, t: nat, act: Act)
    requires Sized(c, s) && t < c.threads && WorkerStep(c, s, t, act).Some?
    ensures WorkerStep(c, s, t, act).value.main == s.main
  {
  }

  /** Over every run, clears included: the collected batch is exactly the episodes filed since the last clear, each once, and it meets
      the target if and only if these do. */
  lemma BatchIsFiledSinceClear(c: Config, steps: seq<Step>)
    requires Run(c, steps).Some? && Run(c, steps).value.main.Collected?
    ensures var batch := Run(c, steps).value.main.batch;
      && multiset(batch) == multiset(FiledSince(c, steps))
      && (Met(c, GroupByTask(batch)) <==> Met(c, GroupByTask(FiledSince(c, steps))))
  {
    MapIsLog(c, steps);
    GroupingFilesWell(Run(c, steps).value.main.batch);
    GroupingFilesWell(FiledSince(c, steps));
  }

  // ----- Stuck pools -----

  /** All workers are gone, the map does not meet the target, and the main thread will not find that it does. */
  ghost predicate Stuck(c: Config, s: State) {
    Sized(c, s) && AllExited(s) && WellFiled(s.groups) && !Met(c, s.groups) && !Convinced(c, s)
  }

  lemma ExitedIsOver(c: Config, s: State, t: nat, act: Act)
    requires Sized(c, s) && t < c.threads && s.workers[t].Exited?
    ensures WorkerStep(c, s, t, act) == None
  {
  }

  /** Nothing frees a stuck pool: whatever step is taken, it stays stuck. */
  lemma StuckForever(c: Config, s: State, step: Step)
    requires Sensible(c) && Stuck(c, s) && Apply(c, s, step).Some?
    ensures Stuck(c, Apply(c, s, step).value)
  {
    match step
    case OfWorker(t, act) => ExitedIsOver(c, s, t, act);
    case OfMain(act) =>
      assert c.target * c.rolloutN > 0;
      if act.PollSnapshot? {
        SnapshotReads(s.groups);
      } else if act.PollRead? {
        ReadKeepsView(s.main.unread, s.main.seen, s.groups);
      } else if act.PollTally? {
        assert View([], s.main.seen, s.groups) == s.main.seen;
      }
  }

  /** When every worker has gone while the main thread is about to poll, the pool is stuck if and only if the episodes filed since
      the last clear fall short of the target.  Without clears that happens only if every worker died of an exception. */
  lemma StuckIff(c: Config, steps: seq<Step>)
    requires Sensible(c) && Run(c, steps).Some?
    requires AllExited(Run(c, steps).value) && Run(c, steps).value.main.Polling?
    ensures var s := Run(c, steps).value;
      && (Stuck(c, s) <==> !Met(c, GroupByTask(FiledSince(c, steps))))
      && (Stuck(c, s) && !s.cleared ==> forall u :: 0 <= u < |s.workers| ==> s.workers[u] == Exited(true))
  {
    MapIsLog(c, steps);
    RunsConserve(c, steps);
    RunsAreTruthful(c, steps);
    var s := Run(c, steps).value;
    if Stuck(c, s) && !s.cleared {
      forall u | 0 <= u < |s.workers|
        ensures s.workers[u] == Exited(true)
      {
        assert !SaysMet(s.workers[u]);
      }
    }
  }

  // ----- Runs that go on from a state -----

  ghost function RunFrom(c: Config, s: State, steps: seq<Step>): (r: Option<State>)
    requires Sized(c, s)
    ensures r.Some? ==> Sized(c, r.value)
    decreases |steps|
  {
    if steps == [] then Some(s)
    else
      match Apply(c, s, steps[0])
      case None => None
      case Some(next) => RunFrom(c, next, steps[1..])
  }

  /** These steps lead from one state to the other. */
  ghost predicate Leads(c: Config, s: State, steps: seq<Step>, s': State) {
    Sized(c, s) && RunFrom(c, s, steps) == Some(s')
  }

  lemma LeadsOne(c: Config, s: State, step: Step)
    requires Sized(c, s) && Apply(c, s, step).Some?
    ensures Leads(c, s, [step], Apply(c, s, step).value)
  {
    assert [step][1..] == [];
  }

  lemma {:induction false} LeadsOn(c: Config, s: State, xs: seq<Step>, m: State, ys: seq<Step>, s': State)
    requires Leads(c, s, xs, m) && Leads(c, m, ys, s')
    ensures Leads(c, s, xs + ys, s')
    decreases |xs|
  {
    if xs == [] {
      assert xs + ys == ys;
    } else {
      assert (xs + ys)[0] == xs[0] && (xs + ys)[1..] == xs[1..] + ys;
      LeadsOn(c, Apply(c, s, xs[0]).value, xs[1..], m, ys, s');
    }
  }

  lemma OneMoreStep(c: Config, steps: seq<Step>, step: Step)
    requires Run(c, steps).Some?
    ensures Run(c, steps + [step]) == Apply(c, Run(c, steps).value, step)
  {
    assert (steps + [step])[..|steps|] == steps;
  }

  lemma {:induction false} RunThenFrom(c: Config, steps: seq<Step>, more: seq<Step>)
    requires Run(c, steps).Some?
    ensures Run(c, steps + more) == RunFrom(c, Run(c, steps).value, more)
    decreases |more|
  {
    if more == [] {
      assert steps + more == steps;
    } else {
      var one := steps + [more[0]];
      OneMoreStep(c, steps, more[0]);
      assert steps + more == one + more[1..];
      if Run(c, one).Some? {
        RunThenFrom(c, one, more[1..]);
      } else {
        NothingFollows(c, one, more[1..]);
      }
    }
  }

  lemma OneFails(c: Config, steps: seq<Step>)
    requires steps != [] && Run(c, steps[..|steps| - 1]).None?
    ensures Run(c, steps).None?
  {
  }

  lemma {:induction false} NothingFollows(c: Config, steps: seq<Step>, more: seq<Step>)
    requires Run(c, steps).None?
    ensures Run(c, steps + more).None?
    decreases |more|
  {
    var all := steps + more;
    if more == [] {
      assert all == steps;
    } else {
      NothingFollows(c, steps, more[..|more| - 1]);
      assert all[..|all| - 1] == steps + more[..|more| - 1];
      OneFails(c, all);
    }
  }

  // ----- The last worker decides -----

  /** Every worker but t has left, and t, having counted a met target on `counted`, is on its way out. */
  ghost predicate Leaving(c: Config, s: State, t: nat, counted: seq<Group>) {
    && Sized(c, s) && t < c.threads && WellFiled(counted)
    && (forall u :: 0 <= u < c.threads && u != t ==> s.workers[u].Exited?)
    && (s.main.Collected? || (LeavingMap(c, s.groups, counted) && LeavingPhase(c, s.workers[t], s.groups, counted)
                               && LeavingMain(c, s.main, counted)))
  }

  ghost predicate LeavingMap(c: Config, groups: seq<Group>, counted: seq<Group>) {
    groups == counted || (groups == [] && Overflows(c, counted))
  }

  ghost predicate LeavingPhase(c: Config, p: Phase, groups: seq<Group>, counted: seq<Group>) {
    match p
    case Counted(met, overflow) => met && (overflow ==> Overflows(c, counted)) && (!overflow && Overflows(c, counted) ==> groups == [])
    case Stopping(_) => Overflows(c, counted) ==> groups == []
    case Exited(_) => Overflows(c, counted) ==> groups == []
    case _ => false
  }

  /** Unless the worker's count overflowed, no count of the main thread does. */
  ghost predicate LeavingMain(c: Config, m: MainPhase, counted: seq<Group>) {
    Overflows(c, counted)
    || ((m.MainCounting? ==> Reading(m.unread, m.seen, counted)) && (m.MainCounted? ==> !m.overflow))
  }

  lemma OlderOverflow(c: Config, older: seq<Group>, groups: seq<Group>)
    requires Older(older, groups) && Overflows(c, older)
    ensures Overflows(c, groups)
  {
    OlderCounts(older, groups, c.rolloutN);
  }

  lemma LeavingWorkerStep(c: Config, s: State, t: nat, counted: seq<Group>, act: Act)
    requires Leaving(c, s, t, counted) && !s.main.Collected? && WorkerStep(c, s, t, act).Some?
    ensures Leaving(c, WorkerStep(c, s, t, act).value, t, counted)
  {
  }

  lemma LeavingMainStep(c: Config, s: State, t: nat, counted: seq<Group>, act: MainAct)
    requires Leaving(c, s, t, counted) && MainStep(c, s, act).Some?
    ensures Leaving(c, MainStep(c, s, act).value, t, counted)
  {
    if !Overflows(c, counted) {
      if act.PollSnapshot? {
        SnapshotReads(counted);
      } else if act.PollRead? {
        ReadGoesOn(s.main.unread, s.main.seen, counted);
      } else if act.PollTally? && Overflows(c, s.main.seen) {
        OlderOverflow(c, s.main.seen, counted);
      }
    }
  }

  /** The last worker decides: when it has counted a met target and all others have left, then whatever it and the main thread do, and
      in whatever order, if they end with the worker gone and the main thread about to poll, the pool is stuck if and only if the
      worker's check overflowed. */
  lemma {:induction false} LastWorkerDecides(c: Config, s: State, t: nat, counted: seq<Group>, steps: seq<Step>, s': State)
    requires Sensible(c) && Met(c, counted) && Leaving(c, s, t, counted) && Leads(c, s, steps, s')
    requires s'.workers[t].Exited? && s'.main.Polling?
    ensures Stuck(c, s') <==> Overflows(c, counted)
    decreases |steps|
  {
    if steps == [] {
      MetSurvivesCheckIff(c, counted);
    } else {
      match steps[0]
      case OfMain(act) =>
        LeavingMainStep(c, s, t, counted, act);
        LastWorkerDecides(c, MainStep(c, s, act).value, t, counted, steps[1..], s');
      case OfWorker(u, act) =>
        if u != t {
          ExitedIsOver(c, s, u, act);
        } else if s.main.Collected? {
          CollectedForGood(c, s, steps, s');
        } else {
          LeavingWorkerStep(c, s, t, counted, act);
          LastWorkerDecides(c, WorkerStep(c, s, t, act).value, t, counted, steps[1..], s');
        }
    }
  }

  lemma {:induction false} CollectedForGood(c: Config, s: State, steps: seq<Step>, s': State)
    requires s.main.Collected? && Leads(c, s, steps, s')
    ensures s'.main == s.main
    decreases |steps|
  {
    if steps != [] {
      CollectedForGood(c, Apply(c, s, steps[0]).value, steps[1..], s');
    }
  }
}
