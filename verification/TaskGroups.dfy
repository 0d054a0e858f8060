/** Completed episodes grouped by task, in the order in which the tasks first appeared: the shared map of the rollout
pool, `count_tasks` and `filter_out_dummy_tasks` of ajet/task_rollout/native_parallel_worker.py, and the reward
properties of ajet/schema/trajectory.py. */
module TaskGroups {
  type Id = string

  /** A finished episode: its task, its unique id, and its reward before and after processing. */
  datatype Tracker = Tracker(task: Id, uuid: Id, rawReward: real, stepRewards: seq<real>)

  /** One entry of the map: a task and the episodes filed under it. */
  datatype Group = Group(task: Id, members: seq<Tracker>)

  // ----- Rewards -----

  function Sum(xs: seq<real>): real {
    if xs == [] then 0.0 else Sum(xs[..|xs| - 1]) + xs[|xs| - 1]
  }

  function Mean(xs: seq<real>): real
    requires xs != []
  {
    Sum(xs) / |xs| as real
  }

  lemma {:induction false} SumOfEqual(xs: seq<real>, x: real)
    requires forall i :: 0 <= i < |xs| ==> xs[i] == x
    ensures Sum(xs) == |xs| as real * x
  {
    if xs != [] {
      SumOfEqual(xs[..|xs| - 1], x);
    }
  }

  lemma ShareOfEqual(total: real, count: real, score: real)
    requires count > 0.0 && total == count * score
    ensures total / count == score
  {
  }

  lemma MeanOfEqual(xs: seq<real>, x: real)
    requires xs != [] && forall i :: 0 <= i < |xs| ==> xs[i] == x
    ensures Mean(xs) == x
  {
    SumOfEqual(xs, x);
    ShareOfEqual(Sum(xs), |xs| as real, x);
  }

  function PerformanceReward(t: Tracker): real {
    if t.stepRewards != [] then Mean(t.stepRewards) else t.rawReward
  }

  predicate AllEqual(members: seq<Tracker>) {
    forall i :: 0 <= i < |members| ==> PerformanceReward(members[i]) == PerformanceReward(members[0])
  }

  // ----- The map -----

  /** `if t.task_id not in map: map[t.task_id] = [t] else: map[t.task_id] += [t]` */
  function Insert(groups: seq<Group>, t: Tracker): seq<Group> {
    if groups == [] then [Group(t.task, [t])]
    else if groups[0].task == t.task then [Group(t.task, groups[0].members + [t])] + groups[1..]
    else [groups[0]] + Insert(groups[1..], t)
  }

  /** Keys are distinct, no entry is empty, and every episode is filed under its own task. */
  ghost predicate WellFiled(groups: seq<Group>) {
    && (forall i, j :: 0 <= i < j < |groups| ==> groups[i].task != groups[j].task)
    && (forall i :: 0 <= i < |groups| ==> groups[i].members != [])
    && (forall i, k :: 0 <= i < |groups| && 0 <= k < |groups[i].members| ==> groups[i].members[k].task == groups[i].task)
  }

  /** `for ct_list in map.values(): array.extend(ct_list)` */
  function Collect(groups: seq<Group>): seq<Tracker> {
    if groups == [] then [] else groups[0].members + Collect(groups[1..])
  }

  lemma {:induction false} InsertCollects(groups: seq<Group>, t: Tracker)
    ensures multiset(Collect(Insert(groups, t))) == multiset(Collect(groups)) + multiset{t}
  {
    if groups == [] {
      assert Collect([Group(t.task, [t])]) == [t] + Collect([]) == [t];
    } else {
      var r := Insert(groups, t);
      if groups[0].task == t.task {
        assert r[1..] == groups[1..];
      } else {
        InsertCollects(groups[1..], t);
        assert r[1..] == Insert(groups[1..], t);
      }
    }
  }

  lemma {:induction false} InsertFiles(groups: seq<Group>, t: Tracker)
    requires WellFiled(groups)
    ensures WellFiled(Insert(groups, t))
    ensures forall g :: g in Insert(groups, t) ==> g.task == t.task || g in groups
  {
    if groups != [] && groups[0].task != t.task {
      InsertFiles(groups[1..], t);
      var r := Insert(groups, t);
      assert r[1..] == Insert(groups[1..], t);
      assert forall g :: g in r[1..] ==> g.task != groups[0].task;
    }
  }

  lemma InsertKeepsFiling(groups: seq<Group>, t: Tracker)
    requires WellFiled(groups)
    ensures WellFiled(Insert(groups, t))
    ensures forall g :: g in Insert(groups, t) ==> g.task == t.task || g in groups
    ensures multiset(Collect(Insert(groups, t))) == multiset(Collect(groups)) + multiset{t}
  {
    InsertFiles(groups, t);
    InsertCollects(groups, t);
  }

  // ----- count_tasks -----

  function Episodes(groups: seq<Group>): nat {
    |Collect(groups)|
  }

  predicate Finished(g: Group, rolloutN: int) {
    |g.members| >= rolloutN
  }

  predicate NonDummy(g: Group, rolloutN: int) {
    Finished(g, rolloutN) && !AllEqual(g.members)
  }

  function FinishedTasks(groups: seq<Group>, rolloutN: int): nat {
    if groups == [] then 0
    else (if Finished(groups[0], rolloutN) then 1 else 0) + FinishedTasks(groups[1..], rolloutN)
  }

  function NonDummyTasks(groups: seq<Group>, rolloutN: int): nat {
    if groups == [] then 0
    else (if NonDummy(groups[0], rolloutN) then 1 else 0) + NonDummyTasks(groups[1..], rolloutN)
  }

  method CountTasks(groups: seq<Group>, rolloutN: int) returns (episodes: nat, tasks: nat, nonDummyTasks: nat)
    ensures episodes == Episodes(groups)
    ensures tasks == FinishedTasks(groups, rolloutN) && nonDummyTasks == NonDummyTasks(groups, rolloutN)
  {
    episodes, tasks, nonDummyTasks := 0, 0, 0;
    for i := 0 to |groups|
      invariant Episodes(groups) == episodes + Episodes(groups[i..])
      invariant FinishedTasks(groups, rolloutN) == tasks + FinishedTasks(groups[i..], rolloutN)
      invariant NonDummyTasks(groups, rolloutN) == nonDummyTasks + NonDummyTasks(groups[i..], rolloutN)
    {
      assert groups[i..][1..] == groups[i + 1..];
      episodes := episodes + |groups[i].members|;
      if |groups[i].members| >= rolloutN {
        tasks := tasks + 1;
        if AllEqual(groups[i].members) {
          continue;
        }
        nonDummyTasks := nonDummyTasks + 1;
      }
    }
  }

  /** Filing one more episode never lowers a count: episodes grow by one, finished and non-dummy tasks by at most one. */
  lemma {:induction false} CountsAreMonotone(groups: seq<Group>, t: Tracker, rolloutN: int)
    ensures Episodes(Insert(groups, t)) == Episodes(groups) + 1
    ensures FinishedTasks(groups, rolloutN) <= FinishedTasks(Insert(groups, t), rolloutN) <= FinishedTasks(groups, rolloutN) + 1
    ensures NonDummyTasks(groups, rolloutN) <= NonDummyTasks(Insert(groups, t), rolloutN) <= NonDummyTasks(groups, rolloutN) + 1
  {
    var r := Insert(groups, t);
    if groups == [] {
      assert r[1..] == [];
    } else if groups[0].task == t.task {
      assert r[1..] == groups[1..];
      var before, after := groups[0].members, groups[0].members + [t];
      if !AllEqual(before) {
        var k :| 0 <= k < |before| && PerformanceReward(before[k]) != PerformanceReward(before[0]);
        assert after[k] == before[k] && after[0] == before[0];
      }
    } else {
      assert r[1..] == Insert(groups[1..], t);
      CountsAreMonotone(groups[1..], t, rolloutN);
    }
  }

  // ----- filter_out_dummy_tasks -----

  /** `task2tracker[t.task_id].append(t)` for all of them. */
  function GroupByTask(trackers: seq<Tracker>): seq<Group> {
    if trackers == [] then [] else Insert(GroupByTask(trackers[..|trackers| - 1]), trackers[|trackers| - 1])
  }

  predicate Dummy(members: seq<Tracker>) {
    |members| < 2 || AllEqual(members)
  }

  function Keep(groups: seq<Group>): seq<Group> {
    if groups == [] then []
    else (if Dummy(groups[0].members) then [] else [groups[0]]) + Keep(groups[1..])
  }

  function FilterOutDummyTasks(trackers: seq<Tracker>): seq<Tracker> {
    Collect(Keep(GroupByTask(trackers)))
  }

  method FilterOutDummies(trackers: seq<Tracker>) returns (kept: seq<Tracker>)
    ensures kept == FilterOutDummyTasks(trackers)
  {
    var groups: seq<Group> := [];
    for i := 0 to |trackers|
      invariant groups == GroupByTask(trackers[..i])
    {
      assert trackers[..i + 1][..i] == trackers[..i];
      groups := Insert(groups, trackers[i]);
    }
    assert trackers[..|trackers|] == trackers;
    kept := [];
    for i := 0 to |groups|
      invariant Collect(Keep(groups)) == kept + Collect(Keep(groups[i..]))
    {
      assert groups[i..][1..] == groups[i + 1..];
      var members := groups[i].members;
      if |members| < 2 || AllEqual(members) {
        assert Keep(groups[i..]) == Keep(groups[i + 1..]);
        continue;
      }
      assert Keep(groups[i..])[1..] == Keep(groups[i + 1..]);
      kept := kept + members;
    }
  }

  lemma {:induction false} GroupingFiles(trackers: seq<Tracker>)
    ensures WellFiled(GroupByTask(trackers))
  {
    if trackers != [] {
      GroupingFiles(trackers[..|trackers| - 1]);
      InsertFiles(GroupByTask(trackers[..|trackers| - 1]), trackers[|trackers| - 1]);
    }
  }

  lemma {:induction false} GroupingCollects(trackers: seq<Tracker>)
    ensures multiset(Collect(GroupByTask(trackers))) == multiset(trackers)
  {
    if trackers != [] {
      var init, last := trackers[..|trackers| - 1], trackers[|trackers| - 1];
      GroupingCollects(init);
      InsertCollects(GroupByTask(init), last);
      assert trackers == init + [last];
    }
  }

  lemma GroupingFilesWell(trackers: seq<Tracker>)
    ensures WellFiled(GroupByTask(trackers))
    ensures multiset(Collect(GroupByTask(trackers))) == multiset(trackers)
  {
    GroupingFiles(trackers);
    GroupingCollects(trackers);
  }

  /** Filing an episode whose task comes last in the map, or is new, touches only the end of the map. */
  lemma {:induction false} InsertAtEnd(groups: seq<Group>, g: Group, t: Tracker)
    requires forall h :: h in groups ==> h.task != t.task
    ensures Insert(groups, t) == groups + [Group(t.task, [t])]
    ensures g.task == t.task ==> Insert(groups + [g], t) == groups + [Group(g.task, g.members + [t])]
  {
    if groups != [] {
      assert groups[0] in groups && groups[0].task != t.task;
      InsertAtEnd(groups[1..], g, t);
      assert (groups + [g])[0] == groups[0] && (groups + [g])[1..] == groups[1..] + [g];
      assert groups == [groups[0]] + groups[1..];
    } else {
      assert groups + [g] == [g] && [g][1..] == [];
    }
  }

  lemma {:induction false} GroupByTaskRun(done: seq<Group>, trackers: seq<Tracker>, task: Id, run: seq<Tracker>)
    requires GroupByTask(trackers) == done && forall h :: h in done ==> h.task != task
    requires run != [] && forall k :: 0 <= k < |run| ==> run[k].task == task
    ensures GroupByTask(trackers + run) == done + [Group(task, run)]
    decreases |run|
  {
    var last := |run| - 1;
    var x := run[last];
    assert run == run[..last] + [x];
    GroupOneMore(trackers + run[..last], x);
    assert (trackers + run[..last]) + [x] == trackers + run;
    if last == 0 {
      assert trackers + run[..0] == trackers && run == [x];
      InsertAtEnd(done, Group(task, []), x);
    } else {
      GroupByTaskRun(done, trackers, task, run[..last]);
      InsertAtEnd(done, Group(task, run[..last]), x);
    }
  }

  lemma GroupOneMore(trackers: seq<Tracker>, x: Tracker)
    ensures GroupByTask(trackers + [x]) == Insert(GroupByTask(trackers), x)
  {
    assert (trackers + [x])[..|trackers|] == trackers;
  }

  lemma NextOfFiled(done: seq<Group>, groups: seq<Group>)
    requires WellFiled(done + groups) && groups != []
    ensures (done + [groups[0]]) + groups[1..] == done + groups
    ensures groups[0].members != [] && forall k :: 0 <= k < |groups[0].members| ==> groups[0].members[k].task == groups[0].task
    ensures forall h :: h in done ==> h.task != groups[0].task
  {
    var all := done + groups;
    assert all[|done|] == groups[0];
    forall h | h in done
      ensures h.task != groups[0].task
    {
      var i :| 0 <= i < |done| && done[i] == h;
      assert all[i] == h;
    }
  }

  /** Collecting a well-filed map and grouping it again gives the map back. */
  lemma {:induction false} RegroupCollected(done: seq<Group>, trackers: seq<Tracker>, groups: seq<Group>)
    requires WellFiled(done + groups) && GroupByTask(trackers) == done
    ensures GroupByTask(trackers + Collect(groups)) == done + groups
    decreases |groups|
  {
    if groups == [] {
      assert trackers + Collect(groups) == trackers && done + groups == done;
    } else {
      var g, rest := groups[0], groups[1..];
      NextOfFiled(done, groups);
      GroupByTaskRun(done, trackers, g.task, g.members);
      assert GroupByTask(trackers + g.members) == done + [g];
      RegroupCollected(done + [g], trackers + g.members, rest);
      Reassociate(trackers, g.members, Collect(rest));
    }
  }

  lemma Reassociate(xs: seq<Tracker>, ys: seq<Tracker>, zs: seq<Tracker>)
    ensures (xs + ys) + zs == xs + (ys + zs)
  {
  }

  lemma CollectThenGroup(groups: seq<Group>)
    requires WellFiled(groups)
    ensures GroupByTask(Collect(groups)) == groups
  {
    assert [] + groups == groups && [] + Collect(groups) == Collect(groups);
    RegroupCollected([], [], groups);
  }

  lemma {:induction false} KeepCounts(groups: seq<Group>, rolloutN: int)
    ensures FinishedTasks(Keep(groups), rolloutN) >= NonDummyTasks(groups, rolloutN)
  {
    if groups != [] {
      KeepCounts(groups[1..], rolloutN);
      if !Dummy(groups[0].members) {
        assert Keep(groups)[0] == groups[0] && Keep(groups)[1..] == Keep(groups[1..]);
      } else {
        assert Keep(groups) == Keep(groups[1..]);
      }
    }
  }

  lemma {:induction false} KeepSelects(groups: seq<Group>)
    ensures forall g :: g in Keep(groups) <==> g in groups && !Dummy(g.members)
  {
    if groups != [] {
      KeepSelects(groups[1..]);
      assert groups == [groups[0]] + groups[1..];
    }
  }

  lemma {:induction false} KeepFilesWell(groups: seq<Group>)
    requires WellFiled(groups)
    ensures WellFiled(Keep(groups))
  {
    if groups != [] {
      KeepFilesWell(groups[1..]);
      KeepSelects(groups[1..]);
      if !Dummy(groups[0].members) {
        var r := Keep(groups);
        assert r == [groups[0]] + Keep(groups[1..]);
        assert forall i :: 1 <= i < |r| ==> r[i] in Keep(groups[1..]);
        assert forall g :: g in groups[1..] ==> g.task != groups[0].task;
      } else {
        assert Keep(groups) == Keep(groups[1..]);
      }
    }
  }

  /** A batch collected from a well-filed map is filtered group by group: exactly the dummy groups go, the others stay whole,
      in order and filed as before. */
  lemma FilterWorksByGroup(groups: seq<Group>)
    requires WellFiled(groups)
    ensures FilterOutDummyTasks(Collect(groups)) == Collect(Keep(groups))
    ensures GroupByTask(FilterOutDummyTasks(Collect(groups))) == Keep(groups)
    ensures forall g :: g in Keep(groups) <==> g in groups && !Dummy(g.members)
  {
    CollectThenGroup(groups);
    KeepFilesWell(groups);
    CollectThenGroup(Keep(groups));
    KeepSelects(groups);
  }

  /** A task counted as non-dummy survives the filter, so when the non-dummy target is met the filtered batch still holds
      at least that many tasks with at least `rolloutN` episodes each. */
  lemma NonDummyTargetSurvivesFilter(groups: seq<Group>, rolloutN: int)
    requires WellFiled(groups)
    ensures FinishedTasks(GroupByTask(FilterOutDummyTasks(Collect(groups))), rolloutN) >= NonDummyTasks(groups, rolloutN)
  {
    FilterWorksByGroup(groups);
    KeepCounts(groups, rolloutN);
  }
}
