/** What the stop conditions and the dummy filter of ajet/task_rollout/native_parallel_worker.py mean for a batch of episodes: how many
tasks have enough episodes, how many of these have two different rewards, and which survive the filter. */
module TaskTargets {
  import opened TaskGroups

  /** The episodes of one task, in order. */
  function TrackersOf(xs: seq<Tracker>, t: Id): seq<Tracker> {
    if xs == [] then []
    else TrackersOf(xs[..|xs| - 1], t) + (if xs[|xs| - 1].task == t then [xs[|xs| - 1]] else [])
  }

  lemma {:induction false} TrackersOfConcat(xs: seq<Tracker>, ys: seq<Tracker>, t: Id)
    ensures TrackersOf(xs + ys, t) == TrackersOf(xs, t) + TrackersOf(ys, t)
  {
    if ys == [] {
      assert xs + ys == xs;
    } else {
      var n := |ys| - 1;
      assert (xs + ys)[..|xs| + n] == xs + ys[..n];
      TrackersOfConcat(xs, ys[..n], t);
    }
  }

  lemma {:induction false} TrackersOfRun(xs: seq<Tracker>, t: Id, task: Id)
    requires forall i :: 0 <= i < |xs| ==> xs[i].task == task
    ensures TrackersOf(xs, t) == if t == task then xs else []
  {
    if xs != [] {
      TrackersOfRun(xs[..|xs| - 1], t, task);
    }
  }

  /** The episodes filed under a task: `map.get(t, [])`. */
  function FiledUnder(groups: seq<Group>, t: Id): seq<Tracker> {
    if groups == [] then [] else if groups[0].task == t then groups[0].members else FiledUnder(groups[1..], t)
  }

  lemma {:induction false} NoneFiled(groups: seq<Group>, t: Id)
    requires forall i :: 0 <= i < |groups| ==> groups[i].task != t
    ensures FiledUnder(groups, t) == []
  {
    if groups != [] {
      NoneFiled(groups[1..], t);
    }
  }

  lemma FirstEntry(groups: seq<Group>, t: Id)
    requires WellFiled(groups) && groups != []
    ensures WellFiled(groups[1..])
    ensures TrackersOf(groups[0].members, t) == if t == groups[0].task then groups[0].members else []
    ensures t == groups[0].task ==> FiledUnder(groups[1..], t) == []
  {
    TrackersOfRun(groups[0].members, t, groups[0].task);
    if t == groups[0].task {
      NoneFiled(groups[1..], t);
    }
  }

  lemma {:induction false} CollectedOfTask(groups: seq<Group>, t: Id)
    requires WellFiled(groups)
    ensures TrackersOf(Collect(groups), t) == FiledUnder(groups, t)
  {
    if groups != [] {
      FirstEntry(groups, t);
      CollectedOfTask(groups[1..], t);
      TrackersOfConcat(groups[0].members, Collect(groups[1..]), t);
    }
  }

  lemma {:induction false} TrackersOfHolds(xs: seq<Tracker>, x: Tracker)
    requires x in xs
    ensures x in TrackersOf(xs, x.task)
  {
    if x != xs[|xs| - 1] {
      assert x in xs[..|xs| - 1];
      TrackersOfHolds(xs[..|xs| - 1], x);
    }
  }

  lemma {:induction false} TrackersOfSubset(xs: seq<Tracker>, t: Id)
    ensures forall x :: x in TrackersOf(xs, t) ==> x in xs && x.task == t
  {
    if xs != [] {
      TrackersOfSubset(xs[..|xs| - 1], t);
    }
  }

  /** Two episodes of this task have different rewards. */
  ghost predicate TwoRewards(xs: seq<Tracker>, t: Id) {
    exists x, y :: x in xs && y in xs && x.task == t && y.task == t && PerformanceReward(x) != PerformanceReward(y)
  }

  /** The tasks with at least `n` episodes. */
  ghost function FullTasks(xs: seq<Tracker>, n: int): set<Id> {
    set x | x in xs && |TrackersOf(xs, x.task)| >= n :: x.task
  }

  /** The tasks with at least `n` episodes, two of them with different rewards. */
  ghost function MixedTasks(xs: seq<Tracker>, n: int): set<Id> {
    set t | t in FullTasks(xs, n) && TwoRewards(xs, t)
  }

  // ----- The counts -----

  predicate Counts(g: Group, n: int, nonDummy: bool) {
    if nonDummy then NonDummy(g, n) else Finished(g, n)
  }

  /** The keys of the entries that are counted as finished, or as non-dummy. */
  function CountedKeys(groups: seq<Group>, n: int, nonDummy: bool): set<Id> {
    if groups == [] then {}
    else (if Counts(groups[0], n, nonDummy) then {groups[0].task} else {}) + CountedKeys(groups[1..], n, nonDummy)
  }

  lemma {:induction false} KeysAreOfEntries(groups: seq<Group>, n: int, nonDummy: bool)
    ensures forall g :: g in groups && Counts(g, n, nonDummy) ==> g.task in CountedKeys(groups, n, nonDummy)
    ensures forall t :: t in CountedKeys(groups, n, nonDummy) ==> exists g :: g in groups && g.task == t && Counts(g, n, nonDummy)
  {
    if groups != [] {
      KeysAreOfEntries(groups[1..], n, nonDummy);
    }
  }

  lemma {:induction false} KeysAreCountedOnce(groups: seq<Group>, n: int, nonDummy: bool)
    requires WellFiled(groups)
    ensures |CountedKeys(groups, n, nonDummy)| == if nonDummy then NonDummyTasks(groups, n) else FinishedTasks(groups, n)
  {
    if groups != [] {
      KeysAreCountedOnce(groups[1..], n, nonDummy);
      KeysAreOfEntries(groups[1..], n, nonDummy);
      assert groups[0].task !in CountedKeys(groups[1..], n, nonDummy);
    }
  }

  lemma EntryHoldsItsTask(groups: seq<Group>, g: Group)
    requires WellFiled(groups) && g in groups
    ensures TrackersOf(Collect(groups), g.task) == g.members && g.members != []
  {
    CollectedOfTask(groups, g.task);
    EntryIsFiled(groups, g);
  }

  lemma {:induction false} EntryIsFiled(groups: seq<Group>, g: Group)
    requires WellFiled(groups) && g in groups
    ensures FiledUnder(groups, g.task) == g.members && g.members != []
  {
    if groups[0] != g {
      assert g in groups[1..];
      EntryIsFiled(groups[1..], g);
    }
  }

  lemma {:induction false} EntryOfEpisode(groups: seq<Group>, x: Tracker) returns (g: Group)
    requires WellFiled(groups) && x in Collect(groups)
    ensures g in groups && g.task == x.task && x in g.members
  {
    if x in groups[0].members {
      g := groups[0];
    } else {
      g := EntryOfEpisode(groups[1..], x);
    }
  }

  /** Unequal rewards among the episodes of an entry are two different rewards of its task. */
  lemma MixedEntry(xs: seq<Tracker>, t: Id)
    ensures AllEqual(TrackersOf(xs, t)) <==> !TwoRewards(xs, t)
  {
    var group := TrackersOf(xs, t);
    TrackersOfSubset(xs, t);
    if !AllEqual(group) {
      var k :| 0 <= k < |group| && PerformanceReward(group[k]) != PerformanceReward(group[0]);
      assert group[k] in xs && group[0] in xs;
    } else if TwoRewards(xs, t) {
      var x, y :| x in xs && y in xs && x.task == t && y.task == t && PerformanceReward(x) != PerformanceReward(y);
      TrackersOfHolds(xs, x);
      TrackersOfHolds(xs, y);
    }
  }

  /** What a counted entry says about its task. */
  lemma CountedEntry(groups: seq<Group>, g: Group, n: int)
    requires WellFiled(groups) && g in groups
    ensures Counts(g, n, false) <==> g.task in FullTasks(Collect(groups), n)
    ensures Counts(g, n, true) <==> g.task in MixedTasks(Collect(groups), n)
  {
    var xs := Collect(groups);
    EntryHoldsItsTask(groups, g);
    TrackersOfSubset(xs, g.task);
    MixedEntry(xs, g.task);
    assert g.members[0] in xs;
  }

  lemma CountedTasks(groups: seq<Group>, n: int, nonDummy: bool)
    requires WellFiled(groups)
    ensures CountedKeys(groups, n, nonDummy) == if nonDummy then MixedTasks(Collect(groups), n) else FullTasks(Collect(groups), n)
  {
    var tasks := if nonDummy then MixedTasks(Collect(groups), n) else FullTasks(Collect(groups), n);
    KeysAreOfEntries(groups, n, nonDummy);
    forall t | t in CountedKeys(groups, n, nonDummy)
      ensures t in tasks
    {
      var g :| g in groups && g.task == t && Counts(g, n, nonDummy);
      CountedEntry(groups, g, n);
    }
    forall t | t in tasks
      ensures t in CountedKeys(groups, n, nonDummy)
    {
      var x :| x in Collect(groups) && x.task == t;
      var g := EntryOfEpisode(groups, x);
      CountedEntry(groups, g, n);
    }
  }

  /** The counts of a well-filed map: its finished tasks are the tasks with at least `n` of its episodes, and its non-dummy tasks
      those of them with two different rewards. */
  lemma CountsAreTasks(groups: seq<Group>, n: int)
    requires WellFiled(groups)
    ensures FinishedTasks(groups, n) == |FullTasks(Collect(groups), n)|
    ensures NonDummyTasks(groups, n) == |MixedTasks(Collect(groups), n)|
  {
    KeysAreCountedOnce(groups, n, false);
    KeysAreCountedOnce(groups, n, true);
    CountedTasks(groups, n, false);
    CountedTasks(groups, n, true);
  }

  /** The same for a batch that is grouped again. */
  lemma CountsOfBatch(xs: seq<Tracker>, n: int)
    ensures FinishedTasks(GroupByTask(xs), n) == |FullTasks(xs, n)|
    ensures NonDummyTasks(GroupByTask(xs), n) == |MixedTasks(xs, n)|
  {
    var groups := GroupByTask(xs);
    GroupingFilesWell(xs);
    CountsAreTasks(groups, n);
    SameTasks(Collect(groups), xs, n);
  }

  /** Batches with the same episodes under every task have the same tasks to count. */
  lemma SameTasks(xs: seq<Tracker>, ys: seq<Tracker>, n: int)
    requires multiset(xs) == multiset(ys) && xs == Collect(GroupByTask(ys))
    ensures FullTasks(xs, n) == FullTasks(ys, n) && MixedTasks(xs, n) == MixedTasks(ys, n)
  {
    forall x
      ensures x in xs <==> x in ys
    {
      assert x in multiset(xs) <==> x in multiset(ys);
    }
    GroupingFilesWell(ys);
    forall t
      ensures TrackersOf(xs, t) == TrackersOf(ys, t)
    {
      GroupingKeepsTasks(ys, t);
      CollectedOfTask(GroupByTask(ys), t);
    }
  }

  // ----- The filter -----

  /** Filing an episode appends it to the episodes of its own task and leaves the others alone. */
  lemma {:induction false} InsertAppends(groups: seq<Group>, x: Tracker, t: Id)
    ensures FiledUnder(Insert(groups, x), t) == FiledUnder(groups, t) + (if x.task == t then [x] else [])
  {
    if groups != [] && groups[0].task != x.task {
      InsertAppends(groups[1..], x, t);
      assert Insert(groups, x)[1..] == Insert(groups[1..], x);
    } else if groups != [] {
      assert Insert(groups, x)[1..] == groups[1..];
    }
  }

  /** Grouping keeps the episodes of every task, in order. */
  lemma {:induction false} GroupingKeepsTasks(xs: seq<Tracker>, t: Id)
    ensures FiledUnder(GroupByTask(xs), t) == TrackersOf(xs, t)
  {
    if xs != [] {
      GroupingKeepsTasks(xs[..|xs| - 1], t);
      InsertAppends(GroupByTask(xs[..|xs| - 1]), xs[|xs| - 1], t);
    }
  }

  lemma {:induction false} KeepingTasks(groups: seq<Group>, t: Id)
    requires WellFiled(groups)
    ensures FiledUnder(Keep(groups), t) == if Dummy(FiledUnder(groups, t)) then [] else FiledUnder(groups, t)
  {
    if groups != [] {
      KeepingTasks(groups[1..], t);
      if Dummy(groups[0].members) {
        assert Keep(groups) == Keep(groups[1..]);
        if groups[0].task == t {
          NoneFiled(groups[1..], t);
        }
      } else {
        assert Keep(groups)[0] == groups[0] && Keep(groups)[1..] == Keep(groups[1..]);
      }
    }
  }

  /** The filter keeps all episodes of a task, in order, or none of them; none exactly when there are fewer than two or all have
      the same reward. */
  lemma FilterKeepsWholeTasks(xs: seq<Tracker>, t: Id)
    ensures TrackersOf(FilterOutDummyTasks(xs), t) == if Dummy(TrackersOf(xs, t)) then [] else TrackersOf(xs, t)
  {
    var groups := GroupByTask(xs);
    GroupingKeepsTasks(xs, t);
    GroupingFilesWell(xs);
    KeepingTasks(groups, t);
    KeepFilesWell(groups);
    CollectedOfTask(Keep(groups), t);
  }

  lemma TwoRewardsAreTwoEpisodes(xs: seq<Tracker>, t: Id)
    requires TwoRewards(xs, t)
    ensures |TrackersOf(xs, t)| >= 2
  {
    var x, y :| x in xs && y in xs && x.task == t && y.task == t && PerformanceReward(x) != PerformanceReward(y);
    TrackersOfHolds(xs, x);
    TrackersOfHolds(xs, y);
  }

  /** Fewer than two episodes, or all with the same reward: exactly when no two rewards are different. */
  lemma DummyIff(xs: seq<Tracker>, t: Id)
    ensures Dummy(TrackersOf(xs, t)) <==> !TwoRewards(xs, t)
  {
    MixedEntry(xs, t);
    if TwoRewards(xs, t) {
      TwoRewardsAreTwoEpisodes(xs, t);
    }
  }

  /** A task survives the filter exactly when two of its episodes have different rewards; it then keeps all its episodes, in order. */
  lemma SurvivesIff(xs: seq<Tracker>, t: Id)
    ensures TrackersOf(FilterOutDummyTasks(xs), t) == if TwoRewards(xs, t) then TrackersOf(xs, t) else []
  {
    FilterKeepsWholeTasks(xs, t);
    DummyIff(xs, t);
  }

  /** The filtered batch has the same tasks with `n` episodes and two different rewards, and no other tasks with `n` episodes. */
  lemma MixedTasksSurvive(xs: seq<Tracker>, n: int)
    ensures MixedTasks(FilterOutDummyTasks(xs), n) == FullTasks(FilterOutDummyTasks(xs), n) == MixedTasks(xs, n)
  {
    var ys := FilterOutDummyTasks(xs);
    forall t
      ensures TrackersOf(ys, t) == if TwoRewards(xs, t) then TrackersOf(xs, t) else []
    {
      SurvivesIff(xs, t);
    }
    forall x | x in ys
      ensures x in xs && TwoRewards(xs, x.task)
    {
      TrackersOfHolds(ys, x);
      TrackersOfSubset(xs, x.task);
    }
    forall x | x in xs && TwoRewards(xs, x.task)
      ensures x in ys
    {
      TrackersOfHolds(xs, x);
      TrackersOfSubset(ys, x.task);
    }
    assert forall t :: TwoRewards(ys, t) <==> TwoRewards(xs, t);
    assert FullTasks(ys, n) == MixedTasks(xs, n);
  }
}
