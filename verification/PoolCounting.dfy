/** What a count of the rollout pool sees while other threads go on filing: `count_tasks` of
ajet/task_rollout/native_parallel_worker.py over the `IterationSafeDict` of ajet/utils/async_utils.py.

A count reads entries one at a time, so the numbers it ends with may belong to no single moment.  Without a clear they are never
more than the map holds at the end, and never less than it held at the start. */
module PoolCounting {
  import opened TaskGroups
  import opened RolloutPool

  // ----- Older maps -----

  /** `older` is the beginning of an earlier state of `groups`: the same tasks in the same order, each with some first episodes. */
  ghost predicate Older(older: seq<Group>, groups: seq<Group>) {
    |older| <= |groups| && forall i :: 0 <= i < |older| ==> OlderEntry(older[i], groups[i])
  }

  ghost predicate OlderEntry(older: Group, g: Group) {
    older.task == g.task && older.members <= g.members
  }

  lemma OlderEntryCounts(older: Group, g: Group, rolloutN: int)
    requires OlderEntry(older, g)
    ensures Finished(older, rolloutN) ==> Finished(g, rolloutN)
    ensures NonDummy(older, rolloutN) ==> NonDummy(g, rolloutN)
  {
    if NonDummy(older, rolloutN) {
      var k :| 0 <= k < |older.members| && PerformanceReward(older.members[k]) != PerformanceReward(older.members[0]);
      assert g.members[k] == older.members[k] && g.members[0] == older.members[0];
    }
  }

  lemma {:induction false} OlderCounts(older: seq<Group>, groups: seq<Group>, rolloutN: int)
    requires Older(older, groups)
    ensures Episodes(older) <= Episodes(groups)
    ensures FinishedTasks(older, rolloutN) <= FinishedTasks(groups, rolloutN)
    ensures NonDummyTasks(older, rolloutN) <= NonDummyTasks(groups, rolloutN)
  {
    if older != [] {
      assert OlderEntry(older[0], groups[0]);
      OlderEntryCounts(older[0], groups[0], rolloutN);
      forall i | 0 <= i < |older[1..]|
        ensures OlderEntry(older[1..][i], groups[1..][i])
      {
        assert OlderEntry(older[i + 1], groups[i + 1]);
      }
      OlderCounts(older[1..], groups[1..], rolloutN);
    }
  }

  /** A target met by an older state is met. */
  lemma OlderIsMet(c: Config, older: seq<Group>, groups: seq<Group>)
    requires Older(older, groups) && Met(c, older)
    ensures Met(c, groups)
  {
    OlderCounts(older, groups, c.rolloutN);
  }

  lemma OlderIsTransitive(a: seq<Group>, b: seq<Group>, g: seq<Group>)
    requires Older(a, b) && Older(b, g)
    ensures Older(a, g)
  {
    forall i | 0 <= i < |a|
      ensures OlderEntry(a[i], g[i])
    {
      assert OlderEntry(a[i], b[i]) && OlderEntry(b[i], g[i]);
    }
  }

  lemma {:induction false} InsertIsNewer(groups: seq<Group>, x: Tracker)
    ensures Older(groups, Insert(groups, x))
  {
    if groups != [] && groups[0].task != x.task {
      InsertIsNewer(groups[1..], x);
      var r := Insert(groups, x);
      forall i | 0 <= i < |groups|
        ensures OlderEntry(groups[i], r[i])
      {
        if i > 0 {
          assert OlderEntry(groups[1..][i - 1], Insert(groups[1..], x)[i - 1]);
        }
      }
    }
  }

  // ----- A count under way -----

  function ReadAll(unread: seq<Id>, groups: seq<Group>): seq<Group> {
    if unread == [] then [] else EntryOf(groups, unread[0]) + ReadAll(unread[1..], groups)
  }

  /** What the count will have seen if nobody interferes any more. */
  function View(unread: seq<Id>, seen: seq<Group>, groups: seq<Group>): seq<Group> {
    seen + ReadAll(unread, groups)
  }

  /** These are the keys of the entries from the k-th on. */
  ghost predicate InOrder(unread: seq<Id>, groups: seq<Group>, k: nat) {
    k + |unread| <= |groups| && forall i :: 0 <= i < |unread| ==> unread[i] == groups[k + i].task
  }

  /** The count began after the last clear: it has read the first entries as they were, and goes on where it stopped. */
  ghost predicate Reading(unread: seq<Id>, seen: seq<Group>, groups: seq<Group>) {
    InOrder(unread, groups, |seen|) && Older(seen, groups)
  }

  lemma {:induction false} EntryIsFound(groups: seq<Group>, k: nat)
    requires WellFiled(groups) && k < |groups|
    ensures EntryOf(groups, groups[k].task) == [groups[k]]
  {
    if k > 0 {
      assert groups[0].task != groups[k].task;
      EntryIsFound(groups[1..], k - 1);
    }
  }

  lemma OneLess(unread: seq<Id>, groups: seq<Group>, k: nat)
    requires InOrder(unread, groups, k) && unread != []
    ensures InOrder(unread[1..], groups, k + 1) && unread[0] == groups[k].task
  {
    forall i | 0 <= i < |unread[1..]|
      ensures unread[1..][i] == groups[k + 1 + i].task
    {
      assert unread[i + 1] == groups[k + (i + 1)].task;
    }
    assert unread[0] == groups[k + 0].task;
  }

  lemma {:induction false} ReadsInOrder(unread: seq<Id>, groups: seq<Group>, k: nat)
    requires WellFiled(groups) && InOrder(unread, groups, k)
    ensures ReadAll(unread, groups) == groups[k..k + |unread|]
    decreases |unread|
  {
    if unread != [] {
      OneLess(unread, groups, k);
      EntryIsFound(groups, k);
      var rest := ReadAll(unread[1..], groups);
      ReadsInOrder(unread[1..], groups, k + 1);
      assert rest == groups[k + 1..k + |unread|];
      assert ReadAll(unread, groups) == [groups[k]] + rest;
    }
  }

  /** A count that has just begun will see the whole map. */
  lemma SnapshotReads(groups: seq<Group>)
    requires WellFiled(groups)
    ensures Reading(Tasks(groups), [], groups) && View(Tasks(groups), [], groups) == groups
  {
    ReadsInOrder(Tasks(groups), groups, 0);
    assert groups[0..|groups|] == groups;
  }

  /** Reading one entry changes nothing about what the count will have seen. */
  lemma ReadKeepsView(unread: seq<Id>, seen: seq<Group>, groups: seq<Group>)
    requires unread != []
    ensures View(unread[1..], seen + EntryOf(groups, unread[0]), groups) == View(unread, seen, groups)
  {
  }

  lemma ReadGoesOn(unread: seq<Id>, seen: seq<Group>, groups: seq<Group>)
    requires WellFiled(groups) && Reading(unread, seen, groups) && unread != []
    ensures Reading(unread[1..], seen + EntryOf(groups, unread[0]), groups)
  {
    var k := |seen|;
    OneLess(unread, groups, k);
    EntryIsFound(groups, k);
    var seen' := seen + [groups[k]];
    forall i | 0 <= i < |seen'|
      ensures OlderEntry(seen'[i], groups[i])
    {
      assert i < k ==> OlderEntry(seen[i], groups[i]);
    }
  }

  /** What a count will have seen is an older state of the map. */
  lemma ViewIsOlder(unread: seq<Id>, seen: seq<Group>, groups: seq<Group>)
    requires WellFiled(groups) && Reading(unread, seen, groups)
    ensures Older(View(unread, seen, groups), groups)
  {
    var k := |seen|;
    ReadsInOrder(unread, groups, k);
    var v := View(unread, seen, groups);
    forall i | 0 <= i < |v|
      ensures OlderEntry(v[i], groups[i])
    {
      assert i < k ==> OlderEntry(seen[i], groups[i]);
    }
  }

  lemma InOrderSurvives(unread: seq<Id>, groups: seq<Group>, next: seq<Group>, k: nat)
    requires InOrder(unread, groups, k) && Older(groups, next)
    ensures InOrder(unread, next, k)
  {
    forall i | 0 <= i < |unread|
      ensures unread[i] == next[k + i].task
    {
      assert OlderEntry(groups[k + i], next[k + i]);
    }
  }

  lemma OlderViews(seen: seq<Group>, groups: seq<Group>, next: seq<Group>, k: nat, n: nat)
    requires k + n <= |groups| && Older(groups, next)
    ensures Older(seen + groups[k..k + n], seen + next[k..k + n])
  {
    var v, w := seen + groups[k..k + n], seen + next[k..k + n];
    forall i | 0 <= i < |v|
      ensures OlderEntry(v[i], w[i])
    {
      if i >= |seen| {
        assert OlderEntry(groups[k + (i - |seen|)], next[k + (i - |seen|)]);
      }
    }
  }

  /** While episodes are filed the count stays in order, and will have seen no less. */
  lemma ReadingSurvivesFiling(unread: seq<Id>, seen: seq<Group>, groups: seq<Group>, x: Tracker)
    requires WellFiled(groups) && Reading(unread, seen, groups)
    ensures var next := Insert(groups, x);
      Reading(unread, seen, next) && Older(View(unread, seen, groups), View(unread, seen, next))
  {
    var next, k := Insert(groups, x), |seen|;
    InsertKeepsFiling(groups, x);
    InsertIsNewer(groups, x);
    OlderIsTransitive(seen, groups, next);
    InOrderSurvives(unread, groups, next, k);
    ReadsInOrder(unread, groups, k);
    ReadsInOrder(unread, next, k);
    OlderViews(seen, groups, next, k, |unread|);
  }

  lemma {:induction false} CountsAddUp(a: seq<Group>, b: seq<Group>, rolloutN: int)
    ensures Episodes(a + b) == Episodes(a) + Episodes(b)
    ensures FinishedTasks(a + b, rolloutN) == FinishedTasks(a, rolloutN) + FinishedTasks(b, rolloutN)
    ensures NonDummyTasks(a + b, rolloutN) == NonDummyTasks(a, rolloutN) + NonDummyTasks(b, rolloutN)
  {
    if a == [] {
      assert a + b == b;
    } else {
      assert (a + b)[0] == a[0] && (a + b)[1..] == a[1..] + b;
      CountsAddUp(a[1..], b, rolloutN);
    }
  }

  /** Entries already read count for good. */
  lemma SeenStaysMet(c: Config, seen: seq<Group>, more: seq<Group>)
    requires Met(c, seen)
    ensures Met(c, seen + more)
  {
    CountsAddUp(seen, more, c.rolloutN);
  }
}
