/** Dropping dummy tasks against the advantage estimators: what `filter_out_dummy_tasks` of
ajet/task_rollout/native_parallel_worker.py may throw away without changing what is learned. */
module LearningSignal {
  import opened TaskGroups
  import opened TaskTargets
  import opened Advantage

  // ----- Tasks whose samples all score the same -----

  ghost predicate UniformTask(batch: seq<Entry>, t: Id, score: real) {
    forall i :: 0 <= i < |batch| && batch[i].task == t ==> batch[i].score == score
  }

  lemma {:induction false} UniformEpisode(batch: seq<Entry>, n: nat, e: Id, score: real)
    requires n <= |batch| && forall i :: 0 <= i < |batch| && batch[i].episode == e ==> batch[i].score == score
    ensures ScoreSum(batch, n, e) == SampleCount(batch, n, e) as real * score
  {
    if n > 0 {
      UniformEpisode(batch, n - 1, e, score);
    }
  }

  lemma UniformValues(batch: seq<Entry>, t: Id, score: real)
    requires OneTaskPerEpisode(batch) && UniformTask(batch, t, score)
    ensures forall k :: 0 <= k < |TaskValues(batch, t)| ==> TaskValues(batch, t)[k] == score
  {
    var es := EpisodesOf(batch, |batch|, t);
    ListedEpisodes(batch, |batch|, t);
    forall k | 0 <= k < |es|
      ensures EpisodeMean(batch, es[k]) == score
    {
      assert es[k] in es;
      UniformMean(batch, t, es[k], score);
    }
  }

  lemma UniformMean(batch: seq<Entry>, t: Id, e: Id, score: real)
    requires OneTaskPerEpisode(batch) && UniformTask(batch, t, score) && HasSample(batch, |batch|, t, e)
    requires SampleCount(batch, |batch|, e) > 0
    ensures EpisodeMean(batch, e) == score
  {
    var w :| 0 <= w < |batch| && batch[w].task == t && batch[w].episode == e;
    UniformEpisode(batch, |batch|, e, score);
    ShareOfEqual(ScoreSum(batch, |batch|, e), SampleCount(batch, |batch|, e) as real, score);
  }

  lemma CentreIsZero(score: real, baseline: (real, real), est: Estimator)
    requires est.epsilon > 0.0 && baseline.1 >= 0.0
    ensures Centre(score, baseline, est) == 0.0 <==> score == baseline.0
  {
    if score != baseline.0 {
      var d, q := score - baseline.0, baseline.1 + est.epsilon;
      assert d == (d / q) * q;
    }
  }

  /** A task whose samples all score the same teaches nothing exactly when it has two episodes or more, or scores zero: the
      estimator leaves a lone episode uncentred. */
  lemma UniformTaskSignal(batch: seq<Entry>, i: nat, score: real, est: Estimator)
    requires est.Sane() && i < |batch| && OneTaskPerEpisode(batch) && UniformTask(batch, batch[i].task, score)
    ensures EpisodeAdvantage(batch, i, est) == 0.0 <==>
      |EpisodesOf(batch, |batch|, batch[i].task)| >= 2 || score == 0.0
  {
    var values := TaskValues(batch, batch[i].task);
    EpisodeIsListed(batch, i, |batch|);
    UniformValues(batch, batch[i].task, score);
    MeanOfEqual(values, score);
    CentreIsZero(score, Baseline(values, est), est);
  }

  lemma {:induction false} UniformScores(batch: seq<Entry>, n: nat, t: Id, score: real)
    requires n <= |batch| && UniformTask(batch, t, score)
    ensures forall k :: 0 <= k < |SampleScores(batch, n, t)| ==> SampleScores(batch, n, t)[k] == score
  {
    if n > 0 {
      UniformScores(batch, n - 1, t, score);
    }
  }

  /** The sample-level estimator looks at samples instead: such a task teaches nothing exactly when it has two samples or more, or
      scores zero. */
  lemma UniformTaskSampleSignal(batch: seq<Entry>, i: nat, score: real, est: Estimator)
    requires est.Sane() && i < |batch| && UniformTask(batch, batch[i].task, score)
    ensures SampleAdvantage(batch, i, est) == 0.0 <==> |SampleScores(batch, |batch|, batch[i].task)| >= 2 || score == 0.0
  {
    var values := SampleScores(batch, |batch|, batch[i].task);
    SampleIsScored(batch, i, |batch|);
    UniformScores(batch, |batch|, batch[i].task, score);
    MeanOfEqual(values, score);
    CentreIsZero(score, Baseline(values, est), est);
  }

  // ----- An advantage depends on the samples of its task only -----

  /** The samples of one task. */
  function Restrict(batch: seq<Entry>, n: nat, t: Id): seq<Entry>
    requires n <= |batch|
  {
    if n == 0 then []
    else Restrict(batch, n - 1, t) + (if batch[n - 1].task == t then [batch[n - 1]] else [])
  }

  lemma {:induction false} RestrictedListing(batch: seq<Entry>, n: nat, t: Id)
    requires n <= |batch|
    ensures var r := Restrict(batch, n, t);
      EpisodesOf(r, |r|, t) == EpisodesOf(batch, n, t)
  {
    if n > 0 {
      RestrictedListing(batch, n - 1, t);
      if batch[n - 1].task == t {
        PrefixOfExtended(Restrict(batch, n - 1, t), [batch[n - 1]], |Restrict(batch, n - 1, t)|, "", t);
      } else {
        assert Restrict(batch, n, t) == Restrict(batch, n - 1, t);
      }
    }
  }

  lemma {:induction false} RestrictedSums(batch: seq<Entry>, n: nat, t: Id, e: Id)
    requires n <= |batch| && forall i :: 0 <= i < |batch| && batch[i].episode == e ==> batch[i].task == t
    ensures var r := Restrict(batch, n, t);
      ScoreSum(r, |r|, e) == ScoreSum(batch, n, e) && SampleCount(r, |r|, e) == SampleCount(batch, n, e)
  {
    if n > 0 {
      RestrictedSums(batch, n - 1, t, e);
      if batch[n - 1].task == t {
        PrefixOfExtended(Restrict(batch, n - 1, t), [batch[n - 1]], |Restrict(batch, n - 1, t)|, e, t);
      } else {
        assert Restrict(batch, n, t) == Restrict(batch, n - 1, t);
      }
    }
  }

  lemma ValuesAreLocal(batch: seq<Entry>, t: Id)
    requires OneTaskPerEpisode(batch)
    ensures TaskValues(batch, t) == TaskValues(Restrict(batch, |batch|, t), t)
  {
    var es := EpisodesOf(batch, |batch|, t);
    RestrictedListing(batch, |batch|, t);
    ListedEpisodes(batch, |batch|, t);
    forall k | 0 <= k < |es|
      ensures EpisodeMean(batch, es[k]) == EpisodeMean(Restrict(batch, |batch|, t), es[k])
    {
      assert es[k] in es;
      var w :| 0 <= w < |batch| && batch[w].task == t && batch[w].episode == es[k];
      RestrictedSums(batch, |batch|, t, es[k]);
    }
  }

  /** Two batches with the same samples of a task, in the same order, give those samples the same advantages. */
  lemma AdvantageIsLocal(batch: seq<Entry>, other: seq<Entry>, i: nat, j: nat, est: Estimator)
    requires est.Sane() && i < |batch| && j < |other| && batch[i] == other[j]
    requires OneTaskPerEpisode(batch) && OneTaskPerEpisode(other)
    requires Restrict(batch, |batch|, batch[i].task) == Restrict(other, |other|, batch[i].task)
    ensures EpisodeAdvantage(batch, i, est) == EpisodeAdvantage(other, j, est)
  {
    ValuesAreLocal(batch, batch[i].task);
    ValuesAreLocal(other, batch[i].task);
  }

  lemma {:induction false} ScoresAreLocal(batch: seq<Entry>, n: nat, t: Id)
    requires n <= |batch|
    ensures var r := Restrict(batch, n, t);
      SampleScores(r, |r|, t) == SampleScores(batch, n, t) && |SampleScores(batch, n, t)| == |r|
  {
    if n > 0 {
      ScoresAreLocal(batch, n - 1, t);
      if batch[n - 1].task == t {
        PrefixOfScores(Restrict(batch, n - 1, t), [batch[n - 1]], |Restrict(batch, n - 1, t)|, t);
      } else {
        assert Restrict(batch, n, t) == Restrict(batch, n - 1, t);
      }
    }
  }

  lemma {:induction false} PrefixOfScores(batch: seq<Entry>, more: seq<Entry>, n: nat, t: Id)
    requires n <= |batch|
    ensures SampleScores(batch + more, n, t) == SampleScores(batch, n, t)
  {
    if n > 0 {
      PrefixOfScores(batch, more, n - 1, t);
    }
  }

  lemma SampleAdvantageIsLocal(batch: seq<Entry>, other: seq<Entry>, i: nat, j: nat, est: Estimator)
    requires est.Sane() && i < |batch| && j < |other| && batch[i] == other[j]
    requires Restrict(batch, |batch|, batch[i].task) == Restrict(other, |other|, batch[i].task)
    ensures SampleAdvantage(batch, i, est) == SampleAdvantage(other, j, est)
  {
    ScoresAreLocal(batch, |batch|, batch[i].task);
    ScoresAreLocal(other, |other|, batch[i].task);
  }

  // ----- The batch made from a list of episodes -----

  /** One sample a saved timeline, rewarded with the step reward of that timeline. */
  function SamplesOf(x: Tracker): (r: seq<Entry>)
    ensures |r| == |x.stepRewards|
  {
    seq(|x.stepRewards|, i requires 0 <= i < |x.stepRewards| => Entry(x.task, x.uuid, x.stepRewards[i]))
  }

  function BatchOf(xs: seq<Tracker>): seq<Entry> {
    if xs == [] then [] else BatchOf(xs[..|xs| - 1]) + SamplesOf(xs[|xs| - 1])
  }

  // ----- The filter against the estimator -----

  lemma {:induction false} RestrictConcat(a: seq<Entry>, b: seq<Entry>, n: nat, t: Id)
    requires n <= |b|
    ensures Restrict(a + b, |a| + n, t) == Restrict(a, |a|, t) + Restrict(b, n, t)
  {
    if n == 0 {
      RestrictPrefix(a, b, |a|, t);
    } else {
      RestrictConcat(a, b, n - 1, t);
    }
  }

  lemma {:induction false} RestrictPrefix(a: seq<Entry>, b: seq<Entry>, n: nat, t: Id)
    requires n <= |a|
    ensures Restrict(a + b, n, t) == Restrict(a, n, t)
  {
    if n > 0 {
      RestrictPrefix(a, b, n - 1, t);
    }
  }

  lemma {:induction false} RestrictSamples(x: Tracker, n: nat, t: Id)
    requires n <= |SamplesOf(x)|
    ensures Restrict(SamplesOf(x), n, t) == if x.task == t then SamplesOf(x)[..n] else []
  {
    if n > 0 {
      RestrictSamples(x, n - 1, t);
    }
  }

  lemma BatchAppend(xs: seq<Tracker>, x: Tracker)
    ensures BatchOf(xs + [x]) == BatchOf(xs) + SamplesOf(x)
  {
    assert (xs + [x])[..|xs|] == xs;
  }

  lemma RestrictGrows(batch: seq<Entry>, x: Tracker, t: Id)
    ensures var more := batch + SamplesOf(x);
      Restrict(more, |more|, t) == Restrict(batch, |batch|, t) + (if x.task == t then SamplesOf(x) else [])
  {
    RestrictWhole(batch, SamplesOf(x), t);
    AllSamples(x, t);
  }

  lemma RestrictWhole(a: seq<Entry>, b: seq<Entry>, t: Id)
    ensures Restrict(a + b, |a + b|, t) == Restrict(a, |a|, t) + Restrict(b, |b|, t)
  {
    RestrictConcat(a, b, |b|, t);
    assert |a + b| == |a| + |b|;
  }

  lemma AllSamples(x: Tracker, t: Id)
    ensures Restrict(SamplesOf(x), |SamplesOf(x)|, t) == if x.task == t then SamplesOf(x) else []
  {
    RestrictSamples(x, |SamplesOf(x)|, t);
    assert SamplesOf(x)[..|SamplesOf(x)|] == SamplesOf(x);
  }

  lemma TaskGrows(init: seq<Tracker>, x: Tracker, t: Id)
    ensures BatchOf(TrackersOf(init + [x], t)) == BatchOf(TrackersOf(init, t)) + (if x.task == t then SamplesOf(x) else [])
  {
    assert (init + [x])[..|init|] == init;
    if x.task == t {
      BatchAppend(TrackersOf(init, t), x);
    } else {
      assert TrackersOf(init + [x], t) == TrackersOf(init, t);
    }
  }

  /** The samples of a task in the batch are the batch of its episodes. */
  lemma {:induction false} BatchOfTask(xs: seq<Tracker>, t: Id)
    ensures Restrict(BatchOf(xs), |BatchOf(xs)|, t) == BatchOf(TrackersOf(xs, t))
  {
    if xs != [] {
      var init, x := xs[..|xs| - 1], xs[|xs| - 1];
      BatchOfTask(init, t);
      BatchAppend(init, x);
      RestrictGrows(BatchOf(init), x, t);
      TaskGrows(init, x, t);
      assert init + [x] == xs;
    }
  }

  /** An entry of the batch is a sample of one of the episodes. */
  ghost predicate SampleOf(e: Entry, x: Tracker) {
    e.task == x.task && e.episode == x.uuid && e.score in x.stepRewards
  }

  lemma {:induction false} BatchMember(xs: seq<Tracker>, i: nat)
    requires i < |BatchOf(xs)|
    ensures exists x :: x in xs && SampleOf(BatchOf(xs)[i], x)
  {
    var init, x := xs[..|xs| - 1], xs[|xs| - 1];
    if i < |BatchOf(init)| {
      BatchMember(init, i);
      var y :| y in init && SampleOf(BatchOf(init)[i], y);
      assert y in xs;
    } else {
      var k := i - |BatchOf(init)|;
      assert BatchOf(xs)[i] == SamplesOf(x)[k] == Entry(x.task, x.uuid, x.stepRewards[k]);
      assert SampleOf(BatchOf(xs)[i], x);
    }
  }

  /** Ids are drawn afresh for each episode. */
  ghost predicate UniqueIds(xs: seq<Tracker>) {
    forall i, j :: 0 <= i < j < |xs| ==> xs[i].uuid != xs[j].uuid
  }

  lemma UniqueIdsMeanOneTask(xs: seq<Tracker>)
    requires forall x, y :: x in xs && y in xs && x.uuid == y.uuid ==> x == y
    ensures OneTaskPerEpisode(BatchOf(xs))
  {
    var batch := BatchOf(xs);
    forall i, j | 0 <= i < |batch| && 0 <= j < |batch| && batch[i].episode == batch[j].episode
      ensures batch[i].task == batch[j].task
    {
      BatchMember(xs, i);
      BatchMember(xs, j);
      var x :| x in xs && SampleOf(batch[i], x);
      var y :| y in xs && SampleOf(batch[j], y);
    }
  }

  lemma FilterKeepsSome(xs: seq<Tracker>)
    ensures forall x :: x in FilterOutDummyTasks(xs) ==> x in xs
  {
    forall x | x in FilterOutDummyTasks(xs)
      ensures x in xs
    {
      FilterKeepsWholeTasks(xs, x.task);
      TrackersOfHolds(FilterOutDummyTasks(xs), x);
      TrackersOfSubset(xs, x.task);
    }
  }

  /** The samples of a task that is kept are the same, in the same order, before and after the filter. */
  lemma FilterKeepsSamples(xs: seq<Tracker>, j: nat)
    requires j < |BatchOf(FilterOutDummyTasks(xs))|
    ensures var all, kept := BatchOf(xs), BatchOf(FilterOutDummyTasks(xs));
      Restrict(kept, |kept|, kept[j].task) == Restrict(all, |all|, kept[j].task)
  {
    var kept := BatchOf(FilterOutDummyTasks(xs));
    var t := kept[j].task;
    BatchOfTask(xs, t);
    BatchOfTask(FilterOutDummyTasks(xs), t);
    FilterKeepsWholeTasks(xs, t);
    RestrictHolds(kept, j, |kept|);
  }

  /** A sample of the filtered batch has the advantage it has in the unfiltered one, under either estimator. */
  lemma FilterKeepsAdvantages(xs: seq<Tracker>, i: nat, j: nat, est: Estimator)
    requires est.Sane() && UniqueIds(xs)
    requires i < |BatchOf(xs)| && j < |BatchOf(FilterOutDummyTasks(xs))| && BatchOf(xs)[i] == BatchOf(FilterOutDummyTasks(xs))[j]
    ensures EpisodeAdvantage(BatchOf(FilterOutDummyTasks(xs)), j, est) == EpisodeAdvantage(BatchOf(xs), i, est)
    ensures SampleAdvantage(BatchOf(FilterOutDummyTasks(xs)), j, est) == SampleAdvantage(BatchOf(xs), i, est)
  {
    FilterKeepsSamples(xs, j);
    FilterKeepsSome(xs);
    UniqueIdsMeanOneTask(xs);
    UniqueIdsMeanOneTask(FilterOutDummyTasks(xs));
    AdvantageIsLocal(BatchOf(xs), BatchOf(FilterOutDummyTasks(xs)), i, j, est);
    SampleAdvantageIsLocal(BatchOf(xs), BatchOf(FilterOutDummyTasks(xs)), i, j, est);
  }

  lemma {:induction false} RestrictHolds(batch: seq<Entry>, i: nat, n: nat)
    requires i < n <= |batch|
    ensures batch[i] in Restrict(batch, n, batch[i].task)
  {
    if i < n - 1 {
      RestrictHolds(batch, i, n - 1);
    }
  }

  /** `process_reward` gives every timeline of an episode the same reward. */
  ghost predicate SameStepRewards(x: Tracker) {
    x.stepRewards != [] && forall k :: 0 <= k < |x.stepRewards| ==> x.stepRewards[k] == x.stepRewards[0]
  }

  lemma PerformanceIsStepReward(x: Tracker)
    requires SameStepRewards(x)
    ensures PerformanceReward(x) == x.stepRewards[0]
  {
    MeanOfEqual(x.stepRewards, x.stepRewards[0]);
  }

  lemma {:induction false} BatchIsUniform(xs: seq<Tracker>, score: real)
    requires forall k :: 0 <= k < |xs| ==> SameStepRewards(xs[k]) && PerformanceReward(xs[k]) == score
    ensures forall i :: 0 <= i < |BatchOf(xs)| ==> BatchOf(xs)[i].score == score
  {
    if xs != [] {
      BatchIsUniform(xs[..|xs| - 1], score);
      PerformanceIsStepReward(xs[|xs| - 1]);
    }
  }

  lemma {:induction false} EpisodesOfMore(batch: seq<Entry>, x: Tracker, n: nat)
    requires n <= |SamplesOf(x)|
    requires x.uuid !in EpisodesOf(batch, |batch|, x.task)
    ensures EpisodesOf(batch + SamplesOf(x), |batch| + n, x.task)
      == EpisodesOf(batch, |batch|, x.task) + (if n > 0 then [x.uuid] else [])
  {
    if n == 0 {
      PrefixOfExtended(batch, SamplesOf(x), |batch|, "", x.task);
    } else {
      EpisodesOfMore(batch, x, n - 1);
      assert (batch + SamplesOf(x))[|batch| + n - 1] == SamplesOf(x)[n - 1];
    }
  }

  function Uuids(xs: seq<Tracker>): seq<Id> {
    seq(|xs|, i requires 0 <= i < |xs| => xs[i].uuid)
  }

  /** The episodes listed for a task are those of its group. */
  lemma {:induction false} EpisodesOfGroup(xs: seq<Tracker>, t: Id)
    requires UniqueIds(xs) && forall i :: 0 <= i < |xs| ==> xs[i].task == t && xs[i].stepRewards != []
    ensures EpisodesOf(BatchOf(xs), |BatchOf(xs)|, t) == Uuids(xs)
  {
    if xs != [] {
      var init, x := xs[..|xs| - 1], xs[|xs| - 1];
      EpisodesOfGroup(init, t);
      forall i | 0 <= i < |init|
        ensures Uuids(init)[i] != x.uuid
      {
        assert xs[i].uuid != xs[|xs| - 1].uuid;
      }
      assert |BatchOf(xs)| == |BatchOf(init)| + |SamplesOf(x)|;
      EpisodesOfMore(BatchOf(init), x, |SamplesOf(x)|);
      assert Uuids(xs) == Uuids(init) + [x.uuid];
    }
  }

  lemma {:induction false} GroupIsUnique(xs: seq<Tracker>, t: Id)
    requires UniqueIds(xs)
    ensures UniqueIds(TrackersOf(xs, t))
  {
    if xs != [] {
      var init, x := xs[..|xs| - 1], xs[|xs| - 1];
      GroupIsUnique(init, t);
      var group := TrackersOf(init, t);
      forall i | 0 <= i < |group|
        ensures group[i].uuid != x.uuid
      {
        TrackersOfSubset(init, t);
        assert group[i] in init;
      }
    }
  }

  /** The estimator finds as many episodes of a task as the filter does. */
  lemma EpisodesCountTrackers(xs: seq<Tracker>, t: Id)
    requires UniqueIds(xs) && forall x :: x in xs ==> SameStepRewards(x)
    ensures |EpisodesOf(BatchOf(xs), |BatchOf(xs)|, t)| == |TrackersOf(xs, t)|
  {
    var group := TrackersOf(xs, t);
    GroupIsUnique(xs, t);
    TrackersOfSubset(xs, t);
    assert forall i :: 0 <= i < |group| ==> group[i] in group;
    EpisodesOfGroup(group, t);
    RestrictedListing(BatchOf(xs), |BatchOf(xs)|, t);
    BatchOfTask(xs, t);
  }

  /** What the filter throws away, for the episode-level estimator: every sample of a dropped task has advantage zero exactly when the
      task has at least two episodes or its reward is zero.  A task with one rewarded episode is dropped although it would have
      been learned from. */
  lemma DroppedTaskSignal(xs: seq<Tracker>, i: nat, est: Estimator)
    requires est.Sane() && i < |BatchOf(xs)| && UniqueIds(xs)
    requires forall x :: x in xs ==> SameStepRewards(x)
    requires Dummy(TrackersOf(xs, BatchOf(xs)[i].task))
    ensures EpisodeAdvantage(BatchOf(xs), i, est) == 0.0 <==>
      |TrackersOf(xs, BatchOf(xs)[i].task)| >= 2 || BatchOf(xs)[i].score == 0.0
  {
    DummyTaskIsUniform(xs, i);
    UniqueIdsMeanOneTask(xs);
    EpisodesCountTrackers(xs, BatchOf(xs)[i].task);
    UniformTaskSignal(BatchOf(xs), i, BatchOf(xs)[i].score, est);
  }

  /** And for the sample-level one: exactly when the task's episodes have at least two timelines together, or its reward is zero. */
  lemma DroppedTaskSampleSignal(xs: seq<Tracker>, i: nat, est: Estimator)
    requires est.Sane() && i < |BatchOf(xs)|
    requires forall x :: x in xs ==> SameStepRewards(x)
    requires Dummy(TrackersOf(xs, BatchOf(xs)[i].task))
    ensures SampleAdvantage(BatchOf(xs), i, est) == 0.0 <==>
      |BatchOf(TrackersOf(xs, BatchOf(xs)[i].task))| >= 2 || BatchOf(xs)[i].score == 0.0
  {
    var batch := BatchOf(xs);
    DummyTaskIsUniform(xs, i);
    UniformTaskSampleSignal(batch, i, batch[i].score, est);
    ScoresAreLocal(batch, |batch|, batch[i].task);
    BatchOfTask(xs, batch[i].task);
  }

  lemma NoTaskLeft(ys: seq<Tracker>)
    requires forall x :: x in ys ==> TrackersOf(ys, x.task) == []
    ensures ys == []
  {
    if ys != [] {
      TrackersOfHolds(ys, ys[0]);
    }
  }

  /** The two differ: a task with one rewarded episode of two timelines is dropped, teaches nothing at sample level, and would have
      taught something at episode level. */
  lemma LoneEpisodeOfTwoTimelines(est: Estimator)
    requires est.Sane()
    ensures var xs := [Tracker("t", "e", 1.0, [1.0, 1.0])];
      && FilterOutDummyTasks(xs) == [] && |BatchOf(xs)| == 2
      && SampleAdvantage(BatchOf(xs), 0, est) == 0.0 && EpisodeAdvantage(BatchOf(xs), 0, est) != 0.0
  {
    var x := Tracker("t", "e", 1.0, [1.0, 1.0]);
    var xs := [x];
    assert BatchOf(xs) == BatchOf([]) + SamplesOf(x) == [Entry("t", "e", 1.0), Entry("t", "e", 1.0)];
    assert TrackersOf(xs, "t") == TrackersOf([], "t") + [x] == xs;
    FilterKeepsWholeTasks(xs, "t");
    FilterKeepsSome(xs);
    NoTaskLeft(FilterOutDummyTasks(xs));
    DroppedTaskSampleSignal(xs, 0, est);
    DroppedTaskSignal(xs, 0, est);
  }

  lemma DummyTaskIsUniform(xs: seq<Tracker>, i: nat)
    requires i < |BatchOf(xs)| && forall x :: x in xs ==> SameStepRewards(x)
    requires Dummy(TrackersOf(xs, BatchOf(xs)[i].task))
    ensures UniformTask(BatchOf(xs), BatchOf(xs)[i].task, BatchOf(xs)[i].score)
  {
    var batch := BatchOf(xs);
    var t := batch[i].task;
    var group := TrackersOf(xs, t);
    TrackersOfSubset(xs, t);
    BatchOfTask(xs, t);
    RestrictHolds(batch, i, |batch|);
    assert group != [];
    BatchIsUniform(group, PerformanceReward(group[0]));
    forall k | 0 <= k < |batch| && batch[k].task == t
      ensures batch[k].score == PerformanceReward(group[0])
    {
      RestrictHolds(batch, k, |batch|);
    }
  }
}
