/** Group-relative advantages: `compute_grpo_episode_level_outcome_advantage` and `compute_episode_level_loss_weight` of
ajet/backbone/trainer_verl.py, `compute_grpo_outcome_advantage` of ajet/utils/advantage.py. */
module Advantage {
  import opened TaskGroups

  /** One sample of the batch: its task, its episode, and the sum of its token rewards. */
  datatype Entry = Entry(task: Id, episode: Id, score: real)

  /** Whether to divide by the group's standard deviation, the stability term, and the standard deviation itself,
      of which only its sign matters here. */
  datatype Estimator = Estimator(normalise: bool, epsilon: real, std: seq<real> -> real) {
    ghost predicate Sane() {
      epsilon > 0.0 && forall xs :: std(xs) >= 0.0
    }
  }

  // ----- Specification -----

  /** The summed scores of the samples of an episode among the first `n`. */
  function ScoreSum(batch: seq<Entry>, n: nat, e: Id): real
    requires n <= |batch|
  {
    if n == 0 then 0.0
    else ScoreSum(batch, n - 1, e) + (if batch[n - 1].episode == e then batch[n - 1].score else 0.0)
  }

  /** The number of samples of an episode among the first `n`. */
  function SampleCount(batch: seq<Entry>, n: nat, e: Id): nat
    requires n <= |batch|
  {
    if n == 0 then 0 else SampleCount(batch, n - 1, e) + (if batch[n - 1].episode == e then 1 else 0)
  }

  /** The mean score of an episode; every episode asked for has a sample. */
  function EpisodeMean(batch: seq<Entry>, e: Id): real {
    if SampleCount(batch, |batch|, e) == 0 then 0.0
    else ScoreSum(batch, |batch|, e) / SampleCount(batch, |batch|, e) as real
  }

  /** The episodes of a task among the first `n` samples, in order of first appearance. */
  function EpisodesOf(batch: seq<Entry>, n: nat, t: Id): seq<Id>
    requires n <= |batch|
  {
    if n == 0 then []
    else
      var before := EpisodesOf(batch, n - 1, t);
      if batch[n - 1].task == t && batch[n - 1].episode !in before then before + [batch[n - 1].episode] else before
  }

  function EpisodeMeans(batch: seq<Entry>, es: seq<Id>): (r: seq<real>)
    ensures |r| == |es|
  {
    seq(|es|, i requires 0 <= i < |es| => EpisodeMean(batch, es[i]))
  }

  /** The values a task's baseline is taken over. */
  function TaskValues(batch: seq<Entry>, t: Id): seq<real> {
    EpisodeMeans(batch, EpisodesOf(batch, |batch|, t))
  }

  /** Mean and deviation of a group; a group of one is left uncentred. */
  function Baseline(values: seq<real>, est: Estimator): (real, real)
    requires values != []
  {
    if |values| == 1 then (0.0, 1.0) else (Mean(values), est.std(values))
  }

  function Centre(score: real, baseline: (real, real), est: Estimator): real
    requires est.epsilon > 0.0 && baseline.1 >= 0.0
  {
    if est.normalise then (score - baseline.0) / (baseline.1 + est.epsilon) else score - baseline.0
  }

  /** The advantage of a score in a group with these values: the distance to their mean, in units of their deviation when normalising; a
      group of one is compared with zero, in units of one. */
  ghost predicate IsAdvantage(advantage: real, score: real, values: seq<real>, est: Estimator)
    requires values != []
  {
    if est.normalise then
      if |values| == 1 then advantage * (1.0 + est.epsilon) == score
      else advantage * (est.std(values) + est.epsilon) == score - Mean(values)
    else
      advantage == if |values| == 1 then score else score - Mean(values)
  }

  lemma QuotientTimes(x: real, d: real)
    requires d > 0.0
    ensures (x / d) * d == x
  {
  }

  lemma CentredIsAdvantage(score: real, values: seq<real>, est: Estimator)
    requires est.Sane() && values != []
    ensures IsAdvantage(Centre(score, Baseline(values, est), est), score, values, est)
  {
    var baseline := Baseline(values, est);
    QuotientTimes(score - baseline.0, baseline.1 + est.epsilon);
  }

  lemma {:induction false} EpisodeIsListed(batch: seq<Entry>, i: nat, n: nat)
    requires i < n <= |batch|
    ensures batch[i].episode in EpisodesOf(batch, n, batch[i].task)
    ensures SampleCount(batch, n, batch[i].episode) > 0
  {
    if i < n - 1 {
      EpisodeIsListed(batch, i, n - 1);
    }
  }

  ghost function EpisodeAdvantage(batch: seq<Entry>, i: nat, est: Estimator): real
    requires i < |batch| && est.Sane()
  {
    EpisodeIsListed(batch, i, |batch|);
    Centre(batch[i].score, Baseline(TaskValues(batch, batch[i].task), est), est)
  }

  /** At episode level the values are the mean scores of the task's episodes, each episode once. */
  lemma EpisodeAdvantageIs(batch: seq<Entry>, i: nat, est: Estimator)
    requires i < |batch| && est.Sane()
    ensures TaskValues(batch, batch[i].task) != []
    ensures IsAdvantage(EpisodeAdvantage(batch, i, est), batch[i].score, TaskValues(batch, batch[i].task), est)
  {
    EpisodeIsListed(batch, i, |batch|);
    CentredIsAdvantage(batch[i].score, TaskValues(batch, batch[i].task), est);
  }

  // ----- The loops of the episode-level estimator -----

  method SumEpisodes(batch: seq<Entry>) returns (means: map<Id, real>)
    ensures forall e :: e in means <==> SampleCount(batch, |batch|, e) > 0
    ensures forall e :: e in means ==> means[e] == EpisodeMean(batch, e)
  {
    var sums: map<Id, real>, counts: map<Id, nat> := map[], map[];
    for i := 0 to |batch|
      invariant forall e :: e in counts <==> SampleCount(batch, i, e) > 0
      invariant sums.Keys == counts.Keys
      invariant forall e :: e in sums ==> sums[e] == ScoreSum(batch, i, e) && counts[e] == SampleCount(batch, i, e)
      invariant forall e :: e !in sums ==> ScoreSum(batch, i, e) == 0.0
    {
      var e := batch[i].episode;
      sums := sums[e := (if e in sums then sums[e] else 0.0) + batch[i].score];
      counts := counts[e := (if e in counts then counts[e] else 0) + 1];
    }
    means := map e | e in sums :: sums[e] / counts[e] as real;
  }

  ghost predicate Listed(batch: seq<Entry>, n: nat, listed: map<Id, seq<Id>>)
    requires n <= |batch|
  {
    forall t :: EpisodesOf(batch, n, t) == if t in listed then listed[t] else []
  }

  function Put(listed: map<Id, seq<Id>>, t: Id, e: Id): map<Id, seq<Id>> {
    var es := if t in listed then listed[t] else [];
    listed[t := if e in es then es else es + [e]]
  }

  lemma ListOneMore(batch: seq<Entry>, n: nat, listed: map<Id, seq<Id>>)
    requires n < |batch| && Listed(batch, n, listed)
    ensures Listed(batch, n + 1, Put(listed, batch[n].task, batch[n].episode))
  {
  }

  method ListEpisodes(batch: seq<Entry>) returns (listed: map<Id, seq<Id>>)
    ensures forall t :: EpisodesOf(batch, |batch|, t) == if t in listed then listed[t] else []
  {
    listed := map[];
    for i := 0 to |batch|
      invariant Listed(batch, i, listed)
    {
      ListOneMore(batch, i, listed);
      listed := Put(listed, batch[i].task, batch[i].episode);
    }
  }

  method ComputeEpisodeAdvantage(batch: seq<Entry>, est: Estimator) returns (adv: array<real>)
    requires est.Sane()
    ensures fresh(adv) && adv.Length == |batch|
    ensures forall i :: 0 <= i < |batch| ==> adv[i] == EpisodeAdvantage(batch, i, est)
    ensures forall i :: 0 <= i < |batch| ==>
      TaskValues(batch, batch[i].task) != [] && IsAdvantage(adv[i], batch[i].score, TaskValues(batch, batch[i].task), est)
  {
    var means := SumEpisodes(batch);
    var listed := ListEpisodes(batch);
    adv := new real[|batch|](i requires 0 <= i < |batch| => batch[i].score);
    for i := 0 to |batch|
      invariant forall k :: 0 <= k < i ==> adv[k] == EpisodeAdvantage(batch, k, est)
      invariant forall k :: i <= k < |batch| ==> adv[k] == batch[k].score
    {
      adv[i] := CentreSample(batch, i, est, means, listed);
    }
    forall i | 0 <= i < |batch|
      ensures TaskValues(batch, batch[i].task) != [] && IsAdvantage(adv[i], batch[i].score, TaskValues(batch, batch[i].task), est)
    {
      EpisodeAdvantageIs(batch, i, est);
    }
  }

  /** One sample against the baseline of its task. */
  method CentreSample(batch: seq<Entry>, i: nat, est: Estimator, means: map<Id, real>, listed: map<Id, seq<Id>>)
    returns (advantage: real)
    requires est.Sane() && i < |batch|
    requires forall e :: e in means <==> SampleCount(batch, |batch|, e) > 0
    requires forall e :: e in means ==> means[e] == EpisodeMean(batch, e)
    requires forall t :: EpisodesOf(batch, |batch|, t) == if t in listed then listed[t] else []
    ensures advantage == EpisodeAdvantage(batch, i, est)
  {
    EpisodeIsListed(batch, i, |batch|);
    var values := ValuesOfTask(batch, batch[i].task, means, listed[batch[i].task]);
    advantage := Centre(batch[i].score, Baseline(values, est), est);
  }

  /** `[episode_mean[ep] for ep in episodes]` */
  method ValuesOfTask(batch: seq<Entry>, t: Id, means: map<Id, real>, es: seq<Id>) returns (values: seq<real>)
    requires forall e :: e in means <==> SampleCount(batch, |batch|, e) > 0
    requires forall e :: e in means ==> means[e] == EpisodeMean(batch, e)
    requires es == EpisodesOf(batch, |batch|, t)
    ensures values == TaskValues(batch, t)
  {
    ListedEpisodes(batch, |batch|, t);
    assert forall k :: 0 <= k < |es| ==> es[k] in es;
    values := seq(|es|, k requires 0 <= k < |es| => means[es[k]]);
  }

  /** The episodes listed for a task are exactly those with a sample in it, each once. */
  lemma {:induction false} ListedEpisodes(batch: seq<Entry>, n: nat, t: Id)
    requires n <= |batch|
    ensures forall e :: e in EpisodesOf(batch, n, t) ==> SampleCount(batch, n, e) > 0 && HasSample(batch, n, t, e)
    ensures forall e :: HasSample(batch, n, t, e) ==> e in EpisodesOf(batch, n, t)
    ensures forall j, k :: 0 <= j < k < |EpisodesOf(batch, n, t)| ==> EpisodesOf(batch, n, t)[j] != EpisodesOf(batch, n, t)[k]
  {
    if n > 0 {
      ListedEpisodes(batch, n - 1, t);
      var last := batch[n - 1];
      assert forall e :: HasSample(batch, n - 1, t, e) ==> HasSample(batch, n, t, e);
      assert HasSample(batch, n, last.task, last.episode);
      forall e | HasSample(batch, n, t, e)
        ensures e in EpisodesOf(batch, n, t)
      {
        var i :| 0 <= i < n && batch[i].task == t && batch[i].episode == e;
        assert i < n - 1 ==> HasSample(batch, n - 1, t, e);
      }
    }
  }

  ghost predicate HasSample(batch: seq<Entry>, n: nat, t: Id, e: Id)
    requires n <= |batch|
  {
    exists i :: 0 <= i < n && batch[i].task == t && batch[i].episode == e
  }

  // ----- Per-episode mean advantages sum to zero -----

  /** Samples of an episode carry the task of that episode and of no other. */
  ghost predicate OneTaskPerEpisode(batch: seq<Entry>) {
    forall i, j :: 0 <= i < |batch| && 0 <= j < |batch| && batch[i].episode == batch[j].episode ==> batch[i].task == batch[j].task
  }

  /** The batch with its scores replaced by `adv`. */
  function Rescored(batch: seq<Entry>, adv: seq<real>): (r: seq<Entry>)
    requires |adv| == |batch|
    ensures |r| == |batch|
  {
    seq(|batch|, i requires 0 <= i < |batch| => batch[i].(score := adv[i]))
  }

  /** `other` has the samples of `batch`, those of episode `e` with their scores scaled and shifted. */
  ghost predicate AffineOn(batch: seq<Entry>, other: seq<Entry>, e: Id, scale: real, shift: real) {
    && |batch| == |other|
    && (forall i :: 0 <= i < |batch| ==> other[i].episode == batch[i].episode)
    && (forall i :: 0 <= i < |batch| && batch[i].episode == e ==> other[i].score == batch[i].score * scale - shift)
  }

  /** Scaling and shifting the scores of an episode scales and shifts their sum. */
  lemma AffineSumStep(batch: seq<Entry>, other: seq<Entry>, i: nat, e: Id, scale: real, shift: real)
    requires i < |batch| && AffineOn(batch, other, e, scale, shift)
    requires SampleCount(other, i, e) == SampleCount(batch, i, e)
    requires ScoreSum(other, i, e) == ScoreSum(batch, i, e) * scale - SampleCount(batch, i, e) as real * shift
    ensures SampleCount(other, i + 1, e) == SampleCount(batch, i + 1, e)
    ensures ScoreSum(other, i + 1, e) == ScoreSum(batch, i + 1, e) * scale - SampleCount(batch, i + 1, e) as real * shift
  {
    if batch[i].episode == e {
      AffineStep(ScoreSum(batch, i, e), batch[i].score, SampleCount(batch, i, e), scale, shift, ScoreSum(other, i, e), other[i].score);
    }
  }

  lemma {:induction false} AffineSum(batch: seq<Entry>, other: seq<Entry>, n: nat, e: Id, scale: real, shift: real)
    requires n <= |batch| && AffineOn(batch, other, e, scale, shift)
    ensures SampleCount(other, n, e) == SampleCount(batch, n, e)
    ensures ScoreSum(other, n, e) == ScoreSum(batch, n, e) * scale - SampleCount(batch, n, e) as real * shift
  {
    if n > 0 {
      var i := n - 1;
      AffineSum(batch, other, i, e, scale, shift);
      AffineSumStep(batch, other, i, e, scale, shift);
      assert n == i + 1;
    }
  }

  lemma AffineStep(s: real, x: real, c: nat, scale: real, shift: real, s': real, x': real)
    requires s' == s * scale - c as real * shift && x' == x * scale - shift
    ensures s' + x' == (s + x) * scale - (c + 1) as real * shift
  {
    assert (s + x) * scale == s * scale + x * scale;
    assert (c + 1) as real * shift == c as real * shift + shift;
  }

  lemma AffineQuotient(s: real, c: real, scale: real, shift: real, r: real)
    requires c > 0.0 && r == s * scale - c * shift
    ensures r / c == (s / c) * scale - shift
  {
    var m := s / c;
    assert s == m * c;
    assert m * c * scale - c * shift == (m * scale - shift) * c;
  }

  lemma AffineMean(batch: seq<Entry>, other: seq<Entry>, e: Id, scale: real, shift: real)
    requires AffineOn(batch, other, e, scale, shift) && SampleCount(batch, |batch|, e) > 0
    ensures EpisodeMean(other, e) == EpisodeMean(batch, e) * scale - shift
  {
    var n := |batch|;
    AffineSum(batch, other, n, e, scale, shift);
    AffineQuotient(ScoreSum(batch, n, e), SampleCount(batch, n, e) as real, scale, shift, ScoreSum(other, n, e));
  }

  lemma {:induction false} AffineTotal(xs: seq<real>, ys: seq<real>, scale: real, shift: real)
    requires |xs| == |ys| && forall i :: 0 <= i < |xs| ==> ys[i] == xs[i] * scale - shift
    ensures Sum(ys) == Sum(xs) * scale - |xs| as real * shift
  {
    if xs != [] {
      var n := |xs| - 1;
      AffineTotal(xs[..n], ys[..n], scale, shift);
      AffineStep(Sum(xs[..n]), xs[n], n, scale, shift, Sum(ys[..n]), ys[n]);
    }
  }

  /** The factor the scores of a task are multiplied with, and what is then subtracted. */
  function Scale(baseline: (real, real), est: Estimator): real
    requires est.epsilon > 0.0 && baseline.1 >= 0.0
  {
    if est.normalise then 1.0 / (baseline.1 + est.epsilon) else 1.0
  }

  lemma CentreIsAffine(score: real, baseline: (real, real), est: Estimator, centred: real)
    requires est.epsilon > 0.0 && baseline.1 >= 0.0 && centred == Centre(score, baseline, est)
    ensures centred == score * Scale(baseline, est) - baseline.0 * Scale(baseline, est)
  {
    var d := baseline.1 + est.epsilon;
    assert (score - baseline.0) / d == score * (1.0 / d) - baseline.0 * (1.0 / d);
  }

  ghost predicate AreEpisodeAdvantages(batch: seq<Entry>, est: Estimator, adv: seq<real>)
    requires est.Sane()
  {
    |adv| == |batch| && forall i :: 0 <= i < |batch| ==> adv[i] == EpisodeAdvantage(batch, i, est)
  }

  ghost predicate Affine(xs: seq<real>, ys: seq<real>, scale: real, shift: real) {
    |xs| == |ys| && forall k :: 0 <= k < |xs| ==> ys[k] == xs[k] * scale - shift
  }

  /** The scores of this task's samples are scaled and shifted. */
  ghost predicate AffineTask(batch: seq<Entry>, adv: seq<real>, t: Id, scale: real, shift: real) {
    |adv| == |batch| && forall i :: 0 <= i < |batch| && batch[i].task == t ==> adv[i] == batch[i].score * scale - shift
  }

  lemma AdvantageIsCentred(batch: seq<Entry>, i: nat, est: Estimator)
    requires est.Sane() && i < |batch| && EpisodesOf(batch, |batch|, batch[i].task) != []
    ensures EpisodeAdvantage(batch, i, est) == Centre(batch[i].score, Baseline(TaskValues(batch, batch[i].task), est), est)
  {
  }

  /** Centring a task of several episodes subtracts a multiple of the mean of their means. */
  lemma AdvantagesAreAffine(batch: seq<Entry>, t: Id, est: Estimator, adv: seq<real>) returns (scale: real)
    requires est.Sane() && AreEpisodeAdvantages(batch, est, adv) && |EpisodesOf(batch, |batch|, t)| >= 2
    ensures AffineTask(batch, adv, t, scale, Mean(TaskValues(batch, t)) * scale)
  {
    var baseline := Baseline(TaskValues(batch, t), est);
    scale := Scale(baseline, est);
    forall i | 0 <= i < |batch| && batch[i].task == t
      ensures adv[i] == batch[i].score * scale - Mean(TaskValues(batch, t)) * scale
    {
      AdvantageIsCentred(batch, i, est);
      CentreIsAffine(batch[i].score, baseline, est, adv[i]);
    }
  }

  lemma AdvantageOfEpisode(batch: seq<Entry>, t: Id, e: Id, adv: seq<real>, scale: real, shift: real)
    requires OneTaskPerEpisode(batch) && e in EpisodesOf(batch, |batch|, t) && AffineTask(batch, adv, t, scale, shift)
    ensures EpisodeMean(Rescored(batch, adv), e) == EpisodeMean(batch, e) * scale - shift
  {
    ListedEpisodes(batch, |batch|, t);
    var w :| 0 <= w < |batch| && batch[w].task == t && batch[w].episode == e;
    assert forall i :: 0 <= i < |batch| && batch[i].episode == e ==> batch[i].task == batch[w].task;
    AffineMean(batch, Rescored(batch, adv), e, scale, shift);
  }

  lemma MeansAreAffine(batch: seq<Entry>, t: Id, es: seq<Id>, adv: seq<real>, scale: real, shift: real)
    requires OneTaskPerEpisode(batch) && es == EpisodesOf(batch, |batch|, t) && AffineTask(batch, adv, t, scale, shift)
    ensures Affine(EpisodeMeans(batch, es), EpisodeMeans(Rescored(batch, adv), es), scale, shift)
  {
    var xs, ys := EpisodeMeans(batch, es), EpisodeMeans(Rescored(batch, adv), es);
    forall k | 0 <= k < |es|
      ensures ys[k] == xs[k] * scale - shift
    {
      assert es[k] in es;
      AdvantageOfEpisode(batch, t, es[k], adv, scale, shift);
    }
  }

  /** For a task with at least two episodes, the mean advantages of its episodes sum to zero: an episode with many samples
      weighs no more than one with few. */
  lemma MeanAdvantagesSumToZero(batch: seq<Entry>, t: Id, est: Estimator, adv: seq<real>)
    requires est.Sane() && OneTaskPerEpisode(batch) && |EpisodesOf(batch, |batch|, t)| >= 2
    requires AreEpisodeAdvantages(batch, est, adv)
    ensures Sum(EpisodeMeans(Rescored(batch, adv), EpisodesOf(batch, |batch|, t))) == 0.0
  {
    var es, values := EpisodesOf(batch, |batch|, t), TaskValues(batch, t);
    var scale := AdvantagesAreAffine(batch, t, est, adv);
    MeansAreAffine(batch, t, es, adv, scale, Mean(values) * scale);
    CentredMeans(values, EpisodeMeans(Rescored(batch, adv), es), scale);
  }

  lemma CentredMeans(values: seq<real>, means: seq<real>, scale: real)
    requires values != [] && Affine(values, means, scale, Mean(values) * scale)
    ensures Sum(means) == 0.0
  {
    var n, m := |values| as real, Mean(values);
    AffineTotal(values, means, scale, m * scale);
    QuotientTimes(Sum(values), n);
    CentredTotal(Sum(values), n, m, scale, m * scale);
  }

  lemma CentredTotal(total: real, n: real, mean: real, scale: real, shift: real)
    requires total == mean * n && shift == mean * scale
    ensures total * scale - n * shift == 0.0
  {
    assert mean * n * scale == n * (mean * scale);
  }

  // ----- The baseline ignores how many samples an episode produced -----

  lemma {:induction false} PrefixOfExtended(batch: seq<Entry>, more: seq<Entry>, n: nat, e: Id, t: Id)
    requires n <= |batch|
    ensures ScoreSum(batch + more, n, e) == ScoreSum(batch, n, e)
    ensures SampleCount(batch + more, n, e) == SampleCount(batch, n, e)
    ensures EpisodesOf(batch + more, n, t) == EpisodesOf(batch, n, t)
  {
    if n > 0 {
      PrefixOfExtended(batch, more, n - 1, e, t);
    }
  }

  /** Further samples of episode `e`, of task `task`, whose scores add up to `k` times `mean`. */
  ghost predicate MoreOf(more: seq<Entry>, e: Id, task: Id, mean: real) {
    && (forall i :: 0 <= i < |more| ==> more[i].episode == e && more[i].task == task)
    && ScoreSum(more, |more|, e) == |more| as real * mean
  }

  lemma {:induction false} ExtendedSums(batch: seq<Entry>, more: seq<Entry>, k: nat, e: Id, f: Id)
    requires k <= |more| && forall i :: 0 <= i < |more| ==> more[i].episode == e
    ensures SampleCount(batch + more, |batch| + k, f) == SampleCount(batch, |batch|, f) + (if e == f then k else 0)
    ensures ScoreSum(batch + more, |batch| + k, f) == ScoreSum(batch, |batch|, f) + (if e == f then ScoreSum(more, k, e) else 0.0)
  {
    if k == 0 {
      PrefixOfExtended(batch, more, |batch|, f, "");
    } else {
      ExtendedSums(batch, more, k - 1, e, f);
    }
  }

  lemma {:induction false} ExtendedListing(batch: seq<Entry>, more: seq<Entry>, k: nat, e: Id, task: Id, t: Id)
    requires k <= |more| && forall i :: 0 <= i < |more| ==> more[i].episode == e && more[i].task == task
    requires e in EpisodesOf(batch, |batch|, task)
    ensures EpisodesOf(batch + more, |batch| + k, t) == EpisodesOf(batch, |batch|, t)
  {
    if k == 0 {
      PrefixOfExtended(batch, more, |batch|, e, t);
    } else {
      ExtendedListing(batch, more, k - 1, e, task, t);
    }
  }

  lemma MeanOfExtended(s: real, c: real, k: real, total: real, count: real)
    requires c > 0.0 && k >= 0.0 && total == s + k * (s / c) && count == c + k
    ensures total / count == s / c
  {
    var m := s / c;
    assert s == m * c;
    assert total == m * count;
  }

  /** Replicating samples of one episode, or adding any samples of it that leave its mean as it was, changes no task's baseline. */
  lemma ReplicationKeepsBaselines(batch: seq<Entry>, more: seq<Entry>, e: Id, task: Id, t: Id)
    requires e in EpisodesOf(batch, |batch|, task) && MoreOf(more, e, task, EpisodeMean(batch, e))
    ensures TaskValues(batch + more, t) == TaskValues(batch, t)
  {
    var all := batch + more;
    ExtendedListing(batch, more, |more|, e, task, t);
    ListedEpisodes(batch, |batch|, task);
    var es := EpisodesOf(batch, |batch|, t);
    forall k | 0 <= k < |es|
      ensures EpisodeMean(all, es[k]) == EpisodeMean(batch, es[k])
    {
      ExtendedMean(batch, more, e, task, es[k]);
    }
  }

  lemma ExtendedMean(batch: seq<Entry>, more: seq<Entry>, e: Id, task: Id, f: Id)
    requires SampleCount(batch, |batch|, e) > 0 && MoreOf(more, e, task, EpisodeMean(batch, e))
    ensures EpisodeMean(batch + more, f) == EpisodeMean(batch, f)
  {
    var all := batch + more;
    assert |all| == |batch| + |more|;
    ExtendedSums(batch, more, |more|, e, f);
    var s, c, s', c' := ScoreSum(batch, |batch|, f), SampleCount(batch, |batch|, f), ScoreSum(all, |all|, f), SampleCount(all, |all|, f);
    if f == e {
      var extra := ScoreSum(more, |more|, e);
      assert s' == s + extra;
      SameQuotient(s, c, extra, |more|, s', c');
    }
  }

  lemma SameQuotient(s: real, c: nat, extra: real, k: nat, total: real, count: nat)
    requires c > 0 && total == s + extra && count == c + k
    requires extra == k as real * (s / c as real)
    ensures total / count as real == s / c as real
  {
    MeanOfExtended(s, c as real, k as real, total, count as real);
  }

  /** Hence the samples already in the batch keep their advantages. */
  lemma ReplicationKeepsAdvantages(batch: seq<Entry>, more: seq<Entry>, e: Id, task: Id, i: nat, est: Estimator)
    requires est.Sane() && i < |batch|
    requires e in EpisodesOf(batch, |batch|, task) && MoreOf(more, e, task, EpisodeMean(batch, e))
    ensures EpisodeAdvantage(batch + more, i, est) == EpisodeAdvantage(batch, i, est)
  {
    ReplicationKeepsBaselines(batch, more, e, task, batch[i].task);
    assert (batch + more)[i] == batch[i];
  }

  // ----- One sample per episode: the sample-level estimator -----

  /** `id2score[t]`: the scores of a task's samples among the first `n`. */
  function SampleScores(batch: seq<Entry>, n: nat, t: Id): seq<real>
    requires n <= |batch|
  {
    if n == 0 then []
    else SampleScores(batch, n - 1, t) + (if batch[n - 1].task == t then [batch[n - 1].score] else [])
  }

  lemma {:induction false} SampleIsScored(batch: seq<Entry>, i: nat, n: nat)
    requires i < n <= |batch|
    ensures SampleScores(batch, n, batch[i].task) != []
  {
    if i < n - 1 {
      SampleIsScored(batch, i, n - 1);
    }
  }

  ghost function SampleAdvantage(batch: seq<Entry>, i: nat, est: Estimator): real
    requires i < |batch| && est.Sane()
  {
    SampleIsScored(batch, i, |batch|);
    Centre(batch[i].score, Baseline(SampleScores(batch, |batch|, batch[i].task), est), est)
  }

  /** At sample level they are the scores of the task's samples. */
  lemma SampleAdvantageIs(batch: seq<Entry>, i: nat, est: Estimator)
    requires i < |batch| && est.Sane()
    ensures SampleScores(batch, |batch|, batch[i].task) != []
    ensures IsAdvantage(SampleAdvantage(batch, i, est), batch[i].score, SampleScores(batch, |batch|, batch[i].task), est)
  {
    SampleIsScored(batch, i, |batch|);
    CentredIsAdvantage(batch[i].score, SampleScores(batch, |batch|, batch[i].task), est);
  }

  /** Every task's scores under the task, in order. */
  ghost predicate Grouped(batch: seq<Entry>, n: nat, grouped: map<Id, seq<real>>)
    requires n <= |batch|
  {
    forall t :: SampleScores(batch, n, t) == if t in grouped then grouped[t] else []
  }

  lemma GroupOneMore(batch: seq<Entry>, n: nat, grouped: map<Id, seq<real>>)
    requires n < |batch| && Grouped(batch, n, grouped)
    ensures var t := batch[n].task;
      Grouped(batch, n + 1, grouped[t := (if t in grouped then grouped[t] else []) + [batch[n].score]])
  {
  }

  /** `id2score[index[i]].append(scores[i])` */
  method GroupScores(batch: seq<Entry>) returns (grouped: map<Id, seq<real>>)
    ensures Grouped(batch, |batch|, grouped)
  {
    grouped := map[];
    for i := 0 to |batch|
      invariant Grouped(batch, i, grouped)
    {
      GroupOneMore(batch, i, grouped);
      var t := batch[i].task;
      grouped := grouped[t := (if t in grouped then grouped[t] else []) + [batch[i].score]];
    }
  }

  /** `compute_grpo_outcome_advantage`, which overwrites the scores in place. */
  method ComputeSampleAdvantage(batch: seq<Entry>, est: Estimator) returns (scores: array<real>)
    requires est.Sane()
    ensures fresh(scores) && scores.Length == |batch|
    ensures forall i :: 0 <= i < |batch| ==> scores[i] == SampleAdvantage(batch, i, est)
    ensures forall i :: 0 <= i < |batch| ==>
      SampleScores(batch, |batch|, batch[i].task) != [] && IsAdvantage(scores[i], batch[i].score, SampleScores(batch, |batch|, batch[i].task), est)
  {
    var grouped := GroupScores(batch);
    scores := new real[|batch|](i requires 0 <= i < |batch| => batch[i].score);
    CentreAll(batch, est, grouped, scores);
    forall i | 0 <= i < |batch|
      ensures SampleScores(batch, |batch|, batch[i].task) != []
      ensures IsAdvantage(scores[i], batch[i].score, SampleScores(batch, |batch|, batch[i].task), est)
    {
      SampleAdvantageIs(batch, i, est);
    }
  }

  method CentreAll(batch: seq<Entry>, est: Estimator, grouped: map<Id, seq<real>>, scores: array<real>)
    requires est.Sane() && Grouped(batch, |batch|, grouped)
    requires scores.Length == |batch| && forall k :: 0 <= k < |batch| ==> scores[k] == batch[k].score
    modifies scores
    ensures forall k :: 0 <= k < |batch| ==> scores[k] == SampleAdvantage(batch, k, est)
  {
    ghost var given := scores[..];
    for i := 0 to |batch|
      invariant forall k :: 0 <= k < i ==> scores[k] == SampleAdvantage(batch, k, est)
      invariant scores[i..] == given[i..]
    {
      assert scores[i] == given[i..][0];
      var advantage := CentreInGroup(batch, i, scores[i], est, grouped);
      scores[i] := advantage;
    }
  }

  /** One sample against the scores of its task. */
  method CentreInGroup(batch: seq<Entry>, i: nat, score: real, est: Estimator, grouped: map<Id, seq<real>>)
      returns (advantage: real)
    requires est.Sane() && i < |batch| && score == batch[i].score && Grouped(batch, |batch|, grouped)
    ensures advantage == SampleAdvantage(batch, i, est)
  {
    SampleIsScored(batch, i, |batch|);
    advantage := Centre(score, Baseline(grouped[batch[i].task], est), est);
  }

  ghost predicate OneSamplePerEpisode(batch: seq<Entry>) {
    forall i, j :: 0 <= i < j < |batch| ==> batch[i].episode != batch[j].episode
  }

  lemma {:induction false} SingleSampleSums(batch: seq<Entry>, i: nat, n: nat)
    requires OneSamplePerEpisode(batch) && i < |batch| && n <= |batch|
    ensures SampleCount(batch, n, batch[i].episode) == if i < n then 1 else 0
    ensures ScoreSum(batch, n, batch[i].episode) == if i < n then batch[i].score else 0.0
  {
    if n > 0 {
      SingleSampleSums(batch, i, n - 1);
    }
  }

  lemma {:induction false} SingleSampleListing(batch: seq<Entry>, n: nat, t: Id)
    requires OneSamplePerEpisode(batch) && n <= |batch|
    ensures EpisodeMeans(batch, EpisodesOf(batch, n, t)) == SampleScores(batch, n, t)
  {
    if n > 0 {
      SingleSampleListing(batch, n - 1, t);
      SingleSampleSums(batch, n - 1, |batch|);
      SingleSampleSums(batch, n - 1, n - 1);
      ListedEpisodes(batch, n - 1, t);
      var e := batch[n - 1].episode;
      assert e !in EpisodesOf(batch, n - 1, t);
      assert EpisodeMean(batch, e) == batch[n - 1].score;
    }
  }

  /** With one sample per episode the episode-level estimator is the sample-level one. */
  lemma EpisodeLevelRefinesSampleLevel(batch: seq<Entry>, i: nat, est: Estimator)
    requires i < |batch| && est.Sane() && OneSamplePerEpisode(batch)
    ensures EpisodeAdvantage(batch, i, est) == SampleAdvantage(batch, i, est)
  {
    SingleSampleListing(batch, |batch|, batch[i].task);
  }

  // ----- Loss weights -----

  function LossWeight(batch: seq<Entry>, i: nat): real
    requires i < |batch|
  {
    var c := SampleCount(batch, |batch|, batch[i].episode);
    if c == 0 then 0.0 else 1.0 / c as real
  }

  method ComputeLossWeights(batch: seq<Entry>) returns (weights: seq<real>)
    ensures |weights| == |batch| && forall i :: 0 <= i < |batch| ==> weights[i] == LossWeight(batch, i)
  {
    var counts: map<Id, nat> := map[];
    for i := 0 to |batch|
      invariant forall e :: SampleCount(batch, i, e) == if e in counts then counts[e] else 0
    {
      var e := batch[i].episode;
      counts := counts[e := (if e in counts then counts[e] else 0) + 1];
    }
    weights := [];
    for i := 0 to |batch|
      invariant |weights| == i && forall k :: 0 <= k < i ==> weights[k] == LossWeight(batch, k)
    {
      EpisodeIsListed(batch, i, |batch|);
      weights := weights + [1.0 / counts[batch[i].episode] as real];
    }
  }

  /** The weighted sum of the scores of the first `n` samples, of one episode or of all. */
  function WeightedSum(batch: seq<Entry>, n: nat, only: seq<Id>): real
    requires n <= |batch|
  {
    if n == 0 then 0.0
    else
      WeightedSum(batch, n - 1, only)
      + (if batch[n - 1].episode in only then LossWeight(batch, n - 1) * batch[n - 1].score else 0.0)
  }

  lemma {:induction false} WeightedEpisode(batch: seq<Entry>, n: nat, e: Id)
    requires n <= |batch| && SampleCount(batch, |batch|, e) > 0
    ensures WeightedSum(batch, n, [e]) == ScoreSum(batch, n, e) / SampleCount(batch, |batch|, e) as real
  {
    if n > 0 {
      WeightedEpisode(batch, n - 1, e);
    }
  }

  lemma {:induction false} WeightedSplit(batch: seq<Entry>, n: nat, e: Id, rest: seq<Id>)
    requires n <= |batch| && e !in rest
    ensures WeightedSum(batch, n, [e] + rest) == WeightedSum(batch, n, [e]) + WeightedSum(batch, n, rest)
  {
    if n > 0 {
      WeightedSplit(batch, n - 1, e, rest);
    }
  }

  lemma {:induction false} WeightedNone(batch: seq<Entry>, n: nat)
    requires n <= |batch|
    ensures WeightedSum(batch, n, []) == 0.0
  {
    if n > 0 {
      WeightedNone(batch, n - 1);
    }
  }

  function TotalOfMeans(batch: seq<Entry>, es: seq<Id>): real {
    if es == [] then 0.0 else EpisodeMean(batch, es[0]) + TotalOfMeans(batch, es[1..])
  }

  /** Weighted with the loss weights, the samples of any set of episodes add up to the sum of the episodes' means. */
  lemma {:induction false} WeightedSumIsSumOfMeans(batch: seq<Entry>, es: seq<Id>)
    requires forall e :: e in es ==> SampleCount(batch, |batch|, e) > 0
    requires forall i, j :: 0 <= i < j < |es| ==> es[i] != es[j]
    ensures WeightedSum(batch, |batch|, es) == TotalOfMeans(batch, es)
  {
    if es == [] {
      WeightedNone(batch, |batch|);
    } else {
      WeightedSumIsSumOfMeans(batch, es[1..]);
      assert es == [es[0]] + es[1..];
      assert es[0] in es;
      WeightedSplit(batch, |batch|, es[0], es[1..]);
      WeightedEpisode(batch, |batch|, es[0]);
    }
  }

  /** The weights of the samples of an episode among the first `n` add up to that episode's share of its samples. */
  lemma {:induction false} WeightsOfEpisode(batch: seq<Entry>, n: nat, e: Id)
    requires n <= |batch| && SampleCount(batch, |batch|, e) > 0
    ensures WeightTotal(batch, n, e) == SampleCount(batch, n, e) as real / SampleCount(batch, |batch|, e) as real
  {
    if n > 0 {
      WeightsOfEpisode(batch, n - 1, e);
      OneMoreShare(SampleCount(batch, n - 1, e) as real, SampleCount(batch, |batch|, e) as real);
    }
  }

  lemma OneMoreShare(k: real, c: real)
    requires c > 0.0
    ensures k / c + 1.0 / c == (k + 1.0) / c
  {
  }

  function WeightTotal(batch: seq<Entry>, n: nat, e: Id): real
    requires n <= |batch|
  {
    if n == 0 then 0.0
    else WeightTotal(batch, n - 1, e) + (if batch[n - 1].episode == e then LossWeight(batch, n - 1) else 0.0)
  }

  /** The weights of all samples of one episode sum to one. */
  lemma WeightsOfEpisodeSumToOne(batch: seq<Entry>, e: Id)
    requires SampleCount(batch, |batch|, e) > 0
    ensures WeightTotal(batch, |batch|, e) == 1.0
  {
    WeightsOfEpisode(batch, |batch|, e);
    Whole(SampleCount(batch, |batch|, e) as real);
  }

  lemma Whole(c: real)
    requires c > 0.0
    ensures c / c == 1.0
  {
  }
}
