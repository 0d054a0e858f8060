/** `PeriodicDrainThreadPoolExecutor.submit_with_periodic_drain` of ajet/utils/thread_executors.py, and the training loop of
tutorial/example_appworld_swarm/agent_roll.py that relies on its drains falling on task-group boundaries.

A drain waits for every future, so the order in which jobs finish does not matter: a future is its eventual outcome. */
module PeriodicDrain {
  datatype Future<T> = Value(value: T) | Failure

  /** A submission: accepted, or raising before its future is stored, as a blocking first run does when the job fails. */
  datatype Call<T> = Accepted(future: Future<T>) | Rejected

  /** `_submitted_count` and `current_futures`. */
  datatype Pool<T> = Pool(count: nat, futures: seq<Future<T>>)

  /** The results of the jobs that did not fail, in order. */
  function Good<T>(futures: seq<Future<T>>): seq<T> {
    if futures == [] then []
    else
      var last := futures[|futures| - 1];
      Good(futures[..|futures| - 1]) + (if last.Value? then [last.value] else [])
  }

  function Submit<T>(p: Pool<T>, every: nat, call: Call<T>): (Pool<T>, seq<T>)
    requires every > 0
  {
    if call.Rejected? then (Pool(p.count + 1, p.futures), [])
    else if (p.count + 1) % every == 0 then (Pool(p.count + 1, []), Good(p.futures + [call.future]))
    else (Pool(p.count + 1, p.futures + [call.future]), [])
  }

  class Executor<T> {
    const drainEvery: nat
    var submittedCount: nat
    var currentFutures: seq<Future<T>>

    function Contents(): Pool<T>
      reads this
    {
      Pool(submittedCount, currentFutures)
    }

    constructor (workers: nat)
      ensures drainEvery == workers && Contents() == Pool(0, [])
    {
      drainEvery, submittedCount, currentFutures := workers, 0, [];
    }

    method SubmitWithPeriodicDrain(call: Call<T>) returns (results: seq<T>)
      requires drainEvery > 0
      modifies this
      ensures (Contents(), results) == Submit(old(Contents()), drainEvery, call)
    {
      results := [];
      submittedCount := submittedCount + 1;
      if call.Rejected? {
        return;
      }
      currentFutures := currentFutures + [call.future];
      if submittedCount > 0 && submittedCount % drainEvery == 0 {
        for i := 0 to |currentFutures|
          invariant results == Good(currentFutures[..i])
        {
          assert currentFutures[..i + 1][..i] == currentFutures[..i];
          match currentFutures[i] {
            case Value(v) => results := results + [v];
            case Failure =>
          }
        }
        assert currentFutures[..|currentFutures|] == currentFutures;
        currentFutures := [];
      }
    }
  }

  // ----- Whole runs -----

  function After<T>(every: nat, calls: seq<Call<T>>): Pool<T>
    requires every > 0
  {
    if calls == [] then Pool(0, []) else Submit(After(every, calls[..|calls| - 1]), every, calls[|calls| - 1]).0
  }

  /** What the calls returned, one after the other. */
  function Returned<T>(every: nat, calls: seq<Call<T>>): seq<T>
    requires every > 0
  {
    if calls == [] then []
    else Returned(every, calls[..|calls| - 1]) + Submit(After(every, calls[..|calls| - 1]), every, calls[|calls| - 1]).1
  }

  /** The jobs taken in. */
  function Jobs<T>(calls: seq<Call<T>>): seq<Future<T>> {
    if calls == [] then []
    else
      var last := calls[|calls| - 1];
      Jobs(calls[..|calls| - 1]) + (if last.Accepted? then [last.future] else [])
  }

  lemma {:induction false} GoodConcat<T>(xs: seq<Future<T>>, ys: seq<Future<T>>)
    ensures Good(xs + ys) == Good(xs) + Good(ys)
  {
    if ys == [] {
      assert xs + ys == xs;
    } else {
      var n := |ys| - 1;
      GoodConcat(xs, ys[..n]);
      assert (xs + ys)[..|xs| + n] == xs + ys[..n];
    }
  }

  function Taken<T>(call: Call<T>): seq<Future<T>> {
    if call.Accepted? then [call.future] else []
  }

  lemma SubmitConserves<T>(p: Pool<T>, every: nat, call: Call<T>)
    requires every > 0
    ensures Submit(p, every, call).1 + Good(Submit(p, every, call).0.futures) == Good(p.futures) + Good(Taken(call))
  {
    GoodConcat(p.futures, Taken(call));
    if call.Rejected? {
      assert p.futures + Taken(call) == p.futures;
    }
  }

  lemma Regroup<T>(before: seq<T>, returned: seq<T>, held: seq<T>, heldBefore: seq<T>, taken: seq<T>, all: seq<T>)
    requires returned + held == heldBefore + taken && before + heldBefore == all
    ensures (before + returned) + held == all + taken
  {
    assert (before + returned) + held == before + (returned + held);
  }

  /** Nothing is lost, repeated or reordered: what has been returned, followed by what the buffer will return, is the results of all
      jobs taken in that do not fail, in the order of submission. */
  lemma {:induction false} ResultsInSubmissionOrder<T>(every: nat, calls: seq<Call<T>>)
    requires every > 0
    ensures Returned(every, calls) + Good(After(every, calls).futures) == Good(Jobs(calls))
  {
    if calls != [] {
      var n := |calls| - 1;
      var p := After(every, calls[..n]);
      ResultsInSubmissionOrder(every, calls[..n]);
      SubmitConserves(p, every, calls[n]);
      GoodConcat(Jobs(calls[..n]), Taken(calls[n]));
      assert Jobs(calls) == Jobs(calls[..n]) + Taken(calls[n]);
      Regroup(Returned(every, calls[..n]), Submit(p, every, calls[n]).1, Good(After(every, calls).futures),
        Good(p.futures), Good(Taken(calls[n])), Good(Jobs(calls[..n])));
    }
  }

  ghost predicate AllAccepted<T>(calls: seq<Call<T>>) {
    forall i :: 0 <= i < |calls| ==> calls[i].Accepted?
  }

  lemma {:induction false} JobsOfAccepted<T>(calls: seq<Call<T>>)
    requires AllAccepted(calls)
    ensures |Jobs(calls)| == |calls| && forall i :: 0 <= i < |calls| ==> Jobs(calls)[i] == calls[i].future
  {
    if calls != [] {
      JobsOfAccepted(calls[..|calls| - 1]);
    }
  }

  lemma ModuloStep(n: nat, every: nat)
    requires every > 0
    ensures (n + 1) % every == if n % every == every - 1 then 0 else n % every + 1
  {
    var q, r := n / every, n % every;
    assert n == q * every + r;
    if r == every - 1 {
      assert n + 1 == (q + 1) * every;
      Remainder(n + 1, every, q + 1, 0);
    } else {
      Remainder(n + 1, every, q, r + 1);
    }
  }

  lemma Remainder(n: nat, every: nat, q: nat, r: nat)
    requires r < every && n == q * every + r
    ensures n / every == q && n % every == r
  {
    var q', r' := n / every, n % every;
    assert n == q' * every + r';
    assert (q - q') * every == r' - r;
    if q > q' {
      AtLeast(q - q', every);
    } else if q < q' {
      AtLeast(q' - q, every);
    }
  }

  lemma AtLeast(k: nat, every: nat)
    requires k >= 1
    ensures k * every >= every
  {
  }

  /** These are the jobs of the last `r` calls. */
  ghost predicate LastJobs<T>(futures: seq<Future<T>>, calls: seq<Call<T>>, r: nat) {
    r == |futures| <= |calls| && forall i :: 0 <= i < r ==> calls[|calls| - r + i] == Accepted(futures[i])
  }

  lemma OneMoreJob<T>(futures: seq<Future<T>>, calls: seq<Call<T>>, r: nat)
    requires calls != [] && calls[|calls| - 1].Accepted? && LastJobs(futures, calls[..|calls| - 1], r)
    ensures LastJobs(futures + [calls[|calls| - 1].future], calls, r + 1)
  {
    var n := |calls| - 1;
    forall i | 0 <= i < r
      ensures calls[n + 1 - (r + 1) + i] == Accepted(futures[i])
    {
      assert calls[..n][n - r + i] == Accepted(futures[i]);
    }
  }

  /** When no submission raises, the buffer always holds the last `k mod N` jobs of the k submitted. */
  lemma {:induction false} BufferIsModulo<T>(every: nat, calls: seq<Call<T>>)
    requires every > 0 && AllAccepted(calls)
    ensures After(every, calls).count == |calls|
    ensures LastJobs(After(every, calls).futures, calls, |calls| % every)
  {
    if calls != [] {
      var n := |calls| - 1;
      BufferIsModulo(every, calls[..n]);
      ModuloStep(n, every);
      OneMoreJob(After(every, calls[..n]).futures, calls, n % every);
    }
  }

  /** Only the first submission can raise, by blocking on a job that fails.  Until the first drain the buffer is then one short of
      the count, and that drain is one job short; from then on everything is as if it had been taken in. */
  lemma {:induction false} FirstRejected<T>(every: nat, calls: seq<Call<T>>)
    requires every > 0 && calls != [] && calls[0].Rejected? && forall i :: 1 <= i < |calls| ==> calls[i].Accepted?
    ensures After(every, calls).count == |calls|
    ensures |After(every, calls).futures| == if |calls| < every then |calls| - 1 else |calls| % every
  {
    var n := |calls| - 1;
    if n == 0 {
      assert After(every, calls[..0]) == Pool(0, []);
      if every == 1 {
        assert 1 % every == 0;
      }
    } else {
      FirstRejected(every, calls[..n]);
      AcceptedGrows(After(every, calls[..n]), every, calls[n]);
      ModuloStep(n, every);
      if n < every {
        Remainder(n + 1, every, if n + 1 == every then 1 else 0, if n + 1 == every then 0 else n + 1);
      }
    }
  }

  lemma AcceptedGrows<T>(p: Pool<T>, every: nat, call: Call<T>)
    requires every > 0 && call.Accepted?
    ensures Submit(p, every, call).0.count == p.count + 1
    ensures |Submit(p, every, call).0.futures| == if (p.count + 1) % every == 0 then 0 else |p.futures| + 1
  {
  }

  // ----- The training loop -----

  /** One rollout: the task it is for, counted over all epochs, and which of the task's repeats it is. */
  datatype Rollout = Rollout(task: nat, repetition: nat)

  /** How many tasks the loop gets through before the global step, read after each task, reaches its goal. */
  function TasksDone(globalStep: nat -> int, goal: int, tasks: nat): (n: nat)
    ensures n <= tasks
    ensures forall i :: 0 <= i < n - 1 ==> globalStep(i) < goal
    ensures n < tasks ==> n > 0 && globalStep(n - 1) >= goal
    decreases tasks
  {
    TasksFrom(globalStep, goal, tasks, 0)
  }

  function TasksFrom(globalStep: nat -> int, goal: int, tasks: nat, i: nat): (n: nat)
    requires i <= tasks && forall j :: 0 <= j < i ==> globalStep(j) < goal
    ensures i <= n <= tasks
    ensures forall j :: 0 <= j < n - 1 ==> globalStep(j) < goal
    ensures n < tasks ==> n > 0 && globalStep(n - 1) >= goal
    decreases tasks - i
  {
    if i == tasks then i else if globalStep(i) >= goal then i + 1 else TasksFrom(globalStep, goal, tasks, i + 1)
  }

  function Repeats(task: nat, n: nat): seq<Rollout> {
    seq(n, r requires 0 <= r < n => Rollout(task, r))
  }

  /** The rollouts of the i-th to the j-th task, all repeats of one task after the other. */
  function WholeGroups(i: nat, j: nat, repeats: nat): seq<Rollout>
    requires i <= j
    decreases j
  {
    if i == j then [] else WholeGroups(i, j - 1, repeats) + Repeats(j - 1, repeats)
  }

  /** The drains after whole tasks `0..n`, when a drain comes every `batch` tasks. */
  function WholeBatches(k: nat, batch: nat, repeats: nat): seq<seq<Rollout>> {
    if k == 0 then [] else WholeBatches(k - 1, batch, repeats) + [WholeGroups((k - 1) * batch, (k - 1) * batch + batch, repeats)]
  }

  function Accept<T>(jobs: seq<T>): seq<Future<T>> {
    seq(|jobs|, i requires 0 <= i < |jobs| => Value(jobs[i]))
  }

  lemma {:induction false} GoodOfValues<T>(jobs: seq<T>)
    ensures Good(Accept(jobs)) == jobs
  {
    if jobs != [] {
      var n := |jobs| - 1;
      GoodOfValues(jobs[..n]);
      assert Accept(jobs)[..n] == Accept(jobs[..n]);
    }
  }

  lemma {:induction false} WholeGroupsLength(i: nat, j: nat, repeats: nat)
    requires i <= j
    ensures |WholeGroups(i, j, repeats)| == (j - i) * repeats
  {
    if i < j {
      WholeGroupsLength(i, j - 1, repeats);
    }
  }

  lemma OneMore(count: nat, every: nat, before: seq<Rollout>, task: nat, r: nat)
    requires every > 0
    ensures var more := before + Repeats(task, r + 1);
      Submit(Pool(count, Accept(before + Repeats(task, r))), every, Accepted(Value(Rollout(task, r))))
        == if (count + 1) % every == 0 then (Pool(count + 1, []), more) else (Pool(count + 1, Accept(more)), [])
  {
    var more := before + Repeats(task, r + 1);
    assert Accept(before + Repeats(task, r)) + [Value(Rollout(task, r))] == Accept(more);
    GoodOfValues(more);
  }

  method SubmitOne(executor: Executor<Rollout>, ghost count: nat, ghost before: seq<Rollout>, task: nat, r: nat)
      returns (results: seq<Rollout>)
    requires executor.drainEvery > 0 && executor.Contents() == Pool(count, Accept(before + Repeats(task, r)))
    modifies executor
    ensures executor.submittedCount == count + 1
    ensures if (count + 1) % executor.drainEvery == 0 then
        results == before + Repeats(task, r + 1) != [] && executor.currentFutures == []
      else results == [] && executor.currentFutures == Accept(before + Repeats(task, r + 1))
  {
    OneMore(count, executor.drainEvery, before, task, r);
    assert (before + Repeats(task, r + 1))[|before| + r] == Rollout(task, r);
    results := executor.SubmitWithPeriodicDrain(Accepted(Value(Rollout(task, r))));
  }

  /** The repeats of one task; only the last repeat of the last task of a batch drains. */
  method SubmitTask(executor: Executor<Rollout>, ghost k: nat, ghost batch: nat, task: nat, repeats: nat)
      returns (drained: seq<seq<Rollout>>)
    requires repeats > 0 && batch > 0 && executor.drainEvery == repeats * batch
    requires k * batch <= task < k * batch + batch
    requires executor.Contents() == Pool(task * repeats, Accept(WholeGroups(k * batch, task, repeats)))
    modifies executor
    ensures executor.submittedCount == (task + 1) * repeats
    ensures if task + 1 == k * batch + batch then
        drained == [WholeGroups(k * batch, k * batch + batch, repeats)] && executor.currentFutures == []
      else drained == [] && executor.currentFutures == Accept(WholeGroups(k * batch, task + 1, repeats))
  {
    drained := [];
    ghost var before := WholeGroups(k * batch, task, repeats);
    ghost var lastOne := task + 1 == k * batch + batch;
    assert before + Repeats(task, 0) == before;
    for r := 0 to repeats
      invariant executor.submittedCount == task * repeats + r
      invariant if lastOne && r == repeats then drained == [before + Repeats(task, r)] && executor.currentFutures == []
        else drained == [] && executor.currentFutures == Accept(before + Repeats(task, r))
    {
      DrainPoint(k, batch, repeats, task, r);
      var results := SubmitOne(executor, task * repeats + r, before, task, r);
      if results != [] {
        drained := drained + [results];
      }
    }
  }

  /** The count reaches a multiple of `repeats * batch` exactly on the last repeat of the last task of a batch. */
  lemma DrainPoint(k: nat, batch: nat, repeats: nat, task: nat, r: nat)
    requires repeats > 0 && batch > 0 && r < repeats && k * batch <= task < k * batch + batch
    ensures repeats * batch > 0
    ensures (task * repeats + r + 1) % (repeats * batch) == 0 <==> task + 1 == k * batch + batch && r + 1 == repeats
  {
    var every := repeats * batch;
    var rest := (task - k * batch) * repeats + r + 1;
    AtLeast(batch, repeats);
    assert batch * repeats == every;
    assert task * repeats == k * every + (task - k * batch) * repeats by {
      assert k * every == (k * batch) * repeats;
      Distribute(task, k * batch, repeats);
    }
    Distribute(batch, task - k * batch, repeats);
    if task + 1 == k * batch + batch && r + 1 == repeats {
      assert rest == batch * repeats by { Distribute(batch, 1, repeats); }
      Remainder(task * repeats + r + 1, every, k + 1, 0);
    } else {
      assert rest < every by {
        if task - k * batch + 1 < batch {
          AtLeast(batch - (task - k * batch) - 1, repeats);
          Distribute(batch - (task - k * batch), 1, repeats);
        }
      }
      Remainder(task * repeats + r + 1, every, k, rest);
    }
  }

  lemma Distribute(a: nat, b: nat, c: nat)
    requires a >= b
    ensures (a - b) * c == a * c - b * c
  {
  }

  /** How many tasks the loop gets through: an empty epoch ends it only if the goal is already reached by step 0. */
  function Visited(epochs: seq<nat>, globalStep: nat -> int, goal: int): (n: nat)
    ensures n <= Total(epochs, |epochs|)
  {
    if goal <= 0 && epochs != [] && epochs[0] == 0 then 0 else TasksDone(globalStep, goal, Total(epochs, |epochs|))
  }

  /** The tasks of the first `n` epochs. */
  function Total(epochs: seq<nat>, n: nat): nat
    requires n <= |epochs|
  {
    if n == 0 then 0 else Total(epochs, n - 1) + epochs[n - 1]
  }

  /** After `done` tasks: every drain so far covered one whole batch, and the buffer holds the tasks of the batch begun. */
  ghost predicate OnBoundary(done: nat, batch: nat, repeats: nat, pool: Pool<Rollout>, drains: seq<seq<Rollout>>)
    requires batch > 0
  {
    && pool == Pool(done * repeats, Accept(WholeGroups(done / batch * batch, done, repeats)))
    && drains == WholeBatches(done / batch, batch, repeats)
  }

  /** One more task, the (done - k * batch)-th of batch k. */
  lemma NextTask(k: nat, done: nat, batch: nat, repeats: nat, drains: seq<seq<Rollout>>, pool: Pool<Rollout>, drained: seq<seq<Rollout>>)
    requires batch > 0 && k * batch <= done < k * batch + batch && drains == WholeBatches(k, batch, repeats)
    requires pool.count == (done + 1) * repeats
    requires if done + 1 == k * batch + batch then
        drained == [WholeGroups(k * batch, k * batch + batch, repeats)] && pool.futures == []
      else drained == [] && pool.futures == Accept(WholeGroups(k * batch, done + 1, repeats))
    ensures OnBoundary(done + 1, batch, repeats, pool, drains + drained)
  {
    if done + 1 == k * batch + batch {
      Distribute(k + 1, 1, batch);
      Remainder(done + 1, batch, k + 1, 0);
      assert (k + 1) * batch == done + 1;
      assert Accept(WholeGroups(done + 1, done + 1, repeats)) == [];
    } else {
      Remainder(done + 1, batch, k, done + 1 - k * batch);
      assert drains + drained == drains;
    }
  }

  method TrainTask(executor: Executor<Rollout>, done: nat, repeats: nat, ghost batch: nat, ghost drains: seq<seq<Rollout>>)
      returns (drained: seq<seq<Rollout>>)
    requires repeats > 0 && batch > 0 && executor.drainEvery == repeats * batch
    requires OnBoundary(done, batch, repeats, executor.Contents(), drains)
    modifies executor
    ensures OnBoundary(done + 1, batch, repeats, executor.Contents(), drains + drained)
  {
    ghost var k := done / batch;
    assert done == k * batch + done % batch;
    drained := SubmitTask(executor, k, batch, done, repeats);
    NextTask(k, done, batch, repeats, drains, executor.Contents(), drained);
  }

  lemma NothingDone(batch: nat, repeats: nat)
    requires batch > 0
    ensures OnBoundary(0, batch, repeats, Pool(0, []), [])
  {
    assert Accept(WholeGroups(0, 0, repeats)) == [];
  }

  /** The tasks of one epoch; the loop leaves early once the step read after a task reaches the goal. */
  method TrainEpoch(executor: Executor<Rollout>, start: nat, tasks: nat, repeats: nat, batch: nat,
                    globalStep: nat -> int, goal: int, drainsBefore: seq<seq<Rollout>>, stepBefore: int)
      returns (done: nat, step: int, drains: seq<seq<Rollout>>)
    requires repeats > 0 && batch > 0 && executor.drainEvery == repeats * batch
    requires OnBoundary(start, batch, repeats, executor.Contents(), drainsBefore)
    modifies executor
    ensures OnBoundary(done, batch, repeats, executor.Contents(), drains)
    ensures start <= done <= start + tasks
    ensures forall i :: start <= i < done - 1 ==> globalStep(i) < goal
    ensures if done > start then step == globalStep(done - 1) else step == stepBefore && tasks == 0
    ensures done < start + tasks ==> step >= goal
  {
    done, step, drains := start, stepBefore, drainsBefore;
    for t := 0 to tasks
      invariant done == start + t && (t == 0 ==> step == stepBefore) && (t > 0 ==> step == globalStep(done - 1) < goal)
      invariant forall i :: start <= i < done ==> globalStep(i) < goal
      invariant OnBoundary(done, batch, repeats, executor.Contents(), drains)
    {
      var drained := TrainTask(executor, done, repeats, batch, drains);
      drains := drains + drained;
      step := globalStep(done);
      done := done + 1;
      if step >= goal {
        break;
      }
    }
  }

  /** The training loop over all epochs.  The client agrees to a weight sync once for every drain, and the drains cover the tasks in
      order, each exactly `batch` whole consecutive groups, across epoch boundaries; the groups of a last, incomplete batch
      are never drained. */
  method Train(executor: Executor<Rollout>, epochs: seq<nat>, repeats: nat, batch: nat, globalStep: nat -> int, goal: int)
      returns (drains: seq<seq<Rollout>>)
    requires repeats > 0 && batch > 0 && executor.drainEvery == repeats * batch && executor.Contents() == Pool(0, [])
    modifies executor
    ensures var n := Visited(epochs, globalStep, goal);
      && drains == WholeBatches(n / batch, batch, repeats)
      && executor.currentFutures == Accept(WholeGroups(n / batch * batch, n, repeats))
  {
    drains := [];
    var done: nat, step: int := 0, 0;
    NothingDone(batch, repeats);
    var e := 0;
    while e < |epochs|
      invariant e <= |epochs| && done == Total(epochs, e)
      invariant (e > 0 ==> step < goal) && (done == 0 ==> step == 0) && (e > 0 && epochs[0] == 0 ==> goal > 0)
      invariant forall i :: 0 <= i < done ==> globalStep(i) < goal
      invariant OnBoundary(done, batch, repeats, executor.Contents(), drains)
    {
      TotalGrows(epochs, e + 1);
      done, step, drains := TrainEpoch(executor, done, epochs[e], repeats, batch, globalStep, goal, drains, step);
      if step >= goal {
        VisitedIs(epochs, globalStep, goal, done);
        return;
      }
      e := e + 1;
    }
    VisitedIs(epochs, globalStep, goal, done);
  }

  lemma VisitedIs(epochs: seq<nat>, globalStep: nat -> int, goal: int, done: nat)
    requires done <= Total(epochs, |epochs|)
    requires forall i :: 0 <= i < done - 1 ==> globalStep(i) < goal
    requires done < Total(epochs, |epochs|) ==> done == 0 || globalStep(done - 1) >= goal
    requires done == 0 && Total(epochs, |epochs|) > 0 ==> goal <= 0 && epochs != [] && epochs[0] == 0
    requires goal <= 0 && epochs != [] && epochs[0] == 0 ==> done == 0
    ensures done == Visited(epochs, globalStep, goal)
  {
  }

  lemma {:induction false} TotalGrows(epochs: seq<nat>, e: nat)
    requires e <= |epochs|
    ensures Total(epochs, e) <= Total(epochs, |epochs|)
    decreases |epochs| - e
  {
    if e < |epochs| {
      TotalGrows(epochs, e + 1);
    }
  }
}
