/** One remote episode as a worker thread runs it: the message loop and outcome cases of ajet/task_runner/swarm_runner.py,
`reset` of ajet/context_tracker/base_tracker.py, and the retries around them in ajet/task_rollout/single_worker.py. */
module SwarmEpisode {
  import opened PyList
  import opened TaskGroups

  type Timeline = int

  datatype RewardField = NoReward | Scalar(value: real) | PerStep(values: seq<real>)

  /** What the client reports; its metadata may lack the task id. */
  datatype WorkflowOutput = WorkflowOutput(taskId: Option<Id>, reward: RewardField)

  /** The two special messages, or any other text, which parses as an output or does not. */
  datatype Message = ResetTracker | Abort | Other(parsed: Option<WorkflowOutput>)

  /** What happens while the loop waits: an LLM call leaves a timeline in the tracker (and may show tool-call madness), a message
      comes in, or a receive times out, when the hard-exit hook is asked. */
  datatype Event = Recorded(timeline: Timeline, mad: bool) | Received(message: Message) | TimedOut(hardExit: bool)

  datatype SocketOp = Receive(message: Message) | Ack

  /** How the loop ends; `Waiting` when the events run out first. */
  datatype Ending = Waiting | Aborted | AbortException | Ended(parsed: Option<WorkflowOutput>)

  datatype Waited = Waited(ending: Ending, saved: seq<Timeline>, mad: bool, log: seq<SocketOp>)

  // ----- The message loop -----

  function Wait(events: seq<Event>, saved: seq<Timeline>, mad: bool, log: seq<SocketOp>): Waited {
    if events == [] then Waited(Waiting, saved, mad, log)
    else
      match events[0]
      case Recorded(t, m) => Wait(events[1..], saved + [t], mad || m, log)
      case TimedOut(hardExit) => if hardExit then Waited(AbortException, [], false, log) else Wait(events[1..], saved, mad, log)
      case Received(m) =>
        match m
        case Other(parsed) => Waited(Ended(parsed), saved, mad, log + [Receive(m), Ack])
        case ResetTracker => Wait(events[1..], [], false, log + [Receive(m), Ack])
        case Abort => Waited(Aborted, [], false, log + [Receive(m), Ack])
  }

  /** The tracker of the episode, as far as the loop touches it. */
  class ContextTracker {
    var savedTimelines: seq<Timeline>
    var alreadyMad: bool

    constructor ()
      ensures savedTimelines == [] && !alreadyMad
    {
      savedTimelines, alreadyMad := [], false;
    }

    method Reset()
      modifies this
      ensures savedTimelines == [] && !alreadyMad
    {
      savedTimelines, alreadyMad := [], false;
    }
  }

  class ReplySocket {
    ghost var log: seq<SocketOp>

    constructor ()
      ensures log == []
    {
      log := [];
    }

    method ReceiveString(message: Message)
      modifies this
      ensures log == old(log) + [Receive(message)]
    {
      log := log + [Receive(message)];
    }

    method SendAck()
      modifies this
      ensures log == old(log) + [Ack]
    {
      log := log + [Ack];
    }
  }

  method RegisterAndWait(events: seq<Event>, tracker: ContextTracker, socket: ReplySocket) returns (ending: Ending)
    modifies tracker, socket
    ensures Waited(ending, tracker.savedTimelines, tracker.alreadyMad, socket.log)
         == Wait(events, old(tracker.savedTimelines), old(tracker.alreadyMad), old(socket.log))
  {
    for i := 0 to |events|
      invariant Wait(events, old(tracker.savedTimelines), old(tracker.alreadyMad), old(socket.log))
             == Wait(events[i..], tracker.savedTimelines, tracker.alreadyMad, socket.log)
    {
      assert events[i..][0] == events[i] && events[i..][1..] == events[i + 1..];
      match events[i] {
        case Recorded(t, m) =>
          tracker.savedTimelines := tracker.savedTimelines + [t];
          tracker.alreadyMad := tracker.alreadyMad || m;
        case TimedOut(hardExit) =>
          if hardExit {
            tracker.Reset();
            return AbortException;
          }
        case Received(m) =>
          ghost var log := socket.log;
          assert log + [Receive(m)] + [Ack] == log + [Receive(m), Ack];
          socket.ReceiveString(m);
          match m {
            case Other(parsed) =>
              socket.SendAck();
              return Ended(parsed);
            case ResetTracker =>
              tracker.Reset();
              socket.SendAck();
            case Abort =>
              tracker.Reset();
              socket.SendAck();
              return Aborted;
          }
      }
    }
    return Waiting;
  }

  // ----- What the loop promises -----

  /** Every receive is answered by one ack before the next receive. */
  ghost predicate Alternating(log: seq<SocketOp>) {
    |log| % 2 == 0 && forall i :: 0 <= i < |log| ==> if i % 2 == 0 then log[i].Receive? else log[i].Ack?
  }

  /** Each message received is acknowledged exactly once, before anything else is received. */
  lemma {:induction false} EveryMessageIsAcked(events: seq<Event>, saved: seq<Timeline>, mad: bool, log: seq<SocketOp>)
    requires Alternating(log)
    ensures Alternating(Wait(events, saved, mad, log).log)
    decreases |events|
  {
    if events != [] {
      match events[0]
      case Recorded(t, m) => EveryMessageIsAcked(events[1..], saved + [t], mad || m, log);
      case TimedOut(hardExit) =>
        if !hardExit {
          EveryMessageIsAcked(events[1..], saved, mad, log);
        }
      case Received(m) =>
        if m.ResetTracker? {
          EveryMessageIsAcked(events[1..], [], false, log + [Receive(m), Ack]);
        }
    }
  }

  /** The timelines recorded since the last reset, looking back from the end; `saved` are those held at the start. */
  function SinceReset(events: seq<Event>, saved: seq<Timeline>): seq<Timeline> {
    if events == [] then saved
    else
      var before := SinceReset(events[..|events| - 1], saved);
      match events[|events| - 1]
      case Recorded(t, _) => before + [t]
      case Received(m) => if m.ResetTracker? then [] else before
      case TimedOut(_) => before
  }

  /** Some LLM call showed madness since the last reset. */
  ghost predicate MadSinceReset(events: seq<Event>) {
    exists i :: 0 <= i < |events| && events[i].Recorded? && events[i].mad && ResetFree(events, i + 1)
  }

  /** No reset from here on. */
  ghost predicate ResetFree(events: seq<Event>, from: nat) {
    forall k :: from <= k < |events| ==> events[k] != Received(ResetTracker)
  }

  /** Whether the flag is up after these events, given whether it was up before. */
  ghost predicate MadAfter(events: seq<Event>, mad: bool) {
    MadSinceReset(events) || (mad && ResetFree(events, 0))
  }

  /** One more event in front counts only if no reset comes behind it. */
  lemma MadAfterStep(e: Event, rest: seq<Event>, mad: bool)
    requires Harmless(e)
    ensures MadAfter([e] + rest, mad) <==> MadAfter(rest, match e case Recorded(_, m) => mad || m case Received(_) => false case TimedOut(_) => mad)
  {
    var all := [e] + rest;
    assert all[0] == e && forall k :: 0 <= k < |rest| ==> all[k + 1] == rest[k];
    assert ResetFree(all, 1) <==> ResetFree(rest, 0);
    if MadSinceReset(all) {
      var i :| 0 <= i < |all| && all[i].Recorded? && all[i].mad && ResetFree(all, i + 1);
      if i > 0 {
        assert rest[i - 1] == all[i] && ResetFree(rest, i);
      }
    }
    if MadSinceReset(rest) {
      var i :| 0 <= i < |rest| && rest[i].Recorded? && rest[i].mad && ResetFree(rest, i + 1);
      assert all[i + 1] == rest[i] && ResetFree(all, i + 2);
    }
  }

  /** This event does not end the loop. */
  predicate Harmless(e: Event) {
    (e.Received? ==> e.message.ResetTracker?) && (e.TimedOut? ==> !e.hardExit)
  }

  function SavedAfter(e: Event, saved: seq<Timeline>): seq<Timeline> {
    match e case Recorded(t, _) => saved + [t] case Received(_) => [] case TimedOut(_) => saved
  }

  lemma {:induction false} SinceResetStep(events: seq<Event>, saved: seq<Timeline>)
    requires events != [] && forall i :: 0 <= i < |events| ==> Harmless(events[i])
    ensures SinceReset(events, saved) == SinceReset(events[1..], SavedAfter(events[0], saved))
    decreases |events|
  {
    var n := |events| - 1;
    if n == 0 {
      assert events[1..] == [] && events[..0] == [];
      assert SinceReset(events[..0], saved) == saved;
    } else {
      SinceResetStep(events[..n], saved);
      assert events[..n][1..] == events[1..][..n - 1];
      assert events[1..][n - 1] == events[n];
    }
  }

  /** While nothing ends the loop, the tracker holds what was recorded since the last reset, timelines and madness. */
  lemma {:induction false} WaitingKeepsRecent(before: seq<Event>, after: seq<Event>, saved: seq<Timeline>, mad: bool, log: seq<SocketOp>)
    returns (log': seq<SocketOp>)
    requires forall i :: 0 <= i < |before| ==> Harmless(before[i])
    ensures Wait(before + after, saved, mad, log) == Wait(after, SinceReset(before, saved), MadAfter(before, mad), log')
    decreases |before|
  {
    if before == [] {
      assert before + after == after;
      log' := log;
    } else {
      var all := before + after;
      assert all[0] == before[0] && all[1..] == before[1..] + after;
      SinceResetStep(before, saved);
      assert before == [before[0]] + before[1..];
      MadAfterStep(before[0], before[1..], mad);
      match before[0]
      case Recorded(t, m) => log' := WaitingKeepsRecent(before[1..], after, saved + [t], mad || m, log);
      case TimedOut(_) => log' := WaitingKeepsRecent(before[1..], after, saved, mad, log);
      case Received(m) => log' := WaitingKeepsRecent(before[1..], after, [], false, log + [Receive(m), Ack]);
    }
  }

  /** The place of the first event that ends the loop, or the number of events. */
  function EndOf(events: seq<Event>): (r: nat)
    ensures r <= |events| && forall i :: 0 <= i < r ==> Harmless(events[i])
    ensures r < |events| ==> !Harmless(events[r])
  {
    if events == [] || !Harmless(events[0]) then 0 else 1 + EndOf(events[1..])
  }

  /** The loop ends with an output exactly when the first event that is neither a recording, a reset nor a harmless timeout is a
      message that is not special; the tracker then holds the timelines recorded since the last reset, and its flag says whether
      madness was seen since.  Every other way of ending leaves the tracker empty. */
  lemma EndsOnOutputIff(events: seq<Event>, parsed: Option<WorkflowOutput>)
    ensures var w := Wait(events, [], false, []);
      && (w.ending == Ended(parsed) <==> EndOf(events) < |events| && events[EndOf(events)] == Received(Other(parsed)))
      && (w.ending == Ended(parsed) ==> w.saved == SinceReset(events[..EndOf(events)], []))
      && (w.ending == Ended(parsed) ==> (w.mad <==> MadSinceReset(events[..EndOf(events)])))
      && (w.ending == Aborted || w.ending == AbortException ==> w.saved == [])
  {
    var r := EndOf(events);
    var before, after := events[..r], events[r..];
    assert events == before + after;
    var log := WaitingKeepsRecent(before, after, [], false, []);
    assert Wait(events, [], false, []) == Wait(after, SinceReset(before, []), MadAfter(before, false), log);
    if after != [] {
      assert after[0] == events[r];
      EndingEvent(after, SinceReset(before, []), MadAfter(before, false), log, parsed);
    }
  }

  lemma EndingEvent(after: seq<Event>, saved: seq<Timeline>, mad: bool, log: seq<SocketOp>, parsed: Option<WorkflowOutput>)
    requires after != [] && !Harmless(after[0])
    ensures var w := Wait(after, saved, mad, log);
      && (w.ending == Ended(parsed) <==> after[0] == Received(Other(parsed)))
      && (w.ending == Ended(parsed) ==> w.saved == saved && w.mad == mad)
      && (w.ending == Aborted || w.ending == AbortException ==> w.saved == [])
  {
  }

  // ----- execute and its retries -----

  /** One attempt: the events seen, whether a stop flag was already up, and whether the registration succeeded. */
  datatype Attempt = Attempt(uuid: Id, stopUp: bool, registered: bool, events: seq<Event>)

  datatype Outcome = NoEpisode | Raised | StillWaiting | Episode(tracker: Tracker)

  /** What does not depend on the episode: how many timelines merging leaves, and the factor for a mad episode. */
  datatype Policy = Policy(merged: seq<Timeline> -> nat, madnessReward: real)

  /** `compute_step_level_reward` */
  function StepReward(raw: real, mad: bool, policy: Policy): real {
    if mad then policy.madnessReward * raw else raw
  }

  function Execute(a: Attempt, policy: Policy): Outcome {
    if a.stopUp || !a.registered then NoEpisode
    else
      var w := Wait(a.events, [], false, []);
      match w.ending
      case Waiting => StillWaiting
      case Aborted => NoEpisode
      case AbortException => NoEpisode
      case Ended(None) => Raised
      case Ended(Some(output)) =>
        if w.saved == [] then NoEpisode
        else if output.taskId == None then Raised
        else if !output.reward.Scalar? then Raised
        else
          var raw := output.reward.value;
          Episode(Tracker(output.taskId.value, a.uuid, raw, Repeat(StepReward(raw, w.mad, policy), policy.merged(w.saved))))
  }

  /** `retry_with_backoff`: the first attempt that does not raise decides. */
  function Retry(attempts: seq<Attempt>, policy: Policy): Outcome {
    if attempts == [] then Raised
    else
      var first := Execute(attempts[0], policy);
      if first == Raised then Retry(attempts[1..], policy) else first
  }

  /** The test a worker makes before filing: `tracker and tracker.reward_structure and len(tracker.saved_timelines) > 0`. */
  predicate Fileable(o: Outcome) {
    o.Episode? && o.tracker.stepRewards != []
  }

  /** An attempt that ended on an output of this task while the tracker held a timeline recorded since the last reset; every merged
      timeline carries the reported reward, times the factor if madness was seen since that reset. */
  ghost predicate Earned(a: Attempt, x: Tracker, policy: Policy) {
    var r := EndOf(a.events);
    && !a.stopUp && a.registered && a.uuid == x.uuid
    && r < |a.events| && SinceReset(a.events[..r], []) != []
    && (exists output: WorkflowOutput :: a.events[r] == Received(Other(Some(output)))
          && output.taskId == Some(x.task) && output.reward == Scalar(x.rawReward))
    && |x.stepRewards| == policy.merged(SinceReset(a.events[..r], []))
    && forall k :: 0 <= k < |x.stepRewards| ==>
         x.stepRewards[k] == if MadSinceReset(a.events[..r]) then policy.madnessReward * x.rawReward else x.rawReward
  }

  /** An attempt that dies on an exception the retries catch: its loop ended on a message that does not parse, or on an output without
      task or with anything but a single reward while a timeline was held. */
  ghost predicate Raises(a: Attempt) {
    var r := EndOf(a.events);
    && !a.stopUp && a.registered && r < |a.events|
    && exists parsed: Option<WorkflowOutput> :: a.events[r] == Received(Other(parsed))
         && (parsed == None
             || (SinceReset(a.events[..r], []) != [] && (parsed.value.taskId == None || !parsed.value.reward.Scalar?)))
  }

  /** What the attempt's loop ended on, if it ended on a message that is not special. */
  lemma ExecuteCases(a: Attempt, policy: Policy)
    requires !a.stopUp && a.registered
    ensures var r, w := EndOf(a.events), Wait(a.events, [], false, []);
      if r < |a.events| && a.events[r].Received? && a.events[r].message.Other? then
        && w.ending == Ended(a.events[r].message.parsed) && w.saved == SinceReset(a.events[..r], [])
        && (w.mad <==> MadSinceReset(a.events[..r]))
      else !w.ending.Ended?
  {
    var r, w := EndOf(a.events), Wait(a.events, [], false, []);
    if w.ending.Ended? {
      EndsOnOutputIff(a.events, w.ending.parsed);
    }
    if r < |a.events| && a.events[r].Received? && a.events[r].message.Other? {
      EndsOnOutputIff(a.events, a.events[r].message.parsed);
    }
  }

  lemma AllRepeated(xs: seq<real>, x: real, n: nat)
    requires |xs| == n && forall k :: 0 <= k < n ==> xs[k] == x
    ensures xs == Repeat(x, n)
  {
  }

  /** An attempt that earned this episode yields it. */
  lemma EarnedIsYielded(a: Attempt, policy: Policy, x: Tracker)
    requires Earned(a, x, policy)
    ensures Execute(a, policy) == Episode(x)
  {
    var r := EndOf(a.events);
    var output: WorkflowOutput :| a.events[r] == Received(Other(Some(output)))
      && output.taskId == Some(x.task) && output.reward == Scalar(x.rawReward);
    ExecuteCases(a, policy);
    var w := Wait(a.events, [], false, []);
    assert w.ending == Ended(Some(output)) && w.saved == SinceReset(a.events[..r], []);
    AllRepeated(x.stepRewards, StepReward(x.rawReward, w.mad, policy), policy.merged(w.saved));
  }

  /** An attempt yields an episode exactly when it earned it, and raises exactly on the outputs above. */
  lemma OutcomeIff(a: Attempt, policy: Policy, x: Tracker)
    ensures Execute(a, policy) == Episode(x) <==> Earned(a, x, policy)
    ensures Execute(a, policy) == Raised <==> Raises(a)
  {
    if !a.stopUp && a.registered {
      ExecuteCases(a, policy);
      if Earned(a, x, policy) {
        EarnedIsYielded(a, policy, x);
      }
    }
  }

  /** An episode comes out of the retries exactly when an attempt earned it and all attempts before that one raised. */
  lemma {:induction false} EpisodesAreEarnedIff(attempts: seq<Attempt>, policy: Policy, x: Tracker)
    ensures Retry(attempts, policy) == Episode(x) <==>
      exists k :: 0 <= k < |attempts| && Earned(attempts[k], x, policy) && forall j :: 0 <= j < k ==> Raises(attempts[j])
  {
    if attempts != [] {
      OutcomeIff(attempts[0], policy, x);
      var rest := attempts[1..];
      EpisodesAreEarnedIff(rest, policy, x);
      if Raises(attempts[0]) {
        assert !Earned(attempts[0], x, policy);
        if k :| 0 <= k < |rest| && Earned(rest[k], x, policy) && forall j :: 0 <= j < k ==> Raises(rest[j]) {
          assert attempts[k + 1] == rest[k] && forall j :: 0 < j < k + 1 ==> attempts[j] == rest[j - 1];
        }
      }
    }
  }

  /** The reward by which episodes of a task are compared is the one that each of its timelines carries. */
  lemma PerformanceOfEarned(a: Attempt, x: Tracker, policy: Policy)
    requires Earned(a, x, policy)
    ensures PerformanceReward(x) ==
      if x.stepRewards != [] && MadSinceReset(a.events[..EndOf(a.events)]) then policy.madnessReward * x.rawReward else x.rawReward
  {
    if x.stepRewards != [] {
      MeanOfEqual(x.stepRewards, x.stepRewards[0]);
    }
  }
}
