/** `TaskCountLimitedThreadPoolExecutor.submit_group` of ajet/utils/thread_executors.py as interleaved steps.

Any number of callers submit groups at once.  Submitting a member, attaching its callback, finishing it, counting it down under
the group's lock, and releasing the semaphore are separate steps that may interleave in any order the code allows. */
module GroupSemaphore {
  import opened PyList

  /** A member: submitted, perhaps finished, perhaps with its callback attached; then counted down by its callback, which also saw
      whether it was the last; then, if it was, released. */
  datatype Member = Submitted(done: bool, attached: bool) | Counted(last: bool) | Released

  /** `raised`: a submission raised, so the caller left its loop early. */
  datatype Group = Group(size: nat, members: seq<Member>, remaining: nat, raised: bool)

  datatype State = State(permits: nat, groups: seq<Group>)

  datatype Step =
    | Acquire(size: nat)          // past the early return for an empty list, and past the semaphore
    | Submit(g: nat)
    | Attach(g: nat)
    | Raise(g: nat)
    | Finish(g: nat, m: nat)
    | CountDown(g: nat, m: nat)
    | Release(g: nat, m: nat)

  function Init(maxGroups: nat): State {
    State(maxGroups, [])
  }

  /** The caller may hand in another member: the callback of the one before is attached. */
  predicate ReadyToSubmit(g: Group) {
    !g.raised && |g.members| < g.size && !LastIsBare(g)
  }

  predicate LastIsBare(g: Group) {
    g.members != [] && g.members[|g.members| - 1].Submitted? && !g.members[|g.members| - 1].attached
  }

  predicate ReadyToAttach(g: Group) {
    !g.raised && LastIsBare(g)
  }

  function WithMember(g: Group, m: nat, member: Member): Group
    requires m < |g.members|
  {
    g.(members := g.members[m := member])
  }

  function StepGroup(g: Group, step: Step): Option<Group> {
    match step
    case Submit(_) => if ReadyToSubmit(g) then Some(g.(members := g.members + [Submitted(false, false)])) else None
    case Attach(_) =>
      if ReadyToAttach(g) then Some(WithMember(g, |g.members| - 1, g.members[|g.members| - 1].(attached := true))) else None
    case Raise(_) => if ReadyToSubmit(g) || ReadyToAttach(g) then Some(g.(raised := true)) else None
    case Finish(_, m) =>
      if m < |g.members| && g.members[m].Submitted? && !g.members[m].done then
        Some(WithMember(g, m, g.members[m].(done := true)))
      else None
    case CountDown(_, m) =>
      if m < |g.members| && g.members[m] == Submitted(true, true) && g.remaining > 0 then
        Some(WithMember(g, m, Counted(g.remaining == 1)).(remaining := g.remaining - 1))
      else None
    case Release(_, m) => if m < |g.members| && g.members[m] == Counted(true) then Some(WithMember(g, m, Released)) else None
    case Acquire(_) => None
  }

  function Apply(s: State, step: Step): Option<State> {
    if step.Acquire? then
      if step.size > 0 && s.permits > 0 then
        Some(State(s.permits - 1, s.groups + [Group(step.size, [], step.size, false)]))
      else None
    else if step.g >= |s.groups| then None
    else
      match StepGroup(s.groups[step.g], step)
      case None => None
      case Some(g) => Some(State(if step.Release? then s.permits + 1 else s.permits, s.groups[step.g := g]))
  }

  function Run(maxGroups: nat, steps: seq<Step>): Option<State> {
    if steps == [] then Some(Init(maxGroups))
    else
      match Run(maxGroups, steps[..|steps| - 1])
      case None => None
      case Some(s) => Apply(s, steps[|steps| - 1])
  }

  // ----- One group -----

  /** Members whose callback has counted down. */
  function Ticks(members: seq<Member>): nat {
    if members == [] then 0 else Ticks(members[..|members| - 1]) + (if members[|members| - 1].Submitted? then 0 else 1)
  }

  predicate IsLast(m: Member) {
    m == Counted(true) || m.Released?
  }

  /** Members whose callback saw the counter reach zero. */
  function Lasts(members: seq<Member>): nat {
    if members == [] then 0 else Lasts(members[..|members| - 1]) + (if IsLast(members[|members| - 1]) then 1 else 0)
  }

  ghost predicate GroupInvariant(g: Group) {
    && 0 < g.size && |g.members| <= g.size
    && g.remaining + Ticks(g.members) == g.size
    && Lasts(g.members) == (if g.remaining == 0 then 1 else 0)
    && (forall i :: 0 <= i < |g.members| - 1 && g.members[i].Submitted? ==> g.members[i].attached)
    && (g.raised ==> |g.members| < g.size || LastIsBare(g))
  }

  lemma {:induction false} UpdateCounts(members: seq<Member>, k: nat, m: Member)
    requires k < |members|
    ensures Ticks(members[k := m]) == Ticks(members) + (if m.Submitted? then 0 else 1) - (if members[k].Submitted? then 0 else 1)
    ensures Lasts(members[k := m]) == Lasts(members) + (if IsLast(m) then 1 else 0) - (if IsLast(members[k]) then 1 else 0)
  {
    var n := |members| - 1;
    if k < n {
      UpdateCounts(members[..n], k, m);
      assert members[k := m][..n] == members[..n][k := m];
    } else {
      assert members[k := m][..n] == members[..n];
    }
  }

  lemma {:induction false} TicksBounded(members: seq<Member>)
    ensures Ticks(members) <= |members|
    ensures Ticks(members) == |members| <==> forall i :: 0 <= i < |members| ==> !members[i].Submitted?
  {
    if members != [] {
      var n := |members| - 1;
      TicksBounded(members[..n]);
      assert forall i :: 0 <= i < n ==> members[..n][i] == members[i];
      if forall i :: 0 <= i < |members| ==> !members[i].Submitted? {
        assert !members[n].Submitted?;
      }
    }
  }

  lemma {:induction false} LastsPositive(members: seq<Member>, k: nat)
    requires k < |members| && IsLast(members[k])
    ensures Lasts(members) >= 1
    ensures Lasts(members) == 1 ==> forall i :: 0 <= i < |members| && i != k ==> !IsLast(members[i])
  {
    var n := |members| - 1;
    if k < n {
      LastsPositive(members[..n], k);
      assert forall i :: 0 <= i < n ==> members[..n][i] == members[i];
    } else {
      forall i | 0 <= i < n && IsLast(members[i])
        ensures Lasts(members) >= 2
      {
        LastsPositive(members[..n], i);
      }
    }
  }

  lemma SubmitKeepsGroup(g: Group)
    requires GroupInvariant(g) && ReadyToSubmit(g)
    ensures GroupInvariant(g.(members := g.members + [Submitted(false, false)]))
  {
    var members := g.members + [Submitted(false, false)];
    assert members[..|g.members|] == g.members;
  }

  lemma CountDownKeepsGroup(g: Group, m: nat)
    requires GroupInvariant(g) && StepGroup(g, CountDown(0, m)).Some?
    ensures GroupInvariant(StepGroup(g, CountDown(0, m)).value)
  {
    UpdateCounts(g.members, m, Counted(g.remaining == 1));
    if g.raised && |g.members| == g.size {
      assert m != |g.members| - 1;
    }
  }

  lemma OtherStepKeepsGroup(g: Group, step: Step)
    requires GroupInvariant(g) && StepGroup(g, step).Some? && (step.Attach? || step.Finish? || step.Release?)
    ensures GroupInvariant(StepGroup(g, step).value)
  {
    var k := if step.Attach? then |g.members| - 1 else step.m;
    var g' := StepGroup(g, step).value;
    assert g'.members == g.members[k := g'.members[k]];
    UpdateCounts(g.members, k, g'.members[k]);
  }

  lemma StepKeepsGroup(g: Group, step: Step)
    requires GroupInvariant(g) && StepGroup(g, step).Some?
    ensures GroupInvariant(StepGroup(g, step).value)
  {
    match step
    case Submit(_) => SubmitKeepsGroup(g);
    case Raise(_) =>
    case CountDown(_, m) => CountDownKeepsGroup(g, m);
    case _ => OtherStepKeepsGroup(g, step);
  }

  // ----- All groups -----

  predicate HasReleased(g: Group) {
    exists i :: 0 <= i < |g.members| && g.members[i].Released?
  }

  /** Groups that hold a permit. */
  function Unreleased(groups: seq<Group>): nat {
    if groups == [] then 0 else Unreleased(groups[..|groups| - 1]) + (if HasReleased(groups[|groups| - 1]) then 0 else 1)
  }

  lemma {:induction false} UpdateUnreleased(groups: seq<Group>, k: nat, g: Group)
    requires k < |groups|
    ensures Unreleased(groups[k := g]) + (if HasReleased(groups[k]) then 0 else 1)
         == Unreleased(groups) + (if HasReleased(g) then 0 else 1)
  {
    var n := |groups| - 1;
    if k < n {
      UpdateUnreleased(groups[..n], k, g);
      assert groups[k := g][..n] == groups[..n][k := g];
    } else {
      assert groups[k := g][..n] == groups[..n];
    }
  }

  ghost predicate Invariant(maxGroups: nat, s: State) {
    && (forall k :: 0 <= k < |s.groups| ==> GroupInvariant(s.groups[k]))
    && s.permits + Unreleased(s.groups) == maxGroups
  }

  lemma ReleaseChanges(g: Group, step: Step)
    requires GroupInvariant(g) && StepGroup(g, step).Some?
    ensures step.Release? ==> !HasReleased(g) && HasReleased(StepGroup(g, step).value)
    ensures !step.Release? ==> HasReleased(StepGroup(g, step).value) == HasReleased(g)
  {
    var g' := StepGroup(g, step).value;
    if step.Release? {
      LastsPositive(g.members, step.m);
      assert g'.members[step.m].Released?;
    } else if HasReleased(g) {
      var i :| 0 <= i < |g.members| && g.members[i].Released?;
      assert g'.members[i].Released?;
    }
  }

  lemma StepKeepsInvariant(maxGroups: nat, s: State, step: Step)
    requires Invariant(maxGroups, s) && Apply(s, step).Some?
    ensures Invariant(maxGroups, Apply(s, step).value)
  {
    var s' := Apply(s, step).value;
    if step.Acquire? {
      assert s'.groups[..|s.groups|] == s.groups;
    } else {
      var g := s.groups[step.g];
      StepKeepsGroup(g, step);
      ReleaseChanges(g, step);
      UpdateUnreleased(s.groups, step.g, StepGroup(g, step).value);
    }
  }

  lemma {:induction false} RunsKeepInvariant(maxGroups: nat, steps: seq<Step>)
    requires Run(maxGroups, steps).Some?
    ensures Invariant(maxGroups, Run(maxGroups, steps).value)
  {
    if steps != [] {
      RunsKeepInvariant(maxGroups, steps[..|steps| - 1]);
      StepKeepsInvariant(maxGroups, Run(maxGroups, steps[..|steps| - 1]).value, steps[|steps| - 1]);
    }
  }

  // ----- What callers rely on -----

  predicate FullyCounted(g: Group) {
    |g.members| == g.size && forall i :: 0 <= i < |g.members| ==> !g.members[i].Submitted?
  }

  predicate HasFinished(m: Member) {
    m.Submitted? ==> m.done
  }

  /** What counts as finished after a step was so before, or the step finished it. */
  lemma FinishedByStep(s: State, step: Step, k: nat, m: nat)
    requires Apply(s, step).Some?
    requires var s' := Apply(s, step).value; k < |s'.groups| && m < |s'.groups[k].members| && HasFinished(s'.groups[k].members[m])
    ensures step == Finish(k, m) || (k < |s.groups| && m < |s.groups[k].members| && HasFinished(s.groups[k].members[m]))
  {
    if !step.Acquire? && step.g == k {
      assert Apply(s, step).value.groups[k] == StepGroup(s.groups[k], step).value;
    }
  }

  /** A member is counted down, and its group released, only after a step that finished it. */
  lemma {:induction false} FinishedInRun(maxGroups: nat, steps: seq<Step>, k: nat, m: nat)
    requires Run(maxGroups, steps).Some?
    requires var s := Run(maxGroups, steps).value; k < |s.groups| && m < |s.groups[k].members| && HasFinished(s.groups[k].members[m])
    ensures Finish(k, m) in steps
  {
    var n := |steps| - 1;
    FinishedByStep(Run(maxGroups, steps[..n]).value, steps[n], k, m);
    if steps[n] != Finish(k, m) {
      FinishedInRun(maxGroups, steps[..n], k, m);
    }
  }

  /** In every interleaving: the free permits and the groups not yet released add up to the limit; a group is released at most once,
      and only when each of its members has been submitted, has finished and has been counted down. */
  lemma ReleasedOnceAndOnlyAfterAll(maxGroups: nat, steps: seq<Step>, k: nat)
    requires Run(maxGroups, steps).Some? && k < |Run(maxGroups, steps).value.groups|
    ensures var s := Run(maxGroups, steps).value;
      && s.permits + Unreleased(s.groups) == maxGroups
      && (HasReleased(s.groups[k]) ==> FullyCounted(s.groups[k]) && !s.groups[k].raised)
      && (HasReleased(s.groups[k]) ==> forall m :: 0 <= m < s.groups[k].size ==> Finish(k, m) in steps)
      && (forall i, j :: 0 <= i < j < |s.groups[k].members| && s.groups[k].members[i].Released? ==> !s.groups[k].members[j].Released?)
  {
    RunsKeepInvariant(maxGroups, steps);
    var g := Run(maxGroups, steps).value.groups[k];
    assert GroupInvariant(g);
    forall i | 0 <= i < |g.members| && g.members[i].Released?
      ensures FullyCounted(g) && !g.raised
      ensures forall j :: 0 <= j < |g.members| && j != i ==> !IsLast(g.members[j])
    {
      LastsPositive(g.members, i);
      TicksBounded(g.members);
    }
    if HasReleased(g) {
      forall m | 0 <= m < g.size
        ensures Finish(k, m) in steps
      {
        FinishedInRun(maxGroups, steps, k, m);
      }
    }
  }

  predicate MemberAtRest(g: Group, m: Member) {
    m == Counted(false) || m.Released? || (g.raised && m == Submitted(true, false))
  }

  /** Nothing is left to do for this group: everything submitted is counted and released, and the caller has left its loop. */
  predicate AtRest(g: Group) {
    && (g.raised || |g.members| == g.size)
    && (forall i :: 0 <= i < |g.members| ==> MemberAtRest(g, g.members[i]))
  }

  lemma RestingIsReleasedIff(g: Group)
    requires GroupInvariant(g) && AtRest(g)
    ensures HasReleased(g) <==> !g.raised
  {
    TicksBounded(g.members);
    if g.raised && HasReleased(g) {
      var i :| 0 <= i < |g.members| && g.members[i].Released?;
      LastsPositive(g.members, i);
    } else if !g.raised {
      SomeLast(g.members);
    }
  }

  lemma {:induction false} SomeLast(members: seq<Member>)
    requires Lasts(members) >= 1
    ensures exists i :: 0 <= i < |members| && IsLast(members[i])
  {
    var n := |members| - 1;
    if !IsLast(members[n]) {
      SomeLast(members[..n]);
      var i :| 0 <= i < n && IsLast(members[..n][i]);
      assert IsLast(members[i]);
    }
  }

  /** Groups in which a submission raised. */
  function Raised(groups: seq<Group>): nat {
    if groups == [] then 0 else Raised(groups[..|groups| - 1]) + (if groups[|groups| - 1].raised then 1 else 0)
  }

  lemma {:induction false} RestingCounts(groups: seq<Group>)
    requires forall k :: 0 <= k < |groups| ==> GroupInvariant(groups[k]) && AtRest(groups[k])
    ensures Unreleased(groups) == Raised(groups)
  {
    if groups != [] {
      var n := |groups| - 1;
      RestingCounts(groups[..n]);
      RestingIsReleasedIff(groups[n]);
    }
  }

  /** When everything is at rest, exactly the permits of groups in which a submission raised are missing: all permits are back
      if and only if none did. */
  lemma PermitsLeakExactlyOnRaise(maxGroups: nat, steps: seq<Step>)
    requires Run(maxGroups, steps).Some?
    requires forall k :: 0 <= k < |Run(maxGroups, steps).value.groups| ==> AtRest(Run(maxGroups, steps).value.groups[k])
    ensures Run(maxGroups, steps).value.permits == maxGroups - Raised(Run(maxGroups, steps).value.groups)
  {
    RunsKeepInvariant(maxGroups, steps);
    RestingCounts(Run(maxGroups, steps).value.groups);
  }

  /** No group waits for ever: unless it is at rest, some step of its own is enabled. */
  lemma NotAtRestMayStep(g: Group) returns (step: Step)
    requires GroupInvariant(g) && !AtRest(g)
    ensures !step.Acquire? && StepGroup(g, step).Some?
  {
    TicksBounded(g.members);
    if ReadyToAttach(g) {
      step := Attach(0);
    } else if ReadyToSubmit(g) {
      step := Submit(0);
    } else {
      var i :| 0 <= i < |g.members| && !MemberAtRest(g, g.members[i]);
      match g.members[i]
      case Counted(_) => step := Release(0, i);
      case Submitted(done, attached) => step := if done then CountDown(0, i) else Finish(0, i);
    }
  }
}
