/** From a timeline of messages to one training sample: `tokenize_steps` of
ajet/context_tracker/single_agent_tracking.py and `Sample` of ajet/schema/trajectory.py. */
module Samples {
  import opened PyList
  import opened LossMask

  datatype Message = Message(author: string, tokens: seq<Token>, logprobs: seq<LogProb>, lackNormalEos: bool)

  /** The five arrays that every part of a sample carries side by side. */
  datatype Arrays = Arrays(
    ids: seq<Token>, attention: seq<int>, positions: seq<int>, lossMask: seq<int>, logprobs: seq<LogProb>)

  datatype SampleData = SampleData(input: Arrays, prompt: Arrays, response: Arrays)

  datatype Failure = AssertionError | IndexError | RuntimeError
  datatype Result<+T> = Ok(value: T) | Err(failure: Failure)

  /** What the tokenizer and the configuration fix for all timelines. */
  datatype Setup = Setup(generationPrompt: seq<Token>, eos: Token, maxPromptLen: nat, maxResponseLen: nat)

  /** max_forward_steps */
  const MAX_FORWARD: nat := 100

  // ----- Messages -----

  const NON_TRAIN_AUTHORS: seq<string> := ["env", "initialization", "user", "memory", "llm(do_not_train)"]

  predicate Discarded(author: string) {
    var suffix := "(discard)";
    |author| >= |suffix| && author[|author| - |suffix|..] == suffix
  }

  predicate KnownAuthor(author: string) {
    author == "llm" || author in NON_TRAIN_AUTHORS || Discarded(author)
  }

  predicate NeedTraining(m: Message) {
    m.author == "llm"
  }

  function MaskOf(m: Message, setup: Setup): (r: seq<int>)
    ensures |r| == |m.tokens|
  {
    if NeedTraining(m) then TrainedMask(m.tokens, setup.generationPrompt, setup.eos, m.lackNormalEos)
    else Repeat(0, |m.tokens|)
  }

  function LogprobsOf(m: Message): seq<LogProb> {
    if m.logprobs == [] then Repeat(NO_LOGPROB, |m.tokens|) else m.logprobs
  }

  /** `remove_last_non_llm_msg` */
  function WithoutTrailing(timeline: seq<Message>): seq<Message> {
    if timeline != [] && timeline[|timeline| - 1].author != "llm" then timeline[..|timeline| - 1] else timeline
  }

  // ----- Concatenation -----

  /** The tokens of the first `n` messages. */
  function Tokens(ms: seq<Message>, n: nat): seq<Token>
    requires n <= |ms|
  {
    if n == 0 then [] else Tokens(ms, n - 1) + ms[n - 1].tokens
  }

  function Logprobs(ms: seq<Message>, n: nat): seq<LogProb>
    requires n <= |ms|
  {
    if n == 0 then [] else Logprobs(ms, n - 1) + LogprobsOf(ms[n - 1])
  }

  function Mask(ms: seq<Message>, n: nat, setup: Setup): (r: seq<int>)
    requires n <= |ms|
    ensures |r| == |Tokens(ms, n)|
  {
    if n == 0 then [] else Mask(ms, n - 1, setup) + MaskOf(ms[n - 1], setup)
  }

  function AllTokens(ms: seq<Message>): seq<Token> {
    Tokens(ms, |ms|)
  }

  function AllMask(ms: seq<Message>, setup: Setup): seq<int> {
    Mask(ms, |ms|, setup)
  }

  /** The number of messages before the first one that is trained. */
  function FirstTrained(ms: seq<Message>): (r: nat)
    ensures r <= |ms| && (r < |ms| ==> NeedTraining(ms[r]))
    ensures forall i :: 0 <= i < r ==> !NeedTraining(ms[i])
  {
    if ms == [] || NeedTraining(ms[0]) then 0 else 1 + FirstTrained(ms[1..])
  }

  // ----- The split between prompt and response -----

  /** The loop that moves the split forward over untrained positions; a list index of -1 reads the last element. */
  function Forward(mask: seq<int>, at: int, steps: nat): Result<int>
    decreases steps
  {
    if steps == 0 then Ok(at)
    else if !(-|mask| <= at < |mask|) then Err(IndexError)
    else if mask[if at < 0 then at + |mask| else at] == 0 then Forward(mask, at + 1, steps - 1)
    else Ok(at)
  }

  function SplitStart(ms: seq<Message>): int {
    if FirstTrained(ms) == |ms| then -1 else |Tokens(ms, FirstTrained(ms))|
  }

  function Slice(a: Arrays, n: int, head: bool): Arrays {
    if head then Arrays(Take(a.ids, n), Take(a.attention, n), Take(a.positions, n), Take(a.lossMask, n), Take(a.logprobs, n))
    else Arrays(Drop(a.ids, n), Drop(a.attention, n), Drop(a.positions, n), Drop(a.lossMask, n), Drop(a.logprobs, n))
  }

  /** verl's `compute_position_id_with_mask`: the running sum of the mask minus one, never below zero. */
  function PositionIds(attention: seq<int>): (r: seq<int>)
    ensures |r| == |attention|
  {
    seq(|attention|, i requires 0 <= i < |attention| => var s := SumInts(attention[..i + 1]) - 1; if s < 0 then 0 else s)
  }

  function SumInts(xs: seq<int>): int {
    if xs == [] then 0 else SumInts(xs[..|xs| - 1]) + xs[|xs| - 1]
  }

  function TokenizeSteps(timeline: seq<Message>, setup: Setup): Result<SampleData> {
    var ms := WithoutTrailing(timeline);
    if !AuthorsPass(ms) then Err(AssertionError)
    else
      var mask := AllMask(ms, setup);
      match Forward(mask, SplitStart(ms), MAX_FORWARD)
      case Err(e) => Err(e)
      case Ok(found) =>
        var split := if found > setup.maxPromptLen then setup.maxPromptLen else found;
        if split == -1 then Err(AssertionError)
        else
          var attention := Repeat(1, |AllTokens(ms)|);
          var input := Arrays(AllTokens(ms), attention, PositionIds(attention), mask, Logprobs(ms, |ms|));
          Ok(SampleData(input, Slice(input, split, true), Slice(input, split, false)))
  }

  /** The checks `tokenize_steps` makes on the authors: each is known, and the first trained message is not the first. */
  predicate AuthorsPass(ms: seq<Message>) {
    (forall m :: m in ms ==> KnownAuthor(m.author)) && (ms != [] ==> FirstTrained(ms) > 0)
  }

  /** The arrays hold the first `n` messages. */
  ghost predicate Gathered(ms: seq<Message>, n: nat, setup: Setup, ids: seq<Token>, logprobs: seq<LogProb>, attention: seq<int>, mask: seq<int>)
    requires n <= |ms|
  {
    && ids == Tokens(ms, n) && logprobs == Logprobs(ms, n) && mask == Mask(ms, n, setup)
    && attention == Repeat(1, |ids|)
  }

  method AppendMessage(ghost ms: seq<Message>, ghost n: nat, m: Message, setup: Setup,
                       ids: seq<Token>, logprobs: seq<LogProb>, attention: seq<int>, mask: seq<int>)
    returns (ids': seq<Token>, logprobs': seq<LogProb>, attention': seq<int>, mask': seq<int>)
    requires n < |ms| && ms[n] == m && Gathered(ms, n, setup, ids, logprobs, attention, mask)
    ensures Gathered(ms, n + 1, setup, ids', logprobs', attention', mask')
  {
    ids' := ids + m.tokens;
    logprobs' := logprobs + LogprobsOf(m);
    attention' := attention + Repeat(1, |m.tokens|);
    mask' := mask + MaskOf(m, setup);
  }

  /** The split index after the first `n` messages. */
  function SplitUpTo(ms: seq<Message>, n: nat): int {
    if FirstTrained(ms) < n then |Tokens(ms, FirstTrained(ms))| else -1
  }

  /** The checks on the first `n` messages. */
  ghost predicate PassUpTo(ms: seq<Message>, n: nat)
    requires n <= |ms|
  {
    (forall k :: 0 <= k < n ==> KnownAuthor(ms[k].author)) && (0 < n ==> FirstTrained(ms) > 0)
  }

  /** One message's checks, and the split index if it is the first one trained. */
  method CheckMessage(ms: seq<Message>, i: nat, gathered: nat, split: int) returns (ok: bool, split': int)
    requires i < |ms| && PassUpTo(ms, i) && gathered == |Tokens(ms, i)| && split == SplitUpTo(ms, i)
    ensures ok == PassUpTo(ms, i + 1)
    ensures ok ==> split' == SplitUpTo(ms, i + 1)
  {
    ok, split' := true, split;
    if !KnownAuthor(ms[i].author) {
      return false, split;
    }
    if split == -1 && NeedTraining(ms[i]) {
      split' := gathered;
      ok := i > 0;
    }
  }

  lemma PassedAll(ms: seq<Message>)
    ensures AuthorsPass(ms) <==> PassUpTo(ms, |ms|)
  {
    forall k | 0 <= k < |ms|
      ensures ms[k] in ms
    {
    }
  }

  lemma PassedSome(ms: seq<Message>, n: nat)
    requires n <= |ms| && !PassUpTo(ms, n)
    ensures !PassUpTo(ms, |ms|)
  {
  }

  /** The first loop of `tokenize_steps`: concatenation, with the split index found on the way. */
  method Concatenate(ms: seq<Message>, setup: Setup)
    returns (ok: bool, ids: seq<Token>, logprobs: seq<LogProb>, attention: seq<int>, mask: seq<int>, split: int)
    ensures ok == AuthorsPass(ms)
    ensures ok ==> ids == AllTokens(ms) && logprobs == Logprobs(ms, |ms|) && mask == AllMask(ms, setup)
    ensures ok ==> attention == Repeat(1, |ids|) && split == SplitStart(ms)
  {
    ok, ids, logprobs, attention, mask, split := true, [], [], [], [], -1;
    PassedAll(ms);
    for i := 0 to |ms|
      invariant Gathered(ms, i, setup, ids, logprobs, attention, mask)
      invariant ok && PassUpTo(ms, i) && split == SplitUpTo(ms, i)
    {
      ok, split := CheckMessage(ms, i, |ids|, split);
      if !ok {
        PassedSome(ms, i + 1);
        return;
      }
      ids, logprobs, attention, mask := AppendMessage(ms, i, ms[i], setup, ids, logprobs, attention, mask);
    }
  }

  /** The second loop: `if loss_mask[split] == 0: split += 1`, at most `max_forward_steps` times. */
  method MoveForward(mask: seq<int>, start: int) returns (result: Result<int>)
    requires start >= -1
    ensures result == Forward(mask, start, MAX_FORWARD)
  {
    var split := start;
    for steps := 0 to MAX_FORWARD
      invariant -1 <= split
      invariant Forward(mask, start, MAX_FORWARD) == Forward(mask, split, MAX_FORWARD - steps)
    {
      if !(-|mask| <= split < |mask|) {
        return Err(IndexError);
      }
      if mask[if split < 0 then split + |mask| else split] != 0 {
        return Ok(split);
      }
      split := split + 1;
    }
    return Ok(split);
  }

  method ComputeTokenizeSteps(timeline: seq<Message>, setup: Setup) returns (result: Result<SampleData>)
    ensures result == TokenizeSteps(timeline, setup)
  {
    var ms := WithoutTrailing(timeline);
    var ok, ids, logprobs, attention, mask, start := Concatenate(ms, setup);
    if !ok {
      return Err(AssertionError);
    }
    var moved := MoveForward(mask, start);
    if moved.Err? {
      return Err(moved.failure);
    }
    var split := moved.value;
    if split > setup.maxPromptLen {
      split := setup.maxPromptLen;
    }
    if split == -1 {
      return Err(AssertionError);
    }
    var input := Arrays(ids, attention, PositionIds(attention), mask, logprobs);
    return Ok(SampleData(input, Slice(input, split, true), Slice(input, split, false)));
  }

  // ----- Properties of the split -----

  ghost predicate Aligned(a: Arrays) {
    |a.ids| == |a.attention| == |a.positions| == |a.lossMask| == |a.logprobs|
  }

  /** Two parts put back together. */
  function Join(a: Arrays, b: Arrays): Arrays {
    Arrays(a.ids + b.ids, a.attention + b.attention, a.positions + b.positions,
           a.lossMask + b.lossMask, a.logprobs + b.logprobs)
  }

  /** Every message brings one log-probability a token, or none at all. */
  ghost predicate LogprobsFit(ms: seq<Message>) {
    forall m :: m in ms ==> m.logprobs == [] || |m.logprobs| == |m.tokens|
  }

  lemma {:induction false} LogprobsAlign(ms: seq<Message>, n: nat)
    requires LogprobsFit(ms) && n <= |ms|
    ensures |Logprobs(ms, n)| == |Tokens(ms, n)|
  {
    if n > 0 {
      LogprobsAlign(ms, n - 1);
      assert ms[n - 1] in ms;
    }
  }

  lemma {:induction false} SumOfOnes(n: nat)
    ensures SumInts(Repeat(1, n)) == n
  {
    if n > 0 {
      assert Repeat(1, n)[..n - 1] == Repeat(1, n - 1);
      SumOfOnes(n - 1);
    }
  }

  /** Fully attended positions count from zero. */
  lemma PositionsCount(n: nat)
    ensures forall i :: 0 <= i < n ==> PositionIds(Repeat(1, n))[i] == i
  {
    forall i | 0 <= i < n
      ensures PositionIds(Repeat(1, n))[i] == i
    {
      assert Repeat(1, n)[..i + 1] == Repeat(1, i + 1);
      SumOfOnes(i + 1);
    }
  }

  /** Messages that are not trained put only zeros into the mask. */
  lemma {:induction false} UntrainedPrefix(ms: seq<Message>, n: nat, setup: Setup)
    requires n <= FirstTrained(ms)
    ensures forall i :: 0 <= i < |Mask(ms, n, setup)| ==> Mask(ms, n, setup)[i] == 0
  {
    if n > 0 {
      UntrainedPrefix(ms, n - 1, setup);
      assert !NeedTraining(ms[n - 1]);
    }
  }

  lemma {:induction false} MaskPrefix(ms: seq<Message>, n: nat, m: nat, setup: Setup)
    requires n <= m <= |ms|
    ensures Mask(ms, n, setup) <= Mask(ms, m, setup) && Tokens(ms, n) <= Tokens(ms, m)
    decreases m
  {
    if n < m {
      MaskPrefix(ms, n, m - 1, setup);
    }
  }

  /** The forward move stops at the first trained position, or after the allowed number of steps, or fails
      when the list ends first. */
  lemma {:induction false} ForwardStops(mask: seq<int>, at: nat, steps: nat)
    requires at <= |mask|
    ensures Forward(mask, at, steps).Ok? ==>
      var r := Forward(mask, at, steps).value;
      && at <= r <= |mask| && r <= at + steps
      && (forall i :: at <= i < r ==> mask[i] == 0)
      && (r < at + steps ==> r < |mask| && mask[r] != 0)
    ensures Forward(mask, at, steps).Err? <==>
      (|mask| - at < steps && forall i :: at <= i < |mask| ==> mask[i] == 0)
    ensures Forward(mask, at, steps).Err? ==> Forward(mask, at, steps).failure == IndexError
    decreases steps
  {
    if steps > 0 && at < |mask| && mask[at] == 0 {
      ForwardStops(mask, at + 1, steps - 1);
    }
  }

  /** A timeline `tokenize_steps` gets past its own checks with. */
  ghost predicate Usable(timeline: seq<Message>) {
    var ms := WithoutTrailing(timeline);
    (forall m :: m in ms ==> KnownAuthor(m.author)) && 0 < FirstTrained(ms) < |ms|
  }

  /** Where the split may land: inside the mask, with only zeros before it. */
  lemma FoundSplit(ms: seq<Message>, setup: Setup)
    requires Forward(AllMask(ms, setup), SplitStart(ms), MAX_FORWARD).Ok?
    ensures var mask, found := AllMask(ms, setup), Forward(AllMask(ms, setup), SplitStart(ms), MAX_FORWARD).value;
      0 <= found <= |mask| && forall i :: 0 <= i < found ==> mask[i] == 0
  {
    var mask := AllMask(ms, setup);
    var start := FirstTrained(ms);
    UntrainedPrefix(ms, start, setup);
    if start == |ms| {
      ForwardFromMinusOne(mask, MAX_FORWARD);
    } else {
      var head := Mask(ms, start, setup);
      MaskPrefix(ms, start, |ms|, setup);
      ForwardStops(mask, |head|, MAX_FORWARD);
      assert forall i :: 0 <= i < |head| ==> mask[i] == head[i];
    }
  }

  /** Prompt and response put together give the input back; the prompt keeps within its limit and holds no trained position. */
  ghost predicate LosslessSplit(s: SampleData, setup: Setup) {
    && Join(s.prompt, s.response) == s.input
    && |s.prompt.ids| <= setup.maxPromptLen
    && (forall i :: 0 <= i < |s.prompt.lossMask| ==> s.prompt.lossMask[i] == 0)
  }

  /** Every position is attended and positions count from zero. */
  ghost predicate PlainPositions(a: Arrays) {
    && (forall i :: 0 <= i < |a.positions| ==> a.positions[i] == i)
    && (forall i :: 0 <= i < |a.attention| ==> a.attention[i] == 1)
  }

  /** Whatever the timeline, a result splits the concatenated messages without loss. */
  lemma SplitIsLossless(timeline: seq<Message>, setup: Setup)
    requires TokenizeSteps(timeline, setup).Ok?
    ensures var s := TokenizeSteps(timeline, setup).value;
      var ms := WithoutTrailing(timeline);
      && s.input.ids == AllTokens(ms) && s.input.lossMask == AllMask(ms, setup) && s.input.logprobs == Logprobs(ms, |ms|)
      && LosslessSplit(s, setup) && PlainPositions(s.input)
      && (LogprobsFit(ms) ==> Aligned(s.input) && Aligned(s.prompt) && Aligned(s.response))
  {
    var ms := WithoutTrailing(timeline);
    var s := TokenizeSteps(timeline, setup).value;
    var found := Forward(AllMask(ms, setup), SplitStart(ms), MAX_FORWARD).value;
    var split := if found > setup.maxPromptLen then setup.maxPromptLen else found;
    PositionsCount(|AllTokens(ms)|);
    FoundSplit(ms, setup);
    SplitLosesNothing(s.input, split, setup);
    if LogprobsFit(ms) {
      LogprobsAlign(ms, |ms|);
      SlicesAlign(s.input, split);
    }
  }

  lemma SplitLosesNothing(a: Arrays, n: nat, setup: Setup)
    requires n <= setup.maxPromptLen && n <= |a.lossMask| && forall i :: 0 <= i < n ==> a.lossMask[i] == 0
    ensures LosslessSplit(SampleData(a, Slice(a, n, true), Slice(a, n, false)), setup)
  {
    SlicesJoin(a, n);
  }

  lemma SlicesAlign(a: Arrays, n: int)
    requires Aligned(a)
    ensures Aligned(Slice(a, n, true)) && Aligned(Slice(a, n, false))
  {
  }

  lemma SlicesJoin(a: Arrays, n: nat)
    ensures Join(Slice(a, n, true), Slice(a, n, false)) == a
  {
    assert forall k :: 0 <= k <= |a.ids| ==> a.ids[..k] + a.ids[k..] == a.ids;
    assert forall k :: 0 <= k <= |a.logprobs| ==> a.logprobs[..k] + a.logprobs[k..] == a.logprobs;
  }

  /** Without a trained message the index starts at -1, reads the last mask entry and walks on from the front: the call
      fails when fewer than 99 tokens are there, and otherwise splits after 99 tokens instead of reporting the error. */
  lemma ForwardFromMinusOne(mask: seq<int>, steps: nat)
    requires steps >= 1 && forall i :: 0 <= i < |mask| ==> mask[i] == 0
    ensures Forward(mask, -1, steps) == if |mask| < steps - 1 || mask == [] then Err(IndexError) else Ok(steps - 1)
  {
    if mask != [] {
      assert Forward(mask, -1, steps) == Forward(mask, 0, steps - 1);
      ForwardStops(mask, 0, steps - 1);
    }
  }

  /** The result when the forward loop has found a split. */
  lemma FoundResult(timeline: seq<Message>, setup: Setup, mask: seq<int>, found: nat)
    requires AuthorsPass(WithoutTrailing(timeline)) && mask == AllMask(WithoutTrailing(timeline), setup) && found <= |mask|
    requires Forward(mask, SplitStart(WithoutTrailing(timeline)), MAX_FORWARD) == Ok(found)
    ensures var split := if found > setup.maxPromptLen then setup.maxPromptLen else found;
      && TokenizeSteps(timeline, setup).Ok?
      && TokenizeSteps(timeline, setup).value.response.lossMask == Drop(mask, split)
      && |TokenizeSteps(timeline, setup).value.prompt.ids| == split
  {
  }

  /** On a usable timeline the result is decided by the forward loop from the start of the first trained message. */
  lemma UsableResult(timeline: seq<Message>, setup: Setup) returns (mask: seq<int>, start: nat)
    requires Usable(timeline)
    ensures mask == AllMask(WithoutTrailing(timeline), setup) && |mask| == |AllTokens(WithoutTrailing(timeline))|
    ensures start == |Tokens(WithoutTrailing(timeline), FirstTrained(WithoutTrailing(timeline)))| <= |mask|
    ensures Forward(mask, start, MAX_FORWARD).Err? ==>
      TokenizeSteps(timeline, setup) == Err(Forward(mask, start, MAX_FORWARD).failure)
    ensures Forward(mask, start, MAX_FORWARD).Ok? ==> TokenizeSteps(timeline, setup).Ok?
    ensures Forward(mask, start, MAX_FORWARD).Ok? ==>
      var found := Forward(mask, start, MAX_FORWARD).value;
      var split := if found > setup.maxPromptLen then setup.maxPromptLen else found;
      0 <= found <= |mask| && TokenizeSteps(timeline, setup).value.response.lossMask == Drop(mask, split)
        && |TokenizeSteps(timeline, setup).value.prompt.ids| == split
  {
    var ms := WithoutTrailing(timeline);
    mask, start := AllMask(ms, setup), |Tokens(ms, FirstTrained(ms))|;
    MaskPrefix(ms, FirstTrained(ms), |ms|, setup);
    ForwardStops(mask, start, MAX_FORWARD);
    if Forward(mask, start, MAX_FORWARD).Ok? {
      FoundResult(timeline, setup, mask, Forward(mask, start, MAX_FORWARD).value);
    }
  }

  /** Exactly when `tokenize_steps` succeeds on a timeline that passes its checks: some trained token among
      those of the first trained message on, or at least 100 tokens there. */
  lemma TokenizeSucceedsIff(timeline: seq<Message>, setup: Setup)
    requires Usable(timeline)
    ensures var ms := WithoutTrailing(timeline);
      var mask, start := AllMask(ms, setup), |Tokens(ms, FirstTrained(ms))|;
      && (TokenizeSteps(timeline, setup).Ok? <==>
            (exists i :: start <= i < |mask| && mask[i] != 0) || |mask| - start >= MAX_FORWARD)
      && (TokenizeSteps(timeline, setup).Err? ==> TokenizeSteps(timeline, setup).failure == IndexError)
  {
    var mask, start := UsableResult(timeline, setup);
    ForwardStops(mask, start, MAX_FORWARD);
  }

  /** The response starts on a trained token when there is one among the first 100 from the first trained message on and
      the prompt limit does not cut the prompt short. */
  lemma ResponseStartsTrained(timeline: seq<Message>, setup: Setup, k: nat)
    requires Usable(timeline)
    requires var ms := WithoutTrailing(timeline);
      var start := |Tokens(ms, FirstTrained(ms))|;
      start <= k < start + MAX_FORWARD && k < |AllTokens(ms)| && AllMask(ms, setup)[k] != 0
    ensures TokenizeSteps(timeline, setup).Ok?
    ensures var s := TokenizeSteps(timeline, setup).value;
      && s.response.lossMask != []
      && (k < setup.maxPromptLen ==> s.response.lossMask[0] != 0)
  {
    var mask, start := UsableResult(timeline, setup);
    FoundBy(mask, start, k);
  }

  lemma FoundBy(mask: seq<int>, start: nat, k: nat)
    requires start <= k < start + MAX_FORWARD && k < |mask| && mask[k] != 0
    ensures Forward(mask, start, MAX_FORWARD).Ok?
    ensures start <= Forward(mask, start, MAX_FORWARD).value <= k && mask[Forward(mask, start, MAX_FORWARD).value] != 0
  {
    ForwardStops(mask, start, MAX_FORWARD);
  }

  // ----- Sample.truncate_output_ids -----

  function CutTo(a: Arrays, n: nat): Arrays {
    Slice(a, n, true)
  }

  function Truncate(s: SampleData, setup: Setup): Result<SampleData> {
    if !(|s.input.ids| == |s.input.attention| == |s.input.positions| == |s.input.lossMask|) then Err(AssertionError)
    else if !(|s.prompt.ids| == |s.prompt.attention| == |s.prompt.positions| == |s.prompt.lossMask| == |s.prompt.logprobs|) then
      Err(AssertionError)
    else if !(|s.response.ids| == |s.response.attention| == |s.response.positions| == |s.response.lossMask| == |s.response.logprobs|) then
      Err(AssertionError)
    else if |s.prompt.ids| > setup.maxPromptLen then Err(RuntimeError)
    else if |s.response.ids| > setup.maxResponseLen then
      var cut := CutTo(s.response, setup.maxResponseLen);
      Ok(SampleData(Join(s.prompt, cut), s.prompt, cut))
    else Ok(s)
  }

  /** The object whose lists `truncate_output_ids` reassigns. */
  class Sample {
    var input: Arrays
    var prompt: Arrays
    var response: Arrays
    const setup: Setup

    ghost function Data(): SampleData
      reads this
    {
      SampleData(input, prompt, response)
    }

    constructor (tokenized: SampleData, setup: Setup)
      ensures Data() == tokenized && this.setup == setup
    {
      input, prompt, response := tokenized.input, tokenized.prompt, tokenized.response;
      this.setup := setup;
    }

    method TruncateOutputIds() returns (failure: Option<Failure>)
      modifies this
      ensures failure == match Truncate(old(Data()), setup) case Ok(_) => None case Err(e) => Some(e)
      ensures Data() == match Truncate(old(Data()), setup) case Ok(s) => s case Err(_) => old(Data())
    {
      if !(|input.ids| == |input.attention| == |input.positions| == |input.lossMask|)
         || !(|prompt.ids| == |prompt.attention| == |prompt.positions| == |prompt.lossMask| == |prompt.logprobs|)
         || !(|response.ids| == |response.attention| == |response.positions| == |response.lossMask| == |response.logprobs|)
      {
        return Some(AssertionError);
      }
      if |prompt.ids| > setup.maxPromptLen {
        return Some(RuntimeError);
      }
      var truncateAny := false;
      if |response.ids| > setup.maxResponseLen {
        truncateAny := true;
        var n := setup.maxResponseLen;
        response := Arrays(response.ids[..n], response.attention[..n], response.positions[..n],
                           response.lossMask[..n], response.logprobs[..n]);
      }
      if truncateAny {
        input := Arrays(prompt.ids + response.ids, prompt.attention + response.attention,
                        prompt.positions + response.positions, prompt.lossMask + response.lossMask,
                        prompt.logprobs + response.logprobs);
      }
      return None;
    }
  }

  /** A sample as the batch builder relies on it. */
  ghost predicate WellFormed(s: SampleData, setup: Setup) {
    && Aligned(s.input) && Aligned(s.prompt) && Aligned(s.response)
    && Join(s.prompt, s.response) == s.input
    && |s.prompt.ids| <= setup.maxPromptLen && |s.response.ids| <= setup.maxResponseLen
  }

  /** Truncation yields a well-formed sample that keeps the prompt and a leading part of the response, and a
      second truncation changes nothing (the source truncates once in the constructor and once more afterwards). */
  lemma TruncateIsIdempotent(s: SampleData, setup: Setup)
    requires Join(s.prompt, s.response) == s.input && Aligned(s.prompt) && Aligned(s.response)
    requires |s.prompt.ids| <= setup.maxPromptLen
    ensures Truncate(s, setup).Ok?
    ensures var t := Truncate(s, setup).value;
      && WellFormed(t, setup)
      && Truncate(t, setup) == Ok(t)
      && t.prompt == s.prompt && t.response.ids <= s.response.ids && t.response.lossMask <= s.response.lossMask
      && t.response.positions <= s.response.positions && t.response.logprobs <= s.response.logprobs
      && |t.response.ids| == if |s.response.ids| < setup.maxResponseLen then |s.response.ids| else setup.maxResponseLen
  {
    var t := Truncate(s, setup).value;
    if |s.response.ids| <= setup.maxResponseLen {
      assert t == s;
    }
  }

  /** Truncation raises exactly when the arrays of the input or of a part differ in length (the log-probabilities of the input are not
      looked at), or when the prompt exceeds its limit. */
  lemma TruncateRaisesIff(s: SampleData, setup: Setup)
    ensures var mixed := !Aligned(s.prompt) || !Aligned(s.response) || !Aligned(s.input.(logprobs := Repeat(0.0, |s.input.ids|)));
      && (Truncate(s, setup) == Err(AssertionError) <==> mixed)
      && (Truncate(s, setup) == Err(RuntimeError) <==> !mixed && |s.prompt.ids| > setup.maxPromptLen)
      && (Truncate(s, setup).Ok? <==> !mixed && |s.prompt.ids| <= setup.maxPromptLen)
  {
  }

  /** `Sample.__init__` */
  function BuildSample(tokenized: SampleData, setup: Setup): Result<SampleData> {
    match Truncate(tokenized, setup)
    case Err(e) => Err(e)
    case Ok(s) => if s.response.ids == [] then Err(AssertionError) else Ok(s)
  }

  /** The k-th token is trained and among the first 100 from the start of the first trained message. */
  ghost predicate TrainedAt(timeline: seq<Message>, setup: Setup, k: nat) {
    var ms := WithoutTrailing(timeline);
    var start := |Tokens(ms, FirstTrained(ms))|;
    start <= k < start + MAX_FORWARD && k < |AllTokens(ms)| && AllMask(ms, setup)[k] != 0
  }

  /** A usable timeline with a trained token within 100 positions of its first trained message always becomes a sample:
      neither the prompt-length error nor the empty-response check of the constructor can fire.  The sample holds the tokens
      of the timeline up to the response limit. */
  lemma SampleIsBuilt(timeline: seq<Message>, setup: Setup, k: nat)
    requires Usable(timeline) && LogprobsFit(WithoutTrailing(timeline)) && setup.maxResponseLen >= 1 && TrainedAt(timeline, setup, k)
    ensures TokenizeSteps(timeline, setup).Ok?
    ensures var ms, tokenized := WithoutTrailing(timeline), TokenizeSteps(timeline, setup).value;
      var built := BuildSample(tokenized, setup);
      && built.Ok? && WellFormed(built.value, setup) && PlainPositions(built.value.input)
      && built.value.prompt == tokenized.prompt && built.value.response.ids != []
      && built.value.input.ids <= AllTokens(ms) && built.value.input.lossMask <= AllMask(ms, setup)
      && built.value.input.logprobs <= Logprobs(ms, |ms|)
      && (|AllTokens(ms)| <= |tokenized.prompt.ids| + setup.maxResponseLen ==> built.value.input.ids == AllTokens(ms))
  {
    ResponseStartsTrained(timeline, setup, k);
    SplitIsLossless(timeline, setup);
    TruncateKeepsPlain(TokenizeSteps(timeline, setup).value, setup);
  }

  /** The sample has a prompt exactly when the prompt limit allows one and the very first token is not trained. */
  lemma PromptIsThereIff(timeline: seq<Message>, setup: Setup, k: nat)
    requires Usable(timeline) && TrainedAt(timeline, setup, k)
    ensures TokenizeSteps(timeline, setup).Ok?
    ensures TokenizeSteps(timeline, setup).value.prompt.ids != []
      <==> setup.maxPromptLen > 0 && AllMask(WithoutTrailing(timeline), setup)[0] == 0
  {
    var mask, start := UsableResult(timeline, setup);
    FoundBy(mask, start, k);
    FoundSplit(WithoutTrailing(timeline), setup);
  }

  lemma TruncateKeepsPlain(s: SampleData, setup: Setup)
    requires LosslessSplit(s, setup) && Aligned(s.prompt) && Aligned(s.response) && PlainPositions(s.input)
    requires s.response.ids != [] && setup.maxResponseLen >= 1
    ensures var built := BuildSample(s, setup);
      && built.Ok? && WellFormed(built.value, setup) && PlainPositions(built.value.input)
      && built.value.prompt == s.prompt && built.value.response.ids != []
      && built.value.input.ids <= s.input.ids && built.value.input.lossMask <= s.input.lossMask
      && built.value.input.logprobs <= s.input.logprobs
      && (|s.input.ids| <= |s.prompt.ids| + setup.maxResponseLen ==> built.value.input.ids == s.input.ids)
  {
    TruncateIsIdempotent(s, setup);
    var t := Truncate(s, setup).value;
    assert |s.input.ids| == |s.prompt.ids| + |s.response.ids|;
    if |s.response.ids| > setup.maxResponseLen {
      var n := |s.prompt.ids| + setup.maxResponseLen;
      assert t.input.ids == s.input.ids[..n] && t.input.lossMask == s.input.lossMask[..n];
      assert t.input.positions == s.input.positions[..n] && t.input.attention == s.input.attention[..n];
      assert t.input.logprobs == s.input.logprobs[..n];
    }
  }

  /** A timeline in which no message is trained is not reported: with 99 tokens or more it comes out split after 99
      (or at the prompt limit), with fewer it dies on an index error. */
  lemma UntrainedTimeline(timeline: seq<Message>, setup: Setup)
    requires forall m :: m in WithoutTrailing(timeline) ==> KnownAuthor(m.author) && !NeedTraining(m)
    ensures var total := |AllTokens(WithoutTrailing(timeline))|;
      var r := TokenizeSteps(timeline, setup);
      if total < MAX_FORWARD - 1 then r == Err(IndexError)
      else r.Ok? && |r.value.prompt.ids| == if setup.maxPromptLen < MAX_FORWARD - 1 then setup.maxPromptLen else MAX_FORWARD - 1
  {
    var ms := WithoutTrailing(timeline);
    assert FirstTrained(ms) == |ms|;
    UntrainedPrefix(ms, |ms|, setup);
    ForwardFromMinusOne(AllMask(ms, setup), MAX_FORWARD);
  }
}
