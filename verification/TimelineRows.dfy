/** From a timeline of messages to a row of the training batch, told message by message: where each token of an LLM answer ends up
in `tokenize_steps` (ajet/context_tracker/single_agent_tracking.py) and in `samples_to_dataproto`
(ajet/task_rollout/native_parallel_worker.py), and what it carries with it. */
module TimelineRows {
  import opened PyList
  import opened TaskGroups
  import opened LossMask
  import opened Samples
  import opened BatchTensors

  // ----- The timeline itself -----

  /** The number of messages that count: all of them, or all but the last when that is not from the LLM. */
  function Kept(timeline: seq<Message>): (n: nat)
    ensures n <= |timeline|
  {
    if timeline == [] || timeline[|timeline| - 1].author == "llm" then |timeline| else |timeline| - 1
  }

  /** The summed lengths of the messages before the j-th. */
  function Start(ms: seq<Message>, j: nat): nat
    requires j <= |ms|
  {
    if j == 0 then 0 else Start(ms, j - 1) + |ms[j - 1].tokens|
  }

  /** Is this token of the message trained? */
  ghost predicate Trained(m: Message, setup: Setup, k: nat)
    requires k < |m.tokens|
  {
    && m.author == "llm" && !InFirst(m.tokens, setup.generationPrompt, k)
    && setup.eos !in m.tokens[..k] && !(m.lackNormalEos && m.tokens[k] == setup.eos)
  }

  /** The messages that count bring one log-probability a token, or none. */
  ghost predicate KeptFit(timeline: seq<Message>) {
    forall j :: 0 <= j < Kept(timeline) ==> timeline[j].logprobs == [] || |timeline[j].logprobs| == |timeline[j].tokens|
  }

  // ----- The arrays of a sample -----

  /** If token `k` of message `j` fits into the arrays, it stands behind the messages before it: attended, with its own log-probability or
      the invalid value, and a 1 in the mask exactly if it is trained. */
  ghost predicate HoldsToken(a: Arrays, timeline: seq<Message>, j: nat, k: nat, setup: Setup)
    requires Aligned(a) && KeptFit(timeline) && j < Kept(timeline) && k < |timeline[j].tokens|
  {
    var at, m := Start(timeline, j) + k, timeline[j];
    at < |a.ids| ==>
      && a.ids[at] == m.tokens[k] && a.attention[at] == 1 && a.positions[at] == at
      && a.lossMask[at] == (if Trained(m, setup, k) then 1 else 0)
      && a.logprobs[at] == (if m.logprobs == [] then 0.0 else m.logprobs[k])
  }

  /** The arrays hold the tokens of the messages that count, each at its place, as far as they go. */
  ghost predicate HoldTimeline(a: Arrays, timeline: seq<Message>, setup: Setup)
    requires Aligned(a) && KeptFit(timeline)
  {
    forall j, k :: 0 <= j < Kept(timeline) && 0 <= k < |timeline[j].tokens| ==> HoldsToken(a, timeline, j, k, setup)
  }

  lemma {:induction false} StartOfPrefix(ms: seq<Message>, n: nat, j: nat)
    requires j <= n <= |ms|
    ensures Start(ms[..n], j) == Start(ms, j) == |Tokens(ms[..n], j)|
  {
    if j > 0 {
      StartOfPrefix(ms, n, j - 1);
    }
  }

  lemma {:induction false} StartGrows(ms: seq<Message>, i: nat, j: nat)
    requires i <= j <= |ms|
    ensures Start(ms, i) <= Start(ms, j)
    ensures i < j ==> Start(ms, i) + |ms[i].tokens| <= Start(ms, j)
    decreases j
  {
    if i < j {
      StartGrows(ms, i, j - 1);
    }
  }

  /** Where the tokens of message `j` are among those of the first `n` messages, with their mask and their log-probabilities. */
  lemma {:induction false} TokensOfMessage(ms: seq<Message>, n: nat, j: nat, k: nat)
    requires j < n <= |ms| && k < |ms[j].tokens|
    ensures |Tokens(ms, j)| + k < |Tokens(ms, n)| && Tokens(ms, n)[|Tokens(ms, j)| + k] == ms[j].tokens[k]
  {
    if j < n - 1 {
      TokensOfMessage(ms, n - 1, j, k);
    }
  }

  lemma {:induction false} MasksOfMessage(ms: seq<Message>, n: nat, j: nat, k: nat, setup: Setup)
    requires j < n <= |ms| && k < |ms[j].tokens|
    ensures |Tokens(ms, j)| + k < |Mask(ms, n, setup)| && Mask(ms, n, setup)[|Tokens(ms, j)| + k] == MaskOf(ms[j], setup)[k]
  {
    if j < n - 1 {
      MasksOfMessage(ms, n - 1, j, k, setup);
    }
  }

  lemma {:induction false} LogprobsOfMessage(ms: seq<Message>, n: nat, j: nat, k: nat)
    requires j < n <= |ms| && k < |ms[j].tokens| && LogprobsFit(ms) && |LogprobsOf(ms[j])| == |ms[j].tokens|
    ensures |Tokens(ms, j)| + k < |Logprobs(ms, n)| && Logprobs(ms, n)[|Tokens(ms, j)| + k] == LogprobsOf(ms[j])[k]
  {
    LogprobsAlign(ms, n - 1);
    if j < n - 1 {
      LogprobsOfMessage(ms, n - 1, j, k);
      assert Logprobs(ms, n)[|Tokens(ms, j)| + k] == Logprobs(ms, n - 1)[|Tokens(ms, j)| + k];
    } else {
      assert |Logprobs(ms, j)| == |Tokens(ms, j)|;
    }
  }

  lemma MaskOfMessage(m: Message, setup: Setup, k: nat)
    requires k < |m.tokens|
    ensures MaskOf(m, setup)[k] == if Trained(m, setup, k) then 1 else 0
  {
    if m.author == "llm" {
      TrainedMaskIff(m.tokens, setup.generationPrompt, setup.eos, m.lackNormalEos, k);
    }
  }

  lemma KeptMessages(timeline: seq<Message>)
    ensures WithoutTrailing(timeline) == timeline[..Kept(timeline)]
    ensures KeptFit(timeline) ==> LogprobsFit(timeline[..Kept(timeline)])
  {
    assert timeline[..|timeline|] == timeline;
  }

  /** What the concatenated messages hold at a token's place. */
  lemma ConcatenatedToken(ms: seq<Message>, j: nat, k: nat, setup: Setup)
    requires j < |ms| && k < |ms[j].tokens| && LogprobsFit(ms)
    ensures var at, n := |Tokens(ms, j)| + k, |ms|;
      && at < |Tokens(ms, n)| == |Mask(ms, n, setup)| == |Logprobs(ms, n)| && Tokens(ms, n)[at] == ms[j].tokens[k]
      && Mask(ms, n, setup)[at] == (if Trained(ms[j], setup, k) then 1 else 0)
      && Logprobs(ms, n)[at] == (if ms[j].logprobs == [] then 0.0 else ms[j].logprobs[k])
  {
    var n := |ms|;
    assert ms[j] in ms;
    LogprobsAlign(ms, n);
    TokensOfMessage(ms, n, j, k);
    MasksOfMessage(ms, n, j, k, setup);
    LogprobsOfMessage(ms, n, j, k);
    MaskOfMessage(ms[j], setup, k);
  }

  /** Arrays made of these messages hold each token. */
  lemma MessagesHold(a: Arrays, timeline: seq<Message>, j: nat, k: nat, setup: Setup)
    requires Aligned(a) && PlainPositions(a) && KeptFit(timeline) && j < Kept(timeline) && k < |timeline[j].tokens|
    requires var ms, n := timeline[..Kept(timeline)], Kept(timeline);
      a.ids == Tokens(ms, n) && a.lossMask == Mask(ms, n, setup) && a.logprobs == Logprobs(ms, n)
    ensures HoldsToken(a, timeline, j, k, setup)
  {
    KeptMessages(timeline);
    StartOfPrefix(timeline, Kept(timeline), j);
    assert timeline[..Kept(timeline)][j] == timeline[j];
    ConcatenatedToken(timeline[..Kept(timeline)], j, k, setup);
  }

  /** What `tokenize_steps` returns, message by message: all messages count but a last one that is not from the LLM, and every token of
      them stands behind the tokens of the messages before. */
  lemma TokenizedTimeline(timeline: seq<Message>, setup: Setup)
    requires TokenizeSteps(timeline, setup).Ok? && KeptFit(timeline)
    ensures var a := TokenizeSteps(timeline, setup).value.input;
      Aligned(a) && |a.ids| == Start(timeline, Kept(timeline)) && HoldTimeline(a, timeline, setup)
  {
    var n := Kept(timeline);
    KeptMessages(timeline);
    SplitIsLossless(timeline, setup);
    StartOfPrefix(timeline, n, n);
    forall j, k | 0 <= j < n && 0 <= k < |timeline[j].tokens|
      ensures HoldsToken(TokenizeSteps(timeline, setup).value.input, timeline, j, k, setup)
    {
      MessagesHold(TokenizeSteps(timeline, setup).value.input, timeline, j, k, setup);
    }
  }

  /** Shorter arrays hold as much of the timeline as fits into them. */
  lemma PrefixHolds(a: Arrays, b: Arrays, timeline: seq<Message>, setup: Setup)
    requires Aligned(a) && Aligned(b) && KeptFit(timeline) && HoldTimeline(a, timeline, setup) && PlainPositions(b)
    requires b.ids <= a.ids && b.lossMask <= a.lossMask && b.logprobs <= a.logprobs
    ensures HoldTimeline(b, timeline, setup)
  {
    forall j, k | 0 <= j < Kept(timeline) && 0 <= k < |timeline[j].tokens|
      ensures HoldsToken(b, timeline, j, k, setup)
    {
      assert HoldsToken(a, timeline, j, k, setup);
    }
  }

  /** The authors the tracker knows. */
  ghost predicate Known(author: string) {
    || author == "llm" || author == "env" || author == "initialization" || author == "user" || author == "memory"
    || author == "llm(do_not_train)" || exists name: string :: author == name + "(discard)"
  }

  lemma KnownIff(author: string)
    ensures KnownAuthor(author) <==> Known(author)
  {
    var suffix := "(discard)";
    if Discarded(author) {
      assert author == author[..|author| - |suffix|] + suffix;
    }
    if name: string :| author == name + suffix {
      assert author[|author| - |suffix|..] == suffix;
    }
  }

  /** The author checks fail exactly when an author that counts is unknown, or the first message is from the LLM. */
  lemma AuthorsFailIff(timeline: seq<Message>, setup: Setup)
    ensures (exists j :: 0 <= j < Kept(timeline) && !Known(timeline[j].author)) || (timeline != [] && timeline[0].author == "llm")
      <==> !AuthorsPass(WithoutTrailing(timeline))
    ensures !AuthorsPass(WithoutTrailing(timeline)) ==> TokenizeSteps(timeline, setup) == Err(AssertionError)
  {
    var ms := WithoutTrailing(timeline);
    KeptMessages(timeline);
    forall j | 0 <= j < Kept(timeline)
      ensures KnownAuthor(timeline[j].author) <==> Known(timeline[j].author)
      ensures ms[j] == timeline[j] && ms[j] in ms
    {
      KnownIff(timeline[j].author);
    }
  }

  // ----- From the timeline to the row -----

  /** The first message from the LLM, or the number of messages. */
  function FirstLlm(timeline: seq<Message>): (f: nat)
    ensures f <= |timeline| && (f < |timeline| ==> timeline[f].author == "llm")
    ensures forall i :: 0 <= i < f ==> timeline[i].author != "llm"
  {
    if timeline == [] || timeline[0].author == "llm" then 0 else 1 + FirstLlm(timeline[1..])
  }

  /** Token `k` of message `j` is trained and less than 100 positions behind the start of the first LLM message, which is not the first
      message; all authors that count are known. */
  ghost predicate Trainable(timeline: seq<Message>, setup: Setup, j: nat, k: nat) {
    && j < Kept(timeline) && k < |timeline[j].tokens| && Trained(timeline[j], setup, k)
    && 0 < FirstLlm(timeline) < |timeline| && Start(timeline, j) + k < Start(timeline, FirstLlm(timeline)) + 100
    && AuthorsKnown(timeline, Kept(timeline))
  }

  ghost predicate AuthorsKnown(timeline: seq<Message>, n: nat)
    requires n <= |timeline|
  {
    forall i :: 0 <= i < n ==> KnownAuthor(timeline[i].author)
  }

  /** Token `k` of message `j` is token `at` of the timeline. */
  ghost predicate At(timeline: seq<Message>, j: nat, k: nat, at: nat)
    requires j < |timeline|
  {
    Start(timeline, j) + k == at
  }

  /** It comes before token `at`. */
  ghost predicate Before(timeline: seq<Message>, j: nat, k: nat, at: nat)
    requires j < |timeline|
  {
    Start(timeline, j) + k < at
  }

  /** Trained tokens are not at the very beginning. */
  ghost predicate BeginsUntrained(timeline: seq<Message>, setup: Setup) {
    forall j, k :: 0 <= j < Kept(timeline) && 0 <= k < |timeline[j].tokens| && Trained(timeline[j], setup, k) ==> !At(timeline, j, k, 0)
  }

  lemma FirstIsFirst(timeline: seq<Message>)
    requires FirstLlm(timeline) < Kept(timeline)
    ensures FirstTrained(WithoutTrailing(timeline)) == FirstLlm(timeline)
    ensures |Tokens(WithoutTrailing(timeline), FirstLlm(timeline))| == Start(timeline, FirstLlm(timeline))
  {
    var ms, f := WithoutTrailing(timeline), FirstLlm(timeline);
    KeptMessages(timeline);
    assert NeedTraining(ms[f]);
    forall i | 0 <= i < f
      ensures !NeedTraining(ms[i])
    {
      assert ms[i] == timeline[i];
    }
    StartOfPrefix(timeline, Kept(timeline), f);
  }

  lemma TrainableIsUsable(timeline: seq<Message>, setup: Setup, j: nat, k: nat)
    requires Trainable(timeline, setup, j, k) && KeptFit(timeline)
    ensures FirstLlm(timeline) <= j && Usable(timeline) && LogprobsFit(WithoutTrailing(timeline))
  {
    KeptMessages(timeline);
    FirstIsFirst(timeline);
  }

  /** The mask of the timeline at a trained token. */
  lemma TrainedIsMasked(timeline: seq<Message>, setup: Setup, j: nat, k: nat)
    requires j < Kept(timeline) && k < |timeline[j].tokens|
    ensures var ms, at := WithoutTrailing(timeline), Start(timeline, j) + k;
      at < |AllTokens(ms)| && AllMask(ms, setup)[at] == if Trained(timeline[j], setup, k) then 1 else 0
  {
    var n := Kept(timeline);
    KeptMessages(timeline);
    assert WithoutTrailing(timeline)[j] == timeline[j];
    StartOfPrefix(timeline, n, j);
    MasksOfMessage(WithoutTrailing(timeline), n, j, k, setup);
    MaskOfMessage(timeline[j], setup, k);
  }

  /** What the lemmas about samples ask for. */
  ghost predicate Reached(timeline: seq<Message>, setup: Setup, at: nat) {
    Usable(timeline) && LogprobsFit(WithoutTrailing(timeline)) && TrainedAt(timeline, setup, at)
  }

  lemma TokenIsTrainedAt(timeline: seq<Message>, setup: Setup, j: nat, k: nat)
    requires FirstLlm(timeline) <= j < Kept(timeline) && k < |timeline[j].tokens| && Trained(timeline[j], setup, k)
    requires Start(timeline, j) + k < Start(timeline, FirstLlm(timeline)) + 100
    ensures TrainedAt(timeline, setup, Start(timeline, j) + k)
  {
    TrainedIsMasked(timeline, setup, j, k);
    FirstIsFirst(timeline);
    StartGrows(timeline, FirstLlm(timeline), j);
  }

  lemma TrainableIsTrainedAt(timeline: seq<Message>, setup: Setup, j: nat, k: nat)
    requires Trainable(timeline, setup, j, k) && KeptFit(timeline)
    ensures Reached(timeline, setup, Start(timeline, j) + k)
  {
    TrainableIsUsable(timeline, setup, j, k);
    TokenIsTrainedAt(timeline, setup, j, k);
  }

  /** The message that holds position `at`. */
  lemma {:induction false} MessageAt(ms: seq<Message>, n: nat, at: nat) returns (j: nat, k: nat)
    requires n <= |ms| && at < Start(ms, n)
    ensures j < n && k < |ms[j].tokens| && Start(ms, j) + k == at
  {
    if at < Start(ms, n - 1) {
      j, k := MessageAt(ms, n - 1, at);
    } else {
      j, k := n - 1, at - Start(ms, n - 1);
    }
  }

  /** The first `n` tokens hold no trained one, and they end at a trained one unless the limit ends them before. */
  ghost predicate PromptEnds(timeline: seq<Message>, setup: Setup, n: nat) {
    && (forall j, k :: 0 <= j < Kept(timeline) && 0 <= k < |timeline[j].tokens| && Trained(timeline[j], setup, k) ==>
          !Before(timeline, j, k, n))
    && (n < setup.maxPromptLen ==>
          exists j, k :: 0 <= j < Kept(timeline) && 0 <= k < |timeline[j].tokens| && Trained(timeline[j], setup, k) && At(timeline, j, k, n))
    && n <= setup.maxPromptLen
  }

  lemma PromptOfTimeline(timeline: seq<Message>, setup: Setup, j: nat, k: nat)
    requires KeptFit(timeline) && Trainable(timeline, setup, j, k)
    ensures TokenizeSteps(timeline, setup).Ok? && PromptEnds(timeline, setup, |TokenizeSteps(timeline, setup).value.prompt.ids|)
  {
    TrainableIsTrainedAt(timeline, setup, j, k);
    var mask, start := UsableResult(timeline, setup);
    FoundBy(mask, start, Start(timeline, j) + k);
    SplitIsLossless(timeline, setup);
    var tokenized := TokenizeSteps(timeline, setup).value;
    var n := |tokenized.prompt.ids|;
    forall j, k | 0 <= j < Kept(timeline) && 0 <= k < |timeline[j].tokens| && Trained(timeline[j], setup, k)
      ensures !Before(timeline, j, k, n)
    {
      TrainedIsMasked(timeline, setup, j, k);
      PromptIsUntrained(tokenized, setup, Start(timeline, j) + k);
    }
    if n < setup.maxPromptLen {
      KeptMessages(timeline);
      StartOfPrefix(timeline, Kept(timeline), Kept(timeline));
      var j', k' := MessageAt(timeline, Kept(timeline), n);
      TrainedIsMasked(timeline, setup, j', k');
      assert At(timeline, j', k', n);
    }
  }

  lemma PromptIsUntrained(s: SampleData, setup: Setup, at: nat)
    requires LosslessSplit(s, setup) && Aligned(s.prompt) && at < |s.input.lossMask| && s.input.lossMask[at] != 0
    ensures at >= |s.prompt.ids|
  {
    assert s.input.lossMask == s.prompt.lossMask + s.response.lossMask;
  }

  /** A timeline, what it is tokenized to, and the sample built from that. */
  ghost predicate Built(timeline: seq<Message>, setup: Setup, tokenized: SampleData, s: SampleData) {
    TokenizeSteps(timeline, setup) == Ok(tokenized) && BuildSample(tokenized, setup) == Ok(s)
  }

  /** What the constructor of a sample keeps. */
  ghost predicate CutFrom(s: SampleData, tokenized: SampleData, setup: Setup) {
    && WellFormed(s, setup) && PlainPositions(s.input) && s.prompt == tokenized.prompt && s.response.ids != []
    && s.input.ids <= tokenized.input.ids && s.input.lossMask <= tokenized.input.lossMask
    && s.input.logprobs <= tokenized.input.logprobs
    && |s.input.ids| == Min(|tokenized.input.ids|, |tokenized.prompt.ids| + setup.maxResponseLen)
  }

  lemma BuildCuts(tokenized: SampleData, setup: Setup) returns (s: SampleData)
    requires ReadyToBuild(tokenized, setup) && setup.maxResponseLen > 0
    ensures BuildSample(tokenized, setup) == Ok(s) && CutFrom(s, tokenized, setup)
  {
    TruncateKeepsPlain(tokenized, setup);
    s := BuildSample(tokenized, setup).value;
    SampleLength(tokenized, setup);
  }

  /** What the constructor of a sample may rely on. */
  ghost predicate ReadyToBuild(tokenized: SampleData, setup: Setup) {
    && LosslessSplit(tokenized, setup) && Aligned(tokenized.prompt) && Aligned(tokenized.response)
    && PlainPositions(tokenized.input) && tokenized.response.ids != []
  }

  lemma ReadyAt(timeline: seq<Message>, setup: Setup, at: nat) returns (tokenized: SampleData)
    requires Reached(timeline, setup, at)
    ensures TokenizeSteps(timeline, setup) == Ok(tokenized) && ReadyToBuild(tokenized, setup)
  {
    ResponseStartsTrained(timeline, setup, at);
    tokenized := TokenizeSteps(timeline, setup).value;
    SplitIsLossless(timeline, setup);
  }

  lemma BuiltAt(timeline: seq<Message>, setup: Setup, at: nat) returns (tokenized: SampleData, s: SampleData)
    requires Reached(timeline, setup, at) && setup.maxResponseLen > 0
    ensures Built(timeline, setup, tokenized, s) && CutFrom(s, tokenized, setup)
  {
    tokenized := ReadyAt(timeline, setup, at);
    s := BuildCuts(tokenized, setup);
  }

  /** The sample holds as much of the timeline as what it was cut from. */
  lemma SampleHolds(timeline: seq<Message>, setup: Setup, tokenized: SampleData, s: SampleData)
    requires KeptFit(timeline) && TokenizeSteps(timeline, setup) == Ok(tokenized) && CutFrom(s, tokenized, setup)
    ensures HoldTimeline(s.input, timeline, setup)
    ensures |s.input.ids| == Min(Start(timeline, Kept(timeline)), |s.prompt.ids| + setup.maxResponseLen)
  {
    TokenizedTimeline(timeline, setup);
    PrefixHolds(tokenized.input, s.input, timeline, setup);
  }

  lemma PromptIsThere(timeline: seq<Message>, setup: Setup, j: nat, k: nat, tokenized: SampleData)
    requires KeptFit(timeline) && Trainable(timeline, setup, j, k) && BeginsUntrained(timeline, setup) && setup.maxPromptLen > 0
    requires TokenizeSteps(timeline, setup) == Ok(tokenized) && PromptEnds(timeline, setup, |tokenized.prompt.ids|)
    ensures tokenized.prompt.ids != []
  {
  }

  lemma CutIsAcceptable(tokenized: SampleData, s: SampleData, setup: Setup)
    requires CutFrom(s, tokenized, setup) && tokenized.prompt.ids != []
    ensures Acceptable(s, setup)
  {
  }

  /** The sample of such a timeline: it is built, passes the checks of the batch, holds the timeline up to the response limit, and its
      prompt ends where training starts, or at its limit. */
  lemma TimelineToSample(timeline: seq<Message>, setup: Setup, j: nat, k: nat) returns (tokenized: SampleData, s: SampleData)
    requires KeptFit(timeline) && Trainable(timeline, setup, j, k) && BeginsUntrained(timeline, setup)
    requires setup.maxPromptLen > 0 && setup.maxResponseLen > 0
    ensures Built(timeline, setup, tokenized, s)
    ensures WellFormed(s, setup) && Acceptable(s, setup) && PlainPositions(s.input) && HoldTimeline(s.input, timeline, setup)
    ensures |s.input.ids| == Min(Start(timeline, Kept(timeline)), |s.prompt.ids| + setup.maxResponseLen)
    ensures PromptEnds(timeline, setup, |s.prompt.ids|)
  {
    TrainableIsTrainedAt(timeline, setup, j, k);
    tokenized, s := BuiltAt(timeline, setup, Start(timeline, j) + k);
    PromptOfTimeline(timeline, setup, j, k);
    SampleHolds(timeline, setup, tokenized, s);
    PromptIsThere(timeline, setup, j, k, tokenized);
    CutIsAcceptable(tokenized, s, setup);
  }

  function Min(a: int, b: int): int {
    if a < b then a else b
  }

  lemma SampleLength(tokenized: SampleData, setup: Setup)
    requires LosslessSplit(tokenized, setup) && Aligned(tokenized.prompt) && Aligned(tokenized.response)
    requires BuildSample(tokenized, setup).Ok?
    ensures |BuildSample(tokenized, setup).value.input.ids| == Min(|tokenized.input.ids|, |tokenized.prompt.ids| + setup.maxResponseLen)
  {
    TruncateIsIdempotent(tokenized, setup);
    assert tokenized.input.ids == tokenized.prompt.ids + tokenized.response.ids;
  }

  /** If token `k` of message `j` is among the first `count` of the timeline, the row holds it `from` places on: attended, trained exactly if
      it should be, and, in the response, with its own log-probability. */
  ghost predicate RowHoldsToken(row: Row, from: int, count: nat, timeline: seq<Message>, j: nat, k: nat, setup: Setup)
    requires KeptFit(timeline) && j < Kept(timeline) && k < |timeline[j].tokens|
    requires |row.ids| == |row.attention| == |row.positions| == |row.lossMask| == setup.maxPromptLen + |row.responseLogprobs|
  {
    var at, m := Start(timeline, j) + k, timeline[j];
    var q := from + at;
    at < count ==>
      && 0 <= q < |row.ids| && row.ids[q] == m.tokens[k] && row.attention[q] == 1 && row.positions[q] == at
      && row.lossMask[q] == (if Trained(m, setup, k) then 1 else 0)
      && (q >= setup.maxPromptLen ==>
            row.responseLogprobs[q - setup.maxPromptLen] == if m.logprobs == [] then 0.0 else m.logprobs[k])
  }

  /** The row holds the first `count` tokens of the timeline from place `from` on and is neither attended nor trained elsewhere. */
  ghost predicate RowHoldsTimeline(row: Row, from: int, count: nat, timeline: seq<Message>, setup: Setup)
    requires KeptFit(timeline)
  {
    && |row.ids| == |row.attention| == |row.positions| == |row.lossMask| == setup.maxPromptLen + |row.responseLogprobs|
    && (forall j, k :: 0 <= j < Kept(timeline) && 0 <= k < |timeline[j].tokens| ==> RowHoldsToken(row, from, count, timeline, j, k, setup))
    && (forall q :: 0 <= q < |row.attention| && !(from <= q < from + count) ==> row.attention[q] == 0 && row.lossMask[q] == 0)
  }

  lemma RowOfTimeline(row: Row, s: SampleData, timeline: seq<Message>, setup: Setup, padToken: Token)
    requires RowHolds(row, s, setup, padToken) && KeptFit(timeline) && HoldTimeline(s.input, timeline, setup)
    requires |s.input.ids| <= |s.prompt.ids| + setup.maxResponseLen
    ensures RowHoldsTimeline(row, setup.maxPromptLen - |s.prompt.ids|, |s.input.ids|, timeline, setup)
  {
    var from, count := setup.maxPromptLen - |s.prompt.ids|, |s.input.ids|;
    forall j, k | 0 <= j < Kept(timeline) && 0 <= k < |timeline[j].tokens|
      ensures RowHoldsToken(row, from, count, timeline, j, k, setup)
    {
      assert HoldsToken(s.input, timeline, j, k, setup);
      if Start(timeline, j) + k < count {
        assert PlaceHolds(row, s, setup, from + (Start(timeline, j) + k), padToken);
      }
    }
    forall q | 0 <= q < |row.attention| && !(from <= q < from + count)
      ensures row.attention[q] == 0 && row.lossMask[q] == 0
    {
      assert PlaceHolds(row, s, setup, q, padToken);
    }
  }

  /** From LLM output to training tensor: a timeline with a trained token in reach becomes a sample and a row.  The row holds the tokens of
      the messages that count, in order and up to the response limit, each with its own mask and log-probability; nothing else is
      attended or trained, and the whole step reward stands on the last token. */
  lemma TimelineToRow(timeline: seq<Message>, setup: Setup, j: nat, k: nat, padToken: Token, reward: real)
    returns (tokenized: SampleData, s: SampleData)
    requires KeptFit(timeline) && Trainable(timeline, setup, j, k) && BeginsUntrained(timeline, setup)
    requires setup.maxPromptLen > 0 && setup.maxResponseLen > 0
    ensures Built(timeline, setup, tokenized, s) && Acceptable(s, setup)
    ensures var row, from, count := RowOf(s, setup, padToken), setup.maxPromptLen - |s.prompt.ids|, |s.input.ids|;
      && count == Min(Start(timeline, Kept(timeline)), |s.prompt.ids| + setup.maxResponseLen) && PromptEnds(timeline, setup, |s.prompt.ids|)
      && RowHoldsTimeline(row, from, count, timeline, setup)
      && |row.prompts| <= |row.attention| && RewardStandsAt(row, from + count - 1, reward, setup)
  {
    tokenized, s := TimelineToSample(timeline, setup, j, k);
    var row := RowOf(s, setup, padToken);
    RowPlaces(s, setup, padToken);
    RowOfTimeline(row, s, timeline, setup, padToken);
    RewardIsConserved(s, setup, padToken, reward);
    assert |s.input.ids| == |s.prompt.ids| + |s.response.ids|;
  }

  /** The token rewards of the row are zero but at place `q`, where the whole reward stands. */
  ghost predicate RewardStandsAt(row: Row, q: int, reward: real, setup: Setup)
    requires |row.prompts| <= |row.attention|
  {
    var rewards := TokenRewards(ResponseLength(row), reward, setup.maxResponseLen);
    && setup.maxPromptLen <= q < setup.maxPromptLen + |rewards| && Sum(rewards) == reward
    && forall i :: 0 <= i < |rewards| ==> rewards[i] == if i == q - setup.maxPromptLen then reward else 0.0
  }
}
