/** From samples to the padded batch, and from scalar rewards to token rewards: `samples_to_dataproto` and
`trajectories_to_samples` of ajet/task_rollout/native_parallel_worker.py, `parse_reward_from_dataproto` of
ajet/backbone/trainer_verl.py. */
module BatchTensors {
  import opened PyList
  import opened LossMask
  import opened Samples
  import opened TaskGroups

  // ----- Padding -----

  function PadLeft<T>(xs: seq<T>, width: nat, pad: T): (r: seq<T>)
    ensures |r| == if |xs| < width then width else |xs|
  {
    Repeat(pad, width - |xs|) + xs
  }

  function PadRight<T>(xs: seq<T>, width: nat, pad: T): (r: seq<T>)
    ensures |r| == if |xs| < width then width else |xs|
  {
    xs + Repeat(pad, width - |xs|)
  }

  /** Padding to the longest of the batch and then to the configured width is one padding to that width. */
  lemma PadTwice<T>(xs: seq<T>, widest: nat, width: nat, pad: T)
    requires |xs| <= widest <= width
    ensures PadLeft(PadLeft(xs, widest, pad), width, pad) == PadLeft(xs, width, pad)
    ensures PadRight(PadRight(xs, widest, pad), width, pad) == PadRight(xs, width, pad)
  {
  }

  /** One row of the batch; `prompts` and `responses` are kept beside their concatenation `ids`. */
  datatype Row = Row(
    prompts: seq<Token>, responses: seq<Token>, ids: seq<Token>, attention: seq<int>, positions: seq<int>,
    lossMask: seq<int>, responseLogprobs: seq<LogProb>)

  /** `prompt_position_ids[:, -1:] + arange(1, width + 1)` */
  function ResponsePositions(promptPositions: seq<int>, width: nat): seq<int>
    requires promptPositions != []
  {
    seq(width, i => promptPositions[|promptPositions| - 1] + (i + 1))
  }

  /** The checks made on each sample before it is padded. */
  predicate Acceptable(s: SampleData, setup: Setup) {
    && |s.input.ids| == |s.input.attention| == |s.input.positions| == |s.input.lossMask|
    && |s.prompt.ids| <= setup.maxPromptLen && |s.response.ids| <= setup.maxResponseLen
    && s.prompt.ids != [] && s.response.ids != []
  }

  function RowOf(s: SampleData, setup: Setup, padToken: Token): Row
    requires Acceptable(s, setup)
  {
    var p, r := setup.maxPromptLen, setup.maxResponseLen;
    var prompts, responses := PadLeft(s.prompt.ids, p, padToken), PadRight(s.response.ids, r, padToken);
    var promptPositions := PadLeft(s.prompt.positions, p, 0);
    Row(prompts, responses, prompts + responses,
        PadLeft(s.prompt.attention, p, 0) + PadRight(s.response.attention, r, 0),
        promptPositions + ResponsePositions(promptPositions, r),
        PadLeft(s.prompt.lossMask, p, 0) + PadRight(s.response.lossMask, r, 0),
        PadRight(s.response.logprobs, r, NO_LOGPROB))
  }

  /** The first sample that fails a check stops the whole batch, and an empty batch cannot be padded.  That the arrays of a sample's
      parts have one length is asserted when the sample is made. */
  method SamplesToRows(samples: seq<SampleData>, setup: Setup, padToken: Token) returns (rows: Option<seq<Row>>)
    requires forall s :: s in samples ==> Aligned(s.prompt) && Aligned(s.response)
    ensures rows.Some? <==> samples != [] && forall s :: s in samples ==> Acceptable(s, setup)
    ensures rows.Some? ==> |rows.value| == |samples|
    ensures rows.Some? ==> forall i :: 0 <= i < |samples| ==> Acceptable(samples[i], setup) && rows.value[i] == RowOf(samples[i], setup, padToken)
    ensures rows.Some? ==> forall i :: 0 <= i < |samples| && WellFormed(samples[i], setup) && PlainPositions(samples[i].input) ==>
      RowHolds(rows.value[i], samples[i], setup, padToken)
  {
    var widestPrompt, widestResponse := 0, 0;
    for i := 0 to |samples|
      invariant widestPrompt <= setup.maxPromptLen && widestResponse <= setup.maxResponseLen
      invariant forall k :: 0 <= k < i ==> Acceptable(samples[k], setup)
      invariant forall k :: 0 <= k < i ==> |samples[k].prompt.ids| <= widestPrompt
      invariant forall k :: 0 <= k < i ==> |samples[k].response.ids| <= widestResponse
    {
      if !Acceptable(samples[i], setup) {
        assert samples[i] in samples;
        return None;
      }
      if |samples[i].prompt.ids| > widestPrompt {
        widestPrompt := |samples[i].prompt.ids|;
      }
      if |samples[i].response.ids| > widestResponse {
        widestResponse := |samples[i].response.ids|;
      }
    }
    if samples == [] {
      return None;
    }
    var done: seq<Row> := [];
    for i := 0 to |samples|
      invariant |done| == i && forall k :: 0 <= k < i ==> done[k] == RowOf(samples[k], setup, padToken)
    {
      assert samples[i] in samples;
      var row := PadRow(samples[i], setup, padToken, widestPrompt, widestResponse);
      done := done + [row];
    }
    forall i | 0 <= i < |samples| && WellFormed(samples[i], setup) && PlainPositions(samples[i].input)
      ensures RowHolds(done[i], samples[i], setup, padToken)
    {
      RowPlaces(samples[i], setup, padToken);
    }
    return Some(done);
  }

  /** The two paddings of one row, first to the widest sample of the batch and then to the configured width. */
  method PadRow(s: SampleData, setup: Setup, padToken: Token, widestPrompt: nat, widestResponse: nat) returns (row: Row)
    requires Acceptable(s, setup) && Aligned(s.prompt) && Aligned(s.response)
    requires |s.prompt.ids| <= widestPrompt <= setup.maxPromptLen
    requires |s.response.ids| <= widestResponse <= setup.maxResponseLen
    ensures row == RowOf(s, setup, padToken)
  {
    var p, r := setup.maxPromptLen, setup.maxResponseLen;
    PadTwice(s.prompt.ids, widestPrompt, p, padToken);
    PadTwice(s.prompt.attention, widestPrompt, p, 0);
    PadTwice(s.prompt.positions, widestPrompt, p, 0);
    PadTwice(s.prompt.lossMask, widestPrompt, p, 0);
    PadTwice(s.response.ids, widestResponse, r, padToken);
    PadTwice(s.response.attention, widestResponse, r, 0);
    PadTwice(s.response.lossMask, widestResponse, r, 0);
    PadTwice(s.response.logprobs, widestResponse, r, NO_LOGPROB);
    var prompts := PadLeft(PadLeft(s.prompt.ids, widestPrompt, padToken), p, padToken);
    var responses := PadRight(PadRight(s.response.ids, widestResponse, padToken), r, padToken);
    var promptPositions := PadLeft(PadLeft(s.prompt.positions, widestPrompt, 0), p, 0);
    row := Row(
      prompts, responses, prompts + responses,
      PadLeft(PadLeft(s.prompt.attention, widestPrompt, 0), p, 0)
        + PadRight(PadRight(s.response.attention, widestResponse, 0), r, 0),
      promptPositions + ResponsePositions(promptPositions, r),
      PadLeft(PadLeft(s.prompt.lossMask, widestPrompt, 0), p, 0)
        + PadRight(PadRight(s.response.lossMask, widestResponse, 0), r, 0),
      PadRight(PadRight(s.response.logprobs, widestResponse, NO_LOGPROB), r, NO_LOGPROB));
  }

  // ----- Padding loses nothing -----

  /** The entries of `values` at the attended positions. */
  function Attended<T>(values: seq<T>, attention: seq<int>): seq<T>
    requires |values| == |attention|
  {
    if values == [] then []
    else (if attention[0] == 1 then [values[0]] else []) + Attended(values[1..], attention[1..])
  }

  lemma {:induction false} AttendedConcat<T>(v: seq<T>, w: seq<T>, a: seq<int>, b: seq<int>)
    requires |v| == |a| && |w| == |b|
    ensures Attended(v + w, a + b) == Attended(v, a) + Attended(w, b)
  {
    if v == [] {
      assert v + w == w && a + b == b;
    } else {
      AttendedConcat(v[1..], w, a[1..], b);
      AttendedStep(v, w, a, b, Attended(v[1..], a[1..]), Attended(w, b));
    }
  }

  lemma AttendedStep<T>(v: seq<T>, w: seq<T>, a: seq<int>, b: seq<int>, x: seq<T>, y: seq<T>)
    requires |v| == |a| && |w| == |b| && v != [] && Attended(v[1..] + w, a[1..] + b) == x + y
    ensures Attended(v + w, a + b) == (if a[0] == 1 then [v[0]] else []) + x + y
  {
    assert (v + w)[0] == v[0] && (a + b)[0] == a[0];
    assert (v + w)[1..] == v[1..] + w && (a + b)[1..] == a[1..] + b;
  }

  lemma {:induction false} AttendedAll<T>(v: seq<T>, a: seq<int>)
    requires |v| == |a| && forall i :: 0 <= i < |a| ==> a[i] == 1
    ensures Attended(v, a) == v
  {
    if v != [] {
      AttendedAll(v[1..], a[1..]);
    }
  }

  lemma {:induction false} AttendedNone<T>(v: seq<T>, a: seq<int>)
    requires |v| == |a| && forall i :: 0 <= i < |a| ==> a[i] == 0
    ensures Attended(v, a) == []
  {
    if v != [] {
      AttendedNone(v[1..], a[1..]);
    }
  }

  /** Values padded on the outer sides of prompt and response are found again at the attended positions, whatever
      stands in the padding. */
  lemma AttendedOfPadded<T>(
    left: seq<T>, prompt: seq<T>, response: seq<T>, right: seq<T>, promptAttention: seq<int>, responseAttention: seq<int>,
    row: seq<T>, attention: seq<int>)
    requires |prompt| == |promptAttention| && |response| == |responseAttention|
    requires forall i :: 0 <= i < |promptAttention| ==> promptAttention[i] == 1
    requires forall i :: 0 <= i < |responseAttention| ==> responseAttention[i] == 1
    requires row == (left + prompt) + (response + right)
    requires attention == (Repeat(0, |left|) + promptAttention) + (responseAttention + Repeat(0, |right|))
    ensures Attended(row, attention) == prompt + response
  {
    AttendedBehindPadding(left, prompt, promptAttention);
    AttendedBeforePadding(response, right, responseAttention);
    AttendedHalves(left + prompt, response + right, Repeat(0, |left|) + promptAttention,
                   responseAttention + Repeat(0, |right|), prompt, response);
  }

  lemma AttendedHalves<T>(v: seq<T>, w: seq<T>, a: seq<int>, b: seq<int>, p: seq<T>, r: seq<T>)
    requires |v| == |a| && |w| == |b|
    requires Attended(v, a) == p && Attended(w, b) == r
    ensures Attended(v + w, a + b) == p + r
  {
    AttendedConcat(v, w, a, b);
  }

  lemma AttendedBehindPadding<T>(left: seq<T>, v: seq<T>, a: seq<int>)
    requires |v| == |a| && forall i :: 0 <= i < |a| ==> a[i] == 1
    ensures Attended(left + v, Repeat(0, |left|) + a) == v
  {
    AttendedConcat(left, v, Repeat(0, |left|), a);
    AttendedNone(left, Repeat(0, |left|));
    AttendedAll(v, a);
  }

  lemma AttendedBeforePadding<T>(v: seq<T>, right: seq<T>, a: seq<int>)
    requires |v| == |a| && forall i :: 0 <= i < |a| ==> a[i] == 1
    ensures Attended(v + right, a + Repeat(0, |right|)) == v
  {
    AttendedConcat(v, right, a, Repeat(0, |right|));
    AttendedNone(right, Repeat(0, |right|));
    AttendedAll(v, a);
  }

  /** Round trip: reading a padded row at its attended positions gives the sample back: its tokens, its loss mask and, although
      the response positions were recomputed, its positions. */
  lemma PaddingIsLossless(s: SampleData, setup: Setup, padToken: Token)
    requires WellFormed(s, setup) && Acceptable(s, setup) && PlainPositions(s.input)
    ensures var row := RowOf(s, setup, padToken);
      && |row.ids| == |row.attention| == |row.positions| == |row.lossMask| == setup.maxPromptLen + setup.maxResponseLen
      && Attended(row.ids, row.attention) == s.input.ids
      && Attended(row.lossMask, row.attention) == s.input.lossMask
      && Attended(row.positions, row.attention) == s.input.positions
      && |row.prompts| == setup.maxPromptLen && |row.responses| == |row.responseLogprobs| == setup.maxResponseLen
      && Attended(row.prompts, row.attention[..setup.maxPromptLen]) == s.prompt.ids
      && Attended(row.responses, row.attention[setup.maxPromptLen..]) == s.response.ids
      && Attended(row.responseLogprobs, row.attention[setup.maxPromptLen..]) == s.response.logprobs
  {
    var row := RowOf(s, setup, padToken);
    var before, after := setup.maxPromptLen - |s.prompt.ids|, setup.maxResponseLen - |s.response.ids|;
    var p, r := s.prompt, s.response;
    assert forall i :: 0 <= i < |p.attention| ==> p.attention[i] == s.input.attention[i];
    assert forall i :: 0 <= i < |r.attention| ==> r.attention[i] == s.input.attention[|p.ids| + i];
    AttendedOfPadded(Repeat(padToken, before), p.ids, r.ids, Repeat(padToken, after), p.attention, r.attention,
                     row.ids, row.attention);
    AttendedOfPadded(Repeat(0, before), p.lossMask, r.lossMask, Repeat(0, after), p.attention, r.attention,
                     row.lossMask, row.attention);
    var promptPositions := PadLeft(p.positions, setup.maxPromptLen, 0);
    var recomputed := ResponsePositions(promptPositions, setup.maxResponseLen);
    assert recomputed[..|r.ids|] == r.positions by {
      RecomputedPositions(s, setup);
    }
    assert recomputed == r.positions + recomputed[|r.ids|..];
    AttendedOfPadded(Repeat(0, before), p.positions, r.positions, recomputed[|r.ids|..], p.attention, r.attention,
                     row.positions, row.attention);
    FieldsAreLossless(s, setup, padToken);
  }

  /** Prompt, response and log-probabilities, each read back from its own field. */
  lemma FieldsAreLossless(s: SampleData, setup: Setup, padToken: Token)
    requires WellFormed(s, setup) && Acceptable(s, setup) && PlainPositions(s.input)
    ensures var row, width := RowOf(s, setup, padToken), setup.maxPromptLen;
      && |row.prompts| == width <= |row.attention| && |row.responses| == |row.responseLogprobs| == |row.attention| - width
      && Attended(row.prompts, row.attention[..width]) == s.prompt.ids
      && Attended(row.responses, row.attention[width..]) == s.response.ids
      && Attended(row.responseLogprobs, row.attention[width..]) == s.response.logprobs
  {
    var row, width := RowOf(s, setup, padToken), setup.maxPromptLen;
    var before, after := width - |s.prompt.ids|, setup.maxResponseLen - |s.response.ids|;
    assert row.attention[..width] == Repeat(0, before) + s.prompt.attention;
    assert row.attention[width..] == s.response.attention + Repeat(0, after);
    assert forall i :: 0 <= i < |s.prompt.attention| ==> s.prompt.attention[i] == s.input.attention[i];
    assert forall i :: 0 <= i < |s.response.attention| ==> s.response.attention[i] == s.input.attention[|s.prompt.ids| + i];
    AttendedBehindPadding(Repeat(padToken, before), s.prompt.ids, s.prompt.attention);
    AttendedBeforePadding(s.response.ids, Repeat(padToken, after), s.response.attention);
    AttendedBeforePadding(s.response.logprobs, Repeat(NO_LOGPROB, after), s.response.attention);
  }

  lemma RecomputedPositions(s: SampleData, setup: Setup)
    requires WellFormed(s, setup) && Acceptable(s, setup) && PlainPositions(s.input)
    ensures forall i :: 0 <= i < |s.response.ids| ==>
      ResponsePositions(PadLeft(s.prompt.positions, setup.maxPromptLen, 0), setup.maxResponseLen)[i] == s.response.positions[i]
  {
    var n := |s.prompt.ids|;
    assert s.prompt.positions[n - 1] == s.input.positions[n - 1] == n - 1;
    forall i | 0 <= i < |s.response.ids|
      ensures s.response.positions[i] == n + i
    {
      assert s.response.positions[i] == s.input.positions[n + i];
    }
  }

  // ----- Token rewards -----

  /** `attention_mask[:, prompt_len:].sum()` */
  function ResponseLength(row: Row): int
    requires |row.prompts| <= |row.attention|
  {
    SumInts(row.attention[|row.prompts|..])
  }

  /** A row of zeros with the reward at index `length - 1`; index -1 is the last entry. */
  function TokenRewards(length: int, reward: real, width: nat): seq<real> {
    seq(width, i => if i == (if length - 1 < 0 then length - 1 + width else length - 1) then reward else 0.0)
  }

  method ParseRewards(rows: seq<Row>, scores: seq<real>, width: nat) returns (rewards: array2<real>)
    requires |scores| == |rows|
    requires forall k :: 0 <= k < |rows| ==> |rows[k].prompts| <= |rows[k].attention|
    requires forall k :: 0 <= k < |rows| ==> 1 - width < ResponseLength(rows[k]) <= width
    ensures fresh(rewards) && rewards.Length0 == |rows| && rewards.Length1 == width
    ensures forall i, j :: 0 <= i < |rows| && 0 <= j < width ==>
      rewards[i, j] == TokenRewards(ResponseLength(rows[i]), scores[i], width)[j]
  {
    rewards := new real[|rows|, width]((i, j) => 0.0);
    for i := 0 to |rows|
      invariant forall a, j :: 0 <= a < |rows| && 0 <= j < width ==>
        rewards[a, j] == if a < i then TokenRewards(ResponseLength(rows[a]), scores[a], width)[j] else 0.0
    {
      var at := ResponseLength(rows[i]) - 1;
      rewards[i, if at < 0 then at + width else at] := scores[i];
    }
  }

  lemma {:induction false} SumOfOneReward(width: nat, at: nat, reward: real, n: nat)
    requires at < width && n <= width
    ensures Sum(TokenRewards(at + 1, reward, width)[..n]) == if at < n then reward else 0.0
  {
    var xs := TokenRewards(at + 1, reward, width);
    if n > 0 {
      assert xs[..n][..n - 1] == xs[..n - 1];
      SumOfOneReward(width, at, reward, n - 1);
    }
  }

  lemma {:induction false} SumIntsConcat(a: seq<int>, b: seq<int>)
    ensures SumInts(a + b) == SumInts(a) + SumInts(b)
  {
    if b == [] {
      assert a + b == a;
    } else {
      assert (a + b)[..|a + b| - 1] == a + b[..|b| - 1];
      SumIntsConcat(a, b[..|b| - 1]);
    }
  }

  lemma {:induction false} SumOfZeros(n: nat)
    ensures SumInts(Repeat(0, n)) == 0
  {
    if n > 0 {
      assert Repeat(0, n)[..n - 1] == Repeat(0, n - 1);
      SumOfZeros(n - 1);
    }
  }

  lemma ResponseAttention(s: SampleData, setup: Setup, padToken: Token)
    requires WellFormed(s, setup) && Acceptable(s, setup) && PlainPositions(s.input)
    ensures var row, n := RowOf(s, setup, padToken), |s.response.ids|;
      row.attention[|row.prompts|..] == Repeat(1, n) + Repeat(0, setup.maxResponseLen - n)
  {
    var n := |s.response.ids|;
    assert forall i :: 0 <= i < n ==> s.response.attention[i] == s.input.attention[|s.prompt.ids| + i] == 1;
    assert s.response.attention == Repeat(1, n);
  }

  lemma AttentionEnds(attention: seq<int>, at: nat, n: nat, width: nat)
    requires at <= |attention| && 0 < n <= width && attention[at..] == Repeat(1, n) + Repeat(0, width - n)
    ensures at + n - 1 < |attention| && attention[at + n - 1] == 1
    ensures forall i :: at + n - 1 < i < |attention| ==> attention[i] == 0
  {
    assert forall i :: at <= i < |attention| ==> attention[i] == attention[at..][i - at];
  }

  lemma ResponseIsAttended(row: Row, n: nat, width: nat)
    requires n <= width && |row.prompts| <= |row.attention|
    requires row.attention[|row.prompts|..] == Repeat(1, n) + Repeat(0, width - n)
    ensures ResponseLength(row) == n
  {
    SumIntsConcat(Repeat(1, n), Repeat(0, width - n));
    SumOfOnes(n);
    SumOfZeros(width - n);
  }

  /** Conservation: the token rewards of a row sum to the sample's reward, which stands on the last real response token. */
  lemma RewardIsConserved(s: SampleData, setup: Setup, padToken: Token, reward: real)
    requires WellFormed(s, setup) && Acceptable(s, setup) && PlainPositions(s.input)
    ensures var row := RowOf(s, setup, padToken);
      var rewards := TokenRewards(ResponseLength(row), reward, setup.maxResponseLen);
      var last := |s.response.ids| - 1;
      && Sum(rewards) == reward
      && rewards[last] == reward && row.responses[last] == s.response.ids[last]
      && row.attention[|row.prompts| + last] == 1
      && (forall i :: |row.prompts| + last < i < |row.attention| ==> row.attention[i] == 0)
      && (forall i :: 0 <= i < setup.maxResponseLen && i != last ==> rewards[i] == 0.0)
  {
    var row := RowOf(s, setup, padToken);
    var n, width := |s.response.ids|, setup.maxResponseLen;
    ResponseAttention(s, setup, padToken);
    ResponseIsAttended(row, n, width);
    RewardOnOneToken(n, width, reward);
    AttentionEnds(row.attention, |row.prompts|, n, width);
  }

  lemma RewardOnOneToken(n: nat, width: nat, reward: real)
    requires 0 < n <= width
    ensures var rewards := TokenRewards(n, reward, width);
      && |rewards| == width && Sum(rewards) == reward && rewards[n - 1] == reward
      && forall i :: 0 <= i < width && i != n - 1 ==> rewards[i] == 0.0
  {
    var rewards := TokenRewards(n, reward, width);
    assert rewards[..width] == rewards;
    SumOfOneReward(width, n - 1, reward, width);
  }

  // ----- From the timeline to the row -----

  /** A sample built from a timeline passes the checks exactly when the prompt limit is not zero and the first token is not trained. */
  lemma BuiltSampleIsAcceptableIff(timeline: seq<Message>, setup: Setup, k: nat)
    requires Usable(timeline) && LogprobsFit(WithoutTrailing(timeline)) && setup.maxResponseLen >= 1 && TrainedAt(timeline, setup, k)
    ensures TokenizeSteps(timeline, setup).Ok? && BuildSample(TokenizeSteps(timeline, setup).value, setup).Ok?
    ensures Acceptable(BuildSample(TokenizeSteps(timeline, setup).value, setup).value, setup)
      <==> setup.maxPromptLen > 0 && AllMask(WithoutTrailing(timeline), setup)[0] == 0
  {
    SampleIsBuilt(timeline, setup, k);
    PromptIsThereIff(timeline, setup, k);
  }

  /** The row of a sample, place by place: the sample's tokens stand from `maxPromptLen - |prompt|` on, attended, each with its mask,
      its position and, in the response, its log-probability; everything else is padding, neither attended nor trained. */
  ghost predicate RowHolds(row: Row, s: SampleData, setup: Setup, padToken: Token) {
    var p, r := setup.maxPromptLen, setup.maxResponseLen;
    && |row.prompts| == p && |row.responses| == |row.responseLogprobs| == r
    && row.ids == row.prompts + row.responses
    && |row.ids| == |row.attention| == |row.positions| == |row.lossMask| == p + r
    && |s.prompt.ids| <= p && Aligned(s.input)
    && forall q :: 0 <= q < p + r ==> PlaceHolds(row, s, setup, q, padToken)
  }

  /** Place `q` of the row holds a token of the sample, or padding when the sample has none for it. */
  ghost predicate PlaceHolds(row: Row, s: SampleData, setup: Setup, q: int, padToken: Token)
    requires Aligned(s.input) && 0 <= q < |row.ids| && |row.ids| == |row.attention| == |row.positions| == |row.lossMask|
    requires |row.ids| == setup.maxPromptLen + |row.responseLogprobs|
  {
    var p := setup.maxPromptLen;
    var g := q - (p - |s.prompt.ids|);
    if 0 <= g < |s.input.ids| then
      && row.ids[q] == s.input.ids[g] && row.attention[q] == 1 && row.lossMask[q] == s.input.lossMask[g]
      && row.positions[q] == s.input.positions[g] && (q >= p ==> row.responseLogprobs[q - p] == s.input.logprobs[g])
    else
      && row.ids[q] == padToken && row.attention[q] == 0 && row.lossMask[q] == 0
      && (q >= p ==> row.responseLogprobs[q - p] == 0.0)
  }

  lemma RowPlaces(s: SampleData, setup: Setup, padToken: Token)
    requires WellFormed(s, setup) && Acceptable(s, setup) && PlainPositions(s.input)
    ensures RowHolds(RowOf(s, setup, padToken), s, setup, padToken)
  {
    RecomputedPositions(s, setup);
    forall q | 0 <= q < setup.maxPromptLen + setup.maxResponseLen
      ensures PlaceHolds(RowOf(s, setup, padToken), s, setup, q, padToken)
    {
      if q < setup.maxPromptLen {
        PromptPlace(s, setup, padToken, q);
      } else {
        ResponsePlace(s, setup, padToken, q - setup.maxPromptLen);
      }
    }
  }

  lemma PromptPlace(s: SampleData, setup: Setup, padToken: Token, q: nat)
    requires WellFormed(s, setup) && Acceptable(s, setup) && PlainPositions(s.input) && q < setup.maxPromptLen
    ensures PlaceHolds(RowOf(s, setup, padToken), s, setup, q, padToken)
  {
    var g := q - (setup.maxPromptLen - |s.prompt.ids|);
    if g >= 0 {
      assert s.input.ids[g] == s.prompt.ids[g] && s.input.attention[g] == s.prompt.attention[g];
      assert s.input.positions[g] == s.prompt.positions[g] && s.input.lossMask[g] == s.prompt.lossMask[g];
    }
  }

  lemma ResponsePlace(s: SampleData, setup: Setup, padToken: Token, i: nat)
    requires WellFormed(s, setup) && Acceptable(s, setup) && PlainPositions(s.input) && i < setup.maxResponseLen
    requires forall i :: 0 <= i < |s.response.ids| ==>
      ResponsePositions(PadLeft(s.prompt.positions, setup.maxPromptLen, 0), setup.maxResponseLen)[i] == s.response.positions[i]
    ensures PlaceHolds(RowOf(s, setup, padToken), s, setup, setup.maxPromptLen + i, padToken)
  {
    var g := i + |s.prompt.ids|;
    if i < |s.response.ids| {
      assert s.input.ids[g] == s.response.ids[i] && s.input.attention[g] == s.response.attention[i];
      assert s.input.positions[g] == s.response.positions[i] && s.input.lossMask[g] == s.response.lossMask[i];
      assert s.input.logprobs[g] == s.response.logprobs[i];
    }
  }

  // ----- Dropping the remainder -----

  /** The entries whose index is not in `removed`, in order. */
  function Without<T>(xs: seq<T>, removed: set<nat>): seq<T> {
    if xs == [] then []
    else Without(xs[..|xs| - 1], removed) + (if |xs| - 1 in removed then [] else [xs[|xs| - 1]])
  }

  ghost predicate Descending(indices: seq<nat>) {
    forall i, j :: 0 <= i < j < |indices| ==> indices[i] > indices[j]
  }

  lemma {:induction false} WithoutNone<T>(xs: seq<T>, removed: set<nat>)
    requires forall i: nat :: i < |xs| ==> i !in removed
    ensures Without(xs, removed) == xs
  {
    if xs != [] {
      WithoutNone(xs[..|xs| - 1], removed);
    }
  }

  /** Popping one index below all those already removed leaves the indices still to come in place. */
  lemma {:induction false} PopOne<T>(xs: seq<T>, at: nat, removed: set<nat>)
    requires at < |xs| && at !in removed && forall i :: i in removed ==> i > at
    ensures at < |Without(xs, removed)| && Without(xs, removed)[..at] == xs[..at]
    ensures Without(xs, removed)[..at] + Without(xs, removed)[at + 1..] == Without(xs, removed + {at})
  {
    var init := xs[..|xs| - 1];
    if at == |xs| - 1 {
      WithoutNone(init, removed);
      WithoutNone(init, removed + {at});
      assert Without(xs, removed) == init + [xs[at]];
    } else {
      PopOne(init, at, removed);
      assert init[..at] == xs[..at];
      var w := Without(init, removed);
      var last := if |xs| - 1 in removed then [] else [xs[|xs| - 1]];
      assert (w + last)[..at] + (w + last)[at + 1..] == (w[..at] + w[at + 1..]) + last;
    }
  }

  lemma {:induction false} WithoutLength<T>(xs: seq<T>, removed: set<nat>)
    requires forall i :: i in removed ==> i < |xs|
    ensures |Without(xs, removed)| == |xs| - |removed|
  {
    if xs == [] {
      assert removed == {};
    } else {
      var last := |xs| - 1;
      WithoutIgnores(xs[..last], removed, last);
      WithoutLength(xs[..last], removed - {last});
    }
  }

  lemma {:induction false} WithoutIgnores<T>(xs: seq<T>, removed: set<nat>, at: nat)
    requires at >= |xs|
    ensures Without(xs, removed) == Without(xs, removed - {at})
  {
    if xs != [] {
      WithoutIgnores(xs[..|xs| - 1], removed, at);
    }
  }

  /** The first `k` drawn indices, as a set. */
  function Members(drawn: seq<nat>, k: nat): set<nat>
    requires k <= |drawn|
  {
    if k == 0 then {} else Members(drawn, k - 1) + {drawn[k - 1]}
  }

  lemma {:induction false} MembersWithin(drawn: seq<nat>, k: nat, low: int, high: int)
    requires k <= |drawn| && forall j :: 0 <= j < k ==> low < drawn[j] < high
    ensures forall i :: i in Members(drawn, k) ==> low < i < high
  {
    if k > 0 {
      MembersWithin(drawn, k - 1, low, high);
    }
  }

  lemma {:induction false} MembersCount(drawn: seq<nat>, k: nat)
    requires Descending(drawn) && k <= |drawn|
    ensures |Members(drawn, k)| == k
  {
    if k > 0 {
      MembersCount(drawn, k - 1);
      MembersWithin(drawn, k - 1, drawn[k - 1], if k > 1 then drawn[0] + 1 else 0);
    }
  }

  /** The pops of `trajectories_to_samples`: with the drawn indices sorted in descending order, each pop removes
      the sample it means.  What is left is the samples outside the draw, in order, a multiple of the world size in number. */
  method DropRemainder<T>(samples: seq<T>, worldSize: nat, drawn: seq<nat>) returns (kept: seq<T>)
    requires worldSize > 0 && |drawn| == |samples| % worldSize
    requires Descending(drawn) && forall k :: 0 <= k < |drawn| ==> drawn[k] < |samples|
    ensures kept == Without(samples, Members(drawn, |drawn|))
    ensures |kept| == |samples| - |samples| % worldSize && |kept| % worldSize == 0
  {
    kept := samples;
    WithoutNone(samples, Members(drawn, 0));
    for k := 0 to |drawn|
      invariant kept == Without(samples, Members(drawn, k))
    {
      MembersWithin(drawn, k, drawn[k], |samples|);
      PopOne(samples, drawn[k], Members(drawn, k));
      kept := kept[..drawn[k]] + kept[drawn[k] + 1..];
    }
    MembersCount(drawn, |drawn|);
    MembersWithin(drawn, |drawn|, -1, |samples|);
    WithoutLength(samples, Members(drawn, |drawn|));
    MultipleAfterRemainder(|samples|, worldSize);
  }

  lemma MultipleAfterRemainder(n: nat, w: nat)
    requires w > 0
    ensures (n - n % w) % w == 0
  {
    var q, x := n / w, n - n % w;
    assert x == w * q;
    var d := q - x / w;
    assert w * d == x % w;
    assert d >= 1 ==> w * d >= w;
    assert d <= -1 ==> w * d <= w * -1;
  }
}
