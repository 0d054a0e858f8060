/** Splicing exact tokens into a rendered message, and deriving its loss mask twice:
`replace_token_ids` of ajet/context_tracker/base_tracker.py and `get_loss_mask` of ajet/schema/extended_msg.py. */
module LossMask {
  import opened PyList

  type Token = int
  type LogProb = real

  /** INVALID_LOG_PROB_VALUE */
  const NO_LOGPROB: LogProb := 0.0

  // ----- find_sublist_indices -----

  ghost predicate OccursAt(list: seq<Token>, sub: seq<Token>, i: int) {
    0 <= i <= |list| - |sub| && list[i..i + |sub|] == sub
  }

  /** `find_sublist_indices(list, sub)`: the first place where `sub` occurs, or -1. */
  function FindFrom(list: seq<Token>, sub: seq<Token>, start: nat): (r: int)
    ensures r == -1 || (start <= r && OccursAt(list, sub, r))
    ensures forall i :: start <= i && (i < r || r == -1) ==> !OccursAt(list, sub, i)
    decreases |list| - start
  {
    if start + |sub| > |list| then -1
    else if list[start..start + |sub|] == sub then start
    else FindFrom(list, sub, start + 1)
  }

  /** `find_sublist_indices(list, sub, reverse=True)`: the last place where `sub` occurs, or -1.  The source
      falls through to the forward search when the backward one finds nothing, which finds nothing either. */
  function FindLast(list: seq<Token>, sub: seq<Token>, upTo: int): (r: int)
    requires upTo <= |list| - |sub|
    ensures r == -1 || (r <= upTo && OccursAt(list, sub, r))
    ensures forall i :: r < i <= upTo ==> !OccursAt(list, sub, i)
    decreases upTo + 1
  {
    if upTo < 0 then -1
    else if list[upTo..upTo + |sub|] == sub then upTo
    else FindLast(list, sub, upTo - 1)
  }

  method FindSublist(list: seq<Token>, sub: seq<Token>, reverse: bool) returns (r: int)
    ensures r == if reverse then FindLast(list, sub, |list| - |sub|) else FindFrom(list, sub, 0)
  {
    if reverse {
      var i := |list| - |sub|;
      while i >= 0
        invariant -1 <= i <= |list| - |sub| || (i == |list| - |sub| && i < 0)
        invariant FindLast(list, sub, |list| - |sub|) == FindLast(list, sub, i)
      {
        if list[i..i + |sub|] == sub {
          return i;
        }
        i := i - 1;
      }
    }
    var j := 0;
    while j + |sub| <= |list|
      invariant 0 <= j
      invariant FindFrom(list, sub, 0) == FindFrom(list, sub, j)
      invariant reverse ==> FindLast(list, sub, |list| - |sub|) == -1
    {
      if list[j..j + |sub|] == sub {
        assert OccursAt(list, sub, j);
        return j;
      }
      j := j + 1;
    }
    return -1;
  }

  // ----- replace_token_ids -----

  datatype Spliced =
    | Spliced(ids: seq<Token>, logprobs: seq<LogProb>, mask: seq<int>, lackNormalEos: bool)
    | UnexpectedBos

  function ReplaceTokenIds(
    container: seq<Token>, precise: seq<Token>, preciseLogprobs: seq<LogProb>,
    beginIds: seq<Token>, endIds: seq<Token>): Spliced
  {
    SpliceAt(container, precise, preciseLogprobs, beginIds, endIds,
             FindFrom(container, beginIds, 0) + |beginIds|, FindLast(container, endIds, |container| - |endIds|))
  }

  /** The splice once `_begin_index` and `_end_index` are known. */
  function SpliceAt(
    container: seq<Token>, precise: seq<Token>, preciseLogprobs: seq<LogProb>,
    beginIds: seq<Token>, endIds: seq<Token>, beginIndex: int, endIndex: int): Spliced
  {
    var normalEos := Drop(precise, -|endIds|) == endIds;
    var centre := if normalEos then Take(precise, -|endIds|) else precise;
    var centreLogprobs := if normalEos then Take(preciseLogprobs, -|endIds|) else preciseLogprobs;
    var tailLogprobs := if normalEos then Drop(preciseLogprobs, -|endIds|) else [];
    if Take(precise, |beginIds|) == beginIds then UnexpectedBos
    else
      var after := |container| - endIndex - |tailLogprobs|;
      Spliced(
        Take(container, beginIndex) + centre + Drop(container, endIndex),
        Repeat(NO_LOGPROB, beginIndex) + centreLogprobs + tailLogprobs + Repeat(NO_LOGPROB, after),
        Repeat(0, beginIndex) + Repeat(1, |centreLogprobs|) + Repeat(1, |tailLogprobs|) + Repeat(0, after),
        !normalEos)
  }

  // ----- blackout_* and get_loss_mask -----

  /** `mask[i] = 0` for every i in [from, to). */
  function Blackout(mask: seq<int>, from: int, to: int): (r: seq<int>)
    ensures |r| == |mask|
    ensures forall i :: 0 <= i < |r| ==> r[i] == if from <= i < to then 0 else mask[i]
  {
    seq(|mask|, i requires 0 <= i < |mask| => if from <= i < to then 0 else mask[i])
  }

  /** The position of the first `eos`, or the length of the list when there is none. */
  function FirstEos(tokens: seq<Token>, eos: Token): (r: nat)
    ensures r <= |tokens| && (r < |tokens| ==> tokens[r] == eos)
    ensures forall i :: 0 <= i < r ==> tokens[i] != eos
  {
    if tokens == [] || tokens[0] == eos then 0 else 1 + FirstEos(tokens[1..], eos)
  }

  function BlackoutFirst(mask: seq<int>, tokens: seq<Token>, combo: seq<Token>): (r: seq<int>)
    ensures |r| == |mask|
  {
    var at := FindFrom(tokens, combo, 0);
    if at >= 0 then Blackout(mask, at, at + |combo|) else mask
  }

  function BlackoutAfterEos(mask: seq<int>, tokens: seq<Token>, eos: Token, including: bool): (r: seq<int>)
    ensures |r| == |mask|
  {
    if eos in tokens then Blackout(mask, FirstEos(tokens, eos) + (if including then 0 else 1), |mask|) else mask
  }

  function TrainedMask(tokens: seq<Token>, combo: seq<Token>, eos: Token, lackNormalEos: bool): (r: seq<int>)
    ensures |r| == |tokens|
  {
    var afterCombo := BlackoutFirst(Repeat(1, |tokens|), tokens, combo);
    var afterEos := BlackoutAfterEos(afterCombo, tokens, eos, false);
    if lackNormalEos then BlackoutAfterEos(afterEos, tokens, eos, true) else afterEos
  }

  /** The mask written in place, as the three `blackout_*` loops of the source do. */
  method RegenerateMask(tokens: seq<Token>, combo: seq<Token>, eos: Token, lackNormalEos: bool)
    returns (mask: array<int>)
    ensures fresh(mask) && mask[..] == TrainedMask(tokens, combo, eos, lackNormalEos)
  {
    mask := new int[|tokens|](_ => 1);
    assert mask[..] == Repeat(1, |tokens|);
    var at := FindSublist(tokens, combo, false);
    if at >= 0 {
      ZeroOut(mask, at, at + |combo|);
    }
    if eos in tokens {
      var position := FirstEos(tokens, eos);
      ZeroOut(mask, position + 1, mask.Length);
      if lackNormalEos {
        ZeroOut(mask, position, mask.Length);
      }
    }
  }

  method ZeroOut(mask: array<int>, from: nat, to: nat)
    requires to <= mask.Length
    modifies mask
    ensures mask[..] == Blackout(old(mask[..]), from, to)
  {
    var i := from;
    while i < to
      invariant from <= i && (i <= to || i == from)
      invariant forall k :: 0 <= k < mask.Length ==> mask[k] == if from <= k < i then 0 else old(mask[k])
    {
      mask[i] := 0;
      i := i + 1;
    }
  }

  // ----- The two derivations agree -----

  /** A rendered assistant message: the generation prompt, then text holding an EOS. */
  ghost predicate Rendered(container: seq<Token>, beginIds: seq<Token>, eos: Token) {
    beginIds != [] && beginIds <= container && eos in container[|beginIds|..]
  }

  /** The generated tokens without the closing EOS, if they have one. */
  function Centre(precise: seq<Token>, eos: Token): seq<Token> {
    if precise != [] && precise[|precise| - 1] == eos then precise[..|precise| - 1] else precise
  }

  lemma BeginIsAtZero(list: seq<Token>, beginIds: seq<Token>)
    requires beginIds <= list
    ensures FindFrom(list, beginIds, 0) == 0
  {
    assert OccursAt(list, beginIds, 0);
  }

  lemma OccursOne(list: seq<Token>, x: Token, i: nat)
    requires i < |list|
    ensures OccursAt(list, [x], i) <==> list[i] == x
  {
    assert list[i..i + 1] == [list[i]];
  }

  lemma LastEosIsAfterBegin(container: seq<Token>, beginIds: seq<Token>, eos: Token)
    requires Rendered(container, beginIds, eos)
    ensures var at := FindLast(container, [eos], |container| - 1);
      |beginIds| <= at < |container| && container[at] == eos && eos !in container[at + 1..]
  {
    var at := FindLast(container, [eos], |container| - 1);
    var k :| 0 <= k < |container| - |beginIds| && container[|beginIds|..][k] == eos;
    OccursOne(container, eos, |beginIds| + k);
    OccursOne(container, eos, at);
    forall i | at + 1 <= i < |container|
      ensures container[i] != eos
    {
      OccursOne(container, eos, i);
    }
  }

  lemma PiecesWithEos(
    container: seq<Token>, precise: seq<Token>, lps: seq<LogProb>, beginIds: seq<Token>, eos: Token, at: nat)
    requires beginIds <= container && at <= |container| && |lps| == |precise| && !(beginIds <= precise)
    requires precise != [] && precise[|precise| - 1] == eos
    ensures SpliceAt(container, precise, lps, beginIds, [eos], |beginIds|, at) ==
      Spliced(beginIds + Centre(precise, eos) + container[at..],
              Repeat(NO_LOGPROB, |beginIds|) + lps + Repeat(NO_LOGPROB, |container| - at - 1),
              Repeat(0, |beginIds|) + Repeat(1, |precise|) + Repeat(0, |container| - at - 1), false)
  {
    var last := |precise| - 1;
    LastOne(precise);
    LastOne(lps);
    assert precise[last..] == [eos];
    assert Take(container, |beginIds|) == beginIds && Take(precise, |beginIds|) != beginIds;
    Whole(Repeat(NO_LOGPROB, |beginIds|), lps[..last], lps[last..], lps, Repeat(NO_LOGPROB, |container| - at - 1));
    assert lps == lps[..last] + lps[last..];
    assert Repeat(1, |precise|) == Repeat(1, last) + Repeat(1, 1);
    Whole(Repeat(0, |beginIds|), Repeat(1, last), Repeat(1, 1), Repeat(1, |precise|), Repeat(0, |container| - at - 1));
  }

  lemma LastOne<T>(xs: seq<T>)
    requires xs != []
    ensures Take(xs, -1) == xs[..|xs| - 1] && Drop(xs, -1) == xs[|xs| - 1..]
  {
  }

  lemma Whole<T>(before: seq<T>, x: seq<T>, y: seq<T>, xy: seq<T>, after: seq<T>)
    requires xy == x + y
    ensures before + x + y + after == before + xy + after
  {
  }

  lemma PiecesWithoutEos(
    container: seq<Token>, precise: seq<Token>, lps: seq<LogProb>, beginIds: seq<Token>, eos: Token, at: nat)
    requires beginIds <= container && at <= |container| && |lps| == |precise| && !(beginIds <= precise)
    requires precise == [] || precise[|precise| - 1] != eos
    ensures SpliceAt(container, precise, lps, beginIds, [eos], |beginIds|, at) ==
      Spliced(beginIds + precise + container[at..],
              Repeat(NO_LOGPROB, |beginIds|) + lps + Repeat(NO_LOGPROB, |container| - at),
              Repeat(0, |beginIds|) + Repeat(1, |precise|) + Repeat(0, |container| - at), true)
  {
    assert Drop(precise, -1) != [eos] by {
      if precise != [] {
        assert Drop(precise, -1)[0] == precise[|precise| - 1];
      }
    }
    assert Take(container, |beginIds|) == beginIds && Take(precise, |beginIds|) != beginIds;
    assert Repeat(1, |precise|) + Repeat(1, 0) == Repeat(1, |precise|);
    assert lps + [] == lps;
  }

  /** On a rendered message the splice keeps the generation prompt and everything from the last EOS on. */
  lemma SplicePlaces(
    container: seq<Token>, precise: seq<Token>, preciseLogprobs: seq<LogProb>, beginIds: seq<Token>, eos: Token)
    returns (at: nat)
    requires Rendered(container, beginIds, eos)
    ensures |beginIds| <= at < |container| && container[at] == eos && eos !in container[at + 1..]
    ensures ReplaceTokenIds(container, precise, preciseLogprobs, beginIds, [eos])
         == SpliceAt(container, precise, preciseLogprobs, beginIds, [eos], |beginIds|, at)
  {
    BeginIsAtZero(container, beginIds);
    LastEosIsAfterBegin(container, beginIds, eos);
    at := FindLast(container, [eos], |container| - 1);
  }

  /** The splice keeps the text around the generated tokens: the generation prompt before them, and from
      the last EOS of the rendered message on behind them; ids, log-probabilities and mask stay aligned, each
      generated token keeps its own log-probability, and exactly the generated tokens are trained. */
  lemma SpliceIsAligned(
    container: seq<Token>, precise: seq<Token>, preciseLogprobs: seq<LogProb>, beginIds: seq<Token>, eos: Token)
    returns (at: nat)
    requires Rendered(container, beginIds, eos)
    requires |preciseLogprobs| == |precise| && !(beginIds <= precise)
    ensures |beginIds| <= at < |container| && container[at] == eos && eos !in container[at + 1..]
    ensures var r := ReplaceTokenIds(container, precise, preciseLogprobs, beginIds, [eos]);
      && r.Spliced? && r.lackNormalEos == (Centre(precise, eos) == precise)
      && r.ids == beginIds + Centre(precise, eos) + container[at..]
      && SpliceAligned(r, beginIds, precise, preciseLogprobs, if r.lackNormalEos then container[at..] else container[at + 1..])
  {
    at := SplicePlaces(container, precise, preciseLogprobs, beginIds, eos);
    if precise != [] && precise[|precise| - 1] == eos {
      AlignedWithEos(container, precise, preciseLogprobs, beginIds, eos, at);
    } else {
      AlignedWithoutEos(container, precise, preciseLogprobs, beginIds, eos, at);
    }
  }

  lemma AlignedWithEos(
    container: seq<Token>, precise: seq<Token>, lps: seq<LogProb>, beginIds: seq<Token>, eos: Token, at: nat)
    requires beginIds <= container && at < |container| && container[at] == eos && |lps| == |precise| && !(beginIds <= precise)
    requires precise != [] && precise[|precise| - 1] == eos
    ensures var r := SpliceAt(container, precise, lps, beginIds, [eos], |beginIds|, at);
      && r.Spliced? && !r.lackNormalEos && r.ids == beginIds + Centre(precise, eos) + container[at..]
      && SpliceAligned(r, beginIds, precise, lps, container[at + 1..])
  {
    PiecesWithEos(container, precise, lps, beginIds, eos, at);
    MoveEos(beginIds, Centre(precise, eos), container, precise, at, eos);
    AlignedPieces(SpliceAt(container, precise, lps, beginIds, [eos], |beginIds|, at), beginIds, precise, lps, container[at + 1..]);
  }

  lemma AlignedWithoutEos(
    container: seq<Token>, precise: seq<Token>, lps: seq<LogProb>, beginIds: seq<Token>, eos: Token, at: nat)
    requires beginIds <= container && at < |container| && |lps| == |precise| && !(beginIds <= precise)
    requires precise == [] || precise[|precise| - 1] != eos
    ensures var r := SpliceAt(container, precise, lps, beginIds, [eos], |beginIds|, at);
      && r.Spliced? && r.lackNormalEos && r.ids == beginIds + precise + container[at..]
      && SpliceAligned(r, beginIds, precise, lps, container[at..])
  {
    PiecesWithoutEos(container, precise, lps, beginIds, eos, at);
    AlignedPieces(SpliceAt(container, precise, lps, beginIds, [eos], |beginIds|, at), beginIds, precise, lps, container[at..]);
  }

  lemma MoveEos(beginIds: seq<Token>, centre: seq<Token>, container: seq<Token>, precise: seq<Token>, at: nat, eos: Token)
    requires at < |container| && container[at] == eos && precise == centre + [eos]
    ensures beginIds + centre + container[at..] == beginIds + precise + container[at + 1..]
  {
  }

  /** Ids, log-probabilities and mask have one length, the generated tokens stand right behind the prompt with their
      own log-probabilities, and they are the ones with a 1 in the mask. */
  ghost predicate SpliceAligned(r: Spliced, beginIds: seq<Token>, precise: seq<Token>, lps: seq<LogProb>, tail: seq<Token>) {
    var end := |beginIds| + |precise|;
    && r.Spliced? && |lps| == |precise|
    && |r.ids| == |r.logprobs| == |r.mask| == end + |tail|
    && r.ids == beginIds + precise + tail
    && r.logprobs[|beginIds|..end] == lps
    && (forall i :: 0 <= i < |r.logprobs| && !(|beginIds| <= i < end) ==> r.logprobs[i] == 0.0)
    && (forall i :: 0 <= i < |r.mask| ==> r.mask[i] == if |beginIds| <= i < end then 1 else 0)
  }

  lemma AlignedPieces(r: Spliced, beginIds: seq<Token>, precise: seq<Token>, lps: seq<LogProb>, tail: seq<Token>)
    requires r.Spliced? && |lps| == |precise|
    requires r.ids == beginIds + precise + tail
    requires r.logprobs == Repeat(NO_LOGPROB, |beginIds|) + lps + Repeat(NO_LOGPROB, |tail|)
    requires r.mask == Repeat(0, |beginIds|) + Repeat(1, |precise|) + Repeat(0, |tail|)
    ensures SpliceAligned(r, beginIds, precise, lps, tail)
  {
  }

  /** Position `k` lies in the first occurrence of `combo`. */
  ghost predicate InFirst(tokens: seq<Token>, combo: seq<Token>, k: int) {
    exists i :: OccursAt(tokens, combo, i) && i <= k < i + |combo| && forall h :: 0 <= h < i ==> !OccursAt(tokens, combo, h)
  }

  /** The mask is 0 in the first generation prompt, behind the first EOS, and on that EOS itself if the message was generated without
      one; everywhere else it is 1. */
  lemma TrainedMaskIff(tokens: seq<Token>, combo: seq<Token>, eos: Token, lackNormalEos: bool, k: nat)
    requires k < |tokens|
    ensures TrainedMask(tokens, combo, eos, lackNormalEos)[k] ==
      if InFirst(tokens, combo, k) || eos in tokens[..k] || (lackNormalEos && tokens[k] == eos) then 0 else 1
  {
    FirstOccurrence(tokens, combo, k);
    EosBehind(tokens, eos, k);
  }

  lemma FirstOccurrence(tokens: seq<Token>, combo: seq<Token>, k: int)
    ensures var at := FindFrom(tokens, combo, 0); InFirst(tokens, combo, k) <==> at >= 0 && at <= k < at + |combo|
  {
    var at := FindFrom(tokens, combo, 0);
    if InFirst(tokens, combo, k) {
      var i :| OccursAt(tokens, combo, i) && i <= k < i + |combo| && forall h :: 0 <= h < i ==> !OccursAt(tokens, combo, h);
      assert at >= 0 && at == i;
    }
  }

  lemma EosBehind(tokens: seq<Token>, eos: Token, k: nat)
    requires k < |tokens|
    ensures eos in tokens[..k] <==> FirstEos(tokens, eos) < k
    ensures tokens[k] == eos ==> FirstEos(tokens, eos) <= k
    ensures eos in tokens <==> FirstEos(tokens, eos) < |tokens|
  {
    var at := FirstEos(tokens, eos);
    if at < k {
      assert tokens[..k][at] == eos;
    }
  }

  /** What `get_loss_mask` makes of tokens that start with the generation prompt. */
  lemma TrainedMaskShape(tokens: seq<Token>, beginIds: seq<Token>, eos: Token, lackNormalEos: bool)
    requires beginIds <= tokens && eos in tokens
    ensures forall i :: 0 <= i < |tokens| ==>
      TrainedMask(tokens, beginIds, eos, lackNormalEos)[i] ==
        if |beginIds| <= i < FirstEos(tokens, eos) + (if lackNormalEos then 0 else 1) then 1 else 0
  {
    BeginIsAtZero(tokens, beginIds);
  }

  /** The splice is refused exactly when the generated tokens open with the generation prompt themselves. */
  lemma UnexpectedBosIff(
    container: seq<Token>, precise: seq<Token>, preciseLogprobs: seq<LogProb>, beginIds: seq<Token>, endIds: seq<Token>)
    ensures ReplaceTokenIds(container, precise, preciseLogprobs, beginIds, endIds) == UnexpectedBos <==> beginIds <= precise
  {
    if beginIds <= precise {
      assert Take(precise, |beginIds|) == beginIds;
    }
  }

  /** The comparison for ids made of prompt, centre and a tail that opens with EOS. */
  lemma MasksAgreeOnPieces(
    beginIds: seq<Token>, centre: seq<Token>, tail: seq<Token>, ids: seq<Token>, mask: seq<int>, eos: Token, lackNormalEos: bool)
    requires ids == beginIds + centre + tail && |mask| == |ids|
    requires tail != [] && tail[0] == eos
    requires var end := |beginIds| + |centre| + (if lackNormalEos then 0 else 1);
      forall i :: 0 <= i < |mask| ==> mask[i] == if |beginIds| <= i < end then 1 else 0
    ensures mask == TrainedMask(ids, beginIds, eos, lackNormalEos) <==>
      (eos !in beginIds && eos !in centre) || (eos in beginIds && centre == [] && lackNormalEos)
  {
    var here := |beginIds| + |centre|;
    assert beginIds <= ids;
    TrainedMaskShape(ids, beginIds, eos, lackNormalEos);
    FirstEosOfPieces(beginIds, centre, tail, ids, eos);
    CompareMasks(mask, TrainedMask(ids, beginIds, eos, lackNormalEos), |beginIds|, here + (if lackNormalEos then 0 else 1),
      FirstEos(ids, eos) + (if lackNormalEos then 0 else 1));
  }

  /** Two masks that are 1 from the same place on, each up to its end, are equal exactly when the ends are, or both are empty. */
  lemma CompareMasks(mask: seq<int>, other: seq<int>, begin: nat, end: nat, otherEnd: nat)
    requires |mask| == |other| && begin <= end <= |mask| && otherEnd <= |mask|
    requires forall i :: 0 <= i < |mask| ==> mask[i] == if begin <= i < end then 1 else 0
    requires forall i :: 0 <= i < |mask| ==> other[i] == if begin <= i < otherEnd then 1 else 0
    ensures mask == other <==> end == otherEnd || (end == begin && otherEnd <= begin)
  {
    if otherEnd < end && begin < end {
      var i := if otherEnd < begin then begin else otherEnd;
      assert mask[i] == 1 && other[i] == 0;
    } else if end < otherEnd {
      assert mask[end] == 0 && other[end] == 1;
    }
  }

  lemma FirstEosOfPieces(beginIds: seq<Token>, centre: seq<Token>, tail: seq<Token>, ids: seq<Token>, eos: Token)
    requires ids == beginIds + centre + tail && tail != [] && tail[0] == eos
    ensures eos in ids
    ensures var first, here := FirstEos(ids, eos), |beginIds| + |centre|;
      if eos in beginIds then first < |beginIds| else if eos in centre then |beginIds| <= first < here else first == here
  {
    var here := |beginIds| + |centre|;
    assert ids[here] == tail[0] == eos;
    assert forall i :: 0 <= i < |beginIds| ==> ids[i] == beginIds[i];
    assert forall i :: 0 <= i < |centre| ==> ids[|beginIds| + i] == centre[i];
  }

  /** The mask made while splicing and the mask
      regenerated from the spliced tokens agree exactly when the generated text holds no EOS before its end and the
      generation prompt holds none either (or, degenerately, when nothing at all was generated). */
  lemma MasksAgree(
    container: seq<Token>, precise: seq<Token>, preciseLogprobs: seq<LogProb>, beginIds: seq<Token>, eos: Token)
    requires Rendered(container, beginIds, eos)
    requires |preciseLogprobs| == |precise| && !(beginIds <= precise)
    ensures var r := ReplaceTokenIds(container, precise, preciseLogprobs, beginIds, [eos]);
      r.mask == TrainedMask(r.ids, beginIds, eos, r.lackNormalEos) <==>
        (eos !in beginIds && eos !in Centre(precise, eos)) || (eos in beginIds && precise == [])
  {
    var at := SpliceIsAligned(container, precise, preciseLogprobs, beginIds, eos);
    var r := ReplaceTokenIds(container, precise, preciseLogprobs, beginIds, [eos]);
    var centre := Centre(precise, eos);
    MasksAgreeOnPieces(beginIds, centre, container[at..], r.ids, r.mask, eos, r.lackNormalEos);
  }
}
