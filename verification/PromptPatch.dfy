/** Repairing retokenization drift: `patch_prompt_tokens` and `ensure_retokenization_perfect_match` of
ajet/context_tracker/multiagent_tracking.py.

The prompt the model was given is cut at the marker token that opens every message, and the pieces replace the tokens of the
messages tracked so far. */
module PromptPatch {
  import opened PyList

  type Token = int

  // ----- Cutting the prompt -----

  /** The chunks of `prompt`, when `tmp` has been gathered so far. */
  function SplitFrom(prompt: seq<Token>, marker: Token, tmp: seq<Token>): seq<seq<Token>> {
    if prompt == [] then (if tmp != [] then [tmp] else [])
    else if prompt[0] != marker then SplitFrom(prompt[1..], marker, tmp + [prompt[0]])
    else (if tmp != [] then [tmp] else []) + SplitFrom(prompt[1..], marker, [marker])
  }

  function Split(prompt: seq<Token>, marker: Token): seq<seq<Token>> {
    SplitFrom(prompt, marker, [])
  }

  method SplitPrompt(prompt: seq<Token>, marker: Token) returns (chunks: seq<seq<Token>>)
    ensures chunks == Split(prompt, marker)
  {
    var tmp: seq<Token> := [];
    chunks := [];
    for i := 0 to |prompt|
      invariant Split(prompt, marker) == chunks + SplitFrom(prompt[i..], marker, tmp)
    {
      assert prompt[i..][0] == prompt[i] && prompt[i..][1..] == prompt[i + 1..];
      if prompt[i] != marker {
        tmp := tmp + [prompt[i]];
      } else {
        if |tmp| > 0 {
          chunks := chunks + [tmp];
        }
        tmp := [prompt[i]];
      }
    }
    if |tmp| > 0 {
      chunks := chunks + [tmp];
    }
  }

  /** Not empty, and the marker stands nowhere but at the head. */
  predicate Chunk(c: seq<Token>, marker: Token) {
    c != [] && marker !in c[1..]
  }

  /** A cutting of the prompt: chunks that add up to it, of which all but the first open with the marker. */
  ghost predicate Cutting(chunks: seq<seq<Token>>, prompt: seq<Token>, marker: Token) {
    && Flatten(chunks) == prompt
    && (forall k :: 0 <= k < |chunks| ==> Chunk(chunks[k], marker))
    && (forall k :: 1 <= k < |chunks| ==> chunks[k][0] == marker)
  }

  lemma {:induction false} SplitCuts(prompt: seq<Token>, marker: Token, tmp: seq<Token>)
    requires tmp != [] ==> Chunk(tmp, marker)
    ensures Cutting(SplitFrom(prompt, marker, tmp), tmp + prompt, marker)
    ensures tmp != [] ==> SplitFrom(prompt, marker, tmp) != [] && SplitFrom(prompt, marker, tmp)[0][0] == tmp[0]
    decreases |prompt|
  {
    if prompt == [] {
      assert tmp + prompt == tmp;
      assert Flatten([tmp]) == tmp + Flatten<Token>([]) == tmp;
    } else if prompt[0] != marker {
      var tmp' := tmp + [prompt[0]];
      assert tmp + prompt == tmp' + prompt[1..];
      assert Chunk(tmp', marker) by {
        if tmp != [] {
          assert tmp'[1..] == tmp[1..] + [prompt[0]];
        }
      }
      SplitCuts(prompt[1..], marker, tmp');
    } else {
      var rest := SplitFrom(prompt[1..], marker, [marker]);
      SplitCuts(prompt[1..], marker, [marker]);
      assert [marker] + prompt[1..] == prompt;
      if tmp != [] {
        assert ([tmp] + rest)[1..] == rest;
      } else {
        assert [] + rest == rest && tmp + prompt == prompt;
      }
    }
  }

  lemma MarkerOnlyAtHead(xs: seq<seq<Token>>, prompt: seq<Token>, marker: Token, k: nat)
    requires Cutting(xs, prompt, marker) && xs != [] && 1 <= k < |xs[0]|
    ensures k < |prompt| && prompt[k] != marker
  {
    assert prompt == xs[0] + Flatten(xs[1..]);
    assert xs[0][1..][k - 1] == xs[0][k];
  }

  lemma MarkerAfterFirst(ys: seq<seq<Token>>, prompt: seq<Token>, marker: Token)
    requires Cutting(ys, prompt, marker) && ys != [] && |ys[0]| < |prompt|
    ensures prompt[|ys[0]|] == marker
  {
    assert prompt == ys[0] + Flatten(ys[1..]);
    assert Flatten(ys[1..]) == ys[1] + Flatten(ys[1..][1..]);
  }

  /** Two cuttings of the same prompt have the same first chunk: it ends where the next marker stands, or where the prompt ends. */
  lemma FirstChunkIsUnique(xs: seq<seq<Token>>, ys: seq<seq<Token>>, prompt: seq<Token>, marker: Token)
    requires Cutting(xs, prompt, marker) && Cutting(ys, prompt, marker) && xs != [] && ys != []
    ensures |xs[0]| <= |ys[0]|
  {
    assert prompt == xs[0] + Flatten(xs[1..]);
    forall k | 1 <= k < |xs[0]|
      ensures prompt[k] != marker
    {
      MarkerOnlyAtHead(xs, prompt, marker, k);
    }
    if |xs[0]| > |ys[0]| {
      MarkerAfterFirst(ys, prompt, marker);
    }
  }

  lemma {:induction false} CuttingIsUnique(xs: seq<seq<Token>>, ys: seq<seq<Token>>, prompt: seq<Token>, marker: Token)
    requires Cutting(xs, prompt, marker) && Cutting(ys, prompt, marker)
    ensures xs == ys
    decreases |xs|
  {
    if xs != [] && ys != [] {
      FirstChunkIsUnique(xs, ys, prompt, marker);
      FirstChunkIsUnique(ys, xs, prompt, marker);
      var n := |xs[0]|;
      assert prompt == xs[0] + Flatten(xs[1..]) && prompt == ys[0] + Flatten(ys[1..]);
      assert xs[0] == prompt[..n] == ys[0];
      assert Flatten(xs[1..]) == prompt[n..] == Flatten(ys[1..]);
      CuttingIsUnique(xs[1..], ys[1..], prompt[n..], marker);
      assert xs == [xs[0]] + xs[1..] && ys == [ys[0]] + ys[1..];
    }
  }

  /** Cutting the prompt at the marker loses nothing, and it is the only way to cut it into non-empty chunks in which the marker stands
      only at the head. */
  lemma SplitIsTheCutting(prompt: seq<Token>, marker: Token, chunks: seq<seq<Token>>)
    ensures Cutting(chunks, prompt, marker) <==> chunks == Split(prompt, marker)
  {
    SplitCuts(prompt, marker, []);
    assert [] + prompt == prompt;
    if Cutting(chunks, prompt, marker) {
      CuttingIsUnique(chunks, Split(prompt, marker), prompt, marker);
    }
  }

  // ----- Patching the history -----

  class ExtendedMessage {
    var tokenArr: seq<Token>
    var tokenLogprobArr: seq<real>

    constructor (tokens: seq<Token>, logprobs: seq<real>)
      ensures tokenArr == tokens && tokenLogprobArr == logprobs
    {
      tokenArr, tokenLogprobArr := tokens, logprobs;
    }
  }

  datatype Outcome = Patched(kept: nat) | IndexError | AssertionError

  ghost predicate Distinct(history: seq<ExtendedMessage>) {
    forall i, j :: 0 <= i < j < |history| ==> history[i] != history[j]
  }

  /** Patching leaves the log probabilities alone, even when a chunk is longer or shorter than the tokens it replaces. */
  twostate predicate LogprobsKept(history: seq<ExtendedMessage>)
    reads history
  {
    forall j :: 0 <= j < |history| ==> history[j].tokenLogprobArr == old(history[j].tokenLogprobArr)
  }

  ghost function TokensOf(history: seq<ExtendedMessage>): (r: seq<seq<Token>>)
    reads history
    ensures |r| == |history| && forall j :: 0 <= j < |history| ==> r[j] == history[j].tokenArr
  {
    seq(|history|, j requires 0 <= j < |history| reads history => history[j].tokenArr)
  }

  /** Looking at this message raises: there is no chunk for it, or it differs from its chunk and there is no piece of text to report
      the difference with. */
  predicate Raises(tokens: seq<Token>, chunks: seq<seq<Token>>, texts: nat, j: nat) {
    j >= |chunks| || (tokens != chunks[j] && j >= texts)
  }

  /** The first message that raises, or the number of messages. */
  function FirstRaising(history: seq<seq<Token>>, chunks: seq<seq<Token>>, texts: nat, from: nat): (n: nat)
    requires from <= |history|
    ensures from <= n <= |history|
    ensures forall j :: from <= j < n ==> !Raises(history[j], chunks, texts, j)
    ensures n < |history| ==> Raises(history[n], chunks, texts, n)
    ensures n <= |chunks| || n == from
    decreases |history| - from
  {
    if from == |history| || Raises(history[from], chunks, texts, from) then from
    else FirstRaising(history, chunks, texts, from + 1)
  }

  /** The messages up to the first that raises have their chunks, that one and all behind it their old tokens. */
  function AfterPatch(history: seq<seq<Token>>, chunks: seq<seq<Token>>, texts: nat): seq<seq<Token>> {
    var n := FirstRaising(history, chunks, texts, 0);
    chunks[..n] + history[n..]
  }

  lemma PatchedUpTo(now: seq<seq<Token>>, before: seq<seq<Token>>, chunks: seq<seq<Token>>, texts: nat)
    requires var n := FirstRaising(before, chunks, texts, 0);
      |now| == |before| && (forall i :: 0 <= i < n ==> now[i] == chunks[i]) && (forall i :: n <= i < |now| ==> now[i] == before[i])
    ensures now == AfterPatch(before, chunks, texts)
  {
  }

  /** Every message up to the first that raises takes the chunk at its place; that one and all behind it stay as they were.  `texts`
      is the number of pieces of the prompt text, which the report of a difference reads before the tokens are replaced. */
  method EnsureMatch(history: seq<ExtendedMessage>, chunks: seq<seq<Token>>, texts: nat) returns (ok: bool)
    requires Distinct(history)
    modifies history
    ensures LogprobsKept(history)
    ensures ok <==> FirstRaising(old(TokensOf(history)), chunks, texts, 0) == |history|
    ensures TokensOf(history) == AfterPatch(old(TokensOf(history)), chunks, texts)
  {
    ghost var before := TokensOf(history);
    ghost var n := FirstRaising(before, chunks, texts, 0);
    ok := true;
    var j := 0;
    while j < |history|
      invariant j <= n <= |history| && LogprobsKept(history)
      invariant forall i :: 0 <= i < j ==> history[i].tokenArr == chunks[i]
      invariant forall i :: j <= i < |history| ==> history[i].tokenArr == before[i]
    {
      if j >= |chunks| || (history[j].tokenArr != chunks[j] && j >= texts) {
        ok := false;
        break;
      }
      if history[j].tokenArr != chunks[j] {
        history[j].tokenArr := chunks[j];
      }
      j := j + 1;
    }
    assert j == n;
    PatchedUpTo(TokensOf(history), before, chunks, texts);
  }

  /** `startsRight` says whether the prompt text opens with the marker. */
  method PatchPromptTokens(prompt: seq<Token>, marker: Token, history: seq<ExtendedMessage>, texts: nat, startsRight: bool, fixDrift: bool)
      returns (r: Outcome)
    requires Distinct(history)
    modifies history
    ensures LogprobsKept(history)
    ensures r == PatchOutcome(old(TokensOf(history)), Split(prompt, marker), texts, startsRight, fixDrift)
    ensures var before := old(TokensOf(history));
      TokensOf(history) == if startsRight && fixDrift then AfterPatch(before, Split(prompt, marker), texts) else before
  {
    var chunks := SplitPrompt(prompt, marker);
    if !startsRight {
      return AssertionError;
    }
    if fixDrift {
      var ok := EnsureMatch(history, chunks, texts);
      if !ok {
        return IndexError;
      }
    }
    return Patched(if texts < |history| then texts else |history|);
  }

  /** How patching ends, and how many messages of the history are kept. */
  function PatchOutcome(history: seq<seq<Token>>, chunks: seq<seq<Token>>, texts: nat, startsRight: bool, fixDrift: bool): Outcome {
    if !startsRight then AssertionError
    else if fixDrift && FirstRaising(history, chunks, texts, 0) < |history| then IndexError
    else Patched(if texts < |history| then texts else |history|)
  }

  /** The trailing generation prompt is cut from the prompt text and kept in its ids, so there is one chunk more than there are pieces
      of text.  Then a history no longer than the text never raises, one that is longer by one raises exactly when its last
      message differs from the trailing chunk, and a longer one always raises. */
  lemma PatchRaisesIff(history: seq<seq<Token>>, chunks: seq<seq<Token>>, texts: nat)
    requires |chunks| == texts + 1
    ensures PatchOutcome(history, chunks, texts, true, true) == IndexError
      <==> |history| > texts + 1 || (|history| == texts + 1 && history[texts] != chunks[texts])
  {
    var n := FirstRaising(history, chunks, texts, 0);
    if |history| > texts + 1 {
      assert Raises(history[texts + 1], chunks, texts, texts + 1);
    } else if |history| == texts + 1 && history[texts] != chunks[texts] {
      assert Raises(history[texts], chunks, texts, texts);
    }
  }

  /** Two tracked messages against a prompt of one message and the generation prompt: the length mismatch is tolerated when the
      second message is the generation prompt, and raises otherwise, before that message is patched. */
  lemma MismatchBeyondText()
    ensures var chunks := Split([7, 1, 7, 2], 7); chunks == [[7, 1], [7, 2]]
    ensures PatchOutcome([[7, 1], [7, 2]], [[7, 1], [7, 2]], 1, true, true) == Patched(1)
    ensures PatchOutcome([[7, 1], [7, 3]], [[7, 1], [7, 2]], 1, true, true) == IndexError
  {
    assert Cutting([[7, 1], [7, 2]], [7, 1, 7, 2], 7) by {
      assert [[7, 1], [7, 2]][1..] == [[7, 2]] && [[7, 2]][1..] == [];
      assert Flatten([[7, 2]]) == [7, 2] + Flatten<Token>([]) == [7, 2];
      assert [7, 1][1..] == [1] && [7, 2][1..] == [2];
    }
    SplitIsTheCutting([7, 1, 7, 2], 7, [[7, 1], [7, 2]]);
    PatchRaisesIff([[7, 1], [7, 2]], [[7, 1], [7, 2]], 1);
    PatchRaisesIff([[7, 1], [7, 3]], [[7, 1], [7, 2]], 1);
  }

  lemma {:induction false} PartOfChunks(chunks: seq<seq<Token>>, n: nat)
    requires n <= |chunks| && forall k :: 0 <= k < |chunks| ==> chunks[k] != []
    ensures |Flatten(chunks[..n])| <= |Flatten(chunks)|
    ensures |Flatten(chunks[..n])| == |Flatten(chunks)| <==> n == |chunks|
  {
    if n == |chunks| {
      assert chunks[..n] == chunks;
    } else if n == 0 {
      assert |Flatten(chunks)| >= |chunks[0]|;
    } else {
      assert chunks[..n][0] == chunks[0] && chunks[..n][1..] == chunks[1..][..n - 1];
      PartOfChunks(chunks[1..], n - 1);
    }
  }

  /** The patched history followed by the trailing chunk of the prompt, the generation prompt, is exactly the prompt the model was
      given if and only if the prompt has one message more than the history. */
  lemma PatchedHistoryIsPromptIff(prompt: seq<Token>, marker: Token, history: seq<seq<Token>>, texts: nat)
    requires prompt != [] && FirstRaising(history, Split(prompt, marker), texts, 0) == |history|
    ensures Split(prompt, marker) != []
    ensures var chunks := Split(prompt, marker);
      Flatten(AfterPatch(history, chunks, texts)) + chunks[|chunks| - 1] == prompt <==> |chunks| == |history| + 1
  {
    var chunks, messages := Split(prompt, marker), |history|;
    SplitIsTheCutting(prompt, marker, chunks);
    assert AfterPatch(history, chunks, texts) == chunks[..messages];
    var n := |chunks| - 1;
    assert chunks != [];
    FlattenAppend(chunks[..n], chunks[n]);
    assert chunks[..n] + [chunks[n]] == chunks;
    if messages < n {
      PartOfChunks(chunks[..n], messages);
      assert chunks[..n][..messages] == chunks[..messages];
    } else if messages == n + 1 {
      assert chunks[..messages] == chunks;
    }
  }
}
