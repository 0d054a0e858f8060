/** The repetition detector: `has_repeat` of ajet/utils/compute_madness.py.

The detector keeps a short first-in-first-out window of words and a patience counter.  A word
outside the window enters it and restores the patience; a word inside it costs one unit, and the
detector fires when the patience is used up.  The loop is specified by `Fires`; the theorems
say which strings make it fire without mentioning the window. */
module Repetition {

  // ----- Specification -----

  /** The window after a word that was not in it: `record_words += [char]`, then drop the oldest
      word when the window has grown beyond the limit. */
  function Remember<T>(window: seq<T>, word: T, limit: int): seq<T> {
    var grown := window + [word];
    if |grown| > limit then grown[1..] else grown
  }

  /** Does the detector, started with this window and patience, fire somewhere in `words`? */
  predicate Fires<T(==)>(window: seq<T>, patience: int, words: seq<T>, limit: int, patienceMax: int)
    decreases |words|
  {
    if words == [] then false
    else if words[0] !in window then
      Fires(Remember(window, words[0], limit), patienceMax, words[1..], limit, patienceMax)
    else
      patience - 1 <= 0 || Fires(window, patience - 1, words[1..], limit, patienceMax)
  }

  predicate HasRepeat<T(==)>(words: seq<T>, limit: int, patienceMax: int) {
    Fires([], patienceMax, words, limit, patienceMax)
  }

  // ----- The loop -----

  method DetectRepeat<T(==)>(words: seq<T>, limit: int, patienceMax: int) returns (found: bool)
    ensures found == HasRepeat(words, limit, patienceMax)
  {
    var window: seq<T> := [];
    var patience := patienceMax;
    for i := 0 to |words|
      invariant HasRepeat(words, limit, patienceMax) == Fires(window, patience, words[i..], limit, patienceMax)
    {
      assert words[i..][0] == words[i] && words[i..][1..] == words[i + 1..];
      if words[i] !in window {
        window := window + [words[i]];
        if |window| > limit {
          window := window[1..];
        }
        patience := patienceMax;
      } else {
        patience := patience - 1;
        if patience <= 0 {
          return true;
        }
      }
    }
    return false;
  }

  // ----- What the detector promises -----

  function Distinct<T>(words: seq<T>): set<T> {
    set w | w in words
  }

  /** `words[from..to]` is a stretch of at least `length` words that uses at most `limit` different words. */
  ghost predicate Repetitive<T>(words: seq<T>, from: nat, to: nat, limit: int, length: int) {
    from <= to <= |words| && to - from >= length && |Distinct(words[from..to])| <= limit
  }

  lemma CardinalityOfSubset<T>(small: set<T>, large: set<T>)
    requires small <= large
    ensures |small| <= |large|
  {
    if small != {} {
      var x :| x in small;
      CardinalityOfSubset(small - {x}, large - {x});
    }
  }

  lemma {:induction false} DistinctAtMostLength<T>(words: seq<T>)
    ensures |Distinct(words)| <= |words|
  {
    if words != [] {
      DistinctAtMostLength(words[1..]);
      assert Distinct(words) == Distinct(words[1..]) + {words[0]};
    }
  }

  /** The words spent since the window last changed all lie in the window, so the stretch that used
      up the patience, `spent` words before `words` included, is covered by the window. */
  lemma {:induction false} FiringIsCovered<T>(
    all: seq<T>, at: nat, window: seq<T>, patience: int, limit: int, patienceMax: int, spent: nat)
    requires at <= |all| && spent <= at && limit >= 0 && patienceMax >= 1
    requires patience == patienceMax - spent && patience >= 1
    requires |window| <= limit
    requires forall k :: at - spent <= k < at ==> all[k] in window
    requires Fires(window, patience, all[at..], limit, patienceMax)
    ensures exists from: nat, to: nat :: Repetitive(all, from, to, limit, patienceMax) && to - from == patienceMax
    decreases |all| - at
  {
    var word := all[at];
    assert all[at..][0] == word && all[at..][1..] == all[at + 1..];
    if word !in window {
      FiringIsCovered(all, at + 1, Remember(window, word, limit), patienceMax, limit, patienceMax, 0);
    } else if patience - 1 <= 0 {
      var from: nat, to: nat := at - spent, at + 1;
      assert Distinct(all[from..to]) <= Distinct(window);
      CardinalityOfSubset(Distinct(all[from..to]), Distinct(window));
      DistinctAtMostLength(window);
      assert Repetitive(all, from, to, limit, patienceMax);
    } else {
      FiringIsCovered(all, at + 1, window, patience - 1, limit, patienceMax, spent + 1);
    }
  }

  /** Soundness: when the detector fires, some stretch of exactly `patienceMax` consecutive words uses
      at most `limit` different words. */
  lemma FiringIsSound<T>(words: seq<T>, limit: int, patienceMax: int)
    requires limit >= 0 && patienceMax >= 1
    requires HasRepeat(words, limit, patienceMax)
    ensures exists from: nat, to: nat :: Repetitive(words, from, to, limit, patienceMax) && to - from == patienceMax
  {
    assert words[0..] == words;
    FiringIsCovered(words, 0, [], patienceMax, limit, patienceMax, 0);
  }

  /** `entered` are the words of the block that entered the window inside the block; they are the newest
      part of the window, so none of them can have been evicted while the block lasts. */
  ghost predicate EnteredAreNewest<T>(window: seq<T>, entered: seq<T>) {
    && |entered| <= |window|
    && window[|window| - |entered|..] == entered
    && forall i, j :: 0 <= i < j < |entered| ==> entered[i] != entered[j]
  }

  lemma {:induction false} DistinctSeqIsSet<T>(words: seq<T>)
    requires forall i, j :: 0 <= i < j < |words| ==> words[i] != words[j]
    ensures |Distinct(words)| == |words|
  {
    if words != [] {
      DistinctSeqIsSet(words[1..]);
      assert words[0] !in Distinct(words[1..]);
      assert Distinct(words) == Distinct(words[1..]) + {words[0]};
    }
  }

  lemma NewestAfterEntry<T>(window: seq<T>, entered: seq<T>, word: T)
    requires |entered| <= |window| && window[|window| - |entered|..] == entered
    ensures var grown := window + [word]; grown[|grown| - |entered + [word]|..] == entered + [word]
    ensures |entered| < |window| ==>
      var kept := (window + [word])[1..]; kept[|kept| - |entered + [word]|..] == entered + [word]
  {
    var grown := window + [word];
    assert grown[|window| - |entered|..] == window[|window| - |entered|..] + [word];
  }

  /** One more word of the block enters: it cannot push out any word that entered during the block. */
  lemma NoEvictionInsideBlock<T>(window: seq<T>, entered: seq<T>, word: T, vocabulary: set<T>, limit: int)
    requires |window| <= limit && |vocabulary| <= limit
    requires EnteredAreNewest(window, entered)
    requires Distinct(entered) <= vocabulary && word in vocabulary && word !in window
    ensures |entered| < |vocabulary|
    ensures EnteredAreNewest(Remember(window, word, limit), entered + [word])
  {
    assert word !in entered by {
      assert entered == window[|window| - |entered|..];
    }
    FewerThanVocabulary(entered, word, vocabulary);
    NewestAfterEntry(window, entered, word);
  }

  /** Different words of the vocabulary, and one more, are not more than there are. */
  lemma FewerThanVocabulary<T>(entered: seq<T>, word: T, vocabulary: set<T>)
    requires forall i, j :: 0 <= i < j < |entered| ==> entered[i] != entered[j]
    requires Distinct(entered) <= vocabulary && word in vocabulary && word !in entered
    ensures |entered| < |vocabulary|
  {
    DistinctSeqIsSet(entered);
    CardinalityOfSubset(Distinct(entered) + {word}, vocabulary);
  }

  /** A block over `vocabulary` can hold the detector off only for a bounded number of words: every word
      of the vocabulary enters at most once and each entry buys `patienceMax` words. */
  lemma {:induction false} BlockBudget<T>(
    window: seq<T>, patience: int, words: seq<T>, rest: seq<T>, limit: int, patienceMax: int,
    entered: seq<T>, vocabulary: set<T>)
    requires patienceMax >= 1 && 1 <= patience <= patienceMax
    requires |window| <= limit && |vocabulary| <= limit
    requires EnteredAreNewest(window, entered)
    requires Distinct(words) <= vocabulary && Distinct(entered) <= vocabulary
    requires |entered| <= |vocabulary|
    requires |words| >= (|vocabulary| - |entered|) * patienceMax + patience
    ensures Fires(window, patience, words + rest, limit, patienceMax)
    decreases |words|
  {
    var room := |vocabulary| - |entered|;
    assert room * patienceMax >= 0;
    var word := words[0];
    var stream := words + rest;
    assert stream[0] == word && stream[1..] == words[1..] + rest;
    assert word in Distinct(words);
    assert Distinct(words[1..]) <= Distinct(words);
    if word !in window {
      NoEvictionInsideBlock(window, entered, word, vocabulary, limit);
      assert (room - 1) * patienceMax + patienceMax == room * patienceMax;
      assert Distinct(entered + [word]) == Distinct(entered) + {word};
      BlockBudget(Remember(window, word, limit), patienceMax, words[1..], rest, limit, patienceMax,
                  entered + [word], vocabulary);
    } else if patience - 1 > 0 {
      BlockBudget(window, patience - 1, words[1..], rest, limit, patienceMax, entered, vocabulary);
    }
  }

  /** Whatever came first, either the detector has fired already or it reaches the block with a window
      within the limit and some patience left. */
  lemma {:induction false} BlockAfterPrefix<T>(
    window: seq<T>, patience: int, prefix: seq<T>, block: seq<T>, rest: seq<T>, limit: int, patienceMax: int)
    requires patienceMax >= 1 && 1 <= patience <= patienceMax && |window| <= limit
    requires |Distinct(block)| <= limit
    requires |block| >= (|Distinct(block)| + 1) * patienceMax
    ensures Fires(window, patience, prefix + (block + rest), limit, patienceMax)
    decreases |prefix|
  {
    if prefix == [] {
      assert prefix + (block + rest) == block + rest;
      var k := |Distinct(block)|;
      assert (k + 1) * patienceMax == k * patienceMax + patienceMax;
      assert EnteredAreNewest(window, []);
      BlockBudget(window, patience, block, rest, limit, patienceMax, [], Distinct(block));
    } else {
      var stream := prefix + (block + rest);
      assert stream[0] == prefix[0] && stream[1..] == prefix[1..] + (block + rest);
      if prefix[0] !in window {
        BlockAfterPrefix(Remember(window, prefix[0], limit), patienceMax, prefix[1..], block, rest, limit, patienceMax);
      } else if patience - 1 > 0 {
        BlockAfterPrefix(window, patience - 1, prefix[1..], block, rest, limit, patienceMax);
      }
    }
  }

  /** Completeness: a stretch with k <= `limit` different words and at least (k + 1) * `patienceMax` words
      makes the detector fire, wherever it stands in the string. */
  lemma FiringIsComplete<T>(words: seq<T>, from: nat, to: nat, limit: int, patienceMax: int)
    requires limit >= 0 && patienceMax >= 1 && from <= to <= |words|
    requires Repetitive(words, from, to, limit, (|Distinct(words[from..to])| + 1) * patienceMax)
    ensures HasRepeat(words, limit, patienceMax)
  {
    assert words == words[..from] + (words[from..to] + words[to..]);
    BlockAfterPrefix([], patienceMax, words[..from], words[from..to], words[to..], limit, patienceMax);
  }

  /** From the first word on, one patience less is enough: the block is spared the leading stretch, because
      its first word enters the empty window.  The bound is exact, see `LeadingBlockIsTight`. */
  lemma LeadingBlockFires<T>(block: seq<T>, rest: seq<T>, limit: int, patienceMax: int)
    requires limit >= 0 && patienceMax >= 1
    requires |Distinct(block)| <= limit && block != []
    requires |block| >= |Distinct(block)| * patienceMax + 1
    ensures HasRepeat(block + rest, limit, patienceMax)
  {
    var vocabulary := Distinct(block);
    var word := block[0];
    assert word in vocabulary;
    var stream := block + rest;
    assert stream[0] == word && stream[1..] == block[1..] + rest;
    NoEvictionInsideBlock([], [], word, vocabulary, limit);
    assert Remember([], word, limit) == [word] == [] + [word];
    assert Distinct([] + [word]) == {word};
    var k := |vocabulary|;
    assert k * patienceMax == (k - 1) * patienceMax + patienceMax;
    BlockBudget([word], patienceMax, block[1..], rest, limit, patienceMax, [word], vocabulary);
  }

  /** A string of one repeated word is let through up to `patienceMax` words and no further. */
  lemma {:induction false} LeadingBlockIsTight<T>(word: T, count: nat, limit: int, patienceMax: int)
    requires limit >= 1 && patienceMax >= 1
    ensures HasRepeat(seq(count, _ => word), limit, patienceMax) <==> count >= patienceMax + 1
  {
    var words := seq(count, _ => word);
    if count > 0 {
      assert words[0] == word && words[1..] == seq(count - 1, _ => word);
      assert Remember([], word, limit) == [word];
      OneWordRun(word, count - 1, patienceMax, limit, patienceMax);
    }
  }

  lemma {:induction false} OneWordRun<T>(word: T, count: nat, patience: int, limit: int, patienceMax: int)
    requires patience >= 1
    ensures Fires([word], patience, seq(count, _ => word), limit, patienceMax) <==> count >= patience
    decreases count
  {
    var words := seq(count, _ => word);
    if count > 0 {
      assert words[1..] == seq(count - 1, _ => word);
      if patience > 1 {
        OneWordRun(word, count - 1, patience - 1, limit, patienceMax);
      }
    }
  }

  /** A longer string never hides a repetition that a prefix of it shows. */
  lemma {:induction false} FiringIsStable<T>(window: seq<T>, patience: int, words: seq<T>, more: seq<T>, limit: int, patienceMax: int)
    requires Fires(window, patience, words, limit, patienceMax)
    ensures Fires(window, patience, words + more, limit, patienceMax)
    decreases |words|
  {
    var stream := words + more;
    assert stream[0] == words[0] && stream[1..] == words[1..] + more;
    if words[0] !in window {
      FiringIsStable(Remember(window, words[0], limit), patienceMax, words[1..], more, limit, patienceMax);
    } else if patience - 1 > 0 {
      FiringIsStable(window, patience - 1, words[1..], more, limit, patienceMax);
    }
  }
}
