/** The textual substitution behind `split_keys_and_operators` of ajet/utils/config_computer.py: `re.sub(re.escape(key) +
r"(?![a-zA-Z0-9_.])", var, text)`, for one key after the other, longest first.

A text is a row of words, which may hold letters, digits, underscores and dots, and separators. */
module KeySubstitution {
  type Text = string

  predicate WordChar(c: char) {
    'a' <= c <= 'z' || 'A' <= c <= 'Z' || '0' <= c <= '9' || c == '_' || c == '.'
  }

  predicate IsWord(w: Text) {
    w != "" && forall i :: 0 <= i < |w| ==> WordChar(w[i])
  }

  /** `re.sub`: every place where the key stands and no word character follows is replaced, from left to right. */
  function Sub(text: Text, key: Text, v: Text): Text
    requires key != ""
  {
    if text == "" then ""
    else if Matches(text, key) then v + Sub(text[|key|..], key, v)
    else [text[0]] + Sub(text[1..], key, v)
  }

  // ----- Texts as words and separators -----

  datatype Piece = Word(text: Text) | Separator(text: Text)

  predicate WellFormed(ps: seq<Piece>) {
    && (forall i :: 0 <= i < |ps| ==> PieceOk(ps[i]))
    && (forall i :: 0 <= i < |ps| - 1 ==> !(ps[i].Word? && ps[i + 1].Word?))
  }

  predicate PieceOk(p: Piece) {
    if p.Word? then IsWord(p.text) else p.text != "" && forall i :: 0 <= i < |p.text| ==> !WordChar(p.text[i])
  }

  function TextOf(ps: seq<Piece>): Text {
    if ps == [] then "" else ps[0].text + TextOf(ps[1..])
  }

  predicate EndsWith(w: Text, key: Text) {
    |key| <= |w| && w[|w| - |key|..] == key
  }

  /** What happens to one word. */
  function SubWord(w: Text, key: Text, v: Text): Text {
    if EndsWith(w, key) then w[..|w| - |key|] + v else w
  }

  function SubPiece(p: Piece, key: Text, v: Text): Piece {
    if p.Word? then Word(SubWord(p.text, key, v)) else p
  }

  function SubPieces(ps: seq<Piece>, key: Text, v: Text): seq<Piece> {
    seq(|ps|, i requires 0 <= i < |ps| => SubPiece(ps[i], key, v))
  }

  /** A word, and a rest that does not continue it. */
  predicate Stops(rest: Text) {
    rest == "" || !WordChar(rest[0])
  }

  predicate Matches(text: Text, key: Text) {
    key <= text && (|key| == |text| || !WordChar(text[|key|]))
  }

  /** The key stands at the start of a word and ends with it only if it is that word. */
  lemma NoMatch(w: Text, rest: Text, key: Text)
    requires (forall i :: 0 <= i < |w| ==> WordChar(w[i])) && Stops(rest) && IsWord(key) && w != key
    ensures !Matches(w + rest, key)
  {
    var text := w + rest;
    assert text[..|w|] == w && (rest != "" ==> text[|w|] == rest[0]);
    if key <= text {
      assert key == text[..|key|];
      assert forall i :: 0 <= i < |key| ==> text[i] == key[i];
      if |key| < |w| {
        assert text[|key|] == w[|key|];
      }
    }
  }

  lemma SubAtKey(key: Text, rest: Text, v: Text)
    requires key != "" && Stops(rest)
    ensures Sub(key + rest, key, v) == v + Sub(rest, key, v)
  {
    var text := key + rest;
    assert text[|key|..] == rest && text[..|key|] == key;
  }

  lemma SubPast(c: char, text: Text, key: Text, v: Text)
    requires key != "" && !Matches([c] + text, key)
    ensures Sub([c] + text, key, v) == [c] + Sub(text, key, v)
  {
    assert ([c] + text)[1..] == text;
  }

  lemma {:induction false} SubOfWord(w: Text, rest: Text, key: Text, v: Text)
    requires (forall i :: 0 <= i < |w| ==> WordChar(w[i])) && Stops(rest) && IsWord(key)
    ensures Sub(w + rest, key, v) == SubWord(w, key, v) + Sub(rest, key, v)
  {
    if w == "" {
      assert w + rest == rest;
    } else if w == key {
      SubAtKey(key, rest, v);
      SubWholeWord(key, v);
    } else {
      var c, t := w[0], w[1..];
      NoMatch(w, rest, key);
      SubOfWord(t, rest, key, v);
      WordTail(c, t, key, v);
      assert [c] + t == w;
      Join(w, rest, key, v, SubWord(t, key, v), Sub(rest, key, v));
    }
  }

  lemma Join(w: Text, rest: Text, key: Text, v: Text, x: Text, y: Text)
    requires w != "" && key != "" && !Matches(w + rest, key) && Sub(w[1..] + rest, key, v) == x + y
    ensures Sub(w + rest, key, v) == ([w[0]] + x) + y
  {
    assert w + rest == [w[0]] + (w[1..] + rest);
    SubPast(w[0], w[1..] + rest, key, v);
    assert [w[0]] + (x + y) == ([w[0]] + x) + y;
  }

  lemma SubWholeWord(key: Text, v: Text)
    ensures SubWord(key, key, v) == v
  {
    assert key[0..] == key && key[..0] == "";
  }

  lemma WordTail(c: char, t: Text, key: Text, v: Text)
    requires [c] + t != key && key != ""
    ensures SubWord([c] + t, key, v) == [c] + SubWord(t, key, v)
  {
    var w, n := [c] + t, |t| - |key|;
    if n >= 0 {
      assert w[n + 1..] == t[n..] && w[..n + 1] == [c] + t[..n];
    } else if n == -1 {
      assert w[0..] == w;
    }
  }

  lemma {:induction false} SubOfSeparator(x: Text, rest: Text, key: Text, v: Text)
    requires (forall i :: 0 <= i < |x| ==> !WordChar(x[i])) && IsWord(key)
    ensures Sub(x + rest, key, v) == x + Sub(rest, key, v)
  {
    var text := x + rest;
    if x == "" {
      assert text == rest;
    } else {
      assert !(key <= text) by {
        assert WordChar(key[0]) && !WordChar(text[0]);
      }
      assert text[1..] == x[1..] + rest;
      SubOfSeparator(x[1..], rest, key, v);
      assert x == [x[0]] + x[1..];
    }
  }

  lemma StartOf(ps: seq<Piece>)
    requires WellFormed(ps) && (ps != [] ==> ps[0].Separator?)
    ensures Stops(TextOf(ps))
  {
  }

  /** The regular expression works word by word: a word that ends with the key has that end replaced, and nothing else changes. */
  lemma {:induction false} SubIsByWord(ps: seq<Piece>, key: Text, v: Text)
    requires WellFormed(ps) && IsWord(key)
    ensures Sub(TextOf(ps), key, v) == TextOf(SubPieces(ps, key, v))
  {
    if ps != [] {
      SubIsByWord(ps[1..], key, v);
      assert SubPieces(ps, key, v)[1..] == SubPieces(ps[1..], key, v);
      if ps[0].Word? {
        StartOf(ps[1..]);
        SubOfWord(ps[0].text, TextOf(ps[1..]), key, v);
      } else {
        SubOfSeparator(ps[0].text, TextOf(ps[1..]), key, v);
      }
    }
  }

  lemma SubKeepsForm(ps: seq<Piece>, key: Text, v: Text)
    requires WellFormed(ps) && IsWord(key) && IsWord(v)
    ensures WellFormed(SubPieces(ps, key, v))
  {
    forall i | 0 <= i < |ps|
      ensures PieceOk(SubPiece(ps[i], key, v))
    {
      assert PieceOk(ps[i]);
    }
  }

  // ----- The whole loop -----

  function Digit(d: nat): char
    requires d < 10
  {
    "0123456789"[d]
  }

  function Decimal(n: nat): Text {
    if n < 10 then [Digit(n)] else Decimal(n / 10) + [Digit(n % 10)]
  }

  /** f"var_{i}" */
  function SafeVar(i: nat): Text {
    "var_" + Decimal(i)
  }

  /** The text after the first n substitutions. */
  function Rewritten(text: Text, keys: seq<Text>, n: nat): Text
    requires n <= |keys| && forall i :: 0 <= i < |keys| ==> IsWord(keys[i])
  {
    if n == 0 then text else Sub(Rewritten(text, keys, n - 1), keys[n - 1], SafeVar(n - 1))
  }

  function RewrittenWord(w: Text, keys: seq<Text>, n: nat): Text
    requires n <= |keys|
  {
    if n == 0 then w else SubWord(RewrittenWord(w, keys, n - 1), keys[n - 1], SafeVar(n - 1))
  }

  function RewrittenPieces(ps: seq<Piece>, keys: seq<Text>, n: nat): seq<Piece>
    requires n <= |keys|
  {
    seq(|ps|, i requires 0 <= i < |ps| => if ps[i].Word? then Word(RewrittenWord(ps[i].text, keys, n)) else ps[i])
  }

  lemma {:induction false} DecimalIsWord(n: nat)
    ensures IsWord(Decimal(n))
  {
    if n >= 10 {
      DecimalIsWord(n / 10);
    }
  }

  lemma SafeVarIsWord(i: nat)
    ensures IsWord(SafeVar(i))
  {
    DecimalIsWord(i);
  }

  lemma {:induction false} DecimalIsInjective(m: nat, n: nat)
    requires Decimal(m) == Decimal(n)
    ensures m == n
  {
    var x, y := Decimal(m), Decimal(n);
    assert x[|x| - 1] == Digit(m % 10) && y[|y| - 1] == Digit(n % 10);
    assert m % 10 == n % 10;
    DecimalLength(m);
    DecimalLength(n);
    if m >= 10 && n >= 10 {
      assert Decimal(m / 10) == x[..|x| - 1] && Decimal(n / 10) == y[..|y| - 1];
      DecimalIsInjective(m / 10, n / 10);
    }
  }

  lemma {:induction false} DecimalLength(n: nat)
    ensures |Decimal(n)| >= 1 && (|Decimal(n)| == 1 <==> n < 10)
  {
    if n >= 10 {
      DecimalLength(n / 10);
    }
  }

  lemma SafeVarIsInjective(i: nat, j: nat)
    requires SafeVar(i) == SafeVar(j)
    ensures i == j
  {
    assert SafeVar(i)[4..] == Decimal(i) && SafeVar(j)[4..] == Decimal(j);
    DecimalIsInjective(i, j);
  }

  lemma {:induction false} RewritingIsByWord(ps: seq<Piece>, keys: seq<Text>, n: nat)
    requires WellFormed(ps) && n <= |keys| && forall i :: 0 <= i < |keys| ==> IsWord(keys[i])
    ensures WellFormed(RewrittenPieces(ps, keys, n))
    ensures Rewritten(TextOf(ps), keys, n) == TextOf(RewrittenPieces(ps, keys, n))
  {
    if n == 0 {
      assert RewrittenPieces(ps, keys, 0) == ps;
    } else {
      RewritingIsByWord(ps, keys, n - 1);
      var before := RewrittenPieces(ps, keys, n - 1);
      SubIsByWord(before, keys[n - 1], SafeVar(n - 1));
      SafeVarIsWord(n - 1);
      SubKeepsForm(before, keys[n - 1], SafeVar(n - 1));
      assert SubPieces(before, keys[n - 1], SafeVar(n - 1)) == RewrittenPieces(ps, keys, n);
    }
  }

  /** Sorted by falling length, without repeats. */
  ghost predicate LongestFirst(keys: seq<Text>) {
    && (forall i :: 0 <= i < |keys| ==> IsWord(keys[i]))
    && (forall i, j :: 0 <= i < j < |keys| ==> |keys[i]| >= |keys[j]| && keys[i] != keys[j])
  }

  /** No generated variable ends with a key. */
  ghost predicate VarsAreFresh(keys: seq<Text>) {
    forall i, j :: 0 <= i < |keys| && 0 <= j < |keys| ==> !EndsWith(SafeVar(j), keys[i])
  }

  /** Nor does a key end with a generated variable. */
  ghost predicate FreshVars(keys: seq<Text>) {
    VarsAreFresh(keys) && forall i, j :: 0 <= i < |keys| && 0 <= j < |keys| ==> !EndsWith(keys[i], SafeVar(j))
  }

  /** The first key that this word ends with, or the number of keys. */
  function FirstSuffix(w: Text, keys: seq<Text>, n: nat): (r: nat)
    requires n <= |keys|
    ensures r <= n
    ensures forall i :: 0 <= i < r ==> !EndsWith(w, keys[i])
    ensures r < n ==> EndsWith(w, keys[r])
  {
    if n == 0 then 0
    else
      var r := FirstSuffix(w, keys, n - 1);
      if r < n - 1 || EndsWith(w, keys[n - 1]) then r else n
  }

  lemma SuffixOfSuffix(w: Text, x: Text, y: Text)
    requires EndsWith(w, x) && EndsWith(w, y) && |x| <= |y|
    ensures EndsWith(y, x)
  {
    assert y[|y| - |x|..] == w[|w| - |x|..];
  }

  lemma NoOtherSuffix(p: Text, v: Text, key: Text)
    requires !EndsWith(v, key) && !EndsWith(key, v)
    ensures !EndsWith(p + v, key)
  {
    var now := p + v;
    assert EndsWith(now, v);
    if EndsWith(now, key) {
      if |key| <= |v| {
        SuffixOfSuffix(now, key, v);
      } else {
        SuffixOfSuffix(now, v, key);
      }
    }
  }

  /** The word with its r-th key replaced, if it has one. */
  function Changed(w: Text, keys: seq<Text>, r: nat): Text
    requires r <= |keys| && (r < |keys| ==> EndsWith(w, keys[r]))
  {
    if r < |keys| then w[..|w| - |keys[r]|] + SafeVar(r) else w
  }

  /** Only the first key that a word ends with ever touches it. */
  lemma {:induction false} OneChange(w: Text, keys: seq<Text>, n: nat)
    requires n <= |keys| && FreshVars(keys)
    ensures var r := FirstSuffix(w, keys, n);
      RewrittenWord(w, keys, n) == if r < n then Changed(w, keys, r) else w
  {
    if n > 0 {
      OneChange(w, keys, n - 1);
      var r := FirstSuffix(w, keys, n - 1);
      if r < n - 1 {
        ChangedStays(w, keys, r, n - 1);
      }
    }
  }

  lemma ChangedStays(w: Text, keys: seq<Text>, r: nat, m: nat)
    requires r < |keys| && m < |keys| && FreshVars(keys) && EndsWith(w, keys[r])
    ensures SubWord(Changed(w, keys, r), keys[m], SafeVar(m)) == Changed(w, keys, r)
  {
    assert !EndsWith(keys[m], SafeVar(r)) && !EndsWith(SafeVar(r), keys[m]);
    Untouched(w[..|w| - |keys[r]|], SafeVar(r), keys[m], SafeVar(m));
  }

  lemma Untouched(p: Text, v: Text, key: Text, v': Text)
    requires !EndsWith(v, key) && !EndsWith(key, v)
    ensures SubWord(p + v, key, v') == p + v
  {
    NoOtherSuffix(p, v, key);
  }

  lemma Cancel(w: Text, key: Text, v: Text)
    requires EndsWith(w, key) && key != v
    ensures w[..|w| - |key|] + v != w
  {
    var p := w[..|w| - |key|];
    assert (p + v)[|p|..] == v && w[|p|..] == key;
  }

  /** A word is a key, and goes to that key's variable, or it stays as it is. */
  function Renamed(w: Text, keys: seq<Text>): Text {
    if w in keys then SafeVar(IndexOf(w, keys)) else w
  }

  function IndexOf(w: Text, keys: seq<Text>): (i: nat)
    requires w in keys
    ensures i < |keys| && keys[i] == w
  {
    if keys[0] == w then 0 else 1 + IndexOf(w, keys[1..])
  }

  /** The word is a key or ends with none. */
  ghost predicate CleanWord(w: Text, keys: seq<Text>) {
    w in keys || forall i :: 0 <= i < |keys| ==> !EndsWith(w, keys[i])
  }

  lemma {:induction false} StaysWithoutSuffix(w: Text, keys: seq<Text>, n: nat)
    requires n <= |keys| && forall i :: 0 <= i < n ==> !EndsWith(w, keys[i])
    ensures RewrittenWord(w, keys, n) == w
  {
    if n > 0 {
      StaysWithoutSuffix(w, keys, n - 1);
    }
  }

  /** A longer key, or another one of the same length, does not end this one. */
  lemma NotSuffix(keys: seq<Text>, i: nat, r: nat)
    requires LongestFirst(keys) && i < r < |keys|
    ensures !EndsWith(keys[r], keys[i])
  {
    assert keys[r][0..] == keys[r];
  }

  /** A key becomes its variable in its turn, and is not touched before or after. */
  lemma {:induction false} KeyIsRenamed(keys: seq<Text>, r: nat, n: nat)
    requires LongestFirst(keys) && VarsAreFresh(keys) && r < |keys| && n <= |keys|
    ensures RewrittenWord(keys[r], keys, n) == if n <= r then keys[r] else SafeVar(r)
  {
    if n > 0 {
      KeyIsRenamed(keys, r, n - 1);
      if n - 1 < r {
        NotSuffix(keys, n - 1, r);
      } else if n - 1 == r {
        SubWholeWord(keys[r], SafeVar(r));
      }
    }
  }

  /** A clean word is renamed rightly. */
  lemma CleanWordIsRenamed(w: Text, keys: seq<Text>)
    requires LongestFirst(keys) && VarsAreFresh(keys) && CleanWord(w, keys)
    ensures RewrittenWord(w, keys, |keys|) == Renamed(w, keys)
  {
    if w in keys {
      KeyIsRenamed(keys, IndexOf(w, keys), |keys|);
    } else {
      StaysWithoutSuffix(w, keys, |keys|);
    }
  }

  /** Rewriting renames a word rightly exactly when the word is a key or ends with none.  Longest first is what lets a key end with
      another key. */
  lemma WordIsRenamedIff(w: Text, keys: seq<Text>)
    requires LongestFirst(keys) && FreshVars(keys)
    ensures RewrittenWord(w, keys, |keys|) == Renamed(w, keys) <==> CleanWord(w, keys)
  {
    var r := FirstSuffix(w, keys, |keys|);
    if CleanWord(w, keys) {
      CleanWordIsRenamed(w, keys);
    } else {
      OneChange(w, keys, |keys|);
      Cancel(w, keys[r], SafeVar(r));
    }
  }

  // ----- A text has one reading -----

  /** Words where the other has words, and the same separators. */
  ghost predicate SameShape(xs: seq<Piece>, ys: seq<Piece>) {
    |xs| == |ys| && forall i :: 0 <= i < |xs| ==> xs[i].Word? == ys[i].Word? && (xs[i].Separator? ==> xs[i] == ys[i])
  }

  /** A word ends where its text stops. */
  lemma WordEnds(a: Text, rest: Text, b: Text, other: Text)
    requires (forall i :: 0 <= i < |a| ==> WordChar(a[i])) && (forall i :: 0 <= i < |b| ==> WordChar(b[i]))
    requires Stops(rest) && Stops(other) && a + rest == b + other
    ensures a == b && rest == other
  {
    var text := a + rest;
    assert (forall i :: 0 <= i < |a| ==> text[i] == a[i]) && (rest != "" ==> text[|a|] == rest[0]);
    assert (forall i :: 0 <= i < |b| ==> text[i] == b[i]) && (other != "" ==> text[|b|] == other[0]);
    assert a == (a + rest)[..|a|] && b == (b + other)[..|b|];
    assert rest == (a + rest)[|a|..] && other == (b + other)[|b|..];
  }

  /** Texts of the same shape are equal only piece by piece. */
  lemma {:induction false} TextIsInjective(xs: seq<Piece>, ys: seq<Piece>)
    requires WellFormed(xs) && WellFormed(ys) && SameShape(xs, ys) && TextOf(xs) == TextOf(ys)
    ensures xs == ys
  {
    if xs != [] {
      if xs[0].Word? {
        StartOf(xs[1..]);
        StartOf(ys[1..]);
        WordEnds(xs[0].text, TextOf(xs[1..]), ys[0].text, TextOf(ys[1..]));
      } else {
        var t := xs[0].text;
        assert TextOf(xs[1..]) == TextOf(xs)[|t|..] == TextOf(ys[1..]);
      }
      TextIsInjective(xs[1..], ys[1..]);
      assert xs == [xs[0]] + xs[1..] && ys == [ys[0]] + ys[1..];
    }
  }
}
