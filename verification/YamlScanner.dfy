/** `add_comments_to_yaml_lines` and `get_all_yaml_paths` of scripts/expand_config_targets.py: a scanner that follows indentation with
two stacks, and a collector that follows the parsed tree. */
module YamlScanner {
  import opened PyList

  // ----- Text -----

  predicate Space(c: char) {
    c == ' ' || c == '\t' || c == '\n' || c == '\r'
  }

  /** `len(line) - len(line.lstrip())` */
  function Indent(s: string): (n: nat)
    ensures n <= |s|
    ensures forall i :: 0 <= i < n ==> Space(s[i])
    ensures n < |s| ==> !Space(s[n])
  {
    if s == "" || !Space(s[0]) then 0 else 1 + Indent(s[1..])
  }

  function LStrip(s: string): string {
    s[Indent(s)..]
  }

  function REnd(s: string): (n: nat)
    ensures n <= |s|
    ensures n > 0 ==> !Space(s[n - 1])
    ensures forall i :: n <= i < |s| ==> Space(s[i])
  {
    if s == "" || !Space(s[|s| - 1]) then |s| else REnd(s[..|s| - 1])
  }

  function RStrip(s: string): string {
    s[..REnd(s)]
  }

  /** The place of the first colon, or the length. */
  function Colon(s: string): (n: nat)
    ensures n <= |s| && (n < |s| ==> s[n] == ':')
    ensures forall i :: 0 <= i < n ==> s[i] != ':'
  {
    if s == "" || s[0] == ':' then 0 else 1 + Colon(s[1..])
  }

  const MARK := "# [auto-convert]"

  function Contains(s: string, x: string): bool {
    x <= s || (s != "" && Contains(s[1..], x))
  }

  /** `line.rstrip() + '  # [auto-convert]\n'` unless the line has the comment. */
  function Marked(line: string): string {
    MarkedWith(line, MARK, "  ", "\n")
  }

  function MarkedWith(line: string, mark: string, before: string, after: string): string {
    if Contains(line, mark) then line else RStrip(line) + before + mark + after
  }

  // ----- The scanner -----

  /** `path_stack` and `indent_stack` */
  datatype Stack = Stack(path: seq<string>, indents: seq<nat>)

  function Pop(s: Stack, indent: nat): Stack
    decreases |s.indents|
  {
    if s.indents != [] && indent <= s.indents[|s.indents| - 1] then
      Pop(Stack(if s.path != [] then s.path[..|s.path| - 1] else [], s.indents[..|s.indents| - 1]), indent)
    else s
  }

  function Join(path: seq<string>): string {
    if path == [] then ""
    else if |path| == 1 then path[0]
    else Join(path[..|path| - 1]) + "." + path[|path| - 1]
  }

  predicate Ignored(line: string) {
    LStrip(line) == "" || LStrip(line)[0] == '#'
  }

  function KeyOf(line: string): string {
    RStrip(LStrip(LStrip(line)[..Colon(LStrip(line))]))
  }

  predicate HasKey(line: string) {
    Colon(LStrip(line)) < |LStrip(line)|
  }

  predicate Special(key: string) {
    key == "_target_" || key == "-"
  }

  /** The stack after a line. */
  function Next(s: Stack, line: string): Stack {
    if Ignored(line) then s
    else
      var p := Pop(s, Indent(line));
      if !HasKey(line) || Special(KeyOf(line)) then p else Stack(p.path + [KeyOf(line)], p.indents + [Indent(line)])
  }

  /** The path spelled at a line, if it is a key line that is not special. */
  function Spelled(s: Stack, line: string): Option<string> {
    if Ignored(line) || !HasKey(line) || Special(KeyOf(line)) then None else Some(Join(Next(s, line).path))
  }

  function Scan(s: Stack, lines: seq<string>): seq<Option<string>>
    decreases |lines|
  {
    if lines == [] then [] else [Spelled(s, lines[0])] + Scan(Next(s, lines[0]), lines[1..])
  }

  function After(s: Stack, lines: seq<string>): Stack
    decreases |lines|
  {
    if lines == [] then s else After(Next(s, lines[0]), lines[1..])
  }

  /** The line that comes out: commented exactly when its path is a target. */
  function Commented(line: string, path: Option<string>, targets: set<string>): string {
    if path.Some? && path.value in targets then Marked(line) else line
  }

  function Comments(s: Stack, lines: seq<string>, targets: set<string>): seq<string>
    decreases |lines|
  {
    if lines == [] then []
    else [Commented(lines[0], Spelled(s, lines[0]), targets)] + Comments(Next(s, lines[0]), lines[1..], targets)
  }

  method PopStacks(path: seq<string>, indents: seq<nat>, indent: nat) returns (path': seq<string>, indents': seq<nat>)
    ensures Stack(path', indents') == Pop(Stack(path, indents), indent)
  {
    path', indents' := path, indents;
    while indents' != [] && indent <= indents'[|indents'| - 1]
      invariant Pop(Stack(path', indents'), indent) == Pop(Stack(path, indents), indent)
      decreases |indents'|
    {
      indents' := indents'[..|indents'| - 1];
      if path' != [] {
        path' := path'[..|path'| - 1];
      }
    }
  }

  /** One turn of the loop: the line that comes out, and both stacks. */
  method ScanLine(line: string, path: seq<string>, indents: seq<nat>, targets: set<string>)
      returns (out: string, path': seq<string>, indents': seq<nat>)
    ensures Stack(path', indents') == Next(Stack(path, indents), line)
    ensures out == Commented(line, Spelled(Stack(path, indents), line), targets)
  {
    out, path', indents' := line, path, indents;
    if Ignored(line) {
      return;
    }
    path', indents' := PopStacks(path, indents, Indent(line));
    if HasKey(line) {
      var key := KeyOf(line);
      if Special(key) {
        return;
      }
      path', indents' := path' + [key], indents' + [Indent(line)];
      if Join(path') in targets && !Contains(line, MARK) {
        out := RStrip(line) + "  " + MARK + "\n";
      }
    }
  }

  lemma CommentsFrom(s: Stack, lines: seq<string>, i: nat, targets: set<string>)
    requires i < |lines|
    ensures Comments(s, lines[i..], targets)
         == [Commented(lines[i], Spelled(s, lines[i]), targets)] + Comments(Next(s, lines[i]), lines[i + 1..], targets)
  {
    assert lines[i..][0] == lines[i] && lines[i..][1..] == lines[i + 1..];
  }

  method AddComments(lines: seq<string>, targets: set<string>) returns (result: seq<string>)
    ensures result == Comments(Stack([], []), lines, targets)
  {
    result := [];
    var path: seq<string>, indents: seq<nat> := [], [];
    for i := 0 to |lines|
      invariant Comments(Stack([], []), lines, targets) == result + Comments(Stack(path, indents), lines[i..], targets)
    {
      CommentsFrom(Stack(path, indents), lines, i, targets);
      var out: string;
      out, path, indents := ScanLine(lines[i], path, indents, targets);
      result := result + [out];
    }
  }

  // ----- A second pass changes nothing -----

  lemma {:induction false} IndentIs(s: string, n: nat)
    requires n < |s| && !Space(s[n]) && forall i :: 0 <= i < n ==> Space(s[i])
    ensures Indent(s) == n
  {
    if n > 0 {
      IndentIs(s[1..], n - 1);
    }
  }

  lemma {:induction false} ColonIs(s: string, n: nat)
    requires n < |s| && s[n] == ':' && forall i :: 0 <= i < n ==> s[i] != ':'
    ensures Colon(s) == n
  {
    if n > 0 {
      ColonIs(s[1..], n - 1);
    }
  }

  lemma {:induction false} ContainsMark(p: string, x: string, q: string)
    ensures Contains(p + x + q, x)
  {
    var s := p + x + q;
    if p == "" {
      assert s[..|x|] == x;
    } else {
      assert s[1..] == p[1..] + x + q;
      ContainsMark(p[1..], x, q);
    }
  }

  /** The colon of a key line is not cut off, so everything up to it stays. */
  lemma MarkKeepsStart(line: string, tail: string)
    requires !Ignored(line) && HasKey(line)
    ensures var k, m := Indent(line) + Colon(LStrip(line)), RStrip(line) + tail;
      k < |line| && k < |m| && m[..k + 1] == line[..k + 1]
  {
    var k := Indent(line) + Colon(LStrip(line));
    assert line[k] == LStrip(line)[Colon(LStrip(line))] == ':';
    StartStays(line, k, tail);
  }

  lemma StartStays(s: string, k: nat, tail: string)
    requires k < |s| && !Space(s[k])
    ensures k < |RStrip(s) + tail| && (RStrip(s) + tail)[..k + 1] == s[..k + 1]
  {
    assert REnd(s) > k;
  }

  lemma SameIndent(x: string, y: string, k: nat)
    requires Indent(x) <= k < |x| && k < |y| && x[..k + 1] == y[..k + 1]
    ensures Indent(y) == Indent(x) && LStrip(y)[..k + 1 - Indent(x)] == LStrip(x)[..k + 1 - Indent(x)]
  {
    var n := Indent(x);
    assert forall i :: 0 <= i <= k ==> x[..k + 1][i] == x[i] && y[..k + 1][i] == y[i];
    IndentIs(y, n);
    assert x[..k + 1][n..] == LStrip(x)[..k + 1 - n] && y[..k + 1][n..] == LStrip(y)[..k + 1 - n];
  }

  lemma SameColon(x: string, y: string)
    requires Colon(x) < |x| && Colon(x) < |y| && x[..Colon(x) + 1] == y[..Colon(x) + 1]
    ensures Colon(y) == Colon(x) && y[..Colon(x)] == x[..Colon(x)] && x[0] == y[0]
  {
    var c := Colon(x);
    assert forall i :: 0 <= i <= c ==> x[..c + 1][i] == x[i] && y[..c + 1][i] == y[i];
    ColonIs(y, c);
    assert x[..c + 1][..c] == x[..c] && y[..c + 1][..c] == y[..c];
  }

  lemma SameStart(line: string, m: string)
    requires !Ignored(line) && HasKey(line)
    requires var k := Indent(line) + Colon(LStrip(line)); k < |line| && k < |m| && m[..k + 1] == line[..k + 1]
    ensures !Ignored(m) && HasKey(m) && Indent(m) == Indent(line) && KeyOf(m) == KeyOf(line)
  {
    SameIndent(line, m, Indent(line) + Colon(LStrip(line)));
    SameColon(LStrip(line), LStrip(m));
  }

  /** Whatever is put at the end of a key line, neither its indentation nor its key changes, and it is not put there twice. */
  lemma MarkWithKeepsKey(line: string, mark: string, before: string, after: string)
    requires !Ignored(line) && HasKey(line)
    ensures var m := MarkedWith(line, mark, before, after);
      !Ignored(m) && HasKey(m) && Indent(m) == Indent(line) && KeyOf(m) == KeyOf(line) && MarkedWith(m, mark, before, after) == m
  {
    var m := MarkedWith(line, mark, before, after);
    if !Contains(line, mark) {
      assert m == RStrip(line) + (before + mark + after) == (RStrip(line) + before) + mark + after;
      MarkKeepsStart(line, before + mark + after);
      SameStart(line, m);
      ContainsMark(RStrip(line) + before, mark, after);
    }
  }

  /** A comment at the end of a key line changes neither its indentation nor its key. */
  lemma MarkKeepsKey(line: string)
    requires !Ignored(line) && HasKey(line)
    ensures var m := Marked(line); !Ignored(m) && HasKey(m) && Indent(m) == Indent(line) && KeyOf(m) == KeyOf(line)
    ensures Marked(Marked(line)) == Marked(line)
  {
    MarkWithKeepsKey(line, MARK, "  ", "\n");
  }

  predicate StandsAt(x: string, s: string, i: nat) {
    i + |x| <= |s| && s[i..i + |x|] == x
  }

  lemma {:induction false} ContainsIff(s: string, x: string)
    ensures Contains(s, x) <==> exists i :: 0 <= i <= |s| && StandsAt(x, s, i)
  {
    if i :| 0 <= i <= |s| && StandsAt(x, s, i) {
      assert s == s[..i] + x + s[i + |x|..];
      ContainsMark(s[..i], x, s[i + |x|..]);
    }
    if Contains(s, x) {
      if x <= s {
        assert StandsAt(x, s, 0);
      } else {
        ContainsIff(s[1..], x);
        var k :| 0 <= k <= |s[1..]| && StandsAt(x, s[1..], k);
        assert s[1..][k..k + |x|] == s[k + 1..k + 1 + |x|];
        assert StandsAt(x, s, k + 1);
      }
    }
  }

  /** This is the line without the blanks at its end. */
  ghost predicate Visible(v: string, line: string) {
    v <= line && (v == "" || !Space(v[|v| - 1])) && forall i :: |v| <= i < |line| ==> Space(line[i])
  }

  /** A line in which the comment stands somewhere stays as it is; any other is cut behind its last visible character and goes on with two
      blanks, the comment and a newline. */
  lemma MarkedIs(line: string) returns (visible: string)
    ensures Visible(visible, line)
    ensures Marked(line) ==
      if exists i :: 0 <= i <= |line| && StandsAt("# [auto-convert]", line, i) then line
      else visible + "  " + "# [auto-convert]" + "\n"
  {
    ContainsIff(line, MARK);
    visible := RStrip(line);
  }

  lemma CommentedIsScannedAlike(s: Stack, line: string, targets: set<string>)
    ensures var m := Commented(line, Spelled(s, line), targets);
      Next(s, m) == Next(s, line) && Spelled(s, m) == Spelled(s, line) && Commented(m, Spelled(s, m), targets) == m
  {
    if !Ignored(line) && HasKey(line) {
      MarkKeepsKey(line);
    }
  }

  /** Running the script on its own output changes nothing, whatever the lines are. */
  lemma {:induction false} SecondPassChangesNothing(s: Stack, lines: seq<string>, targets: set<string>)
    ensures Comments(s, Comments(s, lines, targets), targets) == Comments(s, lines, targets)
    decreases |lines|
  {
    if lines != [] {
      CommentedIsScannedAlike(s, lines[0], targets);
      SecondPassChangesNothing(Next(s, lines[0]), lines[1..], targets);
    }
  }

  // ----- The tree and its text -----

  /** A parsed mapping without lists, with the layout it was printed in: how much deeper its children are indented, and the blank and
      comment lines before each entry. */
  datatype Tree = Scalar(text: string) | Mapping(step: nat, entries: Entries)
  datatype Entries = Nil | Cons(noise: seq<string>, key: string, value: Tree, tail: Entries)

  /** A key whose text is the key: no colon, no blanks around it, not a comment and not a list dash. */
  predicate PlainKey(k: string) {
    k != "" && !Space(k[0]) && !Space(k[|k| - 1]) && k[0] != '#' && ':' !in k && k != "-"
  }

  /** A blank line, or one on which only blanks stand before a `#`. */
  ghost predicate Noise(line: string) {
    exists n :: 0 <= n <= |line| && BlankUpTo(line, n) && (n == |line| || line[n] == '#')
  }

  ghost predicate BlankUpTo(line: string, n: nat)
    requires n <= |line|
  {
    forall i :: 0 <= i < n ==> Space(line[i])
  }

  lemma NoiseIsIgnored(line: string)
    ensures Ignored(line) <==> Noise(line)
  {
    var m := Indent(line);
    assert BlankUpTo(line, m) && LStrip(line) == line[m..];
    if n :| 0 <= n <= |line| && BlankUpTo(line, n) && (n == |line| || line[n] == '#') {
      if n < |line| {
        IndentIs(line, n);
      } else {
        assert m == |line|;
      }
    }
  }

  ghost predicate WellPrinted(t: Tree) {
    t.Mapping? ==> t.step > 0 && EntriesWellPrinted(t.entries)
  }

  ghost predicate EntriesWellPrinted(es: Entries) {
    es.Cons? ==>
      (forall i :: 0 <= i < |es.noise| ==> Noise(es.noise[i])) && PlainKey(es.key) && WellPrinted(es.value) && EntriesWellPrinted(es.tail)
  }

  function Blanks(n: nat): string {
    seq(n, _ => ' ')
  }

  function KeyLine(indent: nat, key: string, value: Tree): string {
    Blanks(indent) + (key + (":" + (if value.Scalar? then " " + value.text + "\n" else "\n")))
  }

  function Lines(es: Entries, indent: nat): seq<string> {
    match es
    case Nil => []
    case Cons(noise, key, value, tail) => noise + ([KeyLine(indent, key, value)] + (LinesBelow(value, indent) + Lines(tail, indent)))
  }

  function LinesBelow(t: Tree, indent: nat): seq<string> {
    match t case Scalar(_) => [] case Mapping(step, entries) => Lines(entries, indent + step)
  }

  /** `get_all_yaml_paths(data, prefix)` on a mapping without lists, in the order in which the paths are added. */
  function Collected(es: Entries, prefix: string): seq<string> {
    match es
    case Nil => []
    case Cons(_, key, value, tail) =>
      if key == "_target_" then Collected(tail, prefix)
      else
        var path := if prefix != "" then prefix + "." + key else key;
        [path] + (CollectedBelow(value, path) + Collected(tail, prefix))
  }

  function CollectedBelow(t: Tree, path: string): seq<string> {
    match t case Scalar(_) => [] case Mapping(_, entries) => Collected(entries, path)
  }

  /** What the scanner spells at each line: entries below `_target_` are spelled as if they stood beside it. */
  function Spelling(es: Entries, path: seq<string>): seq<Option<string>> {
    match es
    case Nil => []
    case Cons(noise, key, value, tail) =>
      var here := if key == "_target_" then path else path + [key];
      Repeat(None, |noise|)
        + ([if key == "_target_" then None else Some(Join(here))] + (SpellingBelow(value, here) + Spelling(tail, path)))
  }

  function SpellingBelow(t: Tree, path: seq<string>): seq<Option<string>> {
    match t case Scalar(_) => [] case Mapping(_, entries) => Spelling(entries, path)
  }

  // ----- The stack spells the path -----

  /** The stack is `base`, whose entries are indented less than this, and others on top, which are not. */
  ghost predicate RestsOn(s: Stack, base: Stack, indent: nat) {
    var b := |base.indents|;
    && b == |base.path| <= |s.path| == |s.indents|
    && s.path[..b] == base.path && s.indents[..b] == base.indents
    && (forall i :: 0 <= i < b ==> base.indents[i] < indent)
    && (forall i :: b <= i < |s.indents| ==> s.indents[i] >= indent)
  }

  lemma {:induction false} PopTo(s: Stack, base: Stack, indent: nat)
    requires RestsOn(s, base, indent)
    ensures Pop(s, indent) == base
    decreases |s.indents|
  {
    var n, b := |s.indents|, |base.indents|;
    if n > b {
      var t := Stack(s.path[..n - 1], s.indents[..n - 1]);
      assert t.path[..b] == s.path[..b] && t.indents[..b] == s.indents[..b];
      PopTo(t, base, indent);
    } else {
      assert s.path[..b] == s.path && s.indents[..b] == s.indents;
      if n > 0 {
        assert base.indents[n - 1] < indent;
      }
    }
  }

  lemma {:induction false} ScanConcat(s: Stack, xs: seq<string>, ys: seq<string>)
    ensures Scan(s, xs + ys) == Scan(s, xs) + Scan(After(s, xs), ys)
    ensures After(s, xs + ys) == After(After(s, xs), ys)
    decreases |xs|
  {
    if xs == [] {
      assert xs + ys == ys;
    } else {
      assert (xs + ys)[0] == xs[0] && (xs + ys)[1..] == xs[1..] + ys;
      ScanConcat(Next(s, xs[0]), xs[1..], ys);
    }
  }

  lemma {:induction false} NoiseIsSkipped(s: Stack, noise: seq<string>)
    requires forall i :: 0 <= i < |noise| ==> Ignored(noise[i])
    ensures Scan(s, noise) == Repeat(None, |noise|) && After(s, noise) == s
    decreases |noise|
  {
    if noise != [] {
      NoiseIsSkipped(s, noise[1..]);
    }
  }

  lemma ReadsKey(indent: nat, key: string, rest: string)
    requires key != "" && !Space(key[0]) && !Space(key[|key| - 1]) && key[0] != '#' && ':' !in key
    ensures var line := Blanks(indent) + (key + (":" + rest));
      !Ignored(line) && HasKey(line) && Indent(line) == indent && KeyOf(line) == key
  {
    var body := key + (":" + rest);
    var line := Blanks(indent) + body;
    assert body[0] == key[0] && line[indent] == body[0];
    IndentIs(line, indent);
    assert LStrip(line) == body;
    assert body[|key|] == ':' && forall i :: 0 <= i < |key| ==> body[i] == key[i];
    ColonIs(body, |key|);
    assert body[..|key|] == key;
    IndentIs(key, 0);
    assert key[0..] == key && key[..|key|] == key;
  }

  lemma KeyLineReads(indent: nat, key: string, value: Tree)
    requires PlainKey(key)
    ensures var line := KeyLine(indent, key, value);
      !Ignored(line) && HasKey(line) && Indent(line) == indent && KeyOf(line) == key
  {
    ReadsKey(indent, key, if value.Scalar? then " " + value.text + "\n" else "\n");
  }

  lemma OneLine(s: Stack, line: string)
    ensures Scan(s, [line]) == [Spelled(s, line)] && After(s, [line]) == Next(s, line)
  {
  }

  /** The key line itself: the stack is cut back to its base, and the key goes on top unless it is `_target_`. */
  lemma KeyLineStep(key: string, value: Tree, indent: nat, s: Stack, base: Stack)
    requires PlainKey(key) && RestsOn(s, base, indent)
    ensures var line := KeyLine(indent, key, value);
      && Next(s, line) == (if key == "_target_" then base else Stack(base.path + [key], base.indents + [indent]))
      && Spelled(s, line) == (if key == "_target_" then None else Some(Join(base.path + [key])))
  {
    KeyLineReads(indent, key, value);
    PopTo(s, base, indent);
  }

  /** Lines whose key is `_target_` or a dash are passed on without a comment; they cut the stack back and put nothing on it. */
  lemma SpecialLine(key: string, rest: string, indent: nat, s: Stack, targets: set<string>)
    requires key == "_target_" || key == "-"
    ensures var line := Blanks(indent) + (key + (":" + rest));
      Commented(line, Spelled(s, line), targets) == line && Next(s, line) == Pop(s, indent)
  {
    ReadsKey(indent, key, rest);
  }

  /** At every line of a printed mapping the scanner's stack spells the path of that line, and it leaves the stack below it alone. */
  lemma {:induction false} StackSpellsPath(es: Entries, indent: nat, s: Stack, base: Stack)
    requires EntriesWellPrinted(es) && RestsOn(s, base, indent)
    ensures Scan(s, Lines(es, indent)) == Spelling(es, base.path)
    ensures RestsOn(After(s, Lines(es, indent)), base, indent)
    decreases es, 1
  {
    if es.Cons? {
      var line := KeyLine(indent, es.key, es.value);
      var below, rest := LinesBelow(es.value, indent), Lines(es.tail, indent);
      var t := Next(s, line);
      KeyLineStep(es.key, es.value, indent, s, base);
      SpellsBelow(es.value, indent, t);
      var u := After(t, below);
      RestsOnBelow(u, t, base, es.key, indent);
      StackSpellsPath(es.tail, indent, u, base);
      forall i | 0 <= i < |es.noise|
        ensures Ignored(es.noise[i])
      {
        NoiseIsIgnored(es.noise[i]);
      }
      ScanParts(s, es.noise, line, below, rest);
    }
  }

  lemma ScanParts(s: Stack, noise: seq<string>, line: string, below: seq<string>, rest: seq<string>)
    requires forall i :: 0 <= i < |noise| ==> Ignored(noise[i])
    ensures var t := Next(s, line);
      && Scan(s, noise + ([line] + (below + rest)))
           == Repeat(None, |noise|) + ([Spelled(s, line)] + (Scan(t, below) + Scan(After(t, below), rest)))
      && After(s, noise + ([line] + (below + rest))) == After(After(t, below), rest)
  {
    NoiseIsSkipped(s, noise);
    ScanConcat(s, noise, [line] + (below + rest));
    ScanConcat(s, [line], below + rest);
    OneLine(s, line);
    ScanConcat(Next(s, line), below, rest);
  }

  lemma RestsOnBelow(u: Stack, t: Stack, base: Stack, key: string, indent: nat)
    requires t == base || t == Stack(base.path + [key], base.indents + [indent])
    requires |base.path| == |base.indents| && forall i :: 0 <= i < |base.indents| ==> base.indents[i] < indent
    requires RestsOn(u, t, indent + 1)
    ensures RestsOn(u, base, indent)
  {
    var b := |base.indents|;
    assert u.path[..b] == t.path[..b] && u.indents[..b] == t.indents[..b];
    assert t.path[..b] == base.path && t.indents[..b] == base.indents;
    if t != base {
      assert u.indents[b] == t.indents[b] == indent;
    }
  }

  lemma {:induction false} SpellsBelow(t: Tree, indent: nat, s: Stack)
    requires WellPrinted(t) && |s.path| == |s.indents| && forall i :: 0 <= i < |s.indents| ==> s.indents[i] <= indent
    ensures Scan(s, LinesBelow(t, indent)) == SpellingBelow(t, s.path)
    ensures RestsOn(After(s, LinesBelow(t, indent)), s, indent + 1)
    decreases t, 0
  {
    if t.Mapping? {
      StackSpellsPath(t.entries, indent + t.step, s, s);
    }
  }

  // ----- The scanner agrees with the collector -----

  /** No `_target_` holds a mapping with keys of its own. */
  predicate TargetsArePlain(es: Entries) {
    match es
    case Nil => true
    case Cons(_, key, value, tail) =>
      (if key == "_target_" then Count(SpellingBelow(value, [])) == 0 else PlainBelow(value)) && TargetsArePlain(tail)
  }

  predicate PlainBelow(t: Tree) {
    match t case Scalar(_) => true case Mapping(_, entries) => TargetsArePlain(entries)
  }

  /** The paths among these. */
  function Paths(xs: seq<Option<string>>): seq<string> {
    if xs == [] then [] else (if xs[0].Some? then [xs[0].value] else []) + Paths(xs[1..])
  }

  function Count(xs: seq<Option<string>>): nat {
    |Paths(xs)|
  }

  lemma {:induction false} PathsConcat(xs: seq<Option<string>>, ys: seq<Option<string>>)
    ensures Paths(xs + ys) == Paths(xs) + Paths(ys)
  {
    if xs == [] {
      assert xs + ys == ys;
    } else {
      assert (xs + ys)[1..] == xs[1..] + ys;
      PathsConcat(xs[1..], ys);
    }
  }

  lemma {:induction false} PathsOfNoise(n: nat)
    ensures Paths(Repeat(None, n)) == []
  {
    if n > 0 {
      assert Repeat<Option<string>>(None, n)[1..] == Repeat(None, n - 1);
      PathsOfNoise(n - 1);
    }
  }

  lemma PathsOfEntry(noise: nat, here: Option<string>, below: seq<Option<string>>, rest: seq<Option<string>>)
    ensures Paths(Repeat(None, noise) + ([here] + (below + rest)))
         == (if here.Some? then [here.value] else []) + (Paths(below) + Paths(rest))
  {
    PathsOfNoise(noise);
    PathsConcat(Repeat(None, noise), [here] + (below + rest));
    PathsConcat([here], below + rest);
    PathsConcat(below, rest);
    assert [here][1..] == [];
  }

  lemma JoinExtends(path: seq<string>, key: string)
    requires path != [] ==> Join(path) != ""
    ensures Join(path + [key]) == if path == [] then key else Join(path) + "." + key
  {
    assert (path + [key])[..|path|] == path;
  }

  /** What is spelled below a place depends on the place only through the paths themselves: their number does not change. */
  lemma {:induction false} CountIgnoresPlace(es: Entries, p: seq<string>, q: seq<string>)
    ensures Count(Spelling(es, p)) == Count(Spelling(es, q))
    decreases es, 1
  {
    if es.Cons? {
      var p', q' := if es.key == "_target_" then p else p + [es.key], if es.key == "_target_" then q else q + [es.key];
      CountBelowIgnoresPlace(es.value, p', q');
      CountIgnoresPlace(es.tail, p, q);
      PathsOfEntry(|es.noise|, if es.key == "_target_" then None else Some(Join(p')), SpellingBelow(es.value, p'), Spelling(es.tail, p));
      PathsOfEntry(|es.noise|, if es.key == "_target_" then None else Some(Join(q')), SpellingBelow(es.value, q'), Spelling(es.tail, q));
    }
  }

  lemma {:induction false} CountBelowIgnoresPlace(t: Tree, p: seq<string>, q: seq<string>)
    ensures Count(SpellingBelow(t, p)) == Count(SpellingBelow(t, q))
    decreases t, 0
  {
    if t.Mapping? {
      CountIgnoresPlace(t.entries, p, q);
    }
  }

  /** The paths spelled are the paths collected, in the same order, exactly when no `_target_` holds keys; otherwise there are more. */
  lemma {:induction false} SpelledIsCollectedIff(es: Entries, path: seq<string>)
    requires EntriesWellPrinted(es) && (path != [] ==> Join(path) != "")
    ensures Count(Spelling(es, path)) >= |Collected(es, Join(path))|
    ensures Paths(Spelling(es, path)) == Collected(es, Join(path)) <==> TargetsArePlain(es)
    ensures TargetsArePlain(es) <==> Count(Spelling(es, path)) == |Collected(es, Join(path))|
    decreases es, 1
  {
    if es.Cons? {
      var here := if es.key == "_target_" then path else path + [es.key];
      var below, rest := SpellingBelow(es.value, here), Spelling(es.tail, path);
      PathsOfEntry(|es.noise|, if es.key == "_target_" then None else Some(Join(here)), below, rest);
      SpelledIsCollectedIff(es.tail, path);
      if es.key == "_target_" {
        CountBelowIgnoresPlace(es.value, here, []);
      } else {
        JoinExtends(path, es.key);
        SpelledBelowIsCollectedIff(es.value, here);
      }
    }
  }

  lemma {:induction false} SpelledBelowIsCollectedIff(t: Tree, path: seq<string>)
    requires WellPrinted(t) && path != [] && Join(path) != ""
    ensures Count(SpellingBelow(t, path)) >= |CollectedBelow(t, Join(path))|
    ensures Paths(SpellingBelow(t, path)) == CollectedBelow(t, Join(path)) <==> PlainBelow(t)
    ensures PlainBelow(t) <==> Count(SpellingBelow(t, path)) == |CollectedBelow(t, Join(path))|
    decreases t, 0
  {
    if t.Mapping? {
      SpelledIsCollectedIff(t.entries, path);
    }
  }

  /** The scanner and the collector agree on a printed mapping, line by line and in order, if and only if no `_target_` holds keys
      of its own. */
  lemma ScannerAgreesIff(es: Entries, indent: nat)
    requires EntriesWellPrinted(es)
    ensures Paths(Scan(Stack([], []), Lines(es, indent))) == Collected(es, "") <==> TargetsArePlain(es)
  {
    StackSpellsPath(es, indent, Stack([], []), Stack([], []));
    SpelledIsCollectedIff(es, []);
  }

  lemma {:induction false} InPaths(xs: seq<Option<string>>, p: string)
    ensures p in Paths(xs) <==> Some(p) in xs
  {
    if xs != [] {
      InPaths(xs[1..], p);
    }
  }

  lemma {:induction false} CommentsFollowScan(s: Stack, lines: seq<string>, targets: set<string>)
    ensures |Comments(s, lines, targets)| == |Scan(s, lines)| == |lines|
    ensures forall i :: 0 <= i < |lines| ==> Comments(s, lines, targets)[i] == Commented(lines[i], Scan(s, lines)[i], targets)
    decreases |lines|
  {
    if lines != [] {
      CommentsFollowScan(Next(s, lines[0]), lines[1..], targets);
    }
  }

  /** A line gets the comment exactly when it spells a target; the paths spelled are exactly those collected from the tree, so every
      target that is a path of the tree is commented, and nothing else is. */
  lemma CommentedLinesAreTargets(es: Entries, indent: nat, targets: set<string>)
    requires EntriesWellPrinted(es) && TargetsArePlain(es)
    ensures var lines, s := Lines(es, indent), Stack([], []);
      && |Comments(s, lines, targets)| == |lines| == |Scan(s, lines)|
      && (forall i :: 0 <= i < |lines| ==>
            Comments(s, lines, targets)[i]
              == if Scan(s, lines)[i].Some? && Scan(s, lines)[i].value in targets then Marked(lines[i]) else lines[i])
      && (forall p :: p in targets ==> (p in Collected(es, "") <==> Some(p) in Scan(s, lines)))
  {
    CommentsFollowScan(Stack([], []), Lines(es, indent), targets);
    ScannerAgreesIff(es, indent);
    forall p | p in targets
      ensures p in Collected(es, "") <==> Some(p) in Scan(Stack([], []), Lines(es, indent))
    {
      InPaths(Scan(Stack([], []), Lines(es, indent)), p);
    }
  }
}
