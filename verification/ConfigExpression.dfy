/** Configuration expressions: the visitor `AstStructureExtractor` and the rewriting in `eval_func` of ajet/utils/config_computer.py.

An expression is rewritten as text, key by key, and the rewritten text is evaluated.  Parsing is taken to be the inverse of
`Print`, so evaluating a printed tree is evaluating the tree. */
module ConfigExpression {
  import opened PyList
  import opened KeySubstitution
  import opened ExpressionKeys

  // ----- Printing -----

  /** An attribute continues the word it follows, or stands after a parenthesis. */
  function AddTail(ps: seq<Piece>, tail: Text): seq<Piece> {
    if ps != [] && ps[|ps| - 1].Word? then ps[..|ps| - 1] + [Word(ps[|ps| - 1].text + tail)] else ps + [Word(tail)]
  }

  function Print(e: Expr): seq<Piece> {
    match e
    case Name(id) => [Word(id)]
    case Attribute(value, attr) => AddTail(Print(value), "." + attr)
    case Literal(word) => [Word(word)]
    case Call(func, args) => Print(func) + ([Separator("(")] + (PrintAll(args) + [Separator(")")]))
    case Binary(left, op, right) =>
      [Separator("(")] + (Print(left) + ([Separator(" "), op, Separator(" ")] + (Print(right) + [Separator(")")])))
  }

  function PrintAll(es: Exprs): seq<Piece> {
    match es
    case Nil => []
    case Cons(head, tail) => if tail == Nil then Print(head) else Print(head) + ([Separator(", ")] + PrintAll(tail))
  }

  const KEYWORDS: set<Text> := {"and", "or", "not", "in", "is", "if", "else", "None", "True", "False"}

  /** A word that cannot be an identifier or a dotted path. */
  predicate Reserved(w: Text) {
    w == "" || '0' <= w[0] <= '9' || w[0] == '.' || w in KEYWORDS
  }

  predicate Identifier(w: Text) {
    IsWord(w) && !Reserved(w) && '.' !in w
  }

  ghost predicate Printable(e: Expr) {
    match e
    case Name(id) => Identifier(id)
    case Attribute(value, attr) => Printable(value) && Identifier(attr) && !value.Literal?
    case Literal(word) => IsWord(word) && Reserved(word)
    case Call(func, args) => Printable(func) && AllPrintable(args)
    case Binary(left, op, right) => Printable(left) && PieceOk(op) && (op.Word? ==> Reserved(op.text)) && Printable(right)
  }

  ghost predicate AllPrintable(es: Exprs) {
    match es case Nil => true case Cons(head, tail) => Printable(head) && AllPrintable(tail)
  }

  lemma Glue(xs: seq<Piece>, ys: seq<Piece>)
    requires WellFormed(xs) && WellFormed(ys)
    requires xs != [] && ys != [] ==> xs[|xs| - 1].Separator? || ys[0].Separator?
    ensures WellFormed(xs + ys)
  {
  }

  lemma TailIsWellFormed(ps: seq<Piece>, tail: Text)
    requires WellFormed(ps) && IsWord(tail)
    ensures WellFormed(AddTail(ps, tail))
  {
  }

  lemma {:induction false} PrintIsWellFormed(e: Expr)
    requires Printable(e)
    ensures WellFormed(Print(e)) && Print(e) != []
    decreases e
  {
    match e
    case Name(_) =>
    case Literal(_) =>
    case Attribute(value, attr) =>
      PrintIsWellFormed(value);
      TailIsWellFormed(Print(value), "." + attr);
    case Call(func, args) =>
      PrintIsWellFormed(func);
      PrintAllIsWellFormed(args);
      Glue(PrintAll(args), [Separator(")")]);
      Glue([Separator("(")], PrintAll(args) + [Separator(")")]);
      Glue(Print(func), [Separator("(")] + (PrintAll(args) + [Separator(")")]));
    case Binary(left, op, right) =>
      PrintIsWellFormed(left);
      PrintIsWellFormed(right);
      var tail := [Separator(" "), op, Separator(" ")] + (Print(right) + [Separator(")")]);
      Glue(Print(right), [Separator(")")]);
      Glue([Separator(" "), op, Separator(" ")], Print(right) + [Separator(")")]);
      Glue(Print(left), tail);
      Glue([Separator("(")], Print(left) + tail);
  }

  lemma {:induction false} PrintAllIsWellFormed(es: Exprs)
    requires AllPrintable(es)
    ensures WellFormed(PrintAll(es))
    decreases es
  {
    if es.Cons? {
      PrintIsWellFormed(es.head);
      PrintAllIsWellFormed(es.tail);
      Glue([Separator(", ")], PrintAll(es.tail));
      Glue(Print(es.head), [Separator(", ")] + PrintAll(es.tail));
    }
  }

  // ----- Keys are paths, and paths are words -----

  lemma {:induction false} PathIsWord(e: Expr)
    requires Printable(e) && FullName(e).Some?
    ensures var path := FullName(e).value;
      IsWord(path) && !Reserved(path) && Print(e) == [Word(path)] && (e.Attribute? ==> '.' in path)
  {
    if e.Attribute? {
      PathIsWord(e.value);
      var base, path := FullName(e.value).value, FullName(e).value;
      assert path == base + ("." + e.attr);
      assert path[|base|] == '.' && path[0] == base[0];
      assert path !in KEYWORDS by {
        assert forall w :: w in KEYWORDS ==> '.' !in w;
      }
    }
  }

  /** Each key is a whole word of the printed text. */
  lemma {:induction false} KeysAreWords(e: Expr, path: Text)
    requires Printable(e) && path in Keys(e)
    ensures Word(path) in Print(e) && IsWord(path) && !Reserved(path)
    decreases e
  {
    match e
    case Call(func, args) =>
      if path in Keys(func) {
        KeysAreWords(func, path);
      } else {
        KeysOfAllAreWords(args, path);
      }
    case Binary(left, op, right) =>
      if path in Keys(left) {
        KeysAreWords(left, path);
      } else {
        KeysAreWords(right, path);
      }
    case _ => PathIsWord(e);
  }

  lemma {:induction false} KeysOfAllAreWords(es: Exprs, path: Text)
    requires AllPrintable(es) && path in KeysOfAll(es)
    ensures Word(path) in PrintAll(es) && IsWord(path) && !Reserved(path)
    decreases es
  {
    if path in Keys(es.head) {
      KeysAreWords(es.head, path);
    } else {
      KeysOfAllAreWords(es.tail, path);
    }
  }

  // ----- Rewriting and renaming -----

  /** Every maximal path that is a key becomes that key's variable. */
  function Rename(e: Expr, keys: seq<Text>): Expr {
    match e
    case Name(id) => Name(Renamed(id, keys))
    case Attribute(value, attr) =>
      if FullName(e).None? then Attribute(Rename(value, keys), attr)
      else if FullName(e).value in keys then Name(Renamed(FullName(e).value, keys))
      else e
    case Literal(_) => e
    case Call(func, args) => Call(Rename(func, keys), RenameAll(args, keys))
    case Binary(left, op, right) => Binary(Rename(left, keys), op, Rename(right, keys))
  }

  function RenameAll(es: Exprs, keys: seq<Text>): Exprs {
    match es case Nil => Nil case Cons(head, tail) => Cons(Rename(head, keys), RenameAll(tail, keys))
  }

  function RenamedPiece(p: Piece, keys: seq<Text>): Piece {
    if p.Word? then Word(Renamed(p.text, keys)) else p
  }

  function RenamedPieces(ps: seq<Piece>, keys: seq<Text>): seq<Piece> {
    seq(|ps|, i requires 0 <= i < |ps| => RenamedPiece(ps[i], keys))
  }

  lemma RenamedConcat(xs: seq<Piece>, ys: seq<Piece>, keys: seq<Text>)
    ensures RenamedPieces(xs + ys, keys) == RenamedPieces(xs, keys) + RenamedPieces(ys, keys)
  {
  }

  /** No key is a reserved word. */
  ghost predicate ArePaths(keys: seq<Text>) {
    forall i :: 0 <= i < |keys| ==> IsWord(keys[i]) && !Reserved(keys[i])
  }

  lemma ReservedStays(w: Text, keys: seq<Text>)
    requires ArePaths(keys) && Reserved(w)
    ensures Renamed(w, keys) == w
  {
  }

  lemma ReservedPieceStays(p: Piece, keys: seq<Text>)
    requires ArePaths(keys) && (p.Word? ==> Reserved(p.text))
    ensures RenamedPieces([p], keys) == [p]
  {
    if p.Word? {
      ReservedStays(p.text, keys);
    }
  }

  lemma SeparatorsStay(keys: seq<Text>, op: Piece)
    requires ArePaths(keys) && (op.Word? ==> Reserved(op.text))
    ensures RenamedPieces([Separator("(")], keys) == [Separator("(")]
    ensures RenamedPieces([Separator(")")], keys) == [Separator(")")]
    ensures RenamedPieces([Separator(", ")], keys) == [Separator(", ")]
    ensures RenamedPieces([Separator(" "), op, Separator(" ")], keys) == [Separator(" "), op, Separator(" ")]
  {
    ReservedPieceStays(op, keys);
    assert RenamedPieces([op], keys)[0] == RenamedPiece(op, keys);
  }

  /** The last piece of an attribute of something that is not a path: no word, or a word that starts with a dot. */
  lemma {:induction false} PathlessEnd(e: Expr)
    requires Printable(e) && FullName(e).None? && !e.Literal?
    ensures var p := Print(e)[|Print(e)| - 1]; Print(e) != [] && (p.Word? ==> p.text != "" && p.text[0] == '.')
  {
    PrintIsWellFormed(e);
    if e.Attribute? {
      PathlessEnd(e.value);
    }
  }

  lemma TailStays(ps: seq<Piece>, tail: Text, keys: seq<Text>)
    requires ArePaths(keys) && ps != [] && tail != "" && tail[0] == '.'
    requires var p := ps[|ps| - 1]; p.Word? ==> p.text != "" && p.text[0] == '.'
    ensures RenamedPieces(AddTail(ps, tail), keys) == AddTail(RenamedPieces(ps, keys), tail)
  {
    var p, n := ps[|ps| - 1], |ps| - 1;
    if p.Word? {
      assert (p.text + tail)[0] == '.';
      ReservedStays(p.text + tail, keys);
      ReservedStays(p.text, keys);
    } else {
      ReservedStays(tail, keys);
    }
  }

  /** Renaming the tree and renaming the words of its text are the same. */
  lemma {:induction false} PrintRenamed(e: Expr, keys: seq<Text>)
    requires Printable(e) && ArePaths(keys)
    ensures Print(Rename(e, keys)) == RenamedPieces(Print(e), keys)
    decreases e
  {
    match e
    case Name(_) =>
    case Literal(word) => ReservedStays(word, keys);
    case Attribute(value, attr) =>
      if FullName(e).Some? {
        PathIsWord(e);
      } else {
        PrintRenamed(value, keys);
        PathlessEnd(value);
        TailStays(Print(value), "." + attr, keys);
      }
    case Call(func, args) =>
      PrintRenamed(func, keys);
      PrintAllRenamed(args, keys);
      SeparatorsStay(keys, Separator(" "));
      RenamedConcat(PrintAll(args), [Separator(")")], keys);
      RenamedConcat([Separator("(")], PrintAll(args) + [Separator(")")], keys);
      RenamedConcat(Print(func), [Separator("(")] + (PrintAll(args) + [Separator(")")]), keys);
    case Binary(left, op, right) =>
      PrintRenamed(left, keys);
      PrintRenamed(right, keys);
      SeparatorsStay(keys, op);
      var middle := [Separator(" "), op, Separator(" ")];
      RenamedConcat(Print(right), [Separator(")")], keys);
      RenamedConcat(middle, Print(right) + [Separator(")")], keys);
      RenamedConcat(Print(left), middle + (Print(right) + [Separator(")")]), keys);
      RenamedConcat([Separator("(")], Print(left) + (middle + (Print(right) + [Separator(")")])), keys);
  }

  lemma {:induction false} PrintAllRenamed(es: Exprs, keys: seq<Text>)
    requires AllPrintable(es) && ArePaths(keys)
    ensures PrintAll(RenameAll(es, keys)) == RenamedPieces(PrintAll(es), keys)
    decreases es
  {
    if es.Cons? {
      PrintRenamed(es.head, keys);
      PrintAllRenamed(es.tail, keys);
      SeparatorsStay(keys, Separator(" "));
      RenamedConcat([Separator(", ")], PrintAll(es.tail), keys);
      RenamedConcat(Print(es.head), [Separator(", ")] + PrintAll(es.tail), keys);
    }
  }

  // ----- Meaning -----

  /** What names, literals and operations mean; the values include whatever Python raises. */
  datatype Env<!V> = Env(
    global: Text -> V, literal: Text -> V, getattr: (V, Text) -> V, call: (V, seq<V>) -> V, binary: (Piece, V, V) -> V)

  /** The value of a tree in which these paths are bound. */
  function Eval<V>(e: Expr, bound: map<Text, V>, env: Env<V>): V {
    match e
    case Name(id) => if id in bound then bound[id] else env.global(id)
    case Attribute(value, attr) =>
      if FullName(e).None? then env.getattr(Eval(value, bound, env), attr)
      else if FullName(e).value in bound then bound[FullName(e).value]
      else env.global(FullName(e).value)
    case Literal(word) => env.literal(word)
    case Call(func, args) => env.call(Eval(func, bound, env), EvalAll(args, bound, env))
    case Binary(left, op, right) => env.binary(op, Eval(left, bound, env), Eval(right, bound, env))
  }

  function EvalAll<V>(es: Exprs, bound: map<Text, V>, env: Env<V>): seq<V> {
    match es case Nil => [] case Cons(head, tail) => [Eval(head, bound, env)] + EvalAll(tail, bound, env)
  }

  /** The keys bound to their values. */
  function KeyBindings<V>(keys: seq<Text>, values: map<Text, V>): map<Text, V>
    requires forall k :: k in keys ==> k in values
  {
    map k | k in keys :: values[k]
  }

  /** `key_mapping` after the first n keys. */
  function VarBindings<V>(keys: seq<Text>, values: map<Text, V>, n: nat): map<Text, V>
    requires n <= |keys| && forall k :: k in keys ==> k in values
  {
    if n == 0 then map[] else VarBindings(keys, values, n - 1)[SafeVar(n - 1) := values[keys[n - 1]]]
  }

  lemma {:induction false} VarsAreBound<V>(keys: seq<Text>, values: map<Text, V>, n: nat)
    requires n <= |keys| && forall k :: k in keys ==> k in values
    ensures forall i :: 0 <= i < n ==> SafeVar(i) in VarBindings(keys, values, n)
    ensures forall i :: 0 <= i < n ==> VarBindings(keys, values, n)[SafeVar(i)] == values[keys[i]]
    ensures forall w :: w in VarBindings(keys, values, n) ==> exists i :: 0 <= i < n && w == SafeVar(i)
  {
    if n > 0 {
      VarsAreBound(keys, values, n - 1);
      forall i | 0 <= i < n - 1
        ensures SafeVar(i) != SafeVar(n - 1)
      {
        if SafeVar(i) == SafeVar(n - 1) {
          SafeVarIsInjective(i, n - 1);
        }
      }
    }
  }

  /** All paths, built-in ones too. */
  function Names(e: Expr): set<Text> {
    match e
    case Name(id) => {id}
    case Attribute(value, _) => if IsPath(e) then {FullName(e).value} else Names(value)
    case Literal(_) => {}
    case Call(func, args) => Names(func) + NamesOf(args)
    case Binary(left, _, right) => Names(left) + Names(right)
  }

  function NamesOf(es: Exprs): set<Text> {
    match es case Nil => {} case Cons(head, tail) => Names(head) + NamesOf(tail)
  }

  /** No path of the tree is already one of the variables. */
  ghost predicate Unused(names: set<Text>, n: nat) {
    forall i :: 0 <= i < n ==> SafeVar(i) !in names
  }

  /** Looking up a renamed path among the variables is looking up the path among the keys. */
  lemma LookUp<V>(path: Text, keys: seq<Text>, values: map<Text, V>)
    requires forall k :: k in keys ==> k in values
    requires forall i :: 0 <= i < |keys| ==> path != SafeVar(i)
    ensures var vars := VarBindings(keys, values, |keys|);
      if path in keys then Renamed(path, keys) in vars && vars[Renamed(path, keys)] == values[path]
      else path !in vars && Renamed(path, keys) == path
  {
    VarsAreBound(keys, values, |keys|);
  }

  lemma PathKeepsMeaning<V>(e: Expr, keys: seq<Text>, values: map<Text, V>, env: Env<V>)
    requires IsPath(e) && Unused(Names(e), |keys|) && forall k :: k in keys ==> k in values
    ensures Eval(Rename(e, keys), VarBindings(keys, values, |keys|), env) == Eval(e, KeyBindings(keys, values), env)
  {
    var path := FullName(e).value;
    assert path in Names(e);
    LookUp(path, keys, values);
  }

  /** A renamed tree means, with the variables bound, what the tree means with the keys bound. */
  lemma {:induction false} RenamingKeepsMeaning<V>(e: Expr, keys: seq<Text>, values: map<Text, V>, env: Env<V>)
    requires Unused(Names(e), |keys|) && forall k :: k in keys ==> k in values
    ensures Eval(Rename(e, keys), VarBindings(keys, values, |keys|), env) == Eval(e, KeyBindings(keys, values), env)
    decreases e
  {
    match e
    case Literal(_) =>
    case Name(_) => PathKeepsMeaning(e, keys, values, env);
    case Attribute(value, _) =>
      if IsPath(e) {
        PathKeepsMeaning(e, keys, values, env);
      } else {
        RenamingKeepsMeaning(value, keys, values, env);
        RenamedHasNoPath(value, keys);
      }
    case Call(func, args) =>
      RenamingKeepsMeaning(func, keys, values, env);
      RenamingAllKeepsMeaning(args, keys, values, env);
    case Binary(left, _, right) =>
      RenamingKeepsMeaning(left, keys, values, env);
      RenamingKeepsMeaning(right, keys, values, env);
  }

  lemma {:induction false} RenamedHasNoPath(e: Expr, keys: seq<Text>)
    requires FullName(e).None?
    ensures FullName(Rename(e, keys)).None?
  {
    if e.Attribute? {
      RenamedHasNoPath(e.value, keys);
    }
  }

  lemma {:induction false} RenamingAllKeepsMeaning<V>(es: Exprs, keys: seq<Text>, values: map<Text, V>, env: Env<V>)
    requires Unused(NamesOf(es), |keys|) && forall k :: k in keys ==> k in values
    ensures EvalAll(RenameAll(es, keys), VarBindings(keys, values, |keys|), env) == EvalAll(es, KeyBindings(keys, values), env)
    decreases es
  {
    if es.Cons? {
      RenamingKeepsMeaning(es.head, keys, values, env);
      RenamingAllKeepsMeaning(es.tail, keys, values, env);
    }
  }

  // ----- Generated variables do not occur -----

  /** A built-in name, or a dotted path. */
  ghost predicate BuiltInOrDotted(path: Text) {
    path in BUILTIN_NAMES || '.' in path
  }

  /** A path is a key to be, or built in. */
  lemma {:induction false} NamesAreKnown(e: Expr, path: Text)
    requires Printable(e) && path in Names(e)
    ensures path in AllPaths(e) || BuiltInOrDotted(path)
    decreases e
  {
    match e
    case Attribute(value, _) =>
      if IsPath(e) {
        PathIsWord(e);
      } else {
        NamesAreKnown(value, path);
      }
    case Call(func, args) =>
      if path in Names(func) {
        NamesAreKnown(func, path);
      } else {
        NamesOfAreKnown(args, path);
      }
    case Binary(left, _, right) =>
      if path in Names(left) {
        NamesAreKnown(left, path);
      } else {
        NamesAreKnown(right, path);
      }
    case _ =>
  }

  lemma {:induction false} NamesOfAreKnown(es: Exprs, path: Text)
    requires AllPrintable(es) && path in NamesOf(es)
    ensures path in AllPathsOf(es) || BuiltInOrDotted(path)
    decreases es
  {
    if path in Names(es.head) {
      NamesAreKnown(es.head, path);
    } else {
      NamesOfAreKnown(es.tail, path);
    }
  }

  lemma {:induction false} DecimalHasNoDot(n: nat)
    ensures '.' !in Decimal(n)
  {
    if n >= 10 {
      DecimalHasNoDot(n / 10);
    }
  }

  /** A generated variable is neither built in nor dotted. */
  lemma SafeVarIsNew(i: nat)
    ensures !BuiltInOrDotted(SafeVar(i))
  {
    DecimalHasNoDot(i);
    assert '.' !in "var_";
    assert SafeVar(i)[0] == 'v';
    assert forall b :: b in BUILTIN_NAMES ==> b[0] != 'v';
  }

  lemma KeyIsNoVar(keys: seq<Text>, i: nat)
    requires VarsAreFresh(keys) && i < |keys|
    ensures SafeVar(i) !in keys
  {
    var v := SafeVar(i);
    assert v[0..] == v && EndsWith(v, v);
  }

  /** When no generated variable ends with a key and every path is a key or built in, no variable occurs in the tree. */
  lemma VarsDoNotOccur(e: Expr, keys: seq<Text>)
    requires Printable(e) && VarsAreFresh(keys) && (forall k :: k in keys <==> k in Keys(e)) && Hidden(e) <= Keys(e)
    ensures Unused(Names(e), |keys|)
  {
    forall i | 0 <= i < |keys|
      ensures SafeVar(i) !in Names(e)
    {
      if SafeVar(i) in Names(e) {
        NamesAreKnown(e, SafeVar(i));
        SafeVarIsNew(i);
        KeysAndHidden(e);
        assert SafeVar(i) in keys;
        KeyIsNoVar(keys, i);
      }
    }
  }

  // ----- eval_func -----

  /** The text is rewritten, unless a key has no value. */
  method RewriteExpression<V>(operation: Text, sortedKeys: seq<Text>, values: map<Text, V>)
      returns (r: Option<(Text, map<Text, V>)>)
    requires forall i :: 0 <= i < |sortedKeys| ==> IsWord(sortedKeys[i])
    ensures r.None? <==> exists k :: k in sortedKeys && k !in values
    ensures r.Some? ==> r.value.0 == Rewritten(operation, sortedKeys, |sortedKeys|)
    ensures r.Some? ==> r.value.1 == VarBindings(sortedKeys, values, |sortedKeys|)
  {
    for i := 0 to |sortedKeys|
      invariant forall j :: 0 <= j < i ==> sortedKeys[j] in values
    {
      if sortedKeys[i] !in values {
        return None;
      }
    }
    var text, mapping: map<Text, V> := operation, map[];
    for i := 0 to |sortedKeys|
      invariant text == Rewritten(operation, sortedKeys, i) && mapping == VarBindings(sortedKeys, values, i)
    {
      mapping := mapping[SafeVar(i) := values[sortedKeys[i]]];
      text := Sub(text, sortedKeys[i], SafeVar(i));
    }
    return Some((text, mapping));
  }

  /** Every word of the text is a key or ends with none. */
  ghost predicate CleanText(ps: seq<Piece>, keys: seq<Text>) {
    forall i :: 0 <= i < |ps| && ps[i].Word? ==> CleanWord(ps[i].text, keys)
  }

  lemma RenamedKeepsForm(ps: seq<Piece>, keys: seq<Text>)
    requires WellFormed(ps)
    ensures WellFormed(RenamedPieces(ps, keys))
  {
    forall i | 0 <= i < |ps|
      ensures PieceOk(RenamedPiece(ps[i], keys))
    {
      assert PieceOk(ps[i]);
      if ps[i].Word? && ps[i].text in keys {
        SafeVarIsWord(IndexOf(ps[i].text, keys));
      }
    }
  }

  /** In a clean text every word is renamed rightly. */
  lemma CleanTextIsRenamed(ps: seq<Piece>, keys: seq<Text>)
    requires LongestFirst(keys) && VarsAreFresh(keys) && CleanText(ps, keys)
    ensures RewrittenPieces(ps, keys, |keys|) == RenamedPieces(ps, keys)
  {
    forall i | 0 <= i < |ps|
      ensures RewrittenPieces(ps, keys, |keys|)[i] == RenamedPieces(ps, keys)[i]
    {
      if ps[i].Word? {
        CleanWordIsRenamed(ps[i].text, keys);
      }
    }
  }

  /** And in one that is not, some word is not. */
  lemma UncleanTextIsNot(ps: seq<Piece>, keys: seq<Text>)
    requires LongestFirst(keys) && FreshVars(keys) && !CleanText(ps, keys)
    ensures RewrittenPieces(ps, keys, |keys|) != RenamedPieces(ps, keys)
  {
    var i :| 0 <= i < |ps| && ps[i].Word? && !CleanWord(ps[i].text, keys);
    WordIsRenamedIff(ps[i].text, keys);
    assert RewrittenPieces(ps, keys, |keys|)[i] != RenamedPieces(ps, keys)[i];
  }

  /** The substitutions, longest key first, give the text of the renamed tree if and only if no word other than a key ends with a
      key. */
  lemma RewritingRenamesIff(e: Expr, keys: seq<Text>)
    requires Printable(e) && LongestFirst(keys) && FreshVars(keys) && ArePaths(keys)
    ensures Rewritten(TextOf(Print(e)), keys, |keys|) == TextOf(Print(Rename(e, keys))) <==> CleanText(Print(e), keys)
  {
    var ps := Print(e);
    PrintIsWellFormed(e);
    PrintRenamed(e, keys);
    RewritingIsByWord(ps, keys, |keys|);
    if CleanText(ps, keys) {
      CleanTextIsRenamed(ps, keys);
    } else {
      UncleanTextIsNot(ps, keys);
      RenamedKeepsForm(ps, keys);
      var got, want := RewrittenPieces(ps, keys, |keys|), RenamedPieces(ps, keys);
      if TextOf(got) == TextOf(want) {
        TextIsInjective(got, want);
      }
    }
  }

  lemma KeysArePaths(e: Expr, keys: seq<Text>)
    requires Printable(e) && forall k :: k in keys ==> k in Keys(e)
    ensures ArePaths(keys)
  {
    forall i | 0 <= i < |keys|
      ensures IsWord(keys[i]) && !Reserved(keys[i])
    {
      assert keys[i] in keys;
      KeysAreWords(e, keys[i]);
    }
  }

  lemma CleanRewriting(e: Expr, keys: seq<Text>)
    requires Printable(e) && LongestFirst(keys) && VarsAreFresh(keys) && ArePaths(keys) && CleanText(Print(e), keys)
    ensures TextOf(Print(Rename(e, keys))) == Rewritten(TextOf(Print(e)), keys, |keys|)
  {
    PrintIsWellFormed(e);
    PrintRenamed(e, keys);
    RewritingIsByWord(Print(e), keys, |keys|);
    CleanTextIsRenamed(Print(e), keys);
  }

  /** All paths that are not built in, bound to their values. */
  function PathBindings<V>(e: Expr, values: map<Text, V>): map<Text, V>
    requires AllPaths(e) <= values.Keys
  {
    map p | p in AllPaths(e) :: values[p]
  }

  lemma CompleteKeysMeanTheSame<V>(e: Expr, keys: seq<Text>, values: map<Text, V>, env: Env<V>)
    requires (forall k :: k in keys <==> k in AllPaths(e)) && AllPaths(e) <= values.Keys && Unused(Names(e), |keys|)
    ensures (forall k :: k in keys ==> k in values)
    ensures Eval(Rename(e, keys), VarBindings(keys, values, |keys|), env) == Eval(e, PathBindings(e, values), env)
  {
    assert KeyBindings(keys, values) == PathBindings(e, values);
    RenamingKeepsMeaning(e, keys, values, env);
  }

  /** Meaning is preserved: when no key is the end of another word or of a generated variable, and no path is hidden from the visitor,
      the rewritten text is the text of a tree which, with the variables bound, has the value of the original with every dotted
      path bound. */
  lemma RewritingKeepsMeaning<V>(e: Expr, keys: seq<Text>, values: map<Text, V>, env: Env<V>)
    requires Printable(e) && LongestFirst(keys) && VarsAreFresh(keys) && (forall k :: k in keys <==> k in Keys(e))
    requires CleanText(Print(e), keys) && Hidden(e) <= Keys(e) && AllPaths(e) <= values.Keys
    ensures (forall k :: k in keys ==> k in values)
    ensures TextOf(Print(Rename(e, keys))) == Rewritten(TextOf(Print(e)), keys, |keys|)
    ensures Eval(Rename(e, keys), VarBindings(keys, values, |keys|), env) == Eval(e, PathBindings(e, values), env)
  {
    KeysAndHidden(e);
    KeysArePaths(e, keys);
    CleanRewriting(e, keys);
    VarsDoNotOccur(e, keys);
    CompleteKeysMeanTheSame(e, keys, values, env);
  }

  // ----- When a path is hidden -----

  /** Values that are the sets of names left unbound. */
  function Collector(): Env<set<Text>> {
    Env(p => {p}, _ => {}, (v, _) => v, (f, args) => f + Union(args), (_, l, r) => l + r)
  }

  function Union(vs: seq<set<Text>>): set<Text> {
    if vs == [] then {} else vs[0] + Union(vs[1..])
  }

  /** What is left unbound is every path without a binding. */
  lemma {:induction false} UnboundNames(e: Expr, bound: map<Text, set<Text>>)
    requires forall p :: p in bound ==> bound[p] == {}
    ensures Eval(e, bound, Collector()) == Names(e) - bound.Keys
    decreases e
  {
    match e
    case Call(func, args) =>
      UnboundNames(func, bound);
      UnboundNamesOf(args, bound);
    case Binary(left, _, right) =>
      UnboundNames(left, bound);
      UnboundNames(right, bound);
    case Attribute(value, _) =>
      if !IsPath(e) {
        UnboundNames(value, bound);
      }
    case _ =>
  }

  lemma {:induction false} UnboundNamesOf(es: Exprs, bound: map<Text, set<Text>>)
    requires forall p :: p in bound ==> bound[p] == {}
    ensures Union(EvalAll(es, bound, Collector())) == NamesOf(es) - bound.Keys
    decreases es
  {
    if es.Cons? {
      UnboundNames(es.head, bound);
      UnboundNamesOf(es.tail, bound);
    }
  }

  lemma {:induction false} PathsAreNames(e: Expr)
    ensures AllPaths(e) <= Names(e)
    decreases e
  {
    match e
    case Call(func, args) =>
      PathsAreNames(func);
      PathsOfAreNames(args);
    case Binary(left, _, right) =>
      PathsAreNames(left);
      PathsAreNames(right);
    case Attribute(value, _) =>
      if !IsPath(e) {
        PathsAreNames(value);
      }
    case _ =>
  }

  lemma {:induction false} PathsOfAreNames(es: Exprs)
    ensures AllPathsOf(es) <= NamesOf(es)
    decreases es
  {
    if es.Cons? {
      PathsAreNames(es.head);
      PathsOfAreNames(es.tail);
    }
  }

  /** A hidden path that is no key is looked up unbound, so the condition cannot be spared: some values and operations tell the
      rewritten expression from the original. */
  lemma HiddenPathIsLost(e: Expr, keys: seq<Text>)
    requires (forall k :: k in keys <==> k in Keys(e)) && !(Hidden(e) <= Keys(e)) && Unused(Names(e), |keys|)
    ensures var values := map p | p in AllPaths(e) :: {};
      && (forall k :: k in keys ==> k in values)
      && Eval(Rename(e, keys), VarBindings(keys, values, |keys|), Collector()) != Eval(e, PathBindings(e, values), Collector())
  {
    var values: map<Text, set<Text>> := map p | p in AllPaths(e) :: {};
    KeysAndHidden(e);
    RenamingKeepsMeaning(e, keys, values, Collector());
    UnboundNames(e, KeyBindings(keys, values));
    UnboundNames(e, PathBindings(e, values));
    PathsAreNames(e);
    var p :| p in Hidden(e) && p !in Keys(e);
    assert p in Names(e) - KeyBindings(keys, values).Keys;
  }

  // ----- Two inputs -----

  /** `min(n, 3)` */
  function MinExpr(): Expr {
    Call(Name("min"), Cons(Name("n"), Cons(Literal("3"), Nil)))
  }

  lemma MinExprPrints()
    ensures Print(MinExpr()) == [Word("min"), Separator("("), Word("n"), Separator(", "), Word("3"), Separator(")")]
    ensures WellFormed(Print(MinExpr())) && Keys(MinExpr()) == {"n"}
  {
    var args := Cons(Name("n"), Cons(Literal("3"), Nil));
    assert PrintAll(args) == [Word("n"), Separator(", "), Word("3")];
    assert "n" !in BUILTIN_NAMES by {
      assert forall b :: b in BUILTIN_NAMES ==> |b| > |"n"|;
    }
    assert KeysOfAll(args.tail) == {} && KeysOfAll(args) == {"n"};
  }

  lemma FirstVar()
    ensures SafeVar(0) == "var_0"
  {
    assert Decimal(0) == "0";
  }

  lemma OneRewriting(w: Text, key: Text)
    ensures RewrittenWord(w, [key], 1) == SubWord(w, key, SafeVar(0))
  {
    assert RewrittenWord(w, [key], 0) == w;
  }

  lemma MinWord()
    ensures EndsWith("min", "n") && SubWord("min", "n", "var_0") == "mivar_0"
  {
    assert "min"[2..] == "n" && "min"[..2] == "mi";
  }

  lemma MinWords()
    ensures EndsWith("min", "n") && RewrittenWord("min", ["n"], 1) == "mivar_0"
    ensures RewrittenWord("n", ["n"], 1) == "var_0" && RewrittenWord("3", ["n"], 1) == "3"
  {
    FirstVar();
    MinWord();
    OneRewriting("min", "n");
    OneRewriting("n", "n");
    OneRewriting("3", "n");
    SubWholeWord("n", "var_0");
    assert "3"[0..] == "3";
  }

  lemma TextOfFirst(p: Piece, ps: seq<Piece>)
    ensures TextOf([p] + ps) == p.text + TextOf(ps)
  {
    assert ([p] + ps)[1..] == ps;
  }

  lemma SixPieces(a: Piece, b: Piece, c: Piece, d: Piece, e: Piece, f: Piece)
    ensures TextOf([a, b, c, d, e, f]) == a.text + (b.text + (c.text + (d.text + (e.text + f.text))))
  {
    TextOfFirst(f, []);
    TextOfFirst(e, [f]);
    TextOfFirst(d, [e, f]);
    TextOfFirst(c, [d, e, f]);
    TextOfFirst(b, [c, d, e, f]);
    TextOfFirst(a, [b, c, d, e, f]);
    assert [f] == [f] + [] && [e, f] == [e] + [f] && [d, e, f] == [d] + [e, f] && [c, d, e, f] == [c] + [d, e, f];
    assert [b, c, d, e, f] == [b] + [c, d, e, f] && [a, b, c, d, e, f] == [a] + [b, c, d, e, f];
    assert f.text + "" == f.text;
  }

  lemma MinPieces()
    ensures RewrittenPieces(Print(MinExpr()), ["n"], 1)
      == [Word("mivar_0"), Separator("("), Word("var_0"), Separator(", "), Word("3"), Separator(")")]
  {
    MinExprPrints();
    MinWords();
  }

  lemma MinTexts()
    ensures TextOf([Word("min"), Separator("("), Word("n"), Separator(", "), Word("3"), Separator(")")]) == "min(n, 3)"
    ensures TextOf([Word("mivar_0"), Separator("("), Word("var_0"), Separator(", "), Word("3"), Separator(")")]) == "mivar_0(var_0, 3)"
  {
    SixPieces(Word("min"), Separator("("), Word("n"), Separator(", "), Word("3"), Separator(")"));
    SixPieces(Word("mivar_0"), Separator("("), Word("var_0"), Separator(", "), Word("3"), Separator(")"));
  }

  /** `min(n, 3)` is rewritten to `mivar_0(var_0, 3)`: the key `n` also ends the name of the built-in. */
  lemma KeyEndsBuiltin()
    ensures Keys(MinExpr()) == {"n"} && !CleanText(Print(MinExpr()), ["n"])
    ensures TextOf(Print(MinExpr())) == "min(n, 3)" && Rewritten("min(n, 3)", ["n"], 1) == "mivar_0(var_0, 3)"
  {
    MinExprPrints();
    MinTexts();
    MinPieces();
    RewritingIsByWord(Print(MinExpr()), ["n"], 1);
    UncleanMin();
  }

  lemma UncleanMin()
    ensures !CleanText(Print(MinExpr()), ["n"])
  {
    MinExprPrints();
    MinWords();
    assert Print(MinExpr())[0] == Word("min") && !CleanWord("min", ["n"]);
  }
}
