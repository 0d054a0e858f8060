/** The keys of a configuration expression: the visitor `AstStructureExtractor` of ajet/utils/config_computer.py.

The visitor never looks below an attribute, so it misses what stands in the value of an attribute that is not itself a dotted path. */
module ExpressionKeys {
  import opened PyList
  import opened KeySubstitution

  /** `op` is a symbol or a keyword operator such as `or`; a literal is one word, such as a number or `None`. */
  datatype Expr =
    | Name(id: Text)
    | Attribute(value: Expr, attr: Text)
    | Literal(word: Text)
    | Call(func: Expr, args: Exprs)
    | Binary(left: Expr, op: Piece, right: Expr)
  datatype Exprs = Nil | Cons(head: Expr, tail: Exprs)

  const BUILTIN_NAMES: set<Text> := {
    "min", "max", "abs", "round", "int", "float", "sum", "len", "str", "bool", "list", "dict", "tuple", "set", "range", "enumerate",
    "zip", "map", "filter", "sorted", "reversed", "all", "any", "bin", "hex", "oct", "chr", "ord", "pow", "divmod", "type",
    "isinstance", "hasattr", "getattr", "setattr", "delattr", "callable", "iter", "next" }

  const BUILTIN_MODULES: set<Text> := {"math", "os", "sys", "json", "re", "datetime"}

  // ----- Keys -----

  /** `_get_full_attribute_name`: the dotted path, if it starts from a name. */
  function FullName(e: Expr): Option<Text> {
    match e
    case Name(id) => Some(id)
    case Attribute(value, attr) =>
      (match FullName(value) case None => None case Some(base) => Some(base + "." + attr))
    case _ => None
  }

  /** The first part of a dotted path. */
  function Head(e: Expr): Text
    requires FullName(e).Some?
  {
    match e case Name(id) => id case Attribute(value, _) => Head(value)
  }

  function NewKeys(e: Expr): set<Text> {
    match e
    case Name(id) => if id !in BUILTIN_NAMES then {id} else {}
    case Attribute(_, _) => if FullName(e).Some? && Head(e) !in BUILTIN_MODULES then {FullName(e).value} else {}
    case _ => {}
  }

  /** Everything the visitor collects: it looks inside calls and operators, and never below an attribute. */
  function Keys(e: Expr): set<Text> {
    match e
    case Call(func, args) => Keys(func) + KeysOfAll(args)
    case Binary(left, _, right) => Keys(left) + Keys(right)
    case _ => NewKeys(e)
  }

  function KeysOfAll(es: Exprs): set<Text> {
    match es case Nil => {} case Cons(head, tail) => Keys(head) + KeysOfAll(tail)
  }

  class StructureExtractor {
    var keys: set<Text>

    constructor ()
      ensures keys == {}
    {
      keys := {};
    }

    method Visit(e: Expr)
      modifies this
      ensures keys == old(keys) + Keys(e)
      decreases e
    {
      match e {
        case Name(id) =>
          if id !in BUILTIN_NAMES {
            keys := keys + {id};
          }
        case Attribute(_, _) =>
          var full := FullName(e);
          if full.Some? && Head(e) !in BUILTIN_MODULES {
            keys := keys + {full.value};
          }
        case Literal(_) =>
        case Call(func, args) =>
          Visit(func);
          VisitAll(args);
        case Binary(left, _, right) =>
          Visit(left);
          Visit(right);
      }
    }

    method VisitAll(es: Exprs)
      modifies this
      ensures keys == old(keys) + KeysOfAll(es)
      decreases es
    {
      if es.Cons? {
        Visit(es.head);
        VisitAll(es.tail);
      }
    }
  }

  // ----- Maximal paths -----

  /** The way from a tree to one of its parts. */
  datatype Turn = ToValue | ToFunc | ToArg(i: nat) | ToLeft | ToRight

  function Arg(es: Exprs, i: nat): Option<Expr> {
    match es case Nil => None case Cons(head, tail) => if i == 0 then Some(head) else Arg(tail, i - 1)
  }

  function Child(e: Expr, turn: Turn): Option<Expr> {
    match (e, turn)
    case (Attribute(value, _), ToValue) => Some(value)
    case (Call(func, _), ToFunc) => Some(func)
    case (Call(_, args), ToArg(i)) => Arg(args, i)
    case (Binary(left, _, _), ToLeft) => Some(left)
    case (Binary(_, _, right), ToRight) => Some(right)
    case _ => None
  }

  function PartAt(e: Expr, addr: seq<Turn>): Option<Expr>
    decreases |addr|
  {
    if addr == [] then Some(e)
    else match Child(e, addr[0]) case None => None case Some(part) => PartAt(part, addr[1..])
  }

  predicate IsPath(e: Expr) {
    FullName(e).Some?
  }

  /** The part at this address is a dotted path, and not the value of an attribute that is one itself. */
  predicate MaximalAt(e: Expr, addr: seq<Turn>, path: Text) {
    && PartAt(e, addr).Some? && FullName(PartAt(e, addr).value) == Some(path)
    && !(addr != [] && addr[|addr| - 1] == ToValue && PartAt(e, addr[..|addr| - 1]).Some?
         && IsPath(PartAt(e, addr[..|addr| - 1]).value))
  }

  /** A built-in function, or something of a built-in module. */
  predicate IsBuiltin(e: Expr)
    requires IsPath(e)
  {
    if e.Name? then e.id in BUILTIN_NAMES else Head(e) in BUILTIN_MODULES
  }

  /** A maximal path that is not built in. */
  predicate KeyAt(e: Expr, addr: seq<Turn>, path: Text) {
    MaximalAt(e, addr, path) && !IsBuiltin(PartAt(e, addr).value)
  }

  // ----- All paths, and the hidden ones -----

  /** All maximal paths that are not built in. */
  function AllPaths(e: Expr): set<Text> {
    match e
    case Attribute(value, _) => if IsPath(e) then NewKeys(e) else AllPaths(value)
    case Call(func, args) => AllPaths(func) + AllPathsOf(args)
    case Binary(left, _, right) => AllPaths(left) + AllPaths(right)
    case _ => NewKeys(e)
  }

  function AllPathsOf(es: Exprs): set<Text> {
    match es case Nil => {} case Cons(head, tail) => AllPaths(head) + AllPathsOf(tail)
  }

  /** Those in the value of an attribute that is not a path. */
  function Hidden(e: Expr): set<Text> {
    match e
    case Attribute(value, _) => if IsPath(e) then {} else AllPaths(value)
    case Call(func, args) => Hidden(func) + HiddenOf(args)
    case Binary(left, _, right) => Hidden(left) + Hidden(right)
    case _ => {}
  }

  function HiddenOf(es: Exprs): set<Text> {
    match es case Nil => {} case Cons(head, tail) => Hidden(head) + HiddenOf(tail)
  }

  lemma {:induction false} KeysAndHidden(e: Expr)
    ensures AllPaths(e) == Keys(e) + Hidden(e)
    decreases e
  {
    match e
    case Call(func, args) =>
      KeysAndHidden(func);
      KeysAndHiddenOf(args);
    case Binary(left, _, right) =>
      KeysAndHidden(left);
      KeysAndHidden(right);
    case _ =>
  }

  lemma {:induction false} KeysAndHiddenOf(es: Exprs)
    ensures AllPathsOf(es) == KeysOfAll(es) + HiddenOf(es)
    decreases es
  {
    if es.Cons? {
      KeysAndHidden(es.head);
      KeysAndHiddenOf(es.tail);
    }
  }

  // ----- Addresses below a part -----

  /** An address below a child, seen from the child. */
  lemma MaximalBelow(e: Expr, addr: seq<Turn>, path: Text)
    requires addr != [] && Child(e, addr[0]).Some? && !(addr[0] == ToValue && IsPath(e))
    ensures MaximalAt(e, addr, path) <==> MaximalAt(Child(e, addr[0]).value, addr[1..], path)
    ensures MaximalAt(e, addr, path) ==> PartAt(e, addr) == PartAt(Child(e, addr[0]).value, addr[1..])
  {
    var below := addr[1..];
    if below != [] {
      assert addr[..|addr| - 1][0] == addr[0] && addr[..|addr| - 1][1..] == below[..|below| - 1];
      assert below[|below| - 1] == addr[|addr| - 1];
    } else {
      assert addr[..|addr| - 1] == [];
      assert addr[|addr| - 1] == addr[0];
    }
  }

  /** There is no maximal path inside a path. */
  lemma {:induction false} NothingBelowPath(e: Expr, addr: seq<Turn>, path: Text)
    requires IsPath(e) && addr != []
    ensures !MaximalAt(e, addr, path)
    decreases |addr|
  {
    if e.Attribute? && addr[0] == ToValue {
      if |addr| == 1 {
        assert addr[..0] == [];
      } else {
        NothingBelowPath(e.value, addr[1..], path);
        SameParent(e, addr);
      }
    }
  }

  lemma SameParent(e: Expr, addr: seq<Turn>)
    requires |addr| >= 2 && Child(e, addr[0]).Some?
    ensures PartAt(e, addr[..|addr| - 1]) == PartAt(Child(e, addr[0]).value, addr[1..][..|addr| - 2])
    ensures addr[1..][|addr| - 2] == addr[|addr| - 1]
  {
    assert addr[..|addr| - 1][0] == addr[0] && addr[..|addr| - 1][1..] == addr[1..][..|addr| - 2];
  }

  lemma KeyBelow(e: Expr, turn: Turn, part: Expr, addr: seq<Turn>, path: Text)
    requires Child(e, turn) == Some(part) && !(turn == ToValue && IsPath(e)) && KeyAt(part, addr, path)
    ensures KeyAt(e, [turn] + addr, path)
  {
    assert ([turn] + addr)[1..] == addr;
    MaximalBelow(e, [turn] + addr, path);
  }

  // ----- The keys are the visible paths -----

  /** A key stands somewhere outside all attributes. */
  lemma {:induction false} FindKey(e: Expr, path: Text) returns (addr: seq<Turn>)
    requires path in Keys(e)
    ensures KeyAt(e, addr, path) && ToValue !in addr
    decreases e
  {
    match e
    case Call(func, args) =>
      if path in Keys(func) {
        var below := FindKey(func, path);
        KeyBelow(e, ToFunc, func, below, path);
        addr := [ToFunc] + below;
      } else {
        var i, below := FindKeyIn(args, path);
        KeyBelow(e, ToArg(i), Arg(args, i).value, below, path);
        addr := [ToArg(i)] + below;
      }
    case Binary(left, _, right) =>
      if path in Keys(left) {
        var below := FindKey(left, path);
        KeyBelow(e, ToLeft, left, below, path);
        addr := [ToLeft] + below;
      } else {
        var below := FindKey(right, path);
        KeyBelow(e, ToRight, right, below, path);
        addr := [ToRight] + below;
      }
    case _ => addr := [];
  }

  lemma {:induction false} FindKeyIn(es: Exprs, path: Text) returns (i: nat, addr: seq<Turn>)
    requires path in KeysOfAll(es)
    ensures Arg(es, i).Some? && KeyAt(Arg(es, i).value, addr, path) && ToValue !in addr
    decreases es
  {
    if path in Keys(es.head) {
      i := 0;
      addr := FindKey(es.head, path);
    } else {
      i, addr := FindKeyIn(es.tail, path);
      i := i + 1;
    }
  }

  /** A path that is not built in stands somewhere. */
  lemma {:induction false} FindPath(e: Expr, path: Text) returns (addr: seq<Turn>)
    requires path in AllPaths(e)
    ensures KeyAt(e, addr, path)
    decreases e
  {
    match e
    case Attribute(value, _) =>
      if IsPath(e) {
        addr := [];
      } else {
        var below := FindPath(value, path);
        KeyBelow(e, ToValue, value, below, path);
        addr := [ToValue] + below;
      }
    case Call(func, args) =>
      if path in AllPaths(func) {
        var below := FindPath(func, path);
        KeyBelow(e, ToFunc, func, below, path);
        addr := [ToFunc] + below;
      } else {
        var i, below := FindPathIn(args, path);
        KeyBelow(e, ToArg(i), Arg(args, i).value, below, path);
        addr := [ToArg(i)] + below;
      }
    case Binary(left, _, right) =>
      if path in AllPaths(left) {
        var below := FindPath(left, path);
        KeyBelow(e, ToLeft, left, below, path);
        addr := [ToLeft] + below;
      } else {
        var below := FindPath(right, path);
        KeyBelow(e, ToRight, right, below, path);
        addr := [ToRight] + below;
      }
    case _ => addr := [];
  }

  lemma {:induction false} FindPathIn(es: Exprs, path: Text) returns (i: nat, addr: seq<Turn>)
    requires path in AllPathsOf(es)
    ensures Arg(es, i).Some? && KeyAt(Arg(es, i).value, addr, path)
    decreases es
  {
    if path in AllPaths(es.head) {
      i := 0;
      addr := FindPath(es.head, path);
    } else {
      i, addr := FindPathIn(es.tail, path);
      i := i + 1;
    }
  }

  /** Whatever stands at an address is among the paths, and among the keys if the address passes no attribute. */
  lemma {:induction false} PathIsFound(e: Expr, addr: seq<Turn>, path: Text)
    requires KeyAt(e, addr, path)
    ensures path in AllPaths(e) && (ToValue !in addr ==> path in Keys(e))
    decreases |addr|
  {
    if addr != [] {
      if IsPath(e) {
        NothingBelowPath(e, addr, path);
      } else {
        MaximalBelow(e, addr, path);
        PathIsFound(Child(e, addr[0]).value, addr[1..], path);
        if addr[0].ToArg? {
          ArgIsFound(e.args, addr[0].i, path);
        }
      }
    }
  }

  lemma {:induction false} ArgIsFound(es: Exprs, i: nat, path: Text)
    requires Arg(es, i).Some?
    ensures path in AllPaths(Arg(es, i).value) ==> path in AllPathsOf(es)
    ensures path in Keys(Arg(es, i).value) ==> path in KeysOfAll(es)
    decreases i
  {
    if i > 0 {
      ArgIsFound(es.tail, i - 1, path);
    }
  }

  /** The visitor collects exactly the maximal dotted paths that are not built in and stand outside all attributes. */
  lemma KeysAreVisiblePaths(e: Expr, path: Text)
    ensures path in Keys(e) <==> exists addr :: ToValue !in addr && KeyAt(e, addr, path)
  {
    if path in Keys(e) {
      var addr := FindKey(e, path);
    } else if exists addr :: ToValue !in addr && KeyAt(e, addr, path) {
      var addr :| ToValue !in addr && KeyAt(e, addr, path);
      PathIsFound(e, addr, path);
    }
  }

  /** The path is a maximal one somewhere in the tree, and not built in. */
  ghost predicate Occurs(e: Expr, path: Text) {
    exists addr :: KeyAt(e, addr, path)
  }

  lemma AllPathsAreMaximalPaths(e: Expr, path: Text)
    ensures path in AllPaths(e) <==> Occurs(e, path)
  {
    if path in AllPaths(e) {
      var addr := FindPath(e, path);
    } else if Occurs(e, path) {
      var addr :| KeyAt(e, addr, path);
      PathIsFound(e, addr, path);
    }
  }

  /** The keys are all maximal dotted paths that are not built in if and only if none is hidden in the value of an attribute without
      standing elsewhere too. */
  lemma KeysAreMaximalPathsIff(e: Expr)
    ensures (forall path :: path in Keys(e) <==> Occurs(e, path)) <==> Hidden(e) <= Keys(e)
  {
    KeysAndHidden(e);
    forall path
      ensures path in AllPaths(e) <==> Occurs(e, path)
    {
      AllPathsAreMaximalPaths(e, path);
    }
    if Hidden(e) <= Keys(e) {
      assert AllPaths(e) == Keys(e);
    } else {
      var path :| path in Hidden(e) && path !in Keys(e);
      assert path in AllPaths(e) && Occurs(e, path);
    }
  }

  /** Every attribute is a dotted path. */
  predicate PlainAttributes(e: Expr) {
    match e
    case Attribute(_, _) => IsPath(e)
    case Call(func, args) => PlainAttributes(func) && AllPlainAttributes(args)
    case Binary(left, _, right) => PlainAttributes(left) && PlainAttributes(right)
    case _ => true
  }

  predicate AllPlainAttributes(es: Exprs) {
    match es case Nil => true case Cons(head, tail) => PlainAttributes(head) && AllPlainAttributes(tail)
  }

  /** When every attribute is a dotted path nothing is hidden. */
  lemma {:induction false} NothingHidden(e: Expr)
    requires PlainAttributes(e)
    ensures Hidden(e) == {}
    decreases e
  {
    match e
    case Call(func, args) =>
      NothingHidden(func);
      NothingHiddenIn(args);
    case Binary(left, _, right) =>
      NothingHidden(left);
      NothingHidden(right);
    case _ =>
  }

  lemma {:induction false} NothingHiddenIn(es: Exprs)
    requires AllPlainAttributes(es)
    ensures HiddenOf(es) == {}
    decreases es
  {
    if es.Cons? {
      NothingHidden(es.head);
      NothingHiddenIn(es.tail);
    }
  }

  /** `max(a.b, 1).real` */
  function HidingExpr(): Expr {
    Attribute(Call(Name("max"), Cons(Attribute(Name("a"), "b"), Cons(Literal("1"), Nil))), "real")
  }

  /** The visitor finds no key in `max(a.b, 1).real`, although `a.b` stands in it. */
  lemma HiddenKeyIsMissed()
    ensures Keys(HidingExpr()) == {} && Hidden(HidingExpr()) == {"a.b"}
    ensures KeyAt(HidingExpr(), [ToValue, ToArg(0)], "a.b")
  {
    var ab := Attribute(Name("a"), "b");
    assert "a" + "." + "b" == "a.b";
    assert "a" !in BUILTIN_MODULES by {
      assert forall m :: m in BUILTIN_MODULES ==> |m| > |"a"|;
    }
    var args := Cons(ab, Cons(Literal("1"), Nil));
    assert AllPaths(ab) == {"a.b"} && AllPathsOf(args) == {"a.b"};
    assert AllPaths(Name("max")) == {};
    var addr := [ToValue, ToArg(0)];
    assert addr[1..] == [ToArg(0)] && [ToArg(0)][1..] == [];
    assert PartAt(HidingExpr(), addr) == Some(ab);
  }

  /** `(1 + 2).real` has an attribute that is not a path, and nothing to hide: that every attribute is a path is enough, but not needed. */
  lemma AttributeMayHideNothing()
    ensures var e := Attribute(Binary(Literal("1"), Separator("+"), Literal("2")), "real");
      !PlainAttributes(e) && Hidden(e) == {} && Keys(e) == {} && forall path, addr :: !KeyAt(e, addr, path)
  {
    var e := Attribute(Binary(Literal("1"), Separator("+"), Literal("2")), "real");
    forall path, addr | KeyAt(e, addr, path)
      ensures false
    {
      PathIsFound(e, addr, path);
    }
  }
}
