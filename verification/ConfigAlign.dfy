/** Aligning one nested configuration with another: `_dive_to_fetch_value`, `_dive_to_set_value`, the mapping loop of
`align_parameters` and the rounding loop of `align_parameter_safe_guard` in ajet/utils/config_utils.py.

A dotted key is the sequence of its parts. */
module ConfigAlign {
  import opened PyList

  type Path = seq<string>

  /** What YAML gives: nothing, a scalar or list, or a mapping. */
  datatype Value = Null | Leaf(text: string) | Dict(entries: map<string, Value>)

  /** A fetched value, a missing key, or an attempt to look inside something that is not a mapping. */
  datatype Fetched = Found(value: Value) | KeyMissing | NotADict

  // ----- Fetching -----

  function Fetch(config: Value, path: Path): Fetched {
    if path == [] then Found(config)
    else
      match config
      case Dict(entries) =>
        if path[0] !in entries then KeyMissing
        else if entries[path[0]].Null? then Found(Null)
        else Fetch(entries[path[0]], path[1..])
      case _ => NotADict
  }

  /** The loop stops at the first `None` it meets, wherever that is on the way. */
  method DiveToFetchValue(config: Value, path: Path) returns (r: Fetched)
    ensures r == Fetch(config, path)
  {
    var value := config;
    for i := 0 to |path|
      invariant Fetch(config, path) == Fetch(value, path[i..])
    {
      assert path[i..][0] == path[i] && path[i..][1..] == path[i + 1..];
      if !value.Dict? {
        return NotADict;
      }
      if path[i] !in value.entries {
        return KeyMissing;
      }
      value := value.entries[path[i]];
      if value.Null? {
        return Found(Null);
      }
    }
    return Found(value);
  }

  /** The value stored exactly at this path. */
  function Lookup(config: Value, path: Path): Option<Value> {
    if path == [] then Some(config)
    else if config.Dict? && path[0] in config.entries then Lookup(config.entries[path[0]], path[1..])
    else None
  }

  /** There is a `None` before the path ends. */
  ghost predicate NoneOnTheWay(config: Value, path: Path) {
    exists n :: 0 < n < |path| && Lookup(config, path[..n]) == Some(Null)
  }

  /** A mapping on the way lacks the next key. */
  ghost predicate KeyLacking(config: Value, path: Path) {
    exists n :: 0 <= n < |path| && LacksAt(config, path, n)
  }

  ghost predicate LacksAt(config: Value, path: Path, n: nat)
    requires n < |path|
  {
    Lookup(config, path[..n]).Some? && Lookup(config, path[..n]).value.Dict? && path[n] !in Lookup(config, path[..n]).value.entries
  }

  /** The way through the first key goes on from the value there. */
  lemma WayGoesOn(config: Value, path: Path)
    requires path != [] && config.Dict? && path[0] in config.entries
    ensures forall n :: 0 < n <= |path| ==> Lookup(config, path[..n]) == Lookup(config.entries[path[0]], path[1..][..n - 1])
    ensures NoneOnTheWay(config, path) <==>
      (|path| > 1 && config.entries[path[0]].Null?) || NoneOnTheWay(config.entries[path[0]], path[1..])
    ensures KeyLacking(config, path) <==> KeyLacking(config.entries[path[0]], path[1..])
  {
    var inner, tail := config.entries[path[0]], path[1..];
    forall n | 0 < n <= |path|
      ensures Lookup(config, path[..n]) == Lookup(inner, tail[..n - 1])
    {
      assert path[..n][0] == path[0] && path[..n][1..] == tail[..n - 1];
    }
    assert tail[..0] == [] && path[..0] == [];
    if m :| 0 < m < |tail| && Lookup(inner, tail[..m]) == Some(Null) {
      assert Lookup(config, path[..m + 1]) == Some(Null);
    }
    if |path| > 1 && inner.Null? {
      assert Lookup(config, path[..1]) == Some(Null);
    }
    if m :| 0 <= m < |tail| && LacksAt(inner, tail, m) {
      assert LacksAt(config, path, m + 1);
    }
    if n :| 0 <= n < |path| && LacksAt(config, path, n) {
      assert n > 0 && LacksAt(inner, tail, n - 1);
    }
  }

  /** Nothing lies behind a first key that is not there. */
  lemma WayEnds(config: Value, path: Path)
    requires path != [] && !(config.Dict? && path[0] in config.entries)
    ensures Lookup(config, path).None? && !NoneOnTheWay(config, path)
    ensures KeyLacking(config, path) <==> config.Dict?
  {
    assert path[..0] == [];
    forall n | 0 < n <= |path|
      ensures Lookup(config, path[..n]).None?
    {
      assert path[..n][0] == path[0];
    }
    if config.Dict? {
      assert LacksAt(config, path, 0);
    }
  }

  lemma NothingInNull(path: Path)
    ensures path != [] ==> Lookup(Null, path).None?
    ensures !NoneOnTheWay(Null, path) && !KeyLacking(Null, path)
  {
    if path != [] {
      WayEnds(Null, path);
    }
  }

  /** A fetch finds what is stored at the path, or `None` if one lies on the way; it reports a missing key exactly when a mapping on the way
      lacks the next one, and otherwise tries to look inside something that is not a mapping. */
  lemma {:induction false} FetchIs(config: Value, path: Path, v: Value)
    ensures Fetch(config, path) == Found(v) <==> Lookup(config, path) == Some(v) || (v.Null? && NoneOnTheWay(config, path))
    ensures Fetch(config, path) == KeyMissing <==> KeyLacking(config, path)
    decreases |path|
  {
    if path != [] {
      if config.Dict? && path[0] in config.entries {
        WayGoesOn(config, path);
        FetchIs(config.entries[path[0]], path[1..], v);
        NothingInNull(path[1..]);
      } else {
        WayEnds(config, path);
      }
    }
  }

  // ----- Setting -----

  /** Missing mappings on the way are made; anything else on the way that is not a mapping makes the assignment raise. */
  function Set(config: Value, path: Path, value: Value): Option<Value>
    requires path != []
    decreases |path|
  {
    if !config.Dict? then None
    else if |path| == 1 then Some(Dict(config.entries[path[0] := value]))
    else
      var inner := if path[0] in config.entries then config.entries[path[0]] else Dict(map[]);
      match Set(inner, path[1..], value)
      case None => None
      case Some(inner') => Some(Dict(config.entries[path[0] := inner']))
  }

  predicate Related(p: Path, q: Path) {
    p <= q || q <= p
  }

  lemma RelatedTails(p: Path, q: Path)
    requires p != [] && q != [] && p[0] == q[0]
    ensures Related(p[1..], q[1..]) ==> Related(p, q)
  {
    assert p == [p[0]] + p[1..] && q == [q[0]] + q[1..];
  }

  /** An assignment raises exactly when something on the way there is present and is not a mapping. */
  lemma {:induction false} SetRaisesIff(config: Value, path: Path, value: Value)
    requires path != []
    ensures Set(config, path, value).None?
      <==> exists n :: 0 <= n < |path| && Lookup(config, path[..n]).Some? && !Lookup(config, path[..n]).value.Dict?
    decreases |path|
  {
    var blocked := exists n :: 0 <= n < |path| && Lookup(config, path[..n]).Some? && !Lookup(config, path[..n]).value.Dict?;
    assert path[..0] == [];
    assert Lookup(config, path[..0]) == Some(config);
    if config.Dict? && |path| > 1 {
      var key, tail := path[0], path[1..];
      var inner := if key in config.entries then config.entries[key] else Dict(map[]);
      SetRaisesIff(inner, tail, value);
      forall n | 0 < n < |path|
        ensures path[..n][0] == key && path[..n][1..] == tail[..n - 1]
        ensures key in config.entries ==> Lookup(config, path[..n]) == Lookup(inner, tail[..n - 1])
        ensures key !in config.entries ==> Lookup(config, path[..n]) == None
      {
      }
      if key in config.entries {
        if exists m :: 0 <= m < |tail| && Lookup(inner, tail[..m]).Some? && !Lookup(inner, tail[..m]).value.Dict? {
          var m :| 0 <= m < |tail| && Lookup(inner, tail[..m]).Some? && !Lookup(inner, tail[..m]).value.Dict?;
          assert Lookup(config, path[..m + 1]) == Lookup(inner, tail[..m]);
        }
      } else {
        EmptyHoldsNothing(tail);
      }
    }
  }

  lemma EmptyHoldsNothing(path: Path)
    requires path != []
    ensures forall n :: 0 <= n < |path| && Lookup(Dict(map[]), path[..n]).Some? ==> n == 0
  {
  }

  /** What has just been set is what is found there. */
  lemma {:induction false} GetAfterSet(config: Value, path: Path, value: Value)
    requires path != [] && Set(config, path, value).Some?
    ensures Lookup(Set(config, path, value).value, path) == Some(value)
    ensures Fetch(Set(config, path, value).value, path) == Found(value)
    decreases |path|
  {
    if |path| == 1 {
      assert path[1..] == [];
    } else {
      var inner := if path[0] in config.entries then config.entries[path[0]] else Dict(map[]);
      GetAfterSet(inner, path[1..], value);
      SetGivesDict(inner, path[1..], value);
    }
  }

  lemma SetGivesDict(config: Value, path: Path, value: Value)
    requires path != [] && Set(config, path, value).Some?
    ensures config.Dict? && Set(config, path, value).value.Dict?
  {
  }

  /** Every path that neither leads to the one set nor goes on from it keeps its value, or its absence. */
  lemma {:induction false} SetKeepsUnrelated(config: Value, path: Path, value: Value, other: Path)
    requires path != [] && Set(config, path, value).Some? && !Related(path, other)
    ensures Lookup(Set(config, path, value).value, other) == Lookup(config, other)
    ensures Fetch(Set(config, path, value).value, other) == Fetch(config, other)
    decreases |path|
  {
    if |path| > 1 && other[0] == path[0] {
      var inner := if path[0] in config.entries then config.entries[path[0]] else Dict(map[]);
      RelatedTails(path, other);
      SetKeepsUnrelated(inner, path[1..], value, other[1..]);
      SetGivesDict(inner, path[1..], value);
      assert other[1..] != [];
    }
  }

  // ----- The mapping loop -----

  /** Where a value comes from: a path of the source, or an expression over some of its paths. */
  datatype Source = Plain(path: Path) | Computed(keys: seq<Path>, compute: seq<Value> -> Option<Value>)

  datatype Rule = Rule(source: Source, targets: seq<Path>)

  function FetchAll(config: Value, keys: seq<Path>, n: nat): Option<seq<Value>>
    requires n <= |keys|
  {
    if n == 0 then Some([])
    else
      match (FetchAll(config, keys, n - 1), Fetch(config, keys[n - 1]))
      case (Some(vs), Found(v)) => Some(vs + [v])
      case _ => None
  }

  /** The value a rule reads from the unmodified source; `None` when it raises. */
  function ValueOf(config: Value, source: Source): Option<Value> {
    match source
    case Plain(path) => (match Fetch(config, path) case Found(v) => Some(v) case _ => None)
    case Computed(keys, compute) =>
      (match FetchAll(config, keys, |keys|) case Some(vs) => compute(vs) case None => None)
  }

  datatype Assignment = Assignment(path: Path, value: Value)

  predicate Proper(todo: seq<Assignment>) {
    forall i :: 0 <= i < |todo| ==> todo[i].path != []
  }

  /** The first n assignments, in order. */
  function AssignAll(config: Value, todo: seq<Assignment>, n: nat): Option<Value>
    requires n <= |todo| && Proper(todo)
  {
    if n == 0 then Some(config)
    else
      match AssignAll(config, todo, n - 1)
      case None => None
      case Some(c) => Set(c, todo[n - 1].path, todo[n - 1].value)
  }

  /** The assignments of the first n rules. */
  function AssignmentsOf(source: Value, rules: seq<Rule>, n: nat): Option<seq<Assignment>>
    requires n <= |rules|
  {
    if n == 0 then Some([])
    else
      match (AssignmentsOf(source, rules, n - 1), ValueOf(source, rules[n - 1].source))
      case (Some(before), Some(v)) => Some(before + Each(rules[n - 1].targets, v))
      case _ => None
  }

  function Each(targets: seq<Path>, v: Value): seq<Assignment> {
    seq(|targets|, i requires 0 <= i < |targets| => Assignment(targets[i], v))
  }

  lemma {:induction false} StaysFailed(config: Value, todo: seq<Assignment>, m: nat, n: nat)
    requires Proper(todo) && m <= n <= |todo| && AssignAll(config, todo, n).Some?
    ensures AssignAll(config, todo, m).Some?
    decreases n
  {
    if m < n {
      StaysFailed(config, todo, m, n - 1);
    }
  }

  /** A path that no assignment touches from the m-th on keeps what it held. */
  lemma {:induction false} UntouchedIsKept(config: Value, todo: seq<Assignment>, m: nat, n: nat, other: Path)
    requires Proper(todo) && m <= n <= |todo| && AssignAll(config, todo, n).Some?
    requires forall i :: m <= i < n ==> !Related(todo[i].path, other)
    ensures AssignAll(config, todo, m).Some?
    ensures Lookup(AssignAll(config, todo, n).value, other) == Lookup(AssignAll(config, todo, m).value, other)
    ensures Fetch(AssignAll(config, todo, n).value, other) == Fetch(AssignAll(config, todo, m).value, other)
    decreases n
  {
    StaysFailed(config, todo, m, n);
    if m < n {
      UntouchedIsKept(config, todo, m, n - 1, other);
      SetKeepsUnrelated(AssignAll(config, todo, n - 1).value, todo[n - 1].path, todo[n - 1].value, other);
    }
  }

  /** After all assignments every target that no later target leads to or goes on from holds its value, and every path unrelated to
      all targets is as it was. */
  lemma AssignmentsHold(config: Value, todo: seq<Assignment>)
    requires Proper(todo) && AssignAll(config, todo, |todo|).Some?
    ensures var final := AssignAll(config, todo, |todo|).value;
      && (forall i :: 0 <= i < |todo| && (forall j :: i < j < |todo| ==> !Related(todo[j].path, todo[i].path)) ==>
            Fetch(final, todo[i].path) == Found(todo[i].value))
      && (forall p :: (forall j :: 0 <= j < |todo| ==> !Related(todo[j].path, p)) ==> Fetch(final, p) == Fetch(config, p))
  {
    var n := |todo|;
    forall i | 0 <= i < n && (forall j :: i < j < n ==> !Related(todo[j].path, todo[i].path))
      ensures Fetch(AssignAll(config, todo, n).value, todo[i].path) == Found(todo[i].value)
    {
      UntouchedIsKept(config, todo, i + 1, n, todo[i].path);
      StaysFailed(config, todo, i, i + 1);
      GetAfterSet(AssignAll(config, todo, i).value, todo[i].path, todo[i].value);
    }
    forall p | forall j :: 0 <= j < n ==> !Related(todo[j].path, p)
      ensures Fetch(AssignAll(config, todo, n).value, p) == Fetch(config, p)
    {
      UntouchedIsKept(config, todo, 0, n, p);
    }
  }

  lemma {:induction false} MoreAssignments(config: Value, xs: seq<Assignment>, ys: seq<Assignment>, n: nat)
    requires Proper(xs) && Proper(xs + ys) && n <= |xs|
    ensures AssignAll(config, xs + ys, n) == AssignAll(config, xs, n)
  {
    if n > 0 {
      MoreAssignments(config, xs, ys, n - 1);
    }
  }

  const BUDGET_SOURCE: Path := ["ajet", "rollout", "ppo_max_token_len_per_gpu"]
  const MODEL_LENGTH: Path := ["ajet", "rollout", "max_model_len"]
  const BUDGET_TARGET: Path := ["actor_rollout_ref", "actor", "ppo_max_token_len_per_gpu"]

  /** The token budget: its own setting, or the model length when that is `None`. */
  function Budget(source: Value): Option<Value> {
    match Fetch(source, BUDGET_SOURCE)
    case Found(v) => if v.Null? then ValueOf(source, Plain(MODEL_LENGTH)) else Some(v)
    case _ => None
  }

  /** All assignments in order, the token budget last; `None` when fetching raises. */
  function Todo(source: Value, rules: seq<Rule>): Option<seq<Assignment>> {
    match (AssignmentsOf(source, rules, |rules|), Budget(source))
    case (Some(xs), Some(v)) => Some(xs + [Assignment(BUDGET_TARGET, v)])
    case _ => None
  }

  ghost predicate ProperRules(rules: seq<Rule>) {
    forall i, j :: 0 <= i < |rules| && 0 <= j < |rules[i].targets| ==> rules[i].targets[j] != []
  }

  lemma {:induction false} AssignmentsAreProper(source: Value, rules: seq<Rule>, n: nat)
    requires ProperRules(rules) && n <= |rules| && AssignmentsOf(source, rules, n).Some?
    ensures Proper(AssignmentsOf(source, rules, n).value)
  {
    if n > 0 {
      AssignmentsAreProper(source, rules, n - 1);
    }
  }

  lemma {:induction false} RulesPrefix(source: Value, rules: seq<Rule>, m: nat, n: nat)
    requires m <= n <= |rules| && AssignmentsOf(source, rules, n).Some?
    ensures AssignmentsOf(source, rules, m).Some? && AssignmentsOf(source, rules, m).value <= AssignmentsOf(source, rules, n).value
    decreases n
  {
    if m < n {
      RulesPrefix(source, rules, m, n - 1);
    }
  }

  lemma FailedForGood(original: Value, todo: seq<Assignment>, n: nat)
    requires Proper(todo) && n <= |todo| && AssignAll(original, todo, n).None?
    ensures AssignAll(original, todo, |todo|).None?
  {
    if AssignAll(original, todo, |todo|).Some? {
      StaysFailed(original, todo, n, |todo|);
    }
  }

  lemma EachIsProper(before: seq<Assignment>, targets: seq<Path>, value: Value)
    requires Proper(before) && forall i :: 0 <= i < |targets| ==> targets[i] != []
    ensures Proper(before + Each(targets, value)) && |before + Each(targets, value)| == |before| + |targets|
  {
  }

  lemma EachAt(before: seq<Assignment>, targets: seq<Path>, value: Value, i: nat)
    requires i < |targets|
    ensures (before + Each(targets, value))[|before| + i] == Assignment(targets[i], value)
  {
  }

  lemma OneMoreRule(source: Value, rules: seq<Rule>, i: nat, done: seq<Assignment>, value: Value)
    requires i < |rules| && AssignmentsOf(source, rules, i) == Some(done) && ValueOf(source, rules[i].source) == Some(value)
    ensures AssignmentsOf(source, rules, i + 1) == Some(done + Each(rules[i].targets, value))
  {
  }

  /** The inner loop: every target of one rule is set to its value. */
  method SetTargets(config: Value, targets: seq<Path>, value: Value, ghost before: seq<Assignment>, ghost original: Value)
      returns (r: Option<Value>)
    requires Proper(before) && (forall i :: 0 <= i < |targets| ==> targets[i] != [])
    requires AssignAll(original, before, |before|) == Some(config)
    ensures Proper(before + Each(targets, value))
    ensures r == AssignAll(original, before + Each(targets, value), |before| + |targets|)
  {
    ghost var all := before + Each(targets, value);
    EachIsProper(before, targets, value);
    MoreAssignments(original, before, Each(targets, value), |before|);
    var c := config;
    for i := 0 to |targets|
      invariant AssignAll(original, all, |before| + i) == Some(c)
    {
      EachAt(before, targets, value, i);
      var next := SetTarget(c, targets[i], value, original, all, |before| + i);
      if next.None? {
        return None;
      }
      c := next.value;
    }
    return Some(c);
  }

  /** One of them. */
  method SetTarget(c: Value, path: Path, value: Value, ghost original: Value, ghost all: seq<Assignment>, ghost n: nat)
      returns (next: Option<Value>)
    requires Proper(all) && n < |all| && path != [] && all[n] == Assignment(path, value) && AssignAll(original, all, n) == Some(c)
    ensures next == AssignAll(original, all, n + 1)
    ensures next.None? ==> AssignAll(original, all, |all|).None?
  {
    next := Set(c, path, value);
    if next.None? {
      FailedForGood(original, all, n + 1);
    }
  }

  /** `DiveToFetchValue` for a plain key, or for every key of an expression, which is then computed. */
  method ReadSource(config: Value, source: Source) returns (r: Option<Value>)
    ensures r == ValueOf(config, source)
  {
    match source {
      case Plain(path) =>
        var f := DiveToFetchValue(config, path);
        r := if f.Found? then Some(f.value) else None;
      case Computed(keys, compute) =>
        var vs: seq<Value> := [];
        for i := 0 to |keys|
          invariant FetchAll(config, keys, i) == Some(vs)
        {
          var f := DiveToFetchValue(config, keys[i]);
          if !f.Found? {
            KeysStayMissing(config, keys, i + 1, |keys|);
            return None;
          }
          vs := vs + [f.value];
        }
        r := compute(vs);
    }
  }

  lemma {:induction false} KeysStayMissing(config: Value, keys: seq<Path>, m: nat, n: nat)
    requires m <= n <= |keys| && FetchAll(config, keys, m).None?
    ensures FetchAll(config, keys, n).None?
    decreases n
  {
    if m < n {
      KeysStayMissing(config, keys, m, n - 1);
    }
  }

  /** What the whole alignment does to the target configuration. */
  function Aligned(source: Value, to: Value, rules: seq<Rule>): Option<Value>
    requires ProperRules(rules)
  {
    match Todo(source, rules)
    case None => None
    case Some(todo) =>
      AssignmentsAreProper(source, rules, |rules|);
      AssignAll(to, todo, |todo|)
  }

  lemma RaisedEarly(source: Value, to: Value, rules: seq<Rule>, n: nat)
    requires ProperRules(rules) && n <= |rules|
    requires match AssignmentsOf(source, rules, n) case None => true
      case Some(xs) => Proper(xs) && AssignAll(to, xs, |xs|).None?
    ensures Aligned(source, to, rules).None?
  {
    if Todo(source, rules).Some? {
      var all, todo := AssignmentsOf(source, rules, |rules|).value, Todo(source, rules).value;
      RulesPrefix(source, rules, n, |rules|);
      var xs := AssignmentsOf(source, rules, n).value;
      AssignmentsAreProper(source, rules, |rules|);
      var ys := todo[|xs|..];
      assert todo == xs + ys;
      MoreAssignments(to, xs, ys, |xs|);
      if AssignAll(to, todo, |todo|).Some? {
        StaysFailed(to, todo, |xs|, |todo|);
        assert false;
      }
    }
  }

  method ReadBudget(source: Value) returns (r: Option<Value>)
    ensures r == Budget(source)
  {
    r := ReadSource(source, Plain(BUDGET_SOURCE));
    if r == Some(Null) {
      r := ReadSource(source, Plain(MODEL_LENGTH));
    }
  }

  /** One rule: its value is read from the unmodified source and set at all its targets. */
  method ApplyRule(source: Value, to: Value, rules: seq<Rule>, i: nat, config: Value, ghost done: seq<Assignment>)
      returns (r: Option<Value>)
    requires ProperRules(rules) && i < |rules| && Proper(done)
    requires AssignmentsOf(source, rules, i) == Some(done) && AssignAll(to, done, |done|) == Some(config)
    ensures r.None? ==> Aligned(source, to, rules).None?
    ensures r.Some? ==> AssignmentsOf(source, rules, i + 1).Some?
    ensures r.Some? ==> var now := AssignmentsOf(source, rules, i + 1).value; Proper(now) && AssignAll(to, now, |now|) == r
  {
    var value := ReadSource(source, rules[i].source);
    if value.None? {
      RaisedEarly(source, to, rules, i + 1);
      return None;
    }
    OneMoreRule(source, rules, i, done, value.value);
    r := SetTargets(config, rules[i].targets, value.value, done, to);
    if r.None? {
      RaisedEarly(source, to, rules, i + 1);
    }
  }

  /** The loop over the rules and the token budget after it. */
  method AlignParameters(source: Value, to: Value, rules: seq<Rule>) returns (r: Option<Value>)
    requires ProperRules(rules)
    ensures r == Aligned(source, to, rules)
  {
    var config := to;
    ghost var done: seq<Assignment> := [];
    for i := 0 to |rules|
      invariant AssignmentsOf(source, rules, i) == Some(done) && Proper(done)
      invariant AssignAll(to, done, |done|) == Some(config)
    {
      var next := ApplyRule(source, to, rules, i, config, done);
      if next.None? {
        return None;
      }
      config := next.value;
      done := AssignmentsOf(source, rules, i + 1).value;
    }
    var budget := ReadBudget(source);
    if budget.None? {
      return None;
    }
    MoreAssignments(to, done, [Assignment(BUDGET_TARGET, budget.value)], |done|);
    r := Set(config, BUDGET_TARGET, budget.value);
  }

  /** No target goes on from an earlier one that was given a mapping: in the source that mapping is still part of the configuration it
      was fetched from, and the later assignment would change it there. */
  ghost predicate NothingShared(todo: seq<Assignment>) {
    forall i, j :: 0 <= i < j < |todo| && todo[i].value.Dict? ==> !(todo[i].path < todo[j].path)
  }

  /** The alignment as a whole: the budget target holds the budget; a rule's target holds what the rule reads from the unmodified
      source unless a later target leads to it or goes on from it; unrelated paths are as they were. */
  lemma AlignmentHolds(source: Value, to: Value, rules: seq<Rule>)
    requires ProperRules(rules) && Aligned(source, to, rules).Some? && NothingShared(Todo(source, rules).value)
    ensures var final, todo := Aligned(source, to, rules).value, Todo(source, rules).value;
      && Fetch(final, BUDGET_TARGET) == Found(Budget(source).value)
      && (forall i :: 0 <= i < |todo| && (forall j :: i < j < |todo| ==> !Related(todo[j].path, todo[i].path)) ==>
            Fetch(final, todo[i].path) == Found(todo[i].value))
      && (forall p :: (forall j :: 0 <= j < |todo| ==> !Related(todo[j].path, p)) ==> Fetch(final, p) == Fetch(to, p))
  {
    AssignmentsAreProper(source, rules, |rules|);
    AssignmentsHold(to, Todo(source, rules).value);
    var todo := Todo(source, rules).value;
    assert todo[|todo| - 1].path == BUDGET_TARGET;
  }

  // ----- What the alignment reads and writes, rule by rule -----

  /** The value at this target is the one the rule reads: what the source holds at its path, or what it computes from what the source
      holds at its keys. */
  ghost predicate HoldsWhatIsRead(final: Value, target: Path, source: Value, rule: Source) {
    match rule
    case Plain(path) => Fetch(final, target).Found? && Fetch(final, target) == Fetch(source, path)
    case Computed(keys, compute) =>
      exists values: seq<Value> :: |values| == |keys| && (forall i :: 0 <= i < |keys| ==> Fetch(source, keys[i]) == Found(values[i]))
        && compute(values).Some? && Fetch(final, target) == Found(compute(values).value)
  }

  /** No later target of the rules, nor the one of the budget, leads to this target or goes on from it. */
  ghost predicate SetLast(rules: seq<Rule>, r: nat, k: nat)
    requires r < |rules| && k < |rules[r].targets|
  {
    && (forall r', k' :: 0 <= r' < |rules| && 0 <= k' < |rules[r'].targets| && (r' > r || (r' == r && k' > k)) ==>
          !Related(rules[r'].targets[k'], rules[r].targets[k]))
    && !Related(BUDGET_TARGET, rules[r].targets[k])
  }

  ghost predicate Untouched(rules: seq<Rule>, p: Path) {
    && (forall r, k :: 0 <= r < |rules| && 0 <= k < |rules[r].targets| ==> !Related(rules[r].targets[k], p))
    && !Related(BUDGET_TARGET, p)
  }

  lemma {:induction false} FetchedAll(config: Value, keys: seq<Path>, n: nat)
    requires n <= |keys| && FetchAll(config, keys, n).Some?
    ensures var vs := FetchAll(config, keys, n).value; |vs| == n && forall i :: 0 <= i < n ==> Fetch(config, keys[i]) == Found(vs[i])
  {
    if n > 0 {
      FetchedAll(config, keys, n - 1);
    }
  }

  lemma ReadHolds(final: Value, target: Path, source: Value, rule: Source)
    requires ValueOf(source, rule).Some? && Fetch(final, target) == Found(ValueOf(source, rule).value)
    ensures HoldsWhatIsRead(final, target, source, rule)
  {
    if rule.Computed? {
      FetchedAll(source, rule.keys, |rule.keys|);
    }
  }

  /** Where the assignments of rule `r` stand: behind those of the rules before it, and nothing but targets of later rules comes behind. */
  lemma {:induction false} AssignmentsOfRule(source: Value, rules: seq<Rule>, r: nat, k: nat, n: nat) returns (at: nat)
    requires r < n <= |rules| && k < |rules[r].targets| && AssignmentsOf(source, rules, n).Some?
    ensures var todo := AssignmentsOf(source, rules, n).value;
      && at < |todo| && ValueOf(source, rules[r].source).Some?
      && todo[at] == Assignment(rules[r].targets[k], ValueOf(source, rules[r].source).value)
      && (forall i :: at < i < |todo| ==> LaterTarget(rules, r, k, todo[i].path))
    decreases n
  {
    if r < n - 1 {
      at := AssignmentsOfRule(source, rules, r, k, n - 1);
      var before, last := AssignmentsOf(source, rules, n - 1).value, rules[n - 1].targets;
      var todo := AssignmentsOf(source, rules, n).value;
      forall i | at < i < |todo|
        ensures LaterTarget(rules, r, k, todo[i].path)
      {
        if i >= |before| {
          assert todo[i].path == last[i - |before|];
          assert IsLater(rules, r, k, n - 1, i - |before|, todo[i].path);
        }
      }
    } else {
      var before := AssignmentsOf(source, rules, r).value;
      var todo := AssignmentsOf(source, rules, n).value;
      at := |before| + k;
      forall i | at < i < |todo|
        ensures LaterTarget(rules, r, k, todo[i].path)
      {
        assert IsLater(rules, r, k, r, i - |before|, todo[i].path);
      }
    }
  }

  ghost predicate IsLater(rules: seq<Rule>, r: nat, k: nat, r': nat, k': nat, p: Path) {
    && r' < |rules| && k' < |rules[r'].targets| && (r' > r || (r' == r && k' > k)) && p == rules[r'].targets[k']
  }

  ghost predicate LaterTarget(rules: seq<Rule>, r: nat, k: nat, p: Path) {
    exists r', k' :: IsLater(rules, r, k, r', k', p)
  }

  /** Every assignment of the rules is for one of their targets. */
  lemma {:induction false} AssignmentsAreTargets(source: Value, rules: seq<Rule>, n: nat, i: nat) returns (r: nat, k: nat)
    requires n <= |rules| && AssignmentsOf(source, rules, n).Some? && i < |AssignmentsOf(source, rules, n).value|
    ensures r < n && k < |rules[r].targets| && AssignmentsOf(source, rules, n).value[i].path == rules[r].targets[k]
  {
    var before := AssignmentsOf(source, rules, n - 1).value;
    if i < |before| {
      r, k := AssignmentsAreTargets(source, rules, n - 1, i);
    } else {
      r, k := n - 1, i - |before|;
    }
  }

  /** Rule by rule: a target set last holds what its rule reads from the unmodified source. */
  lemma TargetHoldsWhatIsRead(source: Value, to: Value, rules: seq<Rule>, r: nat, k: nat)
    requires ProperRules(rules) && Aligned(source, to, rules).Some? && NothingShared(Todo(source, rules).value)
    requires r < |rules| && k < |rules[r].targets| && SetLast(rules, r, k)
    ensures HoldsWhatIsRead(Aligned(source, to, rules).value, rules[r].targets[k], source, rules[r].source)
  {
    var at := AssignmentsOfRule(source, rules, r, k, |rules|);
    var mine, todo := AssignmentsOf(source, rules, |rules|).value, Todo(source, rules).value;
    assert todo == mine + [Assignment(BUDGET_TARGET, Budget(source).value)];
    AlignmentHolds(source, to, rules);
    forall i | at < i < |todo|
      ensures !Related(todo[i].path, todo[at].path)
    {
      if i < |mine| {
        assert LaterTarget(rules, r, k, mine[i].path);
      }
    }
    ReadHolds(Aligned(source, to, rules).value, rules[r].targets[k], source, rules[r].source);
  }

  /** The token budget is the source's own setting, or the model length when that setting is `None`. */
  lemma BudgetIs(source: Value, to: Value, rules: seq<Rule>)
    requires ProperRules(rules) && Aligned(source, to, rules).Some? && NothingShared(Todo(source, rules).value)
    ensures var setting := Fetch(source, ["ajet", "rollout", "ppo_max_token_len_per_gpu"]);
      && setting.Found?
      && Fetch(Aligned(source, to, rules).value, ["actor_rollout_ref", "actor", "ppo_max_token_len_per_gpu"])
           == if setting.value.Null? then Fetch(source, ["ajet", "rollout", "max_model_len"]) else setting
  {
    AlignmentHolds(source, to, rules);
  }

  /** Paths that no target leads to or goes on from are as they were. */
  lemma UntouchedStays(source: Value, to: Value, rules: seq<Rule>, p: Path)
    requires ProperRules(rules) && Aligned(source, to, rules).Some? && NothingShared(Todo(source, rules).value) && Untouched(rules, p)
    ensures Fetch(Aligned(source, to, rules).value, p) == Fetch(to, p)
  {
    AlignmentHolds(source, to, rules);
    var mine, todo := AssignmentsOf(source, rules, |rules|).value, Todo(source, rules).value;
    forall i | 0 <= i < |todo|
      ensures !Related(todo[i].path, p)
    {
      if i < |mine| {
        var r, k := AssignmentsAreTargets(source, rules, |rules|, i);
      }
    }
  }

  // ----- When the alignment raises -----

  /** The rule can be read: its path, or all its keys, are found, and what is computed from them does not raise. */
  ghost predicate Readable(source: Value, rule: Source) {
    match rule
    case Plain(path) => Fetch(source, path).Found?
    case Computed(keys, compute) =>
      exists values: seq<Value> :: |values| == |keys| && (forall i :: 0 <= i < |keys| ==> Fetch(source, keys[i]) == Found(values[i]))
        && compute(values).Some?
  }

  /** Something on the way to this path is there and is not a mapping. */
  ghost predicate Blocked(config: Value, path: Path) {
    exists n :: 0 <= n < |path| && Lookup(config, path[..n]).Some? && !Lookup(config, path[..n]).value.Dict?
  }

  lemma {:induction false} FetchesAll(config: Value, keys: seq<Path>, values: seq<Value>, n: nat)
    requires n <= |keys| == |values| && forall i :: 0 <= i < |keys| ==> Fetch(config, keys[i]) == Found(values[i])
    ensures FetchAll(config, keys, n) == Some(values[..n])
  {
    if n > 0 {
      FetchesAll(config, keys, values, n - 1);
      assert values[..n] == values[..n - 1] + [values[n - 1]];
    }
  }

  lemma ReadableIff(source: Value, rule: Source)
    ensures ValueOf(source, rule).Some? <==> Readable(source, rule)
  {
    if rule.Computed? {
      var keys := rule.keys;
      if FetchAll(source, keys, |keys|).Some? {
        FetchedAll(source, keys, |keys|);
      }
      if Readable(source, rule) {
        var values: seq<Value> :| |values| == |keys| && (forall i :: 0 <= i < |keys| ==> Fetch(source, keys[i]) == Found(values[i]))
          && rule.compute(values).Some?;
        FetchesAll(source, keys, values, |keys|);
        assert values[..|keys|] == values;
      }
    }
  }

  lemma {:induction false} AllReadIff(source: Value, rules: seq<Rule>, n: nat)
    requires n <= |rules|
    ensures AssignmentsOf(source, rules, n).Some? <==> forall r :: 0 <= r < n ==> Readable(source, rules[r].source)
  {
    if n > 0 {
      AllReadIff(source, rules, n - 1);
      ReadableIff(source, rules[n - 1].source);
    }
  }

  /** The i-th assignment runs into something that is not a mapping. */
  ghost predicate FailsAt(config: Value, todo: seq<Assignment>, i: nat)
    requires Proper(todo) && i < |todo|
  {
    AssignAll(config, todo, i).Some? && Blocked(AssignAll(config, todo, i).value, todo[i].path)
  }

  lemma {:induction false} AssignAllFailsIff(config: Value, todo: seq<Assignment>, n: nat)
    requires Proper(todo) && n <= |todo|
    ensures AssignAll(config, todo, n).None? <==> exists i :: 0 <= i < n && FailsAt(config, todo, i)
  {
    if n > 0 {
      AssignAllFailsIff(config, todo, n - 1);
      if AssignAll(config, todo, n - 1).Some? {
        SetRaisesIff(AssignAll(config, todo, n - 1).value, todo[n - 1].path, todo[n - 1].value);
        assert AssignAll(config, todo, n).None? <==> FailsAt(config, todo, n - 1);
      }
    }
  }

  /** The alignment goes through exactly when every rule can be read, the budget or else the model length is there, and no assignment runs
      into something that is not a mapping. */
  lemma AlignedIff(source: Value, to: Value, rules: seq<Rule>)
    requires ProperRules(rules)
    ensures Todo(source, rules).Some? <==>
      && (forall r :: 0 <= r < |rules| ==> Readable(source, rules[r].source))
      && Fetch(source, BUDGET_SOURCE).Found? && (Fetch(source, BUDGET_SOURCE).value.Null? ==> Fetch(source, MODEL_LENGTH).Found?)
    ensures Todo(source, rules).Some? ==> Proper(Todo(source, rules).value)
    ensures Aligned(source, to, rules).Some? <==>
      Todo(source, rules).Some? && forall i :: 0 <= i < |Todo(source, rules).value| ==> !FailsAt(to, Todo(source, rules).value, i)
  {
    AllReadIff(source, rules, |rules|);
    if Todo(source, rules).Some? {
      AssignmentsAreProper(source, rules, |rules|);
      AssignAllFailsIff(to, Todo(source, rules).value, |Todo(source, rules).value|);
    }
  }

  // ----- Rounding up -----

  /** The batch size becomes the least multiple of the world size that is not below it. */
  method RoundUp(batch: int, world: int) returns (r: int)
    ensures world <= 0 ==> r == batch
    ensures world > 0 ==> r >= batch && r % world == 0
    ensures world > 0 ==> forall m :: batch <= m < r ==> m % world != 0
  {
    r := batch;
    if world > 0 && batch % world != 0 {
      while r % world != 0
        invariant r >= batch && r <= (batch / world + 1) * world
        invariant forall m :: batch <= m < r ==> m % world != 0
        decreases (batch / world + 1) * world - r
      {
        NotBeyond(batch, r, world);
        r := r + 1;
      }
    }
  }

  lemma NotBeyond(batch: int, r: int, world: int)
    requires world > 0 && r <= (batch / world + 1) * world && r % world != 0
    ensures r < (batch / world + 1) * world
  {
    var q := batch / world + 1;
    if r == q * world {
      MultipleLeavesNothing(q, world);
    }
  }

  lemma MultipleLeavesNothing(q: int, world: int)
    requires world > 0
    ensures (q * world) % world == 0
  {
    var p, b := q * world / world, (q * world) % world;
    assert q * world == p * world + b;
    Difference(q, p, world);
    FarFromZero(q - p, world);
  }

  lemma Difference(q: int, p: int, world: int)
    ensures (q - p) * world == q * world - p * world
  {
  }

  lemma FarFromZero(k: int, world: int)
    requires world > 0
    ensures k >= 1 ==> k * world >= world
    ensures k <= -1 ==> k * world <= -world
  {
  }
}
