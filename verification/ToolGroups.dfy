/** Merging chained tool responses: `check_and_merge_chained_tool_response` of ajet/schema/extended_msg.py. */
module ToolGroups {
  import opened PyList

  datatype Message = Message(isTool: bool, content: string)

  // ----- Grouping -----

  /** The groups of `ms` when the tool messages in `current` have just been seen. */
  function GroupsFrom(ms: seq<Message>, current: seq<Message>): seq<seq<Message>> {
    var closed := if current != [] then [current] else [];
    if ms == [] then closed
    else if ms[0].isTool then GroupsFrom(ms[1..], current + [ms[0]])
    else closed + ([[ms[0]]] + GroupsFrom(ms[1..], []))
  }

  method GroupMessages(ms: seq<Message>) returns (groups: seq<seq<Message>>)
    ensures groups == GroupsFrom(ms, [])
  {
    groups := [];
    var current: seq<Message> := [];
    for i := 0 to |ms|
      invariant GroupsFrom(ms, []) == groups + GroupsFrom(ms[i..], current)
    {
      assert ms[i..][0] == ms[i] && ms[i..][1..] == ms[i + 1..];
      if ms[i].isTool {
        current := current + [ms[i]];
      } else {
        if current != [] {
          groups := groups + [current];
          current := [];
        }
        groups := groups + [[ms[i]]];
      }
    }
    if current != [] {
      groups := groups + [current];
    }
  }

  predicate ToolRun(g: seq<Message>) {
    g != [] && forall k :: 0 <= k < |g| ==> g[k].isTool
  }

  predicate Single(g: seq<Message>) {
    |g| == 1 && !g[0].isTool
  }

  /** Groups that add up to the messages: single messages and runs of tool messages, no two runs side by side. */
  ghost predicate Grouping(groups: seq<seq<Message>>, ms: seq<Message>) {
    && Flatten(groups) == ms
    && (forall k :: 0 <= k < |groups| ==> Single(groups[k]) || ToolRun(groups[k]))
    && (forall k :: 0 <= k < |groups| - 1 ==> Single(groups[k]) || Single(groups[k + 1]))
  }

  lemma PrependGroup(g: seq<Message>, groups: seq<seq<Message>>, ms: seq<Message>)
    requires Grouping(groups, ms) && (Single(g) || ToolRun(g)) && (Single(g) || groups == [] || Single(groups[0]))
    ensures Grouping([g] + groups, g + ms)
  {
    assert ([g] + groups)[1..] == groups;
  }

  lemma OneGroup(g: seq<Message>)
    requires Single(g) || ToolRun(g)
    ensures Grouping([g], g)
  {
    assert Flatten([g]) == g + Flatten<Message>([]) == g;
  }

  lemma {:induction false} GroupsAreRuns(ms: seq<Message>, current: seq<Message>)
    requires current == [] || ToolRun(current)
    ensures Grouping(GroupsFrom(ms, current), current + ms)
    decreases |ms|
  {
    if ms == [] {
      assert current + ms == current;
      if current != [] {
        OneGroup(current);
      }
    } else if ms[0].isTool {
      assert (current + [ms[0]]) + ms[1..] == current + ms;
      GroupsAreRuns(ms[1..], current + [ms[0]]);
    } else {
      GroupsAreRuns(ms[1..], []);
      RunEnds(ms, current, GroupsFrom(ms[1..], []));
    }
  }

  lemma RunEnds(ms: seq<Message>, current: seq<Message>, rest: seq<seq<Message>>)
    requires ms != [] && !ms[0].isTool && (current == [] || ToolRun(current)) && Grouping(rest, [] + ms[1..])
    ensures Grouping((if current != [] then [current] else []) + ([[ms[0]]] + rest), current + ms)
  {
    assert [] + ms[1..] == ms[1..] && [ms[0]] + ms[1..] == ms;
    PrependGroup([ms[0]], rest, ms[1..]);
    CloseRun(current, [[ms[0]]] + rest, ms);
  }

  lemma CloseRun(current: seq<Message>, groups: seq<seq<Message>>, ms: seq<Message>)
    requires Grouping(groups, ms) && groups != [] && Single(groups[0]) && (current == [] || ToolRun(current))
    ensures Grouping((if current != [] then [current] else []) + groups, current + ms)
  {
    if current != [] {
      PrependGroup(current, groups, ms);
    } else {
      assert [] + groups == groups && current + ms == ms;
    }
  }

  lemma FirstGroup(xs: seq<seq<Message>>, ms: seq<Message>)
    requires Grouping(xs, ms) && xs != []
    ensures 0 < |xs[0]| <= |ms| && ms[..|xs[0]|] == xs[0] && Flatten(xs[1..]) == ms[|xs[0]|..]
    ensures ms[0].isTool && |xs[0]| < |ms| ==> !ms[|xs[0]|].isTool
    ensures forall k :: 0 <= k < |xs[0]| ==> ms[k].isTool == ms[0].isTool
    ensures !ms[0].isTool ==> |xs[0]| == 1
  {
    assert ms == xs[0] + Flatten(xs[1..]);
    if |xs[0]| < |ms| {
      assert Flatten(xs[1..]) == xs[1] + Flatten(xs[1..][1..]);
      assert ms[|xs[0]|] == xs[1][0];
    }
  }

  lemma {:induction false} GroupingIsUnique(xs: seq<seq<Message>>, ys: seq<seq<Message>>, ms: seq<Message>)
    requires Grouping(xs, ms) && Grouping(ys, ms)
    ensures xs == ys
    decreases |xs|
  {
    if xs != [] {
      FirstGroup(xs, ms);
      assert ys != [];
      FirstGroup(ys, ms);
      assert |xs[0]| == |ys[0]|;
      GroupingIsUnique(xs[1..], ys[1..], ms[|xs[0]|..]);
      assert xs == [xs[0]] + xs[1..] && ys == [ys[0]] + ys[1..];
    } else if ys != [] {
      FirstGroup(ys, ms);
    }
  }

  /** Grouping loses and reorders nothing, and it is the only way to cut the messages into single messages and whole runs of tool
      messages. */
  lemma GroupsAreTheGrouping(ms: seq<Message>, groups: seq<seq<Message>>)
    ensures Grouping(groups, ms) <==> groups == GroupsFrom(ms, [])
  {
    GroupsAreRuns(ms, []);
    assert [] + ms == ms;
    if Grouping(groups, ms) {
      GroupingIsUnique(groups, GroupsFrom(ms, []), ms);
    }
  }

  // ----- Merged content -----

  datatype Tags = Tags(open: string, newline: string, close: string)

  /** The tags of tool messages. */
  const TOOL_TAGS := Tags("<tool_response>\n", "\n", "</tool_response>")

  function Tagged(content: string, t: Tags): string {
    t.open + ((content + t.newline) + t.close)
  }

  /** "".join(f"<tool_response>\n{msg.content}\n</tool_response>\n" for msg in group) */
  function Wrapped(g: seq<Message>, t: Tags): string {
    if g == [] then "" else Tagged(g[0].content, t) + (t.newline + Wrapped(g[1..], t))
  }

  /** The content of the merged message: the first opening and the last closing tag cut off. */
  function MergedContent(g: seq<Message>, t: Tags): string {
    if |g| == 1 then g[0].content else Take(Drop(Wrapped(g, t), |t.open|), -|t.close + t.newline|)
  }

  /** What the chat template makes of a run of tool messages, behind the role header. */
  function Rendered(g: seq<Message>, t: Tags): string {
    if g == [] then "" else t.newline + (Tagged(g[0].content, t) + Rendered(g[1..], t))
  }

  /** The newline in front of each rendered message is the one that ends the wrapped message before it. */
  lemma {:induction false} RenderedIsWrapped(g: seq<Message>, t: Tags)
    ensures t.newline + Wrapped(g, t) == Rendered(g, t) + t.newline
  {
    if g == [] {
      assert t.newline + "" == "" + t.newline;
    } else {
      RenderedIsWrapped(g[1..], t);
      MoveNewline(t.newline, Tagged(g[0].content, t), Wrapped(g[1..], t), Rendered(g[1..], t));
    }
  }

  lemma MoveNewline(n: string, x: string, w: string, r: string)
    requires n + w == r + n
    ensures n + (x + (n + w)) == (n + (x + r)) + n
  {
    assert x + (n + w) == x + (r + n) == (x + r) + n;
  }

  /** A wrapped group is an opening tag, something, and a closing tag. */
  lemma {:induction false} WrappedEnds(g: seq<Message>, t: Tags) returns (middle: string)
    requires g != []
    ensures Wrapped(g, t) == t.open + (middle + (t.close + t.newline))
  {
    var c := g[0].content + t.newline;
    if |g| == 1 {
      middle := c;
      assert Wrapped(g[1..], t) == "";
      Associate(t.open, c, t.close, t.newline);
    } else {
      var inner := WrappedEnds(g[1..], t);
      middle := c + t.close + t.newline + t.open + inner;
      Nest(t.open, c, t.close, t.newline, inner);
    }
  }

  lemma Associate(o: string, c: string, e: string, n: string)
    ensures (o + (c + e)) + (n + "") == o + (c + (e + n))
  {
  }

  lemma Nest(o: string, c: string, e: string, n: string, inner: string)
    ensures (o + (c + e)) + (n + (o + (inner + (e + n)))) == o + ((c + e + n + o + inner) + (e + n))
  {
  }

  lemma Middle(first: string, middle: string, last: string)
    requires last != ""
    ensures Take(Drop(first + (middle + last), |first|), -|last|) == middle
  {
    assert Drop(first + (middle + last), |first|) == middle + last;
  }

  /** The merged message renders like the group it stands for but for one newline before the last closing tag: its content keeps the
      newline that follows the last tool's text. */
  lemma MergedRendersAlike(g: seq<Message>, t: Tags)
    requires |g| >= 2 && t.newline != ""
    ensures var content := MergedContent(g, t);
      && Rendered(g, t) == t.newline + (t.open + (content + t.close))
      && Rendered([Message(true, content)], t) == t.newline + (t.open + ((content + t.newline) + t.close))
  {
    var content := MergedContent(g, t);
    var middle := WrappedEnds(g, t);
    Middle(t.open, middle, t.close + t.newline);
    RenderedIsWrapped(g, t);
    Outside(t.newline, t.open, content, t.close);
    SameWithoutLast(t.newline + (t.open + (content + t.close)), Rendered(g, t), t.newline);
    assert Rendered([Message(true, content)][1..], t) == "";
  }

  /** A tool message that stands alone is left as it is. */
  lemma AloneStaysAsItIs(m: Message, t: Tags)
    ensures MergedContent([m], t) == m.content && Rendered([Message(true, MergedContent([m], t))], t) == Rendered([m], t)
  {
    assert [m][1..] == [] && [Message(true, m.content)][1..] == [];
  }

  /** In particular a merged tool message does. */
  lemma ToolMessagesRenderAlike(g: seq<Message>)
    requires |g| >= 2
    ensures var content, t := MergedContent(g, TOOL_TAGS), Tags("<tool_response>\n", "\n", "</tool_response>");
      && Rendered(g, t) == t.newline + (t.open + (content + t.close))
      && Rendered([Message(true, content)], t) == t.newline + (t.open + ((content + t.newline) + t.close))
  {
    MergedRendersAlike(g, TOOL_TAGS);
  }

  lemma Outside(n: string, o: string, c: string, e: string)
    ensures n + (o + (c + (e + n))) == (n + (o + (c + e))) + n
  {
  }

  lemma SameWithoutLast(x: string, y: string, z: string)
    requires x + z == y + z
    ensures x == y
  {
    assert x == (x + z)[..|x|] && y == (y + z)[..|y|];
  }
}
