/** The loader of the OTB tree format: START, type, escaped props, children, END. */
module OtbLoader {
  import opened Bytes
  import opened Wrappers

  const ESCAPE: byte := 0xFD
  const START: byte := 0xFE
  const END: byte := 0xFF

  // A node as the parser leaves it: its props are a range of the file, still escaped.
  datatype Node = Node(kind: byte, propsBegin: nat, propsEnd: nat, children: seq<Node>)

  // The stack parser between two bytes; the innermost open node is the last one on the stack.
  datatype State = State(pos: nat, stack: seq<Node>, root: Option<Node>)

  // The props of a node end where its first child starts.
  function ClosedProps(n: Node, at: nat): Node {
    if n.children == [] then n.(propsEnd := at) else n
  }

  function WithTop(stack: seq<Node>, n: Node): seq<Node>
    requires stack != []
  {
    stack[..|stack| - 1] + [n]
  }

  function Top(stack: seq<Node>): Node
    requires stack != []
  {
    stack[|stack| - 1]
  }

  // A node that has reached its END leaves the stack for its parent's children.
  function Close(stack: seq<Node>, root: Option<Node>, n: Node): (seq<Node>, Option<Node>)
    requires stack != []
  {
    var below := stack[..|stack| - 1];
    if below == [] then ([], Some(n))
    else (WithTop(below, Top(below).(children := Top(below).children + [n])), root)
  }

  // One turn of the parser's loop; None is the exception for an invalid format.
  function Step(file: seq<byte>, st: State): (r: Option<State>)
    requires st.pos < |file|
    ensures r.Some? ==> st.pos < r.value.pos <= |file|
  {
    var b := file[st.pos];
    if b == START then
      if st.stack == [] || st.pos + 1 == |file| then None
      else
        var stack := WithTop(st.stack, ClosedProps(Top(st.stack), st.pos));
        Some(State(st.pos + 2, stack + [Node(file[st.pos + 1], st.pos + 2, 0, [])], st.root))
    else if b == END then
      if st.stack == [] then None
      else
        var (stack, root) := Close(st.stack, st.root, ClosedProps(Top(st.stack), st.pos));
        Some(State(st.pos + 1, stack, root))
    else if b == ESCAPE then
      if st.pos + 1 == |file| then None else Some(st.(pos := st.pos + 2))
    else
      Some(st.(pos := st.pos + 1))
  }

  function Run(file: seq<byte>, st: State): Option<Node>
    requires st.pos <= |file|
    decreases |file| - st.pos
  {
    if st.pos == |file| then if st.stack == [] then st.root else None
    else
      var next := Step(file, st);
      if next.None? then None else Run(file, next.value)
  }

  // The file's length and identifier are checked first; parsing then starts at the root's props.
  function Parse(file: seq<byte>, accepted: seq<byte>): Option<Node> {
    if |file| <= 7 || (file[..4] != accepted && file[..4] != [0, 0, 0, 0]) || file[4] != START then None
    else Run(file, State(6, [Node(file[5], 6, 0, [])], None))
  }

  method ParseTree(file: seq<byte>, accepted: seq<byte>) returns (tree: Option<Node>)
    ensures tree == Parse(file, accepted)
  {
    if |file| <= 7 || (file[..4] != accepted && file[..4] != [0, 0, 0, 0]) {
      return None;
    }
    var it := 4;
    if file[it] != START {
      return None;
    }
    var stack := [Node(file[it + 1], it + 2, 0, [])];
    var root := None;
    it := it + 2;
    while it < |file|
      invariant 6 <= it <= |file|
      invariant Run(file, State(it, stack, root)) == Parse(file, accepted)
    {
      var b := file[it];
      if b == START {
        if stack == [] {
          return None;
        }
        var current := stack[|stack| - 1];
        if current.children == [] {
          current := current.(propsEnd := it);
        }
        stack := stack[..|stack| - 1] + [current];
        it := it + 1;
        if it == |file| {
          return None;
        }
        stack := stack + [Node(file[it], it + 1, 0, [])];
      } else if b == END {
        if stack == [] {
          return None;
        }
        var current := stack[|stack| - 1];
        if current.children == [] {
          current := current.(propsEnd := it);
        }
        stack := stack[..|stack| - 1];
        if stack == [] {
          root := Some(current);
        } else {
          var parent := stack[|stack| - 1];
          stack := stack[..|stack| - 1] + [parent.(children := parent.children + [current])];
        }
      } else if b == ESCAPE {
        it := it + 1;
        if it == |file| {
          return None;
        }
      }
      it := it + 1;
    }
    return if stack == [] then root else None;
  }

  // ---------------------------------------------------------------- props

  // Drops every escape byte that is not itself escaped.
  function Unescape(s: seq<byte>, lastEscaped: bool): seq<byte> {
    if s == [] then []
    else
      var escaped := s[0] == ESCAPE && !lastEscaped;
      (if escaped then [] else [s[0]]) + Unescape(s[1..], escaped)
  }

  method GetProps(file: seq<byte>, node: Node) returns (props: Option<seq<byte>>)
    requires node.propsBegin <= node.propsEnd <= |file|
    ensures props == if node.propsBegin == node.propsEnd then None
                     else Some(Unescape(file[node.propsBegin..node.propsEnd], false))
  {
    if node.propsBegin == node.propsEnd {
      return None;
    }
    var range := file[node.propsBegin..node.propsEnd];
    var kept: seq<byte> := [];
    var lastEscaped := false;
    assert range[0..] == range;
    for i := 0 to |range|
      invariant kept + Unescape(range[i..], lastEscaped) == Unescape(range, false)
    {
      assert range[i..] == [range[i]] + range[i + 1..];
      ghost var rest := Unescape(range[i..], lastEscaped);
      lastEscaped := range[i] == ESCAPE && !lastEscaped;
      if !lastEscaped {
        assert kept + rest == kept + [range[i]] + Unescape(range[i + 1..], lastEscaped);
        kept := kept + [range[i]];
      }
    }
    assert kept + [] == kept;
    return Some(kept);
  }

  // ---------------------------------------------------------------- the written format

  datatype Tree = Tree(kind: byte, props: seq<byte>, children: seq<Tree>)

  function Escape(props: seq<byte>): seq<byte> {
    if props == [] then []
    else (if props[0] >= ESCAPE then [ESCAPE, props[0]] else [props[0]]) + Escape(props[1..])
  }

  function Write(t: Tree): seq<byte> {
    [START, t.kind] + Escape(t.props) + WriteAll(t.children) + [END]
  }

  function WriteAll(ts: seq<Tree>): seq<byte> {
    if ts == [] then [] else Write(ts[0]) + WriteAll(ts[1..])
  }

  lemma {:induction false} UnescapeEscape(props: seq<byte>)
    ensures Unescape(Escape(props), false) == props
  {
    if props != [] {
      UnescapeFirst(props[0], Escape(props[1..]));
      UnescapeEscape(props[1..]);
      hide Unescape;
      assert props == [props[0]] + props[1..];
    }
  }

  lemma {:induction false} UnescapeFirst(b: byte, rest: seq<byte>)
    ensures b < ESCAPE ==> Unescape([b] + rest, false) == [b] + Unescape(rest, false)
    ensures Unescape([ESCAPE, b] + rest, false) == [b] + Unescape(rest, false)
  {
    assert ([b] + rest)[1..] == rest;
    assert ([ESCAPE, b] + rest)[1..] == [b] + rest;
  }

  // The tree that a parsed node stands for.
  function Read(file: seq<byte>, n: Node): Tree
    requires InFile(file, n)
  {
    Tree(n.kind, Unescape(file[n.propsBegin..n.propsEnd], false),
         seq(|n.children|, i requires 0 <= i < |n.children| => Read(file, n.children[i])))
  }

  ghost predicate InFile(file: seq<byte>, n: Node) {
    n.propsBegin <= n.propsEnd <= |file| && forall c | c in n.children :: InFile(file, c)
  }

  // Where the nodes of a written tree lie.
  function Layout(t: Tree, at: nat): Node {
    var propsEnd := at + 2 + |Escape(t.props)|;
    Node(t.kind, at + 2, propsEnd, LayoutAll(t.children, propsEnd))
  }

  function LayoutAll(ts: seq<Tree>, at: nat): (r: seq<Node>)
    ensures |r| == |ts|
  {
    if ts == [] then [] else [Layout(ts[0], at)] + LayoutAll(ts[1..], at + |Write(ts[0])|)
  }

  lemma {:induction false} PropsStep(file: seq<byte>, st: State, b: byte, first: seq<byte>)
    requires first == (if b >= ESCAPE then [ESCAPE, b] else [b]) && IsAt(file, st.pos, first)
    ensures st.pos + |first| <= |file| && Run(file, st) == Run(file, st.(pos := st.pos + |first|))
  {
    assert file[st.pos] == file[st.pos..st.pos + |first|][0] == first[0];
    assert Step(file, st) == Some(st.(pos := st.pos + |first|));
  }

  lemma {:induction false} RunProps(file: seq<byte>, st: State, props: seq<byte>)
    requires IsAt(file, st.pos, Escape(props))
    ensures Run(file, st) == Run(file, st.(pos := st.pos + |Escape(props)|))
    decreases props
  {
    hide Run, Step;
    if props == [] {
      assert st.(pos := st.pos + |Escape(props)|) == st;
    } else {
      var first := if props[0] >= ESCAPE then [ESCAPE, props[0]] else [props[0]];
      var rest := Escape(props[1..]);
      assert Escape(props) == first + rest;
      hide *;
      IsAtConcat(file, st.pos, first, rest);
      PropsStep(file, st, props[0], first);
      var next := st.(pos := st.pos + |first|);
      RunProps(file, next, props[1..]);
      assert next.(pos := next.pos + |rest|) == st.(pos := st.pos + |Escape(props)|);
    }
  }

  function AddChild(stack: seq<Node>, at: nat, n: Node): seq<Node>
    requires stack != []
  {
    var parent := ClosedProps(Top(stack), at);
    WithTop(stack, parent.(children := parent.children + [n]))
  }

  function AddChildren(stack: seq<Node>, at: nat, ns: seq<Node>): seq<Node>
    requires stack != []
  {
    if ns == [] then stack
    else
      var parent := ClosedProps(Top(stack), at);
      WithTop(stack, parent.(children := parent.children + ns))
  }

  function Begin(stack: seq<Node>, at: nat, kind: byte): seq<Node>
    requires stack != []
  {
    WithTop(stack, ClosedProps(Top(stack), at)) + [Node(kind, at + 2, 0, [])]
  }

  lemma {:induction false} RunStart(file: seq<byte>, st: State, kind: byte)
    requires st.stack != [] && IsAt(file, st.pos, [START, kind])
    ensures Run(file, st) == Run(file, State(st.pos + 2, Begin(st.stack, st.pos, kind), st.root))
  {
    assert file[st.pos] == file[st.pos..st.pos + 2][0] && file[st.pos + 1] == file[st.pos..st.pos + 2][1];
  }

  lemma {:induction false} RunEnd(file: seq<byte>, st: State)
    requires st.stack != [] && IsAt(file, st.pos, [END])
    ensures var (stack, root) := Close(st.stack, st.root, ClosedProps(Top(st.stack), st.pos));
            Run(file, st) == Run(file, State(st.pos + 1, stack, root))
  {
    assert file[st.pos] == file[st.pos..st.pos + 1][0];
  }

  // The node between its START and its END: the props are scanned over, the children collected.
  lemma {:induction false} RunBody(file: seq<byte>, st: State, t: Tree)
    requires st.stack != [] && Top(st.stack).children == []
    requires IsAt(file, st.pos, Escape(t.props) + WriteAll(t.children))
    ensures var at := st.pos + |Escape(t.props)|;
            Run(file, st) ==
            Run(file, State(at + |WriteAll(t.children)|, AddChildren(st.stack, at, LayoutAll(t.children, at)), st.root))
    decreases t, 1
  {
    hide Run, Step, Escape, WriteAll, LayoutAll;
    IsAtConcat(file, st.pos, Escape(t.props), WriteAll(t.children));
    RunProps(file, st, t.props);
    RunTrees(file, st.(pos := st.pos + |Escape(t.props)|), t.children);
  }

  lemma {:induction false} WriteAt(file: seq<byte>, at: nat, t: Tree)
    requires IsAt(file, at, Write(t))
    ensures IsAt(file, at, [START, t.kind])
    ensures IsAt(file, at + 2, Escape(t.props) + WriteAll(t.children))
    ensures IsAt(file, at + |Write(t)| - 1, [END])
  {
    hide Escape, WriteAll;
    var body := Escape(t.props) + WriteAll(t.children);
    assert Write(t) == [START, t.kind] + body + [END];
    IsAtConcat(file, at, [START, t.kind] + body, [END]);
    IsAtConcat(file, at, [START, t.kind], body);
  }

  // From just after a node's type to just after its END: the node is closed as the tree lays it out.
  lemma {:induction false} RunToEnd(file: seq<byte>, at: nat, below: seq<Node>, root: Option<Node>, t: Tree)
    requires IsAt(file, at, Write(t))
    ensures var (stack, root') := Close(below + [Node(t.kind, at + 2, 0, [])], root, Layout(t, at));
            Run(file, State(at + 2, below + [Node(t.kind, at + 2, 0, [])], root)) ==
              Run(file, State(at + |Write(t)|, stack, root'))
    decreases t, 2
  {
    hide Run, Step, Escape;
    var begun := State(at + 2, below + [Node(t.kind, at + 2, 0, [])], root);
    var propsEnd := at + 2 + |Escape(t.props)|;
    WriteAt(file, at, t);
    RunBody(file, begun, t);
    var full := State(
      propsEnd + |WriteAll(t.children)|, AddChildren(begun.stack, propsEnd, LayoutAll(t.children, propsEnd)), root);
    RunEnd(file, full);
    assert t.children == [] ==> LayoutAll(t.children, propsEnd) == [] && WriteAll(t.children) == [];
    assert ClosedProps(Top(full.stack), full.pos) == Layout(t, at);
    assert full.stack[..|full.stack| - 1] == begun.stack[..|begun.stack| - 1];
  }

  // Reading a written tree adds the tree's node to the innermost open node, and nothing else.
  lemma {:induction false} RunTree(file: seq<byte>, st: State, t: Tree)
    requires st.stack != [] && IsAt(file, st.pos, Write(t))
    ensures Run(file, st) ==
      Run(file, State(st.pos + |Write(t)|, AddChild(st.stack, st.pos, Layout(t, st.pos)), st.root))
    decreases t, 3
  {
    hide Run, Step, Write, Layout;
    WriteAt(file, st.pos, t);
    RunStart(file, st, t.kind);
    var outer := WithTop(st.stack, ClosedProps(Top(st.stack), st.pos));
    RunToEnd(file, st.pos, outer, st.root, t);
    assert (outer + [Node(t.kind, st.pos + 2, 0, [])])[..|outer|] == outer;
    assert outer[..|outer| - 1] == st.stack[..|st.stack| - 1];
  }

  lemma {:induction false} RunTrees(file: seq<byte>, st: State, ts: seq<Tree>)
    requires st.stack != [] && IsAt(file, st.pos, WriteAll(ts))
    ensures Run(file, st) ==
      Run(file, State(st.pos + |WriteAll(ts)|, AddChildren(st.stack, st.pos, LayoutAll(ts, st.pos)), st.root))
    decreases ts, 0
  {
    hide Run, Step, Write, Layout;
    if ts != [] {
      IsAtConcat(file, st.pos, Write(ts[0]), WriteAll(ts[1..]));
      RunTree(file, st, ts[0]);
      var next := State(st.pos + |Write(ts[0])|, AddChild(st.stack, st.pos, Layout(ts[0], st.pos)), st.root);
      RunTrees(file, next, ts[1..]);
      AddChildThenRest(st.stack, st.pos, next.pos, Layout(ts[0], st.pos), LayoutAll(ts[1..], next.pos));
    }
  }

  lemma {:induction false} AddChildThenRest(stack: seq<Node>, at: nat, later: nat, n: Node, ns: seq<Node>)
    requires stack != []
    ensures AddChildren(AddChild(stack, at, n), later, ns) == AddChildren(stack, at, [n] + ns)
  {
    var first := AddChild(stack, at, n);
    assert Top(first) == ClosedProps(Top(first), later);
    assert ns == [] ==> [n] + ns == [n];
    assert Top(first).children + ns == ClosedProps(Top(stack), at).children + ([n] + ns);
    assert first[..|first| - 1] == stack[..|stack| - 1];
  }

  // Where a written tree's nodes lie, its props and its children can be read back.
  lemma {:induction false} WrittenParts(file: seq<byte>, t: Tree, at: nat)
    requires IsAt(file, at, Write(t))
    ensures IsAt(file, at + 2, Escape(t.props)) && IsAt(file, at + 2 + |Escape(t.props)|, WriteAll(t.children))
  {
    var props, inner := Escape(t.props), WriteAll(t.children);
    assert Write(t) == [START, t.kind] + props + inner + [END];
    hide *;
    IsAtConcat(file, at, [START, t.kind] + props + inner, [END]);
    IsAtConcat(file, at, [START, t.kind] + props, inner);
    IsAtConcat(file, at, [START, t.kind], props);
  }

  lemma {:induction false} ReadLayout(file: seq<byte>, t: Tree, at: nat)
    requires IsAt(file, at, Write(t))
    ensures InFile(file, Layout(t, at)) && Read(file, Layout(t, at)) == t
    decreases t, 1
  {
    var props, inner := Escape(t.props), WriteAll(t.children);
    var n := Layout(t, at);
    WrittenParts(file, t, at);
    UnescapeEscape(t.props);
    hide Escape, Write, WriteAll, LayoutAll, Unescape;
    ReadLayoutAll(file, t.children, at + 2 + |props|);
    assert n.children == LayoutAll(t.children, at + 2 + |props|) && InFile(file, n);
    assert file[n.propsBegin..n.propsEnd] == props;
    hide InFile;
    assert Read(file, n).children == t.children;
  }

  lemma {:induction false} ReadLayoutAll(file: seq<byte>, ts: seq<Tree>, at: nat)
    requires IsAt(file, at, WriteAll(ts))
    ensures forall i | 0 <= i < |ts| :: InFile(file, LayoutAll(ts, at)[i]) && Read(file, LayoutAll(ts, at)[i]) == ts[i]
    decreases ts, 0
  {
    if ts != [] {
      var first, rest := Layout(ts[0], at), LayoutAll(ts[1..], at + |Write(ts[0])|);
      IsAtConcat(file, at, Write(ts[0]), WriteAll(ts[1..]));
      assert LayoutAll(ts, at) == [first] + rest;
      hide *;
      ReadLayout(file, ts[0], at);
      ReadLayoutAll(file, ts[1..], at + |Write(ts[0])|);
      forall i | 0 <= i < |ts| ensures InFile(file, LayoutAll(ts, at)[i]) && Read(file, LayoutAll(ts, at)[i]) == ts[i] {
        if i > 0 {
          assert ts[i] == ts[1..][i - 1] && LayoutAll(ts, at)[i] == rest[i - 1];
        }
      }
    }
  }

  // A file that holds one written tree is parsed, and the nodes found stand for that tree again. The
  // one exception: a bare root falls short of the loader's minimal size.
  lemma {:induction false} ParseWritten(file: seq<byte>, accepted: seq<byte>, t: Tree)
    requires |accepted| == 4 && file == accepted + Write(t)
    ensures Parse(file, accepted) == if t.props == [] && t.children == [] then None else Some(Layout(t, 4))
    ensures InFile(file, Layout(t, 4)) && Read(file, Layout(t, 4)) == t
  {
    hide Run, Step, Write;
    WriteLength(t);
    assert file[4..4 + |Write(t)|] == Write(t);
    ReadLayout(file, t, 4);
    WriteAt(file, 4, t);
    assert file[4] == file[4..6][0] && file[5] == file[4..6][1] && file[..4] == accepted;
    RunToEnd(file, 4, [], None, t);
    RunOut(file, State(|file|, [], Some(Layout(t, 4))));
    assert [] + [Node(t.kind, 6, 0, [])] == [Node(t.kind, 6, 0, [])];
  }

  lemma {:induction false} WriteLength(t: Tree)
    ensures |Write(t)| >= 3
    ensures |Write(t)| == 3 <==> t.props == [] && t.children == []
  {
    if t.children != [] {
      assert |WriteAll(t.children)| >= |Write(t.children[0])| >= 3;
    }
  }

  lemma {:induction false} RunOut(file: seq<byte>, st: State)
    requires st.pos == |file|
    ensures Run(file, st) == if st.stack == [] then st.root else None
  {}

  // ---------------------------------------------------------------- any accepted file

  // The first position at which a node's END can stand: after its props, or after its last child's END.
  function After(n: Node): nat {
    if n.children == [] then n.propsEnd else After(n.children[|n.children| - 1]) + 1
  }

  // A node whose START stands at `from` or later, with its props before its children and those in order.
  ghost predicate Nested(n: Node, from: nat)
    decreases n, 1
  {
    from + 2 <= n.propsBegin <= n.propsEnd && InOrder(n.children, n.propsEnd)
  }

  ghost predicate InOrder(ns: seq<Node>, from: nat)
    decreases ns, 0
  {
    ns == [] ||
    (var front, last := ns[..|ns| - 1], ns[|ns| - 1];
     InOrder(front, from) && Nested(last, if front == [] then from else After(front[|front| - 1]) + 1))
  }

  // An open node whose next child, or END, stands at `at`.
  ghost predicate Suspended(n: Node, at: int) {
    n.propsBegin <= n.propsEnd && InOrder(n.children, n.propsEnd) && After(n) <= at
  }

  ghost predicate Innermost(n: Node, at: nat) {
    if n.children == [] then n.propsBegin <= at else Suspended(n, at)
  }

  // What every step of the parser keeps: all spans read so far are properly nested.
  ghost predicate Spans(st: State) {
    && (st.stack == [] ==> st.root.Some? && Nested(st.root.value, 4) && After(st.root.value) < st.pos)
    && (st.stack != [] ==>
          && st.stack[0].propsBegin == 6
          && Innermost(Top(st.stack), st.pos)
          && forall i | 0 <= i < |st.stack| - 1 :: Suspended(st.stack[i], st.stack[i + 1].propsBegin - 2))
  }

  lemma {:induction false} CloseKeepsSpans(stack: seq<Node>, at: nat)
    requires |stack| >= 2 && Suspended(Top(stack), at) && Suspended(stack[|stack| - 2], Top(stack).propsBegin - 2)
    ensures var parent := stack[|stack| - 2];
            Suspended(parent.(children := parent.children + [Top(stack)]), at + 1)
  {
    var parent, n := stack[|stack| - 2], Top(stack);
    var children := parent.children + [n];
    assert children[..|children| - 1] == parent.children;
  }

  lemma {:induction false} StepKeepsSpans(file: seq<byte>, st: State)
    requires st.pos < |file| && Spans(st) && Step(file, st).Some?
    ensures Spans(Step(file, st).value)
  {
    hide InOrder, After;
    var b, next := file[st.pos], Step(file, st).value;
    if st.stack != [] && (b == START || b == END) {
      var n := ClosedProps(Top(st.stack), st.pos);
      CloseChildless(n);
      assert Suspended(n, st.pos);
      if b == START {
        assert next.stack[|st.stack| - 1] == n;
        assert next.stack == WithTop(st.stack, n) + [Node(file[st.pos + 1], st.pos + 2, 0, [])];
        assert next.stack[0].propsBegin == st.stack[0].propsBegin;
        forall i | 0 <= i < |next.stack| - 1 ensures Suspended(next.stack[i], next.stack[i + 1].propsBegin - 2) {
          assert i < |st.stack| - 1 ==> Suspended(st.stack[i], st.stack[i + 1].propsBegin - 2);
        }
      } else if |st.stack| >= 2 {
        var p := |st.stack| - 2;
        assert Suspended(st.stack[p], st.stack[p + 1].propsBegin - 2);
        CloseKeepsSpans(WithTop(st.stack, n), st.pos);
        assert next.stack[p] == st.stack[p].(children := st.stack[p].children + [n]);
        forall i | 0 <= i < |next.stack| - 1 ensures Suspended(next.stack[i], next.stack[i + 1].propsBegin - 2) {
          assert Suspended(st.stack[i], st.stack[i + 1].propsBegin - 2);
        }
      }
    }
  }

  lemma {:induction false} CloseChildless(n: Node)
    ensures n.children == [] ==> InOrder(n.children, n.propsEnd) && After(n) == n.propsEnd
  {}

  lemma {:induction false} RunKeepsSpans(file: seq<byte>, st: State)
    requires st.pos <= |file| && Spans(st) && Run(file, st).Some?
    ensures Nested(Run(file, st).value, 4) && After(Run(file, st).value) < |file|
    decreases |file| - st.pos
  {
    hide Nested, After;
    if st.pos < |file| {
      StepKeepsSpans(file, st);
      RunKeepsSpans(file, Step(file, st).value);
    }
  }

  // In every accepted file, written by whom it may be, the spans of the nodes are properly nested.
  lemma {:induction false} ParsedSpans(file: seq<byte>, accepted: seq<byte>)
    requires Parse(file, accepted).Some?
    ensures Nested(Parse(file, accepted).value, 4) && After(Parse(file, accepted).value) < |file|
  {
    RunKeepsSpans(file, State(6, [Node(file[5], 6, 0, [])], None));
  }

  // What nesting says of a node's children: after its props, before its END, one after the other.
  lemma {:induction false} NestedChildren(ns: seq<Node>, from: nat, i: nat)
    requires InOrder(ns, from) && i < |ns|
    ensures from + 2 <= ns[i].propsBegin <= ns[i].propsEnd <= After(ns[i]) <= After(ns[|ns| - 1])
    ensures Nested(ns[i], from)
    ensures forall j | i < j < |ns| :: After(ns[i]) < ns[j].propsBegin
    decreases ns, i
  {
    var front, last := ns[..|ns| - 1], ns[|ns| - 1];
    if front != [] {
      NestedChildren(front, from, |front| - 1);
    }
    if i < |front| {
      NestedChildren(front, from, i);
    }
    if last.children != [] {
      NestedChildren(last.children, last.propsEnd, |last.children| - 1);
    }
    assert last.propsEnd <= After(last);
  }

  // So every node of an accepted file has its props within the file, and can be read.
  lemma {:induction false} NestedInFile(file: seq<byte>, n: Node, from: nat)
    requires Nested(n, from) && After(n) <= |file|
    ensures InFile(file, n)
  {
    if n.children != [] {
      NestedChildren(n.children, n.propsEnd, |n.children| - 1);
    }
    forall c | c in n.children ensures InFile(file, c) {
      var i :| 0 <= i < |n.children| && n.children[i] == c;
      NestedChildren(n.children, n.propsEnd, i);
      NestedInFile(file, c, n.propsEnd);
    }
  }

  // ---------------------------------------------------------------- which files are rejected

  // The nesting depth at the end of the file, counting START and END outside escapes and node types;
  // None when the depth would go below zero, the root is reopened, or the file stops inside an escape.
  function DepthAtEnd(file: seq<byte>, pos: nat, depth: nat): Option<nat>
    requires pos <= |file|
    decreases |file| - pos
  {
    if pos == |file| then Some(depth)
    else if file[pos] == END then
      if depth == 0 then None else DepthAtEnd(file, pos + 1, depth - 1)
    else if file[pos] == START then
      if depth == 0 || pos + 1 == |file| then None else DepthAtEnd(file, pos + 2, depth + 1)
    else if file[pos] == ESCAPE then
      if pos + 1 == |file| then None else DepthAtEnd(file, pos + 2, depth)
    else DepthAtEnd(file, pos + 1, depth)
  }

  lemma {:induction false} RunIffBalanced(file: seq<byte>, st: State)
    requires st.pos <= |file| && (st.stack == [] ==> st.root.Some?)
    ensures Run(file, st).Some? <==> DepthAtEnd(file, st.pos, |st.stack|) == Some(0)
    decreases |file| - st.pos
  {
    if st.pos < |file| && Step(file, st).Some? {
      RunIffBalanced(file, Step(file, st).value);
    }
  }

  // Past the header, exactly the files whose nodes are balanced are accepted.
  lemma {:induction false} ParsedIffBalanced(file: seq<byte>, accepted: seq<byte>)
    requires |file| > 7 && (file[..4] == accepted || file[..4] == [0, 0, 0, 0]) && file[4] == START
    ensures Parse(file, accepted).Some? <==> DepthAtEnd(file, 6, 1) == Some(0)
  {
    RunIffBalanced(file, State(6, [Node(file[5], 6, 0, [])], None));
  }
}
