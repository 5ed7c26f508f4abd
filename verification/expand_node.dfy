/** Freezing a router `Node` into the `ConstNode` literal the route macro
    embeds as a constant. The literal is modelled by its structure: each field's
    tokens, with the node type written as a path; `Evaluate` gives the
    `ConstNode` value the compiler builds from such a literal. */
module ExpandNode {
  import opened Wrappers
  import opened Tree

  /** The path prefix shared by the four node type constants. */
  const NodeTypeModule := "::submillisecond_core::router::tree::NodeType::"

  /** The path the literal uses for node type `t`. */
  function NodeTypePath(t: NodeType): string
  {
    NodeTypeModule +
      match t
      case Root => "Root"
      case Param => "Param"
      case CatchAll => "CatchAll"
      case Static => "Static"
  }

  /** The node type a path names, if any. */
  function NodeTypeOfPath(path: string): Option<NodeType>
  {
    if path == NodeTypePath(Root) then Some(Root)
    else if path == NodeTypePath(Param) then Some(Param)
    else if path == NodeTypePath(CatchAll) then Some(CatchAll)
    else if path == NodeTypePath(Static) then Some(Static)
    else None
  }

  /** The tokens of a `ConstNode { .. }` struct literal, field by field. */
  datatype NodeLit = NodeLit(
    priority: nat,
    wildChild: bool,
    indices: seq<u8>,
    nodeType: string,
    prefix: seq<u8>,
    children: seq<NodeLit>)

  /** The literal emitted for `n`: scalar fields copied, the byte arrays
      listed byte for byte (so the literal's bytes are the node's own), the
      node type written as its path, children expanded in order. */
  function Expand(n: Node): NodeLit
    decreases n
  {
    NodeLit(
      n.priority,
      n.wildChild,
      n.indices,
      NodeTypePath(n.nodeType),
      n.prefix,
      ExpandAll(n.children))
  }

  /** The children's literals, in order (`children.iter().map(expand_node)`). */
  function ExpandAll(ns: seq<Node>): seq<NodeLit>
    decreases ns
  {
    if |ns| == 0 then [] else [Expand(ns[0])] + ExpandAll(ns[1..])
  }

  /** The `ConstNode` value a literal denotes, or None when a node type path
      names no variant. */
  function Evaluate(lit: NodeLit): Option<ConstNode>
    decreases lit, 1
  {
    match NodeTypeOfPath(lit.nodeType)
    case None => None
    case Some(t) =>
      match EvaluateAll(lit.children)
      case None => None
      case Some(cs) => Some(ConstNode(lit.priority, lit.wildChild, lit.indices, t, lit.prefix, cs))
  }

  function EvaluateAll(lits: seq<NodeLit>): (r: Option<seq<ConstNode>>)
    ensures r.Some? ==> |r.value| == |lits|
    decreases lits, 0
  {
    if |lits| == 0 then Some([])
    else
      match Evaluate(lits[0])
      case None => None
      case Some(c) =>
        match EvaluateAll(lits[1..])
        case None => None
        case Some(cs) => Some([c] + cs)
  }

  /** A frozen node turned back into a build-time node. */
  function Thaw(c: ConstNode): Node
    decreases c
  {
    Node(c.priority, c.wildChild, c.indices, c.nodeType, c.prefix, ThawAll(c.children))
  }

  function ThawAll(cs: seq<ConstNode>): seq<Node>
    decreases cs
  {
    if |cs| == 0 then [] else [Thaw(cs[0])] + ThawAll(cs[1..])
  }

  /** Each node type has its own path, and the path names it back. */
  lemma NodeTypePathRoundTrip(t: NodeType)
    ensures NodeTypeOfPath(NodeTypePath(t)) == Some(t)
  {
  }

  /** The four node types map one-to-one onto their paths. */
  lemma NodeTypePathInjective(t1: NodeType, t2: NodeType)
    ensures NodeTypePath(t1) == NodeTypePath(t2) ==> t1 == t2
  {
  }

  /** The emitted literal always denotes a `ConstNode`, and thawing that value
      gives back the node it was expanded from. */
  lemma {:induction false} ExpandRoundTrip(n: Node)
    ensures Evaluate(Expand(n)).Some?
    ensures Thaw(Evaluate(Expand(n)).value) == n
    decreases n, 1
  {
    NodeTypePathRoundTrip(n.nodeType);
    var lit := Expand(n);
    assert lit.indices == n.indices;
    assert lit.prefix == n.prefix;
    ExpandAllRoundTrip(n.children);
  }

  /** The same, for a list of children expanded in order. */
  lemma {:induction false} ExpandAllRoundTrip(ns: seq<Node>)
    ensures EvaluateAll(ExpandAll(ns)).Some?
    ensures ThawAll(EvaluateAll(ExpandAll(ns)).value) == ns
    decreases ns, 0
  {
    if |ns| > 0 {
      ExpandRoundTrip(ns[0]);
      ExpandAllRoundTrip(ns[1..]);
      var lits := ExpandAll(ns);
      assert lits[0] == Expand(ns[0]);
      assert lits[1..] == ExpandAll(ns[1..]);
      var cs := EvaluateAll(lits).value;
      assert cs[1..] == EvaluateAll(ExpandAll(ns[1..])).value;
      assert ns == [ns[0]] + ns[1..];
    }
  }

  lemma {:induction false} ExpandAllAt(ns: seq<Node>)
    ensures |ExpandAll(ns)| == |ns|
    ensures forall i :: 0 <= i < |ns| ==> ExpandAll(ns)[i] == Expand(ns[i])
    decreases ns
  {
    if |ns| > 0 {
      ExpandAllAt(ns[1..]);
    }
  }

  lemma {:induction false} EvaluateAllAt(lits: seq<NodeLit>)
    requires EvaluateAll(lits).Some?
    ensures forall i :: 0 <= i < |lits| ==>
      Evaluate(lits[i]).Some? && EvaluateAll(lits).value[i] == Evaluate(lits[i]).value
    decreases lits
  {
    if |lits| > 0 {
      EvaluateAllAt(lits[1..]);
      forall i | 1 <= i < |lits|
        ensures Evaluate(lits[i]).Some? && EvaluateAll(lits).value[i] == Evaluate(lits[i]).value
      {
        assert lits[i] == lits[1..][i - 1];
      }
    }
  }

  lemma {:induction false} ThawAllAt(cs: seq<ConstNode>)
    ensures |ThawAll(cs)| == |cs|
    ensures forall i :: 0 <= i < |cs| ==> ThawAll(cs)[i] == Thaw(cs[i])
    decreases cs
  {
    if |cs| > 0 {
      ThawAllAt(cs[1..]);
    }
  }

  /** A thawed node has the shape of the frozen node it came from. */
  lemma {:induction false} ThawSameShape(c: ConstNode)
    ensures SameShape(Thaw(c), c)
    decreases c
  {
    ThawAllAt(c.children);
    forall i | 0 <= i < |c.children| ensures SameShape(Thaw(c).children[i], c.children[i]) {
      ThawSameShape(c.children[i]);
    }
  }

  /** Freezing preserves shape: the constant has the source node's priority,
      wild-child flag and node type, the same index and prefix bytes, and as
      many children, each of the same shape as its source child. */
  lemma ExpandSameShape(n: Node)
    ensures Evaluate(Expand(n)).Some?
    ensures SameShape(n, Evaluate(Expand(n)).value)
  {
    ExpandRoundTrip(n);
    ThawSameShape(Evaluate(Expand(n)).value);
  }

  /** Child `i` of the constant is the constant expanded from child `i` of the source. */
  lemma ExpandChildAt(n: Node, i: int)
    requires 0 <= i < |n.children|
    ensures Evaluate(Expand(n)).Some? && Evaluate(Expand(n.children[i])).Some?
    ensures |Evaluate(Expand(n)).value.children| == |n.children|
    ensures Evaluate(Expand(n)).value.children[i] == Evaluate(Expand(n.children[i])).value
  {
    ExpandSameShape(n);
    ExpandAllAt(n.children);
    EvaluateAllAt(ExpandAll(n.children));
  }
}
