/** The router tree types the route macro consumes: the build-time `Node`
    and its frozen, constant mirror `ConstNode`. Only their shape is modelled;
    insertion and matching belong to the router crate. */
module Tree {

  /** A byte, as Rust's `u8`. */
  newtype u8 = x: int | 0 <= x < 256

  /** The role of a node in the radix tree. */
  datatype NodeType = Root | Param | CatchAll | Static

  /** The mutable tree node built while a route path is inserted. */
  datatype Node = Node(
    priority: nat,
    wildChild: bool,
    indices: seq<u8>,
    nodeType: NodeType,
    prefix: seq<u8>,
    children: seq<Node>)

  /** The immutable node a `Node` is frozen into; same fields, fixed sequences. */
  datatype ConstNode = ConstNode(
    priority: nat,
    wildChild: bool,
    indices: seq<u8>,
    nodeType: NodeType,
    prefix: seq<u8>,
    children: seq<ConstNode>)

  /** `n` and `c` have the same fields at every position of the tree. */
  ghost predicate SameShape(n: Node, c: ConstNode)
    decreases n
  {
    && c.priority == n.priority
    && c.wildChild == n.wildChild
    && c.nodeType == n.nodeType
    && |c.indices| == |n.indices|
    && (forall i :: 0 <= i < |n.indices| ==> c.indices[i] == n.indices[i])
    && |c.prefix| == |n.prefix|
    && (forall i :: 0 <= i < |n.prefix| ==> c.prefix[i] == n.prefix[i])
    && |c.children| == |n.children|
    && (forall i :: 0 <= i < |n.children| ==> SameShape(n.children[i], c.children[i]))
  }
}
