/**
 * The fractal tree as the program keeps it: mutable branch nodes, built once
 * by CreateTree, reshaped in place every frame by UpdateTree, and walked by
 * DrawTree. Each node carries, as ghost state, the `Tree` value it stands
 * for, and every method is proved against the matching function of
 * TreeSpec.
 */
module Canvas {
  import opened Geometry
  import opened Leaves
  import opened TreeSpec

  class BranchNode {
    var baseLine: Segment
    var leafs: seq<Leaf>
    var leftChild: BranchNode?
    var rightChild: BranchNode?

    /** The subtree rooted here, as a value. */
    ghost var Contents: Tree
    /** The nodes of the subtree rooted here. */
    ghost var Repr: set<BranchNode>

    /** The subtree is a strict binary tree: children own disjoint node sets, no cycles. */
    ghost predicate Valid()
      reads this, Repr
      decreases Repr
    {
      && this in Repr
      && (leftChild != null ==>
            && leftChild in Repr && leftChild.Repr <= Repr && this !in leftChild.Repr
            && leftChild.Valid())
      && (rightChild != null ==>
            && rightChild in Repr && rightChild.Repr <= Repr && this !in rightChild.Repr
            && rightChild.Valid())
      && (leftChild != null && rightChild != null ==> leftChild.Repr !! rightChild.Repr)
      && Contents == Node(baseLine, leafs, ContentsOf(leftChild), ContentsOf(rightChild))
    }

    /** The `currTree` object literal: a base line and no leaves yet. */
    constructor (a: Point, b: Point)
      ensures baseLine == Segment(a, b) && leafs == []
      ensures leftChild == null && rightChild == null
      ensures Repr == {this} && Contents == Node(Segment(a, b), [], Nil, Nil)
      ensures Valid()
    {
      baseLine := Segment(a, b);
      leafs := [];
      leftChild := null;
      rightChild := null;
      Repr := {this};
      Contents := Node(Segment(a, b), [], Nil, Nil);
    }
  }

  ghost function ReprOf(n: BranchNode?): set<BranchNode>
    reads n
  {
    if n == null then {} else n.Repr
  }

  ghost function ContentsOf(n: BranchNode?): Tree
    reads n
  {
    if n == null then Nil else n.Contents
  }

  /**
   * createTree: no node at or past the depth bound; otherwise a fresh node on
   * (a, b), its leaves pushed one by one, then the left and the right child.
   * Returns the position of the random stream after the last draw.
   */
  method CreateTree(a: Point, b: Point, p: Params, depth: int, cfg: Config,
                    rng: nat -> real, sqrt: real -> real, cursor: nat)
    returns (tree: BranchNode?, next: nat)
    ensures tree == null <==> depth >= cfg.depthMax
    ensures tree != null ==> tree.Valid() && fresh(tree.Repr)
    ensures tree == null ==> Build(a, b, p, depth, cfg, rng, sqrt, cursor).tree == Nil
    ensures tree != null ==> tree.Contents == Build(a, b, p, depth, cfg, rng, sqrt, cursor).tree
    ensures next == Build(a, b, p, depth, cfg, rng, sqrt, cursor).next
    decreases cfg.depthMax - depth
  {
    if depth >= cfg.depthMax {
      return null, cursor;
    }
    tree, next := NewBranch(a, b, depth, cfg, rng, sqrt, cursor);
    ghost var n := LeafCount(a, b, depth, cfg, sqrt);
    ghost var lb := Build(b, LeftEnd(a, b, p), p, depth + 1, cfg, rng, sqrt, next);
    var left, afterLeft := CreateTree(b, LeftEnd(a, b, p), p, depth + 1, cfg, rng, sqrt, next);
    ghost var rb := Build(b, RightEnd(a, b, p), p, depth + 1, cfg, rng, sqrt, afterLeft);
    var right, afterRight := CreateTree(b, RightEnd(a, b, p), p, depth + 1, cfg, rng, sqrt, afterLeft);
    Attach(tree, left, right, lb.tree, rb.tree);
    next := afterRight;
  }

  /**
   * The first half of createTree: the node literal on (a, b) with no leaves,
   * then, on a depth inside the leaf range, the counting loop that pushes
   * Math.floor(length / LEN_PER_LEAF) random leaves onto it.
   */
  method NewBranch(a: Point, b: Point, depth: int, cfg: Config,
                   rng: nat -> real, sqrt: real -> real, cursor: nat)
    returns (node: BranchNode, next: nat)
    ensures fresh(node)
    ensures node.baseLine == Segment(a, b)
    ensures node.leafs == NewLeaves(rng, cursor, LeafCount(a, b, depth, cfg, sqrt))
    ensures next == cursor + DrawsPerLeaf * LeafCount(a, b, depth, cfg, sqrt)
  {
    node := new BranchNode(a, b);
    next := cursor;
    if cfg.leafMin <= depth <= cfg.leafMax {
      var leafsCount := (CalcLength(a, b, sqrt) / LenPerLeaf).Floor;
      next := GrowLeaves(node, leafsCount, rng, cursor);
    }
  }

  /**
   * createTree's assignments of the two recursive results to the node's
   * `left` and `right`: the node becomes the root of a valid subtree.
   */
  method Attach(tree: BranchNode, left: BranchNode?, right: BranchNode?, ghost lt: Tree, ghost rt: Tree)
    requires left != null ==> left.Valid() && tree !in left.Repr && left.Contents == lt
    requires right != null ==> right.Valid() && tree !in right.Repr && right.Contents == rt
    requires left == null ==> lt == Nil
    requires right == null ==> rt == Nil
    requires left != null && right != null ==> left.Repr !! right.Repr
    modifies tree
    ensures tree.Valid()
    ensures tree.baseLine == old(tree.baseLine) && tree.leafs == old(tree.leafs)
    ensures tree.leftChild == left && tree.rightChild == right
    ensures tree.Repr == {tree} + old(ReprOf(left)) + old(ReprOf(right))
    ensures tree.Contents == Node(tree.baseLine, tree.leafs, lt, rt)
  {
    tree.leftChild := left;
    tree.rightChild := right;
    tree.Repr := {tree} + ReprOf(left) + ReprOf(right);
    tree.Contents := Node(tree.baseLine, tree.leafs, lt, rt);
  }

  /**
   * createTree's counting loop: push `count` random leaves onto the node's
   * leaves, five draws each, and return the stream position after them.
   */
  method GrowLeaves(node: BranchNode, count: int, rng: nat -> real, cursor: nat) returns (next: nat)
    requires node.leafs == []
    modifies node`leafs
    ensures node.leafs == NewLeaves(rng, cursor, if count > 0 then count else 0)
    ensures next == cursor + DrawsPerLeaf * (if count > 0 then count else 0)
  {
    next := cursor;
    var n := if count > 0 then count else 0;
    var i := 0;
    while i < count
      invariant 0 <= i <= n
      invariant node.leafs == NewLeaves(rng, cursor, i)
      invariant next == cursor + DrawsPerLeaf * i
    {
      node.leafs := node.leafs + [RandomLeaf(rng, next)];
      next := next + DrawsPerLeaf;
      i := i + 1;
    }
  }

  /**
   * updateTree: below the depth bound, give the node base line (a, b) and
   * recurse into the children it has, with the branching formulas. Nodes
   * keep their identity, their leaves and their children.
   */
  method UpdateTree(tree: BranchNode, a: Point, b: Point, p: Params, depth: int, cfg: Config)
    requires tree.Valid()
    modifies tree.Repr
    ensures tree.Valid() && tree.Repr == old(tree.Repr)
    ensures tree.Contents == Updated(old(tree.Contents), a, b, p, depth, cfg.depthMax)
    ensures forall n :: n in tree.Repr ==>
              n.leafs == old(n.leafs) && n.leftChild == old(n.leftChild) && n.rightChild == old(n.rightChild)
    decreases tree.Repr
  {
    if depth >= cfg.depthMax {
      return;
    }
    tree.baseLine := Segment(a, b);
    if tree.leftChild != null {
      UpdateTree(tree.leftChild, b, LeftEnd(a, b, p), p, depth + 1, cfg);
    }
    if tree.rightChild != null {
      UpdateTree(tree.rightChild, b, RightEnd(a, b, p), p, depth + 1, cfg);
    }
    tree.Contents := Node(tree.baseLine, tree.leafs, ContentsOf(tree.leftChild), ContentsOf(tree.rightChild));
  }

  /**
   * drawTree: nothing at or past the wanted depth; otherwise the node's line,
   * a polygon per leaf, then the left and the right subtree.
   */
  method DrawTree(tree: BranchNode, cur: int, want: int, sqrt: real -> real) returns (events: seq<DrawEvent>)
    requires tree.Valid()
    requires Drawable(tree.Contents, cur, want, sqrt)
    ensures events == Drawn(tree.Contents, cur, want, sqrt)
    decreases tree.Repr
  {
    if cur >= want {
      return [];
    }
    var line := tree.baseLine;
    var polys := DrawLeafs(line, tree.leafs, sqrt);
    events := [Line(line.a, line.b)] + polys;
    if tree.leftChild != null {
      var sub := DrawTree(tree.leftChild, cur + 1, want, sqrt);
      events := events + sub;
    }
    if tree.rightChild != null {
      var sub := DrawTree(tree.rightChild, cur + 1, want, sqrt);
      events := events + sub;
    }
  }

  /** The loop of drawTree over a node's leaves: one drawLeaf each, in order. */
  method DrawLeafs(line: Segment, leafs: seq<Leaf>, sqrt: real -> real) returns (polys: seq<DrawEvent>)
    requires leafs == [] || CalcLength(line.a, line.b, sqrt) > 0.0
    ensures polys == LeafPolygons(line.a, line.b, leafs, sqrt)
  {
    polys := [];
    var i := 0;
    while i < |leafs|
      invariant 0 <= i <= |leafs|
      invariant polys == LeafPolygons(line.a, line.b, leafs[..i], sqrt)
    {
      assert leafs[..i + 1][..i] == leafs[..i];
      polys := polys + [DrawLeaf(line.a, line.b, leafs[i], sqrt)];
      i := i + 1;
    }
    assert leafs[..i] == leafs;
  }
}
