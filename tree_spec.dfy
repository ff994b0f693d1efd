/**
 * The fractal tree as a value, and what createTree, updateTree and drawTree
 * compute on it. The imperative versions in module Canvas are proved
 * against these functions; the lemmas in BuildProps, UpdateProps and
 * DrawProps state what the functions guarantee.
 */
module TreeSpec {
  import opened Geometry
  import opened Leaves

  /** LEN_PER_LEAF: one leaf for every 30 units of branch length. */
  const LenPerLeaf: real := 30.0

  /**
   * The tree's fixed bounds: DEPTH_MAX, and the inclusive range of depths on
   * which leaves grow (LEAFS_GROW_ON_DEPTH_RANGE).
   */
  datatype Config = Config(depthMax: int, leafMin: int, leafMax: int)

  /** The bounds the program runs with. */
  const CanvasConfig: Config := Config(14, 2, 10)

  /** A branch node (its base line, its leaves, its two optional children) or no node. */
  datatype Tree =
    | Nil
    | Node(line: Segment, leafs: seq<Leaf>, left: Tree, right: Tree)

  function Size(t: Tree): nat
  {
    if t.Nil? then 0 else 1 + Size(t.left) + Size(t.right)
  }

  /** The number of leaves on all branches of `t`. */
  function LeafTotal(t: Tree): nat
  {
    if t.Nil? then 0 else |t.leafs| + LeafTotal(t.left) + LeafTotal(t.right)
  }

  function Pow2(n: nat): (r: nat)
    ensures r >= 1
  {
    if n == 0 then 1 else 2 * Pow2(n - 1)
  }

  /** `t` is a complete binary tree of height `h`: every path has exactly `h` nodes. */
  predicate Complete(t: Tree, h: nat)
  {
    if h == 0 then t.Nil? else t.Node? && Complete(t.left, h - 1) && Complete(t.right, h - 1)
  }

  /** The base lines of all nodes, in pre-order. */
  function Lines(t: Tree): seq<Segment>
  {
    if t.Nil? then [] else [t.line] + Lines(t.left) + Lines(t.right)
  }

  /** What a tree is apart from its geometry: which nodes exist and their leaves. */
  datatype Shape = NoNode | Fork(leafs: seq<Leaf>, left: Shape, right: Shape)

  function ShapeOf(t: Tree): Shape
  {
    if t.Nil? then NoNode else Fork(t.leafs, ShapeOf(t.left), ShapeOf(t.right))
  }

  /** One node seen during a pre-order walk that starts at depth `depth`. */
  datatype Visit = Visit(depth: int, line: Segment, leafs: seq<Leaf>)

  function Nodes(t: Tree, depth: int): seq<Visit>
  {
    if t.Nil? then []
    else [Visit(depth, t.line, t.leafs)] + Nodes(t.left, depth + 1) + Nodes(t.right, depth + 1)
  }

  /**
   * Every child's base line starts at its parent's end point and ends where
   * the branching formulas with parameters `p` put it.
   */
  predicate WellShaped(t: Tree, p: Params)
  {
    t.Node? ==>
      && (t.left.Node? ==> t.left.line == Segment(t.line.b, LeftEnd(t.line.a, t.line.b, p)))
      && (t.right.Node? ==> t.right.line == Segment(t.line.b, RightEnd(t.line.a, t.line.b, p)))
      && WellShaped(t.left, p)
      && WellShaped(t.right, p)
  }

  // ----------------------------------------------------------------- createTree

  /**
   * How many leaves createTree grows on branch (a, b) at depth `depth`: none
   * outside the leaf depth range, else Math.floor(length / LEN_PER_LEAF),
   * and the counting loop runs no time for a negative bound.
   */
  function LeafCount(a: Point, b: Point, depth: int, cfg: Config, sqrt: real -> real): nat
  {
    if cfg.leafMin <= depth <= cfg.leafMax then
      var k := (CalcLength(a, b, sqrt) / LenPerLeaf).Floor;
      if k > 0 then k else 0
    else 0
  }

  /** The tree createTree returns, with the position of the random stream after it. */
  datatype Built = Built(tree: Tree, next: nat)

  /**
   * createTree(a, b, angle, ratio, depth), drawing its random numbers from
   * `rng` starting at `cursor`: the node's leaves first, then the whole left
   * subtree, then the whole right subtree. Every leaf consumes exactly
   * DrawsPerLeaf draws and nothing else draws.
   */
  function Build(a: Point, b: Point, p: Params, depth: int, cfg: Config,
                 rng: nat -> real, sqrt: real -> real, cursor: nat): Built
    decreases cfg.depthMax - depth
  {
    if depth >= cfg.depthMax then Built(Nil, cursor)
    else
      var n := LeafCount(a, b, depth, cfg, sqrt);
      var leafs := NewLeaves(rng, cursor, n);
      var l := Build(b, LeftEnd(a, b, p), p, depth + 1, cfg, rng, sqrt, cursor + DrawsPerLeaf * n);
      var r := Build(b, RightEnd(a, b, p), p, depth + 1, cfg, rng, sqrt, l.next);
      Built(Node(Segment(a, b), leafs, l.tree, r.tree), r.next)
  }

  // ----------------------------------------------------------------- updateTree

  /**
   * updateTree(t, a, b, angle, ratio, depth): every node above the depth
   * bound gets the base line the branching formulas give it; leaves and
   * children stay as they are.
   */
  function Updated(t: Tree, a: Point, b: Point, p: Params, depth: int, depthMax: int): Tree
  {
    if depth >= depthMax || t.Nil? then t
    else
      Node(Segment(a, b), t.leafs,
           Updated(t.left, b, LeftEnd(a, b, p), p, depth + 1, depthMax),
           Updated(t.right, b, RightEnd(a, b, p), p, depth + 1, depthMax))
  }

  // ------------------------------------------------------------------- drawTree

  /** Every node that has leaves has a base line of positive length, so drawLeaf can divide by it. */
  predicate Nondegenerate(t: Tree, sqrt: real -> real)
  {
    t.Node? ==>
      && (|t.leafs| > 0 ==> CalcLength(t.line.a, t.line.b, sqrt) > 0.0)
      && Nondegenerate(t.left, sqrt)
      && Nondegenerate(t.right, sqrt)
  }

  /** The top `k` levels of `t`. */
  function Prune(t: Tree, k: int): Tree
  {
    if k <= 0 || t.Nil? then Nil else Node(t.line, t.leafs, Prune(t.left, k - 1), Prune(t.right, k - 1))
  }

  /** Every node drawTree(t, cur, want) reaches can have its leaves drawn. */
  predicate Drawable(t: Tree, cur: int, want: int, sqrt: real -> real)
    decreases t
  {
    cur < want && t.Node? ==>
      && (|t.leafs| > 0 ==> CalcLength(t.line.a, t.line.b, sqrt) > 0.0)
      && Drawable(t.left, cur + 1, want, sqrt)
      && Drawable(t.right, cur + 1, want, sqrt)
  }

  /** drawTree's inner loop: one drawLeaf polygon per leaf, in order. */
  function LeafPolygons(a: Point, b: Point, leafs: seq<Leaf>, sqrt: real -> real): seq<DrawEvent>
    requires leafs == [] || CalcLength(a, b, sqrt) > 0.0
  {
    if leafs == [] then []
    else LeafPolygons(a, b, leafs[..|leafs| - 1], sqrt) + [DrawLeaf(a, b, leafs[|leafs| - 1], sqrt)]
  }

  /** Polygon i is drawLeaf of leaf i: one polygon per leaf, in order. */
  lemma {:induction false} LeafPolygonsAt(a: Point, b: Point, leafs: seq<Leaf>, sqrt: real -> real)
    requires leafs == [] || CalcLength(a, b, sqrt) > 0.0
    ensures |LeafPolygons(a, b, leafs, sqrt)| == |leafs|
    ensures forall i :: 0 <= i < |leafs| ==> LeafPolygons(a, b, leafs, sqrt)[i] == DrawLeaf(a, b, leafs[i], sqrt)
  {
    if leafs != [] {
      LeafPolygonsAt(a, b, leafs[..|leafs| - 1], sqrt);
    }
  }

  /** drawTree(t, cur, want): what is drawn, in order. */
  function Drawn(t: Tree, cur: int, want: int, sqrt: real -> real): seq<DrawEvent>
    requires Drawable(t, cur, want, sqrt)
  {
    if cur >= want || t.Nil? then []
    else
      [Line(t.line.a, t.line.b)] + LeafPolygons(t.line.a, t.line.b, t.leafs, sqrt)
      + Drawn(t.left, cur + 1, want, sqrt) + Drawn(t.right, cur + 1, want, sqrt)
  }

  /** Reference rendering: every node of `t` in pre-order, its line, then its leaves. */
  function Render(t: Tree, sqrt: real -> real): seq<DrawEvent>
    requires Nondegenerate(t, sqrt)
  {
    if t.Nil? then []
    else
      [Line(t.line.a, t.line.b)] + LeafPolygons(t.line.a, t.line.b, t.leafs, sqrt)
      + Render(t.left, sqrt) + Render(t.right, sqrt)
  }

  function CountLines(es: seq<DrawEvent>): nat
  {
    if es == [] then 0 else (if es[0].Line? then 1 else 0) + CountLines(es[1..])
  }

  function CountPolys(es: seq<DrawEvent>): nat
  {
    if es == [] then 0 else (if es[0].Poly? then 1 else 0) + CountPolys(es[1..])
  }
}
