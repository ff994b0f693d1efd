/**
 * What createTree guarantees about the tree it returns: a complete binary
 * tree down to the depth bound, leaves only on the leaf depth range and
 * exactly one per LEN_PER_LEAF units of branch, every child hanging from its
 * parent's end point, and five random draws per leaf, in order.
 */
module BuildProps {
  import opened Geometry
  import opened Leaves
  import opened TreeSpec

  /** How many levels createTree builds when it starts at `depth`. */
  function Height(depth: int, cfg: Config): nat
  {
    if depth >= cfg.depthMax then 0 else cfg.depthMax - depth
  }

  /** A complete tree of height `h` has 2^h - 1 nodes. */
  lemma {:induction false} CompleteSize(t: Tree, h: nat)
    requires Complete(t, h)
    ensures Size(t) == Pow2(h) - 1
  {
    if h > 0 {
      CompleteSize(t.left, h - 1);
      CompleteSize(t.right, h - 1);
    }
  }

  /** createTree builds every level from `depth` down to DEPTH_MAX - 1 and no further. */
  lemma {:induction false} BuildComplete(a: Point, b: Point, p: Params, depth: int, cfg: Config,
                                         rng: nat -> real, sqrt: real -> real, cursor: nat)
    ensures Complete(Build(a, b, p, depth, cfg, rng, sqrt, cursor).tree, Height(depth, cfg))
    decreases cfg.depthMax - depth
  {
    if depth < cfg.depthMax {
      var c := cursor + DrawsPerLeaf * LeafCount(a, b, depth, cfg, sqrt);
      var l := Build(b, LeftEnd(a, b, p), p, depth + 1, cfg, rng, sqrt, c);
      BuildComplete(b, LeftEnd(a, b, p), p, depth + 1, cfg, rng, sqrt, c);
      BuildComplete(b, RightEnd(a, b, p), p, depth + 1, cfg, rng, sqrt, l.next);
    }
  }

  /**
   * No node at or past DEPTH_MAX; a node with no children at DEPTH_MAX - 1;
   * 2^(DEPTH_MAX - depth) - 1 nodes in all.
   */
  lemma BuildShape(a: Point, b: Point, p: Params, depth: int, cfg: Config,
                   rng: nat -> real, sqrt: real -> real, cursor: nat)
    ensures var t := Build(a, b, p, depth, cfg, rng, sqrt, cursor).tree;
            && (t == Nil <==> depth >= cfg.depthMax)
            && (depth == cfg.depthMax - 1 ==> t.Node? && t.left == Nil && t.right == Nil)
            && Size(t) == Pow2(Height(depth, cfg)) - 1
  {
    var t := Build(a, b, p, depth, cfg, rng, sqrt, cursor).tree;
    BuildComplete(a, b, p, depth, cfg, rng, sqrt, cursor);
    CompleteSize(t, Height(depth, cfg));
  }

  /** createTree consumes exactly five draws per leaf it grows, and nothing else. */
  lemma {:induction false} BuildNext(a: Point, b: Point, p: Params, depth: int, cfg: Config,
                                     rng: nat -> real, sqrt: real -> real, cursor: nat)
    ensures var r := Build(a, b, p, depth, cfg, rng, sqrt, cursor);
            r.next == cursor + DrawsPerLeaf * LeafTotal(r.tree)
    decreases cfg.depthMax - depth
  {
    if depth < cfg.depthMax {
      var n := LeafCount(a, b, depth, cfg, sqrt);
      var c := cursor + DrawsPerLeaf * n;
      var l := Build(b, LeftEnd(a, b, p), p, depth + 1, cfg, rng, sqrt, c);
      var r := Build(b, RightEnd(a, b, p), p, depth + 1, cfg, rng, sqrt, l.next);
      BuildNext(b, LeftEnd(a, b, p), p, depth + 1, cfg, rng, sqrt, c);
      BuildNext(b, RightEnd(a, b, p), p, depth + 1, cfg, rng, sqrt, l.next);
      calc {
        r.next;
      ==
        cursor + DrawsPerLeaf * n + DrawsPerLeaf * LeafTotal(l.tree) + DrawsPerLeaf * LeafTotal(r.tree);
      ==
        cursor + DrawsPerLeaf * (n + LeafTotal(l.tree) + LeafTotal(r.tree));
      }
    }
  }

  /**
   * The leaf count of a branch: none off the leaf depth range; on it, with a
   * true square root, the largest k with k * LEN_PER_LEAF <= length. A
   * branch with leaves is at least LEN_PER_LEAF long whatever `sqrt` is.
   */
  lemma LeafCountBounds(a: Point, b: Point, depth: int, cfg: Config, sqrt: real -> real)
    ensures !(cfg.leafMin <= depth <= cfg.leafMax) ==> LeafCount(a, b, depth, cfg, sqrt) == 0
    ensures LeafCount(a, b, depth, cfg, sqrt) > 0 ==> CalcLength(a, b, sqrt) >= LenPerLeaf
    ensures IsSqrt(sqrt) && cfg.leafMin <= depth <= cfg.leafMax ==>
              var k := LeafCount(a, b, depth, cfg, sqrt) as real;
              k * LenPerLeaf <= CalcLength(a, b, sqrt) < (k + 1.0) * LenPerLeaf
  {
    var len := CalcLength(a, b, sqrt);
    var f := (len / LenPerLeaf).Floor;
    assert f as real * LenPerLeaf <= len < (f as real + 1.0) * LenPerLeaf;
    if IsSqrt(sqrt) {
      CalcLengthSquares(a, b, sqrt);
    }
  }

  /**
   * A branch 90 units long at depth 3 carries three leaves, and one 89 units
   * long only two; at depth 1 a branch carries none.
   */
  lemma LeafCountExample(sqrt: real -> real)
    requires IsSqrt(sqrt)
    ensures LeafCount(Point(0.0, 0.0), Point(0.0, 90.0), 3, CanvasConfig, sqrt) == 3
    ensures LeafCount(Point(0.0, 0.0), Point(0.0, 89.0), 3, CanvasConfig, sqrt) == 2
    ensures LeafCount(Point(0.0, 0.0), Point(0.0, 90.0), 1, CanvasConfig, sqrt) == 0
  {
    SqrtOfSquare(sqrt, 90.0);
    assert SqDist(Point(0.0, 0.0), Point(0.0, 90.0)) == 90.0 * 90.0;
    SqrtOfSquare(sqrt, 89.0);
    assert SqDist(Point(0.0, 0.0), Point(0.0, 89.0)) == 89.0 * 89.0;
  }

  /**
   * Every node createTree builds from `depth` sits above DEPTH_MAX and carries
   * exactly the leaf count of its own base line and depth.
   */
  lemma {:induction false} BuildLeafCounts(a: Point, b: Point, p: Params, depth: int, cfg: Config,
                                           rng: nat -> real, sqrt: real -> real, cursor: nat)
    ensures forall v :: v in Nodes(Build(a, b, p, depth, cfg, rng, sqrt, cursor).tree, depth) ==>
              && depth <= v.depth < cfg.depthMax
              && |v.leafs| == LeafCount(v.line.a, v.line.b, v.depth, cfg, sqrt)
    decreases cfg.depthMax - depth
  {
    if depth < cfg.depthMax {
      var n := LeafCount(a, b, depth, cfg, sqrt);
      var c := cursor + DrawsPerLeaf * n;
      var l := Build(b, LeftEnd(a, b, p), p, depth + 1, cfg, rng, sqrt, c);
      BuildLeafCounts(b, LeftEnd(a, b, p), p, depth + 1, cfg, rng, sqrt, c);
      BuildLeafCounts(b, RightEnd(a, b, p), p, depth + 1, cfg, rng, sqrt, l.next);
    }
  }

  /** Leaves grow only on depths of the leaf range. */
  lemma LeavesOnlyInRange(a: Point, b: Point, p: Params, depth: int, cfg: Config,
                          rng: nat -> real, sqrt: real -> real, cursor: nat)
    ensures forall v :: v in Nodes(Build(a, b, p, depth, cfg, rng, sqrt, cursor).tree, depth) && |v.leafs| > 0 ==>
              cfg.leafMin <= v.depth <= cfg.leafMax
  {
    BuildLeafCounts(a, b, p, depth, cfg, rng, sqrt, cursor);
    forall v | v in Nodes(Build(a, b, p, depth, cfg, rng, sqrt, cursor).tree, depth) && |v.leafs| > 0
      ensures cfg.leafMin <= v.depth <= cfg.leafMax
    {
      LeafCountBounds(v.line.a, v.line.b, v.depth, cfg, sqrt);
    }
  }

  /**
   * With the program's leaf range, which starts at depth 2, the trunk
   * (depth 0) and its two children (depth 1) are bare.
   */
  lemma CanvasTopIsBare(a: Point, b: Point, p: Params, cfg: Config, rng: nat -> real, sqrt: real -> real, cursor: nat)
    requires cfg.leafMin == CanvasConfig.leafMin
    ensures forall v :: v in Nodes(Build(a, b, p, 0, cfg, rng, sqrt, cursor).tree, 0) && v.depth <= 1 ==>
              v.leafs == []
  {
    LeavesOnlyInRange(a, b, p, 0, cfg, rng, sqrt, cursor);
  }

  /** With draws from Math.random, every leaf of the tree has its parameters in range. */
  lemma {:induction false} BuildLeavesInRange(a: Point, b: Point, p: Params, depth: int, cfg: Config,
                                              rng: nat -> real, sqrt: real -> real, cursor: nat)
    requires RandomUnit(rng)
    ensures forall v, leaf :: v in Nodes(Build(a, b, p, depth, cfg, rng, sqrt, cursor).tree, depth) && leaf in v.leafs ==>
              LeafInRange(leaf)
    decreases cfg.depthMax - depth
  {
    if depth < cfg.depthMax {
      var n := LeafCount(a, b, depth, cfg, sqrt);
      NewLeavesInRange(rng, cursor, n);
      var c := cursor + DrawsPerLeaf * n;
      var l := Build(b, LeftEnd(a, b, p), p, depth + 1, cfg, rng, sqrt, c);
      BuildLeavesInRange(b, LeftEnd(a, b, p), p, depth + 1, cfg, rng, sqrt, c);
      BuildLeavesInRange(b, RightEnd(a, b, p), p, depth + 1, cfg, rng, sqrt, l.next);
    }
  }

  /**
   * The root's base line is (a, b), and every child starts at its parent's
   * end point and ends where the branching formulas put it, with the same
   * angle and ratio all the way down.
   */
  lemma {:induction false} BuildWellShaped(a: Point, b: Point, p: Params, depth: int, cfg: Config,
                                           rng: nat -> real, sqrt: real -> real, cursor: nat)
    ensures var t := Build(a, b, p, depth, cfg, rng, sqrt, cursor).tree;
            && (t.Node? ==> t.line == Segment(a, b))
            && WellShaped(t, p)
    decreases cfg.depthMax - depth
  {
    if depth < cfg.depthMax {
      var c := cursor + DrawsPerLeaf * LeafCount(a, b, depth, cfg, sqrt);
      var l := Build(b, LeftEnd(a, b, p), p, depth + 1, cfg, rng, sqrt, c);
      BuildWellShaped(b, LeftEnd(a, b, p), p, depth + 1, cfg, rng, sqrt, c);
      BuildWellShaped(b, RightEnd(a, b, p), p, depth + 1, cfg, rng, sqrt, l.next);
    }
  }

  /** Every branch createTree gives leaves is long enough for drawLeaf to divide by its length. */
  lemma {:induction false} BuildNondegenerate(a: Point, b: Point, p: Params, depth: int, cfg: Config,
                                              rng: nat -> real, sqrt: real -> real, cursor: nat)
    ensures Nondegenerate(Build(a, b, p, depth, cfg, rng, sqrt, cursor).tree, sqrt)
    decreases cfg.depthMax - depth
  {
    if depth < cfg.depthMax {
      var n := LeafCount(a, b, depth, cfg, sqrt);
      LeafCountBounds(a, b, depth, cfg, sqrt);
      var c := cursor + DrawsPerLeaf * n;
      var l := Build(b, LeftEnd(a, b, p), p, depth + 1, cfg, rng, sqrt, c);
      BuildNondegenerate(b, LeftEnd(a, b, p), p, depth + 1, cfg, rng, sqrt, c);
      BuildNondegenerate(b, RightEnd(a, b, p), p, depth + 1, cfg, rng, sqrt, l.next);
    }
  }
}
