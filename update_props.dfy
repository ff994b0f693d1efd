/**
 * What updateTree guarantees: it moves branches and nothing else. Every
 * node keeps its leaves and its children, and every base line becomes the
 * one createTree would have given it for the new trunk, angle and ratio.
 */
module UpdateProps {
  import opened Geometry
  import opened Leaves
  import opened TreeSpec
  import opened BuildProps

  /** updateTree keeps every node, every child link and every leaf. */
  lemma {:induction false} UpdateKeepsShape(t: Tree, a: Point, b: Point, p: Params, depth: int, depthMax: int)
    ensures ShapeOf(Updated(t, a, b, p, depth, depthMax)) == ShapeOf(t)
  {
    if depth < depthMax && t.Node? {
      UpdateKeepsShape(t.left, b, LeftEnd(a, b, p), p, depth + 1, depthMax);
      UpdateKeepsShape(t.right, b, RightEnd(a, b, p), p, depth + 1, depthMax);
    }
  }

  /** Two trees of the same shape have as many nodes, as many leaves, and the same height. */
  lemma {:induction false} SameShape(s: Tree, t: Tree, h: nat)
    requires ShapeOf(s) == ShapeOf(t)
    ensures Size(s) == Size(t) && LeafTotal(s) == LeafTotal(t)
    ensures Complete(s, h) <==> Complete(t, h)
  {
    if s.Node? {
      SameShape(s.left, t.left, if h > 0 then h - 1 else 0);
      SameShape(s.right, t.right, if h > 0 then h - 1 else 0);
    }
  }

  /** Running updateTree twice with the same arguments is running it once. */
  lemma {:induction false} UpdateIdempotent(t: Tree, a: Point, b: Point, p: Params, depth: int, depthMax: int)
    ensures Updated(Updated(t, a, b, p, depth, depthMax), a, b, p, depth, depthMax)
         == Updated(t, a, b, p, depth, depthMax)
  {
    if depth < depthMax && t.Node? {
      UpdateIdempotent(t.left, b, LeftEnd(a, b, p), p, depth + 1, depthMax);
      UpdateIdempotent(t.right, b, RightEnd(a, b, p), p, depth + 1, depthMax);
    }
  }

  /**
   * Running updateTree on an already updated tree forgets the earlier slider
   * values: only the last call's arguments matter.
   */
  lemma {:induction false} UpdateLastWins(t: Tree, a1: Point, b1: Point, p1: Params,
                                          a2: Point, b2: Point, p2: Params, depth: int, depthMax: int)
    ensures Updated(Updated(t, a1, b1, p1, depth, depthMax), a2, b2, p2, depth, depthMax)
         == Updated(t, a2, b2, p2, depth, depthMax)
  {
    if depth < depthMax && t.Node? {
      UpdateLastWins(t.left, b1, LeftEnd(a1, b1, p1), p1, b2, LeftEnd(a2, b2, p2), p2, depth + 1, depthMax);
      UpdateLastWins(t.right, b1, RightEnd(a1, b1, p1), p1, b2, RightEnd(a2, b2, p2), p2, depth + 1, depthMax);
    }
  }

  /** The slider values one animation frame passes to updateTree. */
  datatype Sliders = Sliders(a: Point, b: Point, p: Params)

  /** The tree after one updateTree(tree, a, b, 0) per frame, in order. */
  function UpdatedByFrames(t: Tree, frames: seq<Sliders>, depthMax: int): Tree
  {
    if |frames| == 0 then t
    else
      var f := frames[|frames| - 1];
      Updated(UpdatedByFrames(t, frames[..|frames| - 1], depthMax), f.a, f.b, f.p, 0, depthMax)
  }

  /** After any non-empty run of frames the tree is the start tree updated once, with the last frame's values. */
  lemma {:induction false} FramesLastWins(t: Tree, frames: seq<Sliders>, depthMax: int)
    requires |frames| > 0
    ensures var f := frames[|frames| - 1];
            UpdatedByFrames(t, frames, depthMax) == Updated(t, f.a, f.b, f.p, 0, depthMax)
  {
    var n := |frames| - 1;
    if n > 0 {
      var e := frames[n - 1];
      assert frames[..n][..n - 1] == frames[..n - 1];
      FramesLastWins(t, frames[..n], depthMax);
      UpdateLastWins(t, e.a, e.b, e.p, frames[n].a, frames[n].b, frames[n].p, 0, depthMax);
    }
  }

  /**
   * On a tree whose every node lies above the depth bound, updateTree leaves
   * the root on (a, b) and every child hanging from its parent's end point by
   * the branching formulas.
   */
  lemma {:induction false} UpdateWellShaped(t: Tree, h: nat, a: Point, b: Point, p: Params, depth: int, depthMax: int)
    requires Complete(t, h) && (h == 0 || depth + h <= depthMax)
    ensures var u := Updated(t, a, b, p, depth, depthMax);
            && (u.Node? ==> u.line == Segment(a, b))
            && WellShaped(u, p)
  {
    if h > 0 {
      UpdateWellShaped(t.left, h - 1, b, LeftEnd(a, b, p), p, depth + 1, depthMax);
      UpdateWellShaped(t.right, h - 1, b, RightEnd(a, b, p), p, depth + 1, depthMax);
    }
  }

  /**
   * updateTree with a trunk of positive length, a non-zero ratio and an
   * angle whose cosine and sine are not both zero leaves every branch of
   * positive length, so drawLeaf never divides by zero on the result.
   */
  lemma {:induction false} UpdateNondegenerate(t: Tree, h: nat, a: Point, b: Point, p: Params, depth: int, depthMax: int,
                                               sqrt: real -> real)
    requires IsSqrt(sqrt)
    requires a != b
    requires p.ratio != 0.0
    requires p.cos != 0.0 || p.sin != 0.0
    requires Complete(t, h) && (h == 0 || depth + h <= depthMax)
    ensures Nondegenerate(Updated(t, a, b, p, depth, depthMax), sqrt)
  {
    if h > 0 {
      DistinctPointsPositiveLength(a, b, sqrt);
      ChildEndsDistinct(a, b, p);
      UpdateNondegenerate(t.left, h - 1, b, LeftEnd(a, b, p), p, depth + 1, depthMax, sqrt);
      UpdateNondegenerate(t.right, h - 1, b, RightEnd(a, b, p), p, depth + 1, depthMax, sqrt);
    }
  }

  /**
   * On a tree of the height createTree builds, updateTree puts exactly the
   * base lines createTree would have put for the same trunk, angle and ratio,
   * node for node in pre-order.
   */
  lemma {:induction false} UpdateMatchesBuild(t: Tree, a: Point, b: Point, p: Params, depth: int, cfg: Config,
                                              rng: nat -> real, sqrt: real -> real, cursor: nat)
    requires Complete(t, Height(depth, cfg))
    ensures Lines(Updated(t, a, b, p, depth, cfg.depthMax)) == Lines(Build(a, b, p, depth, cfg, rng, sqrt, cursor).tree)
    decreases cfg.depthMax - depth
  {
    if depth < cfg.depthMax {
      var n := LeafCount(a, b, depth, cfg, sqrt);
      var c := cursor + DrawsPerLeaf * n;
      var l := Build(b, LeftEnd(a, b, p), p, depth + 1, cfg, rng, sqrt, c);
      var r := Build(b, RightEnd(a, b, p), p, depth + 1, cfg, rng, sqrt, l.next);
      assert Build(a, b, p, depth, cfg, rng, sqrt, cursor).tree == Node(Segment(a, b), NewLeaves(rng, cursor, n), l.tree, r.tree);
      assert Height(depth + 1, cfg) == Height(depth, cfg) - 1;
      UpdateMatchesBuild(t.left, b, LeftEnd(a, b, p), p, depth + 1, cfg, rng, sqrt, c);
      UpdateMatchesBuild(t.right, b, RightEnd(a, b, p), p, depth + 1, cfg, rng, sqrt, l.next);
    }
  }

  /**
   * The program's frame step: the tree built once from the first slider
   * values, updated with new ones, keeps its nodes and leaves and has the
   * base lines a fresh createTree with the new values would have.
   */
  lemma UpdateOfBuilt(a0: Point, b0: Point, p0: Params, a: Point, b: Point, p: Params, cfg: Config,
                      rng: nat -> real, sqrt: real -> real)
    ensures var t := Build(a0, b0, p0, 0, cfg, rng, sqrt, 0).tree;
            var u := Updated(t, a, b, p, 0, cfg.depthMax);
            && ShapeOf(u) == ShapeOf(t)
            && Lines(u) == Lines(Build(a, b, p, 0, cfg, rng, sqrt, 0).tree)
            && WellShaped(u, p)
  {
    var t := Build(a0, b0, p0, 0, cfg, rng, sqrt, 0).tree;
    BuildComplete(a0, b0, p0, 0, cfg, rng, sqrt, 0);
    UpdateKeepsShape(t, a, b, p, 0, cfg.depthMax);
    UpdateMatchesBuild(t, a, b, p, 0, cfg, rng, sqrt, 0);
    UpdateWellShaped(t, Height(0, cfg), a, b, p, 0, cfg.depthMax);
  }

  /** Updating a freshly built tree with the values it was built from changes nothing. */
  lemma {:induction false} UpdateAfterBuild(a: Point, b: Point, p: Params, depth: int, cfg: Config,
                                            rng: nat -> real, sqrt: real -> real, cursor: nat)
    ensures var t := Build(a, b, p, depth, cfg, rng, sqrt, cursor).tree;
            Updated(t, a, b, p, depth, cfg.depthMax) == t
    decreases cfg.depthMax - depth
  {
    if depth < cfg.depthMax {
      var c := cursor + DrawsPerLeaf * LeafCount(a, b, depth, cfg, sqrt);
      var l := Build(b, LeftEnd(a, b, p), p, depth + 1, cfg, rng, sqrt, c);
      UpdateAfterBuild(b, LeftEnd(a, b, p), p, depth + 1, cfg, rng, sqrt, c);
      UpdateAfterBuild(b, RightEnd(a, b, p), p, depth + 1, cfg, rng, sqrt, l.next);
    }
  }
}
