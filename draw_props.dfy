/**
 * What drawTree guarantees: it draws the top `depthWanted - currDepth`
 * levels of the tree in pre-order (a node's line, then its leaves, then
 * its left and its right subtree), so a complete tree of height h drawn to
 * depth k gives 2^min(k, h) - 1 lines and one polygon per leaf on those
 * levels.
 */
module DrawProps {
  import opened Geometry
  import opened Leaves
  import opened TreeSpec
  import opened BuildProps
  import opened UpdateProps

  /** How many levels drawTree draws of a complete tree of height `h` when asked for `k`. */
  function Levels(k: int, h: nat): nat
  {
    if k <= 0 then 0 else if k < h then k else h
  }

  /** drawTree(t, cur, want) can draw what it reaches exactly when the top want - cur levels are nondegenerate. */
  lemma {:induction false} DrawableIffPruned(t: Tree, cur: int, want: int, sqrt: real -> real)
    ensures Drawable(t, cur, want, sqrt) <==> Nondegenerate(Prune(t, want - cur), sqrt)
  {
    if cur < want && t.Node? {
      DrawableIffPruned(t.left, cur + 1, want, sqrt);
      DrawableIffPruned(t.right, cur + 1, want, sqrt);
    }
  }

  /** Cutting levels off a nondegenerate tree keeps it nondegenerate. */
  lemma {:induction false} NondegeneratePrune(t: Tree, k: int, sqrt: real -> real)
    requires Nondegenerate(t, sqrt)
    ensures Nondegenerate(Prune(t, k), sqrt)
  {
    if k > 0 && t.Node? {
      NondegeneratePrune(t.left, k - 1, sqrt);
      NondegeneratePrune(t.right, k - 1, sqrt);
    }
  }

  /**
   * drawTree(t, cur, want) is the pre-order rendering of the top want - cur
   * levels of t; in particular it draws nothing when cur >= want.
   */
  lemma {:induction false} DrawnIsPrunedRender(t: Tree, cur: int, want: int, sqrt: real -> real)
    requires Drawable(t, cur, want, sqrt)
    ensures Nondegenerate(Prune(t, want - cur), sqrt)
    ensures Drawn(t, cur, want, sqrt) == Render(Prune(t, want - cur), sqrt)
  {
    DrawableIffPruned(t, cur, want, sqrt);
    if cur < want && t.Node? {
      DrawnIsPrunedRender(t.left, cur + 1, want, sqrt);
      DrawnIsPrunedRender(t.right, cur + 1, want, sqrt);
    }
  }

  lemma {:induction false} CountsAppend(xs: seq<DrawEvent>, ys: seq<DrawEvent>)
    ensures CountLines(xs + ys) == CountLines(xs) + CountLines(ys)
    ensures CountPolys(xs + ys) == CountPolys(xs) + CountPolys(ys)
  {
    if xs == [] {
      assert xs + ys == ys;
    } else {
      assert (xs + ys)[1..] == xs[1..] + ys;
      CountsAppend(xs[1..], ys);
    }
  }

  /** The leaf loop of drawTree draws polygons only, one per leaf. */
  lemma {:induction false} LeafPolygonsCounts(a: Point, b: Point, leafs: seq<Leaf>, sqrt: real -> real)
    requires leafs == [] || CalcLength(a, b, sqrt) > 0.0
    ensures CountLines(LeafPolygons(a, b, leafs, sqrt)) == 0
    ensures CountPolys(LeafPolygons(a, b, leafs, sqrt)) == |leafs|
  {
    if leafs != [] {
      var init := leafs[..|leafs| - 1];
      var e := DrawLeaf(a, b, leafs[|leafs| - 1], sqrt);
      DrawLeafIsKite(a, b, leafs[|leafs| - 1], sqrt);
      LeafPolygonsCounts(a, b, init, sqrt);
      CountsAppend(LeafPolygons(a, b, init, sqrt), [e]);
      assert [e][1..] == [];
    }
  }

  /** The reference rendering draws one line per node and one polygon per leaf. */
  lemma {:induction false} RenderCounts(t: Tree, sqrt: real -> real)
    requires Nondegenerate(t, sqrt)
    ensures CountLines(Render(t, sqrt)) == Size(t)
    ensures CountPolys(Render(t, sqrt)) == LeafTotal(t)
  {
    if t.Node? {
      var line := [Line(t.line.a, t.line.b)];
      var polys := LeafPolygons(t.line.a, t.line.b, t.leafs, sqrt);
      var l := Render(t.left, sqrt);
      RenderCounts(t.left, sqrt);
      RenderCounts(t.right, sqrt);
      LeafPolygonsCounts(t.line.a, t.line.b, t.leafs, sqrt);
      assert line[1..] == [];
      CountsAppend(line, polys);
      CountsAppend(line + polys, l);
      CountsAppend(line + polys + l, Render(t.right, sqrt));
    }
  }

  /** The top k levels of a complete tree of height h form a complete tree of height min(k, h). */
  lemma {:induction false} PruneComplete(t: Tree, h: nat, k: int)
    requires Complete(t, h)
    ensures Complete(Prune(t, k), Levels(k, h))
  {
    if k > 0 && h > 0 {
      PruneComplete(t.left, h - 1, k - 1);
      PruneComplete(t.right, h - 1, k - 1);
    }
  }

  /**
   * drawTree on a complete tree of height h, from currDepth to depthWanted:
   * 2^min(depthWanted - currDepth, h) - 1 lines, and one polygon per leaf
   * of the levels it reaches.
   */
  lemma DrawnCompleteCounts(t: Tree, h: nat, cur: int, want: int, sqrt: real -> real)
    requires Complete(t, h)
    requires Drawable(t, cur, want, sqrt)
    ensures CountLines(Drawn(t, cur, want, sqrt)) == Pow2(Levels(want - cur, h)) - 1
    ensures CountPolys(Drawn(t, cur, want, sqrt)) == LeafTotal(Prune(t, want - cur))
  {
    DrawnIsPrunedRender(t, cur, want, sqrt);
    RenderCounts(Prune(t, want - cur), sqrt);
    PruneComplete(t, h, want - cur);
    CompleteSize(Prune(t, want - cur), Levels(want - cur, h));
  }

  /** Every tree createTree builds can be drawn to any depth. */
  lemma BuiltDrawable(a: Point, b: Point, p: Params, depth: int, cfg: Config,
                      rng: nat -> real, sqrt: real -> real, cursor: nat, cur: int, want: int)
    ensures Drawable(Build(a, b, p, depth, cfg, rng, sqrt, cursor).tree, cur, want, sqrt)
  {
    var t := Build(a, b, p, depth, cfg, rng, sqrt, cursor).tree;
    BuildNondegenerate(a, b, p, depth, cfg, rng, sqrt, cursor);
    NondegeneratePrune(t, want - cur, sqrt);
    DrawableIffPruned(t, cur, want, sqrt);
  }

  /** drawTree(tree, 0, depthWanted) on the tree built from depth 0 draws 2^min(depthWanted, DEPTH_MAX) - 1 lines. */
  lemma DrawnBuiltCounts(a: Point, b: Point, p: Params, cfg: Config, rng: nat -> real, sqrt: real -> real, want: int)
    ensures var t := Build(a, b, p, 0, cfg, rng, sqrt, 0).tree;
            && Drawable(t, 0, want, sqrt)
            && CountLines(Drawn(t, 0, want, sqrt)) == Pow2(Levels(want, Height(0, cfg))) - 1
            && CountPolys(Drawn(t, 0, want, sqrt)) == LeafTotal(Prune(t, want))
  {
    var t := Build(a, b, p, 0, cfg, rng, sqrt, 0).tree;
    BuiltDrawable(a, b, p, 0, cfg, rng, sqrt, 0, 0, want);
    BuildComplete(a, b, p, 0, cfg, rng, sqrt, 0);
    DrawnCompleteCounts(t, Height(0, cfg), 0, want, sqrt);
  }

  /**
   * The frame the program draws: the tree built from the first slider
   * values, moved by updateTree to the current ones, drawn to depthWanted,
   * shows 2^min(depthWanted, DEPTH_MAX) - 1 lines, as a fresh tree would.
   */
  lemma DrawnUpdatedCounts(a0: Point, b0: Point, p0: Params, a: Point, b: Point, p: Params, cfg: Config,
                           rng: nat -> real, sqrt: real -> real, want: int)
    requires Drawable(Updated(Build(a0, b0, p0, 0, cfg, rng, sqrt, 0).tree, a, b, p, 0, cfg.depthMax), 0, want, sqrt)
    ensures var u := Updated(Build(a0, b0, p0, 0, cfg, rng, sqrt, 0).tree, a, b, p, 0, cfg.depthMax);
            CountLines(Drawn(u, 0, want, sqrt)) == Pow2(Levels(want, Height(0, cfg))) - 1
  {
    var t := Build(a0, b0, p0, 0, cfg, rng, sqrt, 0).tree;
    var u := Updated(t, a, b, p, 0, cfg.depthMax);
    BuildComplete(a0, b0, p0, 0, cfg, rng, sqrt, 0);
    UpdateKeepsShape(t, a, b, p, 0, cfg.depthMax);
    SameShape(u, t, Height(0, cfg));
    DrawnCompleteCounts(u, Height(0, cfg), 0, want, sqrt);
  }

  /**
   * The frame the program draws, with no assumption on the drawing: when
   * the current trunk has positive length, the ratio is non-zero and the
   * angle's cosine and sine are not both zero, the tree built from the
   * first slider values and moved by updateTree can be drawn to any depth,
   * and drawTree(tree, 0, depthWanted) shows 2^min(depthWanted, DEPTH_MAX) - 1
   * lines and one polygon per leaf on the levels it reaches.
   */
  lemma DrawnFrameCounts(a0: Point, b0: Point, p0: Params, a: Point, b: Point, p: Params, cfg: Config,
                         rng: nat -> real, sqrt: real -> real, want: int)
    requires IsSqrt(sqrt)
    requires a != b
    requires p.ratio != 0.0
    requires p.cos != 0.0 || p.sin != 0.0
    ensures var u := Updated(Build(a0, b0, p0, 0, cfg, rng, sqrt, 0).tree, a, b, p, 0, cfg.depthMax);
            && Drawable(u, 0, want, sqrt)
            && CountLines(Drawn(u, 0, want, sqrt)) == Pow2(Levels(want, Height(0, cfg))) - 1
            && CountPolys(Drawn(u, 0, want, sqrt)) == LeafTotal(Prune(u, want))
  {
    var t := Build(a0, b0, p0, 0, cfg, rng, sqrt, 0).tree;
    var u := Updated(t, a, b, p, 0, cfg.depthMax);
    BuildComplete(a0, b0, p0, 0, cfg, rng, sqrt, 0);
    UpdateKeepsShape(t, a, b, p, 0, cfg.depthMax);
    SameShape(u, t, Height(0, cfg));
    UpdateNondegenerate(t, Height(0, cfg), a, b, p, 0, cfg.depthMax, sqrt);
    NondegeneratePrune(u, want, sqrt);
    DrawableIffPruned(u, 0, want, sqrt);
    DrawnCompleteCounts(u, Height(0, cfg), 0, want, sqrt);
  }

  /**
   * Every animation frame, however many came before it: after the frames'
   * updateTree calls, the tree is drawable and drawTree(tree, 0, depthWanted)
   * shows 2^min(depthWanted, DEPTH_MAX) - 1 lines, provided the current
   * trunk has positive length, the ratio is non-zero and the angle's cosine
   * and sine are not both zero.
   */
  lemma DrawnAfterFrames(a0: Point, b0: Point, p0: Params, frames: seq<Sliders>, cfg: Config,
                         rng: nat -> real, sqrt: real -> real, want: int)
    requires IsSqrt(sqrt)
    requires |frames| > 0
    requires var f := frames[|frames| - 1]; f.a != f.b && f.p.ratio != 0.0 && (f.p.cos != 0.0 || f.p.sin != 0.0)
    ensures var u := UpdatedByFrames(Build(a0, b0, p0, 0, cfg, rng, sqrt, 0).tree, frames, cfg.depthMax);
            && Drawable(u, 0, want, sqrt)
            && CountLines(Drawn(u, 0, want, sqrt)) == Pow2(Levels(want, Height(0, cfg))) - 1
            && CountPolys(Drawn(u, 0, want, sqrt)) == LeafTotal(Prune(u, want))
  {
    var f := frames[|frames| - 1];
    FramesLastWins(Build(a0, b0, p0, 0, cfg, rng, sqrt, 0).tree, frames, cfg.depthMax);
    DrawnFrameCounts(a0, b0, p0, f.a, f.b, f.p, cfg, rng, sqrt, want);
  }

  /**
   * With depthWanted = 1 and the program's leaf range, drawTree draws the
   * trunk alone: one line and no polygon.
   */
  lemma DrawnTrunkOnly(a: Point, b: Point, p: Params, cfg: Config, rng: nat -> real, sqrt: real -> real, cursor: nat)
    requires cfg.leafMin == CanvasConfig.leafMin
    ensures var t := Build(a, b, p, 0, cfg, rng, sqrt, cursor).tree;
            && Drawable(t, 0, 1, sqrt)
            && Drawn(t, 0, 1, sqrt) == if cfg.depthMax > 0 then [Line(a, b)] else []
  {
    LeafCountBounds(a, b, 0, cfg, sqrt);
  }
}
