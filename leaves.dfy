/**
 * The decorative leaves of the fractal tree: the leaf record that createTree
 * draws at random and stores on a branch, and drawLeaf, which turns a leaf
 * and the branch's current base line into a four-point kite polygon.
 */
module Leaves {
  import opened Geometry

  const LeafLen: real := 30.0
  const LeafArmLen: real := 8.0
  const LeafArmRatio: real := 0.4
  /** The two bounds getRandomColor is given for leaves: green to orange. */
  const LeafColorLow: Color := Rgba(0, 150, 0)
  const LeafColorHigh: Color := Rgba(255, 200, 0)
  /** Random draws one leaf consumes: ratio, side, red, green, blue. */
  const DrawsPerLeaf: nat := 5

  /**
   * A leaf: where along the branch it sits, on which side it points
   * (JavaScript truthiness: any non-zero side is side 1), and its colour.
   */
  datatype Leaf = Leaf(branchRatio: real, branchSide: int, color: Color)

  /** The ranges createTree's random draws give a leaf's parameters. */
  predicate LeafInRange(leaf: Leaf)
  {
    && 0.0 <= leaf.branchRatio < 1.0
    && (leaf.branchSide == 0 || leaf.branchSide == 1)
    && LeafColorLow.r <= leaf.color.r < LeafColorHigh.r
    && LeafColorLow.g <= leaf.color.g < LeafColorHigh.g
    && leaf.color.b == 0
  }

  /** The leaf object literal of createTree, built from the five draws starting at `rng(k)`. */
  function RandomLeaf(rng: nat -> real, k: nat): Leaf
  {
    Leaf(RandomNumber(rng(k), 0.0, 1.0),
         Round(RandomNumber(rng(k + 1), 0.0, 1.0)),
         RandomColor(rng, k + 2, LeafColorLow, LeafColorHigh))
  }

  /** Draws from Math.random give a leaf whose parameters lie in the ranges createTree intends. */
  lemma RandomLeafInRange(rng: nat -> real, k: nat)
    requires RandomUnit(rng)
    ensures LeafInRange(RandomLeaf(rng, k))
  {
    RandomNumberRange(rng(k), 0.0, 1.0);
    RandomNumberRange(rng(k + 1), 0.0, 1.0);
    RoundNearest(RandomNumber(rng(k + 1), 0.0, 1.0));
    RandomColorRange(rng, k + 2, LeafColorLow, LeafColorHigh);
  }

  /**
   * The `n` leaves createTree pushes, in order: leaf i is made from the five
   * draws starting at rng(cursor + 5 i).
   */
  function NewLeaves(rng: nat -> real, cursor: nat, n: nat): seq<Leaf>
  {
    seq(n, i requires 0 <= i < n => RandomLeaf(rng, cursor + DrawsPerLeaf * i))
  }

  /** Every leaf of a batch drawn from Math.random has its parameters in range. */
  lemma NewLeavesInRange(rng: nat -> real, cursor: nat, n: nat)
    requires RandomUnit(rng)
    ensures forall leaf :: leaf in NewLeaves(rng, cursor, n) ==> LeafInRange(leaf)
  {
    forall i | 0 <= i < n
      ensures LeafInRange(NewLeaves(rng, cursor, n)[i])
    {
      RandomLeafInRange(rng, cursor + DrawsPerLeaf * i);
    }
  }

  // ---------------------------------------------------------------- drawLeaf

  /** The points drawLeaf computes: base, tip, the pivot of the arms, and the two arm ends. */
  datatype Kite = Kite(begin: Point, tip: Point, pivot: Point, arm1: Point, arm2: Point)

  /** drawLeaf's point arithmetic for branch (a, b) of length `branchLen`. */
  function LeafKite(a: Point, b: Point, leaf: Leaf, branchLen: real): Kite
    requires branchLen != 0.0
  {
    var leafBegin := Point(a.x + (b.x - a.x) * leaf.branchRatio,
                           a.y + (b.y - a.y) * leaf.branchRatio);
    var leafEnd :=
      if leaf.branchSide != 0 then
        Point(leafBegin.x + (b.y - a.y) * LeafLen / branchLen,
              leafBegin.y + (a.x - b.x) * LeafLen / branchLen)
      else
        Point(leafBegin.x + (a.y - b.y) * LeafLen / branchLen,
              leafBegin.y + (b.x - a.x) * LeafLen / branchLen);
    var armPerpPoint := Point(leafBegin.x + (leafEnd.x - leafBegin.x) * LeafArmRatio,
                              leafBegin.y + (leafEnd.y - leafBegin.y) * LeafArmRatio);
    var arm1 := Point(armPerpPoint.x + (leafEnd.y - leafBegin.y) * LeafArmLen / LeafLen,
                      armPerpPoint.y + (leafBegin.x - leafEnd.x) * LeafArmLen / LeafLen);
    var arm2 := Point(armPerpPoint.x + (leafBegin.y - leafEnd.y) * LeafArmLen / LeafLen,
                      armPerpPoint.y + (leafEnd.x - leafBegin.x) * LeafArmLen / LeafLen);
    Kite(leafBegin, leafEnd, armPerpPoint, arm1, arm2)
  }

  /** drawLeaf: the filled polygon [leafBegin, arm1, leafEnd, arm2] in the leaf's colour. */
  function DrawLeaf(a: Point, b: Point, leaf: Leaf, sqrt: real -> real): DrawEvent
    requires CalcLength(a, b, sqrt) > 0.0
  {
    var k := LeafKite(a, b, leaf, CalcLength(a, b, sqrt));
    Poly([k.begin, k.arm1, k.tip, k.arm2], leaf.color)
  }

  lemma DivAssoc(x: real, c: real, len: real)
    requires len != 0.0
    ensures x * c / len == x * (c / len)
  {
    var q := c / len;
    assert q * len == c;
    assert (x * q) * len == x * c;
  }

  /** The leaf axis is the branch direction turned a quarter turn and scaled by LeafLen / branchLen. */
  lemma LeafAxis(a: Point, b: Point, leaf: Leaf, branchLen: real)
    requires branchLen != 0.0
    ensures var k := LeafKite(a, b, leaf, branchLen);
            var s := if leaf.branchSide != 0 then LeafLen / branchLen else -(LeafLen / branchLen);
            Minus(k.tip, k.begin) == Scale(s, Perp(Minus(b, a)))
  {
    var k := LeafKite(a, b, leaf, branchLen);
    var q := LeafLen / branchLen;
    DivAssoc(b.y - a.y, LeafLen, branchLen);
    DivAssoc(a.x - b.x, LeafLen, branchLen);
    DivAssoc(a.y - b.y, LeafLen, branchLen);
    DivAssoc(b.x - a.x, LeafLen, branchLen);
  }

  /**
   * The leaf hangs on the branch: its base is a + ratio (b - a), which lies
   * on the segment when the ratio is in [0, 1); its axis is perpendicular to
   * the branch, and the cross product of b - a with the axis is negative for
   * a truthy side and positive for side 0. On the canvas, whose y axis points
   * down, that puts a side-1 leaf on the left of a -> b as seen on screen.
   */
  lemma LeafOnBranch(a: Point, b: Point, leaf: Leaf, branchLen: real)
    requires branchLen > 0.0
    ensures var k := LeafKite(a, b, leaf, branchLen);
            && Minus(k.begin, a) == Scale(leaf.branchRatio, Minus(b, a))
            && Dot(Minus(k.tip, k.begin), Minus(b, a)) == 0.0
            && Cross(Minus(b, a), Minus(k.tip, k.begin))
               == (if leaf.branchSide != 0 then -1.0 else 1.0) * (LeafLen / branchLen) * SqNorm(Minus(b, a))
  {
    var k := LeafKite(a, b, leaf, branchLen);
    var d := Minus(b, a);
    LeafAxis(a, b, leaf, branchLen);
    var s := if leaf.branchSide != 0 then LeafLen / branchLen else -(LeafLen / branchLen);
    assert Minus(k.tip, k.begin) == Point(s * d.y, s * -d.x);
    assert Cross(d, Point(s * d.y, s * -d.x)) == -s * SqNorm(d);
  }

  /** The two branchSide values give opposite leaf axes from the same base. */
  lemma LeafSidesOpposite(a: Point, b: Point, ratio: real, c0: Color, c1: Color, side: int, branchLen: real)
    requires branchLen != 0.0
    requires side != 0
    ensures var k0 := LeafKite(a, b, Leaf(ratio, 0, c0), branchLen);
            var k1 := LeafKite(a, b, Leaf(ratio, side, c1), branchLen);
            k0.begin == k1.begin && Minus(k1.tip, k1.begin) == Scale(-1.0, Minus(k0.tip, k0.begin))
  {
    LeafAxis(a, b, Leaf(ratio, 0, c0), branchLen);
    LeafAxis(a, b, Leaf(ratio, side, c1), branchLen);
  }

  lemma ScaledPerpNorm(s: real, v: Point)
    ensures SqNorm(Scale(s, Perp(v))) == (s * s) * SqNorm(v)
  {
  }

  lemma LengthRescaled(q: real, len: real, n: real)
    requires n == len * len
    requires q * len == LeafLen
    ensures (q * q) * n == LeafLen * LeafLen
  {
    calc {
      (q * q) * n;
    ==
      (q * q) * (len * len);
    ==
      (q * len) * (q * len);
    ==
      LeafLen * LeafLen;
    }
  }

  /** With the true branch length, the leaf axis is LeafLen long. */
  lemma LeafAxisLength(a: Point, b: Point, leaf: Leaf, sqrt: real -> real)
    requires IsSqrt(sqrt)
    requires CalcLength(a, b, sqrt) > 0.0
    ensures var k := LeafKite(a, b, leaf, CalcLength(a, b, sqrt));
            SqNorm(Minus(k.tip, k.begin)) == LeafLen * LeafLen
  {
    var len := CalcLength(a, b, sqrt);
    CalcLengthSquares(a, b, sqrt);
    var d := Minus(b, a);
    var q := LeafLen / len;
    LeafAxis(a, b, leaf, len);
    var s := if leaf.branchSide != 0 then q else -q;
    assert s * s == q * q;
    ScaledPerpNorm(s, d);
    SqNormIsSqDist(a, b);
    LengthRescaled(q, len, SqNorm(d));
  }

  /** Each arm of a leaf whose axis is LeafLen long is LeafArmLen long. */
  lemma LeafArmLength(a: Point, b: Point, leaf: Leaf, branchLen: real)
    requires branchLen != 0.0
    requires var k := LeafKite(a, b, leaf, branchLen);
             SqNorm(Minus(k.tip, k.begin)) == LeafLen * LeafLen
    ensures var k := LeafKite(a, b, leaf, branchLen);
            && SqNorm(Minus(k.arm1, k.pivot)) == LeafArmLen * LeafArmLen
            && SqNorm(Minus(k.arm2, k.pivot)) == LeafArmLen * LeafArmLen
  {
    var k := LeafKite(a, b, leaf, branchLen);
    var v := Minus(k.tip, k.begin);
    LeafArms(a, b, leaf, branchLen);
    ScaledPerpNorm(LeafArmLen / LeafLen, v);
    ScaledPerpNorm(-(LeafArmLen / LeafLen), v);
  }

  /**
   * With the true branch length, the leaf axis is LeafLen long and each arm
   * LeafArmLen long.
   */
  lemma LeafSizes(a: Point, b: Point, leaf: Leaf, sqrt: real -> real)
    requires IsSqrt(sqrt)
    requires CalcLength(a, b, sqrt) > 0.0
    ensures var k := LeafKite(a, b, leaf, CalcLength(a, b, sqrt));
            && SqNorm(Minus(k.tip, k.begin)) == LeafLen * LeafLen
            && SqNorm(Minus(k.arm1, k.pivot)) == LeafArmLen * LeafArmLen
            && SqNorm(Minus(k.arm2, k.pivot)) == LeafArmLen * LeafArmLen
  {
    LeafAxisLength(a, b, leaf, sqrt);
    LeafArmLength(a, b, leaf, CalcLength(a, b, sqrt));
  }

  /**
   * The arms: the pivot sits LeafArmRatio of the way from base to tip, the
   * arm ends are the axis turned a quarter turn either way, scaled by
   * LeafArmLen / LeafLen, so arm1 + arm2 == 2 pivot and both offsets are
   * perpendicular to the axis.
   */
  lemma LeafArms(a: Point, b: Point, leaf: Leaf, branchLen: real)
    requires branchLen != 0.0
    ensures var k := LeafKite(a, b, leaf, branchLen);
            var v := Minus(k.tip, k.begin);
            && Minus(k.pivot, k.begin) == Scale(LeafArmRatio, v)
            && Minus(k.arm1, k.pivot) == Scale(LeafArmLen / LeafLen, Perp(v))
            && Minus(k.arm2, k.pivot) == Scale(-(LeafArmLen / LeafLen), Perp(v))
            && Plus(k.arm1, k.arm2) == Scale(2.0, k.pivot)
            && Dot(Minus(k.arm1, k.pivot), v) == 0.0
            && Dot(Minus(k.arm2, k.pivot), v) == 0.0
  {
  }

  /**
   * The polygon drawLeaf fills is [leafBegin, arm1, leafEnd, arm2] in the
   * leaf's colour, and it is a kite: vertices 1 and 3 are mirror images
   * across the axis from vertex 0 to vertex 2.
   */
  lemma DrawLeafIsKite(a: Point, b: Point, leaf: Leaf, sqrt: real -> real)
    requires CalcLength(a, b, sqrt) > 0.0
    ensures var e := DrawLeaf(a, b, leaf, sqrt);
            var k := LeafKite(a, b, leaf, CalcLength(a, b, sqrt));
            && e.Poly? && e.fill == leaf.color
            && e.points == [k.begin, k.arm1, k.tip, k.arm2]
            && Plus(e.points[1], e.points[3]) == Scale(2.0, k.pivot)
            && Dot(Minus(e.points[1], e.points[3]), Minus(e.points[2], e.points[0])) == 0.0
  {
    var k := LeafKite(a, b, leaf, CalcLength(a, b, sqrt));
    LeafArms(a, b, leaf, CalcLength(a, b, sqrt));
    var v := Minus(k.tip, k.begin);
    assert Minus(k.arm1, k.arm2) == Scale(2.0 * (LeafArmLen / LeafLen), Perp(v));
  }
}
