/**
 * Plane geometry and the small utilities of the fractal tree: points,
 * branch segments, the branch length, the random-number helpers, the draw
 * events that stand for the rendering context, and the two formulas that
 * give a branch's children their end points.
 *
 * Trigonometry and the square root are not computed here: the cosine and
 * sine of the branching angle travel in `Params`, and the square root is an
 * oracle `sqrt: real -> real` that lemmas constrain with `IsSqrt`.
 */
module Geometry {

  datatype Point = Point(x: real, y: real)

  /** A branch's base line: it starts at `a` and ends at `b`. */
  datatype Segment = Segment(a: Point, b: Point)

  /** An RGB colour; the alpha channel is always fully opaque. */
  datatype Color = Rgba(r: int, g: int, b: int)

  /** What one call of drawLine / drawPolygon puts on the canvas. */
  datatype DrawEvent =
    | Line(from: Point, to: Point)
    | Poly(points: seq<Point>, fill: Color)

  /** The shape of the whole tree: cos and sin of the branching angle and the child/parent length ratio. */
  datatype Params = Params(cos: real, sin: real, ratio: real)

  // ---------------------------------------------------------------- vectors

  function Plus(p: Point, q: Point): Point { Point(p.x + q.x, p.y + q.y) }

  function Minus(p: Point, q: Point): Point { Point(p.x - q.x, p.y - q.y) }

  function Scale(k: real, p: Point): Point { Point(k * p.x, k * p.y) }

  function Dot(p: Point, q: Point): real { p.x * q.x + p.y * q.y }

  function Cross(p: Point, q: Point): real { p.x * q.y - p.y * q.x }

  /** The vector turned a quarter turn: (x, y) becomes (y, -x). */
  function Perp(p: Point): Point { Point(p.y, -p.x) }

  function SqNorm(p: Point): real { Dot(p, p) }

  lemma SquareNonNegative(u: real)
    ensures u * u >= 0.0
  {
    if u < 0.0 {
      assert u * u == (-u) * (-u);
    }
  }

  lemma SquareMonotone(lo: real, hi: real)
    requires 0.0 <= lo < hi
    ensures lo * lo < hi * hi
  {
    var d := hi - lo;
    calc {
      hi * hi;
    ==
      (lo + d) * (lo + d);
    ==
      lo * lo + 2.0 * lo * d + d * d;
    >=  { assert lo * d >= 0.0; }
      lo * lo + d * d;
    >   { assert d * d > 0.0; }
      lo * lo;
    }
  }

  /** Squared distance between two points, as calcLength sums it. */
  function SqDist(p: Point, q: Point): real
  {
    (p.x - q.x) * (p.x - q.x) + (p.y - q.y) * (p.y - q.y)
  }

  /** The squared norm of b - a is the squared distance calcLength sums. */
  lemma SqNormIsSqDist(a: Point, b: Point)
    ensures SqNorm(Minus(b, a)) == SqDist(a, b)
  {
    assert (b.x - a.x) * (b.x - a.x) == (a.x - b.x) * (a.x - b.x);
    assert (b.y - a.y) * (b.y - a.y) == (a.y - b.y) * (a.y - b.y);
  }

  /** A squared distance is never negative, and a point is at distance zero from itself. */
  lemma SqDistNonNegative(p: Point, q: Point)
    ensures SqDist(p, q) >= 0.0
    ensures p == q ==> SqDist(p, q) == 0.0
  {
    SquareNonNegative(p.x - q.x);
    SquareNonNegative(p.y - q.y);
  }

  /** `sqrt` behaves as the square root on the non-negative reals. */
  ghost predicate IsSqrt(sqrt: real -> real)
  {
    forall x: real :: 0.0 <= x ==> 0.0 <= sqrt(x) && sqrt(x) * sqrt(x) == x
  }

  /** The non-negative square root is unique: sqrt(len * len) is len itself. */
  lemma SqrtOfSquare(sqrt: real -> real, len: real)
    requires IsSqrt(sqrt)
    requires len >= 0.0
    ensures sqrt(len * len) == len
  {
    var r := sqrt(len * len);
    SquareNonNegative(len);
    assert r >= 0.0 && r * r == len * len;
    if r < len {
      SquareMonotone(r, len);
    } else if len < r {
      SquareMonotone(len, r);
    }
  }

  /** calcLength: the Euclidean length of segment (p, q). */
  function CalcLength(p: Point, q: Point, sqrt: real -> real): real
  {
    sqrt(SqDist(p, q))
  }

  /** With a true square root, calcLength is the non-negative number whose square is the squared distance. */
  lemma CalcLengthSquares(p: Point, q: Point, sqrt: real -> real)
    requires IsSqrt(sqrt)
    ensures CalcLength(p, q, sqrt) >= 0.0
    ensures CalcLength(p, q, sqrt) * CalcLength(p, q, sqrt) == SqDist(p, q)
  {
    SqDistNonNegative(p, q);
  }

  /** Two distinct points have a positive squared distance. */
  lemma DistinctPointsSqDist(p: Point, q: Point)
    requires p != q
    ensures SqDist(p, q) > 0.0
  {
    SquareNonNegative(p.x - q.x);
    SquareNonNegative(p.y - q.y);
    if p.x != q.x {
      SquareMonotone(0.0, if p.x > q.x then p.x - q.x else q.x - p.x);
      assert (p.x - q.x) * (p.x - q.x) == (q.x - p.x) * (q.x - p.x);
    } else {
      SquareMonotone(0.0, if p.y > q.y then p.y - q.y else q.y - p.y);
      assert (p.y - q.y) * (p.y - q.y) == (q.y - p.y) * (q.y - p.y);
    }
  }

  /** With a true square root, two distinct points are a positive distance apart. */
  lemma DistinctPointsPositiveLength(p: Point, q: Point, sqrt: real -> real)
    requires IsSqrt(sqrt)
    requires p != q
    ensures CalcLength(p, q, sqrt) > 0.0
  {
    DistinctPointsSqDist(p, q);
    var len := CalcLength(p, q, sqrt);
    assert len >= 0.0 && len * len == SqDist(p, q);
  }

  // --------------------------------------------------------- random helpers

  /** getRandomNumber(a, b) for the uniform draw `u` of Math.random. */
  function RandomNumber(u: real, a: real, b: real): real
  {
    u * (b - a) + a
  }

  /** A draw in [0, 1) lands in [a, b); with equal bounds the bound itself comes out. */
  lemma RandomNumberRange(u: real, a: real, b: real)
    ensures 0.0 <= u < 1.0 && a < b ==> a <= RandomNumber(u, a, b) < b
    ensures a == b ==> RandomNumber(u, a, b) == a
  {
    if 0.0 <= u < 1.0 && a < b {
      var w := b - a;
      calc {
        u * w + a;
      <  { assert u * w < 1.0 * w; }
        w + a;
      ==
        b;
      }
      assert u * w >= 0.0 * w;
    }
  }

  /** Math.round: the nearest integer, halves rounded up. */
  function Round(x: real): int
  {
    (x + 0.5).Floor
  }

  lemma RoundNearest(x: real)
    ensures Round(x) as real - 0.5 <= x < Round(x) as real + 0.5
  {
  }

  /** One channel of getRandomColor: Math.floor of a draw between the two bounds. */
  function RandomChannel(u: real, lo: int, hi: int): int
  {
    RandomNumber(u, lo as real, hi as real).Floor
  }

  /** A channel drawn in [0, 1) lies in [lo, hi); equal bounds give the bound. */
  lemma RandomChannelRange(u: real, lo: int, hi: int)
    ensures 0.0 <= u < 1.0 && lo < hi ==> lo <= RandomChannel(u, lo, hi) < hi
    ensures lo == hi ==> RandomChannel(u, lo, hi) == lo
  {
    RandomNumberRange(u, lo as real, hi as real);
  }

  /** getRandomColor(c1, c2): three draws, red then green then blue, starting at `rng(k)`. */
  function RandomColor(rng: nat -> real, k: nat, c1: Color, c2: Color): Color
  {
    Rgba(RandomChannel(rng(k), c1.r, c2.r),
         RandomChannel(rng(k + 1), c1.g, c2.g),
         RandomChannel(rng(k + 2), c1.b, c2.b))
  }

  /** Each channel lies between the two colours' channels (or equals them when they agree). */
  lemma RandomColorRange(rng: nat -> real, k: nat, c1: Color, c2: Color)
    requires 0.0 <= rng(k) < 1.0 && 0.0 <= rng(k + 1) < 1.0 && 0.0 <= rng(k + 2) < 1.0
    ensures var c := RandomColor(rng, k, c1, c2);
            && (c1.r < c2.r ==> c1.r <= c.r < c2.r) && (c1.r == c2.r ==> c.r == c1.r)
            && (c1.g < c2.g ==> c1.g <= c.g < c2.g) && (c1.g == c2.g ==> c.g == c1.g)
            && (c1.b < c2.b ==> c1.b <= c.b < c2.b) && (c1.b == c2.b ==> c.b == c1.b)
  {
    RandomChannelRange(rng(k), c1.r, c2.r);
    RandomChannelRange(rng(k + 1), c1.g, c2.g);
    RandomChannelRange(rng(k + 2), c1.b, c2.b);
  }

  /** Every draw of the random stream lies in [0, 1), as Math.random's do. */
  ghost predicate RandomUnit(rng: nat -> real)
  {
    forall i: nat :: 0.0 <= rng(i) < 1.0
  }

  // ------------------------------------------------------ child end points

  /** End point of the left child of branch (a, b): createTree's first recursive call. */
  function LeftEnd(a: Point, b: Point, p: Params): Point
  {
    Point(b.x + (b.x - a.x) * p.ratio * p.cos + (b.y - a.y) * p.ratio * p.sin,
          b.y + (b.y - a.y) * p.ratio * p.cos + (a.x - b.x) * p.ratio * p.sin)
  }

  /** End point of the right child of branch (a, b): createTree's second recursive call. */
  function RightEnd(a: Point, b: Point, p: Params): Point
  {
    Point(b.x + (b.x - a.x) * p.ratio * p.cos + (a.y - b.y) * p.ratio * p.sin,
          b.y + (b.y - a.y) * p.ratio * p.cos + (b.x - a.x) * p.ratio * p.sin)
  }

  /** The two children's offsets from `b` add up to twice the part along the parent direction. */
  lemma ChildEndsMirror(a: Point, b: Point, p: Params)
    ensures Plus(Minus(LeftEnd(a, b, p), b), Minus(RightEnd(a, b, p), b))
         == Scale(2.0 * p.ratio * p.cos, Minus(b, a))
  {
  }

  /** Both children are the parent direction turned by the angle and scaled by the ratio. */
  lemma ChildArmsEqualLength(a: Point, b: Point, p: Params)
    ensures SqNorm(Minus(LeftEnd(a, b, p), b))
         == p.ratio * p.ratio * (p.cos * p.cos + p.sin * p.sin) * SqNorm(Minus(b, a))
    ensures SqNorm(Minus(RightEnd(a, b, p), b))
         == p.ratio * p.ratio * (p.cos * p.cos + p.sin * p.sin) * SqNorm(Minus(b, a))
  {
  }

  /**
   * The child offsets from b in terms of d = b - a, c = ratio * cos and
   * s = ratio * sin: the left one is (c d.x + s d.y, c d.y - s d.x), the
   * right one (c d.x - s d.y, c d.y + s d.x).
   */
  lemma ChildOffsets(a: Point, b: Point, p: Params)
    ensures var d := Minus(b, a);
            var c := p.ratio * p.cos;
            var s := p.ratio * p.sin;
            && Minus(LeftEnd(a, b, p), b) == Point(c * d.x + s * d.y, c * d.y - s * d.x)
            && Minus(RightEnd(a, b, p), b) == Point(c * d.x - s * d.y, c * d.y + s * d.x)
  {
    var d := Minus(b, a);
    var c := p.ratio * p.cos;
    var s := p.ratio * p.sin;
    assert (b.x - a.x) * p.ratio * p.cos == c * d.x;
    assert (b.y - a.y) * p.ratio * p.cos == c * d.y;
    assert (b.y - a.y) * p.ratio * p.sin == s * d.y;
    assert (a.y - b.y) * p.ratio * p.sin == -(s * d.y);
    assert (b.x - a.x) * p.ratio * p.sin == s * d.x;
    assert (a.x - b.x) * p.ratio * p.sin == -(s * d.x);
  }

  /** Negating the angle (the sign of its sine) swaps the left and right child. */
  lemma NegatedAngleSwapsChildren(a: Point, b: Point, p: Params)
    ensures LeftEnd(a, b, Params(p.cos, -p.sin, p.ratio)) == RightEnd(a, b, p)
    ensures RightEnd(a, b, Params(p.cos, -p.sin, p.ratio)) == LeftEnd(a, b, p)
  {
    var q := Params(p.cos, -p.sin, p.ratio);
    var d := Minus(b, a);
    var s := p.ratio * p.sin;
    ChildOffsets(a, b, p);
    ChildOffsets(a, b, q);
    assert q.ratio * q.sin == -s;
    assert (-s) * d.x == -(s * d.x) && (-s) * d.y == -(s * d.y);
  }

  /** The scalar identity behind ChildEndsReflect: (c x + s y, c y - s x) . (x, y) == c (x^2 + y^2). */
  lemma ProjectionCoefficient(c: real, s: real, x: real, y: real)
    ensures (c * x + s * y) * x + (c * y - s * x) * y == c * (x * x + y * y)
  {
    calc {
      (c * x + s * y) * x + (c * y - s * x) * y;
    ==
      c * (x * x) + s * (y * x) + c * (y * y) - s * (x * y);
    ==  { assert y * x == x * y; }
      c * (x * x) + c * (y * y);
    }
  }

  /**
   * The right child's end is the reflection of the left child's end across
   * the line through the parent branch. With d = b - a, v = left - b and
   * c = ratio * cos: the projection of v on d is c d, and
   * right - b = 2 c d - v.
   */
  lemma ChildEndsReflect(a: Point, b: Point, p: Params)
    ensures var d := Minus(b, a);
            var v := Minus(LeftEnd(a, b, p), b);
            var c := p.ratio * p.cos;
            && Dot(v, d) == c * SqNorm(d)
            && Minus(RightEnd(a, b, p), b) == Minus(Scale(2.0 * c, d), v)
  {
    var d := Minus(b, a);
    ChildOffsets(a, b, p);
    ProjectionCoefficient(p.ratio * p.cos, p.ratio * p.sin, d.x, d.y);
  }

  /** A product with a non-zero factor is zero only when the other factor is. */
  lemma ZeroFactor(x: real, y: real)
    requires x != 0.0
    ensures x * y == 0.0 ==> y == 0.0
  {
    if x * y == 0.0 {
      assert y == (x * y) / x;
    }
  }

  /**
   * The scalar core of ChildEndsDistinct: turning (x, y) != (0, 0) by the
   * coefficients (c, s) in either direction gives (0, 0) only when c and s
   * are both zero.
   */
  lemma TurnVanishes(c: real, s: real, x: real, y: real, n: real)
    requires n == x * x + y * y && n > 0.0
    ensures c * x + s * y == 0.0 && c * y - s * x == 0.0 ==> c == 0.0 && s == 0.0
    ensures c * x - s * y == 0.0 && c * y + s * x == 0.0 ==> c == 0.0 && s == 0.0
  {
    assert x * (c * x + s * y) + y * (c * y - s * x) == c * n;
    assert y * (c * x + s * y) - x * (c * y - s * x) == s * n;
    assert x * (c * x - s * y) + y * (c * y + s * x) == c * n;
    assert x * (c * y + s * x) - y * (c * x - s * y) == s * n;
    ZeroFactor(n, c);
    ZeroFactor(n, s);
  }

  /**
   * A branch of positive length with a non-zero ratio and an angle whose
   * cosine and sine are not both zero has children of positive length.
   */
  lemma ChildEndsDistinct(a: Point, b: Point, p: Params)
    requires a != b
    requires p.ratio != 0.0
    requires p.cos != 0.0 || p.sin != 0.0
    ensures LeftEnd(a, b, p) != b && RightEnd(a, b, p) != b
  {
    var d := Minus(b, a);
    DistinctPointsSqDist(a, b);
    assert d.x * d.x + d.y * d.y == SqDist(a, b);
    ChildOffsets(a, b, p);
    assert Minus(b, b) == Point(0.0, 0.0);
    TurnVanishes(p.ratio * p.cos, p.ratio * p.sin, d.x, d.y, SqDist(a, b));
    ZeroFactor(p.ratio, p.cos);
    ZeroFactor(p.ratio, p.sin);
  }
}
