/** The plane geometry of docs-site/components/ambient/graph.ts, over exact reals and with
    distances squared. */
module Geometry {
  import opened Common

  datatype Point = Point(x: real, y: real)

  /** The point `s` of the way along `a`-`b`. */
  function Along(a: Point, b: Point, s: real): Point
  {
    Point(a.x + s * (b.x - a.x), a.y + s * (b.y - a.y))
  }

  function Cross(o: Point, a: Point, b: Point): real
  {
    (a.x - o.x) * (b.y - o.y) - (a.y - o.y) * (b.x - o.x)
  }

  function Intersection(a: Point, b: Point, c: Point, d: Point): Option<Point>
  {
    var d1 := Cross(a, b, c);
    var d2 := Cross(a, b, d);
    var d3 := Cross(c, d, a);
    var d4 := Cross(c, d, b);
    if d1 * d2 >= 0.0 || d3 * d4 >= 0.0 then None
    else
      assert d3 != d4 by { OppositeSigns(d3, d4); }
      var t := d3 / (d3 - d4);
      Some(Along(a, b, t))
  }

  function Times(x: real, y: real): real
  {
    x * y
  }

  function Square(x: real): real
  {
    Times(x, x)
  }

  function Dist2(p: Point, q: Point): real
  {
    Square(p.x - q.x) + Square(p.y - q.y)
  }

  function Clamp(t: real): (r: real)
    ensures 0.0 <= r <= 1.0
  {
    if t < 0.0 then 0.0 else if t > 1.0 then 1.0 else t
  }

  /** Where on `a`-`b` the point nearest `p` lies. */
  function NearestAt(p: Point, a: Point, b: Point): (t: real)
    ensures 0.0 <= t <= 1.0
  {
    var dx, dy := b.x - a.x, b.y - a.y;
    var len := dx * dx + dy * dy;
    if len == 0.0 then 0.0 else Clamp(((p.x - a.x) * dx + (p.y - a.y) * dy) / len)
  }

  function PointToSegment2(p: Point, a: Point, b: Point): real
  {
    Dist2(p, Along(a, b, NearestAt(p, a, b)))
  }

  function Min(x: real, y: real): real
  {
    if x < y then x else y
  }

  function SegmentDistance2(a: Point, b: Point, c: Point, d: Point): real
  {
    Min(Min(PointToSegment2(a, c, d), PointToSegment2(b, c, d)),
        Min(PointToSegment2(c, a, b), PointToSegment2(d, a, b)))
  }

  // ---------------------------------------------------------------------
  // Crossing
  // ---------------------------------------------------------------------

  /** How far from parallel the two directions are. */
  function Turn(a: Point, b: Point, c: Point, d: Point): real
  {
    (b.x - a.x) * (d.y - c.y) - (b.y - a.y) * (d.x - c.x)
  }

  /** The insides of the two segments meet in one point: they are not parallel, and some point
      strictly inside the one is strictly inside the other. */
  ghost predicate ProperlyCross(a: Point, b: Point, c: Point, d: Point)
  {
    Turn(a, b, c, d) != 0.0 &&
    exists s: real, t: real | 0.0 < s < 1.0 && 0.0 < t < 1.0 :: Along(a, b, s) == Along(c, d, t)
  }

  lemma {:induction false} OppositeSigns(x: real, y: real)
    ensures x * y < 0.0 <==> (x < 0.0 && y > 0.0) || (x > 0.0 && y < 0.0)
  {
    if x > 0.0 && y > 0.0 {
      assert x * y > 0.0;
    } else if x < 0.0 && y < 0.0 {
      assert x * y > 0.0;
    } else if x > 0.0 && y < 0.0 {
      assert x * y < 0.0;
    } else if x < 0.0 && y > 0.0 {
      assert x * y < 0.0;
    }
  }

  /** Each pair of cross products differs by the turn. */
  lemma {:induction false} CrossesDiffer(a: Point, b: Point, c: Point, d: Point)
    ensures Cross(a, b, d) - Cross(a, b, c) == Turn(a, b, c, d)
    ensures Cross(c, d, a) - Cross(c, d, b) == Turn(a, b, c, d)
  {
  }

  lemma {:induction false} LineIdentity(wx: real, wy: real, ux: real, uy: real, vx: real, vy: real)
    ensures (ux * vy - uy * vx) * wx + (vx * wy - vy * wx) * ux + (uy * wx - ux * wy) * vx == 0.0
    ensures (ux * vy - uy * vx) * wy + (vx * wy - vy * wx) * uy + (uy * wx - ux * wy) * vy == 0.0
  {
  }

  /** `s` of `k` is `x`. */
  predicate Scales(s: real, k: real, x: real)
  {
    s * k == x
  }

  /** Three products that cancel, in one coordinate of the two segments. */
  predicate Balanced(k: real, d3: real, d1: real, a: real, b: real, c: real, d: real)
  {
    k * (a - c) + d3 * (b - a) + d1 * (d - c) == 0.0
  }

  /** The identity for the cross products themselves. */
  lemma {:induction false} CrossIdentity(a: Point, b: Point, c: Point, d: Point)
    ensures Balanced(Turn(a, b, c, d), Cross(c, d, a), Cross(a, b, c), a.x, b.x, c.x, d.x)
    ensures Balanced(Turn(a, b, c, d), Cross(c, d, a), Cross(a, b, c), a.y, b.y, c.y, d.y)
  {
    var ux, uy, vx, vy := b.x - a.x, b.y - a.y, d.x - c.x, d.y - c.y;
    var wx, wy := a.x - c.x, a.y - c.y;
    LineIdentity(wx, wy, ux, uy, vx, vy);
    assert Cross(c, d, a) == vx * wy - vy * wx;
    assert Cross(a, b, c) == uy * wx - ux * wy;
  }

  lemma {:induction false} Cancel(k: real, x: real, y: real)
    requires k != 0.0 && k * x == k * y
    ensures x == y
  {
    assert k * (x - y) == 0.0;
  }

  lemma {:induction false} SwapFactors(k: real, s: real, u: real)
    ensures k * (s * u) == (s * k) * u
  {
  }

  lemma {:induction false} Component(k: real, d3: real, d1: real, a: real, b: real, c: real, d: real, s: real, t: real,
                                     p: real, q: real)
    requires k != 0.0 && Scales(s, k, d3) && Scales(t, k, -d1) && Balanced(k, d3, d1, a, b, c, d)
    requires OnLine(p, a, b, s) && OnLine(q, c, d, t)
    ensures p == q
  {
    var u, v := b - a, d - c;
    SwapFactors(k, s, u);
    SwapFactors(k, t, v);
    assert (-d1) * v == -(d1 * v);
    assert k * p == k * a + k * (s * u);
    assert k * q == k * c + k * (t * v);
    assert k * (a - c) == k * a - k * c;
    Cancel(k, p, q);
  }

  /** The lines meet where the cross products say. */
  lemma {:induction false} LinesMeet(a: Point, b: Point, c: Point, d: Point, s: real, t: real)
    requires Turn(a, b, c, d) != 0.0
    requires Scales(s, Turn(a, b, c, d), Cross(c, d, a)) && Scales(t, Turn(a, b, c, d), -Cross(a, b, c))
    ensures Along(a, b, s) == Along(c, d, t)
  {
    hide *;
    CrossIdentity(a, b, c, d);
    AlongIs(a, b, s);
    AlongIs(c, d, t);
    var turn, d3, d1 := Turn(a, b, c, d), Cross(c, d, a), Cross(a, b, c);
    var p, q := Along(a, b, s), Along(c, d, t);
    Component(turn, d3, d1, a.x, b.x, c.x, d.x, s, t, p.x, q.x);
    Component(turn, d3, d1, a.y, b.y, c.y, d.y, s, t, p.y, q.y);
  }

  /** And nowhere else. */
  lemma {:induction false} MeetingFixes(a: Point, b: Point, c: Point, d: Point, s: real, t: real)
    requires Along(a, b, s) == Along(c, d, t)
    ensures Scales(s, Turn(a, b, c, d), Cross(c, d, a)) && Scales(t, Turn(a, b, c, d), -Cross(a, b, c))
  {
    var ux, uy, vx, vy := b.x - a.x, b.y - a.y, d.x - c.x, d.y - c.y;
    var wx, wy := a.x - c.x, a.y - c.y;
    assert wx == t * vx - s * ux && wy == t * vy - s * uy;
    MeetingIdentity(wx, wy, ux, uy, vx, vy, s, t);
  }

  lemma {:induction false} MeetingIdentity(wx: real, wy: real, ux: real, uy: real, vx: real, vy: real, s: real, t: real)
    requires wx == t * vx - s * ux && wy == t * vy - s * uy
    ensures s * (ux * vy - uy * vx) == vx * wy - vy * wx
    ensures t * (ux * vy - uy * vx) == ux * wy - uy * wx
  {
    assert vx * (t * vy - s * uy) - vy * (t * vx - s * ux) == s * (ux * vy - uy * vx);
    assert ux * (t * vy - s * uy) - uy * (t * vx - s * ux) == t * (ux * vy - uy * vx);
  }

  lemma {:induction false} ScaleSign(s: real, k: real)
    ensures k > 0.0 ==> (s * k > 0.0 <==> s > 0.0) && (s * k < 0.0 <==> s < 0.0)
    ensures k < 0.0 ==> (s * k < 0.0 <==> s > 0.0) && (s * k > 0.0 <==> s < 0.0)
  {
    if k > 0.0 {
      OppositeSigns(s, k);
      OppositeSigns(-s, k);
      assert (-s) * k == -(s * k);
    } else if k < 0.0 {
      OppositeSigns(s, k);
      OppositeSigns(-s, k);
      assert (-s) * k == -(s * k);
    }
  }

  /** `s` lies strictly between 0 and 1 when `s * k` and `s * k - k` have opposite signs. */
  lemma {:induction false} Between(s: real, k: real, p: real, q: real)
    requires k != 0.0 && Scales(s, k, p) && q == p - k
    ensures 0.0 < s < 1.0 <==> p * q < 0.0
  {
    assert q == (s - 1.0) * k;
    OppositeSigns(p, q);
    ScaleSign(s, k);
    ScaleSign(s - 1.0, k);
  }

  lemma {:induction false} NegatedProduct(x: real, y: real)
    ensures (-x) * (-y) == x * y
  {
  }

  /** Two places along the lines where they meet lie strictly inside the segments exactly when
      the code's two tests pass. */
  lemma {:induction false} InsideBoth(a: Point, b: Point, c: Point, d: Point, s: real, t: real)
    requires Turn(a, b, c, d) != 0.0
    requires Scales(s, Turn(a, b, c, d), Cross(c, d, a)) && Scales(t, Turn(a, b, c, d), -Cross(a, b, c))
    ensures 0.0 < s < 1.0 && 0.0 < t < 1.0 <==>
            Cross(a, b, c) * Cross(a, b, d) < 0.0 && Cross(c, d, a) * Cross(c, d, b) < 0.0
  {
    hide Cross, Turn;
    var turn := Turn(a, b, c, d);
    CrossesDiffer(a, b, c, d);
    Between(s, turn, Cross(c, d, a), Cross(c, d, b));
    Between(t, turn, -Cross(a, b, c), -Cross(a, b, d));
    NegatedProduct(Cross(a, b, c), Cross(a, b, d));
  }

  lemma {:induction false} CrossTestsNeedATurn(a: Point, b: Point, c: Point, d: Point)
    requires Cross(a, b, c) * Cross(a, b, d) < 0.0
    ensures Turn(a, b, c, d) != 0.0
  {
    hide Cross, Turn;
    OppositeSigns(Cross(a, b, c), Cross(a, b, d));
    CrossesDiffer(a, b, c, d);
  }

  lemma {:induction false} Quotient(x: real, k: real)
    requires k != 0.0
    ensures Scales(x / k, k, x)
  {
  }

  /** `intersection` answers exactly when the segments properly cross, and then with a point
      strictly inside both. */
  lemma {:induction false} IntersectionIsExact(a: Point, b: Point, c: Point, d: Point)
    ensures Intersection(a, b, c, d).Some? <==> ProperlyCross(a, b, c, d)
    ensures Intersection(a, b, c, d).Some? ==>
              exists s: real, t: real | 0.0 < s < 1.0 && 0.0 < t < 1.0 ::
                && Intersection(a, b, c, d).value == Along(a, b, s)
                && Along(a, b, s) == Along(c, d, t)
  {
    hide Cross, Turn, Along;
    var turn := Turn(a, b, c, d);
    var d1, d2, d3, d4 := Cross(a, b, c), Cross(a, b, d), Cross(c, d, a), Cross(c, d, b);
    CrossesDiffer(a, b, c, d);
    if d1 * d2 < 0.0 && d3 * d4 < 0.0 {
      CrossTestsNeedATurn(a, b, c, d);
      var s, t := d3 / turn, -d1 / turn;
      Quotient(d3, turn);
      Quotient(-d1, turn);
      LinesMeet(a, b, c, d, s, t);
      InsideBoth(a, b, c, d, s, t);
    } else if ProperlyCross(a, b, c, d) {
      var s: real, t: real :| 0.0 < s < 1.0 && 0.0 < t < 1.0 && Along(a, b, s) == Along(c, d, t);
      MeetingFixes(a, b, c, d, s, t);
      InsideBoth(a, b, c, d, s, t);
    }
  }

  lemma {:induction false} CrossAtTheEnds(a: Point, b: Point)
    ensures Cross(a, b, a) == 0.0 && Cross(a, b, b) == 0.0
  {
  }

  lemma {:induction false} ZeroProduct(x: real, y: real)
    requires x == 0.0 || y == 0.0
    ensures x * y == 0.0
  {
  }

  /** Segments that share an end never properly cross. */
  lemma {:induction false} SharedEndsNeverCross(a: Point, b: Point, c: Point, d: Point)
    requires a == c || a == d || b == c || b == d
    ensures Intersection(a, b, c, d) == None
  {
    hide Cross;
    CrossAtTheEnds(a, b);
    ZeroProduct(Cross(a, b, c), Cross(a, b, d));
  }

  // ---------------------------------------------------------------------
  // Nearest points
  // ---------------------------------------------------------------------

  lemma {:induction false} SquareAlong(p: real, d: real, s: real)
    ensures Square(p - s * d) == Square(p) - 2.0 * (s * (p * d)) + Square(s) * Square(d)
  {
    var m := s * d;
    assert (p - m) * (p - m) == p * p - 2.0 * (p * m) + m * m;
    assert p * m == s * (p * d);
    assert m * m == (s * s) * (d * d);
  }

  function Dot(p: Point, a: Point, b: Point): real
  {
    Times(p.x - a.x, b.x - a.x) + Times(p.y - a.y, b.y - a.y)
  }

  lemma {:induction false} Distribute(s: real, x: real, y: real)
    ensures s * (x + y) == s * x + s * y
  {
  }

  lemma {:induction false} TimesDistributes(s: real, x: real, y: real)
    ensures Times(s, x + y) == Times(s, x) + Times(s, y)
  {
  }

  lemma {:induction false} CoordinateAlong(p: real, a: real, b: real, s: real, x: real)
    requires x == a + s * (b - a)
    ensures Square(p - x) ==
            Square(p - a) - 2.0 * Times(s, Times(p - a, b - a)) + Times(Square(s), Square(b - a))
  {
    var px, dx := p - a, b - a;
    SquareAlong(px, dx, s);
    assert p - x == px - s * dx;
  }

  /** The squared distance along a segment, as a quadratic. */
  lemma {:induction false} DistanceAlong(p: Point, a: Point, b: Point, s: real)
    ensures Dist2(p, Along(a, b, s)) == Dist2(p, a) - 2.0 * Times(s, Dot(p, a, b)) + Times(Square(s), Dist2(b, a))
  {
    hide Times, Square;
    var q := Along(a, b, s);
    CoordinateAlong(p.x, a.x, b.x, s, q.x);
    CoordinateAlong(p.y, a.y, b.y, s, q.y);
    TimesDistributes(s, Times(p.x - a.x, b.x - a.x), Times(p.y - a.y, b.y - a.y));
    TimesDistributes(Square(s), Square(b.x - a.x), Square(b.y - a.y));
  }

  lemma {:induction false} TimesSign(x: real, y: real)
    ensures (x > 0.0 && y > 0.0) || (x < 0.0 && y < 0.0) ==> Times(x, y) > 0.0
    ensures x == 0.0 ==> Times(x, y) == 0.0
  {
    if x < 0.0 && y < 0.0 {
      assert (-x) * (-y) > 0.0;
      NegatedProduct(x, y);
    }
  }

  lemma {:induction false} SquareSign(x: real)
    ensures Square(x) >= 0.0 && (Square(x) == 0.0 <==> x == 0.0)
  {
    hide Times;
    TimesSign(x, x);
  }

  lemma {:induction false} NonNegativeProduct(x: real, y: real)
    requires (x >= 0.0 && y >= 0.0) || (x <= 0.0 && y <= 0.0)
    ensures x * y >= 0.0
  {
    OppositeSigns(x, y);
  }

  lemma {:induction false} DifferenceOfSquares(s: real, t: real, q: real)
    ensures (s * s - 2.0 * (s * q)) - (t * t - 2.0 * (t * q)) == (s - t) * ((s - q) + (t - q))
  {
    Distribute(s - t, s - q, t - q);
    assert (s - t) * (s - q) == s * s - s * q - t * s + t * q;
    assert (s - t) * (t - q) == s * t - s * q - t * t + t * q;
  }

  lemma {:induction false} ClampedIsBest(q: real, s: real, t: real)
    requires 0.0 <= s <= 1.0 && t == Clamp(q)
    ensures t * t - 2.0 * (t * q) <= s * s - 2.0 * (s * q)
  {
    DifferenceOfSquares(s, t, q);
    NonNegativeProduct(s - t, (s - q) + (t - q));
  }

  /** The distance quadratic, at a place and at its least. */
  lemma {:induction false} QuadraticIsLeast(len: real, dot: real, s: real, t: real)
    requires len > 0.0 && 0.0 <= s <= 1.0 && t == Clamp(dot / len)
    ensures Times(Square(t), len) - 2.0 * Times(t, dot) <= Times(Square(s), len) - 2.0 * Times(s, dot)
  {
    var q := dot / len;
    Quotient(dot, len);
    ClampedIsBest(q, s, t);
    Scaled(t, q, len);
    Scaled(s, q, len);
    var best, other := t * t - 2.0 * (t * q), s * s - 2.0 * (s * q);
    NonNegativeProduct(other - best, len);
    assert (other - best) * len == other * len - best * len;
  }

  lemma {:induction false} Scaled(t: real, q: real, len: real)
    ensures (t * t - 2.0 * (t * q)) * len == Times(Square(t), len) - 2.0 * Times(t, q * len)
  {
    var tt, tq := t * t, t * q;
    assert (tt - 2.0 * tq) * len == tt * len - 2.0 * (tq * len);
    assert tq * len == t * (q * len);
  }

  lemma {:induction false} NearestAtNonzero(p: Point, a: Point, b: Point)
    requires Dist2(b, a) != 0.0
    ensures NearestAt(p, a, b) == Clamp(Dot(p, a, b) / Dist2(b, a))
  {
  }

  /** `pointToSegment` is the least distance to any point of the segment. */
  lemma {:induction false} NearestIsNearest(p: Point, a: Point, b: Point, s: real)
    requires 0.0 <= s <= 1.0
    ensures PointToSegment2(p, a, b) <= Dist2(p, Along(a, b, s))
  {
    var len, dot, t := Dist2(b, a), Dot(p, a, b), NearestAt(p, a, b);
    DistanceAlong(p, a, b, s);
    DistanceAlong(p, a, b, t);
    if len == 0.0 {
      FlatSegment(p, a, b, s);
      FlatSegment(p, a, b, t);
    } else {
      hide *;
      LengthSign(b, a);
      NearestAtNonzero(p, a, b);
      QuadraticIsLeast(len, dot, s, t);
      PointToSegmentIs(p, a, b);
    }
  }

  lemma {:induction false} PointToSegmentIs(p: Point, a: Point, b: Point)
    ensures PointToSegment2(p, a, b) == Dist2(p, Along(a, b, NearestAt(p, a, b)))
  {
  }

  lemma {:induction false} LengthSign(a: Point, b: Point)
    ensures Dist2(a, b) >= 0.0 && (Dist2(a, b) == 0.0 <==> a == b)
  {
    hide Square;
    SquareSign(a.x - b.x);
    SquareSign(a.y - b.y);
  }

  lemma {:induction false} FlatSegment(p: Point, a: Point, b: Point, s: real)
    requires Dist2(b, a) == 0.0
    ensures Along(a, b, s) == a
  {
    LengthSign(b, a);
  }

  // ---------------------------------------------------------------------
  // Keeping apart
  // ---------------------------------------------------------------------

  /** No point of the one segment is nearer than `k`, squared, to any of the other. */
  ghost predicate Apart(a: Point, b: Point, c: Point, d: Point, k: real)
  {
    forall s: real, t: real | 0.0 <= s <= 1.0 && 0.0 <= t <= 1.0 :: Dist2(Along(a, b, s), Along(c, d, t)) >= k
  }

  lemma {:induction false} AlongEnds(a: Point, b: Point)
    ensures Along(a, b, 0.0) == a && Along(a, b, 1.0) == b
  {
  }

  lemma {:induction false} SquareOfNegated(x: real, y: real)
    requires y == -x
    ensures Square(y) == Square(x)
  {
    NegatedProduct(x, x);
  }

  lemma {:induction false} DistSymmetric(p: Point, q: Point)
    ensures Dist2(p, q) == Dist2(q, p)
  {
    hide Square;
    SquareOfNegated(p.x - q.x, q.x - p.x);
    SquareOfNegated(p.y - q.y, q.y - p.y);
  }

  lemma {:induction false} LeastOfFour(a: Point, b: Point, c: Point, d: Point)
    ensures var k := SegmentDistance2(a, b, c, d);
            && k <= PointToSegment2(a, c, d) && k <= PointToSegment2(b, c, d)
            && k <= PointToSegment2(c, a, b) && k <= PointToSegment2(d, a, b)
  {
    hide PointToSegment2;
  }

  /** From an end of either segment, `segmentDistance` bounds the distance. */
  lemma {:induction false} EndsAreFar(a: Point, b: Point, c: Point, d: Point, s: real, t: real)
    requires 0.0 <= s <= 1.0 && 0.0 <= t <= 1.0
    requires s == 0.0 || s == 1.0 || t == 0.0 || t == 1.0
    ensures Dist2(Along(a, b, s), Along(c, d, t)) >= SegmentDistance2(a, b, c, d)
  {
    hide PointToSegment2, Dist2, Along, SegmentDistance2;
    AlongEnds(a, b);
    AlongEnds(c, d);
    LeastOfFour(a, b, c, d);
    DistSymmetric(Along(a, b, s), Along(c, d, t));
    if s == 0.0 {
      NearestIsNearest(a, c, d, t);
    } else if s == 1.0 {
      NearestIsNearest(b, c, d, t);
    } else if t == 0.0 {
      NearestIsNearest(c, a, b, s);
    } else {
      NearestIsNearest(d, a, b, s);
    }
  }

  lemma {:induction false} Fraction(x: real, y: real) returns (f: real)
    requires 0.0 <= x <= y && y > 0.0
    ensures 0.0 <= f <= 1.0 && f * y == x
  {
    f := x / y;
    Quotient(x, y);
    ScaleSign(f, y);
    ScaleSign(1.0 - f, y);
    assert (1.0 - f) * y == y - x;
  }

  /** Going `ds` from inside the unit interval to outside it passes its edge. */
  lemma {:induction false} Leaves(s: real, ds: real) returns (f: real)
    requires 0.0 <= s <= 1.0 && !(0.0 < s + ds < 1.0)
    ensures 0.0 <= f <= 1.0 && (s + f * ds == 0.0 || s + f * ds == 1.0)
  {
    if s == 0.0 || s == 1.0 {
      f := 0.0;
    } else if s + ds <= 0.0 {
      f := Fraction(s, -ds);
      assert f * (-ds) == -(f * ds);
    } else {
      f := Fraction(1.0 - s, ds);
    }
  }

  lemma {:induction false} StaysBetween(s: real, ds: real, f: real)
    requires 0.0 <= s <= 1.0 && 0.0 <= s + ds <= 1.0 && 0.0 <= f <= 1.0
    ensures 0.0 <= s + f * ds <= 1.0
  {
    var e := s + ds;
    NonNegativeProduct(f, e);
    NonNegativeProduct(1.0 - f, s);
    NonNegativeProduct(f, 1.0 - e);
    NonNegativeProduct(1.0 - f, 1.0 - s);
    assert f * ds == f * e - f * s;
    assert s + f * ds == (1.0 - f) * s + f * e;
    assert 1.0 - (s + f * ds) == (1.0 - f) * (1.0 - s) + f * (1.0 - e);
  }

  /** Going from a point of the unit square to one not inside it passes its edge, and all the
      way to there stays in the square. */
  lemma {:induction false} ExitSquare(s: real, t: real, ds: real, dt: real) returns (f: real)
    requires 0.0 <= s <= 1.0 && 0.0 <= t <= 1.0
    requires !(0.0 < s + ds < 1.0 && 0.0 < t + dt < 1.0)
    ensures 0.0 <= f <= 1.0
    ensures var u, v := s + f * ds, t + f * dt;
            0.0 <= u <= 1.0 && 0.0 <= v <= 1.0 && (u == 0.0 || u == 1.0 || v == 0.0 || v == 1.0)
  {
    if 0.0 < s + ds < 1.0 {
      f := Leaves(t, dt);
      StaysBetween(s, ds, f);
    } else {
      var g := Leaves(s, ds);
      var gs, gt := g * ds, g * dt;
      if 0.0 <= t + gt <= 1.0 {
        f := g;
      } else {
        var h := Leaves(t, gt);
        f := h * g;
        NonNegativeProduct(h, g);
        NonNegativeProduct(1.0 - h, g);
        assert (1.0 - h) * g == g - h * g;
        assert f * dt == h * gt && f * ds == h * gs;
        StaysBetween(s, gs, h);
      }
    }
  }

  /** How the gap between a point of each line, in one coordinate, changes as both move. */
  lemma {:induction false} GapMoves(u: real, v: real, s: real, t: real, ds: real, dt: real, f: real, stay: real,
                                    gap: real, moved: real)
    requires ds * u - dt * v == -(stay * gap)
    requires moved == gap + ((s + f * ds) * u - s * u) - ((t + f * dt) * v - t * v)
    ensures moved == (1.0 - f * stay) * gap
  {
    assert (s + f * ds) * u == s * u + f * (ds * u);
    assert (t + f * dt) * v == t * v + f * (dt * v);
    assert f * (ds * u) - f * (dt * v) == f * (ds * u - dt * v);
    assert f * (-(stay * gap)) == -((f * stay) * gap);
    assert (1.0 - f * stay) * gap == gap - (f * stay) * gap;
  }

  lemma {:induction false} SquareShrinks(m: real, x: real, y: real)
    requires 0.0 <= m <= 1.0 && y == m * x
    ensures Square(y) <= Square(x)
  {
    var xx := x * x;
    SquareSign(x);
    NonNegativeProduct(m, m);
    NonNegativeProduct(m, 1.0 - m);
    assert m * (1.0 - m) == m - m * m;
    var mm := m * m;
    NonNegativeProduct(1.0 - mm, Square(x));
    assert Square(x) == xx && y * y == mm * xx;
    assert (1.0 - mm) * Square(x) == Square(x) - mm * Square(x);
  }

  /** `p` is `s` of the way from `a` to `b`, in one coordinate. */
  predicate OnLine(p: real, a: real, b: real, s: real)
  {
    p == a + s * (b - a)
  }

  /** Moving `ds` and `dt` along the two lines closes the gap, or leaves it. */
  predicate Closes(ds: real, dt: real, a: real, b: real, c: real, d: real, stay: real, gap: real)
  {
    ds * (b - a) - dt * (d - c) == -(stay * gap)
  }

  /** Both points move, the gap shrinking to nothing or not changing at all. */
  lemma {:induction false} DistanceShrinks(a: Point, b: Point, c: Point, d: Point, s: real, t: real,
                                           ds: real, dt: real, f: real, stay: real, p: Point, q: Point)
    requires 0.0 <= f <= 1.0 && (stay == 0.0 || stay == 1.0)
    requires p == Along(a, b, s) && q == Along(c, d, t)
    requires Closes(ds, dt, a.x, b.x, c.x, d.x, stay, p.x - q.x)
    requires Closes(ds, dt, a.y, b.y, c.y, d.y, stay, p.y - q.y)
    ensures Dist2(Along(a, b, s + f * ds), Along(c, d, t + f * dt)) <= Dist2(p, q)
  {
    hide *;
    var u, v := Along(a, b, s + f * ds), Along(c, d, t + f * dt);
    AlongIs(a, b, s);
    AlongIs(c, d, t);
    AlongIs(a, b, s + f * ds);
    AlongIs(c, d, t + f * dt);
    ShrinksInOne(a.x, b.x, c.x, d.x, s, t, ds, dt, f, stay, p.x, q.x, u.x, v.x);
    ShrinksInOne(a.y, b.y, c.y, d.y, s, t, ds, dt, f, stay, p.y, q.y, u.y, v.y);
    DistIs(p, q);
    DistIs(u, v);
  }

  lemma {:induction false} AlongIs(a: Point, b: Point, s: real)
    ensures OnLine(Along(a, b, s).x, a.x, b.x, s) && OnLine(Along(a, b, s).y, a.y, b.y, s)
  {
  }

  lemma {:induction false} DistIs(p: Point, q: Point)
    ensures Dist2(p, q) == Square(p.x - q.x) + Square(p.y - q.y)
  {
  }

  lemma {:induction false} ShrinksInOne(a: real, b: real, c: real, d: real, s: real, t: real, ds: real, dt: real,
                                        f: real, stay: real, p: real, q: real, u: real, v: real)
    requires 0.0 <= f <= 1.0 && (stay == 0.0 || stay == 1.0)
    requires OnLine(p, a, b, s) && OnLine(q, c, d, t)
    requires OnLine(u, a, b, s + f * ds) && OnLine(v, c, d, t + f * dt)
    requires Closes(ds, dt, a, b, c, d, stay, p - q)
    ensures Square(u - v) <= Square(p - q)
  {
    GapMoves(b - a, d - c, s, t, ds, dt, f, stay, p - q, u - v);
    var m := 1.0 - f * stay;
    assert f * stay == if stay == 0.0 then 0.0 else f;
    SquareShrinks(m, p - q, u - v);
  }

  /** Parallel segments: both points can slide along, keeping their gap. */
  lemma {:induction false} SlideAlong(a: Point, b: Point, c: Point, d: Point) returns (ds: real, dt: real)
    requires Turn(a, b, c, d) == 0.0
    ensures ds == 1.0 || dt == 1.0
    ensures ds * (b.x - a.x) - dt * (d.x - c.x) == 0.0 && ds * (b.y - a.y) - dt * (d.y - c.y) == 0.0
  {
    if a == b {
      ds, dt := 1.0, 0.0;
    } else if b.x - a.x != 0.0 {
      ds, dt := Ratio(b.x - a.x, b.y - a.y, d.x - c.x, d.y - c.y), 1.0;
    } else {
      TurnAcross(a, b, c, d);
      ds, dt := Ratio(b.y - a.y, b.x - a.x, d.y - c.y, d.x - c.x), 1.0;
    }
  }

  function Ratio(ux: real, uy: real, vx: real, vy: real): (k: real)
    requires ux != 0.0 && ux * vy - uy * vx == 0.0
    ensures k * ux == vx && k * uy == vy
  {
    var k := vx / ux;
    assert k * ux == vx by { Quotient(vx, ux); }
    assert k * uy == vy by {
      assert ux * (k * uy) == (k * ux) * uy;
      Cancel(ux, k * uy, vy);
    }
    k
  }

  lemma {:induction false} TurnAcross(a: Point, b: Point, c: Point, d: Point)
    requires Turn(a, b, c, d) == 0.0 && a != b && b.x - a.x == 0.0
    ensures b.y - a.y != 0.0
    ensures (b.y - a.y) * (d.x - c.x) - (b.x - a.x) * (d.y - c.y) == 0.0
  {
  }

  /** Lines that are not parallel: both points can move to where the lines meet. */
  lemma {:induction false} MoveTogether(a: Point, b: Point, c: Point, d: Point, s: real, t: real, p: Point, q: Point)
    returns (ds: real, dt: real)
    requires Turn(a, b, c, d) != 0.0 && p == Along(a, b, s) && q == Along(c, d, t)
    ensures Along(a, b, s + ds) == Along(c, d, t + dt)
    ensures ds * (b.x - a.x) - dt * (d.x - c.x) == -(p.x - q.x)
    ensures ds * (b.y - a.y) - dt * (d.y - c.y) == -(p.y - q.y)
  {
    hide Turn, Cross;
    var turn := Turn(a, b, c, d);
    var u, v := Cross(c, d, a) / turn, -Cross(a, b, c) / turn;
    Quotient(Cross(c, d, a), turn);
    Quotient(-Cross(a, b, c), turn);
    LinesMeet(a, b, c, d, u, v);
    ds, dt := u - s, v - t;
    assert s + ds == u && t + dt == v;
    Step1D(a.x, b.x - a.x, s, u);
    Step1D(c.x, d.x - c.x, t, v);
    Step1D(a.y, b.y - a.y, s, u);
    Step1D(c.y, d.y - c.y, t, v);
  }

  lemma {:induction false} Step1D(a: real, u: real, s: real, e: real)
    ensures (e - s) * u == (a + e * u) - (a + s * u)
  {
  }

  /** Some motion takes the two points out of their segments' insides and never apart. */
  lemma {:induction false} WayOut(a: Point, b: Point, c: Point, d: Point, s: real, t: real, p: Point, q: Point)
    returns (ds: real, dt: real, stay: real)
    requires 0.0 <= s <= 1.0 && 0.0 <= t <= 1.0 && p == Along(a, b, s) && q == Along(c, d, t)
    requires !ProperlyCross(a, b, c, d)
    ensures stay == 0.0 || stay == 1.0
    ensures !(0.0 < s + ds < 1.0 && 0.0 < t + dt < 1.0)
    ensures Closes(ds, dt, a.x, b.x, c.x, d.x, stay, p.x - q.x)
    ensures Closes(ds, dt, a.y, b.y, c.y, d.y, stay, p.y - q.y)
  {
    hide Turn, Along;
    if Turn(a, b, c, d) == 0.0 {
      ds, dt := SlideAlong(a, b, c, d);
      stay := 0.0;
    } else {
      ds, dt := MoveTogether(a, b, c, d, s, t, p, q);
      stay := 1.0;
    }
  }

  /** The end-to-segment distances are enough: segments that do not properly cross, and whose
      ends keep a distance, keep it at every pair of points. */
  lemma {:induction false} EndsDecide(a: Point, b: Point, c: Point, d: Point, s: real, t: real)
    requires Intersection(a, b, c, d) == None
    requires 0.0 <= s <= 1.0 && 0.0 <= t <= 1.0
    ensures Dist2(Along(a, b, s), Along(c, d, t)) >= SegmentDistance2(a, b, c, d)
  {
    IntersectionIsExact(a, b, c, d);
    hide *;
    var p, q := Along(a, b, s), Along(c, d, t);
    var ds, dt, stay := WayOut(a, b, c, d, s, t, p, q);
    var f := ExitSquare(s, t, ds, dt);
    DistanceShrinks(a, b, c, d, s, t, ds, dt, f, stay, p, q);
    EndsAreFar(a, b, c, d, s + f * ds, t + f * dt);
  }

  /** What the two tests of `grow` and `canLink` together establish. */
  lemma {:induction false} TestsKeepApart(a: Point, b: Point, c: Point, d: Point, k: real)
    requires Intersection(a, b, c, d) == None && SegmentDistance2(a, b, c, d) >= k
    ensures Apart(a, b, c, d, k)
  {
    hide Intersection, SegmentDistance2, Dist2, Along;
    forall s: real, t: real | 0.0 <= s <= 1.0 && 0.0 <= t <= 1.0
      ensures Dist2(Along(a, b, s), Along(c, d, t)) >= k
    {
      EndsDecide(a, b, c, d, s, t);
    }
  }

  lemma {:induction false} AlongReversed(a: Point, b: Point, s: real)
    ensures Along(a, b, s) == Along(b, a, 1.0 - s)
  {
    assert (1.0 - s) * (a.x - b.x) == (a.x - b.x) + s * (b.x - a.x);
    assert (1.0 - s) * (a.y - b.y) == (a.y - b.y) + s * (b.y - a.y);
  }

  /** Which way a segment runs does not matter. */
  lemma {:induction false} NearestReversed(p: Point, a: Point, b: Point)
    ensures PointToSegment2(p, b, a) == PointToSegment2(p, a, b)
  {
    var s, t := NearestAt(p, a, b), NearestAt(p, b, a);
    AlongReversed(a, b, s);
    AlongReversed(b, a, t);
    hide *;
    PointToSegmentIs(p, a, b);
    PointToSegmentIs(p, b, a);
    NearestIsNearest(p, b, a, 1.0 - s);
    NearestIsNearest(p, a, b, 1.0 - t);
  }
}
