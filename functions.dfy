/** maths/functions.py: the intersection of the two infinite lines through two
    segments, computed with homogeneous coordinates and cross products. The
    source's `(inf, inf)` sentinel for parallel lines is `Parallel` here.
    maths/color_blindness.py carries an identical copy (`intersection_two_segments`). */
module Functions {

  datatype Point = Point(x: real, y: real)

  datatype Intersection = Parallel | Meet(p: Point)

  /** numpy `cross` of two 3-vectors. */
  function Cross(u: (real, real, real), v: (real, real, real)): (real, real, real)
  {
    (u.1 * v.2 - u.2 * v.1, u.2 * v.0 - u.0 * v.2, u.0 * v.1 - u.1 * v.0)
  }

  /** A point in homogeneous coordinates, (x, y, 1). */
  function Homogeneous(p: Point): (real, real, real)
  {
    (p.x, p.y, 1.0)
  }

  /** The homogeneous line through two points. */
  function LineThrough(p: Point, q: Point): (real, real, real)
  {
    Cross(Homogeneous(p), Homogeneous(q))
  }

  /** `intersection_of_two_segments(a1, a2, b1, b2)`. */
  function IntersectionOfTwoSegments(a1: Point, a2: Point, b1: Point, b2: Point): Intersection
  {
    var h := Cross(LineThrough(a1, a2), LineThrough(b1, b2));
    if h.2 == 0.0 then Parallel else Meet(Point(h.0 / h.2, h.1 / h.2))
  }

  /** `p` lies on the line through `a` and `b`: (p - a) is parallel to (b - a). */
  predicate OnLine(p: Point, a: Point, b: Point)
  {
    (p.x - a.x) * (b.y - a.y) == (p.y - a.y) * (b.x - a.x)
  }

  /** The directions of the two segments are parallel (their 2-D cross product is 0). */
  predicate ParallelDirections(a1: Point, a2: Point, b1: Point, b2: Point)
  {
    (a2.x - a1.x) * (b2.y - b1.y) == (a2.y - a1.y) * (b2.x - b1.x)
  }

  // ---------------------------------------------------------------------------
  // Properties

  /** The homogeneous third coordinate is the 2-D cross product of the directions. */
  lemma ThirdCoordinate(a1: Point, a2: Point, b1: Point, b2: Point)
    ensures Cross(LineThrough(a1, a2), LineThrough(b1, b2)).2
         == (a2.x - a1.x) * (b2.y - b1.y) - (a2.y - a1.y) * (b2.x - b1.x)
  {
  }

  /** The sentinel is returned exactly for parallel (or collinear) segments. */
  lemma ParallelIff(a1: Point, a2: Point, b1: Point, b2: Point)
    ensures IntersectionOfTwoSegments(a1, a2, b1, b2) == Parallel <==> ParallelDirections(a1, a2, b1, b2)
  {
    ThirdCoordinate(a1, a2, b1, b2);
  }

  /** A homogeneous line vanishes on the point it is crossed into. */
  lemma CrossOrthogonal(l: (real, real, real), m: (real, real, real))
    ensures var h := Cross(l, m); l.0 * h.0 + l.1 * h.1 + l.2 * h.2 == 0.0
    ensures var h := Cross(l, m); m.0 * h.0 + m.1 * h.1 + m.2 * h.2 == 0.0
  {
  }

  /** A point satisfies the homogeneous equation of the line through `a`, `b`
      exactly when it lies on that line. */
  lemma LineEquation(p: Point, a: Point, b: Point)
    ensures var l := LineThrough(a, b); l.0 * p.x + l.1 * p.y + l.2 == 0.0 <==> OnLine(p, a, b)
  {
  }

  /** Dividing a homogeneous point through by its third coordinate keeps it on
      every line through it. */
  lemma Dehomogenize(l: (real, real, real), h: (real, real, real))
    requires h.2 != 0.0
    requires l.0 * h.0 + l.1 * h.1 + l.2 * h.2 == 0.0
    ensures l.0 * (h.0 / h.2) + l.1 * (h.1 / h.2) + l.2 == 0.0
  {
    assert l.0 * (h.0 / h.2) + l.1 * (h.1 / h.2) + l.2
        == (l.0 * h.0 + l.1 * h.1 + l.2 * h.2) / h.2;
  }

  /** A homogeneous point on the line through `a` and `b` is, once divided
      through, a point of that line. */
  lemma DehomogenizedOnLine(a: Point, b: Point, h: (real, real, real))
    requires h.2 != 0.0
    requires var l := LineThrough(a, b); l.0 * h.0 + l.1 * h.1 + l.2 * h.2 == 0.0
    ensures OnLine(Point(h.0 / h.2, h.1 / h.2), a, b)
  {
    Dehomogenize(LineThrough(a, b), h);
    LineEquation(Point(h.0 / h.2, h.1 / h.2), a, b);
  }

  /** A returned point lies on both lines. */
  lemma {:induction false} MeetOnBothLines(a1: Point, a2: Point, b1: Point, b2: Point)
    requires IntersectionOfTwoSegments(a1, a2, b1, b2).Meet?
    ensures var p := IntersectionOfTwoSegments(a1, a2, b1, b2).p;
      OnLine(p, a1, a2) && OnLine(p, b1, b2)
  {
    var h := Cross(LineThrough(a1, a2), LineThrough(b1, b2));
    CrossOrthogonal(LineThrough(a1, a2), LineThrough(b1, b2));
    DehomogenizedOnLine(a1, a2, h);
    DehomogenizedOnLine(b1, b2, h);
  }

  /** Cramer's rule for two linear equations in x and y. */
  lemma Cramer(a: real, b: real, c: real, d: real, e: real, f: real, x: real, y: real)
    requires a * x + b * y + c == 0.0
    requires d * x + e * y + f == 0.0
    ensures (a * e - b * d) * x == b * f - c * e
    ensures (a * e - b * d) * y == c * d - a * f
  {
    assert e * (a * x + b * y + c) - b * (d * x + e * y + f) == 0.0;
    assert d * (a * x + b * y + c) - a * (d * x + e * y + f) == 0.0;
  }

  lemma QuotientOf(k: real, x: real, v: real)
    requires k != 0.0 && k * x == v
    ensures x == v / k
  {
  }

  /** The homogeneous point of two lines solves both of their equations, and
      nothing else does. */
  lemma SolutionOfTwoLines(l: (real, real, real), m: (real, real, real), x: real, y: real)
    requires Cross(l, m).2 != 0.0
    requires l.0 * x + l.1 * y + l.2 == 0.0
    requires m.0 * x + m.1 * y + m.2 == 0.0
    ensures x == Cross(l, m).0 / Cross(l, m).2 && y == Cross(l, m).1 / Cross(l, m).2
  {
    var h := Cross(l, m);
    Cramer(l.0, l.1, l.2, m.0, m.1, m.2, x, y);
    QuotientOf(h.2, x, h.0);
    QuotientOf(h.2, y, h.1);
  }

  /** Two lines that are not parallel share only the returned point. */
  lemma {:induction false} MeetIsUnique(a1: Point, a2: Point, b1: Point, b2: Point, q: Point)
    requires IntersectionOfTwoSegments(a1, a2, b1, b2).Meet?
    requires OnLine(q, a1, a2) && OnLine(q, b1, b2)
    ensures q == IntersectionOfTwoSegments(a1, a2, b1, b2).p
  {
    LineEquation(q, a1, a2);
    LineEquation(q, b1, b2);
    SolutionOfTwoLines(LineThrough(a1, a2), LineThrough(b1, b2), q.x, q.y);
  }

  function Negated(u: (real, real, real)): (real, real, real)
  {
    (-u.0, -u.1, -u.2)
  }

  lemma CrossAntisymmetric(u: (real, real, real), v: (real, real, real))
    ensures Cross(v, u) == Negated(Cross(u, v))
  {
  }

  lemma NegatedProduct(p: real, q: real)
    ensures (-p) * q == -(p * q)
  {
  }

  lemma CrossNegatedLeft(u: (real, real, real), v: (real, real, real))
    ensures Cross(Negated(u), v) == Negated(Cross(u, v))
  {
    var c := Cross(Negated(u), v);
    assert c.0 == -Cross(u, v).0 by { NegatedProduct(u.1, v.2); NegatedProduct(u.2, v.1); }
    assert c.1 == -Cross(u, v).1 by { NegatedProduct(u.2, v.0); NegatedProduct(u.0, v.2); }
    assert c.2 == -Cross(u, v).2 by { NegatedProduct(u.0, v.1); NegatedProduct(u.1, v.0); }
  }

  lemma NegatedRatio(p: real, q: real)
    requires q != 0.0
    ensures (-p) / (-q) == p / q
  {
  }

  /** Exchanging the two segments, or the ends of a segment, changes nothing. */
  lemma {:induction false} SwapSymmetry(a1: Point, a2: Point, b1: Point, b2: Point)
    ensures IntersectionOfTwoSegments(b1, b2, a1, a2) == IntersectionOfTwoSegments(a1, a2, b1, b2)
    ensures IntersectionOfTwoSegments(a2, a1, b1, b2) == IntersectionOfTwoSegments(a1, a2, b1, b2)
  {
    var l := LineThrough(a1, a2);
    var m := LineThrough(b1, b2);
    var h := Cross(l, m);
    CrossAntisymmetric(l, m);
    CrossAntisymmetric(Homogeneous(a1), Homogeneous(a2));
    CrossNegatedLeft(l, m);
    if h.2 != 0.0 {
      NegatedRatio(h.0, h.2);
      NegatedRatio(h.1, h.2);
    }
  }

  /** The diagonals of the unit square meet at its centre. */
  lemma DiagonalsMeet()
    ensures IntersectionOfTwoSegments(Point(0.0, 0.0), Point(1.0, 1.0), Point(0.0, 1.0), Point(1.0, 0.0))
         == Meet(Point(0.5, 0.5))
  {
    var l := LineThrough(Point(0.0, 0.0), Point(1.0, 1.0));
    var m := LineThrough(Point(0.0, 1.0), Point(1.0, 0.0));
    assert l == (-1.0, 1.0, 0.0);
    assert m == (1.0, 1.0, -1.0);
    assert Cross(l, m) == (-1.0, -1.0, -2.0);
  }

  /** Opposite sides of the unit square do not meet. */
  lemma OppositeSidesParallel()
    ensures IntersectionOfTwoSegments(Point(0.0, 0.0), Point(1.0, 0.0), Point(0.0, 1.0), Point(1.0, 1.0))
         == Parallel
  {
    var l := LineThrough(Point(0.0, 0.0), Point(1.0, 0.0));
    var m := LineThrough(Point(0.0, 1.0), Point(1.0, 1.0));
    assert l == (0.0, 1.0, 0.0);
    assert m == (0.0, 1.0, -1.0);
  }
}
