/** Real-number stand-ins for the numpy/Python numerics the colour routines use:
    clipping, truncation toward zero (`int(...)`), sums, means, `linspace`,
    and the trapezoid rule of `numpy.trapz` with and without sample positions.
    Transcendental functions are passed around as function values; the facts a
    proof needs about them are stated as the predicates below and required
    explicitly by the lemmas that use them. */
module Numerics {

  /** numpy's `pi` (the double nearest to pi), as an exact real. */
  const PI: real := 3.141592653589793

  // ---------------------------------------------------------------------------
  // Facts about the transcendental library functions

  /** `numpy.sqrt` of a non-negative value is non-negative. */
  ghost predicate RootNonNegative(sqrt: real -> real)
  {
    forall v :: 0.0 <= v ==> 0.0 <= sqrt(v)
  }

  /** `numpy.arctan2` lies in (-pi, pi]. */
  ghost predicate AngleRange(atan2: (real, real) -> real)
  {
    forall y, x :: -PI < atan2(y, x) <= PI
  }

  /** `2 * pi`. */
  const TWO_PI: real := 2.0 * PI

  /** `b ** 2.0` is the square and `s ** 0.5` the non-negative square root. */
  ghost predicate RootFacts(pow: (real, real) -> real)
  {
    && (forall b :: pow(b, 2.0) == b * b)
    && (forall s :: 0.0 <= s ==> 0.0 <= pow(s, 0.5) && pow(s, 0.5) * pow(s, 0.5) == s)
  }

  /** The circle identity of `cos` and `sin`. */
  ghost predicate CircleFacts(cos: real -> real, sin: real -> real)
  {
    forall t :: cos(t) * cos(t) + sin(t) * sin(t) == 1.0
  }

  /** 2 pi periodicity of `cos` and `sin`. */
  ghost predicate PeriodicFacts(cos: real -> real, sin: real -> real)
  {
    forall t, u :: u == t - TWO_PI ==> cos(u) == cos(t) && sin(u) == sin(t)
  }

  /** `arctan2(dy, dx)` is the direction of (dx, dy): the radius times its
      cosine and sine gives the vector back. */
  ghost predicate PolarOfAtan2(atan2: (real, real) -> real, cos: real -> real, sin: real -> real,
                               pow: (real, real) -> real)
  {
    forall dy, dx :: dx != 0.0 || dy != 0.0 ==>
      pow(dx * dx + dy * dy, 0.5) * cos(atan2(dy, dx)) == dx &&
      pow(dx * dx + dy * dy, 0.5) * sin(atan2(dy, dx)) == dy
  }

  /** A direction t in (-pi, pi] along which (dx, dy) points is `arctan2(dy, dx)`. */
  ghost predicate Atan2OfPolar(atan2: (real, real) -> real, cos: real -> real, sin: real -> real)
  {
    forall dy, dx, t :: -PI < t <= PI && dy * cos(t) == dx * sin(t) && 0.0 < dx * cos(t) + dy * sin(t) ==>
      atan2(dy, dx) == t
  }

  /** A quarter turn: cos(t + pi/2) = -sin(t) and sin(t + pi/2) = cos(t). */
  ghost predicate QuarterTurnFacts(cos: real -> real, sin: real -> real)
  {
    forall t, u :: u == t + PI / 2.0 ==> cos(u) == -sin(t) && sin(u) == cos(t)
  }

  /** Everything converting between rectangular and polar coordinates relies on. */
  ghost predicate PolarFacts(atan2: (real, real) -> real, cos: real -> real, sin: real -> real,
                             pow: (real, real) -> real)
  {
    && AngleRange(atan2) && RootFacts(pow) && CircleFacts(cos, sin) && PeriodicFacts(cos, sin)
    && PolarOfAtan2(atan2, cos, sin, pow) && Atan2OfPolar(atan2, cos, sin)
  }

  /** `x ** e` for the exponents used by the sRGB transfer function. */
  ghost predicate PowerFacts(pow: (real, real) -> real)
  {
    && (forall e :: pow(1.0, e) == 1.0)
    && (forall b, e :: 0.0 <= b ==> 0.0 <= pow(b, e))
    && (forall b, e :: 0.0 <= b <= 1.0 && 0.0 < e ==> pow(b, e) <= 1.0)
  }

  /** `x ** e` grows with a non-negative base for a positive exponent, and
      shrinks with the exponent for a base in [0, 1]. */
  ghost predicate MonotoneFacts(pow: (real, real) -> real)
  {
    && (forall b1, b2, e :: 0.0 <= b1 <= b2 && 0.0 < e ==> pow(b1, e) <= pow(b2, e))
    && (forall b, e1, e2 :: 0.0 <= b <= 1.0 && 0.0 < e1 <= e2 ==> pow(b, e2) <= pow(b, e1))
  }

  /** `(dx ** 2.0 + dy ** 2.0) ** 0.5`, the Euclidean length of (dx, dy). */
  function Hypot(dx: real, dy: real, pow: (real, real) -> real): real
  {
    pow(pow(dx, 2.0) + pow(dy, 2.0), 0.5)
  }

  /** The length is non-negative, and zero for the zero vector. */
  lemma HypotFacts(dx: real, dy: real, pow: (real, real) -> real)
    requires RootFacts(pow)
    ensures 0.0 <= Hypot(dx, dy, pow)
    ensures dx == 0.0 && dy == 0.0 ==> Hypot(dx, dy, pow) == 0.0
  {
    if dx == 0.0 && dy == 0.0 {
      assert pow(dx, 2.0) + pow(dy, 2.0) == 0.0 * 0.0;
      RootUnique(pow(0.0 * 0.0, 0.5), 0.0);
    }
  }

  // ---------------------------------------------------------------------------
  // Elementary numerics

  /** `numpy.clip(v, lo, hi)` for `lo <= hi`. */
  function Clip(v: real, lo: real, hi: real): (r: real)
    requires lo <= hi
    ensures lo <= r <= hi
    ensures lo <= v <= hi <==> r == v
    ensures v < lo ==> r == lo
    ensures hi < v ==> r == hi
  {
    if v < lo then lo else if hi < v then hi else v
  }

  // Small facts about real division, kept apart so that each proof sees only
  // the products it needs.

  lemma DivSum(a: real, b: real, s: real)
    requires s != 0.0
    ensures a / s + b / s == (a + b) / s
  {
  }

  lemma DivBounds(a: real, s: real)
    requires 0.0 < s && 0.0 <= a
    ensures 0.0 <= a / s
    ensures a / s <= 1.0 <==> a <= s
    ensures 0.0 < a ==> 0.0 < a / s
  {
    if a / s <= 1.0 {
      assert a == (a / s) * s;
      assert (a / s) * s <= s;
    }
  }

  lemma DivCancel(a: real, b: real, s: real)
    requires s != 0.0 && b != 0.0
    ensures (a / s) / (b / s) == a / b
  {
  }

  lemma MulDivCancel(a: real, b: real)
    requires b != 0.0
    ensures b * (a / b) == a
  {
  }

  lemma DivPartition(a: real, b: real, c: real)
    requires a + b + c != 0.0
    ensures a / (a + b + c) + b / (a + b + c) + c / (a + b + c) == 1.0
  {
    var s := a + b + c;
    DivSum(a, b, s);
    DivSum(a + b, c, s);
  }

  /** Two non-negative numbers with equal squares are equal. */
  lemma RootUnique(p: real, q: real)
    requires 0.0 <= p && 0.0 <= q && p * p == q * q
    ensures p == q
  {
    if p < q {
      SquareStrict(p, q);
    } else if q < p {
      SquareStrict(q, p);
    }
  }

  lemma SquareOrder(a: real, b: real)
    requires 0.0 <= a && 0.0 <= b && a * a <= b * b
    ensures a <= b
  {
    if b < a {
      SquareStrict(b, a);
    }
  }

  lemma SquareStrict(a: real, b: real)
    requires 0.0 <= a < b
    ensures a * a < b * b
  {
    var d := b - a;
    assert b * b == a * a + d * (a + b);
    assert 0.0 < d * (a + b);
  }

  lemma MulNonNegative(a: real, b: real)
    requires 0.0 <= a && 0.0 <= b
    ensures 0.0 <= a * b
  {
  }

  lemma SquareNonNegative(v: real)
    ensures 0.0 <= v * v
  {
    if v < 0.0 {
      assert (-v) * (-v) == v * v;
      MulNonNegative(-v, -v);
    }
  }

  lemma SquareZero(v: real)
    requires v * v == 0.0
    ensures v == 0.0
  {
    if 0.0 <= v {
      RootUnique(v, 0.0);
    } else {
      assert (-v) * (-v) == v * v;
      RootUnique(-v, 0.0);
    }
  }

  /** Python's `int(v)` on a float: truncation toward zero. */
  function Trunc(v: real): (r: int)
    ensures 0.0 <= v ==> 0 <= r && r as real <= v < r as real + 1.0
    ensures v < 0.0 ==> r <= 0 && r as real - 1.0 < v <= r as real
  {
    if 0.0 <= v then v.Floor else -((-v).Floor)
  }

  lemma TruncOfInt(n: int)
    ensures Trunc(n as real) == n
  {
  }

  function Sum(s: seq<real>): real
  {
    if s == [] then 0.0 else s[0] + Sum(s[1..])
  }

  lemma {:induction false} SumAppend(s: seq<real>, v: real)
    ensures Sum(s + [v]) == Sum(s) + v
  {
    if s != [] {
      assert (s + [v])[1..] == s[1..] + [v];
      SumAppend(s[1..], v);
    }
  }

  lemma {:induction false} SumNonNegative(s: seq<real>)
    requires forall i :: 0 <= i < |s| ==> 0.0 <= s[i]
    ensures 0.0 <= Sum(s)
  {
    if s != [] {
      SumNonNegative(s[1..]);
    }
  }

  /** Python's `min` of a non-empty list. */
  function SeqMin(s: seq<real>): (r: real)
    requires |s| > 0
    ensures r in s
    ensures forall i :: 0 <= i < |s| ==> r <= s[i]
  {
    if |s| == 1 then s[0]
    else
      var rest := SeqMin(s[1..]);
      assert forall i :: 1 <= i < |s| ==> s[i] == s[1..][i - 1];
      if s[0] <= rest then s[0] else rest
  }

  /** Python's `max` of a non-empty list. */
  function SeqMax(s: seq<real>): (r: real)
    requires |s| > 0
    ensures r in s
    ensures forall i :: 0 <= i < |s| ==> s[i] <= r
  {
    if |s| == 1 then s[0]
    else
      var rest := SeqMax(s[1..]);
      assert forall i :: 1 <= i < |s| ==> s[i] == s[1..][i - 1];
      if rest <= s[0] then s[0] else rest
  }

  predicate StrictlyIncreasing(s: seq<real>)
  {
    forall i, j :: 0 <= i < j < |s| ==> s[i] < s[j]
  }

  /** Two ascending runs, the second starting above the end of the first, ascend together. */
  lemma IncreasingConcat(a: seq<real>, b: seq<real>)
    requires StrictlyIncreasing(a) && StrictlyIncreasing(b)
    requires |a| > 0 && |b| > 0 && a[|a| - 1] < b[0]
    ensures StrictlyIncreasing(a + b)
  {
    forall i, j | 0 <= i < j < |a + b| ensures (a + b)[i] < (a + b)[j] {
      if j < |a| {
      } else if i >= |a| {
      } else {
        assert a[i] <= a[|a| - 1];
        assert b[0] <= b[j - |a|];
      }
    }
  }

  /** `numpy.linspace(start, stop, n)`: n evenly spaced values, both ends included. */
  function Linspace(start: real, stop: real, n: nat): (r: seq<real>)
    ensures |r| == n
    ensures n >= 1 ==> r[0] == start
    ensures n >= 2 ==> r[n - 1] == stop
  {
    if n == 1 then [start]
    else
      var step := (stop - start) / ((n - 1) as real);
      seq(n, (i: int) requires 0 <= i < n => start + (i as real) * step)
  }

  /** linspace values ascend strictly when stop > start. */
  lemma LinspaceIncreasing(start: real, stop: real, n: nat, i: nat, j: nat)
    requires start < stop && i < j < n
    ensures Linspace(start, stop, n)[i] < Linspace(start, stop, n)[j]
  {
    var step := (stop - start) / ((n - 1) as real);
    assert 0.0 < step;
    assert Linspace(start, stop, n)[j] - Linspace(start, stop, n)[i] == ((j - i) as real) * step;
    assert 0.0 < ((j - i) as real) * step;
  }

  lemma LinspaceStrictlyIncreasing(start: real, stop: real, n: nat)
    requires start < stop
    ensures StrictlyIncreasing(Linspace(start, stop, n))
  {
    forall i, j | 0 <= i < j < n ensures Linspace(start, stop, n)[i] < Linspace(start, stop, n)[j] {
      LinspaceIncreasing(start, stop, n, i, j);
    }
  }

  /** linspace values stay within [start, stop] when start <= stop. */
  lemma LinspaceWithin(start: real, stop: real, n: nat, i: nat)
    requires start <= stop && i < n
    ensures start <= Linspace(start, stop, n)[i] <= stop
  {
    if n > 1 {
      var step := (stop - start) / ((n - 1) as real);
      assert 0.0 <= step;
      assert Linspace(start, stop, n)[i] == start + (i as real) * step;
      assert 0.0 <= (i as real) * step;
      var rest := (n - 1 - i) as real;
      assert 0.0 <= rest;
      assert stop - Linspace(start, stop, n)[i] == rest * step;
      assert 0.0 <= rest * step;
    }
  }

  /** ... and between stop and start when they come the other way round. */
  lemma LinspaceWithinReversed(start: real, stop: real, n: nat, i: nat)
    requires stop <= start && i < n
    ensures stop <= Linspace(start, stop, n)[i] <= start
  {
    if n > 1 {
      var step := (stop - start) / ((n - 1) as real);
      assert step <= 0.0;
      assert Linspace(start, stop, n)[i] == start + (i as real) * step;
      assert (i as real) * step <= 0.0;
      var rest := (n - 1 - i) as real;
      assert 0.0 <= rest;
      assert stop - Linspace(start, stop, n)[i] == rest * step;
      assert rest * step <= 0.0;
    }
  }

  // ---------------------------------------------------------------------------
  // numpy.trapz

  /** `numpy.trapz(y)` without sample positions: unit spacing is assumed. */
  function TrapzUnit(y: seq<real>): real
  {
    if |y| < 2 then 0.0 else (y[0] + y[1]) / 2.0 + TrapzUnit(y[1..])
  }

  /** Non-negative samples integrate to a non-negative value. */
  lemma {:induction false} TrapzUnitNonNegative(y: seq<real>)
    requires forall i :: 0 <= i < |y| ==> 0.0 <= y[i]
    ensures 0.0 <= TrapzUnit(y)
  {
    if |y| >= 2 {
      TrapzUnitNonNegative(y[1..]);
    }
  }

  /** `numpy.trapz(y, x)`: the trapezoid rule over the sample positions x. */
  function Trapz(y: seq<real>, x: seq<real>): real
    requires |y| == |x|
  {
    if |y| < 2 then 0.0 else (x[1] - x[0]) * (y[0] + y[1]) / 2.0 + Trapz(y[1..], x[1..])
  }

  /** The unit-spacing trapezoid rule is the plain sum less half of each end. */
  lemma {:induction false} TrapzUnitIsEndCorrectedSum(y: seq<real>)
    requires |y| >= 1
    ensures TrapzUnit(y) == Sum(y) - (y[0] + y[|y| - 1]) / 2.0
  {
    if |y| >= 2 {
      TrapzUnitIsEndCorrectedSum(y[1..]);
      assert y[1..][0] == y[1];
      assert y[1..][|y[1..]| - 1] == y[|y| - 1];
    }
  }

  /** With samples h apart, `trapz(y, x)` is h times the unit-spacing value; so
      `trapz(y)` agrees with `trapz(y, x)` exactly when the spacing is 1. */
  lemma {:induction false} TrapzUniformSpacing(y: seq<real>, x: seq<real>, h: real)
    requires |y| == |x|
    requires forall i :: 0 <= i < |x| - 1 ==> x[i + 1] - x[i] == h
    ensures Trapz(y, x) == h * TrapzUnit(y)
  {
    if |y| >= 2 {
      assert forall i :: 0 <= i < |x[1..]| - 1 ==> x[1..][i + 1] - x[1..][i] == h by {
        forall i | 0 <= i < |x[1..]| - 1 ensures x[1..][i + 1] - x[1..][i] == h {
          assert x[1..][i + 1] == x[i + 2] && x[1..][i] == x[i + 1];
        }
      }
      TrapzUniformSpacing(y[1..], x[1..], h);
      assert x[1] - x[0] == h;
      assert (x[1] - x[0]) * (y[0] + y[1]) / 2.0 == h * ((y[0] + y[1]) / 2.0);
    }
  }

  /** Non-negative samples over ascending positions integrate to a non-negative value. */
  lemma {:induction false} TrapzNonNegative(y: seq<real>, x: seq<real>)
    requires |y| == |x|
    requires forall i :: 0 <= i < |y| ==> 0.0 <= y[i]
    requires forall i :: 0 <= i < |x| - 1 ==> x[i] <= x[i + 1]
    ensures 0.0 <= Trapz(y, x)
  {
    if |y| >= 2 {
      assert forall i :: 0 <= i < |x[1..]| - 1 ==> x[1..][i] <= x[1..][i + 1] by {
        forall i | 0 <= i < |x[1..]| - 1 ensures x[1..][i] <= x[1..][i + 1] {
          assert x[1..][i + 1] == x[i + 2] && x[1..][i] == x[i + 1];
        }
      }
      TrapzNonNegative(y[1..], x[1..]);
      assert 0.0 <= x[1] - x[0];
      assert 0.0 <= (x[1] - x[0]) * (y[0] + y[1]);
    }
  }
}
