/** maths/correlated_color_temperature.py: the Planckian locus in CIE 1960 (u, v)
    tabulated over TEMPERATURES, isotherm endpoints and correlated colour
    temperature by distance minimisation. The uv locus (an `interp1d` over the
    blackbody chromaticities of TEMPERATURES, clamped outside it) is the
    parameter `locus`; `fmin`'s probes and solution are passed in as a `Search`. */
module CorrelatedColorTemperature {
  import opened Wrappers
  import opened Numerics
  import ColorConversion

  // ---------------------------------------------------------------------------
  // TEMPERATURES

  /** Five linspace blocks from 100 K to 1,000,000 K. */
  const TEMPERATURES: seq<real> :=
    Linspace(100.0, 1990.0, 16) + Linspace(2000.0, 3900.0, 16) + Linspace(4000.0, 7900.0, 16)
    + Linspace(8000.0, 99000.0, 8) + Linspace(100000.0, 1000000.0, 8)

  /** TEMPERATURES has 64 entries, ascends strictly, and runs from 100 to 1,000,000. */
  lemma {:induction false} TemperaturesIncreasing()
    ensures |TEMPERATURES| == 64
    ensures TEMPERATURES[0] == 100.0 && TEMPERATURES[63] == 1000000.0
    ensures StrictlyIncreasing(TEMPERATURES)
  {
    var b0, b1, b2 := Linspace(100.0, 1990.0, 16), Linspace(2000.0, 3900.0, 16), Linspace(4000.0, 7900.0, 16);
    var b3, b4 := Linspace(8000.0, 99000.0, 8), Linspace(100000.0, 1000000.0, 8);
    LinspaceStrictlyIncreasing(100.0, 1990.0, 16);
    LinspaceStrictlyIncreasing(2000.0, 3900.0, 16);
    LinspaceStrictlyIncreasing(4000.0, 7900.0, 16);
    LinspaceStrictlyIncreasing(8000.0, 99000.0, 8);
    LinspaceStrictlyIncreasing(100000.0, 1000000.0, 8);
    IncreasingConcat(b0, b1);
    IncreasingConcat(b0 + b1, b2);
    IncreasingConcat(b0 + b1 + b2, b3);
    IncreasingConcat(b0 + b1 + b2 + b3, b4);
  }

  const LOWEST: real := 100.0
  const HIGHEST: real := 1000000.0

  lemma TemperatureEnds()
    ensures TEMPERATURES[0] == LOWEST && TEMPERATURES[|TEMPERATURES| - 1] == HIGHEST
  {
    TemperaturesIncreasing();
  }

  // ---------------------------------------------------------------------------
  // CIE 1931 (x, y) <-> CIE 1960 (u, v)

  /** This module's `xy_to_uv`: unlike maths/color_conversion.py it accepts y = 0. */
  function XyToUv(x: real, y: real): (r: Result<(real, real)>)
    ensures r.Ok? <==> 0.0 <= x <= 1.0 && 0.0 <= y <= 1.0
    ensures r.Ok? ==> ColorConversion.XyToUvDenominator(x, y) >= 1.0
    ensures r.Ok? ==> (r.value.0 * ColorConversion.XyToUvDenominator(x, y) == 4.0 * x
                        && r.value.1 * ColorConversion.XyToUvDenominator(x, y) == 6.0 * y)
  {
    if !(0.0 <= x <= 1.0 && 0.0 <= y <= 1.0) then Err(AssertionError)
    else
      var den := ColorConversion.XyToUvDenominator(x, y);
      Ok((4.0 * x / den, 6.0 * y / den))
  }

  /** MacAdam's inverse undoes `XyToUv` whenever the uv range checks pass,
      which is exactly when 2x <= 4y + 1; this module's `uv_to_xy` is the one
      of maths/color_conversion.py. */
  lemma {:induction false} UvRoundTrip(x: real, y: real)
    requires 0.0 <= x <= 1.0 && 0.0 <= y <= 1.0
    ensures XyToUv(x, y).Ok?
    ensures var uv := XyToUv(x, y).value;
      (0.0 <= uv.0 <= 1.0 && 0.0 <= uv.1 <= 1.0) <==> 2.0 * x <= 4.0 * y + 1.0
    ensures 2.0 * x <= 4.0 * y + 1.0 ==>
      ColorConversion.UvToXy(XyToUv(x, y).value.0, XyToUv(x, y).value.1) == Ok((x, y))
  {
    var den := ColorConversion.XyToUvDenominator(x, y);
    var (u, v) := (4.0 * x / den, 6.0 * y / den);
    assert XyToUv(x, y).value == (u, v);
    assert 0.0 <= u && (u <= 1.0 <==> 4.0 * x <= den) by { DivBounds(4.0 * x, den); }
    assert 0.0 <= v <= 1.0 by { DivBounds(6.0 * y, den); }
    ColorConversion.MacAdamInverse(x, y);
  }

  /** The chromaticity x = 1, y = 0 is accepted here. */
  lemma XyToUvOnAxis()
    ensures XyToUv(1.0, 0.0) == Ok((4.0, 0.0))
    ensures ColorConversion.XyToUv(1.0, 0.0).Err?
  {
  }

  // ---------------------------------------------------------------------------
  // Isotherms

  /** The points 0.05 either side of `center`, perpendicular to `angle`
      (rotations -pi / 2 and pi / 2). Also used by maths/color_temperature.py. */
  function PerpendicularEnds(center: (real, real), angle: real, cos: real -> real, sin: real -> real)
    : ((real, real), (real, real))
  {
    var a1, a2 := angle + -PI / 2.0, angle + PI / 2.0;
    ((center.0 + 0.05 * cos(a1), center.1 + 0.05 * sin(a1)),
     (center.0 + 0.05 * cos(a2), center.1 + 0.05 * sin(a2)))
  }

  /** The two ends are symmetric about the center, each 0.05 from it, and the
      segment joining them is perpendicular to the direction (cos, sin) of `angle`. */
  lemma PerpendicularEndsGeometry(center: (real, real), angle: real, cos: real -> real, sin: real -> real)
    requires QuarterTurnFacts(cos, sin) && CircleFacts(cos, sin)
    ensures var (e1, e2) := PerpendicularEnds(center, angle, cos, sin);
      && (e1.0 + e2.0) / 2.0 == center.0 && (e1.1 + e2.1) / 2.0 == center.1
      && (e1.0 - center.0) * (e1.0 - center.0) + (e1.1 - center.1) * (e1.1 - center.1) == 0.0025
      && (e2.0 - center.0) * (e2.0 - center.0) + (e2.1 - center.1) * (e2.1 - center.1) == 0.0025
      && (e2.0 - e1.0) * cos(angle) + (e2.1 - e1.1) * sin(angle) == 0.0
  {
    var c, s := cos(angle), sin(angle);
    var a1, a2 := angle + -PI / 2.0, angle + PI / 2.0;
    assert angle == a1 + PI / 2.0;
    assert cos(angle) == -sin(a1) && sin(angle) == cos(a1);
    assert cos(a2) == -s && sin(a2) == c;
    assert c * c + s * s == 1.0;
    ScaledUnit(0.05, c, s);
  }

  lemma ScaledUnit(k: real, c: real, s: real)
    requires c * c + s * s == 1.0
    ensures (k * s) * (k * s) + (k * c) * (k * c) == k * k
    ensures (-(k * s) - k * s) * c + (k * c + k * c) * s == 0.0
  {
    assert (k * s) * (k * s) + (k * c) * (k * c) == (k * k) * (c * c + s * s);
  }

  /** The temperatures on either side of T used for the local direction of
      the locus: 100 K away, clamped into TEMPERATURES' range. */
  function Neighbours(temperature: real): (r: (real, real))
    ensures LOWEST <= r.0 && r.1 <= HIGHEST
    ensures r.0 == LOWEST || r.0 == temperature - 100.0
    ensures r.1 == HIGHEST || r.1 == temperature + 100.0
    ensures LOWEST <= temperature <= HIGHEST ==> r.0 <= temperature <= r.1
    ensures LOWEST + 100.0 <= temperature <= HIGHEST - 100.0 ==> r == (temperature - 100.0, temperature + 100.0)
  {
    (if LOWEST < temperature - 100.0 then temperature - 100.0 else LOWEST,
     if temperature + 100.0 < HIGHEST then temperature + 100.0 else HIGHEST)
  }

  datatype Isotherm = Isotherm(xy1: (real, real), xy2: (real, real), uv1: (real, real), uv2: (real, real))

  /** `isotherm_endpoints_from_temperature`: requires T > 0; the uv ends are
      0.05 either side of T's locus point, perpendicular to the locus between
      the neighbouring temperatures, and the xy ends are their `uv_to_xy`. */
  function IsothermEndpoints(temperature: real, locus: real -> (real, real), atan2: (real, real) -> real,
                             cos: real -> real, sin: real -> real): (r: Result<Isotherm>)
    ensures temperature <= 0.0 ==> r == Err(AssertionError)
    ensures r.Ok? ==> (r.value.uv1, r.value.uv2) == PerpendicularEnds(locus(temperature), LocusAngle(temperature, locus, atan2), cos, sin)
    ensures 0.0 < temperature ==>
      var uv := PerpendicularEnds(locus(temperature), LocusAngle(temperature, locus, atan2), cos, sin);
      (r.Ok? <==> ColorConversion.UvToXy(uv.0.0, uv.0.1).Ok? && ColorConversion.UvToXy(uv.1.0, uv.1.1).Ok?)
  {
    if temperature <= 0.0 then Err(AssertionError)
    else
      var uv := PerpendicularEnds(locus(temperature), LocusAngle(temperature, locus, atan2), cos, sin);
      var xy1 :- ColorConversion.UvToXy(uv.0.0, uv.0.1);
      var xy2 :- ColorConversion.UvToXy(uv.1.0, uv.1.1);
      Ok(Isotherm(xy1, xy2, uv.0, uv.1))
  }

  /** The direction of the locus between T's two neighbours. */
  function LocusAngle(temperature: real, locus: real -> (real, real), atan2: (real, real) -> real): real
  {
    var lo, hi := locus(Neighbours(temperature).0), locus(Neighbours(temperature).1);
    atan2(hi.1 - lo.1, hi.0 - lo.0)
  }

  /** The uv ends of T's isotherm (those `IsothermEndpoints` returns) have
      T's locus point as midpoint, and the isotherm is perpendicular to the
      chord between the neighbours' locus points. */
  lemma IsothermMidpoint(temperature: real, locus: real -> (real, real), atan2: (real, real) -> real,
                         cos: real -> real, sin: real -> real, pow: (real, real) -> real)
    requires QuarterTurnFacts(cos, sin) && CircleFacts(cos, sin) && PolarOfAtan2(atan2, cos, sin, pow)
    ensures var ends := PerpendicularEnds(locus(temperature), LocusAngle(temperature, locus, atan2), cos, sin);
      var c := locus(temperature);
      var lo, hi := locus(Neighbours(temperature).0), locus(Neighbours(temperature).1);
      && (ends.0.0 + ends.1.0) / 2.0 == c.0 && (ends.0.1 + ends.1.1) / 2.0 == c.1
      && (ends.1.0 - ends.0.0) * (hi.0 - lo.0) + (ends.1.1 - ends.0.1) * (hi.1 - lo.1) == 0.0
  {
    var lo, hi := locus(Neighbours(temperature).0), locus(Neighbours(temperature).1);
    PerpendicularToChord(locus(temperature), hi.0 - lo.0, hi.1 - lo.1, atan2, cos, sin, pow);
  }

  /** The ends about `c` perpendicular to the direction of (dx, dy) have `c` as
      midpoint and the segment between them is orthogonal to (dx, dy). */
  lemma PerpendicularToChord(c: (real, real), dx: real, dy: real, atan2: (real, real) -> real,
                             cos: real -> real, sin: real -> real, pow: (real, real) -> real)
    requires QuarterTurnFacts(cos, sin) && CircleFacts(cos, sin) && PolarOfAtan2(atan2, cos, sin, pow)
    ensures var (e1, e2) := PerpendicularEnds(c, atan2(dy, dx), cos, sin);
      && (e1.0 + e2.0) / 2.0 == c.0 && (e1.1 + e2.1) / 2.0 == c.1
      && (e2.0 - e1.0) * dx + (e2.1 - e1.1) * dy == 0.0
  {
    var angle := atan2(dy, dx);
    PerpendicularEndsGeometry(c, angle, cos, sin);
    var (e1, e2) := PerpendicularEnds(c, angle, cos, sin);
    if dx != 0.0 || dy != 0.0 {
      var radius := pow(dx * dx + dy * dy, 0.5);
      assert radius * cos(angle) == dx && radius * sin(angle) == dy;
      ScaledPerpendicular(e2.0 - e1.0, e2.1 - e1.1, cos(angle), sin(angle), radius);
    }
  }

  lemma ScaledPerpendicular(px: real, py: real, c: real, s: real, k: real)
    requires px * c + py * s == 0.0
    ensures px * (k * c) + py * (k * s) == 0.0
  {
    assert px * (k * c) + py * (k * s) == k * (px * c + py * s);
  }

  // ---------------------------------------------------------------------------
  // Correlated colour temperature

  /** `distance_to_temperature`: requires T > 0 and u, v in [0, 1]; the uv
      distance from (u, v) to T's locus point. */
  function DistanceToTemperature(temperature: real, u: real, v: real, locus: real -> (real, real),
                                 pow: (real, real) -> real): (r: Result<real>)
    ensures r.Ok? <==> 0.0 < temperature && 0.0 <= u <= 1.0 && 0.0 <= v <= 1.0
    ensures r.Err? ==> r.error == AssertionError
  {
    if !(0.0 < temperature && 0.0 <= u <= 1.0 && 0.0 <= v <= 1.0) then Err(AssertionError)
    else
      var c := locus(temperature);
      Ok(pow(pow(c.0 - u, 2.0) + pow(c.1 - v, 2.0), 0.5))
  }

  /** The distance is non-negative, and zero at T's own locus point. */
  lemma DistanceFacts(temperature: real, u: real, v: real, locus: real -> (real, real), pow: (real, real) -> real)
    requires RootFacts(pow)
    requires DistanceToTemperature(temperature, u, v, locus, pow).Ok?
    ensures 0.0 <= DistanceToTemperature(temperature, u, v, locus, pow).value
    ensures locus(temperature) == (u, v) ==> DistanceToTemperature(temperature, u, v, locus, pow).value == 0.0
  {
    var c := locus(temperature);
    if c == (u, v) {
      assert pow(c.0 - u, 2.0) + pow(c.1 - v, 2.0) == 0.0 * 0.0;
      RootUnique(pow(0.0 * 0.0, 0.5), 0.0);
    }
  }

  datatype Estimate = Estimate(temperature: int, distance: real, valid: bool)

  /** What `fmin` (Nelder-Mead from x0 = 6000) does with the objective: the
      temperatures it evaluates it at, in order, and the (temperature,
      distance) it returns. The simplex steps that choose the probes are not
      modelled; an evaluation that raises ends the search with its error. */
  datatype Search = Search(probes: seq<real>, solution: (real, real))

  /** `correlated_color_temperature`: after the u, v asserts, `fmin` evaluates
      `distance_to_temperature` at every probe, so the call raises when a probe
      is not a positive temperature; otherwise the solution's temperature is
      truncated to an int, and the estimate is valid when it lies within
      TEMPERATURES and the distance is at most 0.05. */
  function CorrelatedColorTemperature(u: real, v: real, search: Search, locus: real -> (real, real),
                                      pow: (real, real) -> real): (r: Result<Estimate>)
    ensures r.Ok? <==> (0.0 <= u <= 1.0 && 0.0 <= v <= 1.0 &&
                        forall i :: 0 <= i < |search.probes| ==> 0.0 < search.probes[i])
    ensures r.Err? ==> r.error == AssertionError
    ensures r.Ok? ==> r.value.temperature == Trunc(search.solution.0) && r.value.distance == search.solution.1
  {
    if !(0.0 <= u <= 1.0 && 0.0 <= v <= 1.0) then Err(AssertionError)
    else
      var _ :- MapAll(search.probes, t => DistanceToTemperature(t, u, v, locus, pow));
      var temperature := Trunc(search.solution.0);
      var t := temperature as real;
      Ok(Estimate(temperature, search.solution.1,
                  TEMPERATURES[0] <= t <= TEMPERATURES[|TEMPERATURES| - 1] && search.solution.1 <= 0.05))
  }

  /** A search from 6000 K towards a target near 1800 K that steps on to
      -600 K raises, though u and v are in range. */
  lemma OvershootRaises(u: real, v: real, solution: (real, real), locus: real -> (real, real),
                        pow: (real, real) -> real)
    requires 0.0 <= u <= 1.0 && 0.0 <= v <= 1.0
    ensures CorrelatedColorTemperature(u, v, Search([6000.0, 5400.0, 4200.0, 1800.0, -600.0], solution), locus, pow)
      == Err(AssertionError)
  {
    var probes := [6000.0, 5400.0, 4200.0, 1800.0, -600.0];
    assert !(0.0 < probes[4]);
  }

  /** The valid flag holds exactly when 100 <= T <= 1,000,000 and the distance
      is at most 0.05; when `fmin`'s distance is the distance at its
      temperature, a valid estimate's locus point lies within 0.05 of (u, v). */
  lemma ValidIff(u: real, v: real, search: Search, locus: real -> (real, real), pow: (real, real) -> real)
    requires CorrelatedColorTemperature(u, v, search, locus, pow).Ok?
    ensures var e := CorrelatedColorTemperature(u, v, search, locus, pow).value;
      e.valid <==> 100 <= e.temperature <= 1000000 && e.distance <= 0.05
    ensures var e := CorrelatedColorTemperature(u, v, search, locus, pow).value;
      e.valid && DistanceToTemperature(search.solution.0, u, v, locus, pow) == Ok(search.solution.1) ==>
        DistanceToTemperature(search.solution.0, u, v, locus, pow).value <= 0.05
  {
    TemperatureEnds();
  }
}
