/** maths/coloration.py: the filled regions of the diagrams. The display gamut
    triangle is filled with saturated colours. The region around white is
    filled out to the spectrum locus. Saturation surfaces are built in RGB or
    xyY. A visible spectrum is drawn as coloured bands. The grid and band
    geometry lives in Grids; this module adds the argument checks and the
    colour conversions. */
module Coloration {
  import opened Wrappers
  import opened LinearAlgebra
  import opened Numerics
  import opened Functions
  import opened ColorConversion
  import CC = ChromaticityConversion
  import Transfer
  import opened Grids

  // ---------------------------------------------------------------------------
  // Chromaticity of a display colour

  /** `xyz_to_xyy(*rgb_to_xyz(*rgb, display, apply_gamma_correction), display)`
      with warnings left on. */
  function RgbToXyy(rgb: Vec3, d: Display, gamma: bool, crt: Mat3, pow: (real, real) -> real): (r: Result<Vec3>)
    ensures !rgb.InUnitCube() ==> r == Err(AssertionError)
  {
    var xyz :- RgbToXyz(rgb, d, gamma, false, crt, pow);
    XyzToXyy(xyz.xyz, d, crt)
  }

  /** On the sRGB and interior displays every colour of the unit cube has an
      xyY value: its XYZ values are non-negative, and black gets white's
      chromaticity. */
  lemma XyyDefined(rgb: Vec3, d: Display, gamma: bool, crt: Mat3, pow: (real, real) -> real)
    requires rgb.InUnitCube() && (d == Srgb || d == Interior)
    requires gamma ==> PowerFacts(pow)
    ensures RgbToXyy(rgb, d, gamma, crt, pow).Ok?
  {
    var linear := if d == Srgb && gamma then Transfer.DecodeAll(rgb, pow) else rgb;
    if d == Srgb && gamma {
      Transfer.DecodeAllWithinUnit(rgb, pow);
    }
    NonNegativeDisplays(d, crt, linear);
    var xyz := Apply(RgbToXyzMatrix(d, crt), linear);
    assert RgbToXyz(rgb, d, gamma, false, crt, pow).value.xyz == xyz;
  }

  /** The xy part of `RgbToXyy`. */
  function ChromaticityOf(rgb: Vec3, d: Display, gamma: bool, crt: Mat3, pow: (real, real) -> real): Result<Point>
  {
    var v :- RgbToXyy(rgb, d, gamma, crt, pow);
    Ok(Point(v.a, v.b))
  }

  // ---------------------------------------------------------------------------
  // Chromaticity inside gamut

  /** The projection `chromaticity_inside_gamut` applies to every corner. */
  function InsideProjection(d: Display, gamma: bool, crt: Mat3, pow: (real, real) -> real): Vec3 -> Result<Point>
  {
    (rgb: Vec3) => ChromaticityOf(rgb, d, gamma, crt, pow)
  }

  /** `chromaticity_inside_gamut`: resolution at least 2 and a known display;
      otherwise the fill of the gamut triangle in xy. */
  method ChromaticityInsideGamut(resolution: int, display: Option<string>, gamma: Option<bool>, crt: Mat3,
                                 pow: (real, real) -> real)
    returns (r: Result<(seq<seq<Point>>, seq<Vec3>)>)
    ensures resolution < 2 || ParseDisplay(display).Err? ==> r == Err(AssertionError)
    ensures 2 <= resolution && ParseDisplay(display).Ok? ==>
      Filled(r, resolution, InsideProjection(ParseDisplay(display).value, gamma == Some(true), crt, pow))
  {
    if resolution < 2 {
      return Err(AssertionError);
    }
    var d :- ParseDisplay(display);
    r := FillTriangle(resolution, InsideProjection(d, gamma == Some(true), crt, pow));
  }

  /** On the sRGB and interior displays the fill always succeeds: there are
      3 (n - 1)^2 closed five-vertex paths and as many saturated colours. */
  lemma InsideGamutSucceeds(r: Result<(seq<seq<Point>>, seq<Vec3>)>, n: nat, d: Display, gamma: bool,
                            crt: Mat3, pow: (real, real) -> real)
    requires 2 <= n && (d == Srgb || d == Interior)
    requires gamma ==> PowerFacts(pow)
    requires Filled(r, n, InsideProjection(d, gamma, crt, pow))
    ensures r.Ok?
    ensures |r.value.0| == 3 * (n - 1) * (n - 1) && |r.value.1| == |r.value.0|
    ensures forall k :: 0 <= k < |r.value.0| ==> |r.value.0[k]| == 5 && r.value.0[k][0] == r.value.0[k][4]
    ensures forall k :: 0 <= k < |r.value.1| ==>
      r.value.1[k].InUnitCube() && exists f :: 0 <= f < 3 && r.value.1[k].At(f) == 1.0
  {
    var project := InsideProjection(d, gamma, crt, pow);
    forall c | CellValid(c, n) ensures MapAll(CellVertices(c, n), project).Ok? {
      CellProjects(c, n, d, gamma, crt, pow);
    }
    assert r.Ok?;
    FilledShape(r.value.0, r.value.1, n, project);
  }

  /** Every vertex of a grid cell has a chromaticity. */
  lemma CellProjects(c: Cell, n: nat, d: Display, gamma: bool, crt: Mat3, pow: (real, real) -> real)
    requires CellValid(c, n) && (d == Srgb || d == Interior) && (gamma ==> PowerFacts(pow))
    ensures MapAll(CellVertices(c, n), InsideProjection(d, gamma, crt, pow)).Ok?
  {
    CellGeometry(c, n);
    var vs := CellVertices(c, n);
    forall k | 0 <= k < |vs| ensures InsideProjection(d, gamma, crt, pow)(vs[k]).Ok? {
      XyyDefined(vs[k], d, gamma, crt, pow);
    }
  }

  // ---------------------------------------------------------------------------
  // Saturated colours around white

  /** A display's white chromaticity, the safe distance and the safe
      luminance. The safe distance is three quarters of white's distance to
      cyan. The safe luminance is that of blue. */
  datatype Saturation = Saturation(white: Point, distance: real, luminance: real)

  function SaturationOf(d: Display, crt: Mat3, pow: (real, real) -> real): Result<Saturation>
  {
    var white :- RgbToXyy(Vec3(1.0, 1.0, 1.0), d, false, crt, pow);
    var cyan :- RgbToXyy(Vec3(0.0, 1.0, 1.0), d, false, crt, pow);
    var blue :- RgbToXyy(Vec3(0.0, 0.0, 1.0), d, false, crt, pow);
    Ok(Saturation(Point(white.a, white.b), 0.75 * Hypot(white.a - cyan.a, white.b - cyan.b, pow), blue.c))
  }

  /** On sRGB the white is D65, the safe luminance is blue's Y of 0.0722, and
      the safe distance is positive. */
  lemma SrgbSaturation(crt: Mat3, pow: (real, real) -> real)
    requires RootFacts(pow)
    ensures SaturationOf(Srgb, crt, pow).Ok?
    ensures var s := SaturationOf(Srgb, crt, pow).value;
      s.white == CC.D65_WHITE && s.luminance == 0.0722 && 0.0 < s.distance
  {
    var white := RgbToXyy(Vec3(1.0, 1.0, 1.0), Srgb, false, crt, pow);
    var cyan := RgbToXyy(Vec3(0.0, 1.0, 1.0), Srgb, false, crt, pow);
    var blue := RgbToXyy(Vec3(0.0, 0.0, 1.0), Srgb, false, crt, pow);
    assert white == Ok(Vec3(0.9505 / 3.0395, 1.0 / 3.0395, 1.0));
    assert cyan == Ok(Vec3(0.5381 / 2.3952, 0.7874 / 2.3952, 0.7874));
    assert blue == Ok(Vec3(0.1805 / 1.2032, 0.0722 / 1.2032, 0.0722));
    var dx := white.value.a - cyan.value.a;
    assert dx != 0.0;
    var s := pow(dx, 2.0) + pow(white.value.b - cyan.value.b, 2.0);
    assert 0.0 < s;
    var root := pow(s, 0.5);
    assert root * root == s;
    assert 0.0 < root;
  }

  /** `min(color)` and `max(color)` over the three channels. */
  function Min3(c: Vec3): (m: real)
    ensures m <= c.a && m <= c.b && m <= c.c && (m == c.a || m == c.b || m == c.c)
  {
    if c.a <= c.b && c.a <= c.c then c.a else if c.b <= c.c then c.b else c.c
  }

  function Max3(c: Vec3): (m: real)
    ensures c.a <= m && c.b <= m && c.c <= m && (m == c.a || m == c.b || m == c.c)
  {
    if c.a >= c.b && c.a >= c.c then c.a else if c.b >= c.c then c.b else c.c
  }

  /** `(value - min(color)) / ptp(color)` on each channel. A grey colour
      (zero range) is a division by zero. The result spans [0, 1] exactly,
      and the order of the channels is kept. */
  function Rescale(c: Vec3): (r: Result<Vec3>)
    ensures r.Ok? <==> Min3(c) < Max3(c)
    ensures r.Err? ==> r.error == ZeroDivision
    ensures r.Ok? ==> r.value.InUnitCube() && Min3(r.value) == 0.0 && Max3(r.value) == 1.0
    ensures r.Ok? ==>
      && (c.a <= c.b <==> r.value.a <= r.value.b)
      && (c.b <= c.c <==> r.value.b <= r.value.c)
      && (c.a <= c.c <==> r.value.a <= r.value.c)
  {
    var lo := Min3(c);
    var range := Max3(c) - lo;
    if range == 0.0 then Err(ZeroDivision)
    else
      var v := Vec3((c.a - lo) / range, (c.b - lo) / range, (c.c - lo) / range);
      RescaleFacts(c, lo, range, v);
      Ok(v)
  }

  lemma RescaleFacts(c: Vec3, lo: real, range: real, v: Vec3)
    requires lo == Min3(c) && range == Max3(c) - lo && range != 0.0
    requires v == Vec3((c.a - lo) / range, (c.b - lo) / range, (c.c - lo) / range)
    ensures v.InUnitCube() && Min3(v) == 0.0 && Max3(v) == 1.0
    ensures (c.a <= c.b <==> v.a <= v.b) && (c.b <= c.c <==> v.b <= v.c) && (c.a <= c.c <==> v.a <= v.c)
  {
    assert 0.0 < range;
    QuotientMonotone(c.a - lo, c.b - lo, range);
    QuotientMonotone(c.b - lo, c.c - lo, range);
    QuotientMonotone(c.a - lo, c.c - lo, range);
    QuotientMonotone(0.0, c.a - lo, range);
    QuotientMonotone(0.0, c.b - lo, range);
    QuotientMonotone(0.0, c.c - lo, range);
    QuotientMonotone(c.a - lo, range, range);
    QuotientMonotone(c.b - lo, range, range);
    QuotientMonotone(c.c - lo, range, range);
  }

  lemma QuotientMonotone(p: real, q: real, d: real)
    requires 0.0 < d
    ensures p <= q <==> p / d <= q / d
    ensures p / d == 0.0 <==> p == 0.0
    ensures d / d == 1.0 && (p / d == 1.0 <==> p == d)
  {
    assert p / d * d == p && q / d * d == q;
  }

  /** The rescaling is undone by the original minimum and range: the ratios of
      the distances between channels are kept. */
  lemma {:induction false} RescaleInverse(c: Vec3)
    requires Rescale(c).Ok?
    ensures var (v, lo, range) := (Rescale(c).value, Min3(c), Max3(c) - Min3(c));
      c == Vec3(lo + range * v.a, lo + range * v.b, lo + range * v.c)
  {
    var (lo, range) := (Min3(c), Max3(c) - Min3(c));
    var v := Rescale(c).value;
    assert v == Vec3((c.a - lo) / range, (c.b - lo) / range, (c.c - lo) / range);
    assert range * ((c.a - lo) / range) == c.a - lo;
    assert range * ((c.b - lo) / range) == c.b - lo;
    assert range * ((c.c - lo) / range) == c.c - lo;
  }

  /** The xy point at `angle` and the safe distance from white. */
  function SaturatedTarget(angle: real, sat: Saturation, cos: real -> real, sin: real -> real): Point
  {
    CC.RectangularAbout(sat.white, angle, sat.distance, cos, sin)
  }

  /** The display colour of that point at the safe luminance: `xyy_to_xyz`
      and then `xyz_to_rgb` without gamma correction. */
  function DisplayColor(angle: real, sat: Saturation, d: Display, crt: Mat3, pow: (real, real) -> real,
                        cos: real -> real, sin: real -> real): (r: Result<Vec3>)
    requires d == Crt ==> Det(crt) != 0.0
    ensures r.Ok? ==> r.value.NonNegative()
  {
    var target := SaturatedTarget(angle, sat, cos, sin);
    var xyz :- XyyToXyz(Vec3(target.x, target.y, sat.luminance));
    var rgb :- XyzToRgb(xyz, d, false, false, crt, pow);
    Ok(rgb.rgb)
  }

  /** The saturated colours for a list of hue angles. Every display colour is
      computed before any is rescaled, as the two comprehensions of the source
      do. Each result has its smallest channel at 0 and its largest at 1. */
  function SaturatedColors(angles: seq<real>, d: Display, crt: Mat3, pow: (real, real) -> real,
                           cos: real -> real, sin: real -> real): (r: Result<seq<Vec3>>)
    requires d == Crt ==> Det(crt) != 0.0
    ensures r.Ok? ==> SaturationOf(d, crt, pow).Ok? && |r.value| == |angles|
    ensures r.Ok? ==> forall i :: 0 <= i < |angles| ==>
      var rgb := DisplayColor(angles[i], SaturationOf(d, crt, pow).value, d, crt, pow, cos, sin);
      rgb.Ok? && Rescale(rgb.value) == Ok(r.value[i])
    ensures r.Ok? ==> forall i :: 0 <= i < |angles| ==>
      r.value[i].InUnitCube() && Min3(r.value[i]) == 0.0 && Max3(r.value[i]) == 1.0
  {
    var sat :- SaturationOf(d, crt, pow);
    var rgbs :- MapAll(angles, (a: real) => DisplayColor(a, sat, d, crt, pow, cos, sin));
    var colors :- MapAll(rgbs, Rescale);
    RescaledAll(rgbs, colors);
    Ok(colors)
  }

  lemma RescaledAll(rgbs: seq<Vec3>, colors: seq<Vec3>)
    requires MapAll(rgbs, Rescale) == Ok(colors)
    ensures |colors| == |rgbs|
    ensures forall i :: 0 <= i < |colors| ==>
      colors[i].InUnitCube() && Min3(colors[i]) == 0.0 && Max3(colors[i]) == 1.0
  {
    forall i | 0 <= i < |colors|
      ensures colors[i].InUnitCube() && Min3(colors[i]) == 0.0 && Max3(colors[i]) == 1.0
    {
      assert Rescale(rgbs[i]) == Ok(colors[i]);
    }
  }

  /** With the xy point of a colour angle in the hue window, the angle and the
      safe distance are its polar coordinates about white: each colour sits at
      its own hue. */
  lemma SaturatedTargetPolar(angle: real, sat: Saturation, atan2: (real, real) -> real, cos: real -> real,
                             sin: real -> real, pow: (real, real) -> real)
    requires PolarFacts(atan2, cos, sin, pow)
    requires CC.InHueRange(angle) && 0.0 < sat.distance
    ensures CC.PolarAbout(sat.white, SaturatedTarget(angle, sat, cos, sin), atan2, pow) == (angle, sat.distance)
  {
    CC.RectangularAboutRoundTrip(sat.white, angle, sat.distance, atan2, cos, sin, pow);
  }

  // ---------------------------------------------------------------------------
  // Chromaticity outside gamut

  /** The `resolution` colour angles: a full turn from -5 pi / 2 in equal steps,
      without the end. */
  function ColorAngles(n: nat): (r: seq<real>)
    requires 2 <= n
    ensures |r| == n
  {
    Linspace(0.0 - (5.0 / 2.0) * PI, TWO_PI * (1.0 - 1.0 / (n as real)) - (5.0 / 2.0) * PI, n)
  }

  /** The colour angles are evenly spaced by 2 pi / n, starting at -5 pi / 2.
      All of them lie in the hue window, and each path angle (colour angle
      less pi / n) sits halfway between two colour angles. */
  lemma {:induction false} ColorAnglesSpaced(n: nat, i: nat)
    requires 2 <= n && i < n
    ensures ColorAngles(n)[i] == CC.HUE_LOW + (i as real) * (TWO_PI / (n as real))
    ensures CC.InHueRange(ColorAngles(n)[i])
    ensures PathAngle(n, i) == CC.HUE_LOW + ((i as real) - 0.5) * (TWO_PI / (n as real))
  {
    var m := n as real;
    var start := 0.0 - (5.0 / 2.0) * PI;
    var stop := TWO_PI * (1.0 - 1.0 / m) - (5.0 / 2.0) * PI;
    var step := (stop - start) / (m - 1.0);
    assert ((n - 1) as real) == m - 1.0;
    assert stop - start == TWO_PI * (1.0 - 1.0 / m);
    assert (1.0 - 1.0 / m) * m == m - 1.0;
    assert (TWO_PI / m) * (m - 1.0) == TWO_PI * (1.0 - 1.0 / m) by {
      assert (TWO_PI / m) * m == TWO_PI;
      calc {
        (TWO_PI / m) * (m - 1.0);
        (TWO_PI / m) * ((1.0 - 1.0 / m) * m);
        ((TWO_PI / m) * m) * (1.0 - 1.0 / m);
      }
    }
    assert step == TWO_PI / m;
    var k := TWO_PI / m;
    assert 0.0 < k;
    assert (i as real) * k < m * k by {
      assert (i as real) < m;
    }
    assert m * k == TWO_PI;
    assert PI / m == 0.5 * k;
  }

  /** `angle - pi / resolution`: the colour angle offset back by half a step. */
  function PathAngle(n: nat, i: nat): real
    requires 2 <= n && i < n
  {
    ColorAngles(n)[i] - PI / (n as real)
  }

  /** Where the ray from white at `angle` stops. Within the locus's angle bounds
      it stops at the locus point of the wavelength that the angle maps to.
      Beyond them it stops on the line joining the two ends of the locus. */
  function Endpoint(angle: real, white: Point, locus: CC.Locus, atan2: (real, real) -> real,
                    cos: real -> real, sin: real -> real,
                    interp: (seq<real>, seq<real>, real) -> real): (r: Intersection)
    requires locus.Valid()
    ensures CC.Within(angle, CC.AngleBounds(locus, atan2)) ==>
      var wavelength := interp(CC.LocusAngles(locus, atan2), locus.wavelengths, angle);
      r == Meet(Point(interp(locus.wavelengths, locus.x, wavelength), interp(locus.wavelengths, locus.y, wavelength)))
    ensures !CC.Within(angle, CC.AngleBounds(locus, atan2)) ==>
      r == IntersectionOfTwoSegments(white, Point(white.x + 1.0 * cos(angle), white.y + 1.0 * sin(angle)),
                                     Point(locus.x[0], locus.y[0]),
                                     Point(locus.x[|locus.x| - 1], locus.y[|locus.y| - 1]))
  {
    if CC.Within(angle, CC.AngleBounds(locus, atan2)) then
      var wavelength := interp(CC.LocusAngles(locus, atan2), locus.wavelengths, angle);
      Meet(Point(interp(locus.wavelengths, locus.x, wavelength), interp(locus.wavelengths, locus.y, wavelength)))
    else
      IntersectionOfTwoSegments(white, Point(white.x + 1.0 * cos(angle), white.y + 1.0 * sin(angle)),
                                Point(locus.x[0], locus.y[0]),
                                Point(locus.x[|locus.x| - 1], locus.y[|locus.y| - 1]))
  }

  /** Outside the angle bounds the endpoint lies on the ray's line and on the
      line through the two ends of the locus, and it is the only such point. */
  lemma {:induction false} EndpointBeyondLocus(angle: real, white: Point, locus: CC.Locus,
                                               atan2: (real, real) -> real, cos: real -> real, sin: real -> real,
                                               interp: (seq<real>, seq<real>, real) -> real, q: Point)
    requires locus.Valid() && !CC.Within(angle, CC.AngleBounds(locus, atan2))
    requires Endpoint(angle, white, locus, atan2, cos, sin, interp).Meet?
    ensures var (p, ahead, first, last) := (Endpoint(angle, white, locus, atan2, cos, sin, interp).p,
                                            Point(white.x + 1.0 * cos(angle), white.y + 1.0 * sin(angle)),
                                            Point(locus.x[0], locus.y[0]),
                                            Point(locus.x[|locus.x| - 1], locus.y[|locus.y| - 1]));
      && OnLine(p, white, ahead) && OnLine(p, first, last)
      && (OnLine(q, white, ahead) && OnLine(q, first, last) ==> q == p)
  {
    var ahead := Point(white.x + 1.0 * cos(angle), white.y + 1.0 * sin(angle));
    var first := Point(locus.x[0], locus.y[0]);
    var last := Point(locus.x[|locus.x| - 1], locus.y[|locus.y| - 1]);
    EndpointOutside(angle, white, locus, atan2, cos, sin, interp);
    MeetOnlyPoint(white, ahead, first, last, q);
  }

  /** Outside the angle bounds the endpoint is the meeting of the ray's line
      with the line through the two ends of the locus. */
  lemma EndpointOutside(angle: real, white: Point, locus: CC.Locus,
                        atan2: (real, real) -> real, cos: real -> real, sin: real -> real,
                        interp: (seq<real>, seq<real>, real) -> real)
    requires locus.Valid() && !CC.Within(angle, CC.AngleBounds(locus, atan2))
    ensures Endpoint(angle, white, locus, atan2, cos, sin, interp)
         == IntersectionOfTwoSegments(white, Point(white.x + 1.0 * cos(angle), white.y + 1.0 * sin(angle)),
                                      Point(locus.x[0], locus.y[0]),
                                      Point(locus.x[|locus.x| - 1], locus.y[|locus.y| - 1]))
  {
  }

  /** A meeting of two lines lies on both, and no other point does. */
  lemma MeetOnlyPoint(a1: Point, a2: Point, b1: Point, b2: Point, q: Point)
    requires IntersectionOfTwoSegments(a1, a2, b1, b2).Meet?
    ensures var p := IntersectionOfTwoSegments(a1, a2, b1, b2).p;
      && OnLine(p, a1, a2) && OnLine(p, b1, b2)
      && (OnLine(q, a1, a2) && OnLine(q, b1, b2) ==> q == p)
  {
    MeetOnBothLines(a1, a2, b1, b2);
    if OnLine(q, a1, a2) && OnLine(q, b1, b2) {
      MeetIsUnique(a1, a2, b1, b2, q);
    }
  }

  /** The endpoints of all path angles. */
  function OutsideEndpoints(n: nat, white: Point, locus: CC.Locus, atan2: (real, real) -> real,
                            cos: real -> real, sin: real -> real,
                            interp: (seq<real>, seq<real>, real) -> real): (r: seq<Intersection>)
    requires 2 <= n && locus.Valid()
    ensures |r| == n
  {
    seq(n, (i: int) requires 0 <= i < n => Endpoint(PathAngle(n, i), white, locus, atan2, cos, sin, interp))
  }

  /** A fan around white: path i runs from white to endpoint i, on to the next
      endpoint (the last one wraps to the first), and back to white. */
  predicate Fan(paths: seq<seq<Intersection>>, white: Point, ends: seq<Intersection>)
  {
    && |paths| == |ends|
    && forall i :: 0 <= i < |paths| ==> paths[i] == [Meet(white), ends[i], ends[Next(i, |ends|)], Meet(white)]
  }

  /** The fan's wedges are closed, start at white, and go once around: each
      wedge shares its closing edge with the next. Every endpoint is the
      second vertex of its own wedge and the third vertex of the previous one. */
  lemma FanAroundWhite(paths: seq<seq<Intersection>>, white: Point, ends: seq<Intersection>)
    requires Fan(paths, white, ends)
    ensures forall i :: 0 <= i < |paths| ==>
      |paths[i]| == 4 && paths[i][0] == paths[i][3] == Meet(white)
    ensures forall i :: 0 <= i < |paths| ==> paths[i][2] == paths[Next(i, |paths|)][1]
    ensures forall i :: 0 <= i < |paths| ==>
      paths[i][1] == ends[i] && paths[Previous(i, |paths|)][2] == ends[i]
  {
    forall i | 0 <= i < |paths|
      ensures |paths[i]| == 4 && paths[i][0] == paths[i][3] == Meet(white)
      ensures paths[i][2] == paths[Next(i, |paths|)][1]
      ensures paths[i][1] == ends[i] && paths[Previous(i, |paths|)][2] == ends[i]
    {
      var n := |paths|;
      assert paths[i] == [Meet(white), ends[i], ends[Next(i, n)], Meet(white)];
      assert paths[Next(i, n)] == [Meet(white), ends[Next(i, n)], ends[Next(Next(i, n), n)], Meet(white)];
      assert Next(Previous(i, n), n) == i;
      assert paths[Previous(i, n)] == [Meet(white), ends[Previous(i, n)], ends[i], Meet(white)];
    }
  }

  /** The first loop of the path region: one endpoint per path angle. */
  method TraceEndpoints(n: nat, white: Point, locus: CC.Locus, atan2: (real, real) -> real,
                        cos: real -> real, sin: real -> real,
                        interp: (seq<real>, seq<real>, real) -> real)
    returns (endpoints: seq<Intersection>)
    requires 2 <= n && locus.Valid()
    ensures endpoints == OutsideEndpoints(n, white, locus, atan2, cos, sin, interp)
  {
    var bounds := CC.AngleBounds(locus, atan2);
    endpoints := [];
    for i := 0 to n
      invariant |endpoints| == i
      invariant forall k :: 0 <= k < i ==> endpoints[k] == Endpoint(PathAngle(n, k), white, locus, atan2, cos, sin, interp)
    {
      var angle := PathAngle(n, i);
      var end;
      if bounds.0 <= angle <= bounds.1 {
        var wavelength := interp(CC.LocusAngles(locus, atan2), locus.wavelengths, angle);
        end := Meet(Point(interp(locus.wavelengths, locus.x, wavelength), interp(locus.wavelengths, locus.y, wavelength)));
      } else {
        end := IntersectionOfTwoSegments(
          white, Point(white.x + 1.0 * cos(angle), white.y + 1.0 * sin(angle)),
          Point(locus.x[0], locus.y[0]), Point(locus.x[|locus.x| - 1], locus.y[|locus.y| - 1]));
      }
      assert end == Endpoint(angle, white, locus, atan2, cos, sin, interp);
      endpoints := endpoints + [end];
    }
  }

  /** The second loop of the path region: the wedge from white to each
      endpoint and the one after it. */
  method WhiteFan(white: Point, endpoints: seq<Intersection>) returns (paths: seq<seq<Intersection>>)
    ensures Fan(paths, white, endpoints)
  {
    var n := |endpoints|;
    paths := [];
    for first := 0 to n
      invariant |paths| == first
      invariant forall k :: 0 <= k < first ==> paths[k] == [Meet(white), endpoints[k], endpoints[Next(k, n)], Meet(white)]
    {
      var second := first + 1;
      if second >= n {
        second := 0;
      }
      assert second == Next(first, n);
      paths := paths + [[Meet(white), endpoints[first], endpoints[second], Meet(white)]];
    }
  }

  /** The arguments `chromaticity_outside_gamut` accepts. */
  predicate OutsideArgumentsValid(resolution: int, display: Option<string>, standard: Option<string>)
  {
    && 8 <= resolution
    && ParseDisplay(display).Ok? && ParseDisplay(display).value != Exterior
    && CC.ParseStandard(standard).Ok?
  }

  /** `chromaticity_outside_gamut`: resolution at least 8, a known display
      other than the exterior one, and a known standard. The colours are the
      saturated colours of the colour angles. The paths are a fan around white
      whose edges run to the endpoints of the path angles. */
  method ChromaticityOutsideGamut(resolution: int, display: Option<string>, standard: Option<string>,
                                  crt: Mat3, pow: (real, real) -> real, atan2: (real, real) -> real,
                                  cos: real -> real, sin: real -> real,
                                  interp: (seq<real>, seq<real>, real) -> real,
                                  loci: CC.Standard -> CC.Locus)
    returns (r: Result<(seq<seq<Intersection>>, seq<Vec3>)>)
    requires ParseDisplay(display) == Ok(Crt) ==> Det(crt) != 0.0
    requires forall s :: loci(s).Valid()
    ensures !OutsideArgumentsValid(resolution, display, standard) ==> r == Err(AssertionError)
    ensures OutsideArgumentsValid(resolution, display, standard) ==>
      var d := ParseDisplay(display).value;
      var locus := loci(CC.ParseStandard(standard).value);
      var colors := SaturatedColors(ColorAngles(resolution), d, crt, pow, cos, sin);
      && (r.Ok? <==> colors.Ok?)
      && (r.Err? ==> colors == Err(r.error))
      && (r.Ok? ==> r.value.1 == colors.value &&
                    Fan(r.value.0, SaturationOf(d, crt, pow).value.white,
                        OutsideEndpoints(resolution, SaturationOf(d, crt, pow).value.white, locus,
                                         atan2, cos, sin, interp)))
  {
    if resolution < 8 {
      return Err(AssertionError);
    }
    var d :- ParseDisplay(display);
    if d == Exterior {
      return Err(AssertionError);
    }
    var standardValue :- CC.ParseStandard(standard);
    r := OutsideGamutOf(resolution, d, loci(standardValue), crt, pow, atan2, cos, sin, interp);
  }

  /** The part of `chromaticity_outside_gamut` after the argument checks, for
      a parsed display and locus. */
  method OutsideGamutOf(resolution: int, d: Display, locus: CC.Locus,
                        crt: Mat3, pow: (real, real) -> real, atan2: (real, real) -> real,
                        cos: real -> real, sin: real -> real,
                        interp: (seq<real>, seq<real>, real) -> real)
    returns (r: Result<(seq<seq<Intersection>>, seq<Vec3>)>)
    requires 8 <= resolution && locus.Valid()
    requires d == Crt ==> Det(crt) != 0.0
    ensures var colors := SaturatedColors(ColorAngles(resolution), d, crt, pow, cos, sin);
      && (r.Ok? <==> colors.Ok?)
      && (r.Err? ==> colors == Err(r.error))
      && (r.Ok? ==> r.value.1 == colors.value &&
                    Fan(r.value.0, SaturationOf(d, crt, pow).value.white,
                        OutsideEndpoints(resolution, SaturationOf(d, crt, pow).value.white, locus,
                                         atan2, cos, sin, interp)))
  {
    var colors :- SaturatedColors(ColorAngles(resolution), d, crt, pow, cos, sin);
    var white := SaturationOf(d, crt, pow).value.white;
    var endpoints := TraceEndpoints(resolution, white, locus, atan2, cos, sin, interp);
    var paths := WhiteFan(white, endpoints);
    r := Ok((paths, colors));
  }

  // ---------------------------------------------------------------------------
  // Three-dimensional surface

  const COLOR_NAMES: seq<string> := ["Red", "Green", "Blue"]

  function LowerChar(ch: char): char
  {
    if 'A' <= ch <= 'Z' then (ch as int + 32) as char else ch
  }

  function UpperChar(ch: char): char
  {
    if 'a' <= ch <= 'z' then (ch as int - 32) as char else ch
  }

  predicate IsLetter(ch: char)
  {
    'A' <= ch <= 'Z' || 'a' <= ch <= 'z'
  }

  /** `str.lower` on ASCII letters. */
  function Lower(s: string): (r: string)
    ensures |r| == |s| && forall i :: 0 <= i < |s| ==> r[i] == LowerChar(s[i])
  {
    seq(|s|, (i: int) requires 0 <= i < |s| => LowerChar(s[i]))
  }

  /** `str.title` on ASCII letters: a letter is upper-cased when it follows a
      non-letter (or starts the string) and lower-cased otherwise. */
  function TitleFrom(s: string, afterLetter: bool): (r: string)
    ensures |r| == |s|
  {
    if |s| == 0 then ""
    else [if afterLetter then LowerChar(s[0]) else UpperChar(s[0])] + TitleFrom(s[1..], IsLetter(s[0]))
  }

  function Title(s: string): string
  {
    TitleFrom(s, false)
  }

  lemma LowerUpper(ch: char)
    ensures LowerChar(UpperChar(ch)) == LowerChar(ch) && LowerChar(LowerChar(ch)) == LowerChar(ch)
  {
  }

  /** Title case changes only the case of letters: lower-casing it gives the
      lower-cased string. */
  lemma {:induction false} LowerOfTitle(s: string, afterLetter: bool)
    ensures Lower(TitleFrom(s, afterLetter)) == Lower(s)
  {
    if |s| > 0 {
      LowerOfTitle(s[1..], IsLetter(s[0]));
      LowerUpper(s[0]);
      var t := TitleFrom(s, afterLetter);
      assert t == [t[0]] + TitleFrom(s[1..], IsLetter(s[0]));
      forall i | 0 <= i < |s| ensures Lower(t)[i] == Lower(s)[i] {
        if i > 0 {
          assert t[i] == TitleFrom(s[1..], IsLetter(s[0]))[i - 1];
          assert Lower(TitleFrom(s[1..], IsLetter(s[0])))[i - 1] == Lower(s[1..])[i - 1];
        }
      }
    }
  }

  lemma LowerIdempotent(s: string)
    ensures Lower(Lower(s)) == Lower(s)
  {
    forall i | 0 <= i < |s| ensures Lower(Lower(s))[i] == Lower(s)[i] {
      LowerUpper(s[i]);
    }
  }

  /** `COLOR_NAMES.index(color_name.lower().title())`, absent when the name is
      not one of them. */
  function ColorIndex(name: string): (r: Option<nat>)
    ensures r.Some? <==> Title(Lower(name)) in COLOR_NAMES
    ensures r.Some? ==> r.value < 3 && COLOR_NAMES[r.value] == Title(Lower(name))
  {
    var t := Title(Lower(name));
    if t == "Red" then Some(0) else if t == "Green" then Some(1) else if t == "Blue" then Some(2) else None
  }

  /** A colour name is accepted exactly when, ignoring case, it is one of
      "red", "green" or "blue". */
  lemma ColorNameAccepted(name: string)
    ensures ColorIndex(name).Some? <==> Lower(name) in ["red", "green", "blue"]
    ensures ColorIndex(name) == Some(0) <==> Lower(name) == "red"
    ensures ColorIndex(name) == Some(1) <==> Lower(name) == "green"
    ensures ColorIndex(name) == Some(2) <==> Lower(name) == "blue"
  {
    var t := Title(Lower(name));
    LowerOfTitle(Lower(name), false);
    LowerIdempotent(name);
    assert Lower(t) == Lower(name);
    NamesCase();
  }

  /** The three names, lower-cased and title-cased. */
  lemma NamesCase()
    ensures Lower("Red") == "red" && Lower("Green") == "green" && Lower("Blue") == "blue"
    ensures Title("red") == "Red" && Title("green") == "Green" && Title("blue") == "Blue"
  {
    NameCase("Red", "red");
    NameCase("Green", "green");
    NameCase("Blue", "blue");
  }

  /** A lower-case word and its capitalised form are each other's lower and
      title case. */
  lemma NameCase(capital: string, word: string)
    requires 0 < |word| == |capital| && capital[1..] == word[1..]
    requires forall i :: 0 <= i < |word| ==> 'a' <= word[i] <= 'z'
    requires capital[0] == UpperChar(word[0])
    ensures Lower(capital) == word && Title(word) == capital
  {
    TitleTail(word[1..]);
    assert Title(word) == [capital[0]] + word[1..];
    assert Lower(capital)[0] == word[0];
    assert forall i :: 1 <= i < |word| ==> Lower(capital)[i] == LowerChar(word[i]) == word[i];
  }

  /** Title case leaves a lower-case tail after a letter alone. */
  lemma {:induction false} TitleTail(s: string)
    requires forall i :: 0 <= i < |s| ==> 'a' <= s[i] <= 'z'
    ensures TitleFrom(s, true) == s
  {
    if |s| > 0 {
      TitleTail(s[1..]);
    }
  }

  /** The coordinates of a surface point: the colour itself when plotting
      RGB, its xyY value otherwise. */
  function SurfaceProjection(plotRgb: bool, d: Display, gamma: bool, crt: Mat3,
                             pow: (real, real) -> real): Vec3 -> Result<Vec3>
  {
    if plotRgb then AsCoordinates else (rgb: Vec3) => RgbToXyy(rgb, d, gamma, crt, pow)
  }

  /** The arguments `three_dimensional_surface` accepts. */
  predicate SurfaceArgumentsValid(resolution: int, colorName: string, colorValue: real, display: Option<string>)
  {
    2 <= resolution && ColorIndex(colorName).Some? && 0.0 <= colorValue <= 1.0 && ParseDisplay(display).Ok?
  }

  /** `three_dimensional_surface`: resolution at least 2, a colour name, a
      value in [0, 1] and a known display; otherwise the surface that holds the
      named channel at the value. */
  method ThreeDimensionalSurface(resolution: int, colorName: string, colorValue: real, plotRgb: Option<bool>,
                                 display: Option<string>, gamma: Option<bool>, crt: Mat3,
                                 pow: (real, real) -> real)
    returns (r: Result<Surface>)
    ensures !SurfaceArgumentsValid(resolution, colorName, colorValue, display) ==> r == Err(AssertionError)
    ensures SurfaceArgumentsValid(resolution, colorName, colorValue, display) ==>
      SurfaceBuilt(r, resolution, ColorIndex(colorName).value, colorValue,
                   SurfaceProjection(plotRgb == Some(true), ParseDisplay(display).value, gamma == Some(true), crt, pow))
  {
    if resolution < 2 {
      return Err(AssertionError);
    }
    var index := ColorIndex(colorName);
    if index.None? || !(0.0 <= colorValue <= 1.0) {
      return Err(AssertionError);
    }
    var d :- ParseDisplay(display);
    r := BuildSurface(resolution, index.value, colorValue,
                      SurfaceProjection(plotRgb == Some(true), d, gamma == Some(true), crt, pow));
  }

  /** On the sRGB and interior displays the xyY surface always succeeds,
      and its colours lie in the unit cube. */
  lemma SurfaceSucceeds(r: Result<Surface>, n: nat, fixed: nat, v: real, d: Display, gamma: bool, crt: Mat3,
                        pow: (real, real) -> real)
    requires 2 <= n && fixed < 3 && 0.0 <= v <= 1.0 && (d == Srgb || d == Interior)
    requires gamma ==> PowerFacts(pow)
    requires SurfaceBuilt(r, n, fixed, v, SurfaceProjection(false, d, gamma, crt, pow))
    ensures r.Ok?
    ensures forall i, j :: 0 <= i < n && 0 <= j < n ==> r.value.colors[i][j].InUnitCube()
  {
    var project := SurfaceProjection(false, d, gamma, crt, pow);
    forall i, j | 0 <= i < n && 0 <= j < n ensures project(SurfaceColor(n, fixed, v, i, j)).Ok? {
      LinspaceWithin(0.0, 1.0, n, i);
      LinspaceWithin(0.0, 1.0, n, j);
      XyyDefined(SurfaceColor(n, fixed, v, i, j), d, gamma, crt, pow);
    }
    SurfaceShape(r.value, n, fixed, v, project);
  }

  /** Plotting RGB always succeeds and puts every colour at its own channels. */
  lemma RgbSurface(r: Result<Surface>, n: nat, fixed: nat, v: real, d: Display, gamma: bool, crt: Mat3,
                   pow: (real, real) -> real)
    requires 2 <= n && fixed < 3
    requires SurfaceBuilt(r, n, fixed, v, SurfaceProjection(true, d, gamma, crt, pow))
    ensures r.Ok?
    ensures forall i, j :: 0 <= i < n && 0 <= j < n ==>
      r.value.colors[i][j] == Vec3(r.value.xs[i][j], r.value.ys[i][j], r.value.zs[i][j])
  {
    SurfaceOfColors(r.value, n, fixed, v);
  }

  // ---------------------------------------------------------------------------
  // Visible spectrum

  /** `linspace(minimum, maximum, resolution + 1)[0:-1]`. */
  function SpectrumWavelengths(minimum: real, maximum: real, n: nat): (r: seq<real>)
    ensures |r| == n
  {
    Linspace(minimum, maximum, n + 1)[..n]
  }

  /** The sampled wavelengths start at the minimum and step by (maximum -
      minimum) / n, stopping one step short of the maximum. They lie between
      the two ends in either order, so within bounds that hold both ends. */
  lemma {:induction false} SpectrumWavelengthsBetween(minimum: real, maximum: real, n: nat, bounds: (real, real))
    requires 1 <= n
    ensures SpectrumWavelengths(minimum, maximum, n)[0] == minimum
    ensures forall i :: 0 <= i < n ==>
      SpectrumWavelengths(minimum, maximum, n)[i] == minimum + (i as real) * ((maximum - minimum) / (n as real))
    ensures forall i :: 0 <= i < n ==>
      var w := SpectrumWavelengths(minimum, maximum, n)[i];
      (minimum <= maximum ==> minimum <= w <= maximum) && (maximum <= minimum ==> maximum <= w <= minimum)
    ensures CC.Within(minimum, bounds) && CC.Within(maximum, bounds) ==>
      forall i :: 0 <= i < n ==> CC.Within(SpectrumWavelengths(minimum, maximum, n)[i], bounds)
  {
    forall i | 0 <= i < n
      ensures var w := SpectrumWavelengths(minimum, maximum, n)[i];
        (minimum <= maximum ==> minimum <= w <= maximum) && (maximum <= minimum ==> maximum <= w <= minimum)
    {
      if minimum <= maximum {
        LinspaceWithin(minimum, maximum, n + 1, i);
      } else {
        LinspaceWithinReversed(minimum, maximum, n + 1, i);
      }
    }
  }

  /** The arguments `visible_spectrum` accepts before it looks at the
      wavelengths. */
  predicate SpectrumArgumentsValid(resolution: int, width: real, height: real, display: Option<string>,
                                   standard: Option<string>)
  {
    && 8 <= resolution && width != 0.0 && height != 0.0
    && ParseDisplay(display).Ok? && ParseDisplay(display).value != Exterior
    && CC.ParseStandard(standard).Ok?
  }

  /** `visible_spectrum`. After the argument checks both wavelengths must lie
      within the tabulated range of the chosen locus. The bands are the
      resolution-th parts of the rectangle. The colours are the saturated
      colours of the hue angles of the sampled wavelengths. */
  function VisibleSpectrum(resolution: int, left: real, bottom: real, width: real, height: real,
                           minimum: real, maximum: real, vertical: Option<bool>, display: Option<string>,
                           standard: Option<string>, crt: Mat3, pow: (real, real) -> real,
                           atan2: (real, real) -> real, cos: real -> real, sin: real -> real,
                           interp: (seq<real>, seq<real>, real) -> real,
                           loci: CC.Standard -> CC.Locus): (r: Result<(seq<seq<Point>>, seq<Vec3>)>)
    requires ParseDisplay(display) == Ok(Crt) ==> Det(crt) != 0.0
    requires forall s :: loci(s).Valid()
    ensures !SpectrumArgumentsValid(resolution, width, height, display, standard) ==> r == Err(AssertionError)
    ensures SpectrumArgumentsValid(resolution, width, height, display, standard) ==>
      var bounds := CC.WavelengthBounds(loci(CC.ParseStandard(standard).value));
      !(CC.Within(minimum, bounds) && CC.Within(maximum, bounds)) ==> r == Err(AssertionError)
    ensures r.Ok? ==> |r.value.0| == resolution && |r.value.1| == resolution
    ensures SpectrumArgumentsValid(resolution, width, height, display, standard) ==>
      var locus := loci(CC.ParseStandard(standard).value);
      var bounds := CC.WavelengthBounds(locus);
      var angles := SpectrumAngles(locus, SpectrumWavelengths(minimum, maximum, resolution), atan2, interp);
      var colors := SaturatedColors(angles, ParseDisplay(display).value, crt, pow, cos, sin);
      CC.Within(minimum, bounds) && CC.Within(maximum, bounds) ==>
        (r.Ok? <==> colors.Ok?) && (r.Ok? ==> r.value.1 == colors.value) && (r.Err? ==> r.error == colors.error)
    ensures r.Ok? ==> forall i :: 0 <= i < resolution ==>
      r.value.0[i] == Band(i, resolution, left, bottom, width, height, vertical == Some(true)) &&
      r.value.1[i].InUnitCube() && Min3(r.value.1[i]) == 0.0 && Max3(r.value.1[i]) == 1.0
  {
    if resolution < 8 || width == 0.0 || height == 0.0 then Err(AssertionError)
    else
      var d :- ParseDisplay(display);
      if d == Exterior then Err(AssertionError)
      else
        var s :- CC.ParseStandard(standard);
        var locus := loci(s);
        var bounds := CC.WavelengthBounds(locus);
        if !(CC.Within(minimum, bounds) && CC.Within(maximum, bounds)) then Err(AssertionError)
        else
          var angles := SpectrumAngles(locus, SpectrumWavelengths(minimum, maximum, resolution), atan2, interp);
          var colors :- SaturatedColors(angles, d, crt, pow, cos, sin);
          Ok((Bands(resolution, left, bottom, width, height, vertical == Some(true)), colors))
  }

  /** `hue_angle_from_wavelength` of every sampled wavelength. */
  function SpectrumAngles(locus: CC.Locus, wavelengths: seq<real>, atan2: (real, real) -> real,
                          interp: (seq<real>, seq<real>, real) -> real): (r: seq<real>)
    requires locus.Valid()
    ensures |r| == |wavelengths|
  {
    seq(|wavelengths|, (i: int) requires 0 <= i < |wavelengths| =>
          interp(locus.wavelengths, CC.LocusAngles(locus, atan2), wavelengths[i]))
  }

  /** The bands of an accepted spectrum tile its rectangle: the first starts at
      (left, bottom), the last ends at (left + width, bottom + height), and
      each band starts on the closing edge of the one before. */
  lemma VisibleSpectrumTiles(resolution: int, left: real, bottom: real, width: real, height: real,
                             minimum: real, maximum: real, vertical: Option<bool>, display: Option<string>,
                             standard: Option<string>, crt: Mat3, pow: (real, real) -> real,
                             atan2: (real, real) -> real, cos: real -> real, sin: real -> real,
                             interp: (seq<real>, seq<real>, real) -> real,
                             loci: CC.Standard -> CC.Locus)
    requires ParseDisplay(display) == Ok(Crt) ==> Det(crt) != 0.0
    requires forall s :: loci(s).Valid()
    requires VisibleSpectrum(resolution, left, bottom, width, height, minimum, maximum, vertical, display,
                             standard, crt, pow, atan2, cos, sin, interp, loci).Ok?
    ensures 8 <= resolution
    ensures var paths := VisibleSpectrum(resolution, left, bottom, width, height, minimum, maximum, vertical,
                                         display, standard, crt, pow, atan2, cos, sin, interp, loci).value.0;
      && |paths| == resolution
      && (forall i :: 0 <= i < resolution ==> |paths[i]| == 5 && paths[i][0] == paths[i][4])
      && paths[0][0] == Point(left, bottom)
      && paths[resolution - 1][2] == Point(left + width, bottom + height)
      && forall i :: 0 <= i < resolution - 1 ==>
           if vertical == Some(true) then paths[i + 1][0] == paths[i][1] && paths[i + 1][3] == paths[i][2]
           else paths[i + 1][0] == paths[i][3] && paths[i + 1][1] == paths[i][2]
  {
    var r := VisibleSpectrum(resolution, left, bottom, width, height, minimum, maximum, vertical, display,
                             standard, crt, pow, atan2, cos, sin, interp, loci);
    assert SpectrumArgumentsValid(resolution, width, height, display, standard);
    BandsShape(r.value.0, resolution, left, bottom, width, height, vertical == Some(true));
  }

  /** The shape `Bands` promises, for any list of RESOLUTION bands. */
  lemma BandsShape(paths: seq<seq<Point>>, resolution: nat, left: real, bottom: real, width: real, height: real,
                   vert: bool)
    requires 0 < resolution && |paths| == resolution
    requires forall i :: 0 <= i < resolution ==> paths[i] == Band(i, resolution, left, bottom, width, height, vert)
    ensures forall i :: 0 <= i < resolution ==> |paths[i]| == 5 && paths[i][0] == paths[i][4]
    ensures && paths[0][0] == Point(left, bottom)
            && paths[resolution - 1][2] == Point(left + width, bottom + height)
            && forall i :: 0 <= i < resolution - 1 ==>
                 if vert then paths[i + 1][0] == paths[i][1] && paths[i + 1][3] == paths[i][2]
                 else paths[i + 1][0] == paths[i][3] && paths[i + 1][1] == paths[i][2]
  {
    BandsTile(resolution, left, bottom, width, height, vert);
    forall i | 0 <= i < resolution
      ensures |paths[i]| == 5 && paths[i][0] == paths[i][4]
    {
      BandRectangle(i, resolution, left, bottom, width, height, vert);
    }
  }
}
