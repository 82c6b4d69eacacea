/** maths/chromaticity_conversion.py: wavelength <-> chromaticity and hue angle
    by interpolation along a tabulated spectrum locus, and rectangular <-> polar
    chromaticity coordinates about D65 white or a copunctal point. The loci are
    supplied as a parameter (the source loads them from CSV files), `interp`
    stands for `scipy.interpolate.interp1d(xs, ys, kind = 'quadratic')(v)`, and
    `atan2`, `cos`, `sin` and `pow` for their numpy and Python counterparts. */
module ChromaticityConversion {
  import opened Wrappers
  import opened Numerics
  import opened LinearAlgebra
  import opened Functions
  import Coefficients
  import ColorConversion

  // ---------------------------------------------------------------------------
  // Standards, centers and white

  /** The STANDARD enum. */
  datatype Standard = Cie170_2_10 | Cie170_2_2 | Cie1964_10 | Cie1931_2

  function StandardName(s: Standard): string
  {
    match s
    case Cie170_2_10 => "170_2_10"
    case Cie170_2_2 => "170_2_2"
    case Cie1964_10 => "1964_10"
    case Cie1931_2 => "1931_2"
  }

  /** The `standard` argument: absent means CIE 1931 2-degree, otherwise it must
      be the value of a STANDARD member. */
  function ParseStandard(name: Option<string>): (r: Result<Standard>)
    ensures name.None? ==> r == Ok(Cie1931_2)
    ensures name.Some? ==> (r.Ok? <==> name.value in {"170_2_10", "170_2_2", "1964_10", "1931_2"})
    ensures name.Some? && r.Ok? ==> StandardName(r.value) == name.value
    ensures r.Err? ==> r.error == AssertionError
  {
    match name
    case None => Ok(Cie1931_2)
    case Some(s) =>
      if s == "170_2_10" then Ok(Cie170_2_10)
      else if s == "170_2_2" then Ok(Cie170_2_2)
      else if s == "1964_10" then Ok(Cie1964_10)
      else if s == "1931_2" then Ok(Cie1931_2)
      else Err(AssertionError)
  }

  lemma ParseStandardName(s: Standard)
    ensures ParseStandard(Some(StandardName(s))) == Ok(s)
  {
  }

  /** The CENTER enum. */
  datatype Center = D65 | Long | Medium | Short

  /** The `center` argument: absent means D65, otherwise it must be the value of
      a CENTER member. */
  function ParseCenter(name: Option<string>): (r: Result<Center>)
    ensures name.None? ==> r == Ok(D65)
    ensures name.Some? ==> (r.Ok? <==> name.value in {"d65", "long", "medium", "short"})
    ensures r.Err? ==> r.error == AssertionError
  {
    match name
    case None => Ok(D65)
    case Some(s) =>
      if s == "long" then Ok(Long)
      else if s == "medium" then Ok(Medium)
      else if s == "short" then Ok(Short)
      else if s == "d65" then Ok(D65)
      else Err(AssertionError)
  }

  /** D65_WHITE: the xy chromaticity of sRGB (1, 1, 1) without gamma decoding,
      whose XYZ is (0.9505, 1.0, 1.089). */
  const D65_WHITE: Point := Point(0.9505 / 3.0395, 1.0 / 3.0395)

  /** D65_WHITE is what `xyz_to_xyy(*rgb_to_xyz(1, 1, 1))` yields. */
  lemma D65WhiteFromConversions(suppress: bool, crt: Mat3, pow: (real, real) -> real)
    ensures var xyz := ColorConversion.RgbToXyz(Vec3(1.0, 1.0, 1.0), ColorConversion.Srgb, false, suppress, crt, pow);
      xyz.Ok? &&
      ColorConversion.XyzToXyy(xyz.value.xyz, ColorConversion.Srgb, crt) == Ok(Vec3(D65_WHITE.x, D65_WHITE.y, 1.0))
  {
  }

  /** COPUNCTAL_POINTS, with D65 white for the default center. */
  function CenterPoint(c: Center): Point
  {
    match c
    case D65 => D65_WHITE
    case Long => Point(0.746, 0.254)
    case Medium => Point(1.400, -0.400)
    case Short => Point(0.175, 0.000)
  }

  // ---------------------------------------------------------------------------
  // Hue angles

  const HUE_LOW: real := -(5.0 / 2.0) * PI
  const HUE_HIGH: real := -PI / 2.0

  /** The half-open window [-5 pi / 2, -pi / 2) the source keeps hue angles in. */
  predicate InHueRange(angle: real)
  {
    HUE_LOW <= angle < HUE_HIGH
  }

  /** The representative of `angle` modulo 2 pi in the hue window. */
  function Wrap(angle: real): (r: real)
    ensures InHueRange(r)
  {
    var t := (angle - HUE_LOW) / TWO_PI;
    angle - TWO_PI * (t.Floor as real)
  }

  /** `Wrap` is the only value in the window that differs from `angle` by a
      whole number of turns; in particular it leaves an angle in the window alone. */
  lemma WrapUnique(angle: real, turns: int)
    requires InHueRange(angle + (turns as real) * TWO_PI)
    ensures Wrap(angle) == angle + (turns as real) * TWO_PI
  {
    var t := (angle - HUE_LOW) / TWO_PI;
    assert (angle - HUE_LOW) == t * TWO_PI;
    assert 0.0 <= t + turns as real < 1.0;
    assert t.Floor == -turns;
  }

  /** The hue angle of `arctan2`'s value: kept if below -pi / 2, else turned
      back by 2 pi. */
  function Normalize(a: real): real
  {
    if a < -PI / 2.0 then a else a - TWO_PI
  }

  /** On `arctan2`'s range (-pi, pi] the one-step shift is the wrap into the window. */
  lemma NormalizeIsWrap(a: real)
    requires -PI < a <= PI
    ensures InHueRange(Normalize(a))
    ensures Normalize(a) == Wrap(a)
  {
    if a < -PI / 2.0 {
      WrapUnique(a, 0);
    } else {
      WrapUnique(a, -1);
    }
  }

  /** The hue angle of `p` about `center`. */
  function HueAngle(atan2: (real, real) -> real, center: Point, p: Point): real
  {
    Normalize(atan2(p.y - center.y, p.x - center.x))
  }

  /** With numpy's `arctan2`, every hue angle lies in the window. */
  lemma HueAngleInRange(atan2: (real, real) -> real, center: Point, p: Point)
    requires AngleRange(atan2)
    ensures InHueRange(HueAngle(atan2, center, p))
  {
    NormalizeIsWrap(atan2(p.y - center.y, p.x - center.x));
  }

  /** The while loops of `hue_angle_to_wavelength`: an angle outside the window
      is moved into it by whole turns, with a warning unless suppressed. */
  method WrapAngle(angle: real, suppressWarnings: bool) returns (wrapped: real, warned: bool)
    ensures wrapped == Wrap(angle)
    ensures warned <==> !InHueRange(angle) && !suppressWarnings
  {
    wrapped := angle;
    warned := false;
    ghost var turns: int := 0;
    if HUE_LOW > angle || angle >= HUE_HIGH {
      warned := !suppressWarnings;
      while wrapped < HUE_LOW
        invariant wrapped == angle + (turns as real) * TWO_PI
        decreases (HUE_LOW - wrapped).Floor
      {
        wrapped := wrapped + TWO_PI;
        turns := turns + 1;
      }
      while wrapped >= HUE_HIGH
        invariant HUE_LOW <= wrapped
        invariant wrapped == angle + (turns as real) * TWO_PI
        decreases (wrapped - HUE_HIGH).Floor
      {
        wrapped := wrapped - TWO_PI;
        turns := turns - 1;
      }
    }
    WrapUnique(angle, turns);
  }

  /** -3 pi is outside the window, so it warns, and it wraps to -pi. */
  lemma WrapExample()
    ensures !InHueRange(-3.0 * PI)
    ensures Wrap(-3.0 * PI) == -PI
  {
    WrapUnique(-3.0 * PI, 1);
  }

  // ---------------------------------------------------------------------------
  // Spectrum loci

  /** One tabulated spectrum locus: wavelength (nm) with its x and y. */
  datatype Locus = Locus(wavelengths: seq<real>, x: seq<real>, y: seq<real>) {
    predicate Valid()
    {
      |wavelengths| > 0 && |x| == |wavelengths| && |y| == |wavelengths|
    }
  }

  /** The hue angle of every locus point about D65 white. */
  function LocusAngles(locus: Locus, atan2: (real, real) -> real): (r: seq<real>)
    requires locus.Valid()
    ensures |r| == |locus.wavelengths|
  {
    seq(|locus.x|, (i: int) requires 0 <= i < |locus.x| => HueAngle(atan2, D65_WHITE, Point(locus.x[i], locus.y[i])))
  }

  /** `angle_bounds_*`: the least and greatest locus hue angles. */
  function AngleBounds(locus: Locus, atan2: (real, real) -> real): (r: (real, real))
    requires locus.Valid()
    ensures r.0 in LocusAngles(locus, atan2) && r.1 in LocusAngles(locus, atan2)
    ensures forall i :: 0 <= i < |locus.x| ==> r.0 <= LocusAngles(locus, atan2)[i] <= r.1
  {
    (SeqMin(LocusAngles(locus, atan2)), SeqMax(LocusAngles(locus, atan2)))
  }

  /** `wavelength_bounds_*`: the least and greatest tabulated wavelengths. */
  function WavelengthBounds(locus: Locus): (r: (real, real))
    requires locus.Valid()
    ensures r.0 in locus.wavelengths && r.1 in locus.wavelengths
    ensures forall i :: 0 <= i < |locus.wavelengths| ==> r.0 <= locus.wavelengths[i] <= r.1
  {
    (SeqMin(locus.wavelengths), SeqMax(locus.wavelengths))
  }

  predicate Within(v: real, bounds: (real, real))
  {
    bounds.0 <= v <= bounds.1
  }

  /** The angle bounds are hue angles of the locus, so they lie in the window. */
  lemma AngleBoundsInRange(locus: Locus, atan2: (real, real) -> real)
    requires locus.Valid() && AngleRange(atan2)
    ensures InHueRange(AngleBounds(locus, atan2).0) && InHueRange(AngleBounds(locus, atan2).1)
  {
    var angles := LocusAngles(locus, atan2);
    var i :| 0 <= i < |angles| && angles[i] == SeqMin(angles);
    var j :| 0 <= j < |angles| && angles[j] == SeqMax(angles);
    HueAngleInRange(atan2, D65_WHITE, Point(locus.x[i], locus.y[i]));
    HueAngleInRange(atan2, D65_WHITE, Point(locus.x[j], locus.y[j]));
  }

  // ---------------------------------------------------------------------------
  // Wavelength -> chromaticity and hue angle

  /** `wavelength_to_chromaticity`: the wavelength must lie within the chosen
      locus's tabulated range. */
  function WavelengthToChromaticity(wavelength: real, standard: Option<string>, loci: Standard -> Locus,
                                    interp: (seq<real>, seq<real>, real) -> real): (r: Result<Point>)
    requires forall s :: loci(s).Valid()
    ensures ParseStandard(standard).Err? ==> r == Err(AssertionError)
    ensures ParseStandard(standard).Ok? ==>
      (r.Ok? <==> Within(wavelength, WavelengthBounds(loci(ParseStandard(standard).value))))
    ensures r.Err? ==> r.error == AssertionError
  {
    var s :- ParseStandard(standard);
    var locus := loci(s);
    if !Within(wavelength, WavelengthBounds(locus)) then Err(AssertionError)
    else Ok(Point(interp(locus.wavelengths, locus.x, wavelength), interp(locus.wavelengths, locus.y, wavelength)))
  }

  /** `wavelength_to_hue_angle`: the same guard, interpolating the locus hue angles. */
  function WavelengthToHueAngle(wavelength: real, standard: Option<string>, loci: Standard -> Locus,
                                atan2: (real, real) -> real,
                                interp: (seq<real>, seq<real>, real) -> real): (r: Result<real>)
    requires forall s :: loci(s).Valid()
    ensures ParseStandard(standard).Err? ==> r == Err(AssertionError)
    ensures ParseStandard(standard).Ok? ==>
      (r.Ok? <==> Within(wavelength, WavelengthBounds(loci(ParseStandard(standard).value))))
    ensures r.Err? ==> r.error == AssertionError
  {
    var s :- ParseStandard(standard);
    var locus := loci(s);
    if !Within(wavelength, WavelengthBounds(locus)) then Err(AssertionError)
    else Ok(interp(locus.wavelengths, LocusAngles(locus, atan2), wavelength))
  }

  /** Every tabulated wavelength is accepted by both conversions. */
  lemma TabulatedWavelengthAccepted(s: Standard, i: nat, loci: Standard -> Locus, atan2: (real, real) -> real,
                                    interp: (seq<real>, seq<real>, real) -> real)
    requires forall t :: loci(t).Valid()
    requires i < |loci(s).wavelengths|
    ensures WavelengthToChromaticity(loci(s).wavelengths[i], Some(StandardName(s)), loci, interp).Ok?
    ensures WavelengthToHueAngle(loci(s).wavelengths[i], Some(StandardName(s)), loci, atan2, interp).Ok?
  {
    ParseStandardName(s);
  }

  /** A wavelength below the default locus's table, such as 250 nm, is rejected. */
  lemma ShortWavelengthRejected(loci: Standard -> Locus, atan2: (real, real) -> real,
                                interp: (seq<real>, seq<real>, real) -> real)
    requires forall t :: loci(t).Valid()
    requires loci(Cie1931_2).Valid()
    requires 250.0 < SeqMin(loci(Cie1931_2).wavelengths)
    ensures WavelengthToChromaticity(250.0, None, loci, interp) == Err(AssertionError)
    ensures WavelengthToHueAngle(250.0, None, loci, atan2, interp) == Err(AssertionError)
  {
  }

  // ---------------------------------------------------------------------------
  // Hue angle -> wavelength

  /** `hue_angle_to_wavelength`: the angle is wrapped into the window (warning
      unless suppressed) and must then lie within the locus's angle bounds. */
  method HueAngleToWavelength(angle: real, standard: Option<string>, suppressWarnings: Option<bool>,
                              loci: Standard -> Locus, atan2: (real, real) -> real,
                              interp: (seq<real>, seq<real>, real) -> real)
    returns (r: Result<real>, warned: bool)
    requires forall s :: loci(s).Valid()
    ensures ParseStandard(standard).Err? ==> r == Err(AssertionError) && !warned
    ensures ParseStandard(standard).Ok? ==>
      var locus := loci(ParseStandard(standard).value);
      && (warned <==> !InHueRange(angle) && suppressWarnings != Some(true))
      && (r.Ok? <==> Within(Wrap(angle), AngleBounds(locus, atan2)))
      && (r.Ok? ==> r.value == interp(LocusAngles(locus, atan2), locus.wavelengths, Wrap(angle)))
    ensures r.Err? ==> r.error == AssertionError
  {
    var parsed := ParseStandard(standard);
    if parsed.Err? {
      return Err(AssertionError), false;
    }
    var suppress := suppressWarnings == Some(true);
    var locus := loci(parsed.value);
    var bounds := AngleBounds(locus, atan2);
    var wrapped;
    wrapped, warned := WrapAngle(angle, suppress);
    if !Within(wrapped, bounds) {
      return Err(AssertionError), warned;
    }
    r := Ok(interp(LocusAngles(locus, atan2), locus.wavelengths, wrapped));
  }

  /** The hue angle of every tabulated locus point passes the bounds check
      without being wrapped. */
  lemma TabulatedAngleAccepted(locus: Locus, i: nat, atan2: (real, real) -> real)
    requires locus.Valid() && AngleRange(atan2)
    requires i < |locus.wavelengths|
    ensures InHueRange(LocusAngles(locus, atan2)[i])
    ensures Wrap(LocusAngles(locus, atan2)[i]) == LocusAngles(locus, atan2)[i]
    ensures Within(Wrap(LocusAngles(locus, atan2)[i]), AngleBounds(locus, atan2))
  {
    var a := LocusAngles(locus, atan2)[i];
    HueAngleInRange(atan2, D65_WHITE, Point(locus.x[i], locus.y[i]));
    WrapUnique(a, 0);
  }

  /** An angle in the window but above the locus's largest angle, such as
      -0.51 pi against the 1931 locus, is rejected. */
  lemma AboveAngleBoundsRejected(angle: real, locus: Locus, atan2: (real, real) -> real)
    requires locus.Valid()
    requires InHueRange(angle) && AngleBounds(locus, atan2).1 < angle
    ensures !Within(Wrap(angle), AngleBounds(locus, atan2))
  {
    WrapUnique(angle, 0);
  }

  // ---------------------------------------------------------------------------
  // Rectangular <-> polar

  /** Hue angle and distance of `p` about the point `o`. */
  function PolarAbout(o: Point, p: Point, atan2: (real, real) -> real, pow: (real, real) -> real): (real, real)
  {
    (HueAngle(atan2, o, p), pow(pow(p.x - o.x, 2.0) + pow(p.y - o.y, 2.0), 0.5))
  }

  /** The point at `angle` and `radius` from `o`. */
  function RectangularAbout(o: Point, angle: real, radius: real, cos: real -> real, sin: real -> real): Point
  {
    Point(o.x + radius * cos(angle), o.y + radius * sin(angle))
  }

  /** `chromaticity_rectangular_to_polar`: (hue angle, radius) of (x, y) about
      the chosen center; requires 0 <= x <= 1 and 0 < y <= 1. */
  function RectangularToPolar(x: real, y: real, center: Option<string>, atan2: (real, real) -> real,
                              pow: (real, real) -> real): (r: Result<(real, real)>)
    ensures r.Ok? <==> 0.0 <= x <= 1.0 && 0.0 < y <= 1.0 && ParseCenter(center).Ok?
    ensures r.Err? ==> r.error == AssertionError
  {
    if !(0.0 <= x <= 1.0 && 0.0 < y <= 1.0) then Err(AssertionError)
    else
      var c :- ParseCenter(center);
      Ok(PolarAbout(CenterPoint(c), Point(x, y), atan2, pow))
  }

  /** `chromaticity_polar_to_rectangular`: center plus radius times (cos, sin). */
  function PolarToRectangular(angle: real, radius: real, center: Option<string>, cos: real -> real,
                              sin: real -> real): (r: Result<Point>)
    ensures r.Ok? <==> ParseCenter(center).Ok?
    ensures r.Err? ==> r.error == AssertionError
  {
    var c :- ParseCenter(center);
    Ok(RectangularAbout(CenterPoint(c), angle, radius, cos, sin))
  }

  lemma PolarAboutRanges(o: Point, p: Point, atan2: (real, real) -> real, pow: (real, real) -> real)
    requires AngleRange(atan2) && RootFacts(pow)
    ensures var (angle, radius) := PolarAbout(o, p, atan2, pow);
      var a := atan2(p.y - o.y, p.x - o.x);
      && InHueRange(angle)
      && (a < -PI / 2.0 ==> angle == a)
      && (a >= -PI / 2.0 ==> angle == a - TWO_PI)
      && 0.0 <= radius
      && radius * radius == (p.x - o.x) * (p.x - o.x) + (p.y - o.y) * (p.y - o.y)
  {
    HueAngleInRange(atan2, o, p);
    var dx, dy := p.x - o.x, p.y - o.y;
    assert pow(dx, 2.0) == dx * dx && pow(dy, 2.0) == dy * dy;
    SquaresNonNegative(dx, dy);
  }

  /** The polar angle lies in the hue window and is `arctan2`'s value, less
      2 pi unless below -pi / 2; the radius is the distance to the center. */
  lemma PolarRanges(x: real, y: real, center: Option<string>, atan2: (real, real) -> real,
                    pow: (real, real) -> real)
    requires AngleRange(atan2) && RootFacts(pow)
    requires RectangularToPolar(x, y, center, atan2, pow).Ok?
    ensures var (angle, radius) := RectangularToPolar(x, y, center, atan2, pow).value;
      var o := CenterPoint(ParseCenter(center).value);
      var a := atan2(y - o.y, x - o.x);
      && InHueRange(angle)
      && (a < -PI / 2.0 ==> angle == a)
      && (a >= -PI / 2.0 ==> angle == a - TWO_PI)
      && 0.0 <= radius
  {
    PolarAboutRanges(CenterPoint(ParseCenter(center).value), Point(x, y), atan2, pow);
  }

  lemma SquaresNonNegative(dx: real, dy: real)
    ensures 0.0 <= dx * dx + dy * dy
  {
  }

  /** With radius 0.05 and angle -pi about D65, the point lies 0.05 left of white. */
  lemma PolarExample(cos: real -> real, sin: real -> real)
    requires cos(-PI) == -1.0 && sin(-PI) == 0.0
    ensures PolarToRectangular(-PI, 0.05, None, cos, sin) == Ok(Point(D65_WHITE.x - 0.05, D65_WHITE.y))
  {
  }

  /** (0.3, 0.3) is exactly 0.325 from the short-wavelength copunctal point. */
  lemma RadiusExample(atan2: (real, real) -> real, pow: (real, real) -> real)
    requires AngleRange(atan2) && RootFacts(pow)
    ensures RectangularToPolar(0.3, 0.3, Some("short"), atan2, pow).Ok?
    ensures RectangularToPolar(0.3, 0.3, Some("short"), atan2, pow).value.1 == 0.325
  {
    PolarAboutRanges(Point(0.175, 0.0), Point(0.3, 0.3), atan2, pow);
    var radius := PolarAbout(Point(0.175, 0.0), Point(0.3, 0.3), atan2, pow).1;
    assert radius * radius == 0.325 * 0.325;
    RootUnique(radius, 0.325);
  }

  /** Going to polar coordinates about `o` and back returns the point. */
  lemma PolarAboutRoundTrip(o: Point, p: Point, atan2: (real, real) -> real, cos: real -> real,
                            sin: real -> real, pow: (real, real) -> real)
    requires PolarFacts(atan2, cos, sin, pow)
    ensures var (angle, radius) := PolarAbout(o, p, atan2, pow);
      RectangularAbout(o, angle, radius, cos, sin) == p
  {
    DirectionRecovered(p.x - o.x, p.y - o.y, atan2, cos, sin, pow);
  }

  /** The radius times the cosine and sine of the hue angle of (dx, dy) give
      (dx, dy) back, the zero vector included. */
  lemma DirectionRecovered(dx: real, dy: real, atan2: (real, real) -> real, cos: real -> real,
                           sin: real -> real, pow: (real, real) -> real)
    requires RootFacts(pow) && PeriodicFacts(cos, sin) && PolarOfAtan2(atan2, cos, sin, pow)
    ensures var angle, radius := Normalize(atan2(dy, dx)), pow(pow(dx, 2.0) + pow(dy, 2.0), 0.5);
      radius * cos(angle) == dx && radius * sin(angle) == dy
  {
    var a := atan2(dy, dx);
    assert pow(dx, 2.0) == dx * dx && pow(dy, 2.0) == dy * dy;
    var radius := pow(dx * dx + dy * dy, 0.5);
    if dx == 0.0 && dy == 0.0 {
      assert dx * dx + dy * dy == 0.0;
      assert radius * radius == 0.0 * 0.0;
      RootUnique(radius, 0.0);
    } else {
      assert radius * cos(a) == dx && radius * sin(a) == dy;
      if a >= -PI / 2.0 {
        assert cos(a - TWO_PI) == cos(a) && sin(a - TWO_PI) == sin(a);
      }
    }
  }

  /** Converting to polar coordinates and back gives the point again. */
  lemma RectangularPolarRoundTrip(x: real, y: real, center: Option<string>,
                                  atan2: (real, real) -> real, cos: real -> real,
                                  sin: real -> real, pow: (real, real) -> real)
    requires PolarFacts(atan2, cos, sin, pow)
    requires RectangularToPolar(x, y, center, atan2, pow).Ok?
    ensures var (angle, radius) := RectangularToPolar(x, y, center, atan2, pow).value;
      PolarToRectangular(angle, radius, center, cos, sin) == Ok(Point(x, y))
  {
    PolarAboutRoundTrip(CenterPoint(ParseCenter(center).value), Point(x, y), atan2, cos, sin, pow);
  }

  /** From polar coordinates about `o` (angle in the hue window, positive
      radius) to the point and back returns the coordinates. */
  lemma RectangularAboutRoundTrip(o: Point, angle: real, radius: real,
                                  atan2: (real, real) -> real, cos: real -> real,
                                  sin: real -> real, pow: (real, real) -> real)
    requires PolarFacts(atan2, cos, sin, pow)
    requires InHueRange(angle) && 0.0 < radius
    ensures PolarAbout(o, RectangularAbout(o, angle, radius, cos, sin), atan2, pow) == (angle, radius)
  {
    var p := RectangularAbout(o, angle, radius, cos, sin);
    assert p.x - o.x == radius * cos(angle) && p.y - o.y == radius * sin(angle);
    AngleRecovered(angle, radius, atan2, cos, sin);
    RadiusRecovered(angle, radius, cos, sin, pow);
  }

  /** `arctan2` of a vector at a hue angle, shifted into the window, is that angle. */
  lemma AngleRecovered(angle: real, radius: real, atan2: (real, real) -> real, cos: real -> real,
                       sin: real -> real)
    requires CircleFacts(cos, sin) && PeriodicFacts(cos, sin) && Atan2OfPolar(atan2, cos, sin)
    requires InHueRange(angle) && 0.0 < radius
    ensures Normalize(atan2(radius * sin(angle), radius * cos(angle))) == angle
  {
    var c, s := cos(angle), sin(angle);
    assert c * c + s * s == 1.0;
    ScaledCircle(radius, c, s);
    // The direction in (-pi, pi] that `arctan2` reports.
    var t := if -PI < angle then angle else angle + TWO_PI;
    assert cos(t) == c && sin(t) == s by {
      if t != angle {
        assert angle == t - TWO_PI;
      }
    }
    assert atan2(radius * s, radius * c) == t;
  }

  /** The length of a vector at any angle is its radius. */
  lemma RadiusRecovered(angle: real, radius: real, cos: real -> real, sin: real -> real,
                        pow: (real, real) -> real)
    requires RootFacts(pow) && CircleFacts(cos, sin)
    requires 0.0 < radius
    ensures pow(pow(radius * cos(angle), 2.0) + pow(radius * sin(angle), 2.0), 0.5) == radius
  {
    var dx, dy := radius * cos(angle), radius * sin(angle);
    assert cos(angle) * cos(angle) + sin(angle) * sin(angle) == 1.0;
    ScaledCircle(radius, cos(angle), sin(angle));
    assert pow(dx, 2.0) == dx * dx && pow(dy, 2.0) == dy * dy;
    var q := pow(dx * dx + dy * dy, 0.5);
    assert 0.0 <= q && q * q == radius * radius;
    RootUnique(q, radius);
  }

  /** Converting a point of the chromaticity domain from polar coordinates
      (angle in the hue window, positive radius) and back gives them again. */
  lemma PolarRectangularRoundTrip(angle: real, radius: real, center: Option<string>,
                                  atan2: (real, real) -> real, cos: real -> real,
                                  sin: real -> real, pow: (real, real) -> real)
    requires PolarFacts(atan2, cos, sin, pow)
    requires InHueRange(angle) && 0.0 < radius
    requires PolarToRectangular(angle, radius, center, cos, sin).Ok?
    requires var p := PolarToRectangular(angle, radius, center, cos, sin).value;
      0.0 <= p.x <= 1.0 && 0.0 < p.y <= 1.0
    ensures var p := PolarToRectangular(angle, radius, center, cos, sin).value;
      RectangularToPolar(p.x, p.y, center, atan2, pow) == Ok((angle, radius))
  {
    RectangularAboutRoundTrip(CenterPoint(ParseCenter(center).value), angle, radius, atan2, cos, sin, pow);
  }

  lemma ScaledCircle(r: real, c: real, s: real)
    requires c * c + s * s == 1.0
    ensures (r * s) * c == (r * c) * s
    ensures (r * c) * c + (r * s) * s == r
    ensures (r * c) * (r * c) + (r * s) * (r * s) == r * r
  {
    assert (r * c) * c + (r * s) * s == r * (c * c + s * s);
    assert (r * c) * (r * c) + (r * s) * (r * s) == (r * r) * (c * c + s * s);
  }
}
