/** maths/color_conversion.py: conversions between experimental primaries (RGB),
    cone fundamentals (LMS), colour matching functions (XYZ), chromoluminance
    (xyY), display colours and CIE 1960 (u, v). Every Python `assert` that can
    fail becomes an `Err(AssertionError)` result; a float division by zero
    becomes `Err(ZeroDivision)`. */
module ColorConversion {
  import opened Wrappers
  import opened LinearAlgebra
  import opened Numerics
  import opened Coefficients
  import Transfer

  // ---------------------------------------------------------------------------
  // Displays

  /** The DISPLAY enum. */
  datatype Display = Srgb | Crt | Interior | Exterior

  function DisplayName(d: Display): string
  {
    match d
    case Srgb => "srgb"
    case Crt => "crt"
    case Interior => "interior"
    case Exterior => "exterior"
  }

  /** The `display` argument: absent means sRGB, otherwise it must be the value
      of a DISPLAY member. */
  function ParseDisplay(name: Option<string>): (r: Result<Display>)
    ensures name.None? ==> r == Ok(Srgb)
    ensures name.Some? ==> (r.Ok? <==> name.value in {"srgb", "crt", "interior", "exterior"})
    ensures name.Some? && r.Ok? ==> DisplayName(r.value) == name.value
    ensures r.Err? ==> r.error == AssertionError
  {
    match name
    case None => Ok(Srgb)
    case Some(s) =>
      if s == "srgb" then Ok(Srgb)
      else if s == "crt" then Ok(Crt)
      else if s == "interior" then Ok(Interior)
      else if s == "exterior" then Ok(Exterior)
      else Err(AssertionError)
  }

  lemma ParseDisplayName(d: Display)
    ensures ParseDisplay(Some(DisplayName(d))) == Ok(d)
  {
  }

  /** RGB to XYZ coefficients of a display. The CRT matrix is imported by the
      source from a module that does not define it, so it is a parameter. */
  function RgbToXyzMatrix(d: Display, crt: Mat3): Mat3
  {
    match d
    case Srgb => SRGB_TO_XYZ_2
    case Crt => crt
    case Interior => RGB_TO_XYZ_CUSTOM_INTERIOR
    case Exterior => RGB_TO_XYZ_CUSTOM_EXTERIOR
  }

  /** XYZ to RGB coefficients of a display: the inverse of the above. */
  function XyzToRgbMatrix(d: Display, crt: Mat3): (m: Mat3)
    requires d == Crt ==> Det(crt) != 0.0
  {
    match d
    case Srgb => XYZ_TO_SRGB_2
    case Crt => Inverse(crt)
    case Interior => XYZ_TO_RGB_CUSTOM_INTERIOR
    case Exterior => XYZ_TO_RGB_CUSTOM_EXTERIOR
  }

  lemma DisplayMatricesInvertible(d: Display, crt: Mat3)
    requires d != Crt
    ensures Det(RgbToXyzMatrix(d, crt)) != 0.0
    ensures XyzToRgbMatrix(d, crt) == Inverse(RgbToXyzMatrix(d, crt))
  {
    match d
    case Srgb => XyzToSrgb2Exact();
    case Interior => XyzToRgbInteriorExact();
    case Exterior => XyzToRgbExteriorExact();
  }

  // ---------------------------------------------------------------------------
  // RGB (experimental primaries) <-> LMS

  /** `rgb_to_lms`: no range checks, the matrix depends on `normalize_fundamentals`. */
  function RgbToLms(rgb: Vec3, normalize: bool): Vec3
  {
    Apply(if normalize then RGB_TO_LMS_10 else RGB_TO_UNSCALED_LMS_10, rgb)
  }

  /** `lms_to_rgb`: cone values must be non-negative, and at most 1 when normalised. */
  function LmsToRgb(lms: Vec3, normalize: bool): (r: Result<Vec3>)
    ensures r.Ok? <==> lms.NonNegative() && (normalize ==> lms.InUnitCube())
  {
    if !lms.NonNegative() || (normalize && !lms.InUnitCube()) then Err(AssertionError)
    else Ok(Apply(if normalize then LMS_TO_RGB_10 else UNSCALED_LMS_TO_RGB_10, lms))
  }

  /** The red primary maps to the first column of the chosen matrix. */
  lemma RgbToLmsRedPrimary()
    ensures RgbToLms(Vec3(1.0, 0.0, 0.0), true) == Vec3(0.191888, 0.019219, 0.0)
    ensures RgbToLms(Vec3(1.0, 0.0, 0.0), false) == Vec3(2.846201, 0.168926, 0.0)
  {
  }

  /** `lms_to_rgb` undoes `rgb_to_lms` whenever the cone values pass its checks. */
  lemma {:induction false} RgbLmsRoundTrip(rgb: Vec3, normalize: bool)
    requires RgbToLms(rgb, normalize).NonNegative()
    requires normalize ==> RgbToLms(rgb, normalize).InUnitCube()
    ensures LmsToRgb(RgbToLms(rgb, normalize), normalize) == Ok(rgb)
  {
    if normalize {
      LmsToRgb10Undoes(rgb);
    } else {
      UnscaledLmsToRgb10Undoes(rgb);
    }
  }

  /** ... and `rgb_to_lms` undoes `lms_to_rgb`. */
  lemma {:induction false} LmsRgbRoundTrip(lms: Vec3, normalize: bool)
    requires LmsToRgb(lms, normalize).Ok?
    ensures RgbToLms(LmsToRgb(lms, normalize).value, normalize) == lms
  {
    if normalize {
      LmsToRgb10Undoes(lms);
    } else {
      UnscaledLmsToRgb10Undoes(lms);
    }
  }

  // ---------------------------------------------------------------------------
  // LMS <-> XYZ

  /** `lms_to_xyz`: each cone value in [0, 1]; 2-degree matrix by default. */
  function LmsToXyz(lms: Vec3, use2Degree: bool): (r: Result<Vec3>)
    ensures r.Ok? <==> lms.InUnitCube()
  {
    if !lms.InUnitCube() then Err(AssertionError)
    else Ok(Apply(if use2Degree then LMS_TO_XYZ_2 else LMS_TO_XYZ_10, lms))
  }

  /** `xyz_to_lms`: each tristimulus value non-negative. */
  function XyzToLms(xyz: Vec3, use2Degree: bool): (r: Result<Vec3>)
    ensures r.Ok? <==> xyz.NonNegative()
  {
    if !xyz.NonNegative() then Err(AssertionError)
    else Ok(Apply(if use2Degree then XYZ_TO_LMS_2 else XYZ_TO_LMS_10, xyz))
  }

  /** The values maths/maths_test.py expects for (0.2, 0.4, 0.4). */
  lemma LmsToXyzExample()
    ensures LmsToXyz(Vec3(0.2, 0.4, 0.4), true) == Ok(Vec3(0.235132, 0.164852, 0.003204))
    ensures LmsToXyz(Vec3(0.2, 0.4, 0.4), false) == Ok(Vec3(0.02149519, 0.278438132, 0.85875178))
  {
  }

  lemma ConeMatricesInvertible()
    ensures Det(LMS_TO_XYZ_2) != 0.0 && Det(LMS_TO_XYZ_10) != 0.0
  {
  }

  lemma {:induction false} LmsXyzRoundTrip(lms: Vec3, use2Degree: bool)
    requires LmsToXyz(lms, use2Degree).Ok? && LmsToXyz(lms, use2Degree).value.NonNegative()
    ensures XyzToLms(LmsToXyz(lms, use2Degree).value, use2Degree) == Ok(lms)
  {
    if use2Degree {
      XyzToLms2Undoes(lms);
    } else {
      XyzToLms10Undoes(lms);
    }
  }

  lemma {:induction false} XyzLmsRoundTrip(xyz: Vec3, use2Degree: bool)
    requires XyzToLms(xyz, use2Degree).Ok? && XyzToLms(xyz, use2Degree).value.InUnitCube()
    ensures LmsToXyz(XyzToLms(xyz, use2Degree).value, use2Degree) == Ok(xyz)
  {
    if use2Degree {
      XyzToLms2Undoes(xyz);
    } else {
      XyzToLms10Undoes(xyz);
    }
  }

  // ---------------------------------------------------------------------------
  // XYZ <-> xyY

  /** Chromaticity of white for a coefficient matrix: its row sums over their
      total, with zero luminance; Python raises on a zero total. */
  function WhiteChromaticity(m: Mat3): (r: Result<Vec3>)
    ensures r.Ok? <==> m.r0.Sum() + m.r1.Sum() + m.r2.Sum() != 0.0
    ensures r.Ok? ==> r.value.c == 0.0
  {
    var total := m.r0.Sum() + m.r1.Sum() + m.r2.Sum();
    if total == 0.0 then Err(ZeroDivision)
    else Ok(Vec3(m.r0.Sum() / total, m.r1.Sum() / total, 0.0))
  }

  /** `xyz_to_xyy`: (X/s, Y/s, Y) for s = X+Y+Z > 0; black gets the display's
      white chromaticity and luminance 0. */
  function XyzToXyy(xyz: Vec3, d: Display, crt: Mat3): (r: Result<Vec3>)
    ensures !xyz.NonNegative() ==> r == Err(AssertionError)
    ensures xyz.NonNegative() && xyz.Sum() > 0.0 ==>
      r.Ok? && r.value.a * xyz.Sum() == xyz.a && r.value.b * xyz.Sum() == xyz.b && r.value.c == xyz.b
    ensures xyz.NonNegative() && xyz.Sum() <= 0.0 ==> r == WhiteChromaticity(RgbToXyzMatrix(d, crt))
  {
    if !xyz.NonNegative() then Err(AssertionError)
    else
      var s := xyz.Sum();
      if s > 0.0 then Ok(Vec3(xyz.a / s, xyz.b / s, xyz.b))
      else WhiteChromaticity(RgbToXyzMatrix(d, crt))
  }

  /** `xyy_to_xyz`: requires 0 <= x <= 1, 0 < y <= 1, Y >= 0. */
  function XyyToXyz(xyy: Vec3): (r: Result<Vec3>)
    ensures r.Ok? <==> 0.0 <= xyy.a <= 1.0 && 0.0 < xyy.b <= 1.0 && 0.0 <= xyy.c
    ensures r.Ok? ==> r.value.b == xyy.c
    ensures r.Ok? ==> r.value.a * xyy.b == xyy.c * xyy.a
    ensures r.Ok? ==> r.value.c * xyy.b == xyy.c * (1.0 - xyy.a - xyy.b)
  {
    var (x, y, lum) := (xyy.a, xyy.b, xyy.c);
    if !(0.0 <= x <= 1.0 && 0.0 < y <= 1.0 && 0.0 <= lum) then Err(AssertionError)
    else Ok(Vec3(lum * (x / y), lum, lum * ((1.0 - x - y) / y)))
  }

  /** Chromaticity coordinates of a non-black colour are non-negative, sum to at
      most 1, and the luminance is passed through. */
  lemma XyyRange(xyz: Vec3, d: Display, crt: Mat3)
    requires xyz.NonNegative() && xyz.Sum() > 0.0
    ensures XyzToXyy(xyz, d, crt).Ok?
    ensures var v := XyzToXyy(xyz, d, crt).value;
      0.0 <= v.a && 0.0 <= v.b && v.a + v.b <= 1.0 && v.c == xyz.b
  {
    var s := xyz.Sum();
    DivSum(xyz.a, xyz.b, s);
    DivBounds(xyz.a, s);
    DivBounds(xyz.b, s);
    DivBounds(xyz.a + xyz.b, s);
  }

  /** For a matrix with non-negative row sums and a positive total, the white
      chromaticity is the chromaticity of the matrix applied to (1, 1, 1). */
  lemma WhiteIsRowSumChromaticity(m: Mat3, d: Display, crt: Mat3)
    requires 0.0 <= m.r0.Sum() && 0.0 <= m.r1.Sum() && 0.0 <= m.r2.Sum()
    requires 0.0 < m.r0.Sum() + m.r1.Sum() + m.r2.Sum()
    ensures var white := Apply(m, Vec3(1.0, 1.0, 1.0));
      XyzToXyy(white, d, crt).Ok? && WhiteChromaticity(m).Ok? &&
      WhiteChromaticity(m).value == Vec3(XyzToXyy(white, d, crt).value.a, XyzToXyy(white, d, crt).value.b, 0.0)
  {
    ApplyOnes(m);
  }

  /** Black maps to the chromaticity of the display's white, RGB (1, 1, 1). */
  lemma BlackIsWhite(d: Display, crt: Mat3)
    requires d != Crt
    ensures var white := Apply(RgbToXyzMatrix(d, crt), Vec3(1.0, 1.0, 1.0));
      XyzToXyy(white, d, crt).Ok? && XyzToXyy(Vec3(0.0, 0.0, 0.0), d, crt).Ok? &&
      XyzToXyy(Vec3(0.0, 0.0, 0.0), d, crt).value ==
        Vec3(XyzToXyy(white, d, crt).value.a, XyzToXyy(white, d, crt).value.b, 0.0)
  {
    var m := RgbToXyzMatrix(d, crt);
    assert 0.0 <= m.r0.Sum() && 0.0 <= m.r1.Sum() && 0.0 <= m.r2.Sum();
    WhiteIsRowSumChromaticity(m, d, crt);
  }

  lemma XyyOfGrey()
    ensures XyzToXyy(Vec3(0.5, 0.5, 0.5), Srgb, SRGB_TO_XYZ_2) == Ok(Vec3(1.0 / 3.0, 1.0 / 3.0, 0.5))
  {
  }

  lemma XyzOfExample()
    ensures XyyToXyz(Vec3(0.3, 0.3, 0.5)) == Ok(Vec3(0.5, 0.5, 2.0 / 3.0))
  {
  }

  lemma QuotientTimes(p: real, q: real, k: real)
    requires q != 0.0 && k != 0.0
    ensures (k * p) / (k * q) == p / q
  {
  }

  /** xyY -> XYZ -> xyY is the identity for Y > 0 and x + y <= 1. */
  lemma {:induction false} XyyRoundTrip(xyy: Vec3, d: Display, crt: Mat3)
    requires 0.0 <= xyy.a <= 1.0 && 0.0 < xyy.b <= 1.0 && 0.0 < xyy.c
    requires xyy.a + xyy.b <= 1.0
    ensures XyyToXyz(xyy).Ok?
    ensures XyzToXyy(XyyToXyz(xyy).value, d, crt) == Ok(xyy)
  {
    var (x, y, lum) := (xyy.a, xyy.b, xyy.c);
    var k := lum / y;
    var xyz := XyyToXyz(xyy).value;
    assert xyz.a == k * x by { assert lum * (x / y) == (lum / y) * x; }
    assert xyz.b == k * y by { assert lum == (lum / y) * y; }
    assert xyz.c == k * (1.0 - x - y) by { assert lum * ((1.0 - x - y) / y) == (lum / y) * (1.0 - x - y); }
    assert 0.0 < k;
    MulNonNegative(k, x);
    MulNonNegative(k, 1.0 - x - y);
    assert xyz.Sum() == k by {
      assert k * x + k * y + k * (1.0 - x - y) == k * (x + y + (1.0 - x - y));
    }
    assert xyz.a / k == x;
    assert xyz.b / k == y;
  }

  /** XYZ -> xyY -> XYZ is the identity for Y > 0. */
  lemma {:induction false} XyzRoundTrip(xyz: Vec3, d: Display, crt: Mat3)
    requires xyz.NonNegative() && 0.0 < xyz.b
    ensures XyzToXyy(xyz, d, crt).Ok?
    ensures XyyToXyz(XyzToXyy(xyz, d, crt).value) == Ok(xyz)
  {
    var s := xyz.Sum();
    XyyRange(xyz, d, crt);
    var xyy := XyzToXyy(xyz, d, crt).value;
    assert xyy == Vec3(xyz.a / s, xyz.b / s, xyz.b);
    assert 0.0 < xyy.b <= 1.0;
    assert xyy.a <= 1.0;
    var back := XyyToXyz(xyy).value;
    assert back.a == xyz.a by {
      assert (xyz.a / s) / (xyz.b / s) == xyz.a / xyz.b;
      assert xyz.b * (xyz.a / xyz.b) == xyz.a;
    }
    assert back.c == xyz.c by {
      assert 1.0 - xyz.a / s - xyz.b / s == xyz.c / s by { DivPartition(xyz.a, xyz.b, xyz.c); }
      assert (xyz.c / s) / (xyz.b / s) == xyz.c / xyz.b;
      assert xyz.b * (xyz.c / xyz.b) == xyz.c;
    }
  }

  // ---------------------------------------------------------------------------
  // XYZ <-> display RGB

  /** Every coefficient of a row is non-negative. */
  predicate RowNonNegative(row: Vec3)
  {
    0.0 <= row.a && 0.0 <= row.b && 0.0 <= row.c
  }

  /** The sign checks of `xyz_to_rgb`: a tristimulus value must be non-negative
      only when the matching coefficient row is. */
  predicate SignChecksPass(m: Mat3, xyz: Vec3)
  {
    && (RowNonNegative(m.r0) ==> 0.0 <= xyz.a)
    && (RowNonNegative(m.r1) ==> 0.0 <= xyz.b)
    && (RowNonNegative(m.r2) ==> 0.0 <= xyz.c)
  }

  /** Every coefficient of a matrix, so every column, is non-negative. */
  predicate MatrixNonNegative(m: Mat3)
  {
    RowNonNegative(m.r0) && RowNonNegative(m.r1) && RowNonNegative(m.r2)
  }

  /** The within-gamut test of `xyz_to_rgb` passes the primaries (the columns of
      the RGB -> XYZ matrix) and the input itself to `xyz_to_xyy`, whose asserts
      need all of them non-negative. */
  predicate GamutTestAccepts(d: Display, crt: Mat3, xyz: Vec3)
  {
    MatrixNonNegative(RgbToXyzMatrix(d, crt)) && xyz.NonNegative()
  }

  function Abs(v: real): real { if v < 0.0 then -v else v }

  /** The warnings `xyz_to_rgb` can raise, as flags (the outcome of the
      within-gamut test is not modelled, only its asserts). */
  datatype XyzToRgbWarnings = XyzToRgbWarnings(
    gammaIgnored: bool,        // gamma correction requested for a non-sRGB display
    gamutCheckSkipped: bool,   // exterior primaries skip the within-gamut test
    aboveWhite: bool,          // Y above the white luminance of the display
    channelOutOfRange: bool)   // some channel outside [0, 1] before abs()

  datatype RgbResult = RgbResult(rgb: Vec3, warnings: XyzToRgbWarnings)

  /** `xyz_to_rgb`. */
  function XyzToRgb(xyz: Vec3, d: Display, gamma: bool, suppress: bool, crt: Mat3,
                    pow: (real, real) -> real): (r: Result<RgbResult>)
    requires d == Crt ==> Det(crt) != 0.0
    ensures r.Ok? <==> SignChecksPass(XyzToRgbMatrix(d, crt), xyz) &&
                       (!suppress && d != Exterior ==> GamutTestAccepts(d, crt, xyz))
    ensures r.Ok? ==> r.value.rgb.NonNegative()
    ensures r.Ok? && suppress ==> r.value.warnings == XyzToRgbWarnings(false, false, false, false)
    ensures r.Ok? && !suppress ==>
      && r.value.warnings.gammaIgnored == (gamma && d != Srgb)
      && r.value.warnings.gamutCheckSkipped == (d == Exterior)
  {
    var m := XyzToRgbMatrix(d, crt);
    if !SignChecksPass(m, xyz) then Err(AssertionError)
    else if !suppress && d != Exterior && !GamutTestAccepts(d, crt, xyz) then Err(AssertionError)
    else
      var linear := Apply(m, xyz);
      var encoded := if d == Srgb && gamma then Transfer.EncodeAll(linear, pow) else linear;
      var warnings :=
        if suppress then XyzToRgbWarnings(false, false, false, false)
        else XyzToRgbWarnings(
          gamma && d != Srgb,
          d == Exterior,
          xyz.b > RgbToXyzMatrix(d, crt).r1.Sum(),
          !encoded.InUnitCube());
      Ok(RgbResult(Vec3(Abs(encoded.a), Abs(encoded.b), Abs(encoded.c)), warnings))
  }

  /** On sRGB, whose rows all mix signs, only the within-gamut test looks at
      the sign of the input: a negative X is refused with warnings on and
      converted with them suppressed. */
  lemma NegativeInputNeedsSuppress(crt: Mat3, pow: (real, real) -> real)
    ensures XyzToRgb(Vec3(-0.1, 0.5, 0.5), Srgb, false, false, crt, pow) == Err(AssertionError)
    ensures XyzToRgb(Vec3(-0.1, 0.5, 0.5), Srgb, false, true, crt, pow).Ok?
  {
    assert !RowNonNegative(XYZ_TO_SRGB_2.r0) && !RowNonNegative(XYZ_TO_SRGB_2.r1) && !RowNonNegative(XYZ_TO_SRGB_2.r2) by {
      XyzToSrgb2Signs();
    }
  }

  datatype XyzResult = XyzResult(xyz: Vec3, gammaIgnored: bool)

  /** `rgb_to_xyz`: channels in [0, 1]; decoding only for sRGB with the flag set. */
  function RgbToXyz(rgb: Vec3, d: Display, gamma: bool, suppress: bool, crt: Mat3,
                    pow: (real, real) -> real): (r: Result<XyzResult>)
    ensures r.Ok? <==> rgb.InUnitCube()
    ensures r.Ok? ==> r.value.gammaIgnored == (!suppress && gamma && d != Srgb)
  {
    if !rgb.InUnitCube() then Err(AssertionError)
    else
      var linear := if d == Srgb && gamma then Transfer.DecodeAll(rgb, pow) else rgb;
      Ok(XyzResult(Apply(RgbToXyzMatrix(d, crt), linear), !suppress && gamma && d != Srgb))
  }

  /** The gamma flag changes nothing unless the display is sRGB. */
  lemma GammaOnlyForSrgb(rgb: Vec3, d: Display, suppress: bool, crt: Mat3, pow: (real, real) -> real)
    requires d != Srgb && rgb.InUnitCube()
    ensures RgbToXyz(rgb, d, true, suppress, crt, pow).value.xyz == RgbToXyz(rgb, d, false, suppress, crt, pow).value.xyz
  {
  }

  /** The sRGB and interior matrices are non-negative, so are their outputs on
      non-negative input. */
  lemma NonNegativeDisplays(d: Display, crt: Mat3, v: Vec3)
    requires d == Srgb || d == Interior
    requires v.NonNegative()
    ensures Apply(RgbToXyzMatrix(d, crt), v).NonNegative()
  {
  }

  /** Display colours survive RGB -> XYZ -> RGB without gamma correction. */
  lemma {:induction false} DisplayRoundTrip(rgb: Vec3, d: Display, suppress: bool, crt: Mat3,
                                            pow: (real, real) -> real)
    requires rgb.InUnitCube()
    requires d == Srgb || d == Interior
    ensures var xyz := RgbToXyz(rgb, d, false, suppress, crt, pow).value.xyz;
      XyzToRgb(xyz, d, false, suppress, crt, pow).Ok? &&
      XyzToRgb(xyz, d, false, suppress, crt, pow).value.rgb == rgb
  {
    var m := RgbToXyzMatrix(d, crt);
    var xyz := Apply(m, rgb);
    NonNegativeDisplays(d, crt, rgb);
    if d == Srgb {
      XyzToSrgb2Undoes(rgb);
    } else {
      XyzToRgbInteriorUndoes(rgb);
    }
    assert Apply(XyzToRgbMatrix(d, crt), xyz) == rgb;
  }

  /** With gamma correction on sRGB, the round trip is exact for every channel on
      which encoding undoes decoding (by Transfer.LinearSegmentRoundTrip, every
      channel up to 0.04045). */
  lemma {:induction false} GammaRoundTrip(rgb: Vec3, suppress: bool, crt: Mat3, pow: (real, real) -> real)
    requires rgb.InUnitCube()
    requires Numerics.PowerFacts(pow)
    requires Transfer.EncodeAll(Transfer.DecodeAll(rgb, pow), pow) == rgb
    ensures var xyz := RgbToXyz(rgb, Srgb, true, suppress, crt, pow).value.xyz;
      XyzToRgb(xyz, Srgb, true, suppress, crt, pow).Ok? &&
      XyzToRgb(xyz, Srgb, true, suppress, crt, pow).value.rgb == rgb
  {
    var lin := Transfer.DecodeAll(rgb, pow);
    Transfer.DecodeAllWithinUnit(rgb, pow);
    NonNegativeDisplays(Srgb, crt, lin);
    XyzToSrgb2Undoes(lin);
  }

  // ---------------------------------------------------------------------------
  // CIE 1931 (x, y) <-> CIE 1960 (u, v), MacAdam's formulas

  function XyToUvDenominator(x: real, y: real): real { 12.0 * y - 2.0 * x + 3.0 }

  function UvToXyDenominator(u: real, v: real): real { 2.0 * u - 8.0 * v + 4.0 }

  /** `xy_to_uv`: requires 0 <= x <= 1 and 0 < y <= 1. */
  function XyToUv(x: real, y: real): (r: Result<(real, real)>)
    ensures r.Ok? <==> 0.0 <= x <= 1.0 && 0.0 < y <= 1.0
    ensures r.Ok? ==> XyToUvDenominator(x, y) > 1.0
    ensures r.Ok? ==> (r.value.0 * XyToUvDenominator(x, y) == 4.0 * x
                        && r.value.1 * XyToUvDenominator(x, y) == 6.0 * y)
  {
    if !(0.0 <= x <= 1.0 && 0.0 < y <= 1.0) then Err(AssertionError)
    else
      var den := XyToUvDenominator(x, y);
      Ok((4.0 * x / den, 6.0 * y / den))
  }

  /** `uv_to_xy`: requires u, v in [0, 1]; those checks leave a zero denominator
      possible (u = 0, v = 0.5), where Python raises. */
  function UvToXy(u: real, v: real): (r: Result<(real, real)>)
    ensures !(0.0 <= u <= 1.0 && 0.0 <= v <= 1.0) ==> r == Err(AssertionError)
    ensures 0.0 <= u <= 1.0 && 0.0 <= v <= 1.0 && UvToXyDenominator(u, v) == 0.0 ==> r == Err(ZeroDivision)
    ensures r.Ok? ==> (r.value.0 * UvToXyDenominator(u, v) == 3.0 * u
                        && r.value.1 * UvToXyDenominator(u, v) == 2.0 * v)
  {
    if !(0.0 <= u <= 1.0 && 0.0 <= v <= 1.0) then Err(AssertionError)
    else
      var den := UvToXyDenominator(u, v);
      if den == 0.0 then Err(ZeroDivision)
      else Ok((3.0 * u / den, 2.0 * v / den))
  }

  lemma UvToXyZeroDenominator()
    ensures UvToXy(0.0, 0.5) == Err(ZeroDivision)
  {
  }

  lemma UvExample()
    ensures XyToUv(0.3, 0.3) == Ok((0.2, 0.3))
    ensures UvToXy(0.2, 0.3) == Ok((0.3, 0.3))
  {
  }

  lemma QuotientBack(p: real, q: real, den: real)
    requires 0.0 < den && q != 0.0
    requires q * den == 12.0
    ensures (p / den) / q == p / 12.0
  {
    assert q == 12.0 / den;
  }

  /** The scalar algebra behind the uv round trip. */
  lemma MacAdamInverse(x: real, y: real)
    requires 0.0 <= x <= 1.0 && 0.0 <= y <= 1.0
    ensures var den := XyToUvDenominator(x, y);
      var (u, v) := (4.0 * x / den, 6.0 * y / den);
      && UvToXyDenominator(u, v) * den == 12.0
      && 3.0 * u / UvToXyDenominator(u, v) == x
      && 2.0 * v / UvToXyDenominator(u, v) == y
  {
    var den := XyToUvDenominator(x, y);
    var (u, v) := (4.0 * x / den, 6.0 * y / den);
    assert u * den == 4.0 * x;
    assert v * den == 6.0 * y;
    var back := UvToXyDenominator(u, v);
    assert back * den == 2.0 * (u * den) - 8.0 * (v * den) + 4.0 * den;
    assert back * den == 12.0;
    assert 3.0 * u == (12.0 * x) / den;
    assert 2.0 * v == (12.0 * y) / den;
    QuotientBack(12.0 * x, back, den);
    QuotientBack(12.0 * y, back, den);
  }

  /** uv -> xy of xy -> uv is the identity whenever uv_to_xy's range checks pass,
      which is exactly when 2x <= 4y + 1. */
  lemma {:induction false} UvRoundTrip(x: real, y: real)
    requires 0.0 <= x <= 1.0 && 0.0 < y <= 1.0
    ensures XyToUv(x, y).Ok?
    ensures var uv := XyToUv(x, y).value;
      (0.0 <= uv.0 <= 1.0 && 0.0 <= uv.1 <= 1.0) <==> 2.0 * x <= 4.0 * y + 1.0
    ensures 2.0 * x <= 4.0 * y + 1.0 ==> UvToXy(XyToUv(x, y).value.0, XyToUv(x, y).value.1) == Ok((x, y))
  {
    var den := XyToUvDenominator(x, y);
    var (u, v) := (4.0 * x / den, 6.0 * y / den);
    assert XyToUv(x, y).value == (u, v);
    assert 0.0 <= u && (u <= 1.0 <==> 4.0 * x <= den) by { DivBounds(4.0 * x, den); }
    assert 0.0 <= v <= 1.0 by { DivBounds(6.0 * y, den); }
    MacAdamInverse(x, y);
  }
}
