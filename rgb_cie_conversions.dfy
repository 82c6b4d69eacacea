/** maths/rgb_cie_conversions.py: sRGB <-> CIE 1931 2-degree tristimulus values
    and chromoluminance (x, y, Y), with optional gamma correction and optional
    caller-supplied coefficients. `None` coefficients select the sRGB matrix;
    gamma correction is applied only in that case. */
module RgbCieConversions {
  import opened Wrappers
  import opened LinearAlgebra
  import opened Numerics
  import Coefficients
  import Transfer

  /** The matrix used for RGB -> XYZ. */
  function ForwardMatrix(coefficients: Option<Mat3>): Mat3
  {
    if coefficients.None? then Coefficients.SRGB_TO_XYZ_2 else coefficients.value
  }

  /** The matrix used for XYZ -> RGB: the caller supplies the inverse itself. */
  function BackwardMatrix(coefficients: Option<Mat3>): Mat3
  {
    if coefficients.None? then Coefficients.XYZ_TO_SRGB_2 else coefficients.value
  }

  /** Gamma correction happens only with the flag set and the default matrix. */
  predicate Corrects(gamma: bool, coefficients: Option<Mat3>)
  {
    gamma && coefficients.None?
  }

  /** `rgb_to_tristimulus`. */
  function RgbToTristimulus(rgb: Vec3, gamma: bool, coefficients: Option<Mat3>,
                            pow: (real, real) -> real): (r: Result<Vec3>)
    ensures r.Ok? <==> rgb.InUnitCube()
  {
    if !rgb.InUnitCube() then Err(AssertionError)
    else
      var linear := if Corrects(gamma, coefficients) then Transfer.DecodeAll(rgb, pow) else rgb;
      Ok(Apply(ForwardMatrix(coefficients), linear))
  }

  /** (X / sum, Y / sum, Y) of a tristimulus triple with a non-zero sum. */
  function Chromoluminance(xyz: Vec3): Vec3
    requires xyz.Sum() != 0.0
  {
    Vec3(xyz.a / xyz.Sum(), xyz.b / xyz.Sum(), xyz.b)
  }

  /** `rgb_to_chromoluminance`: black takes the chromaticity of white under the
      same settings, with luminance 0; a white of sum 0 (possible only with
      custom coefficients) is a division by zero. */
  function RgbToChromoluminance(rgb: Vec3, gamma: bool, coefficients: Option<Mat3>,
                                pow: (real, real) -> real): (r: Result<Vec3>)
    ensures !rgb.InUnitCube() ==> r == Err(AssertionError)
    ensures rgb.InUnitCube() && RgbToTristimulus(rgb, gamma, coefficients, pow).value.Sum() != 0.0 ==>
      r == Ok(Chromoluminance(RgbToTristimulus(rgb, gamma, coefficients, pow).value))
  {
    var xyz :- RgbToTristimulus(rgb, gamma, coefficients, pow);
    if xyz.Sum() == 0.0 then
      var white := RgbToTristimulus(Vec3(1.0, 1.0, 1.0), gamma, coefficients, pow).value;
      if white.Sum() == 0.0 then Err(ZeroDivision)
      else Ok(Vec3(white.a / white.Sum(), white.b / white.Sum(), 0.0))
    else Ok(Chromoluminance(xyz))
  }

  /** Each channel clipped to [0, 1]. */
  function ClipUnit(v: Vec3): (r: Vec3)
    ensures r.InUnitCube()
    ensures v.InUnitCube() <==> r == v
  {
    Vec3(Clip(v.a, 0.0, 1.0), Clip(v.b, 0.0, 1.0), Clip(v.c, 0.0, 1.0))
  }

  /** An RGB result with the flag of the clipping warning. */
  datatype ClippedRgb = ClippedRgb(rgb: Vec3, clipped: bool)

  /** The input checks of `tristimulus_to_rgb`. */
  predicate TristimulusInRange(xyz: Vec3)
  {
    0.0 <= xyz.a && 0.0 <= xyz.b <= 1.0 && 0.0 <= xyz.c
  }

  /** `tristimulus_to_rgb`: linear transformation, clipping to [0, 1] with a
      warning when a channel changed, then gamma encoding for the default
      matrix only. */
  function TristimulusToRgb(xyz: Vec3, gamma: bool, coefficients: Option<Mat3>,
                            pow: (real, real) -> real): (r: Result<ClippedRgb>)
    ensures r.Ok? <==> TristimulusInRange(xyz)
    ensures r.Ok? ==> (r.value.clipped <==> !Apply(BackwardMatrix(coefficients), xyz).InUnitCube())
    ensures r.Ok? && !Corrects(gamma, coefficients) ==> r.value.rgb.InUnitCube()
    ensures r.Ok? && !Corrects(gamma, coefficients) && !r.value.clipped ==>
      r.value.rgb == Apply(BackwardMatrix(coefficients), xyz)
  {
    if !TristimulusInRange(xyz) then Err(AssertionError)
    else
      var linear := Apply(BackwardMatrix(coefficients), xyz);
      var clipped := ClipUnit(linear);
      var out := if Corrects(gamma, coefficients) then Transfer.EncodeAll(clipped, pow) else clipped;
      Ok(ClippedRgb(out, clipped != linear))
  }

  /** With gamma correction every channel is still in [0, 1]. */
  lemma GammaOutputWithinUnit(xyz: Vec3, pow: (real, real) -> real)
    requires PowerFacts(pow) && RootFacts(pow) && MonotoneFacts(pow)
    requires TristimulusInRange(xyz)
    ensures TristimulusToRgb(xyz, true, None, pow).value.rgb.InUnitCube()
  {
    var clipped := ClipUnit(Apply(Coefficients.XYZ_TO_SRGB_2, xyz));
    Transfer.EncodeAtMostOne(clipped.a, pow);
    Transfer.EncodeAtMostOne(clipped.b, pow);
    Transfer.EncodeAtMostOne(clipped.c, pow);
    Transfer.EncodeNonNegative(clipped.a, pow);
    Transfer.EncodeNonNegative(clipped.b, pow);
    Transfer.EncodeNonNegative(clipped.c, pow);
  }

  /** The tristimulus triple `chromoluminance_to_rgb` passes on. */
  function ChromoluminanceToTristimulus(xyy: Vec3): Vec3
    requires xyy.b != 0.0
  {
    Vec3(xyy.c * (xyy.a / xyy.b), xyy.c, xyy.c * ((1.0 - xyy.a - xyy.b) / xyy.b))
  }

  /** The input checks of `chromoluminance_to_rgb`. */
  predicate ChromoluminanceInRange(xyy: Vec3)
  {
    0.0 <= xyy.a <= 1.0 && 0.0 < xyy.b <= 1.0 && 0.0 <= xyy.c <= 1.0
  }

  /** `chromoluminance_to_rgb`. */
  function ChromoluminanceToRgb(xyy: Vec3, gamma: bool, coefficients: Option<Mat3>,
                                pow: (real, real) -> real): (r: Result<ClippedRgb>)
    ensures !ChromoluminanceInRange(xyy) ==> r == Err(AssertionError)
  {
    if !ChromoluminanceInRange(xyy) then Err(AssertionError)
    else TristimulusToRgb(ChromoluminanceToTristimulus(xyy), gamma, coefficients, pow)
  }

  // ---------------------------------------------------------------------------
  // Properties

  /** The sRGB matrix has non-negative coefficients and its middle row sums to 1,
      so a unit-cube colour gives non-negative X, Y, Z with Y <= 1. */
  lemma SrgbTristimulusInRange(v: Vec3)
    requires v.InUnitCube()
    ensures TristimulusInRange(Apply(Coefficients.SRGB_TO_XYZ_2, v))
  {
  }

  /** Black is (0, 0, 0) in XYZ under every setting. */
  lemma BlackTristimulus(gamma: bool, coefficients: Option<Mat3>, pow: (real, real) -> real)
    ensures RgbToTristimulus(Vec3(0.0, 0.0, 0.0), gamma, coefficients, pow) == Ok(Vec3(0.0, 0.0, 0.0))
  {
    var zero := Vec3(0.0, 0.0, 0.0);
    match coefficients
    case None =>
      assert Transfer.DecodeAll(zero, pow) == zero;
    case Some(m) =>
      ApplyZero(m);
  }

  /** Black has the chromaticity of white under the same settings, and
      luminance 0; a white of sum 0 is a division by zero. */
  lemma {:induction false} BlackHasWhiteChromaticity(gamma: bool, coefficients: Option<Mat3>,
                                                     pow: (real, real) -> real)
    ensures var w := RgbToTristimulus(Vec3(1.0, 1.0, 1.0), gamma, coefficients, pow).value;
      RgbToChromoluminance(Vec3(0.0, 0.0, 0.0), gamma, coefficients, pow)
        == if w.Sum() == 0.0 then Err(ZeroDivision) else Ok(Vec3(w.a / w.Sum(), w.b / w.Sum(), 0.0))
  {
    BlackTristimulus(gamma, coefficients, pow);
  }

  /** Under the default sRGB matrix white is the D65 white of the matrix's row
      sums, (0.9505, 1, 1.089), with or without gamma correction; by
      `BlackHasWhiteChromaticity` black then has chromaticity about
      (0.3127, 0.3290). */
  lemma SrgbWhite(gamma: bool, pow: (real, real) -> real)
    requires PowerFacts(pow)
    ensures RgbToTristimulus(Vec3(1.0, 1.0, 1.0), gamma, None, pow) == Ok(Vec3(0.9505, 1.0, 1.089))
  {
    var ones := Vec3(1.0, 1.0, 1.0);
    assert Transfer.DecodeAll(ones, pow) == ones by { Transfer.EndPoints(pow); }
  }

  /** Without gamma correction, XYZ -> RGB undoes RGB -> XYZ for every colour of
      the cube under the default matrix, and no clipping warning is raised. */
  lemma {:induction false} LinearRoundTrip(rgb: Vec3, pow: (real, real) -> real)
    requires rgb.InUnitCube()
    ensures var xyz := RgbToTristimulus(rgb, false, None, pow).value;
      TristimulusToRgb(xyz, false, None, pow) == Ok(ClippedRgb(rgb, false))
  {
    var xyz := Apply(Coefficients.SRGB_TO_XYZ_2, rgb);
    SrgbTristimulusInRange(rgb);
    Coefficients.XyzToSrgb2Undoes(rgb);
  }

  /** With custom coefficients and their inverse, the round trip is exact for
      every colour whose tristimulus values pass the input checks. */
  lemma {:induction false} CustomRoundTrip(rgb: Vec3, m: Mat3, gamma: bool, pow: (real, real) -> real)
    requires rgb.InUnitCube()
    requires Det(m) != 0.0
    requires TristimulusInRange(Apply(m, rgb))
    ensures var xyz := RgbToTristimulus(rgb, gamma, Some(m), pow).value;
      TristimulusToRgb(xyz, gamma, Some(Inverse(m)), pow) == Ok(ClippedRgb(rgb, false))
  {
    InverseLeft(m, rgb);
  }

  /** With gamma correction the round trip is exact wherever encoding undoes
      decoding channel by channel. */
  lemma {:induction false} GammaRoundTrip(rgb: Vec3, pow: (real, real) -> real)
    requires rgb.InUnitCube()
    requires PowerFacts(pow)
    requires Transfer.EncodeAll(Transfer.DecodeAll(rgb, pow), pow) == rgb
    ensures var xyz := RgbToTristimulus(rgb, true, None, pow).value;
      TristimulusToRgb(xyz, true, None, pow) == Ok(ClippedRgb(rgb, false))
  {
    var lin := Transfer.DecodeAll(rgb, pow);
    Transfer.DecodeAllWithinUnit(rgb, pow);
    SrgbTristimulusInRange(lin);
    Coefficients.XyzToSrgb2Undoes(lin);
  }

  /** A chromaticity beyond the line x + y = 1 with positive luminance gives a
      negative Z, which `tristimulus_to_rgb` rejects. */
  lemma OutsideTriangleRejected(xyy: Vec3, gamma: bool, coefficients: Option<Mat3>, pow: (real, real) -> real)
    requires ChromoluminanceInRange(xyy)
    requires 1.0 < xyy.a + xyy.b && 0.0 < xyy.c
    ensures ChromoluminanceToRgb(xyy, gamma, coefficients, pow) == Err(AssertionError)
  {
    NegativeZ(xyy);
    assert !TristimulusInRange(ChromoluminanceToTristimulus(xyy));
  }

  lemma NegativeZ(xyy: Vec3)
    requires 0.0 < xyy.b && 1.0 < xyy.a + xyy.b && 0.0 < xyy.c
    ensures ChromoluminanceToTristimulus(xyy).c < 0.0
  {
    var q := (1.0 - xyy.a - xyy.b) / xyy.b;
    assert q < 0.0;
    assert xyy.c * q < 0.0;
  }

  /** Chromoluminance inverts `ChromoluminanceToTristimulus` for positive Y. */
  lemma {:induction false} ChromoluminanceRoundTrip(xyz: Vec3)
    requires 0.0 < xyz.b && 0.0 <= xyz.a && 0.0 <= xyz.c
    ensures var xyy := Chromoluminance(xyz);
      xyy.b != 0.0 && ChromoluminanceToTristimulus(xyy) == xyz
  {
    var s := xyz.Sum();
    var xyy := Chromoluminance(xyz);
    DivBounds(xyz.b, s);
    var back := ChromoluminanceToTristimulus(xyy);
    assert back.a == xyz.a by {
      DivCancel(xyz.a, xyz.b, s);
      MulDivCancel(xyz.a, xyz.b);
    }
    assert back.c == xyz.c by {
      DivPartition(xyz.a, xyz.b, xyz.c);
      assert 1.0 - xyz.a / s - xyz.b / s == xyz.c / s;
      DivCancel(xyz.c, xyz.b, s);
      MulDivCancel(xyz.c, xyz.b);
    }
  }
}
