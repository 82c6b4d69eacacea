/** The cone-activation helpers of maths/color_blindness.py: conversions
    between CIE 1931 tristimulus values and Smith & Pokorny (1975) 2-degree
    cone activations (LMS), deliberately without sign checks so that points
    beyond the spectrum locus can be converted, and their compositions with
    the gamma-corrected sRGB conversions of maths/rgb_cie_conversions.py.
    The file's `intersection_two_segments` is the same routine as
    `Functions.IntersectionOfTwoSegments`. */
module ColorBlindness {
  import opened Wrappers
  import opened LinearAlgebra
  import Coefficients
  import Transfer
  import opened RgbCieConversions
  import ColorConversion

  /** Smith & Pokorny 2-degree XYZ to LMS. The same numbers are called
      `LMS_TO_XYZ_2` in maths/conversion_coefficients.py; each file is modelled
      as it is written. */
  const XYZ_TO_LMS: Mat3 := Mat3(
    Vec3(0.15514, 0.54312, -0.03286),
    Vec3(-0.15514, 0.45684, 0.03286),
    Vec3(0.0, 0.0, 0.00801))

  /** `inv(XYZ_TO_LMS)`, written out exactly (LmsToXyzExact). */
  const LMS_TO_XYZ: Mat3 := Mat3(
    Vec3(190350000.0 / 64639081.0, -226300000.0 / 64639081.0, 164300000.0 / 6213357.0),
    Vec3(25000.0 / 24999.0, 25000.0 / 24999.0, 0.0),
    Vec3(0.0, 0.0, 100000.0 / 801.0))

  /** `xyz_to_lms`: any values are accepted. */
  function XyzToLms(xyz: Vec3): Vec3
  {
    Apply(XYZ_TO_LMS, xyz)
  }

  /** `lms_to_xyz`: any values are accepted. */
  function LmsToXyz(lms: Vec3): Vec3
  {
    Apply(LMS_TO_XYZ, lms)
  }

  /** `rgb_to_lms`: channels in [0, 1], gamma-corrected sRGB to XYZ, then LMS. */
  function RgbToLms(rgb: Vec3, pow: (real, real) -> real): (r: Result<Vec3>)
    ensures r.Ok? <==> rgb.InUnitCube()
    ensures r.Ok? ==> r.value == XyzToLms(RgbToTristimulus(rgb, true, None, pow).value)
  {
    var xyz :- RgbToTristimulus(rgb, true, None, pow);
    Ok(XyzToLms(xyz))
  }

  /** `lms_to_rgb`: non-negative activations, then XYZ, then gamma-corrected
      sRGB, so the checks of `tristimulus_to_rgb` apply to the XYZ values too. */
  function LmsToRgb(lms: Vec3, pow: (real, real) -> real): (r: Result<ClippedRgb>)
    ensures r.Ok? <==> lms.NonNegative() && TristimulusInRange(LmsToXyz(lms))
  {
    if !lms.NonNegative() then Err(AssertionError)
    else TristimulusToRgb(LmsToXyz(lms), true, None, pow)
  }

  // ---------------------------------------------------------------------------
  // Properties

  lemma XyzToLmsInvertible()
    ensures Det(XYZ_TO_LMS) != 0.0
  {
  }

  lemma LmsToXyzExact()
    ensures Det(XYZ_TO_LMS) != 0.0 && LMS_TO_XYZ == Inverse(XYZ_TO_LMS)
  {
  }

  /** The two conversions are inverse to each other on every input. */
  lemma {:induction false} LmsXyzRoundTrip(v: Vec3)
    ensures LmsToXyz(XyzToLms(v)) == v
    ensures XyzToLms(LmsToXyz(v)) == v
  {
    LmsToXyzExact();
    InverseLeft(XYZ_TO_LMS, v);
    InverseRight(XYZ_TO_LMS, v);
  }

  /** The composite of the sRGB matrix and XYZ_TO_LMS has only positive entries. */
  lemma DisplayToLmsPositive()
    ensures var p := Product(XYZ_TO_LMS, Coefficients.SRGB_TO_XYZ_2);
      p.r0.NonNegative() && p.r1.NonNegative() && p.r2.NonNegative()
  {
  }

  lemma ApplyNonNegative(m: Mat3, v: Vec3)
    requires m.r0.NonNegative() && m.r1.NonNegative() && m.r2.NonNegative()
    requires v.NonNegative()
    ensures Apply(m, v).NonNegative()
  {
  }

  /** Every sRGB colour has non-negative cone activations. */
  lemma {:induction false} DisplayLmsNonNegative(rgb: Vec3, pow: (real, real) -> real)
    requires rgb.InUnitCube()
    requires Numerics.PowerFacts(pow)
    ensures RgbToLms(rgb, pow).value.NonNegative()
  {
    var lin := Transfer.DecodeAll(rgb, pow);
    Transfer.DecodeAllWithinUnit(rgb, pow);
    ApplyProduct(XYZ_TO_LMS, Coefficients.SRGB_TO_XYZ_2, lin);
    DisplayToLmsPositive();
    ApplyNonNegative(Product(XYZ_TO_LMS, Coefficients.SRGB_TO_XYZ_2), lin);
  }

  /** sRGB -> LMS -> sRGB gives the colour back wherever encoding undoes
      decoding, without a clipping warning. */
  lemma {:induction false} RgbLmsRoundTrip(rgb: Vec3, pow: (real, real) -> real)
    requires rgb.InUnitCube()
    requires Numerics.PowerFacts(pow)
    requires Transfer.EncodeAll(Transfer.DecodeAll(rgb, pow), pow) == rgb
    ensures LmsToRgb(RgbToLms(rgb, pow).value, pow) == Ok(ClippedRgb(rgb, false))
  {
    var xyz := RgbToTristimulus(rgb, true, None, pow).value;
    DisplayLmsNonNegative(rgb, pow);
    LmsXyzRoundTrip(xyz);
    GammaRoundTrip(rgb, pow);
  }

  /** maths/color_conversion.py applies these same numbers in the opposite
      direction: its 2-degree `lms_to_xyz` is this file's `xyz_to_lms`. */
  lemma OppositeConventions(lms: Vec3)
    requires lms.InUnitCube()
    ensures ColorConversion.LmsToXyz(lms, true) == Ok(XyzToLms(lms))
  {
  }

  /** Under that reading a pure L-cone activation has negative luminance Y,
      which no colour matching function allows; under this file's reading
      Y = 1 / 0.99996, luminance being L + M as in Smith & Pokorny. */
  lemma PureLConeLuminance()
    ensures ColorConversion.LmsToXyz(Vec3(1.0, 0.0, 0.0), true) == Ok(Vec3(0.15514, -0.15514, 0.0))
    ensures LmsToXyz(Vec3(1.0, 0.0, 0.0)).b == 1.0 / 0.99996
  {
  }
}
