/** maths/srgb_tristimulus_conversions.py: the earlier, always gamma-corrected
    version of the sRGB <-> CIE 1931 conversions. It shares the sRGB matrix and
    the transfer function with maths/rgb_cie_conversions.py, but has no custom
    coefficients and no special case for black. */
module SrgbTristimulusConversions {
  import opened Wrappers
  import opened LinearAlgebra
  import Coefficients
  import Transfer
  import opened RgbCieConversions

  /** `srgb_to_tristimulus`: decode, then the sRGB matrix. */
  function SrgbToTristimulus(rgb: Vec3, pow: (real, real) -> real): (r: Result<Vec3>)
    ensures r.Ok? <==> rgb.InUnitCube()
  {
    if !rgb.InUnitCube() then Err(AssertionError)
    else Ok(Apply(Coefficients.SRGB_TO_XYZ_2, Transfer.DecodeAll(rgb, pow)))
  }

  /** `srgb_to_chromoluminance`: divides by the sum of X, Y, Z without a black
      case, so black (sum 0) is a division by zero. */
  function SrgbToChromoluminance(rgb: Vec3, pow: (real, real) -> real): (r: Result<Vec3>)
    ensures !rgb.InUnitCube() ==> r == Err(AssertionError)
  {
    var xyz :- SrgbToTristimulus(rgb, pow);
    if xyz.Sum() == 0.0 then Err(ZeroDivision) else Ok(Chromoluminance(xyz))
  }

  /** `tristimulus_to_srgb`: matrix, clip with warning, always encode. */
  function TristimulusToSrgb(xyz: Vec3, pow: (real, real) -> real): (r: Result<ClippedRgb>)
    ensures r.Ok? <==> TristimulusInRange(xyz)
    ensures r.Ok? ==> (r.value.clipped <==> !Apply(Coefficients.XYZ_TO_SRGB_2, xyz).InUnitCube())
  {
    if !TristimulusInRange(xyz) then Err(AssertionError)
    else
      var linear := Apply(Coefficients.XYZ_TO_SRGB_2, xyz);
      var clipped := ClipUnit(linear);
      Ok(ClippedRgb(Transfer.EncodeAll(clipped, pow), clipped != linear))
  }

  /** `chromoluminance_to_srgb`. */
  function ChromoluminanceToSrgb(xyy: Vec3, pow: (real, real) -> real): (r: Result<ClippedRgb>)
    ensures !ChromoluminanceInRange(xyy) ==> r == Err(AssertionError)
  {
    if !ChromoluminanceInRange(xyy) then Err(AssertionError)
    else TristimulusToSrgb(ChromoluminanceToTristimulus(xyy), pow)
  }

  // ---------------------------------------------------------------------------
  // Agreement with maths/rgb_cie_conversions.py

  /** The forward conversion is the gamma-corrected default of the newer module. */
  lemma TristimulusAgrees(rgb: Vec3, pow: (real, real) -> real)
    ensures SrgbToTristimulus(rgb, pow) == RgbToTristimulus(rgb, true, None, pow)
  {
  }

  /** So is the backward conversion, and the chromoluminance one built on it. */
  lemma {:induction false} BackwardAgrees(xyz: Vec3, xyy: Vec3, pow: (real, real) -> real)
    ensures TristimulusToSrgb(xyz, pow) == TristimulusToRgb(xyz, true, None, pow)
    ensures ChromoluminanceToSrgb(xyy, pow) == ChromoluminanceToRgb(xyy, true, None, pow)
  {
    if ChromoluminanceInRange(xyy) {
      var t := ChromoluminanceToTristimulus(xyy);
      assert TristimulusToSrgb(t, pow) == TristimulusToRgb(t, true, None, pow);
    }
  }

  /** The chromoluminance conversions agree everywhere except on black, where
      the older one divides by zero and the newer one returns white's
      chromaticity. */
  lemma {:induction false} ChromoluminanceAgreesExceptBlack(rgb: Vec3, pow: (real, real) -> real)
    requires SrgbToTristimulus(rgb, pow).Ok? ==> SrgbToTristimulus(rgb, pow).value.Sum() != 0.0
    ensures SrgbToChromoluminance(rgb, pow) == RgbToChromoluminance(rgb, true, None, pow)
  {
    TristimulusAgrees(rgb, pow);
  }

  /** Black has no chromaticity here. */
  lemma BlackUndefined(pow: (real, real) -> real)
    ensures SrgbToChromoluminance(Vec3(0.0, 0.0, 0.0), pow) == Err(ZeroDivision)
  {
    TristimulusAgrees(Vec3(0.0, 0.0, 0.0), pow);
    BlackTristimulus(true, None, pow);
  }

  /** Colours survive the round trip wherever encoding undoes decoding. */
  lemma {:induction false} RoundTrip(rgb: Vec3, pow: (real, real) -> real)
    requires rgb.InUnitCube()
    requires Numerics.PowerFacts(pow)
    requires Transfer.EncodeAll(Transfer.DecodeAll(rgb, pow), pow) == rgb
    ensures TristimulusToSrgb(SrgbToTristimulus(rgb, pow).value, pow) == Ok(ClippedRgb(rgb, false))
  {
    TristimulusAgrees(rgb, pow);
    BackwardAgrees(SrgbToTristimulus(rgb, pow).value, Vec3(0.0, 0.0, 0.0), pow);
    GammaRoundTrip(rgb, pow);
  }
}
