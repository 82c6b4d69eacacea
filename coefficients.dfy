/** The constant conversion matrices of maths/conversion_coefficients.py. Every
    matrix the source obtains with `numpy.linalg.inv` is written out here as
    exact fractions; the lemmas at the end prove each is the exact `Inverse` of
    its matrix (whose determinant is non-zero) and undoes it. */
module Coefficients {
  import opened LinearAlgebra

  const COLOR_NAMES: seq<string> := ["Red", "Green", "Blue"]

  /** Stiles & Burch 1959 primaries to unscaled 10-degree cone fundamentals. */
  const RGB_TO_UNSCALED_LMS_10: Mat3 := Mat3(
    Vec3(2.846201, 11.092490, 1.0),
    Vec3(0.168926, 8.265895, 1.0),
    Vec3(0.0, 0.010600, 1.0))

  /** `inv(RGB_TO_UNSCALED_LMS_10)`, written out exactly. */
  const UNSCALED_LMS_TO_RGB_10: Mat3 := Mat3(
    Vec3(1651059000000.0 / 4324841906831.0, -2216378000000.0 / 4324841906831.0, 565319000000.0 / 4324841906831.0),
    Vec3(-33785200000.0 / 4324841906831.0, 569240200000.0 / 4324841906831.0, -535455000000.0 / 4324841906831.0),
    Vec3(358123120.0 / 4324841906831.0, -6033946120.0 / 4324841906831.0, 4330517729831.0 / 4324841906831.0))

  /** The same, scaled so that each cone fundamental peaks at 1. */
  const RGB_TO_LMS_10: Mat3 := Mat3(
    Vec3(0.191888, 0.747846, 0.067419),
    Vec3(0.019219, 0.940413, 0.113770),
    Vec3(0.0, 0.010590, 0.999052))

  /** `inv(RGB_TO_LMS_10)`, written out exactly. */
  const LMS_TO_RGB_10: Mat3 := Mat3(
    Vec3(31277222139200000.0 / 5523540099372301.0, -24880769159400000.0 / 5523540099372301.0, 722691179100000.0 / 5523540099372301.0),
    Vec3(-1920078038800000.0 / 16570620298116903.0, 19170609017600000.0 / 16570620298116903.0, -2053537199900000.0 / 16570620298116903.0),
    Vec3(6784307000000.0 / 5523540099372301.0, -67736464000000.0 / 5523540099372301.0, 5536037249000000.0 / 5523540099372301.0))

  /** CIE 170-2 10-degree cone fundamentals to colour matching functions. */
  const LMS_TO_XYZ_10: Mat3 := Mat3(
    Vec3(1.93986443, -1.34664359, 0.43044935),
    Vec3(0.69283932, 0.34967567, 0.0),
    Vec3(0.0, 0.0, 2.14687945))

  /** `inv(LMS_TO_XYZ_10)`, written out exactly. */
  const XYZ_TO_LMS_10: Mat3 := Mat3(
    Vec3(3496756700000000.0 / 16113310234473769.0, 13466435900000000.0 / 16113310234473769.0, -1770796057203700000000.0 / 40698040722195783800173.0),
    Vec3(-6928393200000000.0 / 16113310234473769.0, 19398644300000000.0 / 16113310234473769.0, 3508614528805200000000.0 / 40698040722195783800173.0),
    Vec3(0.0, 0.0, 20000000.0 / 42937589.0))

  /** Smith & Pokorny 2-degree cone fundamentals to colour matching functions. */
  const LMS_TO_XYZ_2: Mat3 := Mat3(
    Vec3(0.15514, 0.54312, -0.03286),
    Vec3(-0.15514, 0.45684, 0.03286),
    Vec3(0.0, 0.0, 0.00801))

  /** `inv(LMS_TO_XYZ_2)`, written out exactly. */
  const XYZ_TO_LMS_2: Mat3 := Mat3(
    Vec3(190350000.0 / 64639081.0, -226300000.0 / 64639081.0, 164300000.0 / 6213357.0),
    Vec3(25000.0 / 24999.0, 25000.0 / 24999.0, 0.0),
    Vec3(0.0, 0.0, 100000.0 / 801.0))

  /** Linear sRGB to CIE 1931 2-degree tristimulus values. */
  const SRGB_TO_XYZ_2: Mat3 := Mat3(
    Vec3(0.4124, 0.3576, 0.1805),
    Vec3(0.2126, 0.7152, 0.0722),
    Vec3(0.0193, 0.1192, 0.9505))

  const XYZ_TO_SRGB_2: Mat3 := Inverse(SRGB_TO_XYZ_2)

  /** Custom primaries inside the spectrum locus. */
  const RGB_TO_XYZ_CUSTOM_INTERIOR: Mat3 := Mat3(
    Vec3(0.7365, 0.0435, 0.1705),
    Vec3(0.3654, 0.5821, 0.0525),
    Vec3(0.0058, 0.0801, 1.0032))

  /** `inv(RGB_TO_XYZ_CUSTOM_INTERIOR)`, written out exactly. */
  const XYZ_TO_RGB_CUSTOM_INTERIOR: Mat3 := Mat3(
    Vec3(115951494000.0 / 83094701221.0, -5996430000.0 / 83094701221.0, -19392860000.0 / 83094701221.0),
    Vec3(-10464708000.0 / 11870671603.0, 21081940000.0 / 11870671603.0, 675270000.0 / 11870671603.0),
    Vec3(5178472000.0 / 83094701221.0, -11748270000.0 / 83094701221.0, 82564350000.0 / 83094701221.0))

  /** Custom primaries enclosing the spectrum locus. */
  const RGB_TO_XYZ_CUSTOM_EXTERIOR: Mat3 := Mat3(
    Vec3(0.8812, -0.0405, 0.1097),
    Vec3(0.3247, 0.7334, -0.0581),
    Vec3(-0.2237, 0.0807, 1.2320))

  /** `inv(RGB_TO_XYZ_CUSTOM_EXTERIOR)`, written out exactly. */
  const XYZ_TO_RGB_CUSTOM_EXTERIOR: Mat3 := Mat3(
    Vec3(454118735000.0 / 418442884359.0, 9791465000.0 / 139480961453.0, -39050465000.0 / 418442884359.0),
    Vec3(-193516715000.0 / 418442884359.0, 185029715000.0 / 139480961453.0, 43408655000.0 / 418442884359.0),
    Vec3(95132435000.0 / 418442884359.0, -10342165000.0 / 139480961453.0, 329711215000.0 / 418442884359.0))

  // ---------------------------------------------------------------------------
  // Each written-out inverse is the exact Inverse of its matrix and undoes it
  // from either side.

  lemma UnscaledLmsToRgb10Exact()
    ensures Det(RGB_TO_UNSCALED_LMS_10) != 0.0 && UNSCALED_LMS_TO_RGB_10 == Inverse(RGB_TO_UNSCALED_LMS_10)
  {
  }

  lemma UnscaledLmsToRgb10Undoes(v: Vec3)
    ensures Apply(UNSCALED_LMS_TO_RGB_10, Apply(RGB_TO_UNSCALED_LMS_10, v)) == v
    ensures Apply(RGB_TO_UNSCALED_LMS_10, Apply(UNSCALED_LMS_TO_RGB_10, v)) == v
  {
    UnscaledLmsToRgb10Exact();
    InverseLeft(RGB_TO_UNSCALED_LMS_10, v);
    InverseRight(RGB_TO_UNSCALED_LMS_10, v);
  }

  lemma LmsToRgb10Exact()
    ensures Det(RGB_TO_LMS_10) != 0.0 && LMS_TO_RGB_10 == Inverse(RGB_TO_LMS_10)
  {
  }

  lemma LmsToRgb10Undoes(v: Vec3)
    ensures Apply(LMS_TO_RGB_10, Apply(RGB_TO_LMS_10, v)) == v
    ensures Apply(RGB_TO_LMS_10, Apply(LMS_TO_RGB_10, v)) == v
  {
    LmsToRgb10Exact();
    InverseLeft(RGB_TO_LMS_10, v);
    InverseRight(RGB_TO_LMS_10, v);
  }

  lemma XyzToLms10Exact()
    ensures Det(LMS_TO_XYZ_10) != 0.0 && XYZ_TO_LMS_10 == Inverse(LMS_TO_XYZ_10)
  {
  }

  lemma XyzToLms10Undoes(v: Vec3)
    ensures Apply(XYZ_TO_LMS_10, Apply(LMS_TO_XYZ_10, v)) == v
    ensures Apply(LMS_TO_XYZ_10, Apply(XYZ_TO_LMS_10, v)) == v
  {
    XyzToLms10Exact();
    InverseLeft(LMS_TO_XYZ_10, v);
    InverseRight(LMS_TO_XYZ_10, v);
  }

  lemma XyzToLms2Exact()
    ensures Det(LMS_TO_XYZ_2) != 0.0 && XYZ_TO_LMS_2 == Inverse(LMS_TO_XYZ_2)
  {
  }

  lemma XyzToLms2Undoes(v: Vec3)
    ensures Apply(XYZ_TO_LMS_2, Apply(LMS_TO_XYZ_2, v)) == v
    ensures Apply(LMS_TO_XYZ_2, Apply(XYZ_TO_LMS_2, v)) == v
  {
    XyzToLms2Exact();
    InverseLeft(LMS_TO_XYZ_2, v);
    InverseRight(LMS_TO_XYZ_2, v);
  }

  lemma XyzToSrgb2Exact()
    ensures Det(SRGB_TO_XYZ_2) != 0.0 && XYZ_TO_SRGB_2 == Inverse(SRGB_TO_XYZ_2)
  {
  }

  lemma XyzToSrgb2Undoes(v: Vec3)
    ensures Apply(XYZ_TO_SRGB_2, Apply(SRGB_TO_XYZ_2, v)) == v
    ensures Apply(SRGB_TO_XYZ_2, Apply(XYZ_TO_SRGB_2, v)) == v
  {
    XyzToSrgb2Exact();
    InverseLeft(SRGB_TO_XYZ_2, v);
    InverseRight(SRGB_TO_XYZ_2, v);
  }

  /** Every row of the sRGB XYZ -> RGB matrix has a negative coefficient. */
  lemma XyzToSrgb2Signs()
    ensures XYZ_TO_SRGB_2.r0.b < 0.0 && XYZ_TO_SRGB_2.r1.a < 0.0 && XYZ_TO_SRGB_2.r2.b < 0.0
  {
    var m := SRGB_TO_XYZ_2;
    var adj := Adjugate(m);
    assert 0.0 < Det(m);
    var k := 1.0 / Det(m);
    assert 0.0 < k;
    assert adj.r0.b < 0.0 && adj.r1.a < 0.0 && adj.r2.b < 0.0;
    assert XYZ_TO_SRGB_2 == ScaleRows(k, adj);
    assert k * adj.r0.b < 0.0 && k * adj.r1.a < 0.0 && k * adj.r2.b < 0.0;
  }

  lemma XyzToRgbInteriorExact()
    ensures Det(RGB_TO_XYZ_CUSTOM_INTERIOR) != 0.0 && XYZ_TO_RGB_CUSTOM_INTERIOR == Inverse(RGB_TO_XYZ_CUSTOM_INTERIOR)
  {
  }

  lemma XyzToRgbInteriorUndoes(v: Vec3)
    ensures Apply(XYZ_TO_RGB_CUSTOM_INTERIOR, Apply(RGB_TO_XYZ_CUSTOM_INTERIOR, v)) == v
    ensures Apply(RGB_TO_XYZ_CUSTOM_INTERIOR, Apply(XYZ_TO_RGB_CUSTOM_INTERIOR, v)) == v
  {
    XyzToRgbInteriorExact();
    InverseLeft(RGB_TO_XYZ_CUSTOM_INTERIOR, v);
    InverseRight(RGB_TO_XYZ_CUSTOM_INTERIOR, v);
  }

  lemma XyzToRgbExteriorExact()
    ensures Det(RGB_TO_XYZ_CUSTOM_EXTERIOR) != 0.0 && XYZ_TO_RGB_CUSTOM_EXTERIOR == Inverse(RGB_TO_XYZ_CUSTOM_EXTERIOR)
  {
  }

  lemma XyzToRgbExteriorUndoes(v: Vec3)
    ensures Apply(XYZ_TO_RGB_CUSTOM_EXTERIOR, Apply(RGB_TO_XYZ_CUSTOM_EXTERIOR, v)) == v
    ensures Apply(RGB_TO_XYZ_CUSTOM_EXTERIOR, Apply(XYZ_TO_RGB_CUSTOM_EXTERIOR, v)) == v
  {
    XyzToRgbExteriorExact();
    InverseLeft(RGB_TO_XYZ_CUSTOM_EXTERIOR, v);
    InverseRight(RGB_TO_XYZ_CUSTOM_EXTERIOR, v);
  }
}
