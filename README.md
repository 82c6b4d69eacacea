# A Dafny model of the colour-science core of visualizing-color-space

The repository draws colour-science figures from a small Python library. This
project models the part of that library that is exact algebra over the reals,
guard logic or loops with invariants:

- the colour-space conversions (RGB, LMS, XYZ, xyY, CIE 1960 uv and the sRGB
  transfer function);
- the intersection of two lines;
- hue-angle wrapping and rectangular/polar chromaticity coordinates;
- the colour-temperature bookkeeping: the temperature series, the isotherm,
  the validity flags and the trapezoid integration of a spectrum;
- chromaticity from a spectrum;
- the grid and path builders;
- the image histogram and pixel remapping;
- the colour-blind image filter: mean chromaticity, the luminance search,
  the hue-angle bounds and the pixel remapping;
- the figure bookkeeping: the panel grid, panel moves, orientation, colour
  changes, shared-edge alignment and the output file name;
- four figure scripts: the stimulus circle packing and palette, the
  confusion lines with their copunctal points and colour bands, the
  multiple-protan copunctal estimate, and the best wavelengths of the
  named colours on the visible-spectrum locus.

Numbers are Dafny `real`s. Every Python `assert` that can fail is an
`Err(AssertionError)` result, a float division by zero is `Err(ZeroDivision)`
and an out-of-range list index is `Err(IndexError)`. Warnings are boolean
outputs. Transcendental and library functions (`arctan2`, `cos`, `sin`, `**`,
`interp1d`, `fmin`, Planck's law) are parameters. The lemmas that need facts
about them take those facts as ghost predicates of module `Numerics`
(`PowerFacts`, `MonotoneFacts`, `PolarFacts`, …). The data tables (spectrum loci, colour
matching functions) are parameters as well.

One module per source file, plus four shared ones:

- `Wrappers`: `Result` and `Option`;
- `Numerics`: sums, `linspace`, `trapz`, `int()`, `min`/`max`, and the facts
  about the transcendental parameters;
- `LinearAlgebra`: 3-vectors, 3×3 matrices, and an exact inverse through the
  adjugate, so `numpy.linalg.inv` needs no axiom;
- `Spectra`: CMF tables, `sorted` by key, spectrum clipping and lining a table
  up with a spectrum.

## Model

| member | source | states |
|---|---|---|
| LinearAlgebra.Inverse | maths/conversion_coefficients.py:64-147 | numpy `inv` as the exact adjugate over the determinant; stated by LinearAlgebra.InverseLeft and LinearAlgebra.InverseRight |
| LinearAlgebra.InverseLeft | maths/conversion_coefficients.py:64-147 | the inverse undoes the matrix on every vector |
| LinearAlgebra.InverseRight | maths/conversion_coefficients.py:64-147 | the matrix undoes its inverse on every vector |
| Coefficients.UnscaledLmsToRgb10Exact | maths/conversion_coefficients.py:64 | the written-out UNSCALED_LMS_TO_RGB_10 is the exact inverse of RGB_TO_UNSCALED_LMS_10 |
| Coefficients.UnscaledLmsToRgb10Undoes | maths/conversion_coefficients.py:64 | the two matrices undo each other on every vector |
| Coefficients.LmsToRgb10Exact | maths/conversion_coefficients.py:75 | the written-out LMS_TO_RGB_10 is the exact inverse of RGB_TO_LMS_10 |
| Coefficients.LmsToRgb10Undoes | maths/conversion_coefficients.py:75 | the two matrices undo each other on every vector |
| Coefficients.XyzToLms10Exact | maths/conversion_coefficients.py:94 | the written-out XYZ_TO_LMS_10 is the exact inverse of LMS_TO_XYZ_10 |
| Coefficients.XyzToLms10Undoes | maths/conversion_coefficients.py:94 | the two matrices undo each other on every vector |
| Coefficients.XyzToLms2Exact | maths/conversion_coefficients.py:108 | the written-out XYZ_TO_LMS_2 is the exact inverse of LMS_TO_XYZ_2 |
| Coefficients.XyzToLms2Undoes | maths/conversion_coefficients.py:108 | the two matrices undo each other on every vector |
| Coefficients.XyzToSrgb2Exact | maths/conversion_coefficients.py:123 | SRGB_TO_XYZ_2 is invertible and XYZ_TO_SRGB_2 is its inverse |
| Coefficients.XyzToSrgb2Undoes | maths/conversion_coefficients.py:123 | the two matrices undo each other on every vector |
| Coefficients.XyzToSrgb2Signs | maths/conversion_coefficients.py:123 | every row of XYZ_TO_SRGB_2 has a negative coefficient, so no sign check of `xyz_to_rgb` applies to sRGB |
| Coefficients.XyzToRgbInteriorExact | maths/conversion_coefficients.py:135 | the written-out XYZ_TO_RGB_CUSTOM_INTERIOR is the exact inverse of RGB_TO_XYZ_CUSTOM_INTERIOR |
| Coefficients.XyzToRgbInteriorUndoes | maths/conversion_coefficients.py:135 | the two matrices undo each other on every vector |
| Coefficients.XyzToRgbExteriorExact | maths/conversion_coefficients.py:147 | the written-out XYZ_TO_RGB_CUSTOM_EXTERIOR is the exact inverse of RGB_TO_XYZ_CUSTOM_EXTERIOR |
| Coefficients.XyzToRgbExteriorUndoes | maths/conversion_coefficients.py:147 | the two matrices undo each other on every vector |
| ColorConversion.ParseDisplay | maths/color_conversion.py:56-60 | `display` defaults to sRGB; a given name is accepted exactly when it is one of the four DISPLAY values, and it maps to the member of that value |
| ColorConversion.ParseDisplayName | maths/color_conversion.py:56-60 | every DISPLAY member is recovered from its value |
| ColorConversion.DisplayMatricesInvertible | maths/color_conversion.py:297-401 | the sRGB, interior and exterior matrices are invertible, and the XYZ→RGB matrix is their inverse |
| ColorConversion.LmsToRgb | maths/color_conversion.py:99-140 | accepted exactly when every cone value is non-negative and, when normalised, at most 1 |
| ColorConversion.RgbToLmsRedPrimary | maths/color_conversion.py:84-94 | (1, 0, 0) maps to the first column of the normalised or the unnormalised matrix |
| ColorConversion.RgbToLms | maths/color_conversion.py:64-97 | the normalised or unnormalised RGB→LMS matrix applied with no range checks; stated by ColorConversion.RgbToLmsRedPrimary, ColorConversion.RgbLmsRoundTrip and ColorConversion.LmsRgbRoundTrip |
| ColorConversion.RgbLmsRoundTrip | maths/color_conversion.py:64-140 | `lms_to_rgb` undoes `rgb_to_lms` whenever the cone values pass its checks |
| ColorConversion.LmsRgbRoundTrip | maths/color_conversion.py:64-140 | `rgb_to_lms` undoes an accepted `lms_to_rgb` |
| ColorConversion.LmsToXyz | maths/color_conversion.py:143-178 | accepted exactly when every cone value is in [0, 1] |
| ColorConversion.XyzToLms | maths/color_conversion.py:181-219 | accepted exactly when every tristimulus value is non-negative |
| ColorConversion.LmsToXyzExample | maths/color_conversion.py:166-176 | (0.2, 0.4, 0.4) maps to the XYZ values of the test module under both fields |
| ColorConversion.LmsXyzRoundTrip | maths/color_conversion.py:143-219 | `xyz_to_lms` undoes an accepted `lms_to_xyz` with a non-negative result |
| ColorConversion.XyzLmsRoundTrip | maths/color_conversion.py:143-219 | `lms_to_xyz` undoes an accepted `xyz_to_lms` whose result lies in the unit cube |
| ColorConversion.WhiteChromaticity | maths/color_conversion.py:256-268 | the chromaticity of white is defined exactly when the matrix's row sums have a non-zero total, with luminance 0 |
| ColorConversion.XyzToXyy | maths/color_conversion.py:222-268 | negative input is rejected; a non-black colour gives (X/s, Y/s, Y) with s = X+Y+Z; black gives the display's white chromaticity |
| ColorConversion.XyyToXyz | maths/color_conversion.py:270-292 | accepted exactly when 0 ≤ x ≤ 1, 0 < y ≤ 1 and Y ≥ 0; returns Y·x/y, Y and Y·(1−x−y)/y |
| ColorConversion.XyyRange | maths/color_conversion.py:235-262 | for a non-black non-negative colour, x and y are non-negative, x+y ≤ 1 and the luminance is Y |
| ColorConversion.WhiteIsRowSumChromaticity | maths/color_conversion.py:256-268 | the white chromaticity of a matrix is the chromaticity of the matrix applied to (1, 1, 1) |
| ColorConversion.BlackIsWhite | maths/color_conversion.py:256-268 | black maps to the chromaticity of the display's white, with luminance 0 |
| ColorConversion.XyyOfGrey | maths/color_conversion.py:222-268 | (0.5, 0.5, 0.5) maps to (1/3, 1/3, 0.5) |
| ColorConversion.XyzOfExample | maths/color_conversion.py:270-292 | (0.3, 0.3, 0.5) maps to (0.5, 0.5, 2/3) |
| ColorConversion.XyyRoundTrip | maths/color_conversion.py:222-292 | for Y > 0 and x + y ≤ 1, xyY → XYZ → xyY is the identity |
| ColorConversion.XyzRoundTrip | maths/color_conversion.py:222-292 | for Y > 0, XYZ → xyY → XYZ is the identity |
| ColorConversion.XyzToRgb | maths/color_conversion.py:297-401 | accepted exactly when each tristimulus value whose coefficient row is non-negative is itself non-negative and, with warnings on and a display other than the exterior one, the primaries and the input pass the non-negativity asserts of `xyz_to_xyy`; every output channel is non-negative; the warning flags are all off when suppressed |
| ColorConversion.NegativeInputNeedsSuppress | maths/color_conversion.py:346-370 | on sRGB, (-0.1, 0.5, 0.5) is refused with warnings on, because the within-gamut test hands it to `xyz_to_xyy`, and converted with warnings suppressed |
| ColorConversion.RgbToXyz | maths/color_conversion.py:404-466 | accepted exactly when every channel is in [0, 1]; the ignored-gamma warning is raised exactly for gamma requested on a non-sRGB display |
| ColorConversion.GammaOnlyForSrgb | maths/color_conversion.py:448-457 | the gamma flag changes nothing unless the display is sRGB |
| ColorConversion.NonNegativeDisplays | maths/color_conversion.py:438-463 | the sRGB and interior matrices map non-negative input to non-negative output |
| ColorConversion.DisplayRoundTrip | maths/color_conversion.py:297-466 | without gamma, RGB → XYZ → RGB is the identity on the sRGB and interior displays |
| ColorConversion.GammaRoundTrip | maths/color_conversion.py:387-393 | with gamma on sRGB, RGB → XYZ → RGB is the identity wherever encoding undoes decoding |
| ColorConversion.XyToUv | maths/color_conversion.py:471-492 | accepted exactly when 0 ≤ x ≤ 1 and 0 < y ≤ 1; the denominator 12y − 2x + 3 is then above 1 and u, v are MacAdam's quotients |
| ColorConversion.UvToXy | maths/color_conversion.py:494-515 | out-of-range u or v is rejected; a zero denominator 2u − 8v + 4 is a division by zero; otherwise x, y are the inverse quotients |
| ColorConversion.UvToXyZeroDenominator | maths/color_conversion.py:504-515 | u = 0, v = 0.5 passes the range checks and divides by zero |
| ColorConversion.UvExample | maths/color_conversion.py:471-515 | (0.3, 0.3) maps to (0.2, 0.3) and back |
| ColorConversion.MacAdamInverse | maths/color_conversion.py:476-477 | the inverse formulas undo the forward ones |
| ColorConversion.UvRoundTrip | maths/color_conversion.py:471-515 | `uv_to_xy(xy_to_uv(x, y)) = (x, y)` whenever the uv range checks pass, which is exactly when 2x ≤ 4y + 1 |
| Functions.ThirdCoordinate | maths/functions.py:65-70 | the homogeneous third coordinate is the 2-D cross product of the two directions |
| Functions.IntersectionOfTwoSegments | maths/functions.py:37-73 | the homogeneous meeting point of the two lines, or the sentinel; its properties are stated by Functions.ParallelIff, Functions.MeetOnBothLines, Functions.MeetIsUnique and Functions.SwapSymmetry |
| Functions.ParallelIff | maths/functions.py:69-71 | the (inf, inf) sentinel is returned exactly when the directions are parallel |
| Functions.LineEquation | maths/functions.py:65-68 | a point satisfies the homogeneous line equation exactly when it lies on the line through the two points |
| Functions.MeetOnBothLines | maths/functions.py:65-73 | a returned point lies on both lines |
| Functions.MeetIsUnique | maths/functions.py:65-73 | it is the only point on both lines |
| Functions.SwapSymmetry | maths/functions.py:65-73 | exchanging the segments, or the two ends of one, leaves the result unchanged |
| Functions.DiagonalsMeet | maths/functions.py:37-73 | the diagonals of the unit square meet at (0.5, 0.5) |
| Functions.OppositeSidesParallel | maths/functions.py:69-71 | opposite sides of the unit square give the sentinel |
| ColorBlindness.XyzToLmsInvertible | maths/color_blindness.py:60-65 | XYZ_TO_LMS is invertible, so LMS_TO_XYZ exists |
| ColorBlindness.XyzToLms | maths/color_blindness.py:69-92 | XYZ_TO_LMS applied to any values; stated by ColorBlindness.LmsXyzRoundTrip |
| ColorBlindness.LmsToXyz | maths/color_blindness.py:94-117 | its inverse LMS_TO_XYZ applied to any values; stated by ColorBlindness.LmsXyzRoundTrip |
| ColorBlindness.LmsXyzRoundTrip | maths/color_blindness.py:60-117 | `lms_to_xyz` and `xyz_to_lms` are inverse to each other on every input |
| ColorBlindness.RgbToLms | maths/color_blindness.py:122-145 | accepted exactly when every channel is in [0, 1]; the value is the cone response of the gamma-corrected sRGB tristimulus values |
| ColorBlindness.LmsToRgb | maths/color_blindness.py:150-174 | accepted exactly when the activations are non-negative and their XYZ passes the checks of `tristimulus_to_rgb` |
| ColorBlindness.DisplayLmsNonNegative | maths/color_blindness.py:122-145 | every sRGB colour has non-negative cone activations |
| ColorBlindness.RgbLmsRoundTrip | maths/color_blindness.py:122-174 | sRGB → LMS → sRGB returns the colour without a clipping warning wherever encoding undoes decoding |
| ColorBlindness.OppositeConventions | maths/color_blindness.py:60-65 | the 2-degree `lms_to_xyz` of maths/color_conversion.py applies these numbers in the opposite direction |
| ColorBlindness.PureLConeLuminance | maths/color_blindness.py:60-65 | under that other reading a pure L-cone activation has negative luminance |
| ChromaticityConversion.ParseStandard | maths/chromaticity_conversion.py:48-52 | the standard defaults to CIE 1931; a given name is accepted exactly when it is one of the four STANDARD values |
| ChromaticityConversion.ParseStandardName | maths/chromaticity_conversion.py:48-52 | every STANDARD member is recovered from its value |
| ChromaticityConversion.ParseCenter | maths/chromaticity_conversion.py:53-57 | the center defaults to D65; a given name is accepted exactly when it is one of the four CENTER values |
| ChromaticityConversion.D65WhiteFromConversions | maths/chromaticity_conversion.py:47 | D65_WHITE is the chromaticity of RGB (1, 1, 1) |
| ChromaticityConversion.Wrap | maths/chromaticity_conversion.py:321-327 | the wrapped angle lies in [−5π/2, −π/2) |
| ChromaticityConversion.WrapUnique | maths/chromaticity_conversion.py:321-327 | the wrapped angle is the only angle of the window a whole number of turns from the input; an angle in the window is left alone |
| ChromaticityConversion.NormalizeIsWrap | maths/chromaticity_conversion.py:71-96 | on `arctan2`'s range, the one-step shift by 2π is the wrap into the window |
| ChromaticityConversion.HueAngleInRange | maths/chromaticity_conversion.py:71-96 | every locus hue angle lies in the window |
| ChromaticityConversion.HueAngle | maths/chromaticity_conversion.py:71-96 | the hue angle about a centre shifted into the window; stated by ChromaticityConversion.HueAngleInRange and ChromaticityConversion.NormalizeIsWrap |
| ChromaticityConversion.WrapAngle | maths/chromaticity_conversion.py:321-327 | the while loops compute the wrap, and warn exactly when the input is outside the window and warnings are not suppressed |
| ChromaticityConversion.WrapExample | maths/chromaticity_conversion.py:321-327 | −3π is outside the window and wraps to −π |
| ChromaticityConversion.LocusAngles | maths/chromaticity_conversion.py:71-96 | one hue angle per tabulated wavelength |
| ChromaticityConversion.AngleBoundsInRange | maths/chromaticity_conversion.py:100-116 | the angle bounds lie in the window |
| ChromaticityConversion.AngleBounds | maths/chromaticity_conversion.py:100-116 | the least and greatest locus hue angle: both are attained, and every locus angle lies between them |
| ChromaticityConversion.WavelengthBounds | maths/chromaticity_conversion.py:117-133 | the least and greatest tabulated wavelength: both are tabulated, and every wavelength lies between them |
| ChromaticityConversion.WavelengthToChromaticity | maths/chromaticity_conversion.py:206-248 | fails for an unknown standard, and for a wavelength outside the locus's tabulated range |
| ChromaticityConversion.WavelengthToHueAngle | maths/chromaticity_conversion.py:250-286 | the same guards, interpolating the locus hue angles |
| ChromaticityConversion.TabulatedWavelengthAccepted | maths/chromaticity_conversion.py:236 | every tabulated wavelength is accepted by both conversions |
| ChromaticityConversion.ShortWavelengthRejected | maths/chromaticity_conversion.py:236 | 250 nm is rejected |
| ChromaticityConversion.HueAngleToWavelength | maths/chromaticity_conversion.py:288-346 | wraps the angle, warning unless suppressed, and accepts it exactly when the wrapped angle lies within the locus's angle bounds |
| ChromaticityConversion.TabulatedAngleAccepted | maths/chromaticity_conversion.py:321-330 | every locus hue angle passes the bounds check without being wrapped |
| ChromaticityConversion.AboveAngleBoundsRejected | maths/chromaticity_conversion.py:330 | an angle in the window above the largest locus angle, such as −0.51π, is rejected |
| ChromaticityConversion.RectangularToPolar | maths/chromaticity_conversion.py:348-394 | accepted exactly when 0 ≤ x ≤ 1, 0 < y ≤ 1 and the center is known |
| ChromaticityConversion.PolarRanges | maths/chromaticity_conversion.py:376-394 | the angle lies in the window and is `arctan2`'s value, less 2π unless below −π/2; the radius is the distance to the center and non-negative |
| ChromaticityConversion.PolarToRectangular | maths/chromaticity_conversion.py:398-430 | accepted exactly when the center is known |
| ChromaticityConversion.PolarExample | maths/chromaticity_conversion.py:426-430 | angle −π, radius 0.05 about D65 is 0.05 left of white |
| ChromaticityConversion.RadiusExample | maths/chromaticity_conversion.py:376-394 | (0.3, 0.3) is 0.325 from the short-wavelength copunctal point |
| ChromaticityConversion.PolarAboutRoundTrip | maths/chromaticity_conversion.py:348-430 | polar coordinates about a point and back give the point |
| ChromaticityConversion.RectangularPolarRoundTrip | maths/chromaticity_conversion.py:348-430 | rectangular → polar → rectangular is the identity |
| ChromaticityConversion.RectangularAboutRoundTrip | maths/chromaticity_conversion.py:348-430 | polar (angle in the window, positive radius) → point → polar is the identity |
| ChromaticityConversion.PolarRectangularRoundTrip | maths/chromaticity_conversion.py:348-430 | the same for the full functions, for points of the chromaticity domain |
| RgbCieConversions.RgbToTristimulus | maths/rgb_cie_conversions.py:71-128 | accepted exactly when every channel is in [0, 1]; decodes gamma only with the flag set and no custom coefficients |
| RgbCieConversions.RgbToChromoluminance | maths/rgb_cie_conversions.py:132-196 | rejects channels outside [0, 1]; a colour with non-zero sum gives (X/s, Y/s, Y); black gives white's chromaticity with luminance 0 |
| RgbCieConversions.ClipUnit | maths/rgb_cie_conversions.py:244 | the clipped colour lies in the unit cube, and equals the input exactly when the input already did |
| RgbCieConversions.TristimulusToRgb | maths/rgb_cie_conversions.py:202-258 | accepted exactly when X ≥ 0, 0 ≤ Y ≤ 1 and Z ≥ 0; warns exactly when clipping changed a channel; without gamma every channel is in [0, 1] |
| RgbCieConversions.GammaOutputWithinUnit | maths/rgb_cie_conversions.py:250-258 | with gamma encoding every channel is still in [0, 1] |
| RgbCieConversions.ChromoluminanceToRgb | maths/rgb_cie_conversions.py:264-305 | rejects x, y or Y out of range, and otherwise converts (Y·x/y, Y, Y·(1−x−y)/y) |
| RgbCieConversions.SrgbTristimulusInRange | maths/rgb_cie_conversions.py:49-68 | every unit-cube colour under the sRGB matrix passes the checks of `tristimulus_to_rgb` |
| RgbCieConversions.BlackTristimulus | maths/rgb_cie_conversions.py:71-128 | black is (0, 0, 0) in XYZ under every setting |
| RgbCieConversions.BlackHasWhiteChromaticity | maths/rgb_cie_conversions.py:174-196 | black takes white's chromaticity under the same settings with luminance 0; a white of sum 0 is a division by zero |
| RgbCieConversions.SrgbWhite | maths/rgb_cie_conversions.py:49-68 | sRGB white is (0.9505, 1, 1.089) with or without gamma |
| RgbCieConversions.LinearRoundTrip | maths/rgb_cie_conversions.py:71-258 | without gamma the default matrix round trip is the identity, without a warning |
| RgbCieConversions.CustomRoundTrip | maths/rgb_cie_conversions.py:71-258 | with custom coefficients and their inverse the round trip is the identity |
| RgbCieConversions.GammaRoundTrip | maths/rgb_cie_conversions.py:106-117 | with gamma the round trip is the identity wherever encoding undoes decoding |
| RgbCieConversions.OutsideTriangleRejected | maths/rgb_cie_conversions.py:221 | x + y > 1 with Y > 0 gives a negative Z, which is rejected |
| RgbCieConversions.ChromoluminanceRoundTrip | maths/rgb_cie_conversions.py:279-305 | for Y > 0, chromoluminance of the passed tristimulus values gives back (x, y, Y) |
| SrgbTristimulusConversions.SrgbToTristimulus | maths/srgb_tristimulus_conversions.py:68-101 | accepted exactly when every channel is in [0, 1] |
| SrgbTristimulusConversions.SrgbToChromoluminance | maths/srgb_tristimulus_conversions.py:107-130 | rejects channels out of range; divides by the sum with no black case |
| SrgbTristimulusConversions.TristimulusToSrgb | maths/srgb_tristimulus_conversions.py:136-170 | accepted exactly when X ≥ 0, 0 ≤ Y ≤ 1 and Z ≥ 0; warns exactly when clipping changed a channel |
| SrgbTristimulusConversions.ChromoluminanceToSrgb | maths/srgb_tristimulus_conversions.py:176-196 | rejects x, y or Y out of range |
| SrgbTristimulusConversions.TristimulusAgrees | maths/srgb_tristimulus_conversions.py:84-101 | `srgb_to_tristimulus` is the gamma-corrected default of `rgb_to_tristimulus` |
| SrgbTristimulusConversions.BackwardAgrees | maths/srgb_tristimulus_conversions.py:136-196 | the backward conversions are the gamma-corrected defaults of maths/rgb_cie_conversions.py |
| SrgbTristimulusConversions.ChromoluminanceAgreesExceptBlack | maths/srgb_tristimulus_conversions.py:123-130 | the chromoluminance conversions agree on every colour but black |
| SrgbTristimulusConversions.BlackUndefined | maths/srgb_tristimulus_conversions.py:123-130 | black is a division by zero |
| SrgbTristimulusConversions.RoundTrip | maths/srgb_tristimulus_conversions.py:68-170 | sRGB → XYZ → sRGB returns the colour without a warning wherever encoding undoes decoding |
| Transfer.DecodeAllWithinUnit | maths/srgb_tristimulus_conversions.py:84-95 | decoding keeps a colour in the unit cube |
| Transfer.EndPoints | maths/srgb_tristimulus_conversions.py:84-95 | 0 and 1 are fixed points of decoding and encoding |
| Transfer.DecodeWithinUnit | maths/srgb_tristimulus_conversions.py:84-95 | decoding keeps a channel in [0, 1] |
| Transfer.EncodeAtMostOne | maths/srgb_tristimulus_conversions.py:165-170 | encoding a value of at most 1 gives at most 1 |
| Transfer.EncodeNonNegative | maths/srgb_tristimulus_conversions.py:165-170 | encoding a non-negative value never goes below 0: the power segment starts above 0 |
| Transfer.LinearSegmentRoundTrip | maths/srgb_tristimulus_conversions.py:84-170 | on the linear segment the two directions undo each other |
| Transfer.PowerSegmentRoundTrip | maths/srgb_tristimulus_conversions.py:84-170 | on the power segment decoding undoes encoding when `**` inverts itself |
| CorrelatedColorTemperature.TemperaturesIncreasing | maths/correlated_color_temperature.py:49-55 | TEMPERATURES has 64 entries, ascends strictly and runs from 100 to 1,000,000 |
| CorrelatedColorTemperature.XyToUv | maths/correlated_color_temperature.py:95-106 | accepted exactly when x and y are in [0, 1], y = 0 included; the denominator is at least 1 |
| CorrelatedColorTemperature.UvRoundTrip | maths/correlated_color_temperature.py:95-118 | `uv_to_xy(xy_to_uv(x, y)) = (x, y)` wherever both are defined |
| CorrelatedColorTemperature.XyToUvOnAxis | maths/correlated_color_temperature.py:95-106 | (1, 0) is accepted here but not by maths/color_conversion.py |
| CorrelatedColorTemperature.PerpendicularEndsGeometry | maths/correlated_color_temperature.py:195-208 | the two ends are symmetric about the center, 0.05 from it, across the direction |
| CorrelatedColorTemperature.Neighbours | maths/correlated_color_temperature.py:184-188 | the neighbouring temperatures are T ∓ 100 clamped into [100, 1,000,000] |
| CorrelatedColorTemperature.IsothermEndpoints | maths/correlated_color_temperature.py:172-208 | fails for T ≤ 0; the uv ends lie across T's locus point, perpendicular to the locus between the neighbours |
| CorrelatedColorTemperature.IsothermMidpoint | maths/correlated_color_temperature.py:202-208 | the midpoint of the uv ends is T's locus point, and the isotherm is perpendicular to the chord between the neighbours' points |
| CorrelatedColorTemperature.PerpendicularToChord | maths/correlated_color_temperature.py:195-208 | the ends across a direction are orthogonal to it |
| CorrelatedColorTemperature.DistanceToTemperature | maths/correlated_color_temperature.py:222-246 | accepted exactly when T > 0 and u, v are in [0, 1] |
| CorrelatedColorTemperature.DistanceFacts | maths/correlated_color_temperature.py:222-246 | the distance is non-negative, and zero at T's own locus point |
| CorrelatedColorTemperature.CorrelatedColorTemperature | maths/correlated_color_temperature.py:222-275 | accepted exactly when u and v are in [0, 1] and every temperature `fmin` probes is positive, and otherwise an assertion error; the temperature is `int` of the minimiser and the distance its objective value |
| CorrelatedColorTemperature.OvershootRaises | maths/correlated_color_temperature.py:222-263 | a search from 6000 K that steps on to -600 K raises, with u and v in range |
| CorrelatedColorTemperature.ValidIff | maths/correlated_color_temperature.py:271-275 | the flag holds exactly when 100 ≤ T ≤ 1,000,000 and the distance is at most 0.05 |
| Spectra.Sort | maths/chromaticity_from_spectrum.py:194-197 | `sorted` gives an ordered permutation |
| Spectra.SortStrict | maths/chromaticity_from_spectrum.py:194-197 | with distinct wavelengths the sorted spectrum ascends strictly |
| Spectra.SortOfOrdered | maths/chromaticity_from_spectrum.py:194-197 | sorting an ascending spectrum changes nothing |
| Spectra.ClipRange | maths/chromaticity_from_spectrum.py:198-207 | keeps exactly the pairs inside the table's range, in order |
| Spectra.ClipInside | maths/chromaticity_from_spectrum.py:198-207 | a spectrum inside the range is left as it is |
| Spectra.SortAndClipFacts | maths/chromaticity_from_spectrum.py:194-207 | the sorted, clipped spectrum ascends strictly and holds exactly the pairs inside the range |
| Spectra.LinedUp | maths/chromaticity_from_spectrum.py:211-225 | when every wavelength is tabulated, the listed rows pair up index by index with the spectrum |
| Spectra.LineUpAligned | maths/chromaticity_from_spectrum.py:211-240 | row i of the line-up is at the i-th wavelength and has non-negative values |
| Spectra.LineUpLength | maths/chromaticity_from_spectrum.py:211-240 | one row per spectrum entry |
| Spectra.ProductsNonNegative | maths/chromaticity_from_spectrum.py:244-253 | non-negative intensities against non-negative CMF values give non-negative integrands |
| Numerics.TrapzUnitIsEndCorrectedSum | maths/color_temperature.py:156-171 | `trapz` without positions is the plain sum less half of each end |
| Numerics.TrapzUniformSpacing | maths/color_temperature.py:156-171 | with samples h apart, `trapz(y, x)` is h times `trapz(y)`, so the two agree only for unit spacing |
| Numerics.TrapzNonNegative | maths/chromaticity_from_spectrum.py:244-253 | non-negative samples over ascending positions integrate to a non-negative value |
| Numerics.LinspaceStrictlyIncreasing | maths/correlated_color_temperature.py:49-55 | `linspace` ascends strictly when stop > start |
| ColorTemperature.WrittenGuardHarmless | maths/color_temperature.py:107-121 | the clipping guard as written always holds for a valid spectrum, and the result is the one the intended guard gives |
| ColorTemperature.Integrate | maths/color_temperature.py:156-171 | defined exactly when the table is at least as long as the spectrum, else an index error |
| ColorTemperature.IntegrateNonNegative | maths/color_temperature.py:156-171 | non-negative data integrate to non-negative tristimulus values |
| ColorTemperature.PairsTristimulusDefined | maths/color_temperature.py:107-171 | a valid pair spectrum fails only when none of its wavelengths lies in the table's range |
| ColorTemperature.PairsTristimulusNonNegative | maths/color_temperature.py:107-171 | its tristimulus values are non-negative |
| ColorTemperature.TristimulusFromSpectrum | maths/color_temperature.py:59-175 | rejects spectra of at most one entry, invalid entries or an unknown standard; an intensity list must be as long as the table |
| ColorTemperature.TristimulusNonNegative | maths/color_temperature.py:59-175 | the tristimulus values are non-negative, so `xyz_to_xyy` accepts them |
| ColorTemperature.IntensitiesAsPairs | maths/color_temperature.py:103-152 | intensities alone integrate like the pairs of the table's wavelengths with those intensities |
| ColorTemperature.IntensitiesAsPairSpectrum | maths/color_temperature.py:59-175 | the same for the whole function |
| ColorTemperature.SpectrumFromTemperature | maths/color_temperature.py:214-251 | rejects T ≤ 0; one value per tabulated wavelength |
| ColorTemperature.SpectrumAtTabulatedWavelengths | maths/color_temperature.py:214-251 | entry i is Planck's law at the i-th wavelength, and positive |
| ColorTemperature.XyOfNonNegative | maths/color_temperature.py:270-280 | every non-negative tristimulus triple has chromaticity coordinates ≥ 0 with x + y ≤ 1 |
| ColorTemperature.BlackbodyXyDefined | maths/color_temperature.py:256-298 | with valid tables every positive temperature has such a chromaticity |
| ColorTemperature.BlackbodyXy | maths/color_temperature.py:264-273 | a temperature that is not positive is an AssertionError |
| ColorTemperature.BlackbodyUv | maths/color_temperature.py:264-274 | a (u, v) is returned only when the (x, y) exists and y is positive, as `xy_to_uv` demands |
| ColorTemperature.Neighbourhood | maths/color_temperature.py:269-276 | the temperatures are max(100, T + offset) for offsets −100, 0 and 100 |
| ColorTemperature.EndsAcrossGeometry | maths/color_temperature.py:284-296 | the midpoint of the ends is the centre and they lie across the chord |
| ColorTemperature.IsothermEndpoints | maths/color_temperature.py:256-298 | rejects T ≤ 0; the ends lie across the neighbourhood's centre |
| ColorTemperature.DistanceToTemperature | maths/color_temperature.py:319-330 | the uv distance to the blackbody at `int(T)`, defined exactly when that blackbody's uv is |
| ColorTemperature.CctFromChromaticity | maths/color_temperature.py:303-351 | accepted exactly when u, v are in [0, 1] and the blackbody (u, v) at `int` of every probed temperature exists, so every probe is at least 1 K; u or v out of range is an assertion error, and otherwise a failure is that of the first failing probe; the temperature is `int` of the minimiser |
| ColorTemperature.ProbeBelowOneKelvinRaises | maths/color_temperature.py:319-342 | a search whose first failing probe truncates to 0 K or below raises an assertion error, with u and v in range |
| ColorTemperature.CctFlag | maths/color_temperature.py:346-351 | valid exactly when the distance is at most 0.05 and the temperature below 10^10 |
| ColorTemperature.SeriesArguments | maths/color_temperature.py:369-378 | accepted exactly when both temperatures are positive, the maximum above the minimum and the step in (0, 0.5) |
| ColorTemperature.SeriesDefaults | maths/color_temperature.py:356-378 | the defaults are 100, 10^10 and 0.0025 |
| ColorTemperature.GenerateTemperatureSeries | maths/color_temperature.py:356-415 | rejects invalid arguments; otherwise returns a temperature series of blackbody chromaticities, always when the tables are valid and int(minimum) ≥ 1; a minimum whose int is 0 is an assertion error |
| ColorTemperature.SubKelvinMinimumStartsAtZero | maths/color_temperature.py:218-230 | a minimum in (0, 1) passes the argument checks, but the series starts at int(minimum) = 0 K, where `spectrum_from_temperature` asserts |
| TemperatureSeries.NextPower | maths/color_temperature.py:393-411 | the inner loop's choice is a power 1..10 whose chromaticity is defined and has moved more than the step, unless it is 10 |
| TemperatureSeries.NextPowerFirst | maths/color_temperature.py:393-411 | every smaller power stays within the step |
| TemperatureSeries.NextPowerStops | maths/color_temperature.py:393-411 | the inner loop stops at a power when the chromaticity there is defined and far enough from the previous one, or the power is 10 |
| TemperatureSeries.NextPowerContinues | maths/color_temperature.py:393-411 | otherwise the inner loop moves on to the next power |
| TemperatureSeries.ChooseNext | maths/color_temperature.py:393-411 | the for loop returns the step `NextPower` chooses, and always succeeds when the chromaticity function does |
| TemperatureSeries.BuildSeries | maths/color_temperature.py:382-411 | the while loop builds equal-length lists starting at int(minimum), each step chosen by the inner loop, ending at or above the maximum; a first chromaticity that fails is the call's error |
| TemperatureSeries.StepAdds | maths/color_temperature.py:393-411 | each step adds 10^p for a p in 1..10 |
| TemperatureSeries.SeriesIncreasing | maths/color_temperature.py:392-411 | the series ascends strictly, by at least 10 per step |
| ChromaticityFromSpectrum.ParseStandard | maths/chromaticity_from_spectrum.py:172-179 | the standard defaults to CIE 1931; a given name is accepted exactly when it is one of the four keys |
| ChromaticityFromSpectrum.ParseUnit | maths/chromaticity_from_spectrum.py:165-171 | the unit defaults to wavelength; a given name must be one of the two |
| ChromaticityFromSpectrum.ToWavelengths | maths/chromaticity_from_spectrum.py:183-190 | a zero wave-number divides by zero; otherwise each key times its wavelength is 10^7 |
| ChromaticityFromSpectrum.ToWavelengthsValid | maths/chromaticity_from_spectrum.py:183-190 | the converted spectrum is still valid |
| ChromaticityFromSpectrum.ToWavelengthsTwice | maths/chromaticity_from_spectrum.py:183-190 | converting twice gives the spectrum back |
| ChromaticityFromSpectrum.IntegrateOver | maths/chromaticity_from_spectrum.py:244-253 | the trapezoid rule over the actual wavelengths; an index error when the line-up is short |
| ChromaticityFromSpectrum.IntegrateOverUniform | maths/chromaticity_from_spectrum.py:244-253 | with uniform spacing h it is h times the unit-spacing rule |
| ChromaticityFromSpectrum.IntegrateOverNonNegative | maths/chromaticity_from_spectrum.py:244-253 | non-negative data integrate to non-negative values |
| ChromaticityFromSpectrum.Normalize | maths/chromaticity_from_spectrum.py:257-277 | no chromaticity exactly when the sum is 0; otherwise x·s = X and y·s = Y |
| ChromaticityFromSpectrum.NormalizeRange | maths/chromaticity_from_spectrum.py:257-277 | for non-negative values the chromaticity is in the triangle x, y ≥ 0, x + y ≤ 1 |
| ChromaticityFromSpectrum.FromWavelengths | maths/chromaticity_from_spectrum.py:194-253 | fails on an empty spectrum or table, and when nothing lies in the table's range |
| ChromaticityFromSpectrum.FromWavelengthsDefined | maths/chromaticity_from_spectrum.py:194-253 | for a valid spectrum, defined exactly when some wavelength lies in the table's range |
| ChromaticityFromSpectrum.FromTableFacts | maths/chromaticity_from_spectrum.py:183-253 | a zero wave-number is the only division by zero; defined exactly when some converted wavelength is in range; non-negative |
| ChromaticityFromSpectrum.WrittenTwoDegreeIsTenDegree | maths/chromaticity_from_spectrum.py:98-136 | as written, '170_2_2_deg' gives the results of '170_2_10_deg' |
| ChromaticityFromSpectrum.IntendedTwoDegree | maths/chromaticity_from_spectrum.py:98-113 | the corrected choice integrates against the 2-degree table |
| ChromaticityFromSpectrum.IntendedFileField | maths/chromaticity_from_spectrum.py:45-136 | each standard loads a file of its own field, and no two standards share a file |
| ChromaticityFromSpectrum.ChromaticityRange | maths/chromaticity_from_spectrum.py:140-277 | the tristimulus values are non-negative; a chromaticity exists exactly when their sum is positive, and then lies in the triangle |
| ChromaticityFromSpectrum.ChromaticityDefined | maths/chromaticity_from_spectrum.py:140-277 | for valid arguments the result is defined exactly when some wavelength lies in the table's range |
| ChromaticityFromSpectrum.ParseStandardName | maths/chromaticity_from_spectrum.py:172-179 | every standard key name is accepted and parses back to its key |
| ChromaticityFromSpectrum.FromTable | maths/chromaticity_from_spectrum.py:183-253 | after validation, any chromaticity returned is the normalisation of the tristimulus values integrated against the table |
| ChromaticityFromSpectrum.WrittenFileWrongField | maths/chromaticity_from_spectrum.py:98-113 | as written, the 2-degree key is given the file of the 10-degree field, the same file as the 10-degree key |
| ChromaticityFromSpectrum.WrittenChromaticityFromSpectrum | maths/chromaticity_from_spectrum.py:98-277 | as written: an invalid spectrum, unit or standard is an AssertionError, and any chromaticity returned normalises the tristimulus values |
| ChromaticityFromSpectrum.ChromaticityFromSpectrum | maths/chromaticity_from_spectrum.py:141-277 | an invalid spectrum, unit or standard is an AssertionError, and any chromaticity returned normalises the tristimulus values (from the corrected file, see "## Left out") |
| ChromaticityFromSpectrum.IntendedAgreesElsewhere | maths/chromaticity_from_spectrum.py:98-136 | with the intended file table, every key except the 2-degree one gives the as-written result |
| Grids.ChannelsPartition | maths/coloration.py:352-354 | the fixed channel and the two free ones picked by `first_index`/`second_index` are three distinct channels |
| Grids.Place | maths/coloration.py:355-362 | the colour built in `triplet` has the fixed channel at v and the free channels at the two grid values |
| Grids.GridFacts | maths/coloration.py:97 | `linspace(0, 1, n)` runs from 0 to 1, ascends strictly and stays in [0, 1] |
| Grids.AllCells | maths/coloration.py:99-102 | the three nested loops, skipping index 0, emit 3 (n - 1)^2 cells, and a cell is emitted exactly when its face and both indices are valid |
| Grids.CellGeometry | maths/coloration.py:103-158 | a cell's five RGB vertices form a closed quad with one channel at 1, and its colour is the quad's centre, with the free channels strictly inside (0, 1) |
| Grids.FillRow | maths/coloration.py:101-158 | the inner loop appends, in order, the path and colour of every cell of one row, or returns the first projection error |
| Grids.FillFace | maths/coloration.py:100-158 | the middle loop appends the cells of every row of one face, in order, or returns the first projection error |
| Grids.FillTriangle | maths/coloration.py:97-162 | the whole fill emits exactly the valid cells in loop order with their projected paths and centre colours, or fails with the first projection error |
| Grids.ProjectedClosed | maths/coloration.py:130-147 | projecting a closed vertex list vertex by vertex gives a closed path of the same length |
| Grids.FilledShape | maths/coloration.py:97-162 | a successful fill has 3 (n - 1)^2 closed five-vertex paths and as many colours, each with one channel at 1 and the others in (0, 1) |
| Grids.BuildSurface | maths/coloration.py:352-383 | the nested loops over one reused `triplet` store, for every grid point, a copy of the current colour and its projected coordinates, or fail with the first projection error |
| Grids.SurfaceShape | maths/coloration.py:352-383 | a built surface is n x n, keeps the fixed channel at v, runs the free channels from 0 at one corner to 1 at the other, and stays in the unit cube when v does |
| Grids.AsCoordinates | maths/coloration.py:363-364 | with `plot_rgb` a colour is plotted at its own three channels |
| Grids.SurfaceOfColors | maths/coloration.py:363-376 | with `plot_rgb` every coordinate triple is the colour stored with it |
| Grids.Bands | maths/coloration.py:505-531 | the band paths are the `resolution` bands of the rectangle in index order |
| Grids.BandRectangle | maths/coloration.py:506-528 | every band is a closed axis-parallel rectangle one resolution-th of the rectangle wide (horizontal) or high (vertical) |
| Grids.BandsAdjacent | maths/coloration.py:506-528 | band i + 1 starts on the closing edge of band i |
| Grids.BandsTile | maths/coloration.py:505-531 | the first band starts at (left, bottom), the last ends at (left + width, bottom + height) and consecutive bands share an edge |
| Coloration.RgbToXyy | maths/coloration.py:130-140 | a colour outside the unit cube is rejected by the conversion's checks |
| Coloration.XyyDefined | maths/coloration.py:130-140 | on the sRGB and interior displays every colour of the unit cube has an xyY value |
| Coloration.ChromaticityInsideGamut | maths/coloration.py:74-162 | a resolution below 2 or an unknown display is an assertion error; otherwise the result is the fill of the gamut's faces |
| Coloration.InsideGamutSucceeds | maths/coloration.py:97-162 | on the sRGB and interior displays the fill succeeds with 3 (n - 1)^2 closed five-vertex paths and as many saturated colours |
| Coloration.SrgbSaturation | maths/coloration.py:214-238 | on sRGB the white is D65, the safe luminance is blue's Y of 0.0722 and the safe distance is positive |
| Coloration.Min3 | maths/coloration.py:257 | `min(color)` is a channel and no channel is below it |
| Coloration.Max3 | maths/coloration.py:257 | the maximum is a channel and no channel is above it |
| Coloration.Rescale | maths/coloration.py:255-261 | a grey colour is a division by zero; otherwise the result has minimum 0 and maximum 1, stays in the unit cube and keeps the channels' order |
| Coloration.RescaleFacts | maths/coloration.py:255-261 | the rescaled colour lies in the unit cube, spans [0, 1] exactly and orders its channels as the input does |
| Coloration.RescaleInverse | maths/coloration.py:255-261 | multiplying by the range and adding the minimum recovers the original colour |
| Coloration.DisplayColor | maths/coloration.py:244-254 | an accepted display colour of a point at the safe luminance is non-negative |
| Coloration.SaturatedColors | maths/coloration.py:244-261 | one colour per angle, each the `Rescale` of the display colour of that angle at the display's saturation, with smallest channel 0 and largest 1 |
| Coloration.SaturatedTargetPolar | maths/coloration.py:244-254 | the point of a colour angle has that angle and the safe distance as its polar coordinates about white |
| Coloration.ColorAngles | maths/coloration.py:239-243 | there are `resolution` colour angles |
| Coloration.ColorAnglesSpaced | maths/coloration.py:239-268 | the angles start at -5 pi / 2 and are spaced by 2 pi / n, all in the hue window; each path angle lies halfway between two colour angles |
| Coloration.Endpoint | maths/coloration.py:270-293 | an angle within the locus's angle bounds ends at the locus point (x, y interpolated at the wavelength the angle maps to); an angle outside them ends where the unit ray from white meets the segment joining the locus's first and last points |
| Coloration.EndpointBeyondLocus | maths/coloration.py:282-293 | beyond the bounds the endpoint is the unique point on both the ray's line and the line through the ends of the locus |
| Coloration.OutsideEndpoints | maths/coloration.py:265-293 | one endpoint per path angle |
| Coloration.FanAroundWhite | maths/coloration.py:294-307 | each wedge is closed and starts at white; its third vertex is the next wedge's second, wrapping round after the last |
| Coloration.TraceEndpoints | maths/coloration.py:269-293 | the endpoint loop computes the endpoint of every path angle, in order |
| Coloration.WhiteFan | maths/coloration.py:294-307 | the wedge loop builds the fan around white over the endpoints |
| Coloration.ChromaticityOutsideGamut | maths/coloration.py:167-311 | invalid arguments are an assertion error; otherwise the colours are the saturated colours of the colour angles and the paths are the fan of the path angles' endpoints |
| Coloration.OutsideGamutOf | maths/coloration.py:200-311 | for a parsed display and locus, Ok exactly when the saturated colours are, with those colours, or their error; the paths are the fan of the path angles' endpoints |
| Coloration.Lower | maths/coloration.py:338 | `lower()` lower-cases every character and keeps the length |
| Coloration.TitleFrom | maths/coloration.py:338 | `title()` keeps the length |
| Coloration.LowerOfTitle | maths/coloration.py:338 | title case changes only the case: lower-casing it gives the lower-cased string |
| Coloration.LowerIdempotent | maths/coloration.py:338 | lower-casing twice is lower-casing once |
| Coloration.ColorIndex | maths/coloration.py:338-339 | the index is present exactly when the normalised name is in COLOR_NAMES, and it names that entry |
| Coloration.ColorNameAccepted | maths/coloration.py:338-339 | a name is accepted exactly when, ignoring case, it is "red", "green" or "blue", and each maps to its own channel |
| Coloration.NamesCase | maths/coloration.py:338-339 | the three names survive lower-casing and title-casing |
| Coloration.TitleTail | maths/coloration.py:338 | after a letter, title case leaves a lower-case tail alone |
| Coloration.ThreeDimensionalSurface | maths/coloration.py:316-383 | invalid arguments are an assertion error; otherwise the surface holds the named channel at the value |
| Coloration.SurfaceSucceeds | maths/coloration.py:316-383 | on the sRGB and interior displays the xyY surface succeeds and its colours lie in the unit cube |
| Coloration.RgbSurface | maths/coloration.py:363-376 | plotting RGB succeeds and places every colour at its own channels |
| Coloration.SpectrumWavelengths | maths/coloration.py:450-454 | there are `resolution` sampled wavelengths |
| Coloration.SpectrumWavelengthsBetween | maths/coloration.py:450-454 | the wavelengths start at the minimum, step by (max - min) / n, stop one step short of the maximum, and lie within any bounds that hold both ends |
| Coloration.VisibleSpectrum | maths/coloration.py:388-535 | invalid arguments are an assertion error, and so is a wavelength outside the locus's range; otherwise the result is Ok exactly when `SaturatedColors` of the sampled wavelengths' hue angles is, with its colours or its error, and there are `resolution` bands and colours |
| Coloration.SpectrumAngles | maths/coloration.py:455-458 | one hue angle per sampled wavelength |
| Coloration.VisibleSpectrumTiles | maths/coloration.py:505-531 | the bands of an accepted spectrum tile the rectangle from (left, bottom) to (left + width, bottom + height) |
| SaturatedColorPaths.Repeat | maths/saturated_color_paths.py:167 | `[value] * count` has `count` copies of the value |
| SaturatedColorPaths.RedChannel | maths/saturated_color_paths.py:167-172 | the red list has 6 n - 5 entries |
| SaturatedColorPaths.GreenChannel | maths/saturated_color_paths.py:173-178 | the green list has 6 n - 5 entries |
| SaturatedColorPaths.BlueChannel | maths/saturated_color_paths.py:179-184 | the blue list has 6 n - 5 entries |
| SaturatedColorPaths.FullTrace | maths/saturated_color_paths.py:165-185 | the transpose pairs up the three channel lists entry by entry |
| SaturatedColorPaths.GamutTraceAsWritten | maths/saturated_color_paths.py:186 | `[0:-2]` keeps the first 6 n - 7 colours of the full trace |
| SaturatedColorPaths.GamutTrace | maths/saturated_color_paths.py:186 | removing only the repeated red keeps the first 6 n - 6 colours of the full trace |
| SaturatedColorPaths.GridValues | maths/saturated_color_paths.py:168-184 | `linspace(0, 1, n)` runs from 0 to 1 in steps of 1 / (n - 1), and `linspace(1, 0, n)` mirrors it |
| SaturatedColorPaths.EdgesJoin | maths/saturated_color_paths.py:166-184 | each edge of the hexagon ends where the next begins, and the last ends at red |
| SaturatedColorPaths.FullTraceWalksHexagon | maths/saturated_color_paths.py:165-185 | entry s (n - 1) + k of the full trace is point k of edge s, and the final entry is red |
| SaturatedColorPaths.RedWalks | maths/saturated_color_paths.py:167-172 | the red list follows the red channel of the hexagon's edges |
| SaturatedColorPaths.GreenWalks | maths/saturated_color_paths.py:173-178 | the green list follows the green channel of the hexagon's edges |
| SaturatedColorPaths.BlueWalks | maths/saturated_color_paths.py:179-184 | the blue list follows the blue channel of the hexagon's edges |
| SaturatedColorPaths.EdgePointSaturated | maths/saturated_color_paths.py:166-184 | every point of the hexagon has a channel at 1 and a channel at 0 |
| SaturatedColorPaths.EdgeStep | maths/saturated_color_paths.py:166-184 | consecutive points of an edge are one grid step apart on that edge |
| SaturatedColorPaths.TraceAtEdge | maths/saturated_color_paths.py:165-186 | entry s (n - 1) + k of the trace is point k of edge s |
| SaturatedColorPaths.NextOnHexagon | maths/saturated_color_paths.py:165-186 | the entry after it is point k + 1 of the same edge |
| SaturatedColorPaths.TraceSaturated | maths/saturated_color_paths.py:165-186 | every colour of the trace is saturated |
| SaturatedColorPaths.TraceSteps | maths/saturated_color_paths.py:165-186 | going round the trace, wrapping at the end, every move is one grid step in one channel along one edge of the cube |
| SaturatedColorPaths.TraceReturnsToRed | maths/saturated_color_paths.py:100-101 | the corrected trace starts at red and its last colour is one step short of red |
| SaturatedColorPaths.AsWrittenStopsTwoShort | maths/saturated_color_paths.py:186 | as written, the last colour is not one step from red, so the closing move skips a colour |
| SaturatedColorPaths.ResolutionTwo | maths/saturated_color_paths.py:165-186 | at resolution 2 the written trace lacks magenta and the corrected one has it |
| SaturatedColorPaths.WhiteOf | maths/saturated_color_paths.py:124-129 | the white is defined exactly when the row sums have a non-zero total; otherwise it is a division by zero |
| SaturatedColorPaths.WhiteIsWhite | maths/saturated_color_paths.py:124-129 | the white of the row sums is the chromaticity of RGB white, and of black, under the same matrix |
| SaturatedColorPaths.WhiteTristimulus | maths/saturated_color_paths.py:125 | RGB white maps to the matrix's row sums |
| SaturatedColorPaths.SrgbWhitePoint | maths/saturated_color_paths.py:124-129 | the default matrix's white is D65 |
| SaturatedColorPaths.ChromoluminanceDefined | maths/saturated_color_paths.py:187-193 | every colour of the cube has a chromoluminance under a matrix whose white is defined |
| SaturatedColorPaths.UpperHueRange | maths/saturated_color_paths.py:194-211 | the lifted hue lies in (-pi / 2, 3 pi / 2] and differs from `arctan2` by 0 or one turn |
| SaturatedColorPaths.LocusPairs | maths/saturated_color_paths.py:134-151 | one (hue, wavelength) pair per locus point, in locus order |
| SaturatedColorPaths.LocusHues | maths/saturated_color_paths.py:133-153 | the sorted table is a permutation of the pairs, ordered by hue |
| SaturatedColorPaths.SortedBounds | maths/saturated_color_paths.py:154-157 | the hue bounds of the sorted table are its first and last hue |
| SaturatedColorPaths.HueBounds | maths/saturated_color_paths.py:154-157 | the least and greatest hue of the table: both are hues of it, and every hue lies between them |
| SaturatedColorPaths.ValueOf | maths/saturated_color_paths.py:187-220 | an entry exists exactly when its colour has a chromoluminance, and it holds that colour, its xyY, its hue and its wavelength |
| SaturatedColorPaths.GamutSeries | maths/saturated_color_paths.py:89-224 | a resolution below 2 is an assertion error; otherwise each colour of the corrected trace with its chromoluminance, hue and wavelength |
| SaturatedColorPaths.SeriesDefined | maths/saturated_color_paths.py:187-220 | every colour of the trace has an entry once the white is defined |
| SaturatedColorPaths.EntryHue | maths/saturated_color_paths.py:212-220 | an entry's hue lies in (-pi / 2, 3 pi / 2], and it has a wavelength exactly when the hue lies within the sorted table |
| SaturatedColorPaths.SeriesHues | maths/saturated_color_paths.py:194-220 | the same holds for every entry of the series |
| SaturatedColorPaths.Known | maths/saturated_color_paths.py:322-339 | exactly the entries with a wavelength are kept, in order |
| SaturatedColorPaths.KnownWavelengths | maths/saturated_color_paths.py:327 | one wavelength per kept entry |
| SaturatedColorPaths.ChannelOf | maths/saturated_color_paths.py:328 | one channel value per kept entry |
| SaturatedColorPaths.NormalizedLuminance | maths/saturated_color_paths.py:333-340 | each luminance is divided by the greatest one |
| SaturatedColorPaths.TopLuminance | maths/saturated_color_paths.py:336 | the greatest luminance bounds every entry's and is one of them |
| SaturatedColorPaths.BandWavelengths | maths/saturated_color_paths.py:348-355 | `resolution` samples, all within the wavelength bounds |
| SaturatedColorPaths.SampleBetween | maths/saturated_color_paths.py:350 | an unclipped sample lies between the minimum and the maximum |
| SaturatedColorPaths.SampleStep | maths/saturated_color_paths.py:350 | consecutive unclipped samples differ by (max - min) / (n - 1) |
| SaturatedColorPaths.BandWavelengthsSpread | maths/saturated_color_paths.py:348-355 | within bounds holding both ends the samples run from the minimum to the maximum and none is clipped |
| SaturatedColorPaths.BandColor | maths/saturated_color_paths.py:356-365 | a band colour is clipped into the unit cube |
| SaturatedColorPaths.SpectrumColors | maths/saturated_color_paths.py:356-367 | one colour per band, each in the unit cube |
| SaturatedColorPaths.VisibleSpectrum | maths/saturated_color_paths.py:229-370 | invalid arguments are an assertion error; the bands are the rectangle's; no entry with a wavelength, or a greatest luminance of 0, is an error; the colours lie in the unit cube (built on the corrected trace) |
| SaturatedColorPaths.NoFading | maths/saturated_color_paths.py:356-365 | with power 0 a colour is the interpolated channels clipped to [0, 1] |
| SaturatedColorPaths.ChromaticityWithinGamut | maths/saturated_color_paths.py:375-473 | a resolution below 2 is an assertion error; otherwise the fill of the gamut's faces under the matrix |
| SaturatedColorPaths.ChromaticityDefined | maths/saturated_color_paths.py:444-452 | every colour of the cube has a chromaticity once the white is defined |
| SaturatedColorPaths.WithinGamutSucceeds | maths/saturated_color_paths.py:411-473 | once the white is defined the fill has 3 (n - 1)^2 closed five-vertex paths and as many saturated colours |
| SaturatedColorPaths.LocusTriples | maths/saturated_color_paths.py:527-545 | one (x, y, hue) row per locus point, in locus order |
| SaturatedColorPaths.Shifted | maths/saturated_color_paths.py:546-559 | every row keeps its point and has its hue moved by the shift |
| SaturatedColorPaths.ClosedLocusRow | maths/saturated_color_paths.py:546-560 | the closed table holds the table in its middle, with copies of its ends one turn away on either side |
| SaturatedColorPaths.HueColumn | maths/saturated_color_paths.py:563 | the hue column of the table |
| SaturatedColorPaths.XColumn | maths/saturated_color_paths.py:564 | the x column of the table |
| SaturatedColorPaths.YColumn | maths/saturated_color_paths.py:564 | the y column of the table |
| SaturatedColorPaths.MeanColor | maths/saturated_color_paths.py:611-620 | each channel is the mean of the two colours' channels |
| SaturatedColorPaths.TileRing | maths/saturated_color_paths.py:581-620 | one tile and one colour per entry |
| SaturatedColorPaths.BuildTiles | maths/saturated_color_paths.py:581-620 | the loop builds exactly the ring of tiles and colours |
| SaturatedColorPaths.ChromaticityOutsideGamut | maths/saturated_color_paths.py:478-624 | a resolution below 2 is an assertion error; otherwise the ring of tiles between the series (of the corrected trace) and the locus |
| SaturatedColorPaths.TilesRing | maths/saturated_color_paths.py:582-610 | each tile is closed, starts at its entry and shares with the next tile the segment from the next entry to its intercept |
| SaturatedColorPaths.MeanSaturated | maths/saturated_color_paths.py:611-620 | the mean of two colours on one edge of the cube is saturated and on that edge |
| SaturatedColorPaths.OutsideColorsSaturated | maths/saturated_color_paths.py:611-620 | every tile colour has a channel at 1 and a channel at 0 |
| SaturatedColorPaths.ThreeDimensionalSurface | maths/saturated_color_paths.py:629-706 | invalid arguments are an assertion error; otherwise the surface that holds the channel at the value |
| SaturatedColorPaths.SurfaceSucceeds | maths/saturated_color_paths.py:679-706 | once the white is defined the chromoluminance surface succeeds and its colours lie in the unit cube |
| SaturatedColorPaths.RgbSurface | maths/saturated_color_paths.py:690-691 | the RGB surface succeeds and places every colour at its own channels |
| ColorBlindFilters.TallyCounts | maths/color_blind_filters.py:48-53 | the histogram's keys are the colours that occur, each listed once, and each count is the number of occurrences, at least 1 |
| ColorBlindFilters.TallyTotal | maths/color_blind_filters.py:48-53 | the counts add up to the number of colours tallied |
| ColorBlindFilters.Column | maths/color_blind_filters.py:50-53 | the keys of one column, top to bottom |
| ColorBlindFilters.ScanLength | maths/color_blind_filters.py:49-53 | the column-major scan holds one key per pixel |
| ColorBlindFilters.ScanMembers | maths/color_blind_filters.py:49-53 | a colour occurs in the scan exactly when some pixel has it |
| ColorBlindFilters.TallyNext | maths/color_blind_filters.py:51-53 | tallying one more key inserts it at 0 when absent and then adds one |
| ColorBlindFilters.AddKey | maths/color_blind_filters.py:51-53 | one pixel: the key is inserted with count 0 when absent, then its count goes up by one |
| ColorBlindFilters.TallyColumn | maths/color_blind_filters.py:50-53 | the inner loop extends the tally by the keys of one column, in order |
| ColorBlindFilters.UniqueColors | maths/color_blind_filters.py:39-56 | the nested loops build the tally of the scan, column by column |
| ColorBlindFilters.UniqueColorsFacts | maths/color_blind_filters.py:39-56 | a key exactly for each colour some pixel has, its count the number of those pixels and at least 1, the counts adding up to width times height |
| ColorBlind.ParseCone | maths/color_blind.py:94-98 | accepted exactly when the cone is "long", "medium" or "short", and it maps to that cone; otherwise an assertion error |
| ColorBlind.ParseConeName | maths/color_blind.py:48-51 | every cone is found again from its name |
| ColorBlind.Unit | maths/color_blind.py:107-110 | `value / 255.0` puts an 8-bit colour in the unit cube |
| ColorBlind.Chromoluminance | maths/color_blind.py:105-112 | every 8-bit colour has an sRGB chromoluminance without gamma decoding, equal to the library conversion |
| ColorBlind.Accumulate | maths/color_blind.py:102-116 | the loop stores each colour's chromoluminance and sums count * x, count * y and count |
| ColorBlind.WeightedStep | maths/color_blind.py:114-115 | one more colour adds its count times its coordinate |
| ColorBlind.ChromasStep | maths/color_blind.py:113 | one more colour adds its chromoluminance to the map |
| ColorBlind.WeightedExtend | maths/color_blind.py:113-115 | adding a colour's entry leaves the sums over colours already listed unchanged |
| ColorBlind.MeanChromaticity | maths/color_blind.py:117-120 | the mean divides by zero exactly when the total count is 0 |
| ColorBlind.WeightedBounds | maths/color_blind.py:114-116 | a weighted sum lies between the least and the greatest coordinate times the total count |
| ColorBlind.MeanWithin | maths/color_blind.py:100-120 | the mean chromaticity lies in every box that holds all the pixels' chromaticities |
| ColorBlind.Attempt | maths/color_blind.py:221-228 | one round succeeds exactly when both conversions accept, gives a non-negative colour, and fails with an assertion error otherwise |
| ColorBlind.XyyScales | maths/color_blind.py:222-226 | the XYZ of a chromaticity scales with its luminance |
| ColorBlind.SignChecksScale | maths/color_blind.py:221-228 | the sign checks of `xyz_to_rgb` do not depend on a positive luminance scale |
| ColorBlind.AttemptScales | maths/color_blind.py:221-232 | scaling the luminance scales the RGB by the same factor |
| ColorBlind.LinearRgbScales | maths/color_blind.py:221-228 | for any matrix the sign checks pass together and the absolute RGB scales linearly |
| ColorBlind.AttemptLinear | maths/color_blind.py:221-228 | the conversion the loop uses is linear in the luminance |
| ColorBlind.Fade | maths/color_blind.py:232 | `0.95 ** k` lies in (0, 1] |
| ColorBlind.Settle | maths/color_blind.py:220-232 | the loop with bounded fuel only ever returns a colour in the unit cube |
| ColorBlind.FadeBound | maths/color_blind.py:232 | `0.95 ** k * (1 + k / 19) <= 1` |
| ColorBlind.Fits | maths/color_blind.py:220-232 | after more than 19 times the largest channel rounds a non-negative colour fits the unit cube |
| ColorBlind.Dimmed | maths/color_blind.py:220-232 | round k fails exactly when round 0 does, and is round 0's RGB times `0.95 ** k` |
| ColorBlind.Progress | maths/color_blind.py:220-232 | a round that still overshoots is followed by another within the bound |
| ColorBlind.DimShift | maths/color_blind.py:232 | dimming `0.95 * use` k times is dimming `use` k + 1 times |
| ColorBlind.SettleReaches | maths/color_blind.py:220-232 | with enough fuel from any round on, the loop finishes |
| ColorBlind.SettleFirst | maths/color_blind.py:220-232 | the loop returns some round's result |
| ColorBlind.OvershootsShift | maths/color_blind.py:229-232 | overshooting at round 0 and then k rounds from `0.95 * use` is overshooting k + 1 rounds from `use` |
| ColorBlind.Settled | maths/color_blind.py:218-232 | the loop fails exactly when its first round does, with that error, and otherwise ends in the unit cube |
| ColorBlind.SettledFirstFit | maths/color_blind.py:218-232 | the colour found is the first round's dimmed by `0.95 ** k` for the first k that fits |
| ColorBlind.FindLuminance | maths/color_blind.py:218-232 | the `while not valid_rgb` loop terminates and returns the settled colour |
| ColorBlind.LowerAngleRange | maths/color_blind.py:202-215 | the forced angle lies in (-5 pi / 2, -pi / 2] and equals the hue-window shift except at -pi / 2 |
| ColorBlind.GamutVertexChromaticity | maths/color_blind.py:154-166 | each gamut vertex is the chromaticity of its primary and lies inside the unit square |
| ColorBlind.GamutVertex | maths/color_blind.py:154-166 | the xy chromaticity of a primary of sRGB; stated by ColorBlind.GamutVertexChromaticity |
| ColorBlind.DistanceToEdgeZero | maths/color_blind.py:128-150 | the distance is non-negative and zero exactly when the arc point lies on the edge's line |
| ColorBlind.DistanceToEdge | maths/color_blind.py:128-150 | the distance from the arc point to the edge's line along the confusion line, infinite when they are parallel; stated by ColorBlind.DistanceToEdgeZero |
| ColorBlind.HypotZero | maths/color_blind.py:147-150 | only the zero vector has length zero |
| ColorBlind.ArcPointOnArc | maths/color_blind.py:137-140 | the arc point is the radius away from the copunctal point |
| ColorBlind.PolarLength | maths/color_blind.py:137-140 | (r cos t, r sin t) has length r |
| ColorBlind.GamutVertices | maths/color_blind.py:165 | the three vertices Red, Green, Blue |
| ColorBlind.EdgeAngles | maths/color_blind.py:167-192 | one edge angle for each of the edges Red-Green, Green-Blue and Blue-Red |
| ColorBlind.EdgeAngleBetween | maths/color_blind.py:168-186 | each edge angle lies between the hues of its edge's vertices |
| ColorBlind.AngleBoundsInside | maths/color_blind.py:154-196 | the bounds lie two degrees inside the vertices' hue range, which lies in (-5 pi / 2, -pi / 2] |
| ColorBlind.AngleBounds | maths/color_blind.py:193-196 | the least and greatest edge angle, each moved two degrees (pi / 90) inwards: both are attained, and every edge angle lies between them; ColorBlind.AngleBoundsInside places them in the hue window |
| ColorBlind.ExtremaInside | maths/color_blind.py:193-196 | the smallest and largest edge angles lie within the vertices' hue range |
| ColorBlind.ClampAngle | maths/color_blind.py:216-217 | the two `if`s clip the angle to the bounds when they are in order, and give the upper bound when they cross |
| ColorBlind.QuantizeUnit | maths/color_blind.py:233-236 | `int(value * 255.0)` undoes `value / 255.0` on an 8-bit channel |
| ColorBlind.TargetOnArc | maths/color_blind.py:202-226 | the target lies on the arc, at the colour's own hue when it is inside the bounds and at the nearer bound otherwise |
| ColorBlind.NewColor | maths/color_blind.py:201-236 | a new colour fails, with an assertion error, exactly when the first round at its target fails |
| ColorBlind.NewColorFirstFit | maths/color_blind.py:201-236 | a new colour is the first round's RGB dimmed to the first fit and quantized |
| ColorBlind.Changed | maths/color_blind.py:200-236 | succeeds exactly when every colour's new colour does, with a key for exactly the listed colours, each mapped to its new colour |
| ColorBlind.ChangeColors | maths/color_blind.py:200-236 | the loop computes `changed_colors` |
| ColorBlind.Remap | maths/color_blind.py:240-244 | a new image of the same size whose every pixel is the new colour of the old pixel |
| ColorBlind.ArcOf | maths/color_blind.py:117-196 | the arc is undefined exactly when the total count is 0, a division by zero |
| ColorBlind.ImageArc | maths/color_blind.py:100-196 | the arc of an image exists exactly when the image has a pixel |
| ColorBlind.ImageArcFacts | maths/color_blind.py:98-196 | the radius is a length, the centre is the cone's copunctal point and the bounds lie two degrees inside the vertices' hues |
| ColorBlind.PixelsListed | maths/color_blind.py:101-104 | every pixel's colour is a key of the histogram and every key is some pixel's colour |
| ColorBlind.ColorMapFacts | maths/color_blind.py:81-244 | an unknown cone is an assertion error, an empty image a division by zero, and otherwise every pixel's colour has its new colour |
| ColorBlind.FilterImage | maths/color_blind.py:81-247 | succeeds exactly when the colour map does, with its error, and returns an image of the same size |
| ColorBlind.MeanArc | maths/color_blind.py:101-196 | the method's loop gives the library chromoluminances and the arc of the histogram |
| Figure.InnerFacts | figure/figure.py:1223-1236 | the inner value of two is one of them and at least as far inwards as both: the larger on left and bottom, the smaller on right and top |
| Figure.BestBound | figure/figure.py:1216-1238 | a group's best value is at least as far inwards as every member so far and is one of them |
| Figure.BestLeast | figure/figure.py:1216-1238 | a value at least as far inwards as every member is at least as far inwards as the best |
| Figure.BestShared | figure/figure.py:1219-1222 | panels with equal nominal edges have the same best value |
| Figure.BestAlone | figure/figure.py:1219-1222 | a panel alone in its group keeps its own value |
| Figure.LastMember | figure/figure.py:1216-1238 | the last member of a panel's group at or below a position is found |
| Figure.MergeKeeps | figure/figure.py:1223-1238 | one visit of a pair keeps every value within its group's bounds and keeps values already at their best |
| Figure.PassStep | figure/figure.py:1217-1238 | visiting one more partner keeps the pass invariant |
| Figure.PassFacts | figure/figure.py:1217-1238 | the inner loop of a pass keeps the pass invariant |
| Figure.PassDone | figure/figure.py:1216-1238 | a whole pass settles one more panel at its group's best |
| Figure.PassesFacts | figure/figure.py:1216-1238 | after i passes the first i panels are settled and every value stays within its group's bounds |
| Figure.AlignedIsBest | figure/figure.py:1214-1238 | every panel ends with its group's best value |
| Figure.BestAttained | figure/figure.py:1216-1238 | the best value is the fitted value of some member of the group |
| Figure.AlignedFacts | figure/figure.py:1213-1239 | panels with equal nominal edges end with one common value, the innermost of their fitted values; a panel alone keeps its own |
| Figure.Hashed | figure/figure.py:161 | the string gets a '#' when it holds none and is kept otherwise |
| Figure.ParseRgb | figure/figure.py:152-162 | a 24-bit colour is accepted as three channels all in [0, 1] or a hexadecimal string of 6 or 7 characters, and channels are stored as given |
| Figure.ParseRgba | figure/figure.py:312-326 | a panel colour is accepted as three or four channels all in [0, 1] or a hexadecimal string of 6 to 9 characters |
| Figure.RgbIsRgba | figure/figure.py:152-326 | every 24-bit colour is also a panel colour, stored the same way unless it is a 6-character string |
| Figure.Edges | figure/figure.py:1186-1187 | width becomes right and height becomes top |
| Figure.EdgesOrdered | figure/figure.py:1186-1187 | the edges of a valid position are in order |
| Figure.Grey | figure/figure.py:184-195 | the value defaults to 1.0 and must lie in [0, 1]; the grey is (v, v, v), or (1 - v, 1 - v, 1 - v) when inverted |
| Figure.GreyInverted | figure/figure.py:195 | inverting a figure mirrors its grey scale |
| Figure.GreyExamples | figure/figure.py:190-195 | the default grey is white, or black when inverted, and 0.5 is the same on both |
| Figure.FontSizes | figure/figure.py:238-244 | the new size dictionary holds exactly the given sizes |
| Figure.NewPanel | figure/figure.py:287-330 | a new panel has a valid name not yet taken and a valid position; a failed check is an assertion error |
| Figure.NewPanelFacts | figure/figure.py:287-330 | a panel is made exactly when every check passes, with the defaults filled in and its title the given one or its name |
| Figure.DefaultNameTaken | figure/figure.py:288-291 | after panels 0 and 1 and the removal of panel 0, a panel added without a name is refused because its default name 1 is taken |
| Figure.WithPanelValid | figure/figure.py:449-480 | recording a panel under a new name keeps the panel state valid |
| Figure.WithoutPanelValid | figure/figure.py:515-519 | removing a panel keeps the panel state valid |
| Figure.Without | figure/figure.py:518 | the panel order without the removed name |
| Figure.WithoutDistinct | figure/figure.py:518 | the remaining names stay distinct |
| Figure.OrientationAsWritten | figure/figure.py:578-610 | as written, accepted exactly when the sign is ±1 and the axis a two-character case-insensitive choice |
| Figure.UpperCaseAxisMisread | figure/figure.py:586-601 | '-X' is accepted but gives the '+y' view, not the '-x' one |
| Figure.Orientation | figure/figure.py:578-610 | the corrected lookup is accepted exactly when the checks pass, and a failed check is an assertion error |
| Figure.OrientationFacts | figure/figure.py:586-610 | the corrected view ignores the axis's case, and the eight accepted choices give eight different views |
| Figure.Keep | figure/figure.py:1280-1287 | only alphanumeric and listed characters are kept, in order |
| Figure.RStrip | figure/figure.py:1283 | `rstrip` removes exactly the trailing whitespace |
| Figure.SanitizeFacts | figure/figure.py:1280-1287 | sanitising keeps only allowed characters and is idempotent |
| Figure.NameHasNoSeparator | figure/figure.py:1284-1287 | the sanitised name holds no '/' |
| Figure.Figure.constructor | figure/figure.py:55-96 | a new figure has no panels, black font on a plain figure and white on an inverted one, and no font sizes |
| Figure.Figure.GreyLevel | figure/figure.py:184-195 | the grey level of this figure |
| Figure.Figure.SetFonts | figure/figure.py:200-249 | succeeds exactly when every given size is positive and a given colour is valid; given sizes replace the dictionary; the font colour becomes the given one or grey level 0 |
| Figure.Figure.AddPanel | figure/figure.py:254-499 | a panel that passes the checks is recorded under its name with its position and colour, and goes last in the order |
| Figure.Figure.RemovePanel | figure/figure.py:504-520 | an absent name gives false and changes nothing; a present one is removed from the panels and positions, its colour staying behind, and gives true |
| Figure.Figure.ChangePanelPosition | figure/figure.py:525-553 | for an existing panel and a valid position only that panel's nominal position changes |
| Figure.Figure.ChangePanelOrientation | figure/figure.py:559-611 | for an existing three-dimensional panel the view becomes the corrected orientation (see "## Left out") |
| Figure.Figure.ChangePanelColor | figure/figure.py:617-652 | for an existing panel and a valid 24-bit colour only that panel's colour changes |
| Figure.Figure.SaveFileName | figure/figure.py:1259-1288 | path, name and extension default and must be non-empty; path and name are sanitised into '{path}/{name}.{extension}' |
| Figure.Figure.OldPositions | figure/figure.py:1180-1187 | the edges of every panel's nominal position, in panel order |
| Figure.Figure.AlignSharedEdges | figure/figure.py:1213-1239 | every edge column ends as the alignment of the fitted values grouped by nominal edge |
| Figure.EdgeKeys | figure/figure.py:1220-1221 | the nominal value of one edge for every panel |
| Figure.AlignEdges | figure/figure.py:1216-1238 | the triple loop computes the alignment of every edge |
| Figure.AlignPass | figure/figure.py:1217-1238 | one pass of the first panel against every second panel |
| Figure.VisitPair | figure/figure.py:1218-1238 | one pair visited on every edge |
| Figure.MergePair | figure/figure.py:1219-1238 | one visit changes only its edge's column, as the merge says |
| Figure.Column | figure/figure.py:1205-1210 | one edge column of the fitted positions |
| Figure.NewFigure | figure/figure.py:55-96 | the name defaults to the number of open figures, the size to 16 by 9, the colour to white or black when inverted, and the setters' checks apply |
| ColorBlindStimulus.Scaled | generation/color_blind_stimulus.py:50 | every size is the listed value times the field radius |
| ColorBlindStimulus.SizesPositive | generation/color_blind_stimulus.py:50 | there are 8 sizes, each between 0.01 and 0.04 |
| ColorBlindStimulus.Spread | generation/color_blind_stimulus.py:103-104 | a draw in [0, 1) gives a coordinate in [-radius, radius) |
| ColorBlindStimulus.Candidates | generation/color_blind_stimulus.py:101-120 | exactly the drawn positions within the circular field survive, in order |
| ColorBlindStimulus.Taken | generation/color_blind_stimulus.py:151-172 | the positions at the listed indices |
| ColorBlindStimulus.Sized | generation/color_blind_stimulus.py:145-171 | circles of one size at the given positions |
| ColorBlindStimulus.Centres | generation/color_blind_stimulus.py:154-162 | the positions of the circles |
| ColorBlindStimulus.CentresOfPass | generation/color_blind_stimulus.py:145-171 | appending circles appends their positions |
| ColorBlindStimulus.ClearOfPlaced | generation/color_blind_stimulus.py:153-164 | the loop leaves `place` true exactly when the position is clear of every circle placed |
| ColorBlindStimulus.BlockedStays | generation/color_blind_stimulus.py:153-164 | a position blocked by some placed circles stays blocked when more are placed |
| ColorBlindStimulus.PlacePass | generation/color_blind_stimulus.py:127-172 | one pass places exactly the circles at the returned ascending indices, each admissible and clear of every earlier circle |
| ColorBlindStimulus.PlacedExtend | generation/color_blind_stimulus.py:130-172 | an admissible circle clear of the placed ones can join them |
| ColorBlindStimulus.PassExtend | generation/color_blind_stimulus.py:165-172 | placing at one more index keeps the pass invariants |
| ColorBlindStimulus.AppendOne | generation/color_blind_stimulus.py:166-172 | one more index appends one circle |
| ColorBlindStimulus.PopPlaced | generation/color_blind_stimulus.py:173-175 | the pops in reverse remove exactly the placed positions: what remains and what was taken make up the original positions |
| ColorBlindStimulus.PopStep | generation/color_blind_stimulus.py:174-175 | each pop removes the entry still holding the original position |
| ColorBlindStimulus.PlaceCircles | generation/color_blind_stimulus.py:124-176 | every circle placed is admissible and clear of every other, and has one of the sizes |
| ColorBlindStimulus.PlaceSize | generation/color_blind_stimulus.py:127-176 | one size's pass and pops keep the placement valid and add `count` circles |
| ColorBlindStimulus.InStimulusByCircularDistance | generation/color_blind_stimulus.py:235-252 | for every gap direction and angle, the test is "outside the gap window" measured round the circle |
| ColorBlindStimulus.GeneralTestMissesWrap | generation/color_blind_stimulus.py:242-247 | the general test applied to direction pi would accept an angle inside the gap window, the reason for the separate branch |
| ColorBlindStimulus.DiscOnOneSide | generation/color_blind_stimulus.py:131-141 | a placed circle lies wholly inside the ring when its centre does and wholly outside otherwise |
| ColorBlindStimulus.EdgeDistance | generation/color_blind_stimulus.py:212-232 | the distance is infinite exactly when the confusion line is parallel to the edge, and otherwise non-negative |
| ColorBlindStimulus.Shorter | generation/color_blind_stimulus.py:224-232 | `min` of two distances is one of them, infinite only when both are |
| ColorBlindStimulus.BoundsAroundMiddle | generation/color_blind_stimulus.py:255-288 | the two ends lie either side of the middle chromaticity, symmetrically, 2 * 0.6 * maximum_distance apart along the line |
| ColorBlindStimulus.PolarOfMiddle | generation/color_blind_stimulus.py:188-197 | the polar coordinates about the copunctal point locate the middle chromaticity |
| ColorBlindStimulus.EndsAroundMiddle | generation/color_blind_stimulus.py:255-288 | each end is the middle moved by ±0.6 * maximum_distance along the confusion line |
| ColorBlindStimulus.AxisBounds | generation/color_blind_stimulus.py:257-286 | one coordinate of the two ends |
| ColorBlindStimulus.LinearRgb | generation/color_blind_stimulus.py:289-296 | an accepted conversion lies in the unit cube, and a chromoluminance out of range is rejected |
| ColorBlindStimulus.MaxChannel | generation/color_blind_stimulus.py:298 | `max` is a channel and no channel exceeds it |
| ColorBlindStimulus.Saturated | generation/color_blind_stimulus.py:297-300 | saturating succeeds exactly when the largest channel is non-zero; black fails the later range check |
| ColorBlindStimulus.SaturatedInCube | generation/color_blind_stimulus.py:297-300 | a saturated colour lies in the unit cube with its largest channel at 1 |
| ColorBlindStimulus.UnitLuminance | generation/color_blind_stimulus.py:301-307 | a unit-cube colour's luminance lies in [0, 1] |
| ColorBlindStimulus.SaturatedLuminance | generation/color_blind_stimulus.py:289-307 | an end's luminance lies in [0, 1], and an end out of range is an assertion error |
| ColorBlindStimulus.MaximumLuminance | generation/color_blind_stimulus.py:308 | the maximum luminance is at most 0.4 and at most every bound |
| ColorBlindStimulus.MaximumDistance | generation/color_blind_stimulus.py:198-232 | the maximum distance is non-negative; a confusion line parallel to both edges is an error |
| ColorBlindStimulus.StimulusPalette | generation/color_blind_stimulus.py:184-308 | the maximum luminance lies in [0, 0.4] and the maximum distance is non-negative |
| ColorBlindStimulus.CircleSides | generation/color_blind_stimulus.py:325-338 | a figure circle lies up to 0.6 of the maximum distance beyond the middle chromaticity, a background circle up to that far before it |
| ColorBlindStimulus.CircleColors | generation/color_blind_stimulus.py:324-347 | succeeds exactly when every circle's colour converts, with one colour per circle |
| ColorBlindStimulus.Stimulus | generation/color_blind_stimulus.py:101-347 | the circles are valid placements of drawn positions with listed sizes, and their colours follow |
| ColorBlindStimulus.MeanBackground | generation/color_blind_stimulus.py:317-323 | the 'Mean' background is the middle chromaticity at the middle of the luminance band, and is defined only when that is in range |
| ConfusionLines.ChromoluminanceOf | generation/confusion_lines_and_copunctal_points.py:141-145 | the chromoluminance is defined exactly when X + Y + Z is non-zero; a zero sum is a division by zero |
| ConfusionLines.WalkDown | generation/confusion_lines_and_copunctal_points.py:146-156 | the walk stores the points from the start down while x stays in [0, 0.65], as the descent relation says |
| ConfusionLines.WalkUp | generation/confusion_lines_and_copunctal_points.py:157-172 | the walk stores the points above the start that are still in range, as the ascent relation says |
| ConfusionLines.ConfusionLine | generation/confusion_lines_and_copunctal_points.py:138-175 | a line is the two walks' points sorted by x: ordered, and a permutation of the descent followed by the ascent |
| ConfusionLines.ConfusionLineInRange | generation/confusion_lines_and_copunctal_points.py:146-175 | every point of a line has x in [0, 0.65] and lies some whole number of steps from the start |
| ConfusionLines.StepLuminance | generation/confusion_lines_and_copunctal_points.py:150-170 | the luminance k steps away moves linearly with k |
| ConfusionLines.StepsDiffer | generation/confusion_lines_and_copunctal_points.py:150-170 | points an unequal number of steps away differ when the L cone moves the luminance |
| ConfusionLines.StartStoredOnce | generation/confusion_lines_and_copunctal_points.py:146-172 | the start is on the line exactly once when it is in range, and not at all otherwise |
| ConfusionLines.StartNotAscended | generation/confusion_lines_and_copunctal_points.py:163-172 | the upward walk never stores the start |
| ConfusionLines.StartDescendedOnce | generation/confusion_lines_and_copunctal_points.py:148-156 | the downward walk stores the start first, when in range, and never again |
| ConfusionLines.LConeMovesLuminance | generation/confusion_lines_and_copunctal_points.py:150-151 | the L-cone activation moves Y under the script's conversion |
| ConfusionLines.LConeConfusionLines | generation/confusion_lines_and_copunctal_points.py:136-177 | one confusion line per starting colour, each from that colour's cone activation |
| ConfusionLines.ChromaticityOf | generation/confusion_lines_and_copunctal_points.py:209-220 | the chromaticity is defined exactly when X + Y + Z is non-zero |
| ConfusionLines.ChromaticityOfScaled | generation/confusion_lines_and_copunctal_points.py:209-220 | scaling an activation leaves its chromaticity unchanged |
| ConfusionLines.EndingLms | generation/confusion_lines_and_copunctal_points.py:205-208 | the ending activation is the pure activation of the cone, scaled by the start's value less 0.1 |
| ConfusionLines.SegmentOf | generation/confusion_lines_and_copunctal_points.py:203-221 | a segment exists exactly when both ends have a chromaticity, and runs from the start's |
| ConfusionLines.SegmentEndsAtCone | generation/confusion_lines_and_copunctal_points.py:205-221 | every segment of a cone ends at the chromaticity of the cone's pure activation, unless the start's activation is exactly 0.1 |
| ConfusionLines.GamutSegments | generation/confusion_lines_and_copunctal_points.py:180-193 | three edges, each ending where the next begins: a closed triangle |
| ConfusionLines.GamutDefined | generation/confusion_lines_and_copunctal_points.py:180-193 | all three edges exist |
| ConfusionLines.TraceCone | generation/confusion_lines_and_copunctal_points.py:201-234 | the loop over one cone's starting colours succeeds exactly when every segment exists, and gives each segment with its two gamut crossings |
| ConfusionLines.MeetingEstimates | generation/confusion_lines_and_copunctal_points.py:235-245 | one estimate per segment after the first: its meeting with the first segment |
| ConfusionLines.MeanPoint | generation/confusion_lines_and_copunctal_points.py:246 | the mean is a point exactly when there are estimates and all meet, and it times their number is their total |
| ConfusionLines.TotalOfEqual | generation/confusion_lines_and_copunctal_points.py:246 | equal estimates all meet and total their number times the point |
| ConfusionLines.MeanOfEqual | generation/confusion_lines_and_copunctal_points.py:246 | the mean of equal estimates is their common point |
| ConfusionLines.MeanOfTwo | generation/confusion_lines_and_copunctal_points.py:246 | the mean of the script's two estimates is their midpoint |
| ConfusionLines.EstimateCone | generation/confusion_lines_and_copunctal_points.py:196-246 | one round of the cone loop succeeds exactly when every segment exists |
| ConfusionLines.CopunctalIsConeChromaticity | generation/confusion_lines_and_copunctal_points.py:203-246 | wherever the segments are not parallel, the estimate is the chromaticity of the cone's pure activation |
| ConfusionLines.CopunctalPoints | generation/confusion_lines_and_copunctal_points.py:179-246 | the gamut edges and then one estimate per cone |
| ConfusionLines.CellRectangle | generation/confusion_lines_and_copunctal_points.py:257-289 | each cell is a closed axis-parallel rectangle, a RESOLUTION-th of the band wide and band_height high |
| ConfusionLines.CellsTile | generation/confusion_lines_and_copunctal_points.py:257-289 | the cells tile the band from its left end to its right end, consecutive cells sharing an edge |
| ConfusionLines.BandChromaticity | generation/confusion_lines_and_copunctal_points.py:290-297 | defined exactly when both crossings meet; a parallel crossing is an assertion error downstream |
| ConfusionLines.BandChromaticityBetween | generation/confusion_lines_and_copunctal_points.py:290-297 | fraction 0 gives the first crossing, 1 the second, and every fraction a point between them |
| ConfusionLines.BetweenEnds | generation/confusion_lines_and_copunctal_points.py:291-295 | u + t (v - u) for t in [0, 1] lies between u and v |
| ConfusionLines.BandColor | generation/confusion_lines_and_copunctal_points.py:290-300 | a missing crossing is an assertion error, and the only error |
| ConfusionLines.BuildBand | generation/confusion_lines_and_copunctal_points.py:255-301 | a band succeeds exactly when every cell's colour does, with a cell and colour per fraction |
| ConfusionLines.ConeBands | generation/confusion_lines_and_copunctal_points.py:254-302 | one band per crossing pair, at most three |
| ConfusionLines.ColorBands | generation/confusion_lines_and_copunctal_points.py:252-302 | the bands of every cone |
| MultipleProtan.ToLms | maths/color_conversion.py:181-219 | `xyz_to_lms` of the checked module rejects negative tristimulus values with an assertion error |
| MultipleProtan.ToXyz | maths/color_conversion.py:143-178 | `lms_to_xyz` of the checked module rejects activations outside [0, 1] with an assertion error |
| MultipleProtan.ConversionsOfModules | generation/figure_25_multiple_protan.py:49-54 | the script's conversions are those of maths/color_conversion.py with the 2-degree field |
| MultipleProtan.AsWrittenWalkable | generation/figure_25_multiple_protan.py:90-117 | the script's conversions have a positive L coefficient for X and are inverse to each other |
| MultipleProtan.CorrectedWalkable | maths/color_blindness.py:60-119 | the conversions of maths/color_blindness.py have a positive L coefficient for X and are inverse to each other |
| MultipleProtan.StartOf | generation/figure_25_multiple_protan.py:89-96 | a start exists exactly when the colour lies in the unit cube; otherwise the conversion asserts |
| MultipleProtan.DisplayColorsVisible | generation/figure_25_multiple_protan.py:90 | a colour of the unit cube has non-negative tristimulus values, of positive sum unless it is black |
| MultipleProtan.SrgbStart | generation/figure_25_multiple_protan.py:90 | `rgb_to_xyz(*start_color)` is sRGB without gamma correction |
| MultipleProtan.DownStep | generation/figure_25_multiple_protan.py:100-106 | a downward step fails only by the conversion's assertion |
| MultipleProtan.UpStep | generation/figure_25_multiple_protan.py:111-117 | an upward step fails only by the conversion's assertion |
| MultipleProtan.DownStepBounded | generation/figure_25_multiple_protan.py:100-105 | a step of the downward walk that lands leaves room below the start's X for its decrements |
| MultipleProtan.WalkDown | generation/figure_25_multiple_protan.py:96-106 | the downward walk terminates; its result is the descent from the start, or an assertion error at some step |
| MultipleProtan.UpStepBounded | generation/figure_25_multiple_protan.py:111-112 | a step of the upward walk that lands has L at most 1 |
| MultipleProtan.WalkUp | generation/figure_25_multiple_protan.py:107-117 | the upward walk terminates; its result is the ascent from the start, or an assertion error at some step |
| MultipleProtan.RowOf | generation/figure_25_multiple_protan.py:89-123 | a row is both walks from the colour's start sorted by x, or an assertion error |
| MultipleProtan.RowInRange | generation/figure_25_multiple_protan.py:98-110 | every stored chromoluminance has 0 <= x <= 0.65 |
| MultipleProtan.StartTwice | generation/figure_25_multiple_protan.py:98-110 | both walks store the start first, so a start in range is in the row twice |
| MultipleProtan.Rows | generation/figure_25_multiple_protan.py:88-123 | one row per start colour, or an assertion error |
| MultipleProtan.Intersections | generation/figure_25_multiple_protan.py:127-137 | the meetings of consecutive rows' segments; an empty row is an index error |
| MultipleProtan.EstimateCopunctal | generation/figure_25_multiple_protan.py:82-138 | the estimate is the mean of the meetings of the rows of the three start colours, or an assertion or index error |
| MultipleProtan.AsWrittenShort | maths/color_conversion.py:143-219 | under the script's conversions Z = 0.00801 S |
| MultipleProtan.CheckedFirstStepRaises | generation/figure_25_multiple_protan.py:100-104 | with S above 1 the first downward `lms_to_xyz` asserts |
| MultipleProtan.FirstStartInRange | generation/figure_25_multiple_protan.py:83-95 | the first start colour has tristimulus values (0.430125, 0.48195, 0.306875) and a chromaticity in range |
| MultipleProtan.CheckedStartRaises | generation/figure_25_multiple_protan.py:89-104 | a start whose S exceeds 1 is in range but raises at the first downward step |
| MultipleProtan.AsWrittenFirstStepRaises | generation/figure_25_multiple_protan.py:89-104 | as written, the first start colour is in range but its S activation is about 38, so the first downward step asserts |
| MultipleProtan.DescentNeedsFirstStep | generation/figure_25_multiple_protan.py:98-106 | a downward walk whose first step raises has no result |
| MultipleProtan.AsWrittenNeverEstimates | generation/figure_25_multiple_protan.py:82-138 | as written, the script never reaches a copunctal point |
| MultipleProtan.ShiftedAlong | generation/figure_25_multiple_protan.py:100-116 | a step in L moves the tristimulus values along column 0 of the matrix |
| MultipleProtan.ChromaticityAlong | generation/figure_25_multiple_protan.py:98-117 | the chromaticities of v0 + t w all lie on one ray from the chromaticity of w |
| MultipleProtan.StoredOnRay | generation/figure_25_multiple_protan.py:99-110 | a stored chromoluminance of visible tristimulus values lies on that ray |
| MultipleProtan.RayOnLine | generation/figure_25_multiple_protan.py:131-136 | any two points of a ray are on a line through its origin |
| MultipleProtan.StartOnRay | generation/figure_25_multiple_protan.py:95 | the start lies on its ray |
| MultipleProtan.DownOnRay | generation/figure_25_multiple_protan.py:98-106 | every point of the downward walk lies on the start's ray |
| MultipleProtan.UpOnRay | generation/figure_25_multiple_protan.py:109-117 | every point of the upward walk lies on the start's ray |
| MultipleProtan.RowOnRay | generation/figure_25_multiple_protan.py:89-123 | every entry of a row lies on the ray from the chromaticity of a pure L activation through the start |
| MultipleProtan.SegmentThroughCopunctal | generation/figure_25_multiple_protan.py:132-135 | each row's first-to-last segment runs through that chromaticity |
| MultipleProtan.RowThroughColor | generation/figure_25_multiple_protan.py:89-135 | the row of a colour other than black runs through that chromaticity |
| MultipleProtan.RowThroughDirection | generation/figure_25_multiple_protan.py:83-135 | so does every row of an estimate |
| MultipleProtan.EstimateAtDirection | generation/figure_25_multiple_protan.py:126-138 | when consecutive rows meet, the estimate is the chromaticity of a pure L activation |
| MultipleProtan.ProtanDirection | maths/color_blindness.py:60-119 | under maths/color_blindness.py that chromaticity is (0.45684 / 0.61198, 0.15514 / 0.61198) |
| MultipleProtan.CorrectedStartsRoundTrip | maths/color_blindness.py:60-119 | the corrected conversions round-trip every start colour |
| MultipleProtan.CorrectedCopunctal | generation/figure_25_multiple_protan.py:82-138 | with the corrected conversions, whenever consecutive rows meet the estimate is PROTAN_COPUNCTAL |
| MultipleProtan.ProtanNearCenter | maths/chromaticity_conversion.py:58-59 | PROTAN_COPUNCTAL is within 0.001 of the long-wavelength copunctal point (0.746, 0.254) |
| VisibleSpectrumLocus.WavelengthTicks | generation/figure_18_visible_spectrum_locus.py:73-87 | 33 ticks, the first and last being the truncated first and last wavelengths of the 1931 2-degree locus |
| VisibleSpectrumLocus.InnerTicksAscend | generation/figure_18_visible_spectrum_locus.py:73-87 | the ticks between the two locus ends ascend strictly (400, 450, 475 to 600 in fives, 610, 625, 650) |
| VisibleSpectrumLocus.Ptp | generation/figure_18_visible_spectrum_locus.py:99 | numpy `ptp` is never negative and bounds every pairwise difference of the entries |
| VisibleSpectrumLocus.TicksSpan | generation/figure_18_visible_spectrum_locus.py:98-107 | `int(ptp(WAVELENGTH_TICKS))` is at least 250, is exact because the ticks are whole, and is at least the distance from the first tick to the last |
| VisibleSpectrumLocus.ArangeCount | generation/figure_18_visible_spectrum_locus.py:110 | the number of entries of a unit-step `arange` is the ceiling of its span, or zero for an empty span |
| VisibleSpectrumLocus.ArangeUnit | generation/figure_18_visible_spectrum_locus.py:110 | a unit-step `arange` holds whole steps from the start, every one below the stop, as many as ArangeCount gives |
| VisibleSpectrumLocus.ScanWithinSpectrum | generation/figure_18_visible_spectrum_locus.py:98-111 | the scan visits every whole wavelength from the first tick to the last, and never more entries than the int(ptp) + 1 band colours, so the indexing at line 117 stays in bounds |
| VisibleSpectrumLocus.SquaredError | generation/figure_18_visible_spectrum_locus.py:113-121 | the error is never negative and is zero exactly when the band colour equals the named colour |
| VisibleSpectrumLocus.Errors | generation/figure_18_visible_spectrum_locus.py:113-121 | one error per scanned band, each the squared error of that band's colour |
| VisibleSpectrumLocus.ErrorsExtend | generation/figure_18_visible_spectrum_locus.py:109-121 | one more scanned band appends exactly its error |
| VisibleSpectrumLocus.FirstMinimumUnique | generation/figure_18_visible_spectrum_locus.py:122-123 | the first position of the minimum error is unique |
| VisibleSpectrumLocus.FirstMinimumExtend | generation/figure_18_visible_spectrum_locus.py:122-123 | one more error moves the first minimum to it exactly when it is strictly smaller, as the test `best[1] > error` does |
| VisibleSpectrumLocus.TracksStep | generation/figure_18_visible_spectrum_locus.py:122-123 | one update of an entry keeps it the first minimum of the errors seen so far, starting from None |
| VisibleSpectrumLocus.BestWavelengths | generation/figure_18_visible_spectrum_locus.py:108-123 | IndexError exactly when the scan is longer than the band colours and there is a named colour; otherwise every entry is the wavelength and error of the first minimum of its colour's errors, None for an empty scan |
| VisibleSpectrumLocus.BestIsFirstMinimum | generation/figure_18_visible_spectrum_locus.py:108-123 | the entry's error is no larger than at any scanned wavelength, is attained at the reported wavelength and at no earlier one, and is zero when some band matches exactly |
| VisibleSpectrumLocus.SpectrumColors | generation/figure_18_visible_spectrum_locus.py:98-107 | int(ptp) + 1 band colours, each inside the unit cube |
| VisibleSpectrumLocus.NamedColorWavelengths | generation/figure_18_visible_spectrum_locus.py:91-123 | fails exactly when `visible_spectrum` fails and with its error; otherwise one entry per named colour, each the first minimum of its errors over the scan, and present whenever the last whole locus wavelength is not below the first |

## Left out

- Python type checks (`isinstance`, list lengths of 2 or 3) are enforced by the Dafny types: a point is a `Point`, a colour a `Vec3`, a matrix a `Mat3`.
- `numpy.around` in maths/color_conversion.py and every other float rounding: the model computes exactly over the reals.
- The outcome of the within-gamut warning of `xyz_to_rgb`: it compares triangle areas of chromaticities rounded to 6 decimals with `around`, which has no exact counterpart. Its assertions on the primaries and on the input are modelled.
- SaturatedColorPaths.GamutSeries, SaturatedColorPaths.VisibleSpectrum and SaturatedColorPaths.ChromaticityOutsideGamut: they use the corrected trace (`GamutTrace`), one colour longer than the source's `[0:-2]` slice gives (6 n - 6 instead of 6 n - 7); the as-written trace is modelled and related to it under "## Findings".
- Figure.Figure.ChangePanelOrientation: it sets the corrected `Orientation`, not the source's `OrientationAsWritten`; they differ only for an upper-case `left_axis` ('-X' with sign 1 gives (22.5, -225) where the source gives (22.5, 45)). The as-written lookup is modelled and related to it under "## Findings".
- ChromaticityFromSpectrum.ChromaticityFromSpectrum: it loads the corrected file (`IntendedFile`), not the source's `WrittenFile`; they differ only for '170_2_2_deg', which the source answers from the 10-degree file. The as-written mapping is modelled and related to it under "## Findings".
- Figure.Keep, Figure.SanitizeFacts and Figure.Figure.SaveFileName: ASCII character classes only. Python's `isalnum` and `isspace` also accept non-ASCII letters, digits and spaces; the model drops them (a name "café" is sanitised to "caf").
- Coloration.Lower and Coloration.TitleFrom: ASCII character classes only; `lower()` and `title()` of Python also change the case of non-ASCII letters. The colour names they are applied to are ASCII.
- The CRT matrices of maths/color_conversion.py: lines 32-49 import `XYZ_TO_RGB_CRT_10` and `RGB_TO_XYZ_CRT_10` from maths/conversion_coefficients.py, which does not define them. As written, importing maths/color_conversion.py therefore raises ImportError, and so does every module and script that imports it. The model treats the module as if it had loaded, with the CRT matrix as a parameter.
- `arctan2`, `cos`, `sin`, `**`, `exp`, Planck's law, `interp1d` and `fmin` are parameters with only the facts the lemmas need, and no accuracy claims.
- CorrelatedColorTemperature.CorrelatedColorTemperature and ColorTemperature.CctFromChromaticity: the Nelder-Mead steps of `fmin` are not modelled. The temperatures it probes and the solution it returns are an input (`Search`), so the model does not say which (u, v) lead the search to probe a temperature at or below zero and raise; it says only that such a probe raises.
- Loading the CSV and Excel tables: the tables are parameters, and the lemmas assume them valid.
- ColorTemperature.WrittenGuardHarmless: the clipping guard of maths/color_temperature.py:107-112 compares the last sorted wavelength with the first tabulated one. The lemma proves that for every valid spectrum this changes nothing, so it is not listed as a finding.
- Everything matplotlib and PIL draw or hold: axes, annotations, tick labels, path collections, `savefig`, the image files. A panel is represented by the settings the `Figure` class hands to matplotlib, a figure script by the data it plots.
- The renderer's tight-bounding-box fit in figure/figure.py:1179-1211: the fitted panel edges are an input of the alignment model.
- `to_rgb` and `to_rgba` of matplotlib: a hexadecimal colour is stored as its text with a '#', not decoded into channels.
- `isinstance(image, Image.Image)` in maths/color_blind_filters.py:44: the image is an array of pixels by type.
- `fminbound` of scipy in maths/color_blind.py is a parameter, with no claim that it finds the true maximum.
- `numpy.random.rand` in generation/color_blind_stimulus.py: the draws are input sequences of values in [0, 1).
- NaN and infinity: a float division by zero is `Err(ZeroDivision)`, and `float('inf')` is an `Option`.
- `arange` and `linspace` over floats, and sums of floats, are exact over the reals: a scan of whole wavelengths has no accumulated rounding.
- The first and last wavelengths of the CIE 1931 2-degree locus come from a data file, so they are parameters of VisibleSpectrumLocus.
- VisibleSpectrumLocus.NamedColorWavelengths: `best_wavelengths` is a sequence in the order of `named_colors`, not a dictionary keyed by colour name.
- VisibleSpectrumLocus.SpectrumColors: says how many band colours there are and that each lies in the unit cube, but not which errors `visible_spectrum` can give.
- Spectra.Sort: states an ordered permutation, not that entries of equal key keep their order (they do, as in Python's stable `sorted`, but no ensures states it); MultipleProtan.RowOf sorts rows that hold the start twice.
- ColorBlindStimulus.PopPlaced: states how many candidates remain and which ones (as a multiset), not the order in which they remain, although the next pass reads them in that order.
- ConfusionLines.WalkDown and ConfusionLines.WalkUp: the source's walks carry no bound on their steps, so each takes a `fuel` count and gives `Err(OutOfFuel)` past it; a walk longer than the fuel is not modelled.
- MultipleProtan.CorrectedCopunctal: it assumes that every pair of consecutive rows meets (`AllMeet`); parallel rows are not ruled out by a proof.
- The other generation scripts, and the scripts that import the misspelled `chromaticity_outisde_gamut`, are not part of this model; `conversion_matrix` is not defined by maths/functions.py, so it is not modelled.

## Findings

| source | as written | input that shows it | evidently intended | confidence | as-written member | corrected member |
|---|---|---|---|---|---|---|
| maths/chromaticity_from_spectrum.py:98-113 | standard '170_2_2_deg' loads the 10-degree file lin2012xyz10e | standard '170_2_2_deg' with any valid spectrum: the result equals that of '170_2_10_deg' | load the 2-degree file lin2012xyz2e | high; not executed | ChromaticityFromSpectrum.WrittenTwoDegreeIsTenDegree | ChromaticityFromSpectrum.IntendedTwoDegree |
| maths/saturated_color_paths.py:186 | the trace is sliced with `[0:-2]`, which drops the last two colours, although the comment ('remove last, repeated red coordinate') and the docstring's 'returning just short of red' mean to drop only the repeated red (the docstring's length, resolution + 5 (resolution - 1) = 6 n - 5, is that of the unsliced trace and matches neither slice) | resolution 2: the trace has 5 colours, the last one is not one step from red, and the closing move skips a colour of the hexagon | slice with `[0:-1]`, so the trace ends one step short of red | high; not executed | SaturatedColorPaths.AsWrittenStopsTwoShort | SaturatedColorPaths.TraceReturnsToRed |
| figure/figure.py:586-610 | `left_axis` is checked lower-cased but compared with the table as given | left_axis '-X' with vertical sign 1: the view is that of '+y', (22.5, 45) instead of (22.5, -225) | look `left_axis.lower()` up in the table | high; not executed | Figure.UpperCaseAxisMisread | Figure.OrientationFacts |
| generation/figure_25_multiple_protan.py:89-106 | the walks use the `xyz_to_lms` and `lms_to_xyz` of maths/color_conversion.py, which apply the Smith & Pokorny matrix in the opposite direction to maths/color_blindness.py | the first start colour: its S activation is Z / 0.00801, about 38, so the first `lms_to_xyz` of the downward walk fails its assertion that S <= 1 and no estimate is made (as written the script already stops earlier, at its import of maths/color_conversion.py, which raises ImportError because two CRT matrices it imports are not defined; the finding is about the conversions once that import is repaired) | use the conversions of maths/color_blindness.py, as the confusion-line script does; the estimate is then the protanope copunctal point | medium; not executed | MultipleProtan.AsWrittenNeverEstimates | MultipleProtan.CorrectedCopunctal |
