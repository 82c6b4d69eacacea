/** maths/color_temperature.py: tristimulus values of a spectrum, blackbody
    spectra at the tabulated wavelengths, isotherm end points, the validity
    flag of the correlated colour temperature, and the generator of a series
    of temperatures evenly spaced in chromaticity. The CMF tables, `interp1d`,
    Planck's law and `fmin` are parameters. */
module ColorTemperature {
  import opened Wrappers
  import opened Numerics
  import opened LinearAlgebra
  import opened Spectra
  import ChromaticityConversion
  import ColorConversion
  import CorrelatedColorTemperature
  import TemperatureSeries

  type Standard = ChromaticityConversion.Standard

  /** The CMF table of each standard, `interp1d`, and Planck's law
      `radiant_emitance(wavelength, temperature)`. */
  datatype Library = Library(
    table: Standard -> seq<CmfRow>,
    interp: (seq<real>, seq<real>, real) -> real,
    emitance: (real, real) -> real)

  /** Every table is a valid CMF table, interpolation keeps non-negative data
      non-negative, and a body at a positive temperature emits at every
      positive wavelength. */
  ghost predicate LibraryValid(lib: Library)
  {
    && (forall s :: TableValid(lib.table(s)))
    && InterpNonNegative(lib.interp)
    && (forall w, t :: 0.0 < w && 0.0 < t ==> 0.0 < lib.emitance(w, t))
  }

  // ---------------------------------------------------------------------------
  // Tristimulus from spectrum

  /** Intensities alone (at the table's wavelengths), or wavelength-intensity pairs. */
  datatype Spectrum = IntensityList(values: seq<real>) | PairList(pairs: seq<(real, real)>)

  function Size(s: Spectrum): nat
  {
    match s
    case IntensityList(v) => |v|
    case PairList(p) => |p|
  }

  /** Positive wavelengths, non-negative intensities, no repeated wavelength. */
  predicate PairsValid(p: seq<(real, real)>)
  {
    (forall i :: 0 <= i < |p| ==> 0.0 < p[i].0 && 0.0 <= p[i].1) && DistinctKeys(p, Wavelength)
  }

  /** The clipping guard as written: its second comparison is against the
      first tabulated wavelength, not the last. */
  predicate WrittenGuard(s: seq<(real, real)>, t: seq<CmfRow>)
    requires |s| > 0 && |t| > 0
  {
    s[0].0 < t[0].wavelength || s[|s| - 1].0 > t[0].wavelength
  }

  /** Sorted by wavelength, then restricted to the table's range when the
      guard as written holds. */
  function WrittenSortAndClip(p: seq<(real, real)>, t: seq<CmfRow>): seq<(real, real)>
    requires |p| > 0 && |t| > 0
  {
    var sorted := Sort(p, Wavelength);
    if WrittenGuard(sorted, t) then ClipRange(sorted, t[0].wavelength, t[|t| - 1].wavelength) else sorted
  }

  /** For a valid pair spectrum the guard as written always holds, so the
      filter always runs; running it on a spectrum already inside the range
      changes nothing, so the result is the one the guard against the last
      wavelength gives. */
  lemma WrittenGuardHarmless(p: seq<(real, real)>, t: seq<CmfRow>)
    requires |p| > 1 && |t| > 0 && DistinctKeys(p, Wavelength)
    ensures WrittenGuard(Sort(p, Wavelength), t)
    ensures WrittenSortAndClip(p, t) == SortAndClip(p, t)
  {
    var sorted := Sort(p, Wavelength);
    SortStrict(p, Wavelength);
    assert sorted[0].0 < sorted[|sorted| - 1].0;
    var lo, hi := t[0].wavelength, t[|t| - 1].wavelength;
    if !RangeGuard(sorted, t) {
      forall i | 0 <= i < |sorted| ensures lo <= sorted[i].0 <= hi {
        assert sorted[0].0 <= sorted[i].0 <= sorted[|sorted| - 1].0;
      }
      ClipInside(sorted, lo, hi);
    }
  }

  /** `trapz` with unit spacing of each integrand; a table shorter than the
      spectrum fails on `color_matching_functions[datum_index]`. */
  function Integrate(levels: seq<real>, rows: seq<CmfRow>): (r: Result<Vec3>)
    ensures r.Ok? <==> |levels| <= |rows|
    ensures r.Err? ==> r.error == IndexError
  {
    if |rows| < |levels| then Err(IndexError)
    else
      Ok(Vec3(TrapzUnit(Products(levels, rows, X)), TrapzUnit(Products(levels, rows, Y)),
              TrapzUnit(Products(levels, rows, Z))))
  }

  /** Non-negative intensities against non-negative rows integrate to
      non-negative tristimulus values. */
  lemma IntegrateNonNegative(levels: seq<real>, rows: seq<CmfRow>)
    requires |levels| <= |rows|
    requires forall i :: 0 <= i < |levels| ==> 0.0 <= levels[i] && RowNonNegative(rows[i])
    ensures Integrate(levels, rows).value.NonNegative()
  {
    ProductsNonNegative(levels, rows, X);
    ProductsNonNegative(levels, rows, Y);
    ProductsNonNegative(levels, rows, Z);
    TrapzUnitNonNegative(Products(levels, rows, X));
    TrapzUnitNonNegative(Products(levels, rows, Y));
    TrapzUnitNonNegative(Products(levels, rows, Z));
  }

  /** The pair branch after validation: sort, clip, line up and integrate;
      indexing the empty clipped list fails. */
  function PairsTristimulus(p: seq<(real, real)>, t: seq<CmfRow>, interp: (seq<real>, seq<real>, real) -> real)
    : (r: Result<Vec3>)
    ensures r.Err? ==> r.error == IndexError
  {
    if |p| == 0 || |t| == 0 then Err(IndexError)
    else
      var s := WrittenSortAndClip(p, t);
      if |s| == 0 then Err(IndexError)
      else Integrate(Levels(s), LineUp(t, s, interp))
  }

  /** A valid pair spectrum fails only when none of its wavelengths lies in the
      table's range. */
  lemma PairsTristimulusDefined(p: seq<(real, real)>, t: seq<CmfRow>, interp: (seq<real>, seq<real>, real) -> real)
    requires TableValid(t)
    requires |p| > 1 && PairsValid(p)
    ensures PairsTristimulus(p, t, interp).Ok? <==>
      exists i :: 0 <= i < |p| && t[0].wavelength <= p[i].0 <= t[|t| - 1].wavelength
  {
    WrittenGuardHarmless(p, t);
    SortAndClipFacts(p, t);
    var s := SortAndClip(p, t);
    LineUpLength(t, s, interp);
    assert PairsTristimulus(p, t, interp).Ok? <==> |s| > 0;
    if |s| > 0 {
      assert s[0] in s;
      var k :| 0 <= k < |p| && p[k] == s[0];
      assert t[0].wavelength <= p[k].0 <= t[|t| - 1].wavelength;
    }
    if exists i :: 0 <= i < |p| && t[0].wavelength <= p[i].0 <= t[|t| - 1].wavelength {
      var i :| 0 <= i < |p| && t[0].wavelength <= p[i].0 <= t[|t| - 1].wavelength;
      assert p[i] in p;
      assert p[i] in s;
    }
  }

  /** Its tristimulus values, when defined, are non-negative. */
  lemma PairsTristimulusNonNegative(p: seq<(real, real)>, t: seq<CmfRow>, interp: (seq<real>, seq<real>, real) -> real)
    requires TableValid(t) && InterpNonNegative(interp)
    requires |p| > 1 && PairsValid(p)
    requires PairsTristimulus(p, t, interp).Ok?
    ensures PairsTristimulus(p, t, interp).value.NonNegative()
  {
    WrittenGuardHarmless(p, t);
    SortAndClipFacts(p, t);
    var s := SortAndClip(p, t);
    LineUpAligned(t, s, interp);
    var rows := LineUp(t, s, interp);
    forall k | 0 <= k < |s| ensures 0.0 <= Levels(s)[k] && RowNonNegative(rows[k]) {
      assert s[k] in s;
      var m :| 0 <= m < |p| && p[m] == s[k];
    }
    IntegrateNonNegative(Levels(s), rows);
  }

  /** `tristimulus_from_spectrum`. */
  function TristimulusFromSpectrum(spectrum: Spectrum, standard: Option<string>, lib: Library): (r: Result<Vec3>)
    ensures Size(spectrum) <= 1 ==> r == Err(AssertionError)
    ensures r.Ok? ==> ChromaticityConversion.ParseStandard(standard).Ok?
    ensures spectrum.IntensityList? ==>
      (r.Ok? <==>
        && 1 < |spectrum.values|
        && (forall i :: 0 <= i < |spectrum.values| ==> 0.0 <= spectrum.values[i])
        && ChromaticityConversion.ParseStandard(standard).Ok?
        && |spectrum.values| == |lib.table(ChromaticityConversion.ParseStandard(standard).value)|)
    ensures spectrum.IntensityList? && r.Ok? ==>
      r == Integrate(spectrum.values, lib.table(ChromaticityConversion.ParseStandard(standard).value))
    ensures spectrum.PairList? ==>
      (r.Ok? <==> 1 < |spectrum.pairs| && PairsValid(spectrum.pairs) && ChromaticityConversion.ParseStandard(standard).Ok?
                  && PairsTristimulus(spectrum.pairs, lib.table(ChromaticityConversion.ParseStandard(standard).value), lib.interp).Ok?)
    ensures spectrum.PairList? && r.Ok? ==>
      r == PairsTristimulus(spectrum.pairs, lib.table(ChromaticityConversion.ParseStandard(standard).value), lib.interp)
  {
    if Size(spectrum) <= 1 then Err(AssertionError)
    else
      match spectrum
      case IntensityList(v) =>
        if !(forall i :: 0 <= i < |v| ==> 0.0 <= v[i]) then Err(AssertionError)
        else
          var std :- ChromaticityConversion.ParseStandard(standard);
          var t := lib.table(std);
          if |v| != |t| then Err(AssertionError)
          else Integrate(v, t)
      case PairList(p) =>
        if !PairsValid(p) then Err(AssertionError)
        else
          var std :- ChromaticityConversion.ParseStandard(standard);
          PairsTristimulus(p, lib.table(std), lib.interp)
  }

  /** Tristimulus values are non-negative, so `xyz_to_xyy` accepts them. */
  lemma TristimulusNonNegative(spectrum: Spectrum, standard: Option<string>, lib: Library)
    requires LibraryValid(lib)
    requires TristimulusFromSpectrum(spectrum, standard, lib).Ok?
    ensures TristimulusFromSpectrum(spectrum, standard, lib).value.NonNegative()
  {
    var t := lib.table(ChromaticityConversion.ParseStandard(standard).value);
    assert TableValid(t);
    match spectrum
    case IntensityList(v) =>
      IntegrateNonNegative(v, t);
    case PairList(p) =>
      PairsTristimulusNonNegative(p, t, lib.interp);
  }

  /** Pairs (w, i) from two equally long lists. */
  function Zip(ws: seq<real>, v: seq<real>): (r: seq<(real, real)>)
    requires |ws| == |v|
    ensures Keys(r) == ws && Levels(r) == v
  {
    seq(|v|, (i: int) requires 0 <= i < |v| => (ws[i], v[i]))
  }

  /** An intensity-only spectrum means the intensities at the table's own
      wavelengths: giving those wavelengths explicitly integrates to the same
      tristimulus values. */
  lemma IntensitiesAsPairs(v: seq<real>, t: seq<CmfRow>, interp: (seq<real>, seq<real>, real) -> real)
    requires TableValid(t) && |v| == |t|
    ensures PairsTristimulus(Zip(Wavelengths(t), v), t, interp) == Integrate(v, t)
  {
    var ws := Wavelengths(t);
    var z := Zip(ws, v);
    assert StrictlyOrdered(z, Wavelength) by {
      forall i, j | 0 <= i < j < |z| ensures Wavelength(z[i]) < Wavelength(z[j]) {
        assert z[i].0 == ws[i] && z[j].0 == ws[j];
      }
    }
    forall i | 0 <= i < |z| ensures t[0].wavelength <= z[i].0 <= t[|t| - 1].wavelength {
      assert z[i].0 == ws[i];
      assert ws[0] <= ws[i] <= ws[|ws| - 1];
    }
    SortOfOrdered(z, Wavelength);
    assert ws[0] < ws[|ws| - 1];
    ClipInside(z, t[0].wavelength, t[|t| - 1].wavelength);
    assert WrittenSortAndClip(z, t) == z;
    assert AllTabulated(z, t) by {
      forall i | 0 <= i < |z| ensures z[i].0 in Wavelengths(t) {
        assert z[i].0 == ws[i];
      }
    }
    forall i | 0 <= i < |t| ensures t[i].wavelength in Keys(z) {
      assert Keys(z)[i] == t[i].wavelength;
    }
    ListedRowsAll(t, z);
  }

  /** The table's wavelengths paired with non-negative intensities form a
      valid pair spectrum. */
  lemma ZipValid(v: seq<real>, t: seq<CmfRow>)
    requires TableValid(t) && |v| == |t|
    requires forall i :: 0 <= i < |v| ==> 0.0 <= v[i]
    ensures PairsValid(Zip(Wavelengths(t), v))
  {
    var ws := Wavelengths(t);
    var z := Zip(ws, v);
    forall i | 0 <= i < |z| ensures 0.0 < z[i].0 && 0.0 <= z[i].1 {
      assert z[i].0 == ws[i] && z[i].1 == v[i];
      assert ws[0] <= ws[i];
    }
    assert DistinctKeys(z, Wavelength) by {
      forall i, j | 0 <= i < j < |z| ensures Wavelength(z[i]) != Wavelength(z[j]) {
        assert z[i].0 == ws[i] && z[j].0 == ws[j];
      }
    }
  }

  /** The same for the full function: an accepted intensity-only spectrum and
      the pairs of the chosen table's wavelengths with those intensities give
      the same result. */
  lemma IntensitiesAsPairSpectrum(v: seq<real>, standard: Option<string>, lib: Library)
    requires LibraryValid(lib)
    requires TristimulusFromSpectrum(IntensityList(v), standard, lib).Ok?
    ensures var t := lib.table(ChromaticityConversion.ParseStandard(standard).value);
      TristimulusFromSpectrum(PairList(Zip(Wavelengths(t), v)), standard, lib) ==
      TristimulusFromSpectrum(IntensityList(v), standard, lib)
  {
    var t := lib.table(ChromaticityConversion.ParseStandard(standard).value);
    assert TableValid(t);
    IntensitiesAsPairs(v, t, lib.interp);
    ZipValid(v, t);
  }

  // ---------------------------------------------------------------------------
  // Spectrum from temperature

  function Identity(v: real): real { v }

  /** `spectrum_from_temperature`: requires T > 0; Planck's law at the table's
      wavelengths taken in ascending order (each of which `radiant_emitance`
      requires to be positive). */
  function SpectrumFromTemperature(temperature: real, standard: Option<string>, lib: Library)
    : (r: Result<seq<real>>)
    ensures !(0.0 < temperature) ==> r == Err(AssertionError)
    ensures r.Ok? ==> ChromaticityConversion.ParseStandard(standard).Ok?
    ensures r.Ok? ==> |r.value| == |lib.table(ChromaticityConversion.ParseStandard(standard).value)|
  {
    if !(0.0 < temperature) then Err(AssertionError)
    else
      var std :- ChromaticityConversion.ParseStandard(standard);
      var ws := Sort(Wavelengths(lib.table(std)), Identity);
      if !(forall i :: 0 <= i < |ws| ==> 0.0 < ws[i]) then Err(AssertionError)
      else Ok(seq(|ws|, (i: int) requires 0 <= i < |ws| => lib.emitance(ws[i], temperature)))
  }

  /** A valid table's wavelengths are already ascending and all positive. */
  lemma TabulatedWavelengthsSorted(t: seq<CmfRow>)
    requires TableValid(t)
    ensures Sort(Wavelengths(t), Identity) == Wavelengths(t)
    ensures forall i :: 0 <= i < |t| ==> 0.0 < Wavelengths(t)[i]
  {
    var ws := Wavelengths(t);
    assert StrictlyOrdered(ws, Identity) by {
      forall i, j | 0 <= i < j < |ws| ensures Identity(ws[i]) < Identity(ws[j]) {
      }
    }
    SortOfOrdered(ws, Identity);
    forall i | 0 <= i < |ws| ensures 0.0 < ws[i] {
      assert ws[0] <= ws[i];
    }
  }

  /** Entry i of the spectrum is Planck's law at the i-th tabulated wavelength,
      and it is positive. */
  lemma SpectrumAtTabulatedWavelengths(temperature: real, standard: Option<string>, lib: Library)
    requires LibraryValid(lib) && 0.0 < temperature && ChromaticityConversion.ParseStandard(standard).Ok?
    ensures var t := lib.table(ChromaticityConversion.ParseStandard(standard).value);
      var r := SpectrumFromTemperature(temperature, standard, lib);
      && r.Ok? && |r.value| == |t|
      && (forall i :: 0 <= i < |t| ==> r.value[i] == lib.emitance(t[i].wavelength, temperature))
      && (forall i :: 0 <= i < |t| ==> 0.0 < r.value[i])
  {
    var t := lib.table(ChromaticityConversion.ParseStandard(standard).value);
    assert TableValid(t);
    TabulatedWavelengthsSorted(t);
  }

  // ---------------------------------------------------------------------------
  // Blackbody chromaticity

  /** (x, y) of a blackbody at the given temperature, CIE 1931 2-degree. The
      sRGB white used for black does not involve the CRT matrix. */
  function BlackbodyXy(temperature: real, lib: Library): (r: Result<(real, real)>)
    ensures !(0.0 < temperature) ==> r == Err(AssertionError)
  {
    var spectrum :- SpectrumFromTemperature(temperature, None, lib);
    var xyz :- TristimulusFromSpectrum(IntensityList(spectrum), None, lib);
    var xyy :- ColorConversion.XyzToXyy(xyz, ColorConversion.Srgb, Diagonal(1.0));
    Ok((xyy.a, xyy.b))
  }

  /** Any non-negative tristimulus triple has an sRGB-based chromaticity with
      non-negative coordinates summing to at most 1. */
  lemma XyOfNonNegative(xyz: Vec3)
    requires xyz.NonNegative()
    ensures ColorConversion.XyzToXyy(xyz, ColorConversion.Srgb, Diagonal(1.0)).Ok?
    ensures var c := ColorConversion.XyzToXyy(xyz, ColorConversion.Srgb, Diagonal(1.0)).value;
      0.0 <= c.a && 0.0 <= c.b && c.a + c.b <= 1.0
  {
    if xyz.Sum() > 0.0 {
      ColorConversion.XyyRange(xyz, ColorConversion.Srgb, Diagonal(1.0));
    } else {
      assert xyz == Vec3(0.0, 0.0, 0.0);
      BlackRange();
    }
  }

  /** Black gets the sRGB white's chromaticity, in range like any other. */
  lemma BlackRange()
    ensures ColorConversion.XyzToXyy(Vec3(0.0, 0.0, 0.0), ColorConversion.Srgb, Diagonal(1.0)).Ok?
    ensures var c := ColorConversion.XyzToXyy(Vec3(0.0, 0.0, 0.0), ColorConversion.Srgb, Diagonal(1.0)).value;
      0.0 <= c.a && 0.0 <= c.b && c.a + c.b <= 1.0
  {
    var white := Apply(ColorConversion.RgbToXyzMatrix(ColorConversion.Srgb, Diagonal(1.0)), Vec3(1.0, 1.0, 1.0));
    ColorConversion.BlackIsWhite(ColorConversion.Srgb, Diagonal(1.0));
    assert white.NonNegative() && white.Sum() > 0.0;
    ColorConversion.XyyRange(white, ColorConversion.Srgb, Diagonal(1.0));
  }

  /** With valid tables every positive temperature has a chromaticity, with
      non-negative coordinates summing to at most 1. */
  lemma BlackbodyXyDefined(temperature: real, lib: Library)
    requires LibraryValid(lib) && 0.0 < temperature
    ensures BlackbodyXy(temperature, lib).Ok?
    ensures var c := BlackbodyXy(temperature, lib).value; 0.0 <= c.0 && 0.0 <= c.1 && c.0 + c.1 <= 1.0
  {
    SpectrumAtTabulatedWavelengths(temperature, None, lib);
    var spectrum := SpectrumFromTemperature(temperature, None, lib).value;
    assert TableValid(lib.table(ChromaticityConversion.Cie1931_2));
    TristimulusNonNegative(IntensityList(spectrum), None, lib);
    XyOfNonNegative(TristimulusFromSpectrum(IntensityList(spectrum), None, lib).value);
  }

  /** The blackbody's CIE 1960 (u, v), through `maths/color_conversion.py`'s
      `xy_to_uv`, which needs y > 0. */
  function BlackbodyUv(temperature: real, lib: Library): (r: Result<(real, real)>)
    ensures r.Ok? ==> BlackbodyXy(temperature, lib).Ok? && 0.0 < BlackbodyXy(temperature, lib).value.1
  {
    var xy :- BlackbodyXy(temperature, lib);
    ColorConversion.XyToUv(xy.0, xy.1)
  }

  // ---------------------------------------------------------------------------
  // Isotherm end points

  function AtLeast100(t: real): real { if t < 100.0 then 100.0 else t }

  /** `max([100, T + offset])` for offsets -100, 0 and 100. */
  function Neighbourhood(temperature: real): (r: (real, real, real))
    ensures 100.0 <= r.0 <= r.1 <= r.2
    ensures r.0 == 100.0 || r.0 == temperature - 100.0
    ensures r.1 == 100.0 || r.1 == temperature
    ensures r.2 == 100.0 || r.2 == temperature + 100.0
    ensures 200.0 <= temperature ==> r == (temperature - 100.0, temperature, temperature + 100.0)
    ensures temperature < 100.0 ==> r.0 == 100.0 && r.1 == 100.0
  {
    (AtLeast100(temperature - 100.0), AtLeast100(temperature), AtLeast100(temperature + 100.0))
  }

  /** End points 0.05 either side of `center`, perpendicular to the direction
      from `lower` to `upper`. */
  function EndsAcross(lower: (real, real), center: (real, real), upper: (real, real), atan2: (real, real) -> real,
                      cos: real -> real, sin: real -> real): ((real, real), (real, real))
  {
    CorrelatedColorTemperature.PerpendicularEnds(center, atan2(upper.1 - lower.1, upper.0 - lower.0), cos, sin)
  }

  /** Their midpoint is the centre and the segment between them is
      perpendicular to the chord from `lower` to `upper`. */
  lemma EndsAcrossGeometry(lower: (real, real), center: (real, real), upper: (real, real), atan2: (real, real) -> real,
                           cos: real -> real, sin: real -> real, pow: (real, real) -> real)
    requires QuarterTurnFacts(cos, sin) && CircleFacts(cos, sin) && PolarOfAtan2(atan2, cos, sin, pow)
    ensures var ends := EndsAcross(lower, center, upper, atan2, cos, sin);
      && (ends.0.0 + ends.1.0) / 2.0 == center.0 && (ends.0.1 + ends.1.1) / 2.0 == center.1
      && (ends.1.0 - ends.0.0) * (upper.0 - lower.0) + (ends.1.1 - ends.0.1) * (upper.1 - lower.1) == 0.0
  {
    CorrelatedColorTemperature.PerpendicularToChord(center, upper.0 - lower.0, upper.1 - lower.1, atan2, cos, sin, pow);
  }

  /** `isotherm_endpoints_from_temperature`: requires T > 0; the end points
      across the blackbody (u, v) of the neighbourhood's centre, perpendicular
      to the chord between its lower and upper temperatures. */
  function IsothermEndpoints(temperature: real, lib: Library, atan2: (real, real) -> real,
                             cos: real -> real, sin: real -> real): (r: Result<((real, real), (real, real))>)
    ensures !(0.0 < temperature) ==> r == Err(AssertionError)
    ensures r.Ok? ==> var n := Neighbourhood(temperature);
      && BlackbodyUv(n.0, lib).Ok? && BlackbodyUv(n.1, lib).Ok? && BlackbodyUv(n.2, lib).Ok?
      && r.value == EndsAcross(BlackbodyUv(n.0, lib).value, BlackbodyUv(n.1, lib).value, BlackbodyUv(n.2, lib).value,
                               atan2, cos, sin)
  {
    if !(0.0 < temperature) then Err(AssertionError)
    else
      var n := Neighbourhood(temperature);
      var lower :- BlackbodyUv(n.0, lib);
      var center :- BlackbodyUv(n.1, lib);
      var upper :- BlackbodyUv(n.2, lib);
      Ok(EndsAcross(lower, center, upper, atan2, cos, sin))
  }

  // ---------------------------------------------------------------------------
  // Correlated colour temperature from (u, v)

  /** The nested `distance_to_temperature`: the (u, v) distance to the
      blackbody at `int(temperature)`. */
  function DistanceToTemperature(temperature: real, u: real, v: real, lib: Library, pow: (real, real) -> real)
    : (r: Result<real>)
    ensures Trunc(temperature) <= 0 ==> r == Err(AssertionError)
    ensures r.Ok? <==> BlackbodyUv(Trunc(temperature) as real, lib).Ok?
    ensures r.Ok? ==> var c := BlackbodyUv(Trunc(temperature) as real, lib).value;
      r.value == Hypot(u - c.0, v - c.1, pow)
  {
    var c :- BlackbodyUv(Trunc(temperature) as real, lib);
    Ok(Hypot(u - c.0, v - c.1, pow))
  }

  /** `10 ** 10`, the temperature bound of the validity flag. */
  const TEN_TO_THE_TEN: int := 10000000000

  /** `correlated_color_temperature_from_chromaticity`: after the u, v
      asserts, `fmin` evaluates the nested objective at every probe, so the
      call raises when a probe's blackbody (u, v) does, as it does for every
      probe below 1 K; otherwise the solution's temperature is truncated to an
      int. */
  function CctFromChromaticity(u: real, v: real, search: CorrelatedColorTemperature.Search, lib: Library,
                               pow: (real, real) -> real)
    : (r: Result<CorrelatedColorTemperature.Estimate>)
    ensures r.Ok? <==> (0.0 <= u <= 1.0 && 0.0 <= v <= 1.0 &&
                        forall i :: 0 <= i < |search.probes| ==> BlackbodyUv(Trunc(search.probes[i]) as real, lib).Ok?)
    ensures r.Ok? ==> forall i :: 0 <= i < |search.probes| ==> 1 <= Trunc(search.probes[i])
    ensures !(0.0 <= u <= 1.0 && 0.0 <= v <= 1.0) ==> r == Err(AssertionError)
    ensures r.Err? && 0.0 <= u <= 1.0 && 0.0 <= v <= 1.0 ==>
      exists k :: 0 <= k < |search.probes| && DistanceToTemperature(search.probes[k], u, v, lib, pow) == Err(r.error) &&
        forall i :: 0 <= i < k ==> DistanceToTemperature(search.probes[i], u, v, lib, pow).Ok?
    ensures r.Ok? ==> r.value.temperature == Trunc(search.solution.0) && r.value.distance == search.solution.1
  {
    if !(0.0 <= u <= 1.0 && 0.0 <= v <= 1.0) then Err(AssertionError)
    else
      var _ :- MapAll(search.probes, t => DistanceToTemperature(t, u, v, lib, pow));
      var temperature := Trunc(search.solution.0);
      Ok(CorrelatedColorTemperature.Estimate(temperature, search.solution.1,
                                             search.solution.1 <= 0.05 && temperature < TEN_TO_THE_TEN))
  }

  /** A search whose first failing probe is below 1 K, such as one from
      6000 K that steps on to -600 K, raises the assertion of
      `spectrum_from_temperature`, though u and v are in range. */
  lemma ProbeBelowOneKelvinRaises(u: real, v: real, search: CorrelatedColorTemperature.Search, k: nat,
                                  lib: Library, pow: (real, real) -> real)
    requires 0.0 <= u <= 1.0 && 0.0 <= v <= 1.0
    requires k < |search.probes| && Trunc(search.probes[k]) <= 0
    requires forall i :: 0 <= i < k ==> BlackbodyUv(Trunc(search.probes[i]) as real, lib).Ok?
    ensures CctFromChromaticity(u, v, search, lib, pow) == Err(AssertionError)
  {
    var r := CctFromChromaticity(u, v, search, lib, pow);
    assert r.Err?;
    var j :| 0 <= j < |search.probes| && DistanceToTemperature(search.probes[j], u, v, lib, pow) == Err(r.error) &&
      forall i :: 0 <= i < j ==> DistanceToTemperature(search.probes[i], u, v, lib, pow).Ok?;
    assert j == k;
  }

  /** The flag: valid exactly when the distance is at most 0.05 and the
      temperature below 10^10. When `fmin`'s distance is the distance at its
      temperature, a valid estimate has a blackbody (u, v) at that temperature,
      and an exact match below 10^10 K is valid. */
  lemma CctFlag(u: real, v: real, search: CorrelatedColorTemperature.Search, lib: Library, pow: (real, real) -> real)
    requires RootFacts(pow)
    requires CctFromChromaticity(u, v, search, lib, pow).Ok?
    ensures var e := CctFromChromaticity(u, v, search, lib, pow).value;
      e.valid <==> e.distance <= 0.05 && e.temperature < 10000000000
    ensures var e := CctFromChromaticity(u, v, search, lib, pow).value;
      DistanceToTemperature(search.solution.0, u, v, lib, pow) == Ok(search.solution.1) ==>
        && (e.valid ==> 1 <= e.temperature && BlackbodyUv(e.temperature as real, lib).Ok?)
        && (BlackbodyUv(e.temperature as real, lib).value == (u, v) && e.temperature < 10000000000 ==> e.valid)
  {
    var solution := search.solution;
    var d := DistanceToTemperature(solution.0, u, v, lib, pow);
    if d == Ok(solution.1) {
      var c := BlackbodyUv(Trunc(solution.0) as real, lib).value;
      HypotFacts(u - c.0, v - c.1, pow);
    }
  }

  // ---------------------------------------------------------------------------
  // Temperature series

  /** The arguments with their defaults 100 K, 10^10 K and 0.0025: both
      temperatures positive, the maximum above the minimum, the step in (0, 0.5). */
  function SeriesArguments(minimum: Option<real>, maximum: Option<real>, step: Option<real>)
    : (r: Result<(real, real, real)>)
    ensures var lo := if minimum.Some? then minimum.value else 100.0;
      var hi := if maximum.Some? then maximum.value else 10000000000.0;
      var delta := if step.Some? then step.value else 0.0025;
      && (r.Ok? <==> 0.0 < lo && 0.0 < hi && lo < hi && 0.0 < delta < 0.5)
      && (r.Ok? ==> r.value == (lo, hi, delta))
      && (r.Err? ==> r.error == AssertionError)
  {
    var lo := if minimum.Some? then minimum.value else 100.0;
    var hi := if maximum.Some? then maximum.value else 10000000000.0;
    var delta := if step.Some? then step.value else 0.0025;
    if 0.0 < lo && 0.0 < hi && lo < hi && 0.0 < delta < 0.5 then Ok((lo, hi, delta)) else Err(AssertionError)
  }

  /** A minimum in (0, 1) passes the argument checks, but the series then
      starts at `int(minimum)` = 0 K, where `spectrum_from_temperature`
      asserts. */
  lemma SubKelvinMinimumStartsAtZero(minimum: real)
    requires 0.0 < minimum < 1.0
    ensures SeriesArguments(Some(minimum), None, None).Ok?
    ensures Trunc(SeriesArguments(Some(minimum), None, None).value.0) == 0
    ensures forall lib :: BlackbodyXy(0.0, lib) == Err(AssertionError)
  {
  }

  /** The defaults are 100 K, 10^10 K and 0.0025. */
  lemma SeriesDefaults()
    ensures SeriesArguments(None, None, None) == Ok((100.0, 10000000000.0, 0.0025))
  {
  }

  /** The chromaticity the series is built from: the blackbody's (x, y). */
  function Chromaticity(lib: Library): real -> Result<(real, real)>
  {
    (t: real) => BlackbodyXy(t, lib)
  }

  /** `generate_temperature_series`: validation, then the series of blackbody
      chromaticities. */
  method GenerateTemperatureSeries(minimum: Option<real>, maximum: Option<real>, step: Option<real>,
                                   lib: Library, pow: (real, real) -> real)
    returns (r: Result<(seq<int>, seq<(real, real)>)>)
    ensures SeriesArguments(minimum, maximum, step).Err? ==> r == Err(AssertionError)
    ensures r.Ok? ==> SeriesArguments(minimum, maximum, step).Ok?
    ensures r.Ok? ==> var (lo, hi, delta) := SeriesArguments(minimum, maximum, step).value;
      TemperatureSeries.IsSeries(r.value.0, r.value.1, lo, hi, delta, Chromaticity(lib), pow)
    ensures (LibraryValid(lib) && SeriesArguments(minimum, maximum, step).Ok? &&
             1 <= Trunc(SeriesArguments(minimum, maximum, step).value.0)) ==> r.Ok?
    ensures SeriesArguments(minimum, maximum, step).Ok? && Trunc(SeriesArguments(minimum, maximum, step).value.0) <= 0
            ==> r == Err(AssertionError)
  {
    var args := SeriesArguments(minimum, maximum, step);
    if args.Err? {
      return Err(args.error);
    }
    if LibraryValid(lib) {
      forall t | 0.0 < t ensures Chromaticity(lib)(t).Ok? {
        BlackbodyXyDefined(t, lib);
      }
    }
    r := TemperatureSeries.BuildSeries(args.value.0, args.value.1, args.value.2, Chromaticity(lib), pow);
  }

}
