/** maths/chromaticity_from_spectrum.py: tristimulus values and (x, y) of a
    spectrum of (wavelength or wave-number, intensity) pairs against one of
    four CMF tables. The tables the module loads from its CSV files and
    `interp1d` are parameters. */
module ChromaticityFromSpectrum {
  import opened Wrappers
  import opened Numerics
  import opened LinearAlgebra
  import opened Spectra

  /** The CMF files the module reads. */
  datatype CmfFile = Ciexyz31 | Ciexyz64 | Lin2012xyz2e | Lin2012xyz10e

  /** The observer's field of view. */
  datatype Field = TwoDegree | TenDegree

  /** The field of view each file tabulates. */
  function FileField(f: CmfFile): Field
  {
    match f
    case Ciexyz31 => TwoDegree
    case Ciexyz64 => TenDegree
    case Lin2012xyz2e => TwoDegree
    case Lin2012xyz10e => TenDegree
  }

  /** The four keys of `color_matching_functions`. */
  datatype Standard = Cie1931 | Cie1964 | Cie170Ten | Cie170Two

  /** The field of view each key names. */
  function StandardField(s: Standard): Field
  {
    match s
    case Cie1931 => TwoDegree
    case Cie1964 => TenDegree
    case Cie170Ten => TenDegree
    case Cie170Two => TwoDegree
  }

  function StandardName(s: Standard): string
  {
    match s
    case Cie1931 => "1931"
    case Cie1964 => "1964"
    case Cie170Ten => "170_2_10_deg"
    case Cie170Two => "170_2_2_deg"
  }

  /** The `standard` argument: "1931" by default, otherwise one of the four
      key names. */
  function ParseStandard(standard: Option<string>): (r: Result<Standard>)
    ensures standard.None? ==> r == Ok(Cie1931)
    ensures standard.Some? ==> (r.Ok? <==> standard.value in {"1931", "1964", "170_2_10_deg", "170_2_2_deg"})
    ensures standard.Some? && r.Ok? ==> StandardName(r.value) == standard.value
    ensures r.Err? ==> r.error == AssertionError
  {
    match standard
    case None => Ok(Cie1931)
    case Some(name) =>
      if name == "1931" then Ok(Cie1931)
      else if name == "1964" then Ok(Cie1964)
      else if name == "170_2_10_deg" then Ok(Cie170Ten)
      else if name == "170_2_2_deg" then Ok(Cie170Two)
      else Err(AssertionError)
  }

  /** Every key name parses back to its key. */
  lemma ParseStandardName(s: Standard)
    ensures ParseStandard(Some(StandardName(s))) == Ok(s)
  {
  }

  /** The unit of the first element of each pair. */
  datatype Unit = WavelengthUnit | WaveNumberUnit

  /** The `color_unit` argument: "wavelength" by default, or "wave-number". */
  function ParseUnit(colorUnit: Option<string>): (r: Result<Unit>)
    ensures r.Ok? <==> colorUnit.None? || colorUnit.value == "wavelength" || colorUnit.value == "wave-number"
    ensures r.Ok? ==> (r.value == WaveNumberUnit <==> colorUnit == Some("wave-number"))
    ensures r.Err? ==> r.error == AssertionError
  {
    match colorUnit
    case None => Ok(WavelengthUnit)
    case Some(name) =>
      if name == "wavelength" then Ok(WavelengthUnit)
      else if name == "wave-number" then Ok(WaveNumberUnit)
      else Err(AssertionError)
  }

  /** The file loaded under each key, as written: the 2-degree CIE 170-2 key
      loads the 10-degree file. */
  function WrittenFile(s: Standard): CmfFile
  {
    match s
    case Cie1931 => Ciexyz31
    case Cie1964 => Ciexyz64
    case Cie170Ten => Lin2012xyz10e
    case Cie170Two => Lin2012xyz10e
  }

  /** The file each key evidently means: the 2-degree CIE 170-2 key loads the
      2-degree file. */
  function IntendedFile(s: Standard): CmfFile
  {
    match s
    case Cie1931 => Ciexyz31
    case Cie1964 => Ciexyz64
    case Cie170Ten => Lin2012xyz10e
    case Cie170Two => Lin2012xyz2e
  }

  /** As written, the 2-degree key gets a table of the wrong field of view,
      the same one as the 10-degree key. */
  lemma WrittenFileWrongField()
    ensures FileField(WrittenFile(Cie170Two)) != StandardField(Cie170Two)
    ensures WrittenFile(Cie170Two) == WrittenFile(Cie170Ten)
  {
  }

  /** The intended files match their keys' field of view, and no two keys
      share a file. */
  lemma IntendedFileField(s: Standard, s': Standard)
    ensures FileField(IntendedFile(s)) == StandardField(s)
    ensures IntendedFile(s) == IntendedFile(s') ==> s == s'
  {
  }

  /** The table read from each file, and `interp1d`. */
  datatype Library = Library(table: CmfFile -> seq<CmfRow>, interp: (seq<real>, seq<real>, real) -> real)

  ghost predicate LibraryValid(lib: Library)
  {
    (forall f :: TableValid(lib.table(f))) && InterpNonNegative(lib.interp)
  }

  /** The argument checks: a non-empty list of pairs, every value
      non-negative, no first element repeated. */
  predicate SpectrumValid(p: seq<(real, real)>)
  {
    && |p| > 0
    && (forall i :: 0 <= i < |p| ==> 0.0 <= p[i].0 && 0.0 <= p[i].1)
    && DistinctKeys(p, Wavelength)
  }

  const WAVE_NUMBER_SCALE: real := 10000000.0

  /** Wave-numbers (per cm) to wavelengths (nm), 10^7 / n; a zero wave-number
      divides by zero. */
  function ToWavelengths(p: seq<(real, real)>): (r: Result<seq<(real, real)>>)
    ensures r.Ok? <==> forall i :: 0 <= i < |p| ==> p[i].0 != 0.0
    ensures r.Err? ==> r.error == ZeroDivision
    ensures r.Ok? ==> |r.value| == |p|
    ensures r.Ok? ==> forall i :: 0 <= i < |p| ==> r.value[i].0 * p[i].0 == WAVE_NUMBER_SCALE && r.value[i].1 == p[i].1
  {
    if exists i :: 0 <= i < |p| && p[i].0 == 0.0 then Err(ZeroDivision)
    else Ok(seq(|p|, (i: int) requires 0 <= i < |p| => (WAVE_NUMBER_SCALE / p[i].0, p[i].1)))
  }

  /** Positive distinct wave-numbers give positive distinct wavelengths. */
  lemma ToWavelengthsValid(p: seq<(real, real)>)
    requires SpectrumValid(p) && forall i :: 0 <= i < |p| ==> p[i].0 != 0.0
    ensures SpectrumValid(ToWavelengths(p).value)
    ensures forall i :: 0 <= i < |p| ==> 0.0 < ToWavelengths(p).value[i].0
  {
    var w := ToWavelengths(p).value;
    forall i | 0 <= i < |p| ensures 0.0 < w[i].0 {
      assert 0.0 < p[i].0;
      DivBounds(WAVE_NUMBER_SCALE, p[i].0);
    }
    forall i, j | 0 <= i < j < |w| ensures Wavelength(w[i]) != Wavelength(w[j]) {
      assert Wavelength(p[i]) != Wavelength(p[j]);
    }
  }

  /** Converting twice gives the wave-numbers back. */
  lemma ToWavelengthsTwice(p: seq<(real, real)>)
    requires forall i :: 0 <= i < |p| ==> 0.0 < p[i].0
    ensures ToWavelengths(p).Ok? && ToWavelengths(ToWavelengths(p).value).Ok?
    ensures ToWavelengths(ToWavelengths(p).value).value == p
  {
    var w := ToWavelengths(p).value;
    forall i | 0 <= i < |p| ensures 0.0 < w[i].0 {
      DivBounds(WAVE_NUMBER_SCALE, p[i].0);
    }
    var back := ToWavelengths(w).value;
    forall i | 0 <= i < |p| ensures back[i] == p[i] {
      assert back[i].0 * w[i].0 == WAVE_NUMBER_SCALE == w[i].0 * p[i].0;
      assert back[i].0 == p[i].0;
    }
  }

  /** `trapz(..., x = wavelengths)` of intensity times each CMF column; a line-up
      shorter than the spectrum fails on `use_cmf[pair_index]`. */
  function IntegrateOver(s: seq<(real, real)>, rows: seq<CmfRow>): (r: Result<Vec3>)
    ensures r.Ok? <==> |s| <= |rows|
    ensures r.Err? ==> r.error == IndexError
  {
    if |rows| < |s| then Err(IndexError)
    else
      Ok(Vec3(Trapz(Products(Levels(s), rows, X), Keys(s)), Trapz(Products(Levels(s), rows, Y), Keys(s)),
              Trapz(Products(Levels(s), rows, Z), Keys(s))))
  }

  /** The trapezoid rule over the actual wavelengths: for samples h nm apart it
      is h times the unit-spacing rule of `maths/color_temperature.py`. */
  lemma IntegrateOverUniform(s: seq<(real, real)>, rows: seq<CmfRow>, h: real)
    requires |s| <= |rows|
    requires forall i :: 0 <= i < |s| - 1 ==> s[i + 1].0 - s[i].0 == h
    ensures IntegrateOver(s, rows).value.a == h * TrapzUnit(Products(Levels(s), rows, X))
    ensures IntegrateOver(s, rows).value.b == h * TrapzUnit(Products(Levels(s), rows, Y))
    ensures IntegrateOver(s, rows).value.c == h * TrapzUnit(Products(Levels(s), rows, Z))
  {
    ColumnUniform(s, rows, h, X);
    ColumnUniform(s, rows, h, Y);
    ColumnUniform(s, rows, h, Z);
  }

  lemma ColumnUniform(s: seq<(real, real)>, rows: seq<CmfRow>, h: real, c: Component)
    requires |s| <= |rows|
    requires forall i :: 0 <= i < |s| - 1 ==> s[i + 1].0 - s[i].0 == h
    ensures Trapz(Products(Levels(s), rows, c), Keys(s)) == h * TrapzUnit(Products(Levels(s), rows, c))
  {
    var k := Keys(s);
    assert forall i :: 0 <= i < |k| - 1 ==> k[i + 1] - k[i] == h by {
      forall i | 0 <= i < |k| - 1 ensures k[i + 1] - k[i] == h {
        assert k[i + 1] == s[i + 1].0 && k[i] == s[i].0;
      }
    }
    TrapzUniformSpacing(Products(Levels(s), rows, c), k, h);
  }

  /** Ascending non-negative samples against non-negative rows integrate to
      non-negative values. */
  lemma IntegrateOverNonNegative(s: seq<(real, real)>, rows: seq<CmfRow>)
    requires |s| <= |rows|
    requires StrictlyOrdered(s, Wavelength)
    requires forall i :: 0 <= i < |s| ==> 0.0 <= s[i].1 && RowNonNegative(rows[i])
    ensures IntegrateOver(s, rows).value.NonNegative()
  {
    var k := Keys(s);
    assert forall i :: 0 <= i < |k| - 1 ==> k[i] <= k[i + 1] by {
      forall i | 0 <= i < |k| - 1 ensures k[i] <= k[i + 1] {
        assert Wavelength(s[i]) < Wavelength(s[i + 1]);
      }
    }
    ProductsNonNegative(Levels(s), rows, X);
    ProductsNonNegative(Levels(s), rows, Y);
    ProductsNonNegative(Levels(s), rows, Z);
    TrapzNonNegative(Products(Levels(s), rows, X), k);
    TrapzNonNegative(Products(Levels(s), rows, Y), k);
    TrapzNonNegative(Products(Levels(s), rows, Z), k);
  }

  /** (X/(X+Y+Z), Y/(X+Y+Z)); numpy gives NaN for a zero total, here None. */
  function Normalize(xyz: Vec3): (r: Option<(real, real)>)
    ensures r.Some? <==> xyz.Sum() != 0.0
    ensures r.Some? ==> r.value.0 * xyz.Sum() == xyz.a && r.value.1 * xyz.Sum() == xyz.b
  {
    var total := xyz.Sum();
    if total == 0.0 then None else Some((xyz.a / total, xyz.b / total))
  }

  /** Non-negative tristimulus values with a positive total have chromaticity
      coordinates in the triangle x, y >= 0, x + y <= 1. */
  lemma NormalizeRange(xyz: Vec3)
    requires xyz.NonNegative() && xyz.Sum() != 0.0
    ensures 0.0 <= Normalize(xyz).value.0 && 0.0 <= Normalize(xyz).value.1
    ensures Normalize(xyz).value.0 + Normalize(xyz).value.1 <= 1.0
  {
    var s := xyz.Sum();
    DivSum(xyz.a, xyz.b, s);
    DivBounds(xyz.a, s);
    DivBounds(xyz.b, s);
    DivBounds(xyz.a + xyz.b, s);
  }

  /** ((X, Y, Z), (x, y)). */
  datatype Output = Output(tristimulus: Vec3, chromaticity: Option<(real, real)>)

  /** The spectrum in wavelengths: converted from wave-numbers when needed. */
  function InWavelengths(p: seq<(real, real)>, unit: Unit): (r: Result<seq<(real, real)>>)
    ensures unit == WavelengthUnit ==> r == Ok(p)
  {
    if unit == WaveNumberUnit then ToWavelengths(p) else Ok(p)
  }

  /** Sort and clip, line-up, integration and normalisation of a spectrum in
      wavelengths against table t. Indexing an empty table or an empty clipped
      spectrum fails. */
  function FromWavelengths(w: seq<(real, real)>, t: seq<CmfRow>, interp: (seq<real>, seq<real>, real) -> real)
    : (r: Result<Output>)
    ensures r.Ok? ==> r.value.chromaticity == Normalize(r.value.tristimulus)
  {
    if |w| == 0 || |t| == 0 then Err(IndexError)
    else
      var s := SortAndClip(w, t);
      if |s| == 0 then Err(IndexError)
      else
        var xyz :- IntegrateOver(s, LineUp(t, s, interp));
        Ok(Output(xyz, Normalize(xyz)))
  }

  /** Against a valid table, a valid spectrum in wavelengths fails only when
      none of its pairs lies inside the table's range. */
  lemma FromWavelengthsDefined(w: seq<(real, real)>, t: seq<CmfRow>, interp: (seq<real>, seq<real>, real) -> real)
    requires SpectrumValid(w) && TableValid(t)
    ensures FromWavelengths(w, t, interp).Ok? <==>
      exists i :: 0 <= i < |w| && t[0].wavelength <= w[i].0 <= t[|t| - 1].wavelength
    ensures FromWavelengths(w, t, interp).Err? ==> FromWavelengths(w, t, interp).error == IndexError
  {
    SortAndClipFacts(w, t);
    var s := SortAndClip(w, t);
    LineUpLength(t, s, interp);
    if |s| > 0 {
      assert s[0] in s;
      var k :| 0 <= k < |w| && w[k] == s[0];
      assert t[0].wavelength <= w[k].0 <= t[|t| - 1].wavelength;
    }
    if exists i :: 0 <= i < |w| && t[0].wavelength <= w[i].0 <= t[|t| - 1].wavelength {
      var i :| 0 <= i < |w| && t[0].wavelength <= w[i].0 <= t[|t| - 1].wavelength;
      assert w[i] in w;
      assert w[i] in SortAndClip(w, t);
    }
  }

  /** Its tristimulus values, when defined, are non-negative. */
  lemma FromWavelengthsNonNegative(w: seq<(real, real)>, t: seq<CmfRow>, interp: (seq<real>, seq<real>, real) -> real)
    requires SpectrumValid(w) && TableValid(t) && InterpNonNegative(interp)
    requires FromWavelengths(w, t, interp).Ok?
    ensures FromWavelengths(w, t, interp).value.tristimulus.NonNegative()
  {
    SortAndClipFacts(w, t);
    var s := SortAndClip(w, t);
    LineUpAligned(t, s, interp);
    var rows := LineUp(t, s, interp);
    forall i | 0 <= i < |s| ensures 0.0 <= s[i].1 && RowNonNegative(rows[i]) {
      assert s[i] in s;
      var m :| 0 <= m < |w| && w[m] == s[i];
    }
    IntegrateOverNonNegative(s, rows);
  }

  /** Everything after argument validation, against table t. */
  function FromTable(p: seq<(real, real)>, unit: Unit, t: seq<CmfRow>, interp: (seq<real>, seq<real>, real) -> real)
    : (r: Result<Output>)
    ensures r.Ok? ==> r.value.chromaticity == Normalize(r.value.tristimulus)
  {
    var w :- InWavelengths(p, unit);
    FromWavelengths(w, t, interp)
  }

  /** Against a valid table, a valid spectrum fails on a zero wave-number
      (division by zero) or when none of its pairs lies inside the table's
      range (index error); otherwise its tristimulus values are non-negative. */
  lemma FromTableFacts(p: seq<(real, real)>, unit: Unit, t: seq<CmfRow>, interp: (seq<real>, seq<real>, real) -> real)
    requires SpectrumValid(p) && TableValid(t) && InterpNonNegative(interp)
    ensures FromTable(p, unit, t, interp).Err? && FromTable(p, unit, t, interp).error == ZeroDivision <==>
      InWavelengths(p, unit).Err?
    ensures FromTable(p, unit, t, interp).Ok? <==>
      InWavelengths(p, unit).Ok? &&
      exists i :: 0 <= i < |p| && t[0].wavelength <= InWavelengths(p, unit).value[i].0 <= t[|t| - 1].wavelength
    ensures FromTable(p, unit, t, interp).Ok? ==> FromTable(p, unit, t, interp).value.tristimulus.NonNegative()
  {
    var c := InWavelengths(p, unit);
    if c.Ok? {
      if unit == WaveNumberUnit {
        ToWavelengthsValid(p);
      }
      FromWavelengthsDefined(c.value, t, interp);
      if FromWavelengths(c.value, t, interp).Ok? {
        FromWavelengthsNonNegative(c.value, t, interp);
      }
    }
  }

  /** `chromaticity_from_spectrum`, with the file each key evidently means. */
  function ChromaticityFromSpectrum(spectrum: seq<(real, real)>, colorUnit: Option<string>, standard: Option<string>,
                                    lib: Library): (r: Result<Output>)
    ensures !SpectrumValid(spectrum) || ParseUnit(colorUnit).Err? || ParseStandard(standard).Err? ==>
      r == Err(AssertionError)
    ensures r.Ok? ==> r.value.chromaticity == Normalize(r.value.tristimulus)
  {
    if !SpectrumValid(spectrum) then Err(AssertionError)
    else
      var unit :- ParseUnit(colorUnit);
      var std :- ParseStandard(standard);
      FromTable(spectrum, unit, lib.table(IntendedFile(std)), lib.interp)
  }

  /** `chromaticity_from_spectrum` as written: keys are looked up through
      `WrittenFile`. */
  function WrittenChromaticityFromSpectrum(spectrum: seq<(real, real)>, colorUnit: Option<string>,
                                           standard: Option<string>, lib: Library): (r: Result<Output>)
    ensures !SpectrumValid(spectrum) || ParseUnit(colorUnit).Err? || ParseStandard(standard).Err? ==>
      r == Err(AssertionError)
    ensures r.Ok? ==> r.value.chromaticity == Normalize(r.value.tristimulus)
  {
    if !SpectrumValid(spectrum) then Err(AssertionError)
    else
      var unit :- ParseUnit(colorUnit);
      var std :- ParseStandard(standard);
      FromTable(spectrum, unit, lib.table(WrittenFile(std)), lib.interp)
  }

  /** As written, the 2-degree and 10-degree CIE 170-2 keys give identical
      results for every spectrum and unit, whatever the files hold. */
  lemma WrittenTwoDegreeIsTenDegree(spectrum: seq<(real, real)>, colorUnit: Option<string>, lib: Library)
    ensures WrittenChromaticityFromSpectrum(spectrum, colorUnit, Some("170_2_2_deg"), lib) ==
            WrittenChromaticityFromSpectrum(spectrum, colorUnit, Some("170_2_10_deg"), lib)
  {
    assert ParseStandard(Some("170_2_2_deg")) == Ok(Cie170Two);
    assert ParseStandard(Some("170_2_10_deg")) == Ok(Cie170Ten);
  }

  /** With the intended files every key reads the table of its own field of
      view; the other keys behave as written. */
  lemma IntendedAgreesElsewhere(spectrum: seq<(real, real)>, colorUnit: Option<string>, standard: Option<string>,
                                lib: Library)
    requires ParseStandard(standard) != Ok(Cie170Two)
    ensures ChromaticityFromSpectrum(spectrum, colorUnit, standard, lib) ==
            WrittenChromaticityFromSpectrum(spectrum, colorUnit, standard, lib)
  {
  }

  /** The 2-degree key now integrates against the 2-degree file. */
  lemma IntendedTwoDegree(spectrum: seq<(real, real)>, colorUnit: Option<string>, lib: Library)
    requires SpectrumValid(spectrum) && ParseUnit(colorUnit).Ok?
    ensures ChromaticityFromSpectrum(spectrum, colorUnit, Some("170_2_2_deg"), lib) ==
            FromTable(spectrum, ParseUnit(colorUnit).value, lib.table(Lin2012xyz2e), lib.interp)
  {
    var std := ParseStandard(Some("170_2_2_deg"));
    assert std == Ok(Cie170Two);
    assert IntendedFile(std.value) == Lin2012xyz2e;
  }

  /** With valid tables: an accepted call returns non-negative tristimulus
      values and, when their total is positive, a chromaticity in the
      triangle x, y >= 0, x + y <= 1 that reproduces X and Y. */
  lemma ChromaticityRange(spectrum: seq<(real, real)>, colorUnit: Option<string>, standard: Option<string>,
                          lib: Library)
    requires LibraryValid(lib)
    requires ChromaticityFromSpectrum(spectrum, colorUnit, standard, lib).Ok?
    ensures var out := ChromaticityFromSpectrum(spectrum, colorUnit, standard, lib).value;
      && out.tristimulus.NonNegative()
      && (out.chromaticity.Some? <==> out.tristimulus.Sum() > 0.0)
      && (out.chromaticity.Some? ==>
            && 0.0 <= out.chromaticity.value.0 && 0.0 <= out.chromaticity.value.1
            && out.chromaticity.value.0 + out.chromaticity.value.1 <= 1.0)
  {
    var unit := ParseUnit(colorUnit).value;
    var t := lib.table(IntendedFile(ParseStandard(standard).value));
    assert TableValid(t);
    FromTableFacts(spectrum, unit, t, lib.interp);
    var out := ChromaticityFromSpectrum(spectrum, colorUnit, standard, lib).value;
    if out.tristimulus.Sum() != 0.0 {
      NormalizeRange(out.tristimulus);
    }
  }

  /** With valid tables, an accepted spectrum is rejected only for a zero
      wave-number (division by zero) or when no pair lies inside the chosen
      table's range (indexing the empty clipped list). */
  lemma ChromaticityDefined(spectrum: seq<(real, real)>, colorUnit: Option<string>, standard: Option<string>,
                            lib: Library)
    requires LibraryValid(lib)
    requires SpectrumValid(spectrum) && ParseUnit(colorUnit).Ok? && ParseStandard(standard).Ok?
    ensures var r := ChromaticityFromSpectrum(spectrum, colorUnit, standard, lib);
      var unit := ParseUnit(colorUnit).value;
      var t := lib.table(IntendedFile(ParseStandard(standard).value));
      && (r.Err? && r.error == ZeroDivision <==>
            unit == WaveNumberUnit && exists i :: 0 <= i < |spectrum| && spectrum[i].0 == 0.0)
      && (r.Ok? <==>
            InWavelengths(spectrum, unit).Ok? &&
            exists i :: 0 <= i < |spectrum| &&
              t[0].wavelength <= InWavelengths(spectrum, unit).value[i].0 <= t[|t| - 1].wavelength)
  {
    var unit := ParseUnit(colorUnit).value;
    var t := lib.table(IntendedFile(ParseStandard(standard).value));
    assert TableValid(t);
    FromTableFacts(spectrum, unit, t, lib.interp);
  }
}
