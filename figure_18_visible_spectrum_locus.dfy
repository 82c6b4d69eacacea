/** generation/figure_18_visible_spectrum_locus.py: the wavelength ticks of the
    spectrum-locus figure and, for each named colour, the wavelength of the
    visible-spectrum band whose colour is closest to it.
    The tabulated first and last wavelengths of the CIE 1931 2-degree locus
    are read from a data file, so they are parameters here. */
module VisibleSpectrumLocus {
  import opened Wrappers
  import opened LinearAlgebra
  import opened Numerics
  import Coloration
  import CC = ChromaticityConversion

  // ---------------------------------------------------------------------------
  // Ticks and the scanned wavelengths

  /** WAVELENGTH_TICKS (lines 73-87): the locus's first wavelength, 400, 450,
      475 to 600 in fives, 610, 625, 650 and the locus's last wavelength, each
      passed through `int`. */
  function WavelengthTicks(first: real, last: real): (r: seq<real>)
    ensures |r| == 33
    ensures r[0] == Trunc(first) as real && r[32] == Trunc(last) as real
    ensures r[1] == 400.0 && r[31] == 650.0
  {
    [Trunc(first) as real, 400.0, 450.0] + seq(26, (i: int) => 475.0 + 5.0 * (i as real))
    + [610.0, 625.0, 650.0, Trunc(last) as real]
  }

  /** The ticks between the two locus ends ascend strictly from 400 to 650. */
  lemma InnerTicksAscend(first: real, last: real)
    ensures StrictlyIncreasing(WavelengthTicks(first, last)[1..32])
  {
    var t := WavelengthTicks(first, last)[1..32];
    forall i, j | 0 <= i < j < |t| ensures t[i] < t[j] {
      if 2 <= i && j < 28 {
        assert t[i] == 475.0 + 5.0 * ((i - 2) as real);
        assert t[j] == 475.0 + 5.0 * ((j - 2) as real);
      }
    }
  }

  /** Every tick is a whole number. */
  predicate Integral(s: seq<real>)
  {
    forall i :: 0 <= i < |s| ==> s[i] == (s[i].Floor) as real
  }

  /** numpy `ptp`: the largest entry less the smallest. */
  function Ptp(s: seq<real>): (r: real)
    requires |s| > 0
    ensures r >= 0.0
    ensures forall i, j :: 0 <= i < |s| && 0 <= j < |s| ==> s[i] - s[j] <= r
  {
    SeqMax(s) - SeqMin(s)
  }

  /** The spread of the ticks, `int(ptp(WAVELENGTH_TICKS))`, is at least 250
      (650 - 400), is exact because the ticks are whole, and is at least the
      distance from the first tick to the last. */
  lemma TicksSpan(first: real, last: real)
    ensures var t := WavelengthTicks(first, last);
      && Trunc(Ptp(t)) as real == Ptp(t)
      && Ptp(t) >= 250.0
      && t[32] - t[0] <= Ptp(t)
  {
    var t := WavelengthTicks(first, last);
    assert Integral(t) by {
      forall i | 0 <= i < |t| ensures t[i] == (t[i].Floor) as real {
        if 3 <= i < 29 {
          assert t[i] == 475.0 + 5.0 * ((i - 3) as real);
          assert t[i] == (475 + 5 * (i - 3)) as real;
        }
      }
    }
    var hi, lo := SeqMax(t), SeqMin(t);
    assert hi == (hi.Floor) as real && lo == (lo.Floor) as real;
    assert Ptp(t) == (hi.Floor - lo.Floor) as real;
    TruncOfInt(hi.Floor - lo.Floor);
    assert t[31] - t[1] <= Ptp(t);
  }

  /** How many values `arange(start, stop, 1)` holds for `stop - start = d`:
      the ceiling of d, or none when d <= 0. */
  function ArangeCount(d: real): (n: nat)
    ensures d <= n as real
    ensures n > 0 ==> (n - 1) as real < d
  {
    if d <= 0.0 then 0 else if d.Floor as real == d then d.Floor else d.Floor + 1
  }

  /** numpy `arange(start, stop, 1)`: whole steps from `start`, all below
      `stop`, ending with the last value below it. */
  function ArangeUnit(start: real, stop: real): (r: seq<real>)
    ensures |r| == ArangeCount(stop - start)
    ensures forall i :: 0 <= i < |r| ==> r[i] - start == i as real && start <= r[i] < stop
    ensures stop <= start + |r| as real
  {
    seq(ArangeCount(stop - start), (i: int) => start + i as real)
  }

  /** The scanned wavelengths (line 110): `arange(WAVELENGTH_TICKS[0],
      WAVELENGTH_TICKS[-1] + 0.1, 1)`. */
  function ScannedWavelengths(first: real, last: real): seq<real>
  {
    var t := WavelengthTicks(first, last);
    ArangeUnit(t[0], t[32] + 0.1)
  }

  /** The scan visits every whole wavelength from the first tick to the last,
      both included, and none when the last tick is below the first. So it has
      no more entries than the spectrum's int(ptp) + 1 colours (line 99), and
      indexing the colours with the scan's position stays in bounds. */
  lemma ScanWithinSpectrum(first: real, last: real)
    ensures var t := WavelengthTicks(first, last);
      var n := |ScannedWavelengths(first, last)|;
      && (t[0] <= t[32] ==> n as real == t[32] - t[0] + 1.0 && ScannedWavelengths(first, last)[n - 1] == t[32])
      && (t[32] < t[0] ==> n == 0)
      && n <= Trunc(Ptp(t)) + 1
  {
    var t := WavelengthTicks(first, last);
    TicksSpan(first, last);
    var d := Trunc(last) - Trunc(first);
    assert t[32] - t[0] == d as real;
    var n := ArangeCount(t[32] + 0.1 - t[0]);
    if d >= 0 {
      assert n == d + 1;
    } else {
      assert n == 0;
    }
  }

  // ---------------------------------------------------------------------------
  // The error of a band's colour against a named colour

  /** Lines 113-121: the sum of the squared channel differences. It is never
      negative, and zero exactly when the colours are equal. */
  function SquaredError(named: Vec3, c: Vec3): (e: real)
    ensures e >= 0.0
    ensures e == 0.0 <==> named == c
  {
    var da, db, dc := named.a - c.a, named.b - c.b, named.c - c.c;
    SumOfSquares(da, db, dc);
    da * da + db * db + dc * dc
  }

  lemma SumOfSquares(a: real, b: real, c: real)
    ensures a * a + b * b + c * c >= 0.0
    ensures a * a + b * b + c * c == 0.0 <==> a == 0.0 && b == 0.0 && c == 0.0
  {
    SquareNonNegative(a);
    SquareNonNegative(b);
    SquareNonNegative(c);
    if a * a + b * b + c * c == 0.0 {
      SquareZero(a);
      SquareZero(b);
      SquareZero(c);
    }
  }

  /** The errors of the first `n` colours against `named`. */
  function Errors(named: Vec3, colors: seq<Vec3>, n: nat): (r: seq<real>)
    requires n <= |colors|
    ensures |r| == n
    ensures forall i :: 0 <= i < n ==> r[i] == SquaredError(named, colors[i])
  {
    seq(n, (i: int) requires 0 <= i < n => SquaredError(named, colors[i]))
  }

  lemma ErrorsExtend(named: Vec3, colors: seq<Vec3>, n: nat)
    requires n < |colors|
    ensures Errors(named, colors, n + 1) == Errors(named, colors, n) + [SquaredError(named, colors[n])]
  {
  }

  // ---------------------------------------------------------------------------
  // First minimum

  /** `k` holds the smallest error, and every earlier error is strictly
      larger: the first position of the minimum. */
  predicate IsFirstMinimum(errs: seq<real>, k: nat)
  {
    && k < |errs|
    && (forall i :: 0 <= i < |errs| ==> errs[k] <= errs[i])
    && (forall i :: 0 <= i < k ==> errs[k] < errs[i])
  }

  /** There is at most one first minimum. */
  lemma FirstMinimumUnique(errs: seq<real>, k1: nat, k2: nat)
    requires IsFirstMinimum(errs, k1) && IsFirstMinimum(errs, k2)
    ensures k1 == k2
  {
    assert errs[k1] == errs[k2];
  }

  /** One more error: the first minimum moves to it only when it is strictly
      smaller, which is the test `best[1] > error` of line 122. */
  lemma FirstMinimumExtend(errs: seq<real>, k: nat, e: real)
    requires IsFirstMinimum(errs, k)
    ensures errs[k] > e ==> IsFirstMinimum(errs + [e], |errs|)
    ensures !(errs[k] > e) ==> IsFirstMinimum(errs + [e], k)
  {
  }

  /** The pair `best_wavelengths[name]` holds: a wavelength and its error. */
  datatype Best = Best(wavelength: real, error: real)

  /** After `n` scanned wavelengths the entry of a named colour is None when
      nothing was scanned, and otherwise the wavelength and error of the first
      minimum `k` of the errors so far. */
  predicate Tracks(o: Option<Best>, k: nat, wavelengths: seq<real>, named: Vec3, colors: seq<Vec3>, n: nat)
  {
    && n <= |wavelengths| && n <= |colors|
    && if n == 0 then o == None
       else
         && IsFirstMinimum(Errors(named, colors, n), k)
         && o == Some(Best(wavelengths[k], SquaredError(named, colors[k])))
  }

  lemma TracksStep(o: Option<Best>, k: nat, wavelengths: seq<real>, named: Vec3, colors: seq<Vec3>, n: nat)
    requires Tracks(o, k, wavelengths, named, colors, n) && n < |wavelengths| && n < |colors|
    ensures var e := SquaredError(named, colors[n]);
      if o.None? || o.value.error > e then Tracks(Some(Best(wavelengths[n], e)), n, wavelengths, named, colors, n + 1)
      else Tracks(o, k, wavelengths, named, colors, n + 1)
  {
    ErrorsExtend(named, colors, n);
    if n > 0 {
      FirstMinimumExtend(Errors(named, colors, n), k, SquaredError(named, colors[n]));
    }
  }

  /** The entry a named colour ends with over a whole scan. */
  ghost predicate BestOf(o: Option<Best>, wavelengths: seq<real>, errs: seq<real>)
    requires |wavelengths| == |errs|
  {
    if |errs| == 0 then o == None
    else exists k: nat :: IsFirstMinimum(errs, k) && o == Some(Best(wavelengths[k], errs[k]))
  }

  /** Lines 108-123. For every scanned wavelength, in order, and every named
      colour, the entry is replaced when it is None or its error is strictly
      larger than the band's. Indexing the band colours past their end raises
      IndexError at the first named colour. */
  method BestWavelengths(wavelengths: seq<real>, colors: seq<Vec3>, named: seq<Vec3>)
    returns (r: Result<seq<Option<Best>>>)
    ensures r.Err? <==> |wavelengths| > |colors| && |named| > 0
    ensures r.Err? ==> r.error == IndexError
    ensures r.Ok? ==> |r.value| == |named|
    ensures r.Ok? ==> forall j :: 0 <= j < |named| ==> (r.value[j].Some? <==> |wavelengths| > 0)
    ensures r.Ok? ==> forall j :: 0 <= j < |named| ==>
      |wavelengths| <= |colors| && BestOf(r.value[j], wavelengths, Errors(named[j], colors, |wavelengths|))
  {
    var best: seq<Option<Best>> := seq(|named|, _ => None);
    ghost var at: seq<nat> := seq(|named|, _ => 0);
    var w := 0;
    while w < |wavelengths|
      invariant 0 <= w <= |wavelengths|
      invariant |named| > 0 ==> w <= |colors|
      invariant |best| == |named| && |at| == |named|
      invariant forall i :: 0 <= i < |named| ==> Tracks(best[i], at[i], wavelengths, named[i], colors, w)
    {
      var j := 0;
      while j < |named|
        invariant 0 <= j <= |named|
        invariant j > 0 ==> w < |colors|
        invariant |best| == |named| && |at| == |named|
        invariant forall i :: 0 <= i < j ==> Tracks(best[i], at[i], wavelengths, named[i], colors, w + 1)
        invariant forall i :: j <= i < |named| ==> Tracks(best[i], at[i], wavelengths, named[i], colors, w)
      {
        if w >= |colors| {
          return Err(IndexError);
        }
        var error := SquaredError(named[j], colors[w]);
        TracksStep(best[j], at[j], wavelengths, named[j], colors, w);
        if best[j].None? || best[j].value.error > error {
          best := best[j := Some(Best(wavelengths[w], error))];
          at := at[j := w];
        }
        j := j + 1;
      }
      w := w + 1;
    }
    forall i | 0 <= i < |named|
      ensures |wavelengths| <= |colors| && BestOf(best[i], wavelengths, Errors(named[i], colors, |wavelengths|))
    {
      assert Tracks(best[i], at[i], wavelengths, named[i], colors, |wavelengths|);
    }
    return Ok(best);
  }

  /** What the entry of a non-empty scan promises: an error no larger than at
      any scanned wavelength, attained at the reported wavelength and at no
      earlier one; an exact match anywhere gives error 0. */
  lemma BestIsFirstMinimum(o: Option<Best>, wavelengths: seq<real>, named: Vec3, colors: seq<Vec3>)
    requires |wavelengths| <= |colors| && |wavelengths| > 0
    requires BestOf(o, wavelengths, Errors(named, colors, |wavelengths|))
    ensures o.Some?
    ensures forall i :: 0 <= i < |wavelengths| ==> o.value.error <= SquaredError(named, colors[i])
    ensures exists k :: 0 <= k < |wavelengths| && o.value == Best(wavelengths[k], SquaredError(named, colors[k]))
                     && forall i :: 0 <= i < k ==> o.value.error < SquaredError(named, colors[i])
    ensures (exists i :: 0 <= i < |wavelengths| && colors[i] == named) ==> o.value.error == 0.0
  {
    var errs := Errors(named, colors, |wavelengths|);
    var k: nat :| IsFirstMinimum(errs, k) && o == Some(Best(wavelengths[k], errs[k]));
    assert forall i :: 0 <= i < |wavelengths| ==> o.value.error <= errs[i];
    assert 0 <= k < |wavelengths| && o.value == Best(wavelengths[k], SquaredError(named, colors[k]));
    if i :| 0 <= i < |wavelengths| && colors[i] == named {
      assert errs[i] == 0.0;
    }
  }

  // ---------------------------------------------------------------------------
  // The script

  /** `named_colors` (lines 91-97), in the dictionary's order. */
  const NAMED_COLOR_NAMES: seq<string> := ["Red", "Yellow", "Green", "Cyan", "Blue"]
  const NAMED_COLORS: seq<Vec3> := [
    Vec3(1.0, 0.0, 0.0), Vec3(1.0, 1.0, 0.0), Vec3(0.0, 1.0, 0.0), Vec3(0.0, 1.0, 1.0), Vec3(0.0, 0.0, 1.0)]

  /** The band colours of lines 98-107: a vertical `visible_spectrum` of
      int(ptp) + 1 bands over the tick range, on the default display and
      standard. */
  function SpectrumColors(first: real, last: real, crt: Mat3, pow: (real, real) -> real,
                          atan2: (real, real) -> real, cos: real -> real, sin: real -> real,
                          interp: (seq<real>, seq<real>, real) -> real,
                          loci: CC.Standard -> CC.Locus): (r: Result<seq<Vec3>>)
    requires forall s :: loci(s).Valid()
    ensures r.Ok? ==> |r.value| == Trunc(Ptp(WavelengthTicks(first, last))) + 1
    ensures r.Ok? ==> forall i :: 0 <= i < |r.value| ==> r.value[i].InUnitCube()
  {
    var t := WavelengthTicks(first, last);
    var span := Trunc(Ptp(t));
    var spectrum :- Coloration.VisibleSpectrum(span + 1, 0.0, t[0], 1.0, span as real, t[0], t[32], Some(true),
                                              None, None, crt, pow, atan2, cos, sin, interp, loci);
    Ok(spectrum.1)
  }

  /** The whole best-wavelength computation of the script. The scan never
      runs past the band colours, so the only errors are those of
      `visible_spectrum`. Otherwise every named colour gets the first minimum of its
      errors over the scan, which is non-empty whenever the locus's last
      whole wavelength is not below its first. */
  method NamedColorWavelengths(first: real, last: real, crt: Mat3, pow: (real, real) -> real,
                               atan2: (real, real) -> real, cos: real -> real, sin: real -> real,
                               interp: (seq<real>, seq<real>, real) -> real,
                               loci: CC.Standard -> CC.Locus) returns (r: Result<seq<Option<Best>>>)
    requires forall s :: loci(s).Valid()
    ensures r.Err? <==> SpectrumColors(first, last, crt, pow, atan2, cos, sin, interp, loci).Err?
    ensures r.Err? ==> r.error == SpectrumColors(first, last, crt, pow, atan2, cos, sin, interp, loci).error
    ensures r.Ok? ==> |r.value| == |NAMED_COLORS|
    ensures r.Ok? ==> Trunc(first) <= Trunc(last) ==> forall j :: 0 <= j < |r.value| ==> r.value[j].Some?
    ensures r.Ok? ==>
      var colors := SpectrumColors(first, last, crt, pow, atan2, cos, sin, interp, loci).value;
      var wavelengths := ScannedWavelengths(first, last);
      forall j :: 0 <= j < |NAMED_COLORS| ==>
        |wavelengths| <= |colors| && BestOf(r.value[j], wavelengths, Errors(NAMED_COLORS[j], colors, |wavelengths|))
  {
    var colors :- SpectrumColors(first, last, crt, pow, atan2, cos, sin, interp, loci);
    var wavelengths := ScannedWavelengths(first, last);
    ScanWithinSpectrum(first, last);
    r := BestWavelengths(wavelengths, colors, NAMED_COLORS);
  }
}
