/** What maths/color_temperature.py and maths/chromaticity_from_spectrum.py
    share when they integrate a spectrum against a colour-matching-function
    (CMF) table: the table rows, Python's `sorted` by wavelength, the clipping
    filter, the line-up of table rows with the spectrum's wavelengths, and the
    integrands. */
module Spectra {
  import opened Numerics

  /** One CMF table row: a wavelength with its X, Y and Z values. */
  datatype CmfRow = CmfRow(wavelength: real, x: real, y: real, z: real)

  datatype Component = X | Y | Z

  function Value(row: CmfRow, c: Component): real
  {
    match c
    case X => row.x
    case Y => row.y
    case Z => row.z
  }

  function Wavelengths(t: seq<CmfRow>): (r: seq<real>)
    ensures |r| == |t|
    ensures forall i :: 0 <= i < |t| ==> r[i] == t[i].wavelength
  {
    seq(|t|, (i: int) requires 0 <= i < |t| => t[i].wavelength)
  }

  function Column(t: seq<CmfRow>, c: Component): (r: seq<real>)
    ensures |r| == |t|
    ensures forall i :: 0 <= i < |t| ==> r[i] == Value(t[i], c)
  {
    seq(|t|, (i: int) requires 0 <= i < |t| => Value(t[i], c))
  }

  predicate RowNonNegative(row: CmfRow)
  {
    0.0 <= row.x && 0.0 <= row.y && 0.0 <= row.z
  }

  /** A tabulated CMF as loaded from the cvrl files: at least two rows, with
      positive wavelengths in strictly ascending order and non-negative values. */
  predicate TableValid(t: seq<CmfRow>)
  {
    && |t| > 1 && 0.0 < t[0].wavelength && StrictlyIncreasing(Wavelengths(t))
    && forall i :: 0 <= i < |t| ==> RowNonNegative(t[i])
  }

  /** `interp1d` of non-negative samples is non-negative (linear interpolation
      between two values stays between them). */
  ghost predicate InterpNonNegative(interp: (seq<real>, seq<real>, real) -> real)
  {
    forall xs, ys, v :: (forall i :: 0 <= i < |ys| ==> 0.0 <= ys[i]) ==> 0.0 <= interp(xs, ys, v)
  }

  // ---------------------------------------------------------------------------
  // Python's `sorted(s, key = ...)`

  predicate Ordered<T>(s: seq<T>, key: T -> real)
  {
    forall i, j :: 0 <= i < j < |s| ==> key(s[i]) <= key(s[j])
  }

  predicate StrictlyOrdered<T>(s: seq<T>, key: T -> real)
  {
    forall i, j :: 0 <= i < j < |s| ==> key(s[i]) < key(s[j])
  }

  /** No two entries share a key: for a spectrum, no repeated wavelength. */
  predicate DistinctKeys<T>(s: seq<T>, key: T -> real)
  {
    forall i, j :: 0 <= i < j < |s| ==> key(s[i]) != key(s[j])
  }

  /** Places `x` before the first entry whose key is not smaller. */
  function Insert<T(==)>(x: T, s: seq<T>, key: T -> real): (r: seq<T>)
    requires Ordered(s, key)
    ensures |r| == |s| + 1
    ensures multiset(r) == multiset(s) + multiset{x}
    ensures Ordered(r, key)
  {
    if |s| == 0 then [x]
    else if key(x) <= key(s[0]) then [x] + s
    else
      var rest := Insert(x, s[1..], key);
      assert s == [s[0]] + s[1..];
      forall i | 0 <= i < |rest| ensures key(s[0]) <= key(rest[i]) {
        assert rest[i] in multiset(rest);
        if rest[i] != x {
          assert rest[i] in multiset(s[1..]);
          var k :| 0 <= k < |s[1..]| && s[1..][k] == rest[i];
          assert s[1..][k] == s[k + 1];
        }
      }
      [s[0]] + rest
  }

  /** `sorted(s, key = key)`: an ordered permutation of s. The head is
      inserted before every entry of equal key, so entries of equal key keep
      their order, as in Python's stable sort; the ensures do not state that
      order. */
  function Sort<T(==)>(s: seq<T>, key: T -> real): (r: seq<T>)
    ensures |r| == |s|
    ensures multiset(r) == multiset(s)
    ensures Ordered(r, key)
  {
    if |s| == 0 then []
    else
      assert s == [s[0]] + s[1..];
      Insert(s[0], Sort(s[1..], key), key)
  }

  /** Inserting a key not yet present into a strictly ordered list keeps it strictly ordered. */
  lemma {:induction false} InsertStrict<T>(x: T, s: seq<T>, key: T -> real)
    requires StrictlyOrdered(s, key)
    requires forall i :: 0 <= i < |s| ==> key(s[i]) != key(x)
    ensures StrictlyOrdered(Insert(x, s, key), key)
  {
    if |s| > 0 && key(s[0]) < key(x) {
      InsertStrict(x, s[1..], key);
      var rest := Insert(x, s[1..], key);
      forall i | 0 <= i < |rest| ensures key(s[0]) < key(rest[i]) {
        assert rest[i] in multiset(rest);
        if rest[i] != x {
          assert rest[i] in multiset(s[1..]);
          var k :| 0 <= k < |s[1..]| && s[1..][k] == rest[i];
          assert s[1..][k] == s[k + 1];
        }
      }
      assert Insert(x, s, key) == [s[0]] + rest;
    }
  }

  /** With distinct keys the sorted list ascends strictly. */
  lemma {:induction false} SortStrict<T>(s: seq<T>, key: T -> real)
    requires DistinctKeys(s, key)
    ensures StrictlyOrdered(Sort(s, key), key)
  {
    if |s| > 0 {
      var tail := s[1..];
      assert DistinctKeys(tail, key) by {
        forall i, j | 0 <= i < j < |tail| ensures key(tail[i]) != key(tail[j]) {
          assert tail[i] == s[i + 1] && tail[j] == s[j + 1];
        }
      }
      SortStrict(tail, key);
      var sorted := Sort(tail, key);
      forall i | 0 <= i < |sorted| ensures key(sorted[i]) != key(s[0]) {
        assert sorted[i] in multiset(sorted);
        var k :| 0 <= k < |tail| && tail[k] == sorted[i];
        assert tail[k] == s[k + 1];
      }
      InsertStrict(s[0], sorted, key);
    }
  }

  lemma StrictlyOrderedTail<T>(s: seq<T>, key: T -> real)
    requires StrictlyOrdered(s, key) && |s| > 0
    ensures StrictlyOrdered(s[1..], key) && Ordered(s[1..], key)
    ensures |s| > 1 ==> key(s[0]) < key(s[1..][0])
  {
    var tail := s[1..];
    forall i, j | 0 <= i < j < |tail| ensures key(tail[i]) < key(tail[j]) {
      assert tail[i] == s[i + 1] && tail[j] == s[j + 1];
    }
  }

  /** Sorting a list that is already strictly ordered changes nothing. */
  lemma {:induction false} SortOfOrdered<T>(s: seq<T>, key: T -> real)
    requires StrictlyOrdered(s, key)
    ensures Sort(s, key) == s
  {
    if |s| > 0 {
      var tail := s[1..];
      StrictlyOrderedTail(s, key);
      SortOfOrdered(tail, key);
      assert s == [s[0]] + tail;
    }
  }

  // ---------------------------------------------------------------------------
  // Spectra as (wavelength, intensity) pairs

  function Wavelength(p: (real, real)): real { p.0 }

  function Keys(s: seq<(real, real)>): (r: seq<real>)
    ensures |r| == |s|
    ensures forall i :: 0 <= i < |s| ==> r[i] == s[i].0
  {
    seq(|s|, (i: int) requires 0 <= i < |s| => s[i].0)
  }

  function Levels(s: seq<(real, real)>): (r: seq<real>)
    ensures |r| == |s|
    ensures forall i :: 0 <= i < |s| ==> r[i] == s[i].1
  {
    seq(|s|, (i: int) requires 0 <= i < |s| => s[i].1)
  }

  /** The clipping comprehension: the pairs whose wavelength lies in [lo, hi], in order. */
  function ClipRange(s: seq<(real, real)>, lo: real, hi: real): (r: seq<(real, real)>)
    ensures |r| <= |s|
    ensures forall p :: p in r <==> p in s && lo <= p.0 <= hi
  {
    if |s| == 0 then []
    else
      assert s == [s[0]] + s[1..];
      (if lo <= s[0].0 <= hi then [s[0]] else []) + ClipRange(s[1..], lo, hi)
  }

  /** Clipping keeps the order of what it keeps. */
  lemma {:induction false} ClipStrict(s: seq<(real, real)>, lo: real, hi: real)
    requires StrictlyOrdered(s, Wavelength)
    ensures StrictlyOrdered(ClipRange(s, lo, hi), Wavelength)
  {
    if |s| > 0 {
      var tail := s[1..];
      assert StrictlyOrdered(tail, Wavelength) by {
        forall i, j | 0 <= i < j < |tail| ensures tail[i].0 < tail[j].0 {
          assert tail[i] == s[i + 1] && tail[j] == s[j + 1];
        }
      }
      ClipStrict(tail, lo, hi);
      var rest := ClipRange(tail, lo, hi);
      forall i | 0 <= i < |rest| ensures s[0].0 < rest[i].0 {
        assert rest[i] in rest;
        var k :| 0 <= k < |tail| && tail[k] == rest[i];
        assert tail[k] == s[k + 1];
      }
    }
  }

  /** A spectrum already inside [lo, hi] is left as it is. */
  lemma {:induction false} ClipInside(s: seq<(real, real)>, lo: real, hi: real)
    requires forall i :: 0 <= i < |s| ==> lo <= s[i].0 <= hi
    ensures ClipRange(s, lo, hi) == s
  {
    if |s| > 0 {
      ClipInside(s[1..], lo, hi);
      assert s == [s[0]] + s[1..];
    }
  }

  // ---------------------------------------------------------------------------
  // Lining the table up with the spectrum

  /** Every wavelength of the spectrum is a tabulated one. */
  predicate AllTabulated(s: seq<(real, real)>, t: seq<CmfRow>)
  {
    forall i :: 0 <= i < |s| ==> s[i].0 in Wavelengths(t)
  }

  /** The table rows whose wavelength occurs in the spectrum, in table order. */
  function ListedRows(t: seq<CmfRow>, s: seq<(real, real)>): (r: seq<CmfRow>)
    ensures forall row :: row in r <==> row in t && row.wavelength in Keys(s)
  {
    if |t| == 0 then []
    else
      assert t == [t[0]] + t[1..];
      (if t[0].wavelength in Keys(s) then [t[0]] else []) + ListedRows(t[1..], s)
  }

  /** Rows in strictly ascending wavelength order. */
  predicate RowsAscend(t: seq<CmfRow>)
  {
    forall i, j :: 0 <= i < j < |t| ==> t[i].wavelength < t[j].wavelength
  }

  lemma RowsAscendIff(t: seq<CmfRow>)
    ensures RowsAscend(t) <==> StrictlyIncreasing(Wavelengths(t))
  {
    if StrictlyIncreasing(Wavelengths(t)) {
      forall i, j | 0 <= i < j < |t| ensures t[i].wavelength < t[j].wavelength {
        assert Wavelengths(t)[i] < Wavelengths(t)[j];
      }
    }
  }

  lemma PrependAscend(x: CmfRow, r: seq<CmfRow>)
    requires RowsAscend(r)
    requires forall row :: row in r ==> x.wavelength < row.wavelength
    ensures RowsAscend([x] + r)
  {
    var q := [x] + r;
    forall i, j | 0 <= i < j < |q| ensures q[i].wavelength < q[j].wavelength {
      assert q[j] == r[j - 1];
      if i > 0 {
        assert q[i] == r[i - 1];
      } else {
        assert r[j - 1] in r;
      }
    }
  }

  lemma {:induction false} ListedRowsAscend(t: seq<CmfRow>, s: seq<(real, real)>)
    requires RowsAscend(t)
    ensures RowsAscend(ListedRows(t, s))
  {
    if |t| > 0 {
      var tail := t[1..];
      assert RowsAscend(tail) by {
        forall i, j | 0 <= i < j < |tail| ensures tail[i].wavelength < tail[j].wavelength {
          assert tail[i] == t[i + 1] && tail[j] == t[j + 1];
        }
      }
      ListedRowsAscend(tail, s);
      var rest := ListedRows(tail, s);
      if t[0].wavelength in Keys(s) {
        forall row | row in rest ensures t[0].wavelength < row.wavelength {
          var k :| 0 <= k < |tail| && tail[k] == row;
          assert tail[k] == t[k + 1];
        }
        PrependAscend(t[0], rest);
      }
    }
  }

  lemma TailIncreasing(a: seq<real>)
    requires StrictlyIncreasing(a) && |a| > 0
    ensures StrictlyIncreasing(a[1..])
  {
    forall i, j | 0 <= i < j < |a| - 1 ensures a[1..][i] < a[1..][j] {
      assert a[1..][i] == a[i + 1] && a[1..][j] == a[j + 1];
    }
  }

  /** Two strictly ascending lists holding the same values are equal. */
  lemma {:induction false} SameValuesIncreasingEqual(a: seq<real>, b: seq<real>)
    requires StrictlyIncreasing(a) && StrictlyIncreasing(b)
    requires forall v :: v in a <==> v in b
    ensures a == b
  {
    if |a| > 0 {
      assert a[0] in a;
    }
    if |b| > 0 {
      assert b[0] in b;
    }
    if |a| > 0 && |b| > 0 {
      assert a[0] == b[0] by {
        assert a[0] in a && b[0] in b;
        var i :| 0 <= i < |b| && b[i] == a[0];
        var j :| 0 <= j < |a| && a[j] == b[0];
        assert b[0] <= b[i];
        assert a[0] <= a[j];
      }
      var a', b' := a[1..], b[1..];
      TailIncreasing(a);
      TailIncreasing(b);
      forall v ensures v in a' <==> v in b' {
        if v in a' {
          var k :| 0 <= k < |a'| && a'[k] == v;
          assert a'[k] == a[k + 1] && a[0] < a[k + 1];
          assert v in b;
          var m :| 0 <= m < |b| && b[m] == v;
          assert m != 0;
          assert b'[m - 1] == v;
        }
        if v in b' {
          var k :| 0 <= k < |b'| && b'[k] == v;
          assert b'[k] == b[k + 1] && b[0] < b[k + 1];
          assert v in a;
          var m :| 0 <= m < |a| && a[m] == v;
          assert m != 0;
          assert a'[m - 1] == v;
        }
      }
      SameValuesIncreasingEqual(a', b');
      assert a == [a[0]] + a' && b == [b[0]] + b';
    }
  }

  /** The exact-match branch: when every wavelength of a strictly ascending
      spectrum is tabulated, the listed rows pair up index by index with the
      spectrum, so `use_cmf[i]` is the row for the i-th pair's wavelength. */
  lemma LinedUp(t: seq<CmfRow>, s: seq<(real, real)>)
    requires StrictlyIncreasing(Wavelengths(t))
    requires StrictlyOrdered(s, Wavelength)
    requires AllTabulated(s, t)
    ensures Wavelengths(ListedRows(t, s)) == Keys(s)
    ensures |ListedRows(t, s)| == |s|
  {
    var r := ListedRows(t, s);
    RowsAscendIff(t);
    ListedRowsAscend(t, s);
    RowsAscendIff(r);
    assert StrictlyIncreasing(Keys(s)) by {
      forall i, j | 0 <= i < j < |s| ensures Keys(s)[i] < Keys(s)[j] {
        assert Wavelength(s[i]) < Wavelength(s[j]);
      }
    }
    forall v ensures v in Wavelengths(r) <==> v in Keys(s) {
      if v in Wavelengths(r) {
        var k :| 0 <= k < |r| && Wavelengths(r)[k] == v;
        assert r[k] in r;
      }
      if v in Keys(s) {
        var k :| 0 <= k < |s| && Keys(s)[k] == v;
        assert s[k].0 in Wavelengths(t);
        var m :| 0 <= m < |t| && Wavelengths(t)[m] == v;
        assert t[m] in t;
        assert t[m] in r;
        var q :| 0 <= q < |r| && r[q] == t[m];
        assert Wavelengths(r)[q] == v;
      }
    }
    SameValuesIncreasingEqual(Wavelengths(r), Keys(s));
  }

  /** The interpolating branch: one row per pair, at the pair's wavelength,
      each value `interp1d` over the table's column. */
  function InterpolatedRows(t: seq<CmfRow>, s: seq<(real, real)>, interp: (seq<real>, seq<real>, real) -> real)
    : (r: seq<CmfRow>)
    ensures |r| == |s|
    ensures Wavelengths(r) == Keys(s)
  {
    seq(|s|, (i: int) requires 0 <= i < |s| =>
      CmfRow(s[i].0, interp(Wavelengths(t), Column(t, X), s[i].0),
             interp(Wavelengths(t), Column(t, Y), s[i].0), interp(Wavelengths(t), Column(t, Z), s[i].0)))
  }

  /** Lines the table up with a spectrum: the tabulated rows themselves when
      every wavelength is tabulated, interpolated rows otherwise. */
  function LineUp(t: seq<CmfRow>, s: seq<(real, real)>, interp: (seq<real>, seq<real>, real) -> real)
    : seq<CmfRow>
  {
    if AllTabulated(s, t) then ListedRows(t, s) else InterpolatedRows(t, s, interp)
  }

  /** Some pair lies outside the table's wavelength range: the first or the
      last of an ascending spectrum. */
  predicate RangeGuard(s: seq<(real, real)>, t: seq<CmfRow>)
    requires |s| > 0 && |t| > 0
  {
    s[0].0 < t[0].wavelength || s[|s| - 1].0 > t[|t| - 1].wavelength
  }

  /** Sorted by wavelength, then restricted to the table's range when some
      pair lies outside it. */
  function SortAndClip(p: seq<(real, real)>, t: seq<CmfRow>): seq<(real, real)>
    requires |p| > 0 && |t| > 0
  {
    var sorted := Sort(p, Wavelength);
    if RangeGuard(sorted, t) then ClipRange(sorted, t[0].wavelength, t[|t| - 1].wavelength) else sorted
  }

  /** With no repeated wavelength the result ascends strictly and holds exactly
      the pairs inside the table's range. */
  lemma SortAndClipFacts(p: seq<(real, real)>, t: seq<CmfRow>)
    requires |p| > 0 && |t| > 0 && DistinctKeys(p, Wavelength)
    ensures StrictlyOrdered(SortAndClip(p, t), Wavelength)
    ensures forall q :: q in SortAndClip(p, t) <==> q in p && t[0].wavelength <= q.0 <= t[|t| - 1].wavelength
  {
    var sorted := Sort(p, Wavelength);
    SortStrict(p, Wavelength);
    var lo, hi := t[0].wavelength, t[|t| - 1].wavelength;
    if !RangeGuard(sorted, t) {
      forall i | 0 <= i < |sorted| ensures lo <= sorted[i].0 <= hi {
        if i > 0 {
          assert sorted[0].0 < sorted[i].0;
        }
        if i < |sorted| - 1 {
          assert sorted[i].0 < sorted[|sorted| - 1].0;
        }
      }
      ClipInside(sorted, lo, hi);
    }
    ClipStrict(sorted, lo, hi);
    forall q ensures q in sorted <==> q in p {
      assert q in multiset(sorted) <==> q in multiset(p);
    }
  }

  /** Lining up keeps one row per spectrum entry. */
  lemma LineUpLength(t: seq<CmfRow>, s: seq<(real, real)>, interp: (seq<real>, seq<real>, real) -> real)
    requires StrictlyIncreasing(Wavelengths(t))
    requires StrictlyOrdered(s, Wavelength)
    ensures |LineUp(t, s, interp)| == |s|
  {
    if AllTabulated(s, t) {
      LinedUp(t, s);
    }
  }

  /** For a valid table and an ascending spectrum, row i of the line-up is at
      the i-th wavelength of the spectrum, is a table row when every wavelength
      is tabulated, and has non-negative values. */
  lemma LineUpAligned(t: seq<CmfRow>, s: seq<(real, real)>, interp: (seq<real>, seq<real>, real) -> real)
    requires TableValid(t) && InterpNonNegative(interp)
    requires StrictlyOrdered(s, Wavelength)
    ensures |LineUp(t, s, interp)| == |s|
    ensures Wavelengths(LineUp(t, s, interp)) == Keys(s)
    ensures AllTabulated(s, t) ==> forall i :: 0 <= i < |s| ==> LineUp(t, s, interp)[i] in t
    ensures forall i :: 0 <= i < |s| ==> RowNonNegative(LineUp(t, s, interp)[i])
  {
    var r := LineUp(t, s, interp);
    if AllTabulated(s, t) {
      LinedUp(t, s);
      forall i | 0 <= i < |s| ensures r[i] in t && RowNonNegative(r[i]) {
        assert r[i] in r;
        var k :| 0 <= k < |t| && t[k] == r[i];
      }
    } else {
      forall i | 0 <= i < |s| ensures RowNonNegative(r[i]) {
        assert forall j :: 0 <= j < |Column(t, X)| ==> 0.0 <= Column(t, X)[j];
        assert forall j :: 0 <= j < |Column(t, Y)| ==> 0.0 <= Column(t, Y)[j];
        assert forall j :: 0 <= j < |Column(t, Z)| ==> 0.0 <= Column(t, Z)[j];
      }
    }
  }

  /** A spectrum at every tabulated wavelength lists the whole table. */
  lemma {:induction false} ListedRowsAll(t: seq<CmfRow>, s: seq<(real, real)>)
    requires forall i :: 0 <= i < |t| ==> t[i].wavelength in Keys(s)
    ensures ListedRows(t, s) == t
  {
    if |t| > 0 {
      ListedRowsAll(t[1..], s);
      assert t == [t[0]] + t[1..];
    }
  }

  /** The integrand for one component: intensity times the lined-up CMF value. */
  function Products(intensities: seq<real>, rows: seq<CmfRow>, c: Component): (r: seq<real>)
    requires |rows| >= |intensities|
    ensures |r| == |intensities|
    ensures forall i :: 0 <= i < |r| ==> r[i] == intensities[i] * Value(rows[i], c)
  {
    seq(|intensities|, (i: int) requires 0 <= i < |intensities| => intensities[i] * Value(rows[i], c))
  }

  /** Non-negative intensities against non-negative CMF values give non-negative integrands. */
  lemma ProductsNonNegative(intensities: seq<real>, rows: seq<CmfRow>, c: Component)
    requires |rows| >= |intensities|
    requires forall i :: 0 <= i < |intensities| ==> 0.0 <= intensities[i] && 0.0 <= Value(rows[i], c)
    ensures forall i :: 0 <= i < |intensities| ==> 0.0 <= Products(intensities, rows, c)[i]
  {
    forall i | 0 <= i < |intensities| ensures 0.0 <= Products(intensities, rows, c)[i] {
      MulNonNegative(intensities[i], Value(rows[i], c));
    }
  }
}
