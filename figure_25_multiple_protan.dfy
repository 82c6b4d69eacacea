/** generation/figure_25_multiple_protan.py: several protanope confusion lines
    and an estimate of the point where they meet.
    For each of three start colours the L-cone activation is walked down, then
    up, in steps of ACTIVATION_STEP while the chromaticity x stays within
    [0, 0.65]. Each walk stores the start first. The downward walk also stops
    when X falls below 0.1, the upward walk once L exceeds 1, so neither needs
    a bound on its steps. Each row is sorted by x, consecutive rows'
    first-to-last segments are intersected and the intersections averaged.
    The script takes its cone conversions from maths/color_conversion.py,
    whose `xyz_to_lms` and `lms_to_xyz` apply the Smith & Pokorny numbers in
    the opposite direction to maths/color_blindness.py. The walks take the
    conversion as a parameter: AS_WRITTEN is the script's, CORRECTED that of
    the confusion-line script. */
module MultipleProtan {
  import opened Wrappers
  import opened LinearAlgebra
  import opened Functions
  import ColorConversion
  import ColorBlindness
  import Coefficients
  import Spectra
  import ConfusionLines
  import ChromaticityConversion
  import Numerics

  // The walks share ACTIVATION_STEP (0.01), the range test WithinWalk,
  // the shifted activation Shifted and the sort key ChromaticityX with
  // ConfusionLines.

  /** The downward walk stops below this X (line 105), the upward one above
      this L (line 112). */
  const MIN_X: real := 0.1
  const MAX_L: real := 1.0

  const START_COLORS: seq<Vec3> := [Vec3(0.5, 0.5, 0.25), Vec3(0.5, 0.5, 0.5), Vec3(0.5, 0.25, 0.5)]

  // ---------------------------------------------------------------------------
  // Conversions

  /** A pair of cone conversions: the matrices of `xyz_to_lms` and
      `lms_to_xyz`, and whether they assert their ranges as
      maths/color_conversion.py does. */
  datatype Conversion = Conversion(toLms: Mat3, toXyz: Mat3, checked: bool)

  /** maths/color_conversion.py with `use_2_degree = True`, as the script imports it. */
  const AS_WRITTEN: Conversion := Conversion(Coefficients.XYZ_TO_LMS_2, Coefficients.LMS_TO_XYZ_2, true)

  /** maths/color_blindness.py, as generation/confusion_lines_and_copunctal_points.py imports it. */
  const CORRECTED: Conversion := Conversion(ColorBlindness.XYZ_TO_LMS, ColorBlindness.LMS_TO_XYZ, false)

  /** `xyz_to_lms`: the checked module asserts non-negative tristimulus values. */
  function ToLms(conv: Conversion, xyz: Vec3): (r: Result<Vec3>)
    ensures r.Ok? <==> !conv.checked || xyz.NonNegative()
    ensures r.Err? ==> r.error == AssertionError
  {
    if conv.checked && !xyz.NonNegative() then Err(AssertionError) else Ok(Apply(conv.toLms, xyz))
  }

  /** `lms_to_xyz`: the checked module asserts every activation is in [0, 1]. */
  function ToXyz(conv: Conversion, lms: Vec3): (r: Result<Vec3>)
    ensures r.Ok? <==> !conv.checked || lms.InUnitCube()
    ensures r.Err? ==> r.error == AssertionError
  {
    if conv.checked && !lms.InUnitCube() then Err(AssertionError) else Ok(Apply(conv.toXyz, lms))
  }

  /** The two conversions are those of their modules. */
  lemma ConversionsOfModules(xyz: Vec3, lms: Vec3)
    ensures ToLms(AS_WRITTEN, xyz) == ColorConversion.XyzToLms(xyz, true)
    ensures ToXyz(AS_WRITTEN, lms) == ColorConversion.LmsToXyz(lms, true)
    ensures ToLms(CORRECTED, xyz) == Ok(ColorBlindness.XyzToLms(xyz))
    ensures ToXyz(CORRECTED, lms) == Ok(ColorBlindness.LmsToXyz(lms))
  {
  }

  /** What the downward walk relies on: X grows with the L-cone activation. */
  predicate Walkable(conv: Conversion)
  {
    conv.toXyz.r0.a > 0.0
  }

  /** Under either module `lms_to_xyz` undoes `xyz_to_lms`. */
  predicate RoundTrip(conv: Conversion, xyz: Vec3)
  {
    Apply(conv.toXyz, Apply(conv.toLms, xyz)) == xyz
  }

  lemma AsWrittenWalkable(xyz: Vec3)
    ensures Walkable(AS_WRITTEN) && RoundTrip(AS_WRITTEN, xyz)
  {
    Coefficients.XyzToLms2Undoes(xyz);
  }

  lemma CorrectedWalkable(xyz: Vec3)
    ensures Walkable(CORRECTED) && RoundTrip(CORRECTED, xyz)
  {
    ColorBlindness.LmsXyzRoundTrip(xyz);
    CorrectedRaisesX();
  }

  /** Under maths/color_blindness.py a pure L-cone activation has X = 0.45684 / (0.15514 * 0.99996). */
  lemma CorrectedRaisesX()
    ensures ColorBlindness.LMS_TO_XYZ.r0.a > 0.0
  {
  }

  /** `xyz_to_xyy` on the default sRGB display; its CRT matrix argument is
      not consulted for sRGB. */
  function Xyy(xyz: Vec3): Result<Vec3>
  {
    ColorConversion.XyzToXyy(xyz, ColorConversion.Srgb, Coefficients.SRGB_TO_XYZ_2)
  }

  /** The start of one row (lines 89-95): its tristimulus values, cone
      activation and chromoluminance. */
  datatype Start = Start(xyz: Vec3, lms: Vec3, first: Vec3)

  /** Every coefficient of the matrix is positive, as in the sRGB one. */
  predicate PositiveEntries(m: Mat3)
  {
    && 0.0 < m.r0.a && 0.0 < m.r0.b && 0.0 < m.r0.c
    && 0.0 < m.r1.a && 0.0 < m.r1.b && 0.0 < m.r1.c
    && 0.0 < m.r2.a && 0.0 < m.r2.b && 0.0 < m.r2.c
  }

  /** The start of a colour under the display matrix `rgbToXyz`. The script's
      colours are in the unit cube; `rgb_to_xyz` asserts so. */
  function StartOf(conv: Conversion, rgbToXyz: Mat3, color: Vec3): (r: Result<Start>)
    requires Walkable(conv) && PositiveEntries(rgbToXyz)
    ensures r.Ok? <==> color.InUnitCube()
    ensures r.Err? ==> r.error == AssertionError
    ensures r.Ok? ==> r.value.xyz == Apply(rgbToXyz, color) && r.value.lms == Apply(conv.toLms, r.value.xyz)
    ensures r.Ok? ==> Xyy(r.value.xyz) == Ok(r.value.first)
    ensures r.Ok? ==> r.value.xyz.NonNegative() && (color != Vec3(0.0, 0.0, 0.0) ==> r.value.xyz.Sum() > 0.0)
  {
    if !color.InUnitCube() then Err(AssertionError)
    else
      var xyz := Apply(rgbToXyz, color);
      DisplayColorsVisible(rgbToXyz, color);
      assert ToLms(conv, xyz).Ok?;
      assert Xyy(xyz).Ok?;
      Ok(Start(xyz, ToLms(conv, xyz).value, Xyy(xyz).value))
  }

  /** A colour of the unit cube other than black has non-negative tristimulus
      values of positive sum. */
  lemma DisplayColorsVisible(m: Mat3, color: Vec3)
    requires PositiveEntries(m) && color.InUnitCube()
    ensures Apply(m, color).NonNegative()
    ensures color != Vec3(0.0, 0.0, 0.0) ==> Apply(m, color).Sum() > 0.0
  {
    WeightedNonNegative(m.r0, color);
    WeightedNonNegative(m.r1, color);
    WeightedNonNegative(m.r2, color);
  }

  /** Positive weights of a non-negative vector give a non-negative sum,
      positive unless the vector is zero. */
  lemma WeightedNonNegative(w: Vec3, v: Vec3)
    requires 0.0 < w.a && 0.0 < w.b && 0.0 < w.c && v.NonNegative()
    ensures 0.0 <= Dot(w, v)
    ensures v != Vec3(0.0, 0.0, 0.0) ==> 0.0 < Dot(w, v)
  {
    Numerics.MulNonNegative(w.a, v.a);
    Numerics.MulNonNegative(w.b, v.b);
    Numerics.MulNonNegative(w.c, v.c);
    if v.a != 0.0 { assert 0.0 < w.a * v.a; }
    if v.b != 0.0 { assert 0.0 < w.b * v.b; }
    if v.c != 0.0 { assert 0.0 < w.c * v.c; }
  }

  /** The script's `rgb_to_xyz(*start_color)`: sRGB without gamma correction. */
  lemma SrgbStart(color: Vec3, pow: (real, real) -> real)
    requires color.InUnitCube()
    ensures ColorConversion.RgbToXyz(color, ColorConversion.Srgb, false, false, Coefficients.SRGB_TO_XYZ_2, pow)
         == Ok(ColorConversion.XyzResult(Apply(Coefficients.SRGB_TO_XYZ_2, color), false))
  {
  }

  lemma SrgbPositive()
    ensures PositiveEntries(Coefficients.SRGB_TO_XYZ_2)
  {
  }

  // ---------------------------------------------------------------------------
  // Walks

  /** What one step of a walk finds: a new chromoluminance, or a stop. */
  datatype Outcome = Reached(c: Vec3) | Stopped

  /** Step `k` >= 1 of the downward walk (lines 100-106): lower L, convert,
      stop once X is below MIN_X. */
  function DownStep(conv: Conversion, lms0: Vec3, k: nat): (r: Result<Outcome>)
    ensures r.Err? ==> r.error == AssertionError
  {
    var xyz :- ToXyz(conv, ConfusionLines.Shifted(lms0, -(k as int)));
    if xyz.a < MIN_X then Ok(Stopped)
    else
      var c :- Xyy(xyz);
      Ok(Reached(c))
  }

  /** Step `k` >= 1 of the upward walk (lines 110-116): raise L, stop once it
      is above MAX_L, otherwise convert. */
  function UpStep(conv: Conversion, lms0: Vec3, k: nat): (r: Result<Outcome>)
    ensures r.Err? ==> r.error == AssertionError
  {
    var lms := ConfusionLines.Shifted(lms0, k);
    if lms.a > MAX_L then Ok(Stopped)
    else
      var xyz :- ToXyz(conv, lms);
      var c :- Xyy(xyz);
      Ok(Reached(c))
  }

  /** The walk goes on to `c`, which is in range. */
  predicate Continues(o: Result<Outcome>, c: Vec3)
  {
    o == Ok(Reached(c)) && ConfusionLines.WithinWalk(c)
  }

  /** The walk ends here: a stop, or a point out of range. */
  predicate Halts(o: Result<Outcome>)
  {
    o.Ok? && (o.value.Stopped? || !ConfusionLines.WithinWalk(o.value.c))
  }

  /** `row` is the downward walk: nothing when the start is out of range,
      otherwise the start and the points of steps 1, 2, ... while they stay in
      range, up to the step that halts. */
  predicate Descent(conv: Conversion, first: Vec3, lms0: Vec3, row: seq<Vec3>)
  {
    if !ConfusionLines.WithinWalk(first) then row == []
    else
      && |row| > 0 && row[0] == first
      && (forall j :: 0 < j < |row| ==> Continues(DownStep(conv, lms0, j), row[j]))
      && Halts(DownStep(conv, lms0, |row|))
  }

  /** The same for the upward walk. */
  predicate Ascent(conv: Conversion, first: Vec3, lms0: Vec3, row: seq<Vec3>)
  {
    if !ConfusionLines.WithinWalk(first) then row == []
    else
      && |row| > 0 && row[0] == first
      && (forall j :: 0 < j < |row| ==> Continues(UpStep(conv, lms0, j), row[j]))
      && Halts(UpStep(conv, lms0, |row|))
  }

  /** The downward walk gets to step `n`, which raises. */
  predicate DownFailsAt(conv: Conversion, first: Vec3, lms0: Vec3, n: nat)
  {
    && ConfusionLines.WithinWalk(first) && 0 < n
    && (forall j :: 0 < j < n ==> DownStep(conv, lms0, j).Ok? && DownStep(conv, lms0, j).value.Reached?
                                   && ConfusionLines.WithinWalk(DownStep(conv, lms0, j).value.c))
    && DownStep(conv, lms0, n).Err?
  }

  predicate UpFailsAt(conv: Conversion, first: Vec3, lms0: Vec3, n: nat)
  {
    && ConfusionLines.WithinWalk(first) && 0 < n
    && (forall j :: 0 < j < n ==> UpStep(conv, lms0, j).Ok? && UpStep(conv, lms0, j).value.Reached?
                                   && ConfusionLines.WithinWalk(UpStep(conv, lms0, j).value.c))
    && UpStep(conv, lms0, n).Err?
  }

  /** An integer above every step count `k` with k * ACTIVATION_STEP * rate <= room. */
  function StepBound(room: real, rate: real): int
    requires rate > 0.0
  {
    if room < 0.0 then 1 else (room / (ConfusionLines.ACTIVATION_STEP * rate)).Floor + 1
  }

  lemma StepsBounded(room: real, rate: real, k: nat)
    requires rate > 0.0
    requires (k as real) * ConfusionLines.ACTIVATION_STEP * rate <= room
    ensures k < StepBound(room, rate)
  {
    var q := ConfusionLines.ACTIVATION_STEP * rate;
    assert (k as real) * q <= room;
    assert (k as real) <= room / q;
  }

  /** A step of the downward walk that lands leaves room below the start's X
      for its ACTIVATION_STEP decrements. */
  lemma DownStepBounded(conv: Conversion, lms0: Vec3, k: nat)
    requires conv.toXyz.r0.a > 0.0
    requires DownStep(conv, lms0, k).Ok? && DownStep(conv, lms0, k).value.Reached?
    ensures k < StepBound(Dot(conv.toXyz.r0, lms0) - MIN_X, conv.toXyz.r0.a)
  {
    var m := conv.toXyz;
    var x := Apply(m, ConfusionLines.Shifted(lms0, -(k as int))).a;
    assert x >= MIN_X;
    assert x == Dot(m.r0, lms0) - (k as real) * ConfusionLines.ACTIVATION_STEP * m.r0.a;
    StepsBounded(Dot(m.r0, lms0) - MIN_X, m.r0.a, k);
  }

  /** The downward walk (lines 96-106). It stops because each step lowers X
      by ACTIVATION_STEP times the matrix's positive L coefficient. */
  method WalkDown(conv: Conversion, first: Vec3, lms0: Vec3) returns (r: Result<seq<Vec3>>)
    requires Walkable(conv)
    ensures r.Ok? ==> Descent(conv, first, lms0, r.value)
    ensures r.Err? ==> r.error == AssertionError && exists n :: DownFailsAt(conv, first, lms0, n)
  {
    var m := conv.toXyz;
    ghost var bound := StepBound(Dot(m.r0, lms0) - MIN_X, m.r0.a);
    var c := first;
    var lms := lms0;
    var row: seq<Vec3> := [];
    var k: nat := 0;
    while ConfusionLines.WithinWalk(c)
      invariant |row| == k
      invariant lms == ConfusionLines.Shifted(lms0, -(k as int))
      invariant k == 0 ==> c == first
      invariant k > 0 ==> row[0] == first && ConfusionLines.WithinWalk(first)
      invariant k > 0 ==> DownStep(conv, lms0, k) == Ok(Reached(c))
      invariant forall j :: 0 < j < k ==> Continues(DownStep(conv, lms0, j), row[j])
      invariant k < bound
      decreases bound - k
    {
      row := row + [c];
      lms := Vec3(lms.a - ConfusionLines.ACTIVATION_STEP, lms.b, lms.c);
      k := k + 1;
      assert lms == ConfusionLines.Shifted(lms0, -(k as int));
      var xyz := ToXyz(conv, lms);
      if xyz.Err? {
        assert DownFailsAt(conv, first, lms0, k);
        return Err(AssertionError);
      }
      if xyz.value.a < MIN_X {
        break;
      }
      var next := Xyy(xyz.value);
      if next.Err? {
        assert DownFailsAt(conv, first, lms0, k);
        return Err(AssertionError);
      }
      c := next.value;
      DownStepBounded(conv, lms0, k);
    }
    return Ok(row);
  }

  /** A step of the upward walk that lands has L at most MAX_L. */
  lemma UpStepBounded(conv: Conversion, lms0: Vec3, k: nat)
    requires UpStep(conv, lms0, k).Ok? && UpStep(conv, lms0, k).value.Reached?
    ensures k < StepBound(MAX_L - lms0.a, 1.0)
  {
    assert lms0.a + (k as real) * ConfusionLines.ACTIVATION_STEP <= MAX_L;
    StepsBounded(MAX_L - lms0.a, 1.0, k);
  }

  /** The upward walk (lines 107-116). It stops because L rises by
      ACTIVATION_STEP a step and the walk ends above MAX_L. */
  method WalkUp(conv: Conversion, first: Vec3, lms0: Vec3) returns (r: Result<seq<Vec3>>)
    ensures r.Ok? ==> Ascent(conv, first, lms0, r.value)
    ensures r.Err? ==> r.error == AssertionError && exists n :: UpFailsAt(conv, first, lms0, n)
  {
    ghost var bound := StepBound(MAX_L - lms0.a, 1.0);
    var c := first;
    var lms := lms0;
    var row: seq<Vec3> := [];
    var k: nat := 0;
    while ConfusionLines.WithinWalk(c)
      invariant |row| == k
      invariant lms == ConfusionLines.Shifted(lms0, k)
      invariant k == 0 ==> c == first
      invariant k > 0 ==> row[0] == first && ConfusionLines.WithinWalk(first)
      invariant k > 0 ==> UpStep(conv, lms0, k) == Ok(Reached(c))
      invariant forall j :: 0 < j < k ==> Continues(UpStep(conv, lms0, j), row[j])
      invariant k < bound
      decreases bound - k
    {
      row := row + [c];
      lms := Vec3(lms.a + ConfusionLines.ACTIVATION_STEP, lms.b, lms.c);
      k := k + 1;
      assert lms == ConfusionLines.Shifted(lms0, k);
      if lms.a > MAX_L {
        break;
      }
      var xyz := ToXyz(conv, lms);
      if xyz.Err? {
        assert UpFailsAt(conv, first, lms0, k);
        return Err(AssertionError);
      }
      var next := Xyy(xyz.value);
      if next.Err? {
        assert UpFailsAt(conv, first, lms0, k);
        return Err(AssertionError);
      }
      c := next.value;
      UpStepBounded(conv, lms0, k);
    }
    return Ok(row);
  }

  // ---------------------------------------------------------------------------
  // Rows

  /** `row` is the row of a start: its two walks together, sorted by x. */
  ghost predicate IsRow(conv: Conversion, s: Start, row: seq<Vec3>)
  {
    exists down, up {:trigger Descent(conv, s.first, s.lms, down), Ascent(conv, s.first, s.lms, up)} ::
      && Descent(conv, s.first, s.lms, down) && Ascent(conv, s.first, s.lms, up)
      && Spectra.Ordered(row, ConfusionLines.ChromaticityX)
      && multiset(row) == multiset(down + up)
  }

  /** `row` is the row of the start colour `color`. */
  ghost predicate ColorRow(conv: Conversion, rgbToXyz: Mat3, color: Vec3, row: seq<Vec3>)
  {
    && Walkable(conv) && PositiveEntries(rgbToXyz) && StartOf(conv, rgbToXyz, color).Ok?
    && IsRow(conv, StartOf(conv, rgbToXyz, color).value, row)
  }

  /** One row (lines 89-123): both walks from the start, appended, then
      `sorted` by x. */
  method RowOf(conv: Conversion, rgbToXyz: Mat3, color: Vec3) returns (r: Result<seq<Vec3>>)
    requires Walkable(conv) && PositiveEntries(rgbToXyz)
    ensures r.Ok? ==> ColorRow(conv, rgbToXyz, color, r.value)
    ensures r.Err? ==> r.error == AssertionError
  {
    var start := StartOf(conv, rgbToXyz, color);
    if start.Err? {
      return Err(start.error);
    }
    var s := start.value;
    var down := WalkDown(conv, s.first, s.lms);
    if down.Err? {
      return Err(down.error);
    }
    var up := WalkUp(conv, s.first, s.lms);
    if up.Err? {
      return Err(up.error);
    }
    var row := Spectra.Sort(down.value + up.value, ConfusionLines.ChromaticityX);
    assert Descent(conv, s.first, s.lms, down.value) && Ascent(conv, s.first, s.lms, up.value);
    return Ok(row);
  }

  /** Every stored chromoluminance has 0 <= x <= 0.65. */
  lemma {:induction false} RowInRange(conv: Conversion, s: Start, row: seq<Vec3>)
    requires IsRow(conv, s, row)
    ensures forall c :: c in row ==> ConfusionLines.WithinWalk(c)
  {
    var down, up :| && Descent(conv, s.first, s.lms, down) && Ascent(conv, s.first, s.lms, up)
      && Spectra.Ordered(row, ConfusionLines.ChromaticityX) && multiset(row) == multiset(down + up);
    forall c | c in row
      ensures ConfusionLines.WithinWalk(c)
    {
      assert c in multiset(down + up);
      if c in down {
        var j :| 0 <= j < |down| && down[j] == c;
        if 0 < j {
          assert Continues(DownStep(conv, s.lms, j), down[j]);
        }
      } else {
        assert c in up;
        var j :| 0 <= j < |up| && up[j] == c;
        if 0 < j {
          assert Continues(UpStep(conv, s.lms, j), up[j]);
        }
      }
    }
  }

  /** Both walks store the start first, so a start in range is in the row twice. */
  lemma {:induction false} StartTwice(conv: Conversion, s: Start, row: seq<Vec3>)
    requires IsRow(conv, s, row)
    requires ConfusionLines.WithinWalk(s.first)
    ensures multiset(row)[s.first] >= 2
  {
    var down, up :| && Descent(conv, s.first, s.lms, down) && Ascent(conv, s.first, s.lms, up)
      && Spectra.Ordered(row, ConfusionLines.ChromaticityX) && multiset(row) == multiset(down + up);
    assert |down| > 0 && down[0] == s.first && |up| > 0 && up[0] == s.first;
    HeadsTwice(s.first, down, up);
  }

  lemma HeadsTwice(c: Vec3, down: seq<Vec3>, up: seq<Vec3>)
    requires |down| > 0 && down[0] == c && |up| > 0 && up[0] == c
    ensures multiset(down + up)[c] >= 2
  {
    assert down + up == [c] + (down[1..] + [c] + up[1..]);
    assert multiset(down + up) == multiset{c, c} + multiset(down[1..] + up[1..]);
  }

  /** `rows` holds the row of each of `colors`, in order. */
  ghost predicate RowsOf(conv: Conversion, rgbToXyz: Mat3, colors: seq<Vec3>, rows: seq<seq<Vec3>>)
  {
    |rows| == |colors| && forall j :: 0 <= j < |colors| ==> ColorRow(conv, rgbToXyz, colors[j], rows[j])
  }

  lemma RowsOfExtend(conv: Conversion, rgbToXyz: Mat3, colors: seq<Vec3>, rows: seq<seq<Vec3>>, row: seq<Vec3>)
    requires |rows| < |colors|
    requires RowsOf(conv, rgbToXyz, colors[..|rows|], rows)
    requires ColorRow(conv, rgbToXyz, colors[|rows|], row)
    ensures RowsOf(conv, rgbToXyz, colors[..|rows| + 1], rows + [row])
  {
    var n := |rows|;
    forall j | 0 <= j < n + 1
      ensures ColorRow(conv, rgbToXyz, colors[..n + 1][j], (rows + [row])[j])
    {
      if j < n {
        var c, rw := colors[..n][j], rows[j];
        assert ColorRow(conv, rgbToXyz, c, rw);
        assert colors[..n + 1][j] == c && (rows + [row])[j] == rw;
      } else {
        assert colors[..n + 1][j] == colors[n] && (rows + [row])[j] == row;
      }
    }
  }

  /** A row for each start colour (lines 82-123). */
  method Rows(conv: Conversion, rgbToXyz: Mat3, colors: seq<Vec3>) returns (r: Result<seq<seq<Vec3>>>)
    requires Walkable(conv) && PositiveEntries(rgbToXyz)
    ensures r.Ok? ==> RowsOf(conv, rgbToXyz, colors, r.value)
    ensures r.Err? ==> r.error == AssertionError
  {
    var rows: seq<seq<Vec3>> := [];
    for i := 0 to |colors|
      invariant |rows| == i
      invariant RowsOf(conv, rgbToXyz, colors[..i], rows)
    {
      var row := RowOf(conv, rgbToXyz, colors[i]);
      if row.Err? {
        return Err(row.error);
      }
      RowsOfExtend(conv, rgbToXyz, colors, rows, row.value);
      rows := rows + [row.value];
    }
    assert colors[..|colors|] == colors;
    return Ok(rows);
  }

  // ---------------------------------------------------------------------------
  // Copunctal point

  /** `triplet[0:2]`: the chromaticity of a chromoluminance. */
  function XY(c: Vec3): Point
  {
    Point(c.a, c.b)
  }

  /** The segment from a row's first entry to its last. */
  function RowSegment(row: seq<Vec3>): ConfusionLines.Segment
    requires |row| > 0
  {
    ConfusionLines.Segment(XY(row[0]), XY(row[|row| - 1]))
  }

  /** The estimates loop (lines 126-137): each row's segment met with the
      previous row's. An empty row has no first entry: IndexError. */
  method Intersections(rows: seq<seq<Vec3>>) returns (r: Result<seq<Intersection>>)
    ensures r.Ok? <==> |rows| <= 1 || forall i :: 0 <= i < |rows| ==> |rows[i]| > 0
    ensures r.Err? ==> r.error == IndexError
    ensures r.Ok? ==> |r.value| == (if |rows| == 0 then 0 else |rows| - 1)
    ensures r.Ok? ==> forall i :: 0 <= i < |r.value| ==>
      r.value[i] == ConfusionLines.Meeting(RowSegment(rows[i + 1]), RowSegment(rows[i]))
  {
    var estimates: seq<Intersection> := [];
    for index := 0 to |rows|
      invariant |estimates| == if index == 0 then 0 else index - 1
      invariant index > 1 ==> forall i :: 0 <= i < index ==> |rows[i]| > 0
      invariant forall i :: 0 <= i < |estimates| ==>
        estimates[i] == ConfusionLines.Meeting(RowSegment(rows[i + 1]), RowSegment(rows[i]))
    {
      if index == 0 {
        continue;
      }
      if |rows[index]| == 0 || |rows[index - 1]| == 0 {
        return Err(IndexError);
      }
      estimates := estimates + [ConfusionLines.Meeting(RowSegment(rows[index]), RowSegment(rows[index - 1]))];
    }
    return Ok(estimates);
  }

  /** The rows, their intersections and the copunctal point, their mean. */
  datatype Estimate = Estimate(rows: seq<seq<Vec3>>, intersections: seq<Intersection>, copunctal: Option<Point>)

  ghost predicate Estimated(conv: Conversion, e: Estimate)
  {
    && Walkable(conv)
    && RowsOf(conv, Coefficients.SRGB_TO_XYZ_2, START_COLORS, e.rows)
    && (forall i :: 0 <= i < |e.rows| ==> |e.rows[i]| > 0)
    && |e.intersections| == |e.rows| - 1
    && (forall i :: 0 <= i < |e.intersections| ==>
          e.intersections[i] == ConfusionLines.Meeting(RowSegment(e.rows[i + 1]), RowSegment(e.rows[i])))
    && e.copunctal == ConfusionLines.MeanPoint(e.intersections)
  }

  /** The whole script (lines 82-138): `mean(intersections, axis = 0)`.
      IndexError when a row is empty. */
  method EstimateCopunctal(conv: Conversion) returns (r: Result<Estimate>)
    requires Walkable(conv)
    ensures r.Ok? ==> Estimated(conv, r.value)
    ensures r.Err? ==> r.error == AssertionError || r.error == IndexError
  {
    SrgbPositive();
    var rows :- Rows(conv, Coefficients.SRGB_TO_XYZ_2, START_COLORS);
    var intersections :- Intersections(rows);
    return Ok(Estimate(rows, intersections, ConfusionLines.MeanPoint(intersections)));
  }

  // ---------------------------------------------------------------------------
  // As written: the first downward step raises

  /** Under the script's conversions Z = 0.00801 S. */
  lemma AsWrittenShort(lms: Vec3, xyz: Vec3)
    requires Apply(Coefficients.LMS_TO_XYZ_2, lms) == xyz
    ensures 0.00801 * lms.c == xyz.c
  {
  }

  /** A checked conversion whose S activation starts above 1 raises at the
      first downward step, which lowers only L. */
  lemma CheckedFirstStepRaises(conv: Conversion, lms: Vec3)
    requires conv.checked && lms.c > 1.0
    ensures DownStep(conv, lms, 1).Err?
  {
    assert !ConfusionLines.Shifted(lms, -1).InUnitCube();
  }

  /** The first start colour (0.5, 0.5, 0.25) has tristimulus values
      (0.430125, 0.48195, 0.306875) and chromaticity x = 0.430125 / 1.21895,
      inside the walk's range. */
  lemma FirstStartInRange()
    ensures Apply(Coefficients.SRGB_TO_XYZ_2, START_COLORS[0]) == Vec3(0.430125, 0.48195, 0.306875)
    ensures Xyy(Vec3(0.430125, 0.48195, 0.306875)).Ok?
    ensures ConfusionLines.WithinWalk(Xyy(Vec3(0.430125, 0.48195, 0.306875)).value)
  {
    var xyz := Vec3(0.430125, 0.48195, 0.306875);
    assert xyz.Sum() == 1.21895;
    assert Xyy(xyz).value.a * 1.21895 == 0.430125;
  }

  /** What makes the downward walk of `color` raise at once: a checked
      `lms_to_xyz` whose S row is that of the script's matrix, and a start
      whose Z is above that row's coefficient, so that S > 1. */
  predicate RaisesAtOnce(conv: Conversion, m: Mat3, color: Vec3)
  {
    && Walkable(conv) && conv.checked && PositiveEntries(m) && color.InUnitCube()
    && conv.toXyz.r2 == Vec3(0.0, 0.0, 0.00801)
    && Apply(m, color).c > 0.00801
  }

  lemma {:induction false} CheckedStartRaises(conv: Conversion, m: Mat3, color: Vec3)
    requires RaisesAtOnce(conv, m, color) && RoundTrip(conv, Apply(m, color))
    ensures StartOf(conv, m, color).Ok?
    ensures DownStep(conv, StartOf(conv, m, color).value.lms, 1).Err?
  {
    var s := StartOf(conv, m, color).value;
    assert Apply(conv.toXyz, s.lms).c == 0.00801 * s.lms.c;
    CheckedFirstStepRaises(conv, s.lms);
  }

  /** Under the script's own conversions the first start colour is in range,
      but its S activation is Z / 0.00801, about 38, so the first
      `lms_to_xyz` of the downward walk fails its assertion that S <= 1. */
  lemma AsWrittenFirstStepRaises()
    ensures var s := StartOf(AS_WRITTEN, Coefficients.SRGB_TO_XYZ_2, START_COLORS[0]);
      && s.Ok? && ConfusionLines.WithinWalk(s.value.first)
      && DownStep(AS_WRITTEN, s.value.lms, 1).Err?
  {
    AsWrittenFirstStart();
    AsWrittenFirstRoundTrip();
    CheckedStartRaises(AS_WRITTEN, Coefficients.SRGB_TO_XYZ_2, START_COLORS[0]);
    FirstStartInRange();
  }

  lemma AsWrittenFirstStart()
    ensures RaisesAtOnce(AS_WRITTEN, Coefficients.SRGB_TO_XYZ_2, START_COLORS[0])
  {
    assert PositiveEntries(Coefficients.SRGB_TO_XYZ_2) by { SrgbPositive(); }
    assert Apply(Coefficients.SRGB_TO_XYZ_2, START_COLORS[0]).c > 0.00801 by { FirstStartInRange(); }
  }

  lemma AsWrittenFirstRoundTrip()
    ensures RoundTrip(AS_WRITTEN, Apply(Coefficients.SRGB_TO_XYZ_2, START_COLORS[0]))
  {
    AsWrittenWalkable(Apply(Coefficients.SRGB_TO_XYZ_2, START_COLORS[0]));
  }

  /** A downward walk whose first step raises has no result. */
  lemma DescentNeedsFirstStep(conv: Conversion, first: Vec3, lms0: Vec3, row: seq<Vec3>)
    requires ConfusionLines.WithinWalk(first) && DownStep(conv, lms0, 1).Err?
    ensures !Descent(conv, first, lms0, row)
  {
  }

  /** So the script as written never gets to a copunctal point: every run of
      EstimateCopunctal(AS_WRITTEN) ends in an error. */
  lemma AsWrittenNeverEstimates(e: Estimate)
    ensures !Estimated(AS_WRITTEN, e)
  {
    if Estimated(AS_WRITTEN, e) {
      AsWrittenFirstStepRaises();
      var s := StartOf(AS_WRITTEN, Coefficients.SRGB_TO_XYZ_2, START_COLORS[0]).value;
      assert ColorRow(AS_WRITTEN, Coefficients.SRGB_TO_XYZ_2, START_COLORS[0], e.rows[0]);
      var down, up :| && Descent(AS_WRITTEN, s.first, s.lms, down) && Ascent(AS_WRITTEN, s.first, s.lms, up)
        && Spectra.Ordered(e.rows[0], ConfusionLines.ChromaticityX) && multiset(e.rows[0]) == multiset(down + up);
      DescentNeedsFirstStep(AS_WRITTEN, s.first, s.lms, down);
    }
  }

  // ---------------------------------------------------------------------------
  // Corrected: the rows meet at the chromaticity of a pure L-cone activation

  /** The tristimulus values of a unit L-cone activation: column 0. */
  function LDirection(m: Mat3): Vec3
  {
    Vec3(m.r0.a, m.r1.a, m.r2.a)
  }

  /** The chromaticity (x, y) of tristimulus values with a non-zero sum. */
  function Chromaticity(v: Vec3): Point
    requires v.Sum() != 0.0
  {
    Point(v.a / v.Sum(), v.b / v.Sum())
  }

  /** `v0` moved `t` times along `w`. */
  function Along(v0: Vec3, w: Vec3, t: real): Vec3
  {
    Vec3(v0.a + t * w.a, v0.b + t * w.b, v0.c + t * w.c)
  }

  /** The point `t` times `d` away from `q`. */
  function RayPoint(q: Point, d: Point, t: real): Point
  {
    Point(q.x + t * d.x, q.y + t * d.y)
  }

  /** The direction in which the chromaticities along `w` lie from `w`'s own. */
  function Offset(v0: Vec3, w: Vec3): Point
  {
    Point(v0.a * w.Sum() - w.a * v0.Sum(), v0.b * w.Sum() - w.b * v0.Sum())
  }

  ghost predicate OnRay(p: Point, q: Point, d: Point)
  {
    exists t :: p == RayPoint(q, d, t)
  }

  /** A step of ACTIVATION_STEP in L moves the tristimulus values along column 0. */
  lemma ShiftedAlong(m: Mat3, lms: Vec3, k: int)
    ensures Apply(m, ConfusionLines.Shifted(lms, k))
         == Along(Apply(m, lms), LDirection(m), (k as real) * ConfusionLines.ACTIVATION_STEP)
  {
  }

  lemma QuotientDifference(p: real, s: real, q: real, r: real)
    requires s != 0.0 && r != 0.0
    ensures p / s == q / r + (p * r - q * s) * (1.0 / (s * r))
  {
    assert p / s == (p * r) / (s * r);
    assert q / r == (q * s) / (s * r);
  }

  /** Central projection: the chromaticities of v0 + t w all lie on one ray
      from the chromaticity of w, in a direction not depending on t. */
  lemma ChromaticityAlong(v0: Vec3, w: Vec3, t: real)
    requires Along(v0, w, t).Sum() != 0.0 && w.Sum() != 0.0
    ensures Chromaticity(Along(v0, w, t))
         == RayPoint(Chromaticity(w), Offset(v0, w), 1.0 / (Along(v0, w, t).Sum() * w.Sum()))
  {
    var v := Along(v0, w, t);
    var s, ws := v.Sum(), w.Sum();
    assert s == v0.Sum() + t * ws;
    QuotientDifference(v.a, s, w.a, ws);
    QuotientDifference(v.b, s, w.b, ws);
    assert v.a * ws - w.a * s == Offset(v0, w).x;
    assert v.b * ws - w.b * s == Offset(v0, w).y;
  }

  /** A stored chromoluminance of visible tristimulus values on the line lies
      on the ray. */
  lemma StoredOnRay(v0: Vec3, w: Vec3, t: real, c: Vec3)
    requires w.Sum() != 0.0 && Along(v0, w, t).Sum() > 0.0
    requires Xyy(Along(v0, w, t)) == Ok(c)
    ensures OnRay(XY(c), Chromaticity(w), Offset(v0, w))
  {
    var v := Along(v0, w, t);
    ChromaticityAlong(v0, w, t);
    assert XY(c) == Chromaticity(v);
    assert XY(c) == RayPoint(Chromaticity(w), Offset(v0, w), 1.0 / (v.Sum() * w.Sum()));
  }

  lemma ProductSwap(a: real, b: real, c: real, d: real)
    ensures (a * b) * (c * d) == (a * c) * (b * d)
  {
  }

  lemma MulCongruence(u: real, v: real, x: real, y: real)
    requires u == x && v == y
    ensures u * v == x * y
  {
  }

  /** Any two points of a ray are on a line through its origin. */
  lemma RayOnLine(q: Point, d: Point, p1: Point, p2: Point)
    requires OnRay(p1, q, d) && OnRay(p2, q, d)
    ensures OnLine(q, p1, p2)
  {
    var t1 :| p1 == RayPoint(q, d, t1);
    var t2 :| p2 == RayPoint(q, d, t2);
    RayCollinear(q, d, p1, p2, t1, t2);
  }

  lemma RayCollinear(q: Point, d: Point, p1: Point, p2: Point, t1: real, t2: real)
    requires p1 == RayPoint(q, d, t1) && p2 == RayPoint(q, d, t2)
    ensures OnLine(q, p1, p2)
  {
    var a, b := -t1, t2 - t1;
    assert p1.x == q.x + t1 * d.x && p1.y == q.y + t1 * d.y;
    assert p2.x == q.x + t2 * d.x && p2.y == q.y + t2 * d.y;
    assert q.x - p1.x == a * d.x && q.y - p1.y == a * d.y;
    assert p2.y - p1.y == b * d.y && p2.x - p1.x == b * d.x;
    MulCongruence(q.x - p1.x, p2.y - p1.y, a * d.x, b * d.y);
    MulCongruence(q.y - p1.y, p2.x - p1.x, a * d.y, b * d.x);
    ProductSwap(a, d.x, b, d.y);
    ProductSwap(a, d.y, b, d.x);
  }

  /** What the ray argument needs of a conversion and a start. */
  predicate Projective(conv: Conversion, s: Start)
  {
    && LDirection(conv.toXyz).Sum() > 0.0
    && s.xyz.Sum() > 0.0
    && Apply(conv.toXyz, s.lms) == s.xyz
    && Xyy(s.xyz) == Ok(s.first)
  }

  /** The ray of a start: from the chromaticity of a pure L-cone activation
      through the start's own. */
  ghost predicate OnStartRay(conv: Conversion, s: Start, c: Vec3)
  {
    LDirection(conv.toXyz).Sum() != 0.0
    && OnRay(XY(c), Chromaticity(LDirection(conv.toXyz)), Offset(s.xyz, LDirection(conv.toXyz)))
  }

  lemma StartOnRay(conv: Conversion, s: Start)
    requires Projective(conv, s)
    ensures OnStartRay(conv, s, s.first)
  {
    var w := LDirection(conv.toXyz);
    assert Along(s.xyz, w, 0.0) == s.xyz;
    StoredOnRay(s.xyz, w, 0.0, s.first);
  }

  lemma DownOnRay(conv: Conversion, s: Start, j: nat, c: Vec3)
    requires Projective(conv, s) && Continues(DownStep(conv, s.lms, j), c)
    ensures OnStartRay(conv, s, c)
  {
    var w := LDirection(conv.toXyz);
    var t := (-(j as int) as real) * ConfusionLines.ACTIVATION_STEP;
    ShiftedAlong(conv.toXyz, s.lms, -(j as int));
    var v := Along(s.xyz, w, t);
    assert ToXyz(conv, ConfusionLines.Shifted(s.lms, -(j as int))).value == v;
    assert v.a >= MIN_X && Xyy(v) == Ok(c);
    assert v.NonNegative();
    StoredOnRay(s.xyz, w, t, c);
  }

  lemma UpOnRay(conv: Conversion, s: Start, j: nat, c: Vec3)
    requires Projective(conv, s) && Continues(UpStep(conv, s.lms, j), c)
    ensures OnStartRay(conv, s, c)
  {
    var w := LDirection(conv.toXyz);
    var t := (j as real) * ConfusionLines.ACTIVATION_STEP;
    ShiftedAlong(conv.toXyz, s.lms, j);
    var v := Along(s.xyz, w, t);
    assert ToXyz(conv, ConfusionLines.Shifted(s.lms, j)).value == v;
    assert Xyy(v) == Ok(c);
    UpSumPositive(s.xyz, w, t);
    StoredOnRay(s.xyz, w, t, c);
  }

  lemma UpSumPositive(v0: Vec3, w: Vec3, t: real)
    requires v0.Sum() > 0.0 && w.Sum() > 0.0 && t >= 0.0
    ensures Along(v0, w, t).Sum() > 0.0
  {
    assert Along(v0, w, t).Sum() == v0.Sum() + t * w.Sum();
  }

  /** Every entry of a row lies on the ray from the chromaticity of a pure
      L-cone activation through the start. */
  lemma {:induction false} RowOnRay(conv: Conversion, s: Start, row: seq<Vec3>, c: Vec3)
    requires Projective(conv, s) && IsRow(conv, s, row) && c in row
    ensures OnStartRay(conv, s, c)
  {
    var down, up :| && Descent(conv, s.first, s.lms, down) && Ascent(conv, s.first, s.lms, up)
      && Spectra.Ordered(row, ConfusionLines.ChromaticityX) && multiset(row) == multiset(down + up);
    assert c in multiset(down + up);
    if c == s.first {
      StartOnRay(conv, s);
    } else if c in down {
      var j :| 0 <= j < |down| && down[j] == c;
      DownOnRay(conv, s, j, c);
    } else {
      var j :| 0 <= j < |up| && up[j] == c;
      UpOnRay(conv, s, j, c);
    }
  }

  /** So each row's first-to-last segment runs through that chromaticity. */
  lemma SegmentThroughCopunctal(conv: Conversion, s: Start, row: seq<Vec3>)
    requires Projective(conv, s) && IsRow(conv, s, row) && |row| > 0
    ensures OnLine(Chromaticity(LDirection(conv.toXyz)), RowSegment(row).from, RowSegment(row).to)
  {
    RowOnRay(conv, s, row, row[0]);
    RowOnRay(conv, s, row, row[|row| - 1]);
    var w := LDirection(conv.toXyz);
    RayOnLine(Chromaticity(w), Offset(s.xyz, w), XY(row[0]), XY(row[|row| - 1]));
  }

  /** Each start colour of the script, converted and converted back, is itself. */
  ghost predicate StartsRoundTrip(conv: Conversion)
  {
    forall j :: 0 <= j < |START_COLORS| ==> RoundTrip(conv, Apply(Coefficients.SRGB_TO_XYZ_2, START_COLORS[j]))
  }

  /** The row of a colour other than black runs through the chromaticity of
      a pure L-cone activation. */
  lemma RowThroughColor(conv: Conversion, m: Mat3, color: Vec3, row: seq<Vec3>)
    requires ColorRow(conv, m, color, row) && |row| > 0 && color != Vec3(0.0, 0.0, 0.0)
    requires RoundTrip(conv, Apply(m, color)) && LDirection(conv.toXyz).Sum() > 0.0
    ensures OnLine(Chromaticity(LDirection(conv.toXyz)), RowSegment(row).from, RowSegment(row).to)
  {
    var s := StartOf(conv, m, color).value;
    assert Projective(conv, s);
    SegmentThroughCopunctal(conv, s, row);
  }

  /** No start colour is black: each has red 0.5. */
  lemma StartColorRed(j: nat)
    requires j < |START_COLORS|
    ensures START_COLORS[j].a == 0.5
  {
  }

  /** So does row `j` of an estimate. */
  lemma RowThroughDirection(conv: Conversion, e: Estimate, j: nat)
    requires Estimated(conv, e) && StartsRoundTrip(conv) && LDirection(conv.toXyz).Sum() > 0.0
    requires j < |e.rows|
    ensures OnLine(Chromaticity(LDirection(conv.toXyz)), RowSegment(e.rows[j]).from, RowSegment(e.rows[j]).to)
  {
    assert ColorRow(conv, Coefficients.SRGB_TO_XYZ_2, START_COLORS[j], e.rows[j]);
    StartColorRed(j);
    RowThroughColor(conv, Coefficients.SRGB_TO_XYZ_2, START_COLORS[j], e.rows[j]);
  }

  /** When every pair of consecutive rows meets, every meeting point is the
      chromaticity of a pure L-cone activation, and so is their mean. */
  lemma {:induction false} EstimateAtDirection(conv: Conversion, e: Estimate)
    requires Estimated(conv, e) && ConfusionLines.AllMeet(e.intersections)
    requires StartsRoundTrip(conv) && LDirection(conv.toXyz).Sum() > 0.0
    ensures e.copunctal == Some(Chromaticity(LDirection(conv.toXyz)))
  {
    var q := Chromaticity(LDirection(conv.toXyz));
    forall i | 0 <= i < |e.intersections|
      ensures e.intersections[i] == Meet(q)
    {
      RowThroughDirection(conv, e, i + 1);
      RowThroughDirection(conv, e, i);
      var a, b := RowSegment(e.rows[i + 1]), RowSegment(e.rows[i]);
      MeetIsUnique(a.from, a.to, b.from, b.to, q);
    }
    ConfusionLines.MeanOfEqual(e.intersections, q);
  }

  /** The protan copunctal point: the chromaticity of a pure L-cone
      activation under maths/color_blindness.py. */
  const PROTAN_COPUNCTAL: Point := Point(0.45684 / 0.61198, 0.15514 / 0.61198)

  /** Column 0 of `lms_to_xyz` is 1 / det times the cross product of the last
      two rows of `xyz_to_lms`, (0.45684, 0.15514, 0) * 0.00801. */
  lemma ProtanDirection()
    ensures LDirection(ColorBlindness.LMS_TO_XYZ).Sum() > 0.0
    ensures Chromaticity(LDirection(ColorBlindness.LMS_TO_XYZ)) == PROTAN_COPUNCTAL
  {
  }

  lemma CorrectedStartsRoundTrip()
    ensures StartsRoundTrip(CORRECTED)
  {
    forall j | 0 <= j < |START_COLORS|
      ensures RoundTrip(CORRECTED, Apply(Coefficients.SRGB_TO_XYZ_2, START_COLORS[j]))
    {
      CorrectedWalkable(Apply(Coefficients.SRGB_TO_XYZ_2, START_COLORS[j]));
    }
  }

  /** With the conversions of maths/color_blindness.py every row is a line
      through PROTAN_COPUNCTAL, so whenever consecutive rows meet the
      script's estimate is that point. */
  lemma CorrectedCopunctal(e: Estimate)
    requires Estimated(CORRECTED, e) && ConfusionLines.AllMeet(e.intersections)
    ensures e.copunctal == Some(PROTAN_COPUNCTAL)
  {
    CorrectedStartsRoundTrip();
    ProtanDirection();
    EstimateAtDirection(CORRECTED, e);
  }

  /** That point is the long-wavelength copunctal point the figures use, to
      within 0.001. */
  lemma ProtanNearCenter()
    ensures var c := ChromaticityConversion.CenterPoint(ChromaticityConversion.Long);
      && -0.001 < PROTAN_COPUNCTAL.x - c.x < 0.001 && -0.001 < PROTAN_COPUNCTAL.y - c.y < 0.001
  {
    assert PROTAN_COPUNCTAL.x * 0.61198 == 0.45684;
    assert PROTAN_COPUNCTAL.y * 0.61198 == 0.15514;
  }
}
