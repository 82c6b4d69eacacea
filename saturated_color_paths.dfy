/** maths/saturated_color_paths.py: the variant of the coloration builders that
    works from a caller-chosen RGB -> XYZ matrix instead of a named display.
    Its centre is `gamut_series`, a trace of saturated colours (one channel 1,
    one channel 0) around the edges of the RGB cube that the gamut triangle's
    boundary is made of; the other builders fill the inside of the triangle,
    the space between it and the spectrum locus, a spectrum band and the
    saturation surfaces of the cube. */
module SaturatedColorPaths {
  import opened Wrappers
  import opened LinearAlgebra
  import opened Numerics
  import opened Functions
  import opened RgbCieConversions
  import opened Grids
  import Spectra
  import Coefficients
  import CC = ChromaticityConversion

  /** The default resolution. */
  const RESOLUTION: int := 16

  /** The file's sRGB matrix; it has the numbers of the 2-degree sRGB matrix
      of maths/conversion_coefficients.py. */
  const SRGB_TO_XYZ: Mat3 := Coefficients.SRGB_TO_XYZ_2

  // ---------------------------------------------------------------------------
  // The RGB trace of `gamut_series`

  /** `[value] * count`. */
  function Repeat(value: real, count: nat): (r: seq<real>)
    ensures |r| == count && forall i :: 0 <= i < count ==> r[i] == value
  {
    seq(count, (_: int) => value)
  }

  /** `linspace(0, 1, n)` and `linspace(1, 0, n)`. */
  function Up(n: nat): (r: seq<real>)
    ensures |r| == n
  {
    Linspace(0.0, 1.0, n)
  }

  function Down(n: nat): (r: seq<real>)
    ensures |r| == n
  {
    Linspace(1.0, 0.0, n)
  }

  /** The red list: red to yellow, yellow to green, green to cyan, cyan to
      blue, blue to magenta, magenta to red, each part after the first without
      its repeated first value. */
  function RedChannel(n: nat): (r: seq<real>)
    requires 1 <= n
    ensures |r| == 6 * n - 5
  {
    Repeat(1.0, n) + Down(n)[1..] + Repeat(0.0, n - 1) + Repeat(0.0, n - 1) + Up(n)[1..] + Repeat(1.0, n - 1)
  }

  function GreenChannel(n: nat): (r: seq<real>)
    requires 1 <= n
    ensures |r| == 6 * n - 5
  {
    Up(n) + Repeat(1.0, n - 1) + Repeat(1.0, n - 1) + Down(n)[1..] + Repeat(0.0, n - 1) + Repeat(0.0, n - 1)
  }

  function BlueChannel(n: nat): (r: seq<real>)
    requires 1 <= n
    ensures |r| == 6 * n - 5
  {
    Repeat(0.0, n) + Repeat(0.0, n - 1) + Up(n)[1..] + Repeat(1.0, n - 1) + Repeat(1.0, n - 1) + Down(n)[1..]
  }

  /** `transpose` of the three channel lists, before any entry is dropped: it
      runs from red all the way round back to red. */
  function FullTrace(n: nat): (r: seq<Vec3>)
    requires 1 <= n
    ensures |r| == 6 * n - 5
    ensures forall i :: 0 <= i < |r| ==> r[i] == Vec3(RedChannel(n)[i], GreenChannel(n)[i], BlueChannel(n)[i])
  {
    var (red, green, blue) := (RedChannel(n), GreenChannel(n), BlueChannel(n));
    seq(6 * n - 5, (i: int) requires 0 <= i < 6 * n - 5 => Vec3(red[i], green[i], blue[i]))
  }

  /** The trace as the source writes it: `[0:-2]` drops the last two entries. */
  function GamutTraceAsWritten(n: nat): (r: seq<Vec3>)
    requires 2 <= n
    ensures |r| == 6 * n - 7
    ensures forall i :: 0 <= i < |r| ==> r[i] == FullTrace(n)[i]
  {
    FullTrace(n)[..6 * n - 7]
  }

  /** The trace the comment beside the slice describes: only the repeated red
      at the end is removed (`[0:-1]`). The rest of this module uses it. */
  function GamutTrace(n: nat): (r: seq<Vec3>)
    requires 2 <= n
    ensures |r| == 6 * n - 6
    ensures forall i :: 0 <= i < |r| ==> r[i] == FullTrace(n)[i]
  {
    FullTrace(n)[..6 * n - 6]
  }

  // ---------------------------------------------------------------------------
  // The hexagon the trace walks

  /** Point k of the n - 1 steps along edge s of the cube's hexagon of
      saturated colours red, yellow, green, cyan, blue, magenta: k = 0 is the
      edge's first corner and k = n - 1 its last. */
  function EdgePoint(n: nat, s: nat, k: nat): Vec3
    requires 2 <= n && s < 6 && k < n
  {
    var (u, d) := (Up(n)[k], Down(n)[k]);
    if s == 0 then Vec3(1.0, u, 0.0)
    else if s == 1 then Vec3(d, 1.0, 0.0)
    else if s == 2 then Vec3(0.0, 1.0, u)
    else if s == 3 then Vec3(0.0, d, 1.0)
    else if s == 4 then Vec3(u, 0.0, 1.0)
    else Vec3(1.0, 0.0, d)
  }

  const RED: Vec3 := Vec3(1.0, 0.0, 0.0)

  /** Grid values: both lists run between 0 and 1, `Down` mirrors `Up`, and
      consecutive values are one step 1 / (n - 1) apart. */
  lemma GridValues(n: nat, k: nat)
    requires 2 <= n && k < n
    ensures 0.0 <= Up(n)[k] <= 1.0 && Down(n)[k] == 1.0 - Up(n)[k]
    ensures Up(n)[0] == 0.0 && Up(n)[n - 1] == 1.0
    ensures k + 1 < n ==> Up(n)[k + 1] - Up(n)[k] == 1.0 / ((n - 1) as real)
  {
    LinspaceWithin(0.0, 1.0, n, k);
  }

  /** The last point of each edge is the first point of the next, and the
      last edge ends at red. */
  lemma {:induction false} EdgesJoin(n: nat, s: nat)
    requires 2 <= n && s < 6
    ensures s < 5 ==> EdgePoint(n, s, n - 1) == EdgePoint(n, s + 1, 0)
    ensures s == 5 ==> EdgePoint(n, s, n - 1) == RED && EdgePoint(n, 0, 0) == RED
  {
    GridValues(n, n - 1);
    GridValues(n, 0);
  }

  /** The full trace walks the hexagon: entry s (n - 1) + k is point k of edge
      s, and the final entry is red again. */
  lemma {:induction false} FullTraceWalksHexagon(n: nat, s: nat, k: nat)
    requires 2 <= n && s < 6 && k < n - 1
    ensures FullTrace(n)[s * (n - 1) + k] == EdgePoint(n, s, k)
    ensures FullTrace(n)[6 * (n - 1)] == RED
  {
    GridValues(n, n - 1);
    GridValues(n, k);
    RedWalks(n, s, k);
    GreenWalks(n, s, k);
    BlueWalks(n, s, k);
  }

  /** Channel by channel: the red list along the hexagon. */
  lemma {:induction false} RedWalks(n: nat, s: nat, k: nat)
    requires 2 <= n && s < 6 && k < n - 1
    ensures RedChannel(n)[s * (n - 1) + k] == EdgePoint(n, s, k).a
    ensures RedChannel(n)[6 * (n - 1)] == 1.0
  {
    var (m, red) := (n - 1, RedChannel(n));
    GridValues(n, k);
    GridValues(n, m);
    if s == 0 {
      assert red[k] == 1.0;
    } else if s == 1 {
      assert red[m + k] == Down(n)[k];
    } else if s == 2 {
      assert red[2 * m + k] == 0.0;
    } else if s == 3 {
      assert red[3 * m + k] == 0.0;
    } else if s == 4 {
      assert red[4 * m + k] == Up(n)[k];
    } else {
      assert red[5 * m + k] == 1.0;
    }
  }

  lemma {:induction false} GreenWalks(n: nat, s: nat, k: nat)
    requires 2 <= n && s < 6 && k < n - 1
    ensures GreenChannel(n)[s * (n - 1) + k] == EdgePoint(n, s, k).b
    ensures GreenChannel(n)[6 * (n - 1)] == 0.0
  {
    var (m, green) := (n - 1, GreenChannel(n));
    GridValues(n, k);
    GridValues(n, m);
    if s == 0 {
      assert green[k] == Up(n)[k];
    } else if s == 1 {
      assert green[m + k] == 1.0;
    } else if s == 2 {
      assert green[2 * m + k] == 1.0;
    } else if s == 3 {
      assert green[3 * m + k] == Down(n)[k];
    } else if s == 4 {
      assert green[4 * m + k] == 0.0;
    } else {
      assert green[5 * m + k] == 0.0;
    }
  }

  lemma {:induction false} BlueWalks(n: nat, s: nat, k: nat)
    requires 2 <= n && s < 6 && k < n - 1
    ensures BlueChannel(n)[s * (n - 1) + k] == EdgePoint(n, s, k).c
    ensures BlueChannel(n)[6 * (n - 1)] == 0.0
  {
    var (m, blue) := (n - 1, BlueChannel(n));
    GridValues(n, k);
    GridValues(n, m);
    assert blue[6 * m] == Down(n)[m];
    if s == 0 {
      assert blue[k] == 0.0;
    } else if s == 1 {
      assert blue[m + k] == 0.0;
    } else if s == 2 {
      assert blue[2 * m + k] == Up(n)[k];
    } else if s == 3 {
      assert blue[3 * m + k] == 1.0;
    } else if s == 4 {
      assert blue[4 * m + k] == 1.0;
    } else {
      assert blue[5 * m + k] == Down(n)[k];
    }
  }

  // ---------------------------------------------------------------------------
  // Properties of the trace

  /** A saturated colour: in the unit cube, with some channel at 1 and some at 0. */
  predicate Saturated(c: Vec3)
  {
    && c.InUnitCube()
    && (c.a == 1.0 || c.b == 1.0 || c.c == 1.0)
    && (c.a == 0.0 || c.b == 0.0 || c.c == 0.0)
  }

  /** x and y are d apart. */
  predicate Apart(x: real, y: real, d: real)
  {
    x - y == d || y - x == d
  }

  /** b is one step of size d from a: one channel moved by d, the others kept. */
  predicate OneStep(a: Vec3, b: Vec3, d: real)
  {
    || (Apart(a.a, b.a, d) && a.b == b.b && a.c == b.c)
    || (a.a == b.a && Apart(a.b, b.b, d) && a.c == b.c)
    || (a.a == b.a && a.b == b.b && Apart(a.c, b.c, d))
  }

  /** a and b lie on one edge of the cube: some channel is 1 in both and some
      channel is 0 in both. */
  predicate SameEdge(a: Vec3, b: Vec3)
  {
    && ((a.a == 1.0 && b.a == 1.0) || (a.b == 1.0 && b.b == 1.0) || (a.c == 1.0 && b.c == 1.0))
    && ((a.a == 0.0 && b.a == 0.0) || (a.b == 0.0 && b.b == 0.0) || (a.c == 0.0 && b.c == 0.0))
  }

  lemma EdgePointSaturated(n: nat, s: nat, k: nat)
    requires 2 <= n && s < 6 && k < n
    ensures Saturated(EdgePoint(n, s, k))
  {
    GridValues(n, k);
  }

  /** Consecutive points of an edge are one grid step apart on the same edge. */
  lemma EdgeStep(n: nat, s: nat, k: nat)
    requires 2 <= n && s < 6 && k + 1 < n
    ensures OneStep(EdgePoint(n, s, k), EdgePoint(n, s, k + 1), 1.0 / ((n - 1) as real))
    ensures SameEdge(EdgePoint(n, s, k), EdgePoint(n, s, k + 1))
  {
    GridValues(n, k);
    GridValues(n, k + 1);
  }

  /** An index of the trace as s steps of n - 1 plus a remainder. */
  lemma Split(i: nat, m: nat) returns (s: nat, k: nat)
    requires 0 < m && i < 6 * m
    ensures s < 6 && k < m && i == s * m + k
  {
    s, k := i / m, i % m;
  }

  /** Entry i = s (n - 1) + k of the trace is point k of edge s. */
  lemma TraceAtEdge(n: nat, i: nat, s: nat, k: nat)
    requires 2 <= n && s < 6 && k < n - 1 && i == s * (n - 1) + k
    ensures i < |GamutTrace(n)| && GamutTrace(n)[i] == EdgePoint(n, s, k)
  {
    FullTraceWalksHexagon(n, s, k);
  }

  /** The entry after entry i = s (n - 1) + k is point k + 1 of edge s. */
  lemma {:induction false} NextOnHexagon(n: nat, i: nat, s: nat, k: nat)
    requires 2 <= n && s < 6 && k < n - 1 && i == s * (n - 1) + k
    ensures var t := GamutTrace(n); i < |t| && t[Next(i, |t|)] == EdgePoint(n, s, k + 1)
  {
    if k + 2 < n {
      TraceAtEdge(n, i + 1, s, k + 1);
    } else if s < 5 {
      NextAcrossCorner(n, i, s, k);
    } else {
      NextWraps(n, i, k);
    }
  }

  /** After the last point of an edge but the final one comes the first point
      of the next edge, which is where the edge ends. */
  lemma NextAcrossCorner(n: nat, i: nat, s: nat, k: nat)
    requires 2 <= n && s < 5 && k + 2 == n && i == s * (n - 1) + k
    ensures var t := GamutTrace(n); i + 1 < |t| && t[i + 1] == EdgePoint(n, s, k + 1)
  {
    var m := n - 1;
    assert i + 1 == (s + 1) * m + 0;
    TraceAtEdge(n, i + 1, s + 1, 0);
    EdgesJoin(n, s);
  }

  /** The last entry of the trace is followed, wrapping round, by red. */
  lemma NextWraps(n: nat, i: nat, k: nat)
    requires 2 <= n && k + 2 == n && i == 5 * (n - 1) + k
    ensures var t := GamutTrace(n); i + 1 == |t| && t[0] == EdgePoint(n, 5, k + 1)
  {
    TraceAtEdge(n, 0, 0, 0);
    EdgesJoin(n, 5);
  }

  /** Every colour of the trace is saturated. */
  lemma {:induction false} TraceSaturated(n: nat, i: nat)
    requires 2 <= n && i < |GamutTrace(n)|
    ensures Saturated(GamutTrace(n)[i])
  {
    var s, k := Split(i, n - 1);
    TraceAtEdge(n, i, s, k);
    EdgePointSaturated(n, s, k);
  }

  /** Going round the trace, wrapping from the last entry to the first, every
      move is one grid step 1 / (n - 1) in one channel, along one edge of the
      cube. */
  lemma {:induction false} TraceSteps(n: nat, i: nat)
    requires 2 <= n && i < |GamutTrace(n)|
    ensures var t := GamutTrace(n);
      && OneStep(t[i], t[Next(i, |t|)], 1.0 / ((n - 1) as real))
      && SameEdge(t[i], t[Next(i, |t|)])
  {
    var s, k := Split(i, n - 1);
    NextOnHexagon(n, i, s, k);
    TraceAtEdge(n, i, s, k);
    EdgeStep(n, s, k);
  }

  /** The corrected trace starts at red and stops one step short of it, as
      the docstring says. */
  lemma TraceReturnsToRed(n: nat)
    requires 2 <= n
    ensures var t := GamutTrace(n);
      t[0] == RED && OneStep(t[|t| - 1], RED, 1.0 / ((n - 1) as real))
  {
    TraceSteps(n, |GamutTrace(n)| - 1);
  }

  /** As written, the trace stops two steps short of red: its last colour is not
      one step from the first, so the closing move skips a colour of the
      hexagon. */
  lemma {:induction false} AsWrittenStopsTwoShort(n: nat)
    requires 2 <= n
    ensures var t := GamutTraceAsWritten(n);
      t[0] == RED && !OneStep(t[|t| - 1], RED, 1.0 / ((n - 1) as real))
  {
    var m := n - 1;
    FullTraceWalksHexagon(n, 0, 0);
    GridValues(n, 0);
    if n == 2 {
      FullTraceWalksHexagon(n, 4, 0);
    } else {
      assert 6 * n - 8 == 5 * m + (m - 2);
      FullTraceWalksHexagon(n, 5, m - 2);
      GridValues(n, m - 2);
      GridValues(n, m - 1);
    }
  }

  /** At resolution 2 the trace written in the source is red, yellow, green,
      cyan, blue: magenta is missing, and the corrected trace has it. */
  lemma ResolutionTwo()
    ensures GamutTraceAsWritten(2) ==
      [RED, Vec3(1.0, 1.0, 0.0), Vec3(0.0, 1.0, 0.0), Vec3(0.0, 1.0, 1.0), Vec3(0.0, 0.0, 1.0)]
    ensures GamutTrace(2) == GamutTraceAsWritten(2) + [Vec3(1.0, 0.0, 1.0)]
  {
    assert Up(2) == [0.0, 1.0];
    assert Down(2) == [1.0, 0.0];
  }

  // ---------------------------------------------------------------------------
  // `gamut_series`

  /** The resolution after its default. */
  function ResolutionOf(resolution: Option<int>): int
  {
    if resolution.None? then RESOLUTION else resolution.value
  }

  /** The matrix after its default. */
  function MatrixOf(coefficients: Option<Mat3>): Mat3
  {
    if coefficients.None? then SRGB_TO_XYZ else coefficients.value
  }

  /** The row sums of a matrix: the tristimulus values of RGB white. */
  function RowSums(m: Mat3): Vec3
  {
    Vec3(m.r0.Sum(), m.r1.Sum(), m.r2.Sum())
  }

  /** `white_chromaticity`: the first two row sums over their total. */
  function WhiteOf(m: Mat3): (r: Result<Point>)
    ensures r.Ok? <==> RowSums(m).Sum() != 0.0
    ensures r.Err? ==> r.error == ZeroDivision
  {
    var w := RowSums(m);
    if w.Sum() == 0.0 then Err(ZeroDivision) else Ok(Point(w.a / w.Sum(), w.b / w.Sum()))
  }

  /** The white of the row sums is the chromaticity that
      `rgb_to_chromoluminance` gives RGB white, and black, under the same
      matrix. */
  lemma WhiteIsWhite(m: Mat3, gamma: bool, pow: (real, real) -> real)
    requires RowSums(m).Sum() != 0.0
    ensures var (w, white, black) := (WhiteOf(m).value,
                                      RgbToChromoluminance(Vec3(1.0, 1.0, 1.0), gamma, Some(m), pow),
                                      RgbToChromoluminance(Vec3(0.0, 0.0, 0.0), gamma, Some(m), pow));
      && white.Ok? && white.value.a == w.x && white.value.b == w.y && white.value.c == RowSums(m).b
      && black.Ok? && black.value.a == w.x && black.value.b == w.y && black.value.c == 0.0
  {
    var w := RowSums(m);
    WhiteTristimulus(m, gamma, pow);
    BlackTristimulus(gamma, Some(m), pow);
    assert RgbToChromoluminance(Vec3(1.0, 1.0, 1.0), gamma, Some(m), pow) == Ok(Chromoluminance(w));
    assert RgbToChromoluminance(Vec3(0.0, 0.0, 0.0), gamma, Some(m), pow)
        == Ok(Vec3(w.a / w.Sum(), w.b / w.Sum(), 0.0));
  }

  lemma WhiteTristimulus(m: Mat3, gamma: bool, pow: (real, real) -> real)
    ensures RgbToTristimulus(Vec3(1.0, 1.0, 1.0), gamma, Some(m), pow) == Ok(RowSums(m))
  {
    var ones := Vec3(1.0, 1.0, 1.0);
    assert ones.InUnitCube();
    assert !Corrects(gamma, Some(m));
    assert ForwardMatrix(Some(m)) == m;
    ApplyOnes(m);
    assert RgbToTristimulus(ones, gamma, Some(m), pow) == Ok(Apply(m, ones));
  }

  /** The default matrix's white is D65. */
  lemma SrgbWhitePoint()
    ensures WhiteOf(SRGB_TO_XYZ) == Ok(CC.D65_WHITE)
  {
    assert RowSums(SRGB_TO_XYZ) == Vec3(0.9505, 1.0, 1.089);
  }

  /** Every colour of the cube has a chromoluminance under any matrix whose
      white has a non-zero total. */
  lemma ChromoluminanceDefined(rgb: Vec3, m: Mat3, gamma: bool, pow: (real, real) -> real)
    requires rgb.InUnitCube() && RowSums(m).Sum() != 0.0
    ensures RgbToChromoluminance(rgb, gamma, Some(m), pow).Ok?
  {
    WhiteTristimulus(m, gamma, pow);
  }

  /** This file's hue convention: `arctan2`'s value if above -pi / 2, else
      that value plus 2 pi. */
  function UpperHue(a: real): real
  {
    if a > -PI / 2.0 then a else a + TWO_PI
  }

  /** On `arctan2`'s range (-pi, pi] the hue lands in the window
      (-pi / 2, 3 pi / 2] and differs from the angle by 0 or one turn. Except
      at -pi / 2 it is one turn above the hue of maths/chromaticity_conversion.py,
      whose window is [-5 pi / 2, -pi / 2). */
  lemma UpperHueRange(a: real)
    requires -PI < a <= PI
    ensures -PI / 2.0 < UpperHue(a) <= 3.0 * PI / 2.0
    ensures UpperHue(a) == a || UpperHue(a) == a + TWO_PI
    ensures a != -PI / 2.0 ==> UpperHue(a) == CC.Normalize(a) + TWO_PI
    ensures a == -PI / 2.0 ==> UpperHue(a) == CC.Normalize(a) + 2.0 * TWO_PI
  {
  }

  /** The hue angle of (x, y) about white. */
  function HueAbout(atan2: (real, real) -> real, white: Point, x: real, y: real): real
  {
    UpperHue(atan2(y - white.y, x - white.x))
  }

  function Hue(p: (real, real)): real
  {
    p.0
  }

  /** (hue, wavelength) of every locus point before sorting. */
  function LocusPairs(locus: CC.Locus, white: Point, atan2: (real, real) -> real): (r: seq<(real, real)>)
    requires locus.Valid()
    ensures |r| == |locus.wavelengths|
    ensures forall i :: 0 <= i < |r| ==>
      r[i] == (HueAbout(atan2, white, locus.x[i], locus.y[i]), locus.wavelengths[i])
  {
    seq(|locus.wavelengths|, (i: int) requires 0 <= i < |locus.wavelengths| =>
          (HueAbout(atan2, white, locus.x[i], locus.y[i]), locus.wavelengths[i]))
  }

  /** `spectrum_locus_hues`: the pairs sorted by hue. */
  function LocusHues(locus: CC.Locus, white: Point, atan2: (real, real) -> real): (r: seq<(real, real)>)
    requires locus.Valid()
    ensures |r| == |locus.wavelengths|
    ensures multiset(r) == multiset(LocusPairs(locus, white, atan2))
    ensures Spectra.Ordered(r, Hue)
  {
    Spectra.Sort(LocusPairs(locus, white, atan2), Hue)
  }

  /** `hue_bounds`: the least and greatest hue of the table. */
  function HueBounds(table: seq<(real, real)>): (r: (real, real))
    requires |table| > 0
    ensures r.0 in Spectra.Keys(table) && r.1 in Spectra.Keys(table)
    ensures forall i :: 0 <= i < |table| ==> r.0 <= table[i].0 <= r.1
  {
    (SeqMin(Spectra.Keys(table)), SeqMax(Spectra.Keys(table)))
  }

  /** Of a table sorted by hue the bounds are its first and last hue, so the
      bounds check admits exactly the hues the interpolation table spans. */
  lemma SortedBounds(table: seq<(real, real)>)
    requires |table| > 0 && Spectra.Ordered(table, Hue)
    ensures HueBounds(table) == (table[0].0, table[|table| - 1].0)
  {
    var r, keys := HueBounds(table), Spectra.Keys(table);
    var k :| 0 <= k < |keys| && keys[k] == r.0;
    var l :| 0 <= l < |keys| && keys[l] == r.1;
    assert keys[k] == table[k].0 && keys[l] == table[l].0;
    OrderedBetweenEnds(table, k);
    OrderedBetweenEnds(table, l);
    assert r.0 <= table[0].0 <= r.0;
    assert r.1 <= table[|table| - 1].0 <= r.1;
  }

  /** An entry of a table ordered by hue lies between its first and last hue. */
  lemma OrderedBetweenEnds(table: seq<(real, real)>, k: int)
    requires 0 <= k < |table| && Spectra.Ordered(table, Hue)
    ensures table[0].0 <= table[k].0 <= table[|table| - 1].0
  {
    if 0 < k {
      assert Hue(table[0]) <= Hue(table[k]);
    }
    if k < |table| - 1 {
      assert Hue(table[k]) <= Hue(table[|table| - 1]);
    }
  }

  /** One entry of the series: (R, G, B), (x, y, Y), the hue about white and
      the wavelength, when the hue lies within the locus's hue bounds. */
  datatype SaturatedValue = SaturatedValue(rgb: Vec3, xyy: Vec3, hue: real, wavelength: Option<real>)

  /** The entry of one colour of the trace. */
  function ValueOf(rgb: Vec3, m: Mat3, white: Point, table: seq<(real, real)>, atan2: (real, real) -> real,
                   interp: (seq<real>, seq<real>, real) -> real, pow: (real, real) -> real): (r: Result<SaturatedValue>)
    requires |table| > 0
    ensures r.Ok? <==> RgbToChromoluminance(rgb, false, Some(m), pow).Ok?
    ensures r.Ok? ==> var v := r.value;
      && v.rgb == rgb && v.xyy == RgbToChromoluminance(rgb, false, Some(m), pow).value
      && v.hue == HueAbout(atan2, white, v.xyy.a, v.xyy.b)
      && (v.wavelength.Some? <==> CC.Within(v.hue, HueBounds(table)))
      && (v.wavelength.Some? ==> v.wavelength.value == interp(Spectra.Keys(table), Spectra.Levels(table), v.hue))
  {
    var xyy :- RgbToChromoluminance(rgb, false, Some(m), pow);
    var hue := HueAbout(atan2, white, xyy.a, xyy.b);
    var bounds := HueBounds(table);
    var wavelength := if bounds.0 <= hue <= bounds.1
                      then Some(interp(Spectra.Keys(table), Spectra.Levels(table), hue)) else None;
    Ok(SaturatedValue(rgb, xyy, hue, wavelength))
  }

  /** `gamut_series`: the corrected trace, each colour with its
      chromoluminance under the matrix, its hue about the matrix's white and
      the wavelength interpolated from the locus's sorted hue table. */
  function GamutSeries(resolution: Option<int>, coefficients: Option<Mat3>, locus: CC.Locus,
                       atan2: (real, real) -> real, interp: (seq<real>, seq<real>, real) -> real,
                       pow: (real, real) -> real): (r: Result<seq<SaturatedValue>>)
    requires locus.Valid()
    ensures ResolutionOf(resolution) < 2 ==> r == Err(AssertionError)
    ensures 2 <= ResolutionOf(resolution) ==>
      && (r.Ok? <==> RowSums(MatrixOf(coefficients)).Sum() != 0.0)
      && (r.Err? ==> r.error == ZeroDivision)
    ensures r.Ok? ==> var (n, m) := (ResolutionOf(resolution), MatrixOf(coefficients));
      && WhiteOf(m).Ok?
      && |r.value| == 6 * n - 6
      && forall i :: 0 <= i < |r.value| ==>
           (r.value[i].rgb == GamutTrace(n)[i] &&
            ValueOf(GamutTrace(n)[i], m, WhiteOf(m).value, LocusHues(locus, WhiteOf(m).value, atan2),
                    atan2, interp, pow) == Ok(r.value[i]))
  {
    var n := ResolutionOf(resolution);
    if n < 2 then Err(AssertionError)
    else
      var m := MatrixOf(coefficients);
      var white :- WhiteOf(m);
      var table := LocusHues(locus, white, atan2);
      var f := (rgb: Vec3) => ValueOf(rgb, m, white, table, atan2, interp, pow);
      SeriesDefined(n, m, f, pow);
      MapAll(GamutTrace(n), f)
  }

  /** Every colour of the trace has a value once the white is defined. */
  lemma SeriesDefined(n: nat, m: Mat3, f: Vec3 -> Result<SaturatedValue>, pow: (real, real) -> real)
    requires 2 <= n && RowSums(m).Sum() != 0.0
    requires forall rgb :: f(rgb).Ok? <==> RgbToChromoluminance(rgb, false, Some(m), pow).Ok?
    ensures MapAll(GamutTrace(n), f).Ok?
  {
    forall i | 0 <= i < |GamutTrace(n)| ensures f(GamutTrace(n)[i]).Ok? {
      TraceSaturated(n, i);
      ChromoluminanceDefined(GamutTrace(n)[i], m, false, pow);
    }
  }

  /** An entry's hue lies in (-pi / 2, 3 pi / 2], and its wavelength is
      present exactly when the hue lies between the first and last hue of the
      sorted table. */
  lemma EntryHue(v: SaturatedValue, rgb: Vec3, m: Mat3, white: Point, table: seq<(real, real)>,
                 atan2: (real, real) -> real, interp: (seq<real>, seq<real>, real) -> real, pow: (real, real) -> real)
    requires |table| > 0 && Spectra.Ordered(table, Hue) && AngleRange(atan2)
    requires ValueOf(rgb, m, white, table, atan2, interp, pow) == Ok(v)
    ensures -PI / 2.0 < v.hue <= 3.0 * PI / 2.0
    ensures v.wavelength.Some? <==> table[0].0 <= v.hue <= table[|table| - 1].0
  {
    SortedBounds(table);
    UpperHueRange(atan2(v.xyy.b - white.y, v.xyy.a - white.x));
  }

  /** Every entry of the series has its hue in (-pi / 2, 3 pi / 2] and a
      wavelength exactly when the hue lies within the sorted locus table. */
  lemma {:induction false} SeriesHues(resolution: Option<int>, coefficients: Option<Mat3>, locus: CC.Locus,
                                      atan2: (real, real) -> real, interp: (seq<real>, seq<real>, real) -> real,
                                      pow: (real, real) -> real, s: seq<SaturatedValue>)
    requires locus.Valid() && AngleRange(atan2)
    requires GamutSeries(resolution, coefficients, locus, atan2, interp, pow) == Ok(s)
    ensures var table := LocusHues(locus, WhiteOf(MatrixOf(coefficients)).value, atan2);
      forall i :: 0 <= i < |s| ==>
        && -PI / 2.0 < s[i].hue <= 3.0 * PI / 2.0
        && (s[i].wavelength.Some? <==> table[0].0 <= s[i].hue <= table[|table| - 1].0)
  {
    var (n, m) := (ResolutionOf(resolution), MatrixOf(coefficients));
    var white := WhiteOf(m).value;
    var table := LocusHues(locus, white, atan2);
    forall i | 0 <= i < |s|
      ensures -PI / 2.0 < s[i].hue <= 3.0 * PI / 2.0
      ensures s[i].wavelength.Some? <==> table[0].0 <= s[i].hue <= table[|table| - 1].0
    {
      EntryHue(s[i], GamutTrace(n)[i], m, white, table, atan2, interp, pow);
    }
  }

  // ---------------------------------------------------------------------------
  // `visible_spectrum`

  /** The power after its default of no fading. */
  function PowerOf(power: Option<real>): real
  {
    if power.None? then 0.0 else power.value
  }

  /** The arguments `visible_spectrum` accepts: both wavelengths strictly
      between 300 and 900, resolution at least 2 and a non-negative power. */
  predicate SpectrumArgumentsValid(minimum: real, maximum: real, resolution: Option<int>, power: Option<real>)
  {
    && 300.0 < minimum < 900.0 && 300.0 < maximum < 900.0
    && 2 <= ResolutionOf(resolution) && 0.0 <= PowerOf(power)
  }

  /** The entries of the series that have a wavelength, in order. */
  function Known(s: seq<SaturatedValue>): (r: seq<SaturatedValue>)
    ensures |r| <= |s|
    ensures forall v :: v in r <==> v in s && v.wavelength.Some?
  {
    if |s| == 0 then []
    else
      assert s == [s[0]] + s[1..];
      (if s[0].wavelength.Some? then [s[0]] else []) + Known(s[1..])
  }

  /** The wavelengths of entries that have one. */
  function KnownWavelengths(s: seq<SaturatedValue>): (r: seq<real>)
    requires forall v :: v in s ==> v.wavelength.Some?
    ensures |r| == |s| && forall i :: 0 <= i < |s| ==> r[i] == s[i].wavelength.value
  {
    seq(|s|, (i: int) requires 0 <= i < |s| => s[i].wavelength.value)
  }

  /** Channel `c` of the entries' colours. */
  function ChannelOf(s: seq<SaturatedValue>, c: nat): (r: seq<real>)
    requires c < 3
    ensures |r| == |s| && forall i :: 0 <= i < |s| ==> r[i] == s[i].rgb.At(c)
  {
    seq(|s|, (i: int) requires 0 <= i < |s| => s[i].rgb.At(c))
  }

  /** The entries' luminance over the greatest of them (`normalized_Y`). */
  function NormalizedLuminance(s: seq<SaturatedValue>, top: real): (r: seq<real>)
    requires top != 0.0
    ensures |r| == |s| && forall i :: 0 <= i < |s| ==> r[i] == s[i].xyy.c / top
  {
    seq(|s|, (i: int) requires 0 <= i < |s| => s[i].xyy.c / top)
  }

  /** The greatest luminance of the entries. */
  function TopLuminance(s: seq<SaturatedValue>): (r: real)
    requires |s| > 0
    ensures forall i :: 0 <= i < |s| ==> s[i].xyy.c <= r
    ensures exists i :: 0 <= i < |s| && s[i].xyy.c == r
  {
    var ys := seq(|s|, (i: int) requires 0 <= i < |s| => s[i].xyy.c);
    assert forall i :: 0 <= i < |s| ==> ys[i] == s[i].xyy.c;
    SeqMax(ys)
  }

  /** The i-th of n values evenly spread from the minimum to the maximum. */
  function Unclipped(minimum: real, maximum: real, n: nat, i: int): real
    requires 2 <= n
  {
    minimum + ((i as real) / ((n - 1) as real)) * (maximum - minimum)
  }

  /** The sampled wavelengths: resolution values evenly spread from the
      minimum to the maximum, each clipped into the bounds. */
  function BandWavelengths(minimum: real, maximum: real, n: nat, bounds: (real, real)): (r: seq<real>)
    requires 2 <= n && bounds.0 <= bounds.1
    ensures |r| == n
    ensures forall i :: 0 <= i < n ==> bounds.0 <= r[i] <= bounds.1
  {
    seq(n, (i: int) requires 0 <= i < n => Clip(Unclipped(minimum, maximum, n, i), bounds.0, bounds.1))
  }

  /** The unclipped sample at i lies between the minimum and the maximum. */
  lemma SampleBetween(minimum: real, maximum: real, n: nat, i: int)
    requires 2 <= n && 0 <= i < n
    ensures var v := Unclipped(minimum, maximum, n, i);
      (minimum <= maximum ==> minimum <= v <= maximum) && (maximum <= minimum ==> maximum <= v <= minimum)
  {
    var t := (i as real) / ((n - 1) as real);
    assert 0.0 <= t <= 1.0;
    if minimum <= maximum {
      MulNonNegative(t, maximum - minimum);
      MulNonNegative(1.0 - t, maximum - minimum);
    } else {
      MulNonNegative(t, minimum - maximum);
      MulNonNegative(1.0 - t, minimum - maximum);
    }
  }

  /** Consecutive unclipped samples differ by one step. */
  lemma SampleStep(minimum: real, maximum: real, n: nat, i: int)
    requires 2 <= n && 0 <= i < n - 1
    ensures Unclipped(minimum, maximum, n, i + 1) - Unclipped(minimum, maximum, n, i)
            == (maximum - minimum) / ((n - 1) as real)
  {
    var m := (n - 1) as real;
    assert ((i + 1) as real) / m - (i as real) / m == 1.0 / m;
  }

  /** Within bounds holding both ends, the samples run from the minimum to
      the maximum in equal steps, none of them clipped. */
  lemma {:induction false} BandWavelengthsSpread(minimum: real, maximum: real, n: nat, bounds: (real, real))
    requires 2 <= n && bounds.0 <= bounds.1
    requires bounds.0 <= minimum <= bounds.1 && bounds.0 <= maximum <= bounds.1
    ensures var w := BandWavelengths(minimum, maximum, n, bounds);
      && w[0] == minimum && w[n - 1] == maximum
      && forall i :: 0 <= i < n - 1 ==> w[i + 1] - w[i] == (maximum - minimum) / ((n - 1) as real)
  {
    var w := BandWavelengths(minimum, maximum, n, bounds);
    UnclippedEnds(minimum, maximum, n);
    SampleKept(minimum, maximum, n, bounds, 0);
    SampleKept(minimum, maximum, n, bounds, n - 1);
    forall i | 0 <= i < n - 1
      ensures w[i + 1] - w[i] == (maximum - minimum) / ((n - 1) as real)
    {
      SampleKept(minimum, maximum, n, bounds, i);
      SampleKept(minimum, maximum, n, bounds, i + 1);
      SampleStep(minimum, maximum, n, i);
    }
  }

  /** Within bounds holding both ends no sample is clipped. */
  lemma SampleKept(minimum: real, maximum: real, n: nat, bounds: (real, real), i: int)
    requires 2 <= n && bounds.0 <= bounds.1 && 0 <= i < n
    requires bounds.0 <= minimum <= bounds.1 && bounds.0 <= maximum <= bounds.1
    ensures BandWavelengths(minimum, maximum, n, bounds)[i] == Unclipped(minimum, maximum, n, i)
  {
    SampleBetween(minimum, maximum, n, i);
  }

  /** The first sample is the minimum, the last the maximum. */
  lemma UnclippedEnds(minimum: real, maximum: real, n: nat)
    requires 2 <= n
    ensures Unclipped(minimum, maximum, n, 0) == minimum
    ensures Unclipped(minimum, maximum, n, n - 1) == maximum
  {
    var m := (n - 1) as real;
    assert ((n - 1) as real) / m == 1.0;
  }

  /** One band colour: each channel interpolated at the wavelength, faded by
      the normalised luminance to the given power, and clipped to [0, 1]. */
  function BandColor(known: seq<SaturatedValue>, top: real, w: real, power: real,
                     interp: (seq<real>, seq<real>, real) -> real, pow: (real, real) -> real): (r: Vec3)
    requires top != 0.0 && forall v :: v in known ==> v.wavelength.Some?
    ensures r.InUnitCube()
  {
    var wavelengths := KnownWavelengths(known);
    var fade := pow(interp(wavelengths, NormalizedLuminance(known, top), w), power);
    Vec3(Clip(interp(wavelengths, ChannelOf(known, 0), w) * fade, 0.0, 1.0),
         Clip(interp(wavelengths, ChannelOf(known, 1), w) * fade, 0.0, 1.0),
         Clip(interp(wavelengths, ChannelOf(known, 2), w) * fade, 0.0, 1.0))
  }

  /** The band colours: each sampled wavelength, clipped into the
      wavelengths the entries span, coloured by `BandColor`. */
  function SpectrumColors(known: seq<SaturatedValue>, minimum: real, maximum: real, n: nat, power: real,
                          interp: (seq<real>, seq<real>, real) -> real, pow: (real, real) -> real): (r: seq<Vec3>)
    requires 2 <= n && |known| > 0 && TopLuminance(known) != 0.0
    requires forall v :: v in known ==> v.wavelength.Some?
    ensures |r| == n && forall i :: 0 <= i < n ==> r[i].InUnitCube()
  {
    var wavelengths := KnownWavelengths(known);
    var samples := BandWavelengths(minimum, maximum, n, (SeqMin(wavelengths), SeqMax(wavelengths)));
    seq(n, (i: int) requires 0 <= i < n => BandColor(known, TopLuminance(known), samples[i], power, interp, pow))
  }

  /** `visible_spectrum`: the bands as in maths/coloration.py, coloured by the
      series entries that have a wavelength. It fails when no entry has one
      (`min` of an empty list) and when their greatest luminance is 0. */
  function VisibleSpectrum(left: real, bottom: real, width: real, height: real, minimum: real, maximum: real,
                           resolution: Option<int>, power: Option<real>, vertical: Option<bool>,
                           coefficients: Option<Mat3>, locus: CC.Locus, atan2: (real, real) -> real,
                           interp: (seq<real>, seq<real>, real) -> real, pow: (real, real) -> real)
    : (r: Result<(seq<seq<Point>>, seq<Vec3>)>)
    requires locus.Valid()
    ensures !SpectrumArgumentsValid(minimum, maximum, resolution, power) ==> r == Err(AssertionError)
    ensures SpectrumArgumentsValid(minimum, maximum, resolution, power) &&
            GamutSeries(resolution, coefficients, locus, atan2, interp, pow).Err? ==>
      r == Err(ZeroDivision)
    ensures SpectrumArgumentsValid(minimum, maximum, resolution, power) &&
            GamutSeries(resolution, coefficients, locus, atan2, interp, pow).Ok? &&
            Known(GamutSeries(resolution, coefficients, locus, atan2, interp, pow).value) == [] ==>
      r == Err(ValueError)
    ensures r.Ok? ==> var n := ResolutionOf(resolution);
      && |r.value.0| == n && |r.value.1| == n
      && forall i :: 0 <= i < n ==> r.value.0[i] == Band(i, n, left, bottom, width, height, vertical == Some(true))
    ensures r.Ok? ==>
      && SpectrumArgumentsValid(minimum, maximum, resolution, power)
      && GamutSeries(resolution, coefficients, locus, atan2, interp, pow).Ok?
      && var known := Known(GamutSeries(resolution, coefficients, locus, atan2, interp, pow).value);
      && |known| > 0 && TopLuminance(known) != 0.0
      && r.value.1 == SpectrumColors(known, minimum, maximum, ResolutionOf(resolution), PowerOf(power), interp, pow)
  {
    if !SpectrumArgumentsValid(minimum, maximum, resolution, power) then Err(AssertionError)
    else
      var n := ResolutionOf(resolution);
      var paths := Bands(n, left, bottom, width, height, vertical == Some(true));
      var series :- GamutSeries(resolution, coefficients, locus, atan2, interp, pow);
      var known := Known(series);
      if |known| == 0 then Err(ValueError)
      else if TopLuminance(known) == 0.0 then Err(ZeroDivision)
      else Ok((paths, SpectrumColors(known, minimum, maximum, n, PowerOf(power), interp, pow)))
  }

  /** With power 0 (the default) and `x ** 0 == 1`, the colours are the
      interpolated channels clipped to [0, 1]: no fading. */
  lemma NoFading(known: seq<SaturatedValue>, top: real, w: real,
                 interp: (seq<real>, seq<real>, real) -> real, pow: (real, real) -> real)
    requires top != 0.0 && forall v :: v in known ==> v.wavelength.Some?
    requires forall b :: pow(b, 0.0) == 1.0
    ensures var wavelengths := KnownWavelengths(known);
      BandColor(known, top, w, 0.0, interp, pow) ==
      ClipUnit(Vec3(interp(wavelengths, ChannelOf(known, 0), w), interp(wavelengths, ChannelOf(known, 1), w),
                    interp(wavelengths, ChannelOf(known, 2), w)))
  {
    var wavelengths := KnownWavelengths(known);
    var level := interp(wavelengths, NormalizedLuminance(known, top), w);
    assert pow(level, 0.0) == 1.0;
  }

  // ---------------------------------------------------------------------------
  // `chromaticity_within_gamut`

  /** The xy part of `rgb_to_chromoluminance`. */
  function ChromaticityOf(rgb: Vec3, gamma: bool, coefficients: Option<Mat3>, pow: (real, real) -> real): Result<Point>
  {
    var v :- RgbToChromoluminance(rgb, gamma, coefficients, pow);
    Ok(Point(v.a, v.b))
  }

  /** The projection `chromaticity_within_gamut` applies to every corner. */
  function WithinProjection(gamma: bool, coefficients: Option<Mat3>, pow: (real, real) -> real): Vec3 -> Result<Point>
  {
    (rgb: Vec3) => ChromaticityOf(rgb, gamma, coefficients, pow)
  }

  /** `chromaticity_within_gamut`: resolution at least 2; otherwise the fill
      of the gamut triangle, each corner placed at its chromaticity under the
      matrix (or the sRGB default when there is none). */
  method ChromaticityWithinGamut(resolution: Option<int>, gamma: Option<bool>, coefficients: Option<Mat3>,
                                 pow: (real, real) -> real)
    returns (r: Result<(seq<seq<Point>>, seq<Vec3>)>)
    ensures ResolutionOf(resolution) < 2 ==> r == Err(AssertionError)
    ensures 2 <= ResolutionOf(resolution) ==>
      Filled(r, ResolutionOf(resolution), WithinProjection(gamma == Some(true), coefficients, pow))
  {
    var n := ResolutionOf(resolution);
    if n < 2 {
      return Err(AssertionError);
    }
    r := FillTriangle(n, WithinProjection(gamma == Some(true), coefficients, pow));
  }

  /** What the white needs to be defined: the default matrix only needs
      `x ** e` to behave at 0 and 1; a given matrix needs a non-zero total of
      its row sums. */
  ghost predicate WhiteDefined(coefficients: Option<Mat3>, pow: (real, real) -> real)
  {
    match coefficients
    case None => PowerFacts(pow)
    case Some(m) => RowSums(m).Sum() != 0.0
  }

  /** Every colour of the cube has a chromaticity once the white is defined. */
  lemma ChromaticityDefined(rgb: Vec3, gamma: bool, coefficients: Option<Mat3>, pow: (real, real) -> real)
    requires rgb.InUnitCube() && WhiteDefined(coefficients, pow)
    ensures ChromaticityOf(rgb, gamma, coefficients, pow).Ok?
  {
    match coefficients
    case None => SrgbWhite(gamma, pow);
    case Some(m) => ChromoluminanceDefined(rgb, m, gamma, pow);
  }

  /** Once the white is defined the fill succeeds: 3 (n - 1)^2 closed
      five-vertex paths and as many saturated colours. */
  lemma WithinGamutSucceeds(r: Result<(seq<seq<Point>>, seq<Vec3>)>, n: nat, gamma: bool,
                            coefficients: Option<Mat3>, pow: (real, real) -> real)
    requires 2 <= n && WhiteDefined(coefficients, pow)
    requires Filled(r, n, WithinProjection(gamma, coefficients, pow))
    ensures r.Ok?
    ensures |r.value.0| == 3 * (n - 1) * (n - 1) && |r.value.1| == |r.value.0|
    ensures forall k :: 0 <= k < |r.value.0| ==> |r.value.0[k]| == 5 && r.value.0[k][0] == r.value.0[k][4]
    ensures forall k :: 0 <= k < |r.value.1| ==>
      r.value.1[k].InUnitCube() && exists f :: 0 <= f < 3 && r.value.1[k].At(f) == 1.0
  {
    var project := WithinProjection(gamma, coefficients, pow);
    forall c | CellValid(c, n) ensures MapAll(CellVertices(c, n), project).Ok? {
      CellProjects(c, n, gamma, coefficients, pow);
    }
    assert r.Ok?;
    FilledShape(r.value.0, r.value.1, n, project);
  }

  /** Every vertex of a grid cell has a chromaticity. */
  lemma CellProjects(c: Cell, n: nat, gamma: bool, coefficients: Option<Mat3>, pow: (real, real) -> real)
    requires CellValid(c, n) && WhiteDefined(coefficients, pow)
    ensures MapAll(CellVertices(c, n), WithinProjection(gamma, coefficients, pow)).Ok?
  {
    CellGeometry(c, n);
    var vs := CellVertices(c, n);
    forall k | 0 <= k < |vs| ensures WithinProjection(gamma, coefficients, pow)(vs[k]).Ok? {
      ChromaticityDefined(vs[k], gamma, coefficients, pow);
    }
  }

  // ---------------------------------------------------------------------------
  // `chromaticity_outside_gamut`

  /** One row of the locus hue table: x, y and the hue about white. */
  datatype LocusPoint = LocusPoint(x: real, y: real, hue: real)

  /** `(x, y, hue)` of every locus point about white, in locus order. */
  function LocusTriples(locus: CC.Locus, white: Point, atan2: (real, real) -> real): (r: seq<LocusPoint>)
    requires locus.Valid()
    ensures |r| == |locus.wavelengths|
    ensures forall i :: 0 <= i < |r| ==>
      r[i] == LocusPoint(locus.x[i], locus.y[i], HueAbout(atan2, white, locus.x[i], locus.y[i]))
  {
    seq(|locus.wavelengths|, (i: int) requires 0 <= i < |locus.wavelengths| =>
          LocusPoint(locus.x[i], locus.y[i], HueAbout(atan2, white, locus.x[i], locus.y[i])))
  }

  /** The same rows with every hue moved by d. */
  function Shifted(t: seq<LocusPoint>, d: real): (r: seq<LocusPoint>)
    ensures |r| == |t| && forall i :: 0 <= i < |t| ==> r[i] == LocusPoint(t[i].x, t[i].y, t[i].hue + d)
  {
    seq(|t|, (i: int) requires 0 <= i < |t| => LocusPoint(t[i].x, t[i].y, t[i].hue + d))
  }

  /** How many rows are copied at each end: four, or all of a shorter table
      (Python's `[:4]` and `[-4:]`). */
  function Overlap(t: seq<LocusPoint>): nat
  {
    if |t| < 4 then |t| else 4
  }

  /** The table closed by a turn at both ends: its first four rows one turn
      lower in front, its last four rows one turn higher behind. */
  function ClosedLocus(t: seq<LocusPoint>): (r: seq<LocusPoint>)
  {
    Shifted(t[..Overlap(t)], -TWO_PI) + t + Shifted(t[|t| - Overlap(t)..], TWO_PI)
  }

  /** The closed table holds the table in its middle; every copied row keeps
      its point and has its hue one turn away. */
  lemma ClosedLocusRow(t: seq<LocusPoint>, i: int)
    requires 0 <= i < |t| + 2 * Overlap(t)
    ensures |ClosedLocus(t)| == |t| + 2 * Overlap(t)
    ensures i < Overlap(t) ==> ClosedLocus(t)[i] == LocusPoint(t[i].x, t[i].y, t[i].hue - TWO_PI)
    ensures Overlap(t) <= i < Overlap(t) + |t| ==> ClosedLocus(t)[i] == t[i - Overlap(t)]
    ensures Overlap(t) + |t| <= i ==>
      ClosedLocus(t)[i] == LocusPoint(t[i - 2 * Overlap(t)].x, t[i - 2 * Overlap(t)].y,
                                      t[i - 2 * Overlap(t)].hue + TWO_PI)
  {
    var k := Overlap(t);
    var front := Shifted(t[..k], -TWO_PI);
    var back := Shifted(t[|t| - k..], TWO_PI);
    assert ClosedLocus(t) == front + t + back;
    if i < k {
      assert ClosedLocus(t)[i] == front[i];
    } else if i < k + |t| {
      assert ClosedLocus(t)[i] == t[i - k];
    } else {
      var j := i - k - |t|;
      assert ClosedLocus(t)[i] == back[j];
      assert t[|t| - k..][j] == t[i - 2 * k];
    }
  }

  function HueColumn(t: seq<LocusPoint>): (r: seq<real>)
    ensures |r| == |t| && forall i :: 0 <= i < |t| ==> r[i] == t[i].hue
  {
    seq(|t|, (i: int) requires 0 <= i < |t| => t[i].hue)
  }

  function XColumn(t: seq<LocusPoint>): (r: seq<real>)
    ensures |r| == |t| && forall i :: 0 <= i < |t| ==> r[i] == t[i].x
  {
    seq(|t|, (i: int) requires 0 <= i < |t| => t[i].x)
  }

  function YColumn(t: seq<LocusPoint>): (r: seq<real>)
    ensures |r| == |t| && forall i :: 0 <= i < |t| ==> r[i] == t[i].y
  {
    seq(|t|, (i: int) requires 0 <= i < |t| => t[i].y)
  }

  /** Where the ray from white at the entry's hue meets the locus: x and y
      interpolated from the closed table at that hue. */
  function Intercept(v: SaturatedValue, table: seq<LocusPoint>, interp: (seq<real>, seq<real>, real) -> real): Point
  {
    Point(interp(HueColumn(table), XColumn(table), v.hue), interp(HueColumn(table), YColumn(table), v.hue))
  }

  function XyOf(v: SaturatedValue): Point
  {
    Point(v.xyy.a, v.xyy.b)
  }

  /** The tile between entries a and b: a, a's locus intercept, b's
      intercept, b, and back to a. */
  function OutsideTile(a: SaturatedValue, b: SaturatedValue, table: seq<LocusPoint>,
                       interp: (seq<real>, seq<real>, real) -> real): seq<Point>
  {
    [XyOf(a), Intercept(a, table, interp), Intercept(b, table, interp), XyOf(b), XyOf(a)]
  }

  /** The channel mean of two colours. */
  function MeanColor(p: Vec3, q: Vec3): (r: Vec3)
    ensures forall c :: 0 <= c < 3 ==> r.At(c) == (p.At(c) + q.At(c)) / 2.0
  {
    Vec3((p.a + q.a) / 2.0, (p.b + q.b) / 2.0, (p.c + q.c) / 2.0)
  }

  /** The closed hue table of `chromaticity_outside_gamut` under a matrix
      whose white is defined. */
  function OutsideTable(m: Mat3, locus: CC.Locus, atan2: (real, real) -> real): seq<LocusPoint>
    requires locus.Valid() && RowSums(m).Sum() != 0.0
  {
    ClosedLocus(LocusTriples(locus, WhiteOf(m).value, atan2))
  }

  /** For every entry, the tile from it to the next entry (the last wrapping
      round to the first) and the mean of the two entries' colours. */
  function TileRing(series: seq<SaturatedValue>, table: seq<LocusPoint>,
                    interp: (seq<real>, seq<real>, real) -> real): (r: (seq<seq<Point>>, seq<Vec3>))
    ensures |r.0| == |series| && |r.1| == |series|
  {
    (seq(|series|, (i: int) requires 0 <= i < |series| =>
           OutsideTile(series[i], series[Next(i, |series|)], table, interp)),
     seq(|series|, (i: int) requires 0 <= i < |series| =>
           MeanColor(series[i].rgb, series[Next(i, |series|)].rgb)))
  }

  /** The loop of `chromaticity_outside_gamut`. */
  method BuildTiles(series: seq<SaturatedValue>, table: seq<LocusPoint>,
                    interp: (seq<real>, seq<real>, real) -> real)
    returns (paths: seq<seq<Point>>, colors: seq<Vec3>)
    ensures (paths, colors) == TileRing(series, table, interp)
  {
    paths, colors := [], [];
    for first := 0 to |series|
      invariant paths == TileRing(series, table, interp).0[..first]
      invariant colors == TileRing(series, table, interp).1[..first]
    {
      var second := first + 1;
      if second > |series| - 1 {
        second := 0;
      }
      paths := paths + [OutsideTile(series[first], series[second], table, interp)];
      colors := colors + [MeanColor(series[first].rgb, series[second].rgb)];
    }
    assert paths == TileRing(series, table, interp).0;
    assert colors == TileRing(series, table, interp).1;
  }

  /** `chromaticity_outside_gamut`: resolution at least 2 and a white;
      otherwise the ring of tiles between the series and the locus. */
  method ChromaticityOutsideGamut(resolution: Option<int>, coefficients: Option<Mat3>, locus: CC.Locus,
                                  atan2: (real, real) -> real, interp: (seq<real>, seq<real>, real) -> real,
                                  pow: (real, real) -> real)
    returns (r: Result<(seq<seq<Point>>, seq<Vec3>)>)
    requires locus.Valid()
    ensures ResolutionOf(resolution) < 2 ==> r == Err(AssertionError)
    ensures 2 <= ResolutionOf(resolution) ==>
      && (r.Ok? <==> RowSums(MatrixOf(coefficients)).Sum() != 0.0)
      && (r.Err? ==> r.error == ZeroDivision)
    ensures r.Ok? ==>
      (GamutSeries(resolution, coefficients, locus, atan2, interp, pow).Ok? &&
       r.value == TileRing(GamutSeries(resolution, coefficients, locus, atan2, interp, pow).value,
                           OutsideTable(MatrixOf(coefficients), locus, atan2), interp))
  {
    var n := ResolutionOf(resolution);
    if n < 2 {
      return Err(AssertionError);
    }
    var m := MatrixOf(coefficients);
    var white :- WhiteOf(m);
    var series := GamutSeries(resolution, coefficients, locus, atan2, interp, pow).value;
    var paths, colors := BuildTiles(series, ClosedLocus(LocusTriples(locus, white, atan2)), interp);
    r := Ok((paths, colors));
  }

  /** Each tile is closed, starts at its entry and meets the next tile along
      the segment from the next entry to its intercept, so the tiles ring the
      gamut without gaps. */
  lemma TilesRing(series: seq<SaturatedValue>, table: seq<LocusPoint>, interp: (seq<real>, seq<real>, real) -> real,
                  i: nat)
    requires i < |series|
    ensures var (tiles, j) := (TileRing(series, table, interp).0, Next(i, |series|));
      && j < |series| && |tiles[i]| == 5 && tiles[i][0] == tiles[i][4] && tiles[i][0] == XyOf(series[i])
      && tiles[i][1] == Intercept(series[i], table, interp)
      && tiles[i][3] == tiles[j][0] && tiles[i][2] == tiles[j][1]
  {
  }

  /** The mean of two colours on one edge of the cube is saturated and on
      the same edge. */
  lemma MeanSaturated(p: Vec3, q: Vec3)
    requires p.InUnitCube() && q.InUnitCube() && SameEdge(p, q)
    ensures Saturated(MeanColor(p, q)) && SameEdge(p, MeanColor(p, q))
  {
  }

  /** Every tile colour lies in the cube with a channel at 1 and a channel
      at 0: it is the mean of neighbours on the trace, which share an edge. */
  lemma {:induction false} OutsideColorsSaturated(resolution: Option<int>, coefficients: Option<Mat3>,
                                                  locus: CC.Locus, atan2: (real, real) -> real,
                                                  interp: (seq<real>, seq<real>, real) -> real,
                                                  pow: (real, real) -> real, s: seq<SaturatedValue>,
                                                  table: seq<LocusPoint>, i: nat)
    requires locus.Valid()
    requires GamutSeries(resolution, coefficients, locus, atan2, interp, pow) == Ok(s)
    requires i < |s|
    ensures Saturated(TileRing(s, table, interp).1[i])
  {
    var n := ResolutionOf(resolution);
    TraceSteps(n, i);
    TraceSaturated(n, i);
    TraceSaturated(n, Next(i, |s|));
    MeanSaturated(s[i].rgb, s[Next(i, |s|)].rgb);
  }

  // ---------------------------------------------------------------------------
  // `three_dimensional_surface`

  /** The coordinates of a surface point: the colour itself in RGB space
      (index 0), its chromoluminance otherwise. */
  function SpaceProjection(spaceIndex: int, gamma: bool, coefficients: Option<Mat3>,
                           pow: (real, real) -> real): Vec3 -> Result<Vec3>
  {
    if spaceIndex == 0 then AsCoordinates else (rgb: Vec3) => RgbToChromoluminance(rgb, gamma, coefficients, pow)
  }

  /** The fixed value after its default of 1. */
  function ColorValueOf(colorValue: Option<int>): int
  {
    if colorValue.None? then 1 else colorValue.value
  }

  /** The arguments `three_dimensional_surface` accepts: a channel 0 to 2, a
      space 0 or 1, a fixed value 0 or 1 and resolution at least 2. */
  predicate SurfaceArgumentsValid(colorIndex: int, spaceIndex: int, colorValue: Option<int>, resolution: Option<int>)
  {
    && 0 <= colorIndex <= 2 && 0 <= spaceIndex <= 1
    && 0 <= ColorValueOf(colorValue) <= 1 && 2 <= ResolutionOf(resolution)
  }

  /** `three_dimensional_surface`: gamma correction on by default; the surface
      that holds the channel at the value, in the chosen space. */
  method ThreeDimensionalSurface(colorIndex: int, spaceIndex: int, colorValue: Option<int>, resolution: Option<int>,
                                 gamma: Option<bool>, coefficients: Option<Mat3>, pow: (real, real) -> real)
    returns (r: Result<Surface>)
    ensures !SurfaceArgumentsValid(colorIndex, spaceIndex, colorValue, resolution) ==> r == Err(AssertionError)
    ensures SurfaceArgumentsValid(colorIndex, spaceIndex, colorValue, resolution) ==>
      SurfaceBuilt(r, ResolutionOf(resolution), colorIndex, ColorValueOf(colorValue) as real,
                   SpaceProjection(spaceIndex, gamma != Some(false), coefficients, pow))
  {
    if !SurfaceArgumentsValid(colorIndex, spaceIndex, colorValue, resolution) {
      return Err(AssertionError);
    }
    r := BuildSurface(ResolutionOf(resolution), colorIndex, ColorValueOf(colorValue) as real,
                      SpaceProjection(spaceIndex, gamma != Some(false), coefficients, pow));
  }

  /** Once the white is defined the chromoluminance surface always succeeds,
      and its colours lie in the unit cube. */
  lemma SurfaceSucceeds(r: Result<Surface>, n: nat, fixed: nat, v: int, gamma: bool, coefficients: Option<Mat3>,
                        pow: (real, real) -> real)
    requires 2 <= n && fixed < 3 && 0 <= v <= 1 && WhiteDefined(coefficients, pow)
    requires SurfaceBuilt(r, n, fixed, v as real, SpaceProjection(1, gamma, coefficients, pow))
    ensures r.Ok?
    ensures forall i, j :: 0 <= i < n && 0 <= j < n ==> r.value.colors[i][j].InUnitCube()
  {
    var project := SpaceProjection(1, gamma, coefficients, pow);
    var w := v as real;
    forall i, j | 0 <= i < n && 0 <= j < n ensures project(SurfaceColor(n, fixed, w, i, j)).Ok? {
      LinspaceWithin(0.0, 1.0, n, i);
      LinspaceWithin(0.0, 1.0, n, j);
      ChromaticityDefined(SurfaceColor(n, fixed, w, i, j), gamma, coefficients, pow);
    }
    SurfaceShape(r.value, n, fixed, w, project);
  }

  /** The RGB surface always succeeds and puts every colour at its own
      channels. */
  lemma RgbSurface(r: Result<Surface>, n: nat, fixed: nat, v: int, gamma: bool, coefficients: Option<Mat3>,
                   pow: (real, real) -> real)
    requires 2 <= n && fixed < 3
    requires SurfaceBuilt(r, n, fixed, v as real, SpaceProjection(0, gamma, coefficients, pow))
    ensures r.Ok?
    ensures forall i, j :: 0 <= i < n && 0 <= j < n ==>
      r.value.colors[i][j] == Vec3(r.value.xs[i][j], r.value.ys[i][j], r.value.zs[i][j])
  {
    SurfaceOfColors(r.value, n, fixed, v as real);
  }
}
