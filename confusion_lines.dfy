/** generation/confusion_lines_and_copunctal_points.py: the data behind the
    confusion-line figures.
    - Confusion lines: from a colour's cone activation the L-cone activation
      is walked down and then up in steps of ACTIVATION_STEP while the
      chromaticity x stays within [0, 0.65]; the stored chromoluminances are
      then sorted by x.
    - Copunctal points: for each cone, three segments run from a colour
      towards a pure activation of that cone; the mean of the first segment's
      meeting points with the other two estimates where confusion lines meet.
    - Colour bands: the segments' crossings with the display gamut are drawn
      as bands of RESOLUTION closed rectangles, each filled with a saturated
      colour taken at evenly spaced fractions between the two crossings.
    The cone-to-tristimulus conversion is a matrix parameter `m`: the script
    applies ColorBlindness.LMS_TO_XYZ (`lms_to_xyz` of maths/color_blindness.py).
    The walks have no bound of their own, so each takes a `fuel` count and
    gives Err(OutOfFuel) when it would take more steps than that. */
module ConfusionLines {
  import opened Wrappers
  import opened LinearAlgebra
  import opened Numerics
  import opened Functions
  import opened RgbCieConversions
  import ColorBlindness
  import ColorBlindStimulus
  import Spectra

  const ACTIVATION_STEP: real := 0.01
  const RESOLUTION: nat := 32

  /** The walks go on while the chromaticity x is within [0, X_LIMIT]. */
  const X_LIMIT: real := 0.65

  predicate WithinWalk(c: Vec3)
  {
    0.0 <= c.a <= X_LIMIT
  }

  /** The sort key `triplet[0]`. */
  function ChromaticityX(c: Vec3): real
  {
    c.a
  }

  // ---------------------------------------------------------------------------
  // Confusion-line walks

  /** The chromoluminance (X/s, Y/s, Y), s = X + Y + Z, that the script writes
      out inline. The values are Python floats, so a zero sum raises. */
  function ChromoluminanceOf(xyz: Vec3): (r: Result<Vec3>)
    ensures r.Ok? <==> xyz.Sum() != 0.0
    ensures r.Err? ==> r.error == ZeroDivision
    ensures r.Ok? ==> r.value.a * xyz.Sum() == xyz.a && r.value.b * xyz.Sum() == xyz.b && r.value.c == xyz.b
  {
    if xyz.Sum() == 0.0 then Err(ZeroDivision) else Ok(Chromoluminance(xyz))
  }

  /** The activation `k` steps of ACTIVATION_STEP away from `start` in the
      L cone (below it when k < 0). */
  function Shifted(start: Vec3, k: int): Vec3
  {
    Vec3(start.a + (k as real) * ACTIVATION_STEP, start.b, start.c)
  }

  /** The chromoluminance of the walk's point `k` steps away from `start`. */
  function StepPoint(m: Mat3, start: Vec3, k: int): Result<Vec3>
  {
    ChromoluminanceOf(Apply(m, Shifted(start, k)))
  }

  /** `k` steps away the walk is at `c`, inside the range. */
  predicate Stays(m: Mat3, start: Vec3, k: int, c: Vec3)
  {
    StepPoint(m, start, k) == Ok(c) && WithinWalk(c)
  }

  /** `k` steps away the walk has left the range. */
  predicate Leaves(m: Mat3, start: Vec3, k: int)
  {
    StepPoint(m, start, k).Ok? && !WithinWalk(StepPoint(m, start, k).value)
  }

  /** `down` is the downward walk from `start`: the points 0, 1, 2, ... steps
      below it, as long as they stay in range, up to the first that does not. */
  predicate Descent(m: Mat3, start: Vec3, down: seq<Vec3>)
  {
    && (forall j :: 0 <= j < |down| ==> Stays(m, start, -j, down[j]))
    && Leaves(m, start, -(|down| as int))
  }

  /** `up` is the upward walk from `start`: nothing when the start is out of
      range, otherwise the points 1, 2, ... steps above it, as long as they stay
      in range, up to the first that does not. The start itself is never stored. */
  predicate Ascent(m: Mat3, start: Vec3, up: seq<Vec3>)
  {
    && (forall j :: 0 <= j < |up| ==> Stays(m, start, j + 1, up[j]))
    && StepPoint(m, start, 0).Ok?
    && (if WithinWalk(StepPoint(m, start, 0).value) then Leaves(m, start, |up| + 1) else up == [])
  }

  /** The downward walk (lines 148-156): store the point, lower L by one step,
      convert again, while x stays within [0, 0.65]. */
  method WalkDown(m: Mat3, start: Vec3, fuel: nat) returns (r: Result<seq<Vec3>>)
    ensures r.Ok? ==> Descent(m, start, r.value)
    ensures r.Err? ==> r.error == ZeroDivision || r.error == OutOfFuel
    ensures r == Err(ZeroDivision) ==> exists k: int :: -(fuel as int) <= k <= 0 && StepPoint(m, start, k).Err?
    ensures r == Err(OutOfFuel) ==>
      forall k: int :: -(fuel as int) < k <= 0 ==> StepPoint(m, start, k).Ok? && WithinWalk(StepPoint(m, start, k).value)
  {
    assert Shifted(start, 0) == start;
    var first := ChromoluminanceOf(Apply(m, start));
    if first.Err? {
      assert StepPoint(m, start, 0).Err?;
      return Err(ZeroDivision);
    }
    var point := first.value;
    var lms := start;
    var line: seq<Vec3> := [];
    var k: int := 0;
    while WithinWalk(point)
      invariant 0 <= k == |line| <= fuel
      invariant lms == Shifted(start, -k)
      invariant StepPoint(m, start, -k) == Ok(point)
      invariant forall j :: 0 <= j < k ==> Stays(m, start, -j, line[j])
      decreases fuel - k
    {
      if k == fuel {
        assert forall j :: 0 <= j < k ==> Stays(m, start, -j, line[j]);
        forall i: int | -(fuel as int) < i <= 0
          ensures StepPoint(m, start, i).Ok? && WithinWalk(StepPoint(m, start, i).value)
        {
          assert Stays(m, start, -(-i), line[-i]);
        }
        return Err(OutOfFuel);
      }
      line := line + [point];
      lms := Vec3(lms.a - ACTIVATION_STEP, lms.b, lms.c);
      k := k + 1;
      var next := ChromoluminanceOf(Apply(m, lms));
      if next.Err? {
        assert StepPoint(m, start, -k).Err?;
        return Err(ZeroDivision);
      }
      point := next.value;
    }
    return Ok(line);
  }

  /** The upward walk (lines 157-172): raise L by one step, convert, and store
      the point only if it is still in range. */
  method WalkUp(m: Mat3, start: Vec3, fuel: nat) returns (r: Result<seq<Vec3>>)
    ensures r.Ok? ==> Ascent(m, start, r.value)
    ensures r.Err? ==> r.error == ZeroDivision || r.error == OutOfFuel
    ensures r == Err(ZeroDivision) ==> exists k :: 0 <= k <= fuel && StepPoint(m, start, k).Err?
    ensures r == Err(OutOfFuel) ==>
      forall k :: 0 <= k <= fuel ==> StepPoint(m, start, k).Ok? && WithinWalk(StepPoint(m, start, k).value)
  {
    assert Shifted(start, 0) == start;
    var first := ChromoluminanceOf(Apply(m, start));
    if first.Err? {
      assert StepPoint(m, start, 0).Err?;
      return Err(ZeroDivision);
    }
    var point := first.value;
    var lms := start;
    var line: seq<Vec3> := [];
    var k: nat := 0;
    while WithinWalk(point)
      invariant k <= fuel
      invariant lms == Shifted(start, k)
      invariant StepPoint(m, start, k) == Ok(point)
      invariant StepPoint(m, start, 0) == first
      invariant k == 0 ==> line == []
      invariant k > 0 ==> WithinWalk(first.value)
      invariant k > 0 ==> |line| == if WithinWalk(point) then k else k - 1
      invariant forall j :: 0 <= j < |line| ==> Stays(m, start, j + 1, line[j])
      decreases fuel - k
    {
      if k == fuel {
        forall i | 0 <= i <= fuel
          ensures StepPoint(m, start, i).Ok? && WithinWalk(StepPoint(m, start, i).value)
        {
          if 0 < i {
            assert Stays(m, start, (i - 1) + 1, line[i - 1]);
          }
        }
        return Err(OutOfFuel);
      }
      lms := Vec3(lms.a + ACTIVATION_STEP, lms.b, lms.c);
      k := k + 1;
      var next := ChromoluminanceOf(Apply(m, lms));
      if next.Err? {
        assert StepPoint(m, start, k).Err?;
        return Err(ZeroDivision);
      }
      point := next.value;
      if WithinWalk(point) {
        line := line + [point];
      }
    }
    return Ok(line);
  }

  /** `line` is a confusion line of `start`: the two walks together, sorted
      ascending by x. */
  ghost predicate IsConfusionLine(m: Mat3, start: Vec3, line: seq<Vec3>)
  {
    exists down, up {:trigger Descent(m, start, down), Ascent(m, start, up)} ::
      && Descent(m, start, down) && Ascent(m, start, up)
      && Spectra.Ordered(line, ChromaticityX)
      && multiset(line) == multiset(down + up)
  }

  /** One confusion line (lines 138-175): the downward walk, the upward walk
      appended to it, then the in-place sort by x. */
  method ConfusionLine(m: Mat3, start: Vec3, fuel: nat) returns (r: Result<seq<Vec3>>, ghost down: seq<Vec3>, ghost up: seq<Vec3>)
    ensures r.Ok? ==> Descent(m, start, down) && Ascent(m, start, up)
    ensures r.Ok? ==> Spectra.Ordered(r.value, ChromaticityX) && multiset(r.value) == multiset(down + up)
    ensures r.Ok? ==> IsConfusionLine(m, start, r.value)
    ensures r.Err? ==> r.error == ZeroDivision || r.error == OutOfFuel
  {
    down, up := [], [];
    var d := WalkDown(m, start, fuel);
    if d.Err? {
      return Err(d.error), down, up;
    }
    var u := WalkUp(m, start, fuel);
    if u.Err? {
      return Err(u.error), down, up;
    }
    down, up := d.value, u.value;
    var line := Spectra.Sort(d.value + u.value, ChromaticityX);
    return Ok(line), down, up;
  }

  /** Every point of a confusion line is in range and comes from the walk. */
  lemma {:induction false} ConfusionLineInRange(m: Mat3, start: Vec3, line: seq<Vec3>)
    requires IsConfusionLine(m, start, line)
    ensures Spectra.Ordered(line, ChromaticityX)
    ensures forall c :: c in line ==> WithinWalk(c) && exists k :: StepPoint(m, start, k) == Ok(c)
  {
    var down, up :| Descent(m, start, down) && Ascent(m, start, up)
      && Spectra.Ordered(line, ChromaticityX) && multiset(line) == multiset(down + up);
    forall c | c in line
      ensures WithinWalk(c) && exists k :: StepPoint(m, start, k) == Ok(c)
    {
      assert c in multiset(line);
      assert c in down + up;
      var i :| 0 <= i < |down + up| && (down + up)[i] == c;
      if i < |down| {
        assert down[i] == c && Stays(m, start, -i, down[i]);
      } else {
        assert up[i - |down|] == c && Stays(m, start, (i - |down|) + 1, up[i - |down|]);
      }
    }
  }

  /** The luminance Y of the walk's point k steps away moves linearly with k. */
  lemma StepLuminance(m: Mat3, start: Vec3, k: int)
    requires StepPoint(m, start, k).Ok?
    ensures StepPoint(m, start, k).value.c == Dot(m.r1, start) + (k as real) * (ACTIVATION_STEP * m.r1.a)
  {
  }

  /** Points an unequal number of steps away differ when the L cone moves
      the luminance. */
  lemma StepsDiffer(m: Mat3, start: Vec3, k: int, l: int)
    requires m.r1.a != 0.0 && k != l
    requires StepPoint(m, start, k).Ok? && StepPoint(m, start, l).Ok?
    ensures StepPoint(m, start, k).value != StepPoint(m, start, l).value
  {
    StepLuminance(m, start, k);
    StepLuminance(m, start, l);
    var g := ACTIVATION_STEP * m.r1.a;
    assert g != 0.0;
    assert (k as real) * g - (l as real) * g == ((k - l) as real) * g;
    MulNonZero((k - l) as real, g);
  }

  lemma MulNonZero(a: real, b: real)
    requires a != 0.0 && b != 0.0
    ensures a * b != 0.0
  {
  }

  /** The start is stored once on a confusion line when it is in range (as the
      first point of the downward walk) and not at all otherwise: the upward
      walk begins one step above it. This needs the L cone to move the
      luminance, as it does for ColorBlindness.LMS_TO_XYZ. */
  lemma {:induction false} StartStoredOnce(m: Mat3, start: Vec3, line: seq<Vec3>)
    requires IsConfusionLine(m, start, line)
    requires m.r1.a != 0.0
    ensures StepPoint(m, start, 0).Ok?
    ensures var c := StepPoint(m, start, 0).value;
      multiset(line)[c] == if WithinWalk(c) then 1 else 0
  {
    var down, up :| Descent(m, start, down) && Ascent(m, start, up)
      && Spectra.Ordered(line, ChromaticityX) && multiset(line) == multiset(down + up);
    var c := StepPoint(m, start, 0).value;
    StartNotAscended(m, start, up);
    StartDescendedOnce(m, start, down);
    assert multiset(down + up) == multiset(down) + multiset(up);
  }

  /** The upward walk never stores the start. */
  lemma StartNotAscended(m: Mat3, start: Vec3, up: seq<Vec3>)
    requires Ascent(m, start, up) && m.r1.a != 0.0
    ensures multiset(up)[StepPoint(m, start, 0).value] == 0
  {
    var c := StepPoint(m, start, 0).value;
    if c in up {
      var j :| 0 <= j < |up| && up[j] == c;
      assert Stays(m, start, j + 1, up[j]);
      StepsDiffer(m, start, j + 1, 0);
    }
  }

  /** The downward walk stores the start first, if it is in range, and never again. */
  lemma StartDescendedOnce(m: Mat3, start: Vec3, down: seq<Vec3>)
    requires Descent(m, start, down) && m.r1.a != 0.0
    ensures StepPoint(m, start, 0).Ok?
    ensures var c := StepPoint(m, start, 0).value;
      multiset(down)[c] == if WithinWalk(c) then 1 else 0
  {
    if |down| == 0 {
      assert Leaves(m, start, -0);
    } else {
      assert Stays(m, start, -0, down[0]);
      var c := down[0];
      var rest := down[1..];
      if c in rest {
        var j :| 0 <= j < |rest| && rest[j] == c;
        assert Stays(m, start, -(j + 1), down[j + 1]);
        StepsDiffer(m, start, -(j + 1), 0);
      }
      assert down == [c] + rest;
    }
  }

  /** The L-cone activation moves the luminance under the script's conversion. */
  lemma LConeMovesLuminance()
    ensures ColorBlindness.LMS_TO_XYZ.r1.a != 0.0
  {
  }

  /** The three starting colours of the L-cone lines: grey, yellow and pink. */
  const L_CONE_START_COLORS: seq<Vec3> := [Vec3(0.5, 0.5, 0.5), Vec3(0.5, 0.5, 0.25), Vec3(0.5, 0.25, 0.5)]

  /** Lines 136-176: one confusion line per starting colour, from the colour's
      cone activation (`rgb_to_lms`) under the script's conversion. */
  method LConeConfusionLines(pow: (real, real) -> real, fuel: nat) returns (r: Result<seq<seq<Vec3>>>)
    ensures r.Ok? ==> |r.value| == |L_CONE_START_COLORS|
    ensures r.Ok? ==> forall i :: 0 <= i < |r.value| ==>
      var start := ColorBlindness.RgbToLms(L_CONE_START_COLORS[i], pow);
      start.Ok? && IsConfusionLine(ColorBlindness.LMS_TO_XYZ, start.value, r.value[i])
    ensures r.Err? ==> r.error == ZeroDivision || r.error == OutOfFuel
  {
    var lines: seq<seq<Vec3>> := [];
    for i := 0 to |L_CONE_START_COLORS|
      invariant |lines| == i
      invariant forall j :: 0 <= j < i ==> LineOfColor(L_CONE_START_COLORS[j], pow, lines[j])
    {
      var color := L_CONE_START_COLORS[i];
      assert color.InUnitCube();
      var line := LineFromColor(color, pow, fuel);
      if line.Err? {
        return Err(line.error);
      }
      lines := lines + [line.value];
    }
    return Ok(lines);
  }

  /** Lines 138-175 for one starting colour: its cone activation, then its
      confusion line. */
  method LineFromColor(color: Vec3, pow: (real, real) -> real, fuel: nat) returns (r: Result<seq<Vec3>>)
    requires color.InUnitCube()
    ensures r.Ok? ==> LineOfColor(color, pow, r.value)
    ensures r.Err? ==> r.error == ZeroDivision || r.error == OutOfFuel
  {
    var start := ColorBlindness.RgbToLms(color, pow).value;
    var line, down, up := ConfusionLine(ColorBlindness.LMS_TO_XYZ, start, fuel);
    return line;
  }

  /** `line` is the confusion line of the starting colour `color`. */
  ghost predicate LineOfColor(color: Vec3, pow: (real, real) -> real, line: seq<Vec3>)
  {
    var start := ColorBlindness.RgbToLms(color, pow);
    start.Ok? && IsConfusionLine(ColorBlindness.LMS_TO_XYZ, start.value, line)
  }

  // ---------------------------------------------------------------------------
  // Copunctal points

  /** A segment between two chromaticities. */
  datatype Segment = Segment(from: Point, to: Point)

  /** `intersection_two_segments` of two segments. */
  function Meeting(s: Segment, t: Segment): Intersection
  {
    IntersectionOfTwoSegments(s.from, s.to, t.from, t.to)
  }

  /** The chromaticity (X/s, Y/s) under `m` of a cone activation; a zero sum
      raises. */
  function ChromaticityOf(m: Mat3, lms: Vec3): (r: Result<Point>)
    ensures r.Ok? <==> Apply(m, lms).Sum() != 0.0
    ensures r.Err? ==> r.error == ZeroDivision
    ensures r.Ok? ==> r.value.x * Apply(m, lms).Sum() == Apply(m, lms).a
    ensures r.Ok? ==> r.value.y * Apply(m, lms).Sum() == Apply(m, lms).b
  {
    var xyz := Apply(m, lms);
    if xyz.Sum() == 0.0 then Err(ZeroDivision) else Ok(Point(xyz.a / xyz.Sum(), xyz.b / xyz.Sum()))
  }

  /** Scaling an activation leaves its chromaticity unchanged. */
  lemma ChromaticityOfScaled(m: Mat3, k: real, v: Vec3)
    requires k != 0.0
    ensures ChromaticityOf(m, Scale(k, v)) == ChromaticityOf(m, v)
  {
    ApplyOfScale(m, k, v);
    var xyz := Apply(m, v);
    assert Apply(m, Scale(k, v)) == Scale(k, xyz);
    ScaledChromaticity(k, xyz);
  }

  lemma ScaledChromaticity(k: real, xyz: Vec3)
    requires k != 0.0
    ensures Scale(k, xyz).Sum() == k * xyz.Sum()
    ensures xyz.Sum() != 0.0 ==>
      Scale(k, xyz).a / Scale(k, xyz).Sum() == xyz.a / xyz.Sum()
      && Scale(k, xyz).b / Scale(k, xyz).Sum() == xyz.b / xyz.Sum()
  {
    var s := xyz.Sum();
    assert Scale(k, xyz).Sum() == k * s;
    if s != 0.0 {
      ScaledQuotient(k, xyz.a, s);
      ScaledQuotient(k, xyz.b, s);
    }
  }

  lemma ScaledQuotient(k: real, a: real, s: real)
    requires k != 0.0 && s != 0.0
    ensures (k * a) / (k * s) == a / s
  {
    MulNonZero(k, s);
  }

  /** `ending_lms` (lines 205-208): the start's activation of `cone` less 0.1,
      the other cones at 0, so a pure activation of that cone. */
  function EndingLms(start: Vec3, cone: nat): (r: Vec3)
    requires cone < 3
    ensures r == Scale(start.At(cone) - 0.1, Unit(cone))
  {
    Vec3(if cone == 0 then start.a - 0.1 else 0.0,
         if cone == 1 then start.b - 0.1 else 0.0,
         if cone == 2 then start.c - 0.1 else 0.0)
  }

  /** One segment (lines 203-221): from the chromaticity of the start to that
      of its ending activation. */
  function SegmentOf(m: Mat3, start: Vec3, cone: nat): (r: Result<Segment>)
    requires cone < 3
    ensures r.Ok? <==> ChromaticityOf(m, start).Ok? && ChromaticityOf(m, EndingLms(start, cone)).Ok?
    ensures r.Ok? ==> r.value.from == ChromaticityOf(m, start).value
    ensures r.Err? ==> r.error == ZeroDivision
  {
    var from :- ChromaticityOf(m, start);
    var to :- ChromaticityOf(m, EndingLms(start, cone));
    Ok(Segment(from, to))
  }

  /** Every segment of a cone ends at the chromaticity of the cone's pure
      activation, unless the start's activation of that cone is exactly 0.1. */
  lemma SegmentEndsAtCone(m: Mat3, start: Vec3, cone: nat)
    requires cone < 3 && start.At(cone) != 0.1
    requires SegmentOf(m, start, cone).Ok?
    ensures ChromaticityOf(m, Unit(cone)).Ok?
    ensures SegmentOf(m, start, cone).value.to == ChromaticityOf(m, Unit(cone)).value
  {
    ChromaticityOfScaled(m, start.At(cone) - 0.1, Unit(cone));
  }

  /** The gamut edges a cone's segments are crossed with (lines 222-233):
      green-blue and blue-red, or for the S cone blue-red and red-green. */
  function GamutEdges(cone: nat): (nat, nat)
  {
    if cone == 2 then (2, 0) else (1, 2)
  }

  /** A segment's meetings with the two gamut edges of its cone. */
  datatype Crossings = Crossings(first: Intersection, second: Intersection)

  function CrossingsOf(s: Segment, gamut: seq<Segment>, cone: nat): Crossings
    requires |gamut| == 3
  {
    Crossings(Meeting(s, gamut[GamutEdges(cone).0]), Meeting(s, gamut[GamutEdges(cone).1]))
  }

  /** The display gamut's edges (lines 180-193), red to green, green to blue
      and blue to red, between the primaries' chromaticities: a closed triangle. */
  function GamutSegments(pow: (real, real) -> real): (r: Result<seq<Segment>>)
    ensures r.Ok? ==> |r.value| == 3
    ensures r.Ok? ==> forall i :: 0 <= i < 3 ==> r.value[i].to == r.value[(i + 1) % 3].from
  {
    var red :- RgbToChromoluminance(Vec3(1.0, 0.0, 0.0), false, None, pow);
    var green :- RgbToChromoluminance(Vec3(0.0, 1.0, 0.0), false, None, pow);
    var blue :- RgbToChromoluminance(Vec3(0.0, 0.0, 1.0), false, None, pow);
    var (r, g, b) := (Point(red.a, red.b), Point(green.a, green.b), Point(blue.a, blue.b));
    Ok([Segment(r, g), Segment(g, b), Segment(b, r)])
  }

  /** Each of the three gamut edges exists: the primaries have positive sums. */
  lemma GamutDefined(pow: (real, real) -> real)
    ensures GamutSegments(pow).Ok?
  {
    assert RgbToTristimulus(Vec3(1.0, 0.0, 0.0), false, None, pow).value.Sum() != 0.0;
    assert RgbToTristimulus(Vec3(0.0, 1.0, 0.0), false, None, pow).value.Sum() != 0.0;
    assert RgbToTristimulus(Vec3(0.0, 0.0, 1.0), false, None, pow).value.Sum() != 0.0;
  }

  /** `segments` and `crossings` are those of the starting colours (lines
      198-226): each colour's activation (`rgb_to_lms`), its segment towards
      the cone, and that segment's gamut crossings. */
  predicate Traced(m: Mat3, startColors: seq<Vec3>, cone: nat, gamut: seq<Segment>, pow: (real, real) -> real,
                   segments: seq<Segment>, crossings: seq<Crossings>)
    requires cone < 3 && |gamut| == 3
  {
    && |segments| == |startColors| && |crossings| == |startColors|
    && forall i :: 0 <= i < |startColors| ==>
      var start := ColorBlindness.RgbToLms(startColors[i], pow);
      && start.Ok?
      && SegmentOf(m, start.value, cone) == Ok(segments[i])
      && crossings[i] == CrossingsOf(segments[i], gamut, cone)
  }

  /** The loop over the starting colours of one cone (lines 201-234). */
  method TraceCone(m: Mat3, startColors: seq<Vec3>, cone: nat, gamut: seq<Segment>, pow: (real, real) -> real)
    returns (r: Result<(seq<Segment>, seq<Crossings>)>)
    requires cone < 3 && |gamut| == 3
    ensures r.Ok? ==> Traced(m, startColors, cone, gamut, pow, r.value.0, r.value.1)
    ensures r.Ok? <==> forall i :: 0 <= i < |startColors| ==>
      var start := ColorBlindness.RgbToLms(startColors[i], pow);
      start.Ok? && SegmentOf(m, start.value, cone).Ok?
    ensures r.Err? ==> r.error == AssertionError || r.error == ZeroDivision
  {
    var segments: seq<Segment> := [];
    var crossings: seq<Crossings> := [];
    for i := 0 to |startColors|
      invariant |segments| == i && |crossings| == i
      invariant forall j :: 0 <= j < i ==>
        var start := ColorBlindness.RgbToLms(startColors[j], pow);
        && start.Ok?
        && SegmentOf(m, start.value, cone) == Ok(segments[j])
        && crossings[j] == CrossingsOf(segments[j], gamut, cone)
    {
      var start := ColorBlindness.RgbToLms(startColors[i], pow);
      if start.Err? {
        return Err(start.error);
      }
      var segment := SegmentOf(m, start.value, cone);
      if segment.Err? {
        return Err(segment.error);
      }
      segments := segments + [segment.value];
      crossings := crossings + [CrossingsOf(segment.value, gamut, cone)];
    }
    return Ok((segments, crossings));
  }

  /** The estimates loop (lines 235-245): the first segment's meeting point
      with each later segment. */
  method MeetingEstimates(segments: seq<Segment>) returns (estimates: seq<Intersection>)
    ensures |estimates| == if |segments| == 0 then 0 else |segments| - 1
    ensures forall i :: 0 <= i < |estimates| ==> estimates[i] == Meeting(segments[0], segments[i + 1])
  {
    estimates := [];
    for index := 0 to |segments|
      invariant |estimates| == if index == 0 then 0 else index - 1
      invariant forall i :: 0 <= i < |estimates| ==> estimates[i] == Meeting(segments[0], segments[i + 1])
    {
      if index == 0 {
        continue;
      }
      estimates := estimates + [Meeting(segments[0], segments[index])];
    }
  }

  predicate AllMeet(s: seq<Intersection>)
  {
    forall i :: 0 <= i < |s| ==> s[i].Meet?
  }

  /** The component-wise sum of the meeting points. */
  function Total(s: seq<Intersection>): Point
    requires AllMeet(s)
  {
    if |s| == 0 then Point(0.0, 0.0)
    else
      var t := Total(s[..|s| - 1]);
      Point(t.x + s[|s| - 1].p.x, t.y + s[|s| - 1].p.y)
  }

  /** numpy `mean(estimates, axis = 0)`. It is a point only when every estimate
      is one: the (inf, inf) sentinel of parallel segments makes the mean
      infinite, and the mean of no estimates is NaN. */
  function MeanPoint(s: seq<Intersection>): (r: Option<Point>)
    ensures r.Some? <==> |s| > 0 && AllMeet(s)
    ensures r.Some? ==> (|s| as real) * r.value.x == Total(s).x && (|s| as real) * r.value.y == Total(s).y
  {
    if |s| == 0 || !AllMeet(s) then None
    else
      var t := Total(s);
      Some(Point(t.x / (|s| as real), t.y / (|s| as real)))
  }

  lemma {:induction false} TotalOfEqual(s: seq<Intersection>, q: Point)
    requires forall i :: 0 <= i < |s| ==> s[i] == Meet(q)
    ensures AllMeet(s)
    ensures Total(s) == Point((|s| as real) * q.x, (|s| as real) * q.y)
  {
    if |s| > 0 {
      TotalOfEqual(s[..|s| - 1], q);
    }
  }

  /** The mean of estimates that all agree is their common point. */
  lemma MeanOfEqual(s: seq<Intersection>, q: Point)
    requires |s| > 0
    requires forall i :: 0 <= i < |s| ==> s[i] == Meet(q)
    ensures MeanPoint(s) == Some(q)
  {
    TotalOfEqual(s, q);
    var n := |s| as real;
    var r := MeanPoint(s).value;
    MulCancel(n, r.x, q.x);
    MulCancel(n, r.y, q.y);
  }

  lemma MulCancel(n: real, a: real, b: real)
    requires n != 0.0 && n * a == n * b
    ensures a == b
  {
    assert n * (a - b) == 0.0;
  }

  /** Of the script's two estimates, the mean is their midpoint. */
  lemma MeanOfTwo(p: Point, q: Point)
    ensures MeanPoint([Meet(p), Meet(q)]) == Some(Point((p.x + q.x) / 2.0, (p.y + q.y) / 2.0))
  {
    var s := [Meet(p), Meet(q)];
    assert s[..1] == [Meet(p)];
    assert s[..1][..0] == [];
    assert Total(s[..1]) == Point(0.0 + p.x, 0.0 + p.y);
    assert Total(s) == Point(p.x + q.x, p.y + q.y);
  }

  /** What one cone contributes: its segments, their gamut crossings, the
      meeting-point estimates and their mean, the copunctal point. */
  datatype ConeEstimate = ConeEstimate(segments: seq<Segment>, crossings: seq<Crossings>,
                                       estimates: seq<Intersection>, copunctal: Option<Point>)

  predicate EstimatedCone(m: Mat3, startColors: seq<Vec3>, cone: nat, gamut: seq<Segment>,
                          pow: (real, real) -> real, e: ConeEstimate)
    requires cone < 3 && |gamut| == 3
  {
    && Traced(m, startColors, cone, gamut, pow, e.segments, e.crossings)
    && |e.estimates| == (if |e.segments| == 0 then 0 else |e.segments| - 1)
    && (forall i :: 0 <= i < |e.estimates| ==> e.estimates[i] == Meeting(e.segments[0], e.segments[i + 1]))
    && e.copunctal == MeanPoint(e.estimates)
  }

  /** One round of the cone loop (lines 194-246). */
  method EstimateCone(m: Mat3, startColors: seq<Vec3>, cone: nat, gamut: seq<Segment>, pow: (real, real) -> real)
    returns (r: Result<ConeEstimate>)
    requires cone < 3 && |gamut| == 3
    ensures r.Ok? ==> EstimatedCone(m, startColors, cone, gamut, pow, r.value)
    ensures r.Ok? <==> forall i :: 0 <= i < |startColors| ==>
      var start := ColorBlindness.RgbToLms(startColors[i], pow);
      start.Ok? && SegmentOf(m, start.value, cone).Ok?
    ensures r.Err? ==> r.error == AssertionError || r.error == ZeroDivision
  {
    var traced := TraceCone(m, startColors, cone, gamut, pow);
    if traced.Err? {
      return Err(traced.error);
    }
    var (segments, crossings) := traced.value;
    var estimates := MeetingEstimates(segments);
    return Ok(ConeEstimate(segments, crossings, estimates, MeanPoint(estimates)));
  }

  /** A cone's copunctal estimate is the chromaticity of the cone's pure
      activation wherever the segments are not parallel: every segment runs
      towards that chromaticity, so any two of them meet there. */
  lemma {:induction false} CopunctalIsConeChromaticity(m: Mat3, startColors: seq<Vec3>, cone: nat,
                                                       gamut: seq<Segment>, pow: (real, real) -> real,
                                                       e: ConeEstimate)
    requires cone < 3 && |gamut| == 3 && |startColors| >= 2
    requires EstimatedCone(m, startColors, cone, gamut, pow, e)
    requires forall i :: 0 <= i < |startColors| ==>
      var start := ColorBlindness.RgbToLms(startColors[i], pow);
      start.Ok? && start.value.At(cone) != 0.1
    requires AllMeet(e.estimates)
    ensures ChromaticityOf(m, Unit(cone)).Ok?
    ensures e.copunctal == Some(ChromaticityOf(m, Unit(cone)).value)
  {
    var start0 := ColorBlindness.RgbToLms(startColors[0], pow).value;
    SegmentEndsAtCone(m, start0, cone);
    var q := ChromaticityOf(m, Unit(cone)).value;
    forall i | 0 <= i < |e.estimates|
      ensures e.estimates[i] == Meet(q)
    {
      var start := ColorBlindness.RgbToLms(startColors[i + 1], pow).value;
      SegmentEndsAtCone(m, start, cone);
      var (s, t) := (e.segments[0], e.segments[i + 1]);
      assert s.to == q && t.to == q;
      assert OnLine(q, s.from, s.to) && OnLine(q, t.from, t.to);
      assert e.estimates[i] == Meeting(s, t);
      MeetIsUnique(s.from, s.to, t.from, t.to, q);
    }
    MeanOfEqual(e.estimates, q);
  }

  const GREY: Vec3 := Vec3(0.5, 0.5, 0.5)
  const YELLOW: Vec3 := Vec3(0.5, 0.5, 0.25)
  const PINK: Vec3 := Vec3(0.5, 0.25, 0.5)
  const CYAN: Vec3 := Vec3(0.25, 0.5, 0.5)

  /** The starting colours per cone (lines 196-200): yellow, grey and pink for
      the L and M cones, cyan, grey and pink for the S cone. */
  const CONE_START_COLORS: seq<seq<Vec3>> := [[YELLOW, GREY, PINK], [YELLOW, GREY, PINK], [CYAN, GREY, PINK]]

  /** The copunctal region (lines 179-246): the gamut edges, then one estimate
      per cone. */
  method CopunctalPoints(m: Mat3, pow: (real, real) -> real) returns (r: Result<seq<ConeEstimate>>)
    ensures r.Ok? ==> GamutSegments(pow).Ok? && |r.value| == 3
    ensures r.Ok? ==> forall cone :: 0 <= cone < 3 ==>
      EstimatedCone(m, CONE_START_COLORS[cone], cone, GamutSegments(pow).value, pow, r.value[cone])
    ensures r.Err? ==> r.error == AssertionError || r.error == ZeroDivision
  {
    var gamut := GamutSegments(pow);
    if gamut.Err? {
      return Err(gamut.error);
    }
    var cones: seq<ConeEstimate> := [];
    for cone := 0 to 3
      invariant |cones| == cone
      invariant forall k :: 0 <= k < cone ==>
        EstimatedCone(m, CONE_START_COLORS[k], k, gamut.value, pow, cones[k])
    {
      var e := EstimateCone(m, CONE_START_COLORS[cone], cone, gamut.value, pow);
      if e.Err? {
        return Err(e.error);
      }
      cones := cones + [e.value];
    }
    return Ok(cones);
  }

  // ---------------------------------------------------------------------------
  // Colour bands

  /** Where each starting colour's band is drawn (lines 247-251): its left and
      right ends at the band's middle height. */
  const BAND_ENDPOINTS: seq<(Point, Point)> := [
    (Point(0.3, 0.825), Point(0.65, 0.825)),
    (Point(0.4, 0.75), Point(0.75, 0.75)),
    (Point(0.5, 0.675), Point(0.85, 0.675))]

  const BAND_HEIGHT: real := 0.05

  /** The arbitrarily low luminance Y at which the band colours are converted. */
  const BAND_LUMINANCE: real := 0.05

  /** The fractions of the way between the two crossings at which the cells'
      colours are taken. */
  const BAND_FRACTIONS: seq<real> := Linspace(0.0, 1.0, RESOLUTION)

  /** The band's cell edges: RESOLUTION + 1 evenly spaced xs between its ends. */
  function BandXs(band: nat): seq<real>
    requires band < 3
  {
    Linspace(BAND_ENDPOINTS[band].0.x, BAND_ENDPOINTS[band].1.x, RESOLUTION + 1)
  }

  /** Cell `i` of band `band` (lines 264-289): a closed path around the
      rectangle from xs[i] to xs[i + 1], BAND_HEIGHT high about the band's
      middle. */
  function Cell(band: nat, i: nat): seq<Point>
    requires band < 3 && i < RESOLUTION
  {
    var xs := BandXs(band);
    var y := BAND_ENDPOINTS[band].0.y;
    var (low, high) := (y - BAND_HEIGHT / 2.0, y + BAND_HEIGHT / 2.0);
    [Point(xs[i], low), Point(xs[i + 1], low), Point(xs[i + 1], high), Point(xs[i], high), Point(xs[i], low)]
  }

  /** Each cell is a closed axis-parallel rectangle, one RESOLUTION-th of the
      band wide and BAND_HEIGHT high. */
  lemma CellRectangle(band: nat, i: nat)
    requires band < 3 && i < RESOLUTION
    ensures var (c, ends) := (Cell(band, i), BAND_ENDPOINTS[band]);
      && |c| == 5 && c[0] == c[4]
      && c[0].y == c[1].y && c[1].x == c[2].x && c[2].y == c[3].y && c[3].x == c[0].x
      && c[1].x - c[0].x == (ends.1.x - ends.0.x) / (RESOLUTION as real)
      && c[3].y - c[0].y == BAND_HEIGHT
  {
    var ends := BAND_ENDPOINTS[band];
    var xs := BandXs(band);
    var step := (ends.1.x - ends.0.x) / (RESOLUTION as real);
    assert xs[i] == ends.0.x + (i as real) * step;
    assert xs[i + 1] == ends.0.x + ((i + 1) as real) * step;
  }

  /** The cells tile the band: consecutive cells share an edge, the first
      starts at the band's left end and the last stops at its right end. */
  lemma CellsTile(band: nat)
    requires band < 3
    ensures Cell(band, 0)[0].x == BAND_ENDPOINTS[band].0.x
    ensures Cell(band, RESOLUTION - 1)[1].x == BAND_ENDPOINTS[band].1.x
    ensures forall i :: 0 <= i < RESOLUTION - 1 ==>
      Cell(band, i + 1)[0] == Cell(band, i)[1] && Cell(band, i + 1)[3] == Cell(band, i)[2]
  {
  }

  /** The chromaticity a fraction `value` of the way from the first crossing to
      the second (lines 290-297). A parallel crossing's (inf, inf) sentinel
      gives an infinite or NaN chromaticity, which the range check of
      `chromoluminance_to_rgb` rejects. */
  function BandChromaticity(c: Crossings, value: real): (r: Result<Point>)
    ensures r.Ok? <==> c.first.Meet? && c.second.Meet?
    ensures r.Err? ==> r.error == AssertionError
  {
    if c.first.Parallel? || c.second.Parallel? then Err(AssertionError)
    else
      var (p, q) := (c.first.p, c.second.p);
      Ok(Point(p.x + value * (q.x - p.x), p.y + value * (q.y - p.y)))
  }

  /** The first cell takes the first crossing, the last the second, and every
      cell a point of the segment between them. */
  lemma BandChromaticityBetween(c: Crossings, value: real)
    requires c.first.Meet? && c.second.Meet?
    requires 0.0 <= value <= 1.0
    ensures value == 0.0 ==> BandChromaticity(c, value) == Ok(c.first.p)
    ensures value == 1.0 ==> BandChromaticity(c, value) == Ok(c.second.p)
    ensures OnLine(BandChromaticity(c, value).value, c.first.p, c.second.p)
    ensures Between(BandChromaticity(c, value).value.x, c.first.p.x, c.second.p.x)
    ensures Between(BandChromaticity(c, value).value.y, c.first.p.y, c.second.p.y)
  {
    var (p, q) := (c.first.p, c.second.p);
    var b := BandChromaticity(c, value).value;
    assert b.x == p.x + value * (q.x - p.x) && b.y == p.y + value * (q.y - p.y);
    BetweenEnds(p.x, q.x, value);
    BetweenEnds(p.y, q.y, value);
    assert Between(b.x, p.x, q.x) && Between(b.y, p.y, q.y);
    assert (b.x - p.x) * (q.y - p.y) == value * ((q.x - p.x) * (q.y - p.y));
    assert (b.y - p.y) * (q.x - p.x) == value * ((q.y - p.y) * (q.x - p.x));
  }

  /** `w` lies between `u` and `v`, whichever is larger. */
  predicate Between(w: real, u: real, v: real)
  {
    (u <= v ==> u <= w <= v) && (v <= u ==> v <= w <= u)
  }

  /** u + t (v - u) for t in [0, 1] lies between u and v. */
  lemma BetweenEnds(u: real, v: real, t: real)
    requires 0.0 <= t <= 1.0
    ensures Between(u + t * (v - u), u, v)
  {
    if u <= v {
      MulNonNegative(t, v - u);
      MulNonNegative(1.0 - t, v - u);
    } else {
      MulNonNegative(t, u - v);
      MulNonNegative(1.0 - t, u - v);
    }
  }

  /** The colour of one cell (lines 290-299): the chromaticity converted at
      luminance BAND_LUMINANCE without gamma correction, then divided by its
      largest channel. Dividing numpy values 0 by 0 raises nothing, so black
      gives a NaN colour, None here. */
  function BandColor(c: Crossings, value: real, pow: (real, real) -> real): (r: Result<Option<Vec3>>)
    ensures !(c.first.Meet? && c.second.Meet?) ==> r == Err(AssertionError)
    ensures r.Err? ==> r.error == AssertionError
    ensures r.Ok? && r.value.Some? ==> r.value.value.InUnitCube() && ColorBlindStimulus.MaxChannel(r.value.value) == 1.0
  {
    var p :- BandChromaticity(c, value);
    var rgb :- ChromoluminanceToRgb(Vec3(p.x, p.y, BAND_LUMINANCE), false, None, pow);
    match ColorBlindStimulus.Saturated(rgb.rgb)
    case Ok(v) => Ok(Some(v))
    case Err(_) => Ok(None)
  }

  /** A colour band's cell paths and colours. */
  datatype ColorBand = ColorBand(paths: seq<seq<Point>>, colors: seq<Option<Vec3>>)

  predicate IsBand(c: Crossings, band: nat, pow: (real, real) -> real, b: ColorBand)
    requires band < 3
  {
    && |b.paths| == RESOLUTION && |b.colors| == RESOLUTION
    && forall i :: 0 <= i < RESOLUTION ==>
      b.paths[i] == Cell(band, i) && BandColor(c, BAND_FRACTIONS[i], pow) == Ok(b.colors[i])
  }

  /** One band (lines 255-301): a cell and its colour per fraction. */
  method BuildBand(c: Crossings, band: nat, pow: (real, real) -> real) returns (r: Result<ColorBand>)
    requires band < 3
    ensures r.Ok? ==> IsBand(c, band, pow, r.value)
    ensures r.Ok? <==> forall i :: 0 <= i < RESOLUTION ==> BandColor(c, BAND_FRACTIONS[i], pow).Ok?
    ensures r.Err? ==> r.error == AssertionError
  {
    var paths: seq<seq<Point>> := [];
    var colors: seq<Option<Vec3>> := [];
    for i := 0 to RESOLUTION
      invariant |paths| == i && |colors| == i
      invariant forall j :: 0 <= j < i ==>
        paths[j] == Cell(band, j) && BandColor(c, BAND_FRACTIONS[j], pow) == Ok(colors[j])
    {
      var color := BandColor(c, BAND_FRACTIONS[i], pow);
      if color.Err? {
        return Err(color.error);
      }
      paths := paths + [Cell(band, i)];
      colors := colors + [color.value];
    }
    return Ok(ColorBand(paths, colors));
  }

  /** The bands of one cone, one per crossing pair; a fourth pair would have
      no band position and raise IndexError. */
  method ConeBands(crossings: seq<Crossings>, pow: (real, real) -> real) returns (r: Result<seq<ColorBand>>)
    ensures r.Ok? ==> |crossings| <= 3 && |r.value| == |crossings|
    ensures r.Ok? ==> forall j :: 0 <= j < |crossings| ==> IsBand(crossings[j], j, pow, r.value[j])
    ensures 3 < |crossings| ==> r.Err?
  {
    var bands: seq<ColorBand> := [];
    for j := 0 to |crossings|
      invariant |bands| == j <= 3
      invariant forall k :: 0 <= k < j ==> IsBand(crossings[k], k, pow, bands[k])
    {
      if j >= 3 {
        return Err(IndexError);
      }
      var band := BuildBand(crossings[j], j, pow);
      if band.Err? {
        return Err(band.error);
      }
      bands := bands + [band.value];
    }
    return Ok(bands);
  }

  /** The band region (lines 252-302): the bands of every cone. */
  method ColorBands(cones: seq<ConeEstimate>, pow: (real, real) -> real) returns (r: Result<seq<seq<ColorBand>>>)
    ensures r.Ok? ==> |r.value| == |cones|
    ensures r.Ok? ==> forall k :: 0 <= k < |cones| ==>
      |cones[k].crossings| <= 3 && |r.value[k]| == |cones[k].crossings|
      && forall j :: 0 <= j < |cones[k].crossings| ==> IsBand(cones[k].crossings[j], j, pow, r.value[k][j])
  {
    var all: seq<seq<ColorBand>> := [];
    for k := 0 to |cones|
      invariant |all| == k
      invariant forall l :: 0 <= l < k ==>
        |cones[l].crossings| <= 3 && |all[l]| == |cones[l].crossings|
        && forall j :: 0 <= j < |cones[l].crossings| ==> IsBand(cones[l].crossings[j], j, pow, all[l][j])
    {
      var bands := ConeBands(cones[k].crossings, pow);
      if bands.Err? {
        return Err(bands.error);
      }
      all := all + [bands.value];
    }
    return Ok(all);
  }
}
