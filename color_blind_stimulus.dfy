/** generation/color_blind_stimulus.py: a colour-blind test image of randomly
    placed circles. Random positions in the square field are kept when they
    fall inside the circular field; circles of decreasing sizes are then
    placed greedily, each clear of the field's border, of the two ring
    borders and of every circle already placed. A circle belongs to the hidden
    "C" figure when it lies in the middle ring outside the gap window; its
    chromaticity is drawn from one side of the confusion line through the
    middle colour, and its luminance from a band below the largest luminance
    both ends of the chromaticity range can reach.

    `numpy.random.rand` is replaced by sequences of draws in [0, 1) passed in
    by the caller; `arctan2`, `cos`, `sin` and `**` come in a `Numpy` record. */
module ColorBlindStimulus {
  import opened Wrappers
  import opened LinearAlgebra
  import opened Numerics
  import opened Functions
  import opened RgbCieConversions
  import ColorBlind

  type Numpy = ColorBlind.Numpy

  const FIELD_RADIUS: real := 1.0
  const INITIAL_COUNT: nat := 16384
  const GAP_SIZE: real := 0.01
  const INNER_BORDER: real := (1.0 / 3.0) * FIELD_RADIUS
  const OUTER_BORDER: real := (2.0 / 3.0) * FIELD_RADIUS

  /** `list(linspace(0.04, 0.01, 8) * FIELD_RADIUS)`: the circle sizes, largest first. */
  const SIZES: seq<real> := Scaled(Linspace(0.04, 0.01, 8), FIELD_RADIUS)

  function Scaled(s: seq<real>, k: real): (r: seq<real>)
    ensures |r| == |s| && forall i :: 0 <= i < |s| ==> r[i] == s[i] * k
  {
    seq(|s|, (i: int) requires 0 <= i < |s| => s[i] * k)
  }

  /** Every size lies between 0.01 and 0.04, so is positive. */
  lemma SizesPositive()
    ensures |SIZES| == 8
    ensures forall i :: 0 <= i < |SIZES| ==> 0.01 <= SIZES[i] <= 0.04
  {
    forall i | 0 <= i < 8 ensures 0.01 <= SIZES[i] <= 0.04 {
      LinspaceWithinReversed(0.04, 0.01, 8, i);
    }
  }

  // ---------------------------------------------------------------------------
  // Random positions

  /** A candidate position: (x, y, distance, angle). */
  datatype Candidate = Candidate(x: real, y: real, distance: real, angle: real)

  /** `-FIELD_RADIUS + 2.0 * rand() * FIELD_RADIUS`. */
  function Spread(u: real): (r: real)
    ensures 0.0 <= u < 1.0 ==> -FIELD_RADIUS <= r < FIELD_RADIUS
  {
    -FIELD_RADIUS + 2.0 * u * FIELD_RADIUS
  }

  /** The candidate made from one pair of draws, with its distance from the
      centre and its `arctan2` angle. */
  function Drawn(draw: (real, real), lib: Numpy): Candidate
  {
    var x := Spread(draw.0);
    var y := Spread(draw.1);
    Candidate(x, y, Hypot(x, y, lib.pow), lib.atan2(y, x))
  }

  /** Every candidate the draws give. */
  function AllDrawn(draws: seq<(real, real)>, lib: Numpy): set<Candidate>
  {
    set i | 0 <= i < |draws| :: Drawn(draws[i], lib)
  }

  /** Lines 101-120: the candidates, in order, that lie within the circular
      field. Exactly those survive: each kept one is drawn and within the
      field, and each drawn one within the field is kept. */
  function Candidates(draws: seq<(real, real)>, lib: Numpy): (r: seq<Candidate>)
    ensures |r| <= |draws|
    ensures forall k :: 0 <= k < |r| ==> r[k].distance <= FIELD_RADIUS && r[k] in AllDrawn(draws, lib)
    ensures forall i :: 0 <= i < |draws| && Drawn(draws[i], lib).distance <= FIELD_RADIUS ==>
      Drawn(draws[i], lib) in r
  {
    if |draws| == 0 then []
    else
      var n := |draws| - 1;
      var rest := Candidates(draws[..n], lib);
      var c := Drawn(draws[n], lib);
      assert forall i :: 0 <= i < n ==> draws[..n][i] == draws[i];
      assert AllDrawn(draws[..n], lib) <= AllDrawn(draws, lib);
      if c.distance <= FIELD_RADIUS then rest + [c] else rest
  }

  // ---------------------------------------------------------------------------
  // Placing circles

  datatype Circle = Circle(at: Candidate, size: real)

  /** The circle of this size would cross the ring border at `border`. */
  predicate Straddles(distance: real, size: real, border: real)
  {
    distance - size <= border && distance + size >= border
  }

  /** Lines 130-141: inside the field and clear of both ring borders. */
  predicate Admissible(p: Candidate, size: real)
  {
    && !(p.distance + size > FIELD_RADIUS)
    && !Straddles(p.distance, size, INNER_BORDER)
    && !Straddles(p.distance, size, OUTER_BORDER)
  }

  /** Lines 155-163: a circle of this size at p is not too close to c. */
  predicate Clear(p: Candidate, size: real, c: Circle, pow: (real, real) -> real)
  {
    !(Hypot(p.x - c.at.x, p.y - c.at.y, pow) < size + c.size + GAP_SIZE)
  }

  /** A circle of this size at p is clear of every circle in cs. */
  predicate ClearOfAll(p: Candidate, size: real, cs: seq<Circle>, pow: (real, real) -> real)
  {
    forall k :: 0 <= k < |cs| ==> Clear(p, size, cs[k], pow)
  }

  /** What holds of the circles placed so far: each admissible, and each clear
      of every circle placed before it. */
  predicate Placed(cs: seq<Circle>, pow: (real, real) -> real)
  {
    && (forall k :: 0 <= k < |cs| ==> Admissible(cs[k].at, cs[k].size))
    && (forall i, j :: 0 <= i < j < |cs| ==> Clear(cs[j].at, cs[j].size, cs[i], pow))
  }

  predicate Ascending(s: seq<nat>)
  {
    forall i, j :: 0 <= i < j < |s| ==> s[i] < s[j]
  }

  /** The positions at the listed indices. */
  function Taken(ps: seq<Candidate>, idx: seq<nat>): (r: seq<Candidate>)
    requires forall j :: 0 <= j < |idx| ==> idx[j] < |ps|
    ensures |r| == |idx| && forall j :: 0 <= j < |idx| ==> r[j] == ps[idx[j]]
  {
    seq(|idx|, (j: int) requires 0 <= j < |idx| && forall l :: 0 <= l < |idx| ==> idx[l] < |ps| => ps[idx[j]])
  }

  /** Circles of one size at the given positions. */
  function Sized(ps: seq<Candidate>, size: real): (r: seq<Circle>)
    ensures |r| == |ps| && forall j :: 0 <= j < |ps| ==> r[j] == Circle(ps[j], size)
  {
    seq(|ps|, (j: int) requires 0 <= j < |ps| => Circle(ps[j], size))
  }

  /** The positions of the circles. */
  function Centres(cs: seq<Circle>): (r: seq<Candidate>)
    ensures |r| == |cs| && forall j :: 0 <= j < |cs| ==> r[j] == cs[j].at
  {
    seq(|cs|, (j: int) requires 0 <= j < |cs| => cs[j].at)
  }

  lemma CentresOfPass(cs: seq<Circle>, ps: seq<Candidate>, size: real)
    ensures Centres(cs + Sized(ps, size)) == Centres(cs) + ps
  {
    assert Centres(cs + Sized(ps, size)) == Centres(cs) + ps by {
      assert forall j :: 0 <= j < |cs| + |ps| ==> Centres(cs + Sized(ps, size))[j] == (Centres(cs) + ps)[j];
    }
  }

  /** Lines 154-164: the loop over the circles already placed, left at the
      first one that is too close. */
  method ClearOfPlaced(p: Candidate, size: real, circles: seq<Circle>, pow: (real, real) -> real)
    returns (place: bool)
    ensures place <==> ClearOfAll(p, size, circles, pow)
  {
    place := true;
    var k := 0;
    while k < |circles|
      invariant 0 <= k <= |circles|
      invariant place && forall l :: 0 <= l < k ==> Clear(p, size, circles[l], pow)
    {
      if Hypot(p.x - circles[k].at.x, p.y - circles[k].at.y, pow) < size + circles[k].size + GAP_SIZE {
        place := false;
        break;
      }
      k := k + 1;
    }
  }

  /** Blocked by some circle of a prefix is blocked by the whole. */
  lemma BlockedStays(p: Candidate, size: real, cur: seq<Circle>, more: seq<Circle>, pow: (real, real) -> real)
    requires !ClearOfAll(p, size, cur, pow)
    ensures !ClearOfAll(p, size, cur + more, pow)
  {
    var k :| 0 <= k < |cur| && !Clear(p, size, cur[k], pow);
    assert (cur + more)[k] == cur[k];
  }

  /** Lines 127-172, one pass over the positions for one size: the circles
      placed are exactly those at the returned ascending indices, each clear of
      every circle before it; a position passed over is inadmissible or too
      close to some circle (the first circle is placed with no check at all,
      since it has nothing to be close to). */
  method PlacePass(positions: seq<Candidate>, circles: seq<Circle>, size: real, pow: (real, real) -> real)
    returns (placed: seq<Circle>, toPop: seq<nat>)
    requires Placed(circles, pow)
    ensures Ascending(toPop) && forall j :: 0 <= j < |toPop| ==> toPop[j] < |positions|
    ensures placed == circles + Sized(Taken(positions, toPop), size)
    ensures Placed(placed, pow)
    ensures forall i :: 0 <= i < |positions| && i !in toPop ==>
      !Admissible(positions[i], size) || !ClearOfAll(positions[i], size, placed, pow)
  {
    placed, toPop := circles, [];
    for index := 0 to |positions|
      invariant Ascending(toPop) && forall j :: 0 <= j < |toPop| ==> toPop[j] < index
      invariant placed == circles + Sized(Taken(positions, toPop), size)
      invariant Placed(placed, pow)
      invariant forall i :: 0 <= i < index && i !in toPop ==>
        !Admissible(positions[i], size) || !ClearOfAll(positions[i], size, placed, pow)
    {
      var position := positions[index];
      if Admissible(position, size) {
        var place := true;
        if |placed| != 0 {
          place := ClearOfPlaced(position, size, placed, pow);
        }
        if place {
          PlacedExtend(placed, position, size, pow);
          PassExtend(positions, circles, placed, toPop, index, size, pow);
          placed := placed + [Circle(position, size)];
          toPop := toPop + [index];
        }
      }
    }
  }

  /** A circle admissible and clear of all the placed ones can join them. */
  lemma PlacedExtend(cs: seq<Circle>, p: Candidate, size: real, pow: (real, real) -> real)
    requires Placed(cs, pow) && Admissible(p, size) && ClearOfAll(p, size, cs, pow)
    ensures Placed(cs + [Circle(p, size)], pow)
  {
    var next := cs + [Circle(p, size)];
    forall i, j | 0 <= i < j < |next| ensures Clear(next[j].at, next[j].size, next[i], pow) {
      if j < |cs| {
        assert next[j] == cs[j] && next[i] == cs[i];
      } else {
        assert next[i] == cs[i];
      }
    }
  }

  /** Placing at `index` keeps the pass invariants other than Placed. */
  lemma PassExtend(positions: seq<Candidate>, circles: seq<Circle>, placed: seq<Circle>, toPop: seq<nat>,
                   index: nat, size: real, pow: (real, real) -> real)
    requires index < |positions|
    requires Ascending(toPop) && forall j :: 0 <= j < |toPop| ==> toPop[j] < index
    requires placed == circles + Sized(Taken(positions, toPop), size)
    requires forall i :: 0 <= i < index && i !in toPop ==>
      !Admissible(positions[i], size) || !ClearOfAll(positions[i], size, placed, pow)
    ensures var next := placed + [Circle(positions[index], size)];
      var more := toPop + [index];
      && Ascending(more) && (forall j :: 0 <= j < |more| ==> more[j] < index + 1)
      && next == circles + Sized(Taken(positions, more), size)
      && (forall i :: 0 <= i < index + 1 && i !in more ==>
            !Admissible(positions[i], size) || !ClearOfAll(positions[i], size, next, pow))
  {
    var next := placed + [Circle(positions[index], size)];
    var more := toPop + [index];
    AppendOne(positions, toPop, index, size);
    forall i | 0 <= i < index + 1 && i !in more && Admissible(positions[i], size)
      ensures !ClearOfAll(positions[i], size, next, pow)
    {
      assert i !in toPop;
      BlockedStays(positions[i], size, placed, [Circle(positions[index], size)], pow);
    }
  }

  lemma AppendOne(ps: seq<Candidate>, idx: seq<nat>, i: nat, size: real)
    requires i < |ps| && forall j :: 0 <= j < |idx| ==> idx[j] < |ps|
    ensures Sized(Taken(ps, idx + [i]), size) == Sized(Taken(ps, idx), size) + [Circle(ps[i], size)]
  {
    assert Sized(Taken(ps, idx + [i]), size) == Sized(Taken(ps, idx), size) + [Circle(ps[i], size)] by {
      assert forall j :: 0 <= j <= |idx| ==>
        Sized(Taken(ps, idx + [i]), size)[j] == (Sized(Taken(ps, idx), size) + [Circle(ps[i], size)])[j];
    }
  }

  /** The first index popped so far, or the length when none is. */
  function Limit(n: nat, idx: seq<nat>, k: nat): nat
    requires k <= |idx|
  {
    if k == |idx| then n else idx[k]
  }

  /** Lines 173-175: the placed indices popped from the last to the first, so
      that each pop leaves the earlier indices where they were. Exactly the
      listed positions go, each once. */
  method PopPlaced(positions: seq<Candidate>, toPop: seq<nat>) returns (rest: seq<Candidate>)
    requires Ascending(toPop) && forall j :: 0 <= j < |toPop| ==> toPop[j] < |positions|
    ensures |rest| == |positions| - |toPop|
    ensures multiset(rest) + multiset(Taken(positions, toPop)) == multiset(positions)
  {
    rest := positions;
    var k := |toPop|;
    while k > 0
      invariant 0 <= k <= |toPop|
      invariant |rest| == |positions| - (|toPop| - k)
      invariant Limit(|positions|, toPop, k) <= |rest|
      invariant rest[..Limit(|positions|, toPop, k)] == positions[..Limit(|positions|, toPop, k)]
      invariant multiset(rest) + multiset(Taken(positions, toPop[k..])) == multiset(positions)
    {
      PopStep(positions, toPop, k - 1, rest);
      k := k - 1;
      var index := toPop[k];
      rest := rest[..index] + rest[index + 1..];
    }
    assert toPop[0..] == toPop;
  }

  /** One pop: the entry at toPop[k] is still the original one. */
  lemma PopStep(positions: seq<Candidate>, toPop: seq<nat>, k: nat, rest: seq<Candidate>)
    requires Ascending(toPop) && forall j :: 0 <= j < |toPop| ==> toPop[j] < |positions|
    requires k < |toPop|
    requires Limit(|positions|, toPop, k + 1) <= |rest|
    requires rest[..Limit(|positions|, toPop, k + 1)] == positions[..Limit(|positions|, toPop, k + 1)]
    requires multiset(rest) + multiset(Taken(positions, toPop[k + 1..])) == multiset(positions)
    ensures var index := toPop[k];
      var next := rest[..index] + rest[index + 1..];
      && index < |rest|
      && Limit(|positions|, toPop, k) <= |next|
      && next[..Limit(|positions|, toPop, k)] == positions[..Limit(|positions|, toPop, k)]
      && multiset(next) + multiset(Taken(positions, toPop[k..])) == multiset(positions)
  {
    var index := toPop[k];
    var limit := Limit(|positions|, toPop, k + 1);
    assert index < limit;
    assert rest[index] == rest[..limit][index] == positions[index];
    var next := rest[..index] + rest[index + 1..];
    assert rest == rest[..index] + [rest[index]] + rest[index + 1..];
    assert multiset(rest) == multiset(next) + multiset{positions[index]};
    assert Taken(positions, toPop[k..]) == [positions[index]] + Taken(positions, toPop[k + 1..]);
    assert next[..index] == rest[..index];
    assert rest[..index] == rest[..limit][..index];
  }

  /** The total of the per-size counts. */
  function CountTotal(counts: seq<(real, nat)>): nat
  {
    if |counts| == 0 then 0 else CountTotal(counts[..|counts| - 1]) + counts[|counts| - 1].1
  }

  /** Lines 124-176: one pass per size, largest first. Every circle placed is
      inside the field, clear of both ring borders and clear of every earlier
      circle; each has one of the sizes; the candidates used and those left
      are together the candidates started with, so none is used twice; the
      counts name the sizes in order and add up to the number of circles. */
  method PlaceCircles(candidates: seq<Candidate>, pow: (real, real) -> real)
    returns (circles: seq<Circle>, counts: seq<(real, nat)>, left: seq<Candidate>)
    ensures Placed(circles, pow)
    ensures forall k :: 0 <= k < |circles| ==> circles[k].size in SIZES
    ensures multiset(Centres(circles)) + multiset(left) == multiset(candidates)
    ensures |counts| == |SIZES| && forall k :: 0 <= k < |counts| ==> counts[k].0 == SIZES[k]
    ensures CountTotal(counts) == |circles|
  {
    circles, counts, left := [], [], candidates;
    for s := 0 to |SIZES|
      invariant Placed(circles, pow)
      invariant forall k :: 0 <= k < |circles| ==> circles[k].size in SIZES[..s]
      invariant multiset(Centres(circles)) + multiset(left) == multiset(candidates)
      invariant |counts| == s && forall k :: 0 <= k < s ==> counts[k].0 == SIZES[k]
      invariant CountTotal(counts) == |circles|
    {
      var size := SIZES[s];
      ghost var before := circles;
      var placedCount;
      circles, left, placedCount := PlaceSize(left, circles, size, pow);
      assert forall k :: 0 <= k < |before| ==> circles[k] == before[k];
      assert (counts + [(size, placedCount)])[..s] == counts;
      counts := counts + [(size, placedCount)];
    }
  }

  /** Lines 127-175, the body of the loop over the sizes: the pass over the
      positions, then the pops. The new circles, all of this size, follow the
      old ones, and the positions they take are gone from those left. */
  method PlaceSize(positions: seq<Candidate>, circles: seq<Circle>, size: real, pow: (real, real) -> real)
    returns (placed: seq<Circle>, rest: seq<Candidate>, count: nat)
    requires Placed(circles, pow)
    ensures Placed(placed, pow)
    ensures |placed| == |circles| + count
    ensures forall k :: 0 <= k < |circles| ==> placed[k] == circles[k]
    ensures forall k :: |circles| <= k < |placed| ==> placed[k].size == size
    ensures multiset(Centres(placed)) + multiset(rest) == multiset(Centres(circles)) + multiset(positions)
  {
    var toPop;
    placed, toPop := PlacePass(positions, circles, size, pow);
    CentresOfPass(circles, Taken(positions, toPop), size);
    rest := positions;
    if |toPop| > 0 {
      rest := PopPlaced(positions, toPop);
    } else {
      assert Taken(positions, toPop) == [];
    }
    count := |toPop|;
  }

  // ---------------------------------------------------------------------------
  // Foreground or background

  const STIMULUS_GAP_DIRECTIONS: map<string, real> :=
    map["Up" := PI / 2.0, "Right" := 0.0, "Down" := -PI / 2.0, "Left" := PI]
  /** STIMULUS_GAP_NAME is 'Left'. */
  const STIMULUS_GAP_DIRECTION: real := PI
  const STIMULUS_GAP_WIDTH: real := PI / 6.0

  /** Lines 235-252: in the middle ring and outside the gap window about
      `direction`; the window about pi wraps round, so it has its own test. */
  predicate InStimulus(c: Circle, direction: real)
  {
    && INNER_BORDER < c.at.distance < OUTER_BORDER
    && (if direction != PI then
          c.at.angle < direction - STIMULUS_GAP_WIDTH || c.at.angle > direction + STIMULUS_GAP_WIDTH
        else
          c.at.angle < PI - STIMULUS_GAP_WIDTH && c.at.angle > -PI + STIMULUS_GAP_WIDTH)
  }

  function Abs(v: real): real
  {
    if v < 0.0 then -v else v
  }

  /** The angle between two directions, going the shorter way round. */
  function CircularDistance(a: real, d: real): real
  {
    var e := Abs(a - d);
    if e <= TWO_PI - e then e else TWO_PI - e
  }

  /** For each of the four gap directions and every `arctan2` angle, the angle
      test is "further than the gap half-width from the gap direction, going
      the shorter way round". */
  lemma InStimulusByCircularDistance(c: Circle, name: string)
    requires name in STIMULUS_GAP_DIRECTIONS && -PI < c.at.angle <= PI
    ensures InStimulus(c, STIMULUS_GAP_DIRECTIONS[name]) <==>
      (INNER_BORDER < c.at.distance < OUTER_BORDER
       && CircularDistance(c.at.angle, STIMULUS_GAP_DIRECTIONS[name]) > STIMULUS_GAP_WIDTH)
  {
  }

  /** The general test applied to the direction pi would accept an angle
      just above -pi, which lies inside the gap window: the reason for the
      separate case. */
  lemma GeneralTestMissesWrap()
    ensures var a := -PI + STIMULUS_GAP_WIDTH / 2.0;
      && (a < PI - STIMULUS_GAP_WIDTH || a > PI + STIMULUS_GAP_WIDTH)
      && CircularDistance(a, PI) < STIMULUS_GAP_WIDTH
  {
  }

  /** A placed circle of positive size lies wholly inside the open ring when
      its centre does, and wholly outside it otherwise. */
  lemma DiscOnOneSide(c: Circle)
    requires Admissible(c.at, c.size) && 0.0 < c.size
    ensures INNER_BORDER < c.at.distance < OUTER_BORDER ==>
      INNER_BORDER < c.at.distance - c.size && c.at.distance + c.size < OUTER_BORDER
    ensures !(INNER_BORDER < c.at.distance < OUTER_BORDER) ==>
      c.at.distance + c.size < INNER_BORDER || OUTER_BORDER < c.at.distance - c.size
  {
  }

  // ---------------------------------------------------------------------------
  // The chromaticity distribution and the maximum luminance

  datatype Cone = LCone | MCone | SCone

  /** COPUNCTAL_POINTS. */
  function Copunctal(cone: Cone): Point
  {
    match cone
    case LCone => Point(0.746, 0.254)
    case MCone => Point(1.400, -0.400)
    case SCone => Point(0.175, 0.000)
  }

  const MIDDLE_COLOR: Vec3 := Vec3(0.5, 0.5, 0.5)
  const CHROMATIC_LOW: real := 0.0
  const CHROMATIC_HIGH: real := 0.6
  const MAXIMUM_ALLOWED_LUMINANCE: real := 0.4
  const LUMINANCE_LOW: real := 0.75
  const LUMINANCE_HIGH: real := 0.95
  const STIMULUS_CHROMATIC_SIGN: real := 1.0

  /** A `float('inf')`-capable length. */
  type Distance = ColorBlind.Distance

  /** The xy chromaticity of an RGB colour without gamma correction. */
  function Chromaticity(rgb: Vec3, pow: (real, real) -> real): Result<Point>
  {
    var xyy :- RgbToChromoluminance(rgb, false, None, pow);
    Ok(Point(xyy.a, xyy.b))
  }

  /** Distance from the middle chromaticity to where the line from the
      copunctal point through it meets the line of a gamut edge; parallel
      lines give `(inf, inf)` and so an infinite distance. */
  function EdgeDistance(cp: Point, middle: Point, v1: Point, v2: Point, pow: (real, real) -> real): (r: Distance)
    ensures r.Infinite? <==> IntersectionOfTwoSegments(cp, middle, v1, v2).Parallel?
    ensures r.Finite? && RootFacts(pow) ==> 0.0 <= r.length
  {
    match IntersectionOfTwoSegments(cp, middle, v1, v2)
    case Parallel => ColorBlind.Infinite
    case Meet(q) =>
      var d := Hypot(middle.x - q.x, middle.y - q.y, pow);
      assert RootFacts(pow) ==> 0.0 <= d by {
        if RootFacts(pow) {
          HypotFacts(middle.x - q.x, middle.y - q.y, pow);
        }
      }
      ColorBlind.Finite(d)
  }

  /** `min` of two lengths, infinity being larger than every length. */
  function Shorter(d: Distance, e: Distance): (r: Distance)
    ensures r == d || r == e
    ensures r.Infinite? <==> d.Infinite? && e.Infinite?
    ensures r.Finite? && d.Finite? ==> r.length <= d.length
    ensures r.Finite? && e.Finite? ==> r.length <= e.length
  {
    if d.Infinite? then e
    else if e.Infinite? then d
    else if e.length < d.length then e else d
  }

  /** What the colour steps of the script work from. */
  datatype Palette = Palette(copunctal: Point, middle: Point, angle: real, radius: real,
                             maxDistance: real, maxLuminance: real)

  /** Lines 255-288: the two ends of the chromaticity range, on the line
      through the copunctal point at the middle colour's angle. */
  function ChromaticityBound(cp: Point, angle: real, radius: real, maxDistance: real, sign: real,
                             lib: Numpy): Point
  {
    var r := radius + sign * maxDistance * CHROMATIC_HIGH;
    Point(cp.x + r * lib.cos(angle), cp.y + r * lib.sin(angle))
  }

  /** The two ends lie either side of the middle chromaticity, symmetrically,
      `2 * 0.6 * maximum_distance` apart along the line. */
  lemma BoundsAroundMiddle(cp: Point, middle: Point, maxDistance: real, lib: Numpy)
    requires PolarOfAtan2(lib.atan2, lib.cos, lib.sin, lib.pow) && RootFacts(lib.pow)
    requires middle != cp
    ensures var angle := AngleAbout(cp, middle, lib);
      var radius := RadiusAbout(cp, middle, lib);
      var lo := ChromaticityBound(cp, angle, radius, maxDistance, -1.0, lib);
      var hi := ChromaticityBound(cp, angle, radius, maxDistance, 1.0, lib);
      && lo.x + hi.x == 2.0 * middle.x && lo.y + hi.y == 2.0 * middle.y
      && hi.x - lo.x == 2.0 * CHROMATIC_HIGH * maxDistance * lib.cos(angle)
      && hi.y - lo.y == 2.0 * CHROMATIC_HIGH * maxDistance * lib.sin(angle)
  {
    PolarOfMiddle(cp, middle, lib);
    var angle := AngleAbout(cp, middle, lib);
    var radius := RadiusAbout(cp, middle, lib);
    EndsAroundMiddle(cp, middle, angle, radius, maxDistance, lib);
  }

  /** The middle chromaticity in polar coordinates about the copunctal point. */
  lemma PolarOfMiddle(cp: Point, middle: Point, lib: Numpy)
    requires PolarOfAtan2(lib.atan2, lib.cos, lib.sin, lib.pow) && RootFacts(lib.pow)
    requires middle != cp
    ensures var angle := AngleAbout(cp, middle, lib);
      var radius := RadiusAbout(cp, middle, lib);
      radius * lib.cos(angle) == middle.x - cp.x && radius * lib.sin(angle) == middle.y - cp.y
  {
    var dx, dy := middle.x - cp.x, middle.y - cp.y;
    assert dx != 0.0 || dy != 0.0;
    assert Hypot(dx, dy, lib.pow) == lib.pow(dx * dx + dy * dy, 0.5);
  }

  lemma EndsAroundMiddle(cp: Point, middle: Point, angle: real, radius: real, maxDistance: real, lib: Numpy)
    requires radius * lib.cos(angle) == middle.x - cp.x && radius * lib.sin(angle) == middle.y - cp.y
    ensures var lo := ChromaticityBound(cp, angle, radius, maxDistance, -1.0, lib);
      var hi := ChromaticityBound(cp, angle, radius, maxDistance, 1.0, lib);
      && lo.x + hi.x == 2.0 * middle.x && lo.y + hi.y == 2.0 * middle.y
      && hi.x - lo.x == 2.0 * CHROMATIC_HIGH * maxDistance * lib.cos(angle)
      && hi.y - lo.y == 2.0 * CHROMATIC_HIGH * maxDistance * lib.sin(angle)
  {
    AxisBounds(cp.x, radius, lib.cos(angle), maxDistance, middle.x);
    AxisBounds(cp.y, radius, lib.sin(angle), maxDistance, middle.y);
  }

  /** One coordinate of the two ends. */
  lemma AxisBounds(c0: real, radius: real, t: real, maxDistance: real, m: real)
    requires radius * t == m - c0
    ensures var lo := c0 + (radius + -1.0 * maxDistance * CHROMATIC_HIGH) * t;
      var hi := c0 + (radius + 1.0 * maxDistance * CHROMATIC_HIGH) * t;
      lo + hi == 2.0 * m && hi - lo == 2.0 * CHROMATIC_HIGH * maxDistance * t
  {
  }

  /** `chromoluminance_to_rgb` without gamma correction: clipped to the unit
      cube. */
  function LinearRgb(xyy: Vec3, pow: (real, real) -> real): (r: Result<Vec3>)
    ensures r.Ok? ==> r.value.InUnitCube()
    ensures !ChromoluminanceInRange(xyy) ==> r.Err?
    ensures r.Err? ==> r.error == AssertionError
  {
    var color :- ChromoluminanceToRgb(xyy, false, None, pow);
    Ok(color.rgb)
  }

  /** Python's `max` of the three channels. */
  function MaxChannel(v: Vec3): (m: real)
    ensures m == v.a || m == v.b || m == v.c
    ensures v.a <= m && v.b <= m && v.c <= m
  {
    var ab := if v.b > v.a then v.b else v.a;
    if v.c > ab then v.c else ab
  }

  /** `value / max(color_bound)` for each channel: the largest channel
      becomes 1. A black colour divides 0 by 0, and the NaN fails the range
      check of `rgb_to_chromoluminance`. */
  function Saturated(rgb: Vec3): (r: Result<Vec3>)
    requires rgb.InUnitCube()
    ensures r.Ok? <==> MaxChannel(rgb) != 0.0
    ensures r.Err? ==> r.error == AssertionError
    ensures r.Ok? ==> r.value.InUnitCube() && MaxChannel(r.value) == 1.0
  {
    var m := MaxChannel(rgb);
    if m == 0.0 then Err(AssertionError)
    else
      SaturatedInCube(rgb, m);
      Ok(Vec3(rgb.a / m, rgb.b / m, rgb.c / m))
  }

  lemma SaturatedInCube(rgb: Vec3, m: real)
    requires rgb.InUnitCube() && m == MaxChannel(rgb) && m != 0.0
    ensures var v := Vec3(rgb.a / m, rgb.b / m, rgb.c / m);
      v.InUnitCube() && MaxChannel(v) == 1.0
  {
    assert 0.0 < m;
    DivBounds(rgb.a, m);
    DivBounds(rgb.b, m);
    DivBounds(rgb.c, m);
    var v := Vec3(rgb.a / m, rgb.b / m, rgb.c / m);
    assert v.a <= 1.0 && v.b <= 1.0 && v.c <= 1.0;
    SelfQuotient(m);
    assert v.a == 1.0 || v.b == 1.0 || v.c == 1.0;
    var top := MaxChannel(v);
    assert 1.0 <= top;
  }

  lemma SelfQuotient(m: real)
    requires m != 0.0
    ensures m / m == 1.0
  {
  }

  /** The luminance Y a unit-cube colour converts to, within [0, 1]. */
  function UnitLuminance(rgb: Vec3, pow: (real, real) -> real): (r: real)
    requires rgb.InUnitCube()
    ensures 0.0 <= r <= 1.0
  {
    LinearLuminance(rgb, pow);
    RgbToChromoluminance(rgb, false, None, pow).value.c
  }

  /** Without gamma correction every unit-cube colour has a chromoluminance,
      and its luminance is in [0, 1]: black takes the white's chromaticity. */
  lemma LinearLuminance(rgb: Vec3, pow: (real, real) -> real)
    requires rgb.InUnitCube()
    ensures RgbToChromoluminance(rgb, false, None, pow).Ok?
    ensures 0.0 <= RgbToChromoluminance(rgb, false, None, pow).value.c <= 1.0
  {
    LinearTristimulus(rgb, pow);
    if Apply(Coefficients.SRGB_TO_XYZ_2, rgb).Sum() == 0.0 {
      LinearTristimulus(Vec3(1.0, 1.0, 1.0), pow);
      BlackLuminance(rgb, pow);
    }
  }

  /** Without gamma correction the tristimulus values are the default matrix
      applied to the colour, and pass the input checks of the way back. */
  lemma LinearTristimulus(rgb: Vec3, pow: (real, real) -> real)
    requires rgb.InUnitCube()
    ensures RgbToTristimulus(rgb, false, None, pow) == Ok(Apply(Coefficients.SRGB_TO_XYZ_2, rgb))
    ensures TristimulusInRange(Apply(Coefficients.SRGB_TO_XYZ_2, rgb))
  {
    SrgbTristimulusInRange(rgb);
  }

  lemma BlackLuminance(rgb: Vec3, pow: (real, real) -> real)
    requires rgb.InUnitCube()
    requires RgbToTristimulus(rgb, false, None, pow) == Ok(Apply(Coefficients.SRGB_TO_XYZ_2, rgb))
    requires Apply(Coefficients.SRGB_TO_XYZ_2, rgb).Sum() == 0.0
    requires RgbToTristimulus(Vec3(1.0, 1.0, 1.0), false, None, pow)
          == Ok(Apply(Coefficients.SRGB_TO_XYZ_2, Vec3(1.0, 1.0, 1.0)))
    ensures RgbToChromoluminance(rgb, false, None, pow).Ok?
    ensures RgbToChromoluminance(rgb, false, None, pow).value.c == 0.0
  {
    assert Apply(Coefficients.SRGB_TO_XYZ_2, Vec3(1.0, 1.0, 1.0)).Sum() > 0.0;
  }

  /** Lines 289-307 for one end: the colour at luminance 0.05, saturated,
      and the luminance of the saturated colour, within [0, 1]. */
  function SaturatedLuminance(bound: Point, pow: (real, real) -> real): (r: Result<real>)
    ensures r.Ok? ==> 0.0 <= r.value <= 1.0
    ensures !ChromoluminanceInRange(Vec3(bound.x, bound.y, 0.05)) ==> r == Err(AssertionError)
    ensures r.Err? ==> r.error == AssertionError
  {
    var rgb :- LinearRgb(Vec3(bound.x, bound.y, 0.05), pow);
    var saturated :- Saturated(rgb);
    Ok(UnitLuminance(saturated, pow))
  }

  /** Line 308: the smaller of the luminance bounds and the allowed maximum. */
  function MaximumLuminance(bounds: seq<real>): (r: real)
    ensures r <= MAXIMUM_ALLOWED_LUMINANCE
    ensures forall i :: 0 <= i < |bounds| ==> r <= bounds[i]
    ensures r == MAXIMUM_ALLOWED_LUMINANCE || r in bounds
  {
    var all := bounds + [MAXIMUM_ALLOWED_LUMINANCE];
    assert forall i :: 0 <= i < |bounds| ==> all[i] == bounds[i];
    assert all[|bounds|] == MAXIMUM_ALLOWED_LUMINANCE;
    SeqMin(all)
  }

  /** Lines 188-197: the polar coordinates of p about cp. */
  function AngleAbout(cp: Point, p: Point, lib: Numpy): real
  {
    lib.atan2(p.y - cp.y, p.x - cp.x)
  }

  function RadiusAbout(cp: Point, p: Point, lib: Numpy): real
  {
    Hypot(p.x - cp.x, p.y - cp.y, lib.pow)
  }

  /** Lines 198-232: the shorter distance from the middle chromaticity to the
      two gamut edges the confusion line crosses (blue-red, and red-green for
      the S cone or green-blue otherwise). An infinite distance makes the ends
      of the range infinite or NaN, which the range check of
      `chromoluminance_to_rgb` refuses; a finite one is a length. */
  function MaximumDistance(cone: Cone, cp: Point, middle: Point, pow: (real, real) -> real): (r: Result<real>)
    ensures r.Ok? && RootFacts(pow) ==> 0.0 <= r.value
    ensures r.Err? ==> r.error == AssertionError
  {
    var red :- Chromaticity(Vec3(1.0, 0.0, 0.0), pow);
    var green :- Chromaticity(Vec3(0.0, 1.0, 0.0), pow);
    var blue :- Chromaticity(Vec3(0.0, 0.0, 1.0), pow);
    var first := EdgeDistance(cp, middle, blue, red, pow);
    var second := if cone == SCone then EdgeDistance(cp, middle, red, green, pow)
                  else EdgeDistance(cp, middle, green, blue, pow);
    var shortest := Shorter(first, second);
    if shortest.Infinite? then Err(AssertionError)
    else Ok(shortest.length)
  }

  /** Lines 184-308: the middle chromaticity and its polar coordinates about
      the copunctal point, the maximum distance, and the maximum luminance,
      which is at most the allowed 0.4 and not negative. */
  function StimulusPalette(cone: Cone, lib: Numpy): (r: Result<Palette>)
    ensures r.Ok? ==> 0.0 <= r.value.maxLuminance <= MAXIMUM_ALLOWED_LUMINANCE
    ensures r.Ok? && RootFacts(lib.pow) ==> 0.0 <= r.value.maxDistance
    ensures r.Ok? ==> (r.value.copunctal == Copunctal(cone)
      && r.value.angle == AngleAbout(r.value.copunctal, r.value.middle, lib)
      && r.value.radius == RadiusAbout(r.value.copunctal, r.value.middle, lib))
  {
    var pow := lib.pow;
    var cp := Copunctal(cone);
    var middle :- Chromaticity(MIDDLE_COLOR, pow);
    var angle := AngleAbout(cp, middle, lib);
    var radius := RadiusAbout(cp, middle, lib);
    var maxDistance :- MaximumDistance(cone, cp, middle, pow);
    var lo := ChromaticityBound(cp, angle, radius, maxDistance, -1.0, lib);
    var hi := ChromaticityBound(cp, angle, radius, maxDistance, 1.0, lib);
    var low :- SaturatedLuminance(lo, pow);
    var high :- SaturatedLuminance(hi, pow);
    Ok(Palette(cp, middle, angle, radius, maxDistance, MaximumLuminance([low, high])))
  }

  // ---------------------------------------------------------------------------
  // Circle colours

  /** Lines 326-334: the distance from the copunctal point along the line,
      on the foreground side for the figure and the other side otherwise. */
  function ChromaDistance(fg: bool, u: real, p: Palette): real
  {
    p.radius + (if fg then STIMULUS_CHROMATIC_SIGN else -STIMULUS_CHROMATIC_SIGN)
      * p.maxDistance * (CHROMATIC_LOW + u * (CHROMATIC_HIGH - CHROMATIC_LOW))
  }

  /** Lines 341-344: the luminance, within the saturation band below the maximum. */
  function CircleLuminance(v: real, p: Palette): real
  {
    p.maxLuminance * (LUMINANCE_LOW + v * (LUMINANCE_HIGH - LUMINANCE_LOW))
  }

  /** For draws in [0, 1): a figure circle lies at most 0.6 of the maximum
      distance beyond the middle chromaticity, a background circle at most
      that far before it, and the luminance lies between 75 % and 95 % of the
      maximum. */
  lemma CircleSides(fg: bool, u: real, v: real, p: Palette)
    requires 0.0 <= u < 1.0 && 0.0 <= v < 1.0
    requires 0.0 <= p.maxDistance && 0.0 <= p.maxLuminance
    ensures fg ==> p.radius <= ChromaDistance(fg, u, p) <= p.radius + CHROMATIC_HIGH * p.maxDistance
    ensures !fg ==> p.radius - CHROMATIC_HIGH * p.maxDistance <= ChromaDistance(fg, u, p) <= p.radius
    ensures LUMINANCE_LOW * p.maxLuminance <= CircleLuminance(v, p) <= LUMINANCE_HIGH * p.maxLuminance
  {
    var t := u * (CHROMATIC_HIGH - CHROMATIC_LOW);
    assert 0.0 <= t <= CHROMATIC_HIGH;
    MulNonNegative(p.maxDistance, t);
    MulNonNegative(p.maxDistance, CHROMATIC_HIGH - t);
    var w := v * (LUMINANCE_HIGH - LUMINANCE_LOW);
    assert 0.0 <= w <= LUMINANCE_HIGH - LUMINANCE_LOW;
    MulNonNegative(p.maxLuminance, w);
    MulNonNegative(p.maxLuminance, LUMINANCE_HIGH - LUMINANCE_LOW - w);
  }

  /** The colour of one circle, from its pair of draws. */
  function CircleColor(c: Circle, draw: (real, real), p: Palette, lib: Numpy): Result<ClippedRgb>
  {
    var d := ChromaDistance(InStimulus(c, STIMULUS_GAP_DIRECTION), draw.0, p);
    var chroma := Point(p.copunctal.x + d * lib.cos(p.angle), p.copunctal.y + d * lib.sin(p.angle));
    ChromoluminanceToRgb(Vec3(chroma.x, chroma.y, CircleLuminance(draw.1, p)), false, None, lib.pow)
  }

  /** Lines 324-347: the colour of every circle in turn; the first colour
      outside the convertible range raises. */
  method CircleColors(circles: seq<Circle>, draws: nat -> (real, real), p: Palette, lib: Numpy)
    returns (r: Result<seq<Vec3>>)
    ensures r.Ok? <==> forall k :: 0 <= k < |circles| ==> CircleColor(circles[k], draws(k), p, lib).Ok?
    ensures r.Ok? ==> (|r.value| == |circles| &&
      forall k :: 0 <= k < |circles| ==> r.value[k] == CircleColor(circles[k], draws(k), p, lib).value.rgb)
    ensures r.Err? ==> r.error == AssertionError
  {
    var colors: seq<Vec3> := [];
    for k := 0 to |circles|
      invariant |colors| == k
      invariant forall l :: 0 <= l < k ==> CircleColor(circles[l], draws(l), p, lib).Ok?
      invariant forall l :: 0 <= l < k ==> colors[l] == CircleColor(circles[l], draws(l), p, lib).value.rgb
    {
      var color := CircleColor(circles[k], draws(k), p, lib);
      if color.Err? {
        return Err(color.error);
      }
      colors := colors + [color.value.rgb];
    }
    return Ok(colors);
  }

  /** The script from the random positions to the circle colours: the
      circles placed from the candidates within the field, and their
      colours. The `k`-th pair of colour draws goes to the `k`-th circle. */
  method Stimulus(positionDraws: seq<(real, real)>, colorDraws: nat -> (real, real), cone: Cone, lib: Numpy)
    returns (circles: seq<Circle>, palette: Result<Palette>, colors: Result<seq<Vec3>>)
    requires |positionDraws| == INITIAL_COUNT
    ensures Placed(circles, lib.pow)
    ensures forall k :: 0 <= k < |circles| ==> circles[k].size in SIZES && circles[k].at in AllDrawn(positionDraws, lib)
    ensures multiset(Centres(circles)) <= multiset(Candidates(positionDraws, lib))
    ensures palette == StimulusPalette(cone, lib)
    ensures colors.Ok? ==> (palette.Ok? && |colors.value| == |circles| &&
      forall k :: 0 <= k < |circles| ==>
        var color := CircleColor(circles[k], colorDraws(k), palette.value, lib);
        color.Ok? && colors.value[k] == color.value.rgb)
  {
    var candidates := Candidates(positionDraws, lib);
    var counts, left;
    circles, counts, left := PlaceCircles(candidates, lib.pow);
    forall k | 0 <= k < |circles| ensures circles[k].at in AllDrawn(positionDraws, lib) {
      assert circles[k].at == Centres(circles)[k];
      assert circles[k].at in multiset(candidates);
    }
    palette := StimulusPalette(cone, lib);
    if palette.Err? {
      return circles, palette, Err(palette.error);
    }
    colors := CircleColors(circles, colorDraws, palette.value, lib);
  }

  /** Lines 317-323: the 'Mean' background, the middle chromaticity at the
      middle of the circles' luminance band. */
  function MeanBackground(p: Palette, pow: (real, real) -> real): (r: Result<ClippedRgb>)
    ensures r.Ok? ==> ChromoluminanceInRange(Vec3(p.middle.x, p.middle.y, CircleLuminance(0.5, p)))
  {
    var luminance := p.maxLuminance * ((LUMINANCE_LOW + LUMINANCE_HIGH) / 2.0);
    assert luminance == CircleLuminance(0.5, p);
    ChromoluminanceToRgb(Vec3(p.middle.x, p.middle.y, luminance), false, None, pow)
  }
}
