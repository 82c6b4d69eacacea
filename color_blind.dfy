/** maths/color_blind.py: `filter_image`, which moves every colour of an image
    onto one arc about the copunctal point of a missing cone type. The radius
    of the arc is the distance of the image's count-weighted mean chromaticity
    from that point. The arc's angular extent stays two degrees inside the
    sRGB gamut triangle. Each colour keeps its hue angle (clamped to the arc)
    and, as far as the display allows, its luminance.

    The image is a two-dimensional array of pixels as in ColorBlindFilters;
    the result is a fresh array of 8-bit RGB triples of the same size. The
    numpy and scipy routines the filter calls (`arctan2`, `cos`, `sin`, `**`,
    `fminbound`) are passed in as a `Numpy` record. */
module ColorBlind {
  import opened Wrappers
  import opened LinearAlgebra
  import opened Numerics
  import opened Functions
  import opened ColorConversion
  import opened Coefficients
  import CC = ChromaticityConversion
  import Coloration
  import opened ColorBlindFilters

  // ---------------------------------------------------------------------------
  // Library routines

  /** The value `distance_to_edge` returns: a length, or infinity when the arc
      direction is parallel to the edge (the `(inf, inf)` intersection makes
      every later step infinite). */
  datatype Distance = Finite(length: real) | Infinite

  datatype Numpy = Numpy(
    atan2: (real, real) -> real,
    cos: real -> real,
    sin: real -> real,
    pow: (real, real) -> real,
    fminbound: (real -> Distance, real, real) -> real)

  /** `fminbound(func, x1, x2)` returns a point of [x1, x2]; nothing is assumed
      about how close it comes to the minimum. */
  ghost predicate BoundedMinimizer(fminbound: (real -> Distance, real, real) -> real)
  {
    forall f, lo, hi :: lo <= hi ==> lo <= fminbound(f, lo, hi) <= hi
  }

  // ---------------------------------------------------------------------------
  // Cone types

  /** The CONE enum. */
  function ConeName(c: CC.Center): string
  {
    match c
    case Long => "long"
    case Medium => "medium"
    case Short => "short"
    case D65 => "d65"
  }

  /** `assert any(cone == valid.value for valid in CONE)`: one of the three cone
      names, whose copunctal point is then looked up. */
  function ParseCone(cone: string): (r: Result<CC.Center>)
    ensures r.Ok? <==> cone in {"long", "medium", "short"}
    ensures r.Ok? ==> r.value != CC.D65 && ConeName(r.value) == cone
    ensures r.Err? ==> r.error == AssertionError
  {
    if cone == "long" then Ok(CC.Long)
    else if cone == "medium" then Ok(CC.Medium)
    else if cone == "short" then Ok(CC.Short)
    else Err(AssertionError)
  }

  /** Each cone is found again from its name. */
  lemma ParseConeName(c: CC.Center)
    requires c != CC.D65
    ensures ParseCone(ConeName(c)) == Ok(c)
  {
  }

  // ---------------------------------------------------------------------------
  // Chromaticities of the image's colours

  /** `value / 255.0` for each channel. */
  function Unit(k: Rgb8): (v: Vec3)
    ensures v.InUnitCube()
  {
    Vec3(k.r as real / 255.0, k.g as real / 255.0, k.b as real / 255.0)
  }

  /** `xyz_to_xyy(*rgb_to_xyz(*unit))`: sRGB without gamma decoding. Every
      8-bit colour has one, so the conversion never raises here. */
  function Chromoluminance(k: Rgb8, pow: (real, real) -> real): (r: Vec3)
    ensures Coloration.RgbToXyy(Unit(k), Srgb, false, SRGB_TO_XYZ_2, pow) == Ok(r)
  {
    Coloration.XyyDefined(Unit(k), Srgb, false, SRGB_TO_XYZ_2, pow);
    Coloration.RgbToXyy(Unit(k), Srgb, false, SRGB_TO_XYZ_2, pow).value
  }

  /** The conversion as a function value, so that the loops below can be
      stated for any conversion. */
  function ChromoluminanceOf(pow: (real, real) -> real): Rgb8 -> Vec3
  {
    (k: Rgb8) => Chromoluminance(k, pow)
  }

  /** `original_chromoluminances` for the listed colours. */
  function Chromas(order: seq<Rgb8>, convert: Rgb8 -> Vec3): map<Rgb8, Vec3>
  {
    map k | k in order :: convert(k)
  }

  /** The sum of count times chromaticity coordinate `channel` (0 for x, 1 for
      y) over the listed colours, in their order. */
  function Weighted(order: seq<Rgb8>, counts: map<Rgb8, int>, chroma: map<Rgb8, Vec3>, channel: nat): real
    requires channel < 2
    requires forall k :: k in order ==> k in counts && k in chroma
  {
    if |order| == 0 then 0.0
    else
      var last := order[|order| - 1];
      Weighted(order[..|order| - 1], counts, chroma, channel) + Times(counts[last], chroma[last].At(channel))
  }

  /** `color_count * coordinate`. */
  function Times(n: int, v: real): real
  {
    (n as real) * v
  }

  /** The loop over `original_unique_colors.items()`: the chromoluminance of
      each colour, and the sums of count * x, count * y and count. The
      conversion is `ChromoluminanceOf(pow)` in `FilterImage`. */
  method Accumulate(h: Histogram, convert: Rgb8 -> Vec3)
      returns (chroma: map<Rgb8, Vec3>, sumX: real, sumY: real, sumCount: real)
    requires forall k :: k in h.order ==> k in h.counts
    ensures chroma == Chromas(h.order, convert)
    ensures sumX == Weighted(h.order, h.counts, chroma, 0)
    ensures sumY == Weighted(h.order, h.counts, chroma, 1)
    ensures sumCount == Total(h.order, h.counts) as real
  {
    chroma, sumX, sumY, sumCount := map[], 0.0, 0.0, 0.0;
    for i := 0 to |h.order|
      invariant chroma == Chromas(h.order[..i], convert)
      invariant sumX == Weighted(h.order[..i], h.counts, chroma, 0)
      invariant sumY == Weighted(h.order[..i], h.counts, chroma, 1)
      invariant sumCount == Total(h.order[..i], h.counts) as real
    {
      var color := h.order[i];
      var count := h.counts[color];
      var c := convert(color);
      WeightedStep(h.order, i, h.counts, chroma, c, 0);
      WeightedStep(h.order, i, h.counts, chroma, c, 1);
      ChromasStep(h.order, i, convert);
      chroma := chroma[color := c];
      sumX := sumX + Times(count, c.a);
      sumY := sumY + Times(count, c.b);
      sumCount := sumCount + count as real;
      assert h.order[..i + 1][..i] == h.order[..i];
    }
    assert h.order[..|h.order|] == h.order;
  }

  /** One more colour of the loop adds its count times its coordinate. */
  lemma WeightedStep(order: seq<Rgb8>, i: nat, counts: map<Rgb8, int>, chroma: map<Rgb8, Vec3>, v: Vec3,
                     channel: nat)
    requires i < |order| && channel < 2
    requires forall k :: k in order ==> k in counts
    requires forall k :: k in order[..i] ==> k in chroma
    requires order[i] in chroma ==> chroma[order[i]] == v
    ensures Weighted(order[..i + 1], counts, chroma[order[i] := v], channel)
      == Weighted(order[..i], counts, chroma, channel) + Times(counts[order[i]], v.At(channel))
  {
    var prefix, next := order[..i], order[..i + 1];
    assert next[..i] == prefix;
    assert forall k :: k in next ==> k in prefix || k == order[i];
    assert forall k :: k in prefix ==> k in order;
    WeightedExtend(prefix, counts, chroma, order[i], v, channel);
  }

  lemma ChromasStep(order: seq<Rgb8>, i: nat, convert: Rgb8 -> Vec3)
    requires i < |order|
    ensures Chromas(order[..i + 1], convert) == Chromas(order[..i], convert)[order[i] := convert(order[i])]
  {
    assert forall j :: j in order[..i + 1] <==> j in order[..i] || j == order[i];
  }

  /** Adding an entry for a colour to the chromaticity map changes no sum
      over colours that already had one. */
  lemma {:induction false} WeightedExtend(order: seq<Rgb8>, counts: map<Rgb8, int>, chroma: map<Rgb8, Vec3>,
                                          k: Rgb8, v: Vec3, channel: nat)
    requires channel < 2
    requires forall j :: j in order ==> j in counts && j in chroma
    requires k in chroma ==> chroma[k] == v
    ensures Weighted(order, counts, chroma[k := v], channel) == Weighted(order, counts, chroma, channel)
  {
    if |order| > 0 {
      WeightedExtend(order[..|order| - 1], counts, chroma, k, v, channel);
    }
  }

  /** `mean_chromaticity`: the weighted sums over the total count; an empty
      image divides by zero. */
  function MeanChromaticity(h: Histogram, chroma: map<Rgb8, Vec3>): (r: Result<Point>)
    requires forall k :: k in h.order ==> k in h.counts && k in chroma
    ensures r.Err? <==> Total(h.order, h.counts) == 0
    ensures r.Err? ==> r.error == ZeroDivision
  {
    var count := Total(h.order, h.counts) as real;
    if count == 0.0 then Err(ZeroDivision)
    else Ok(Point(Weighted(h.order, h.counts, chroma, 0) / count, Weighted(h.order, h.counts, chroma, 1) / count))
  }

  /** A weighted sum with positive counts lies between the least and the
      greatest coordinate times the total count. */
  lemma {:induction false} WeightedBounds(order: seq<Rgb8>, counts: map<Rgb8, int>, chroma: map<Rgb8, Vec3>,
                                          channel: nat, lo: real, hi: real)
    requires channel < 2
    requires forall k :: k in order ==> k in counts && k in chroma && 0 < counts[k]
    requires forall k :: k in order ==> lo <= chroma[k].At(channel) <= hi
    ensures Times(Total(order, counts), lo) <= Weighted(order, counts, chroma, channel)
    ensures Weighted(order, counts, chroma, channel) <= Times(Total(order, counts), hi)
  {
    if |order| > 0 {
      var init, last := order[..|order| - 1], order[|order| - 1];
      assert forall k :: k in init ==> k in order;
      WeightedBounds(init, counts, chroma, channel, lo, hi);
      var total, n, v := Total(init, counts), counts[last], chroma[last].At(channel);
      TimesBetween(n, lo, v, hi);
      TimesSum(total, n, lo);
      TimesSum(total, n, hi);
    }
  }

  lemma TimesBetween(n: int, lo: real, v: real, hi: real)
    requires 0 < n && lo <= v <= hi
    ensures Times(n, lo) <= Times(n, v) <= Times(n, hi)
  {
    MulNonNegative(n as real, v - lo);
    MulNonNegative(n as real, hi - v);
  }

  lemma TimesSum(m: int, n: int, v: real)
    ensures Times(m + n, v) == Times(m, v) + Times(n, v)
  {
  }

  /** The mean chromaticity of an image lies in every box that holds the
      chromaticities of all its pixels; in particular, an image of one colour
      has that colour's chromaticity as its mean. */
  lemma MeanWithin(image: array2<Pixel>, convert: Rgb8 -> Vec3, lo: Point, hi: Point)
    requires 0 < image.Length0 && 0 < image.Length1
    requires forall c, w :: 0 <= c < image.Length0 && 0 <= w < image.Length1 ==>
      var xy := convert(Key(image[c, w]));
      lo.x <= xy.a <= hi.x && lo.y <= xy.b <= hi.y
    ensures var h := Tally(Scan(image, image.Length0));
      && (forall k :: k in h.order ==> k in h.counts)
      && MeanChromaticity(h, Chromas(h.order, convert)).Ok?
      && lo.x <= MeanChromaticity(h, Chromas(h.order, convert)).value.x <= hi.x
      && lo.y <= MeanChromaticity(h, Chromas(h.order, convert)).value.y <= hi.y
  {
    var scan := Scan(image, image.Length0);
    var h := Tally(scan);
    var chroma := Chromas(h.order, convert);
    ScanMembers(image, image.Length0);
    TallyCounts(scan);
    TallyTotal(scan);
    assert Key(image[0, 0]) in scan by {
      assert Shows(image, 0, 0, Key(image[0, 0]));
    }
    var total := Total(h.order, h.counts);
    forall k | k in h.order
      ensures lo.x <= chroma[k].At(0) <= hi.x && lo.y <= chroma[k].At(1) <= hi.y
    {
      var c, w :| Shows(image, c, w, k);
    }
    WeightedBounds(h.order, h.counts, chroma, 0, lo.x, hi.x);
    WeightedBounds(h.order, h.counts, chroma, 1, lo.y, hi.y);
    QuotientBounds(lo.x, Weighted(h.order, h.counts, chroma, 0), hi.x, total);
    QuotientBounds(lo.y, Weighted(h.order, h.counts, chroma, 1), hi.y, total);
  }

  lemma QuotientBounds(lo: real, s: real, hi: real, total: int)
    requires 0 < total && Times(total, lo) <= s <= Times(total, hi)
    ensures lo <= s / (total as real) <= hi
  {
  }

  // ---------------------------------------------------------------------------
  // The luminance search

  /** One pass of the `while not valid_rgb` loop: `xyz_to_rgb(*xyy_to_xyz(x,
      y, use_luminance), suppress_warnings = True)` on sRGB without gamma
      encoding. Either call may fail its asserts. */
  function Attempt(p: Point, lum: real, pow: (real, real) -> real): (r: Result<Vec3>)
    ensures r.Ok? <==> (XyyToXyz(Vec3(p.x, p.y, lum)).Ok? &&
                        SignChecksPass(XyzToRgbMatrix(Srgb, SRGB_TO_XYZ_2), XyyToXyz(Vec3(p.x, p.y, lum)).value))
    ensures r.Ok? ==> r.value.NonNegative()
    ensures r.Err? ==> r.error == AssertionError
  {
    var xyz :- XyyToXyz(Vec3(p.x, p.y, lum));
    var rgb :- XyzToRgb(xyz, Srgb, false, true, SRGB_TO_XYZ_2, pow);
    Ok(rgb.rgb)
  }

  /** The XYZ of a chromaticity scales with its luminance. */
  lemma XyyScales(p: Point, lum: real, s: real)
    requires 0.0 < s
    ensures XyyToXyz(Vec3(p.x, p.y, s * lum)).Ok? == XyyToXyz(Vec3(p.x, p.y, lum)).Ok?
    ensures XyyToXyz(Vec3(p.x, p.y, lum)).Ok? ==>
      XyyToXyz(Vec3(p.x, p.y, s * lum)).value == Scale(s, XyyToXyz(Vec3(p.x, p.y, lum)).value)
  {
    if XyyToXyz(Vec3(p.x, p.y, lum)).Ok? {
      var x, z := p.x / p.y, (1.0 - p.x - p.y) / p.y;
      assert (s * lum) * x == s * (lum * x);
      assert (s * lum) * z == s * (lum * z);
    } else {
      assert !(0.0 <= lum) || !(0.0 <= p.x <= 1.0 && 0.0 < p.y <= 1.0);
      MulSign(s, lum);
    }
  }

  lemma MulSign(s: real, v: real)
    requires 0.0 < s
    ensures 0.0 <= s * v <==> 0.0 <= v
  {
    if v < 0.0 {
      MulNonNegative(s, -v);
      assert s * (-v) == -(s * v);
      assert s * v != 0.0;
    } else {
      MulNonNegative(s, v);
    }
  }

  lemma AbsScale(s: real, v: real)
    requires 0.0 < s
    ensures Abs(s * v) == s * Abs(v)
  {
    MulSign(s, v);
    if v < 0.0 {
      assert s * (-v) == -(s * v);
    }
  }

  /** The sign checks of `xyz_to_rgb` do not depend on the luminance scale. */
  lemma SignChecksScale(m: Mat3, xyz: Vec3, s: real)
    requires 0.0 < s
    ensures SignChecksPass(m, Scale(s, xyz)) == SignChecksPass(m, xyz)
  {
    MulSign(s, xyz.a);
    MulSign(s, xyz.b);
    MulSign(s, xyz.c);
  }

  /** Scaling the luminance by a positive factor scales the RGB by that
      factor: without gamma encoding every step of the conversion is linear,
      and `abs` commutes with positive factors. */
  lemma AttemptScales(p: Point, lum: real, s: real, pow: (real, real) -> real)
    requires 0.0 < s
    ensures Attempt(p, s * lum, pow).Ok? == Attempt(p, lum, pow).Ok?
    ensures Attempt(p, lum, pow).Ok? ==> Attempt(p, s * lum, pow).value == Scale(s, Attempt(p, lum, pow).value)
  {
    XyyScales(p, lum, s);
    if XyyToXyz(Vec3(p.x, p.y, lum)).Ok? {
      var xyz := XyyToXyz(Vec3(p.x, p.y, lum)).value;
      LinearRgbScales(XyzToRgbMatrix(Srgb, SRGB_TO_XYZ_2), xyz, s);
    }
  }

  /** The same for any coefficient matrix: the sign checks pass together, and
      `abs(m @ (s * xyz)) == s * abs(m @ xyz)`. */
  lemma LinearRgbScales(m: Mat3, xyz: Vec3, s: real)
    requires 0.0 < s
    ensures SignChecksPass(m, Scale(s, xyz)) == SignChecksPass(m, xyz)
    ensures var linear, scaled := Apply(m, xyz), Apply(m, Scale(s, xyz));
      Vec3(Abs(scaled.a), Abs(scaled.b), Abs(scaled.c)) == Scale(s, Vec3(Abs(linear.a), Abs(linear.b), Abs(linear.c)))
  {
    SignChecksScale(m, xyz, s);
    var linear := Apply(m, xyz);
    ApplyOfScale(m, s, xyz);
    AbsScale(s, linear.a);
    AbsScale(s, linear.b);
    AbsScale(s, linear.c);
  }

  /** `Attempt` at a fixed chromaticity, as a function of the luminance, so
      that the loop can be stated for any such conversion. */
  function AttemptOf(p: Point, pow: (real, real) -> real): real -> Result<Vec3>
  {
    (lum: real) => Attempt(p, lum, pow)
  }

  /** Scaling the luminance by s > 0 scales the RGB by s. */
  ghost predicate ScalesBy(rgbAt: real -> Result<Vec3>, lum: real, s: real)
  {
    0.0 < s ==>
      && rgbAt(s * lum).Ok? == rgbAt(lum).Ok?
      && (rgbAt(lum).Ok? ==> rgbAt(s * lum).value == Scale(s, rgbAt(lum).value))
  }

  /** What the loop relies on: RGB values are non-negative and linear in the
      luminance. */
  ghost predicate Linear(rgbAt: real -> Result<Vec3>)
  {
    && (forall lum :: rgbAt(lum).Ok? ==> rgbAt(lum).value.NonNegative())
    && (forall lum, s :: ScalesBy(rgbAt, lum, s))
  }

  /** The conversion `filter_image` uses is linear. */
  lemma AttemptLinear(p: Point, pow: (real, real) -> real)
    ensures Linear(AttemptOf(p, pow))
  {
    forall lum, s
      ensures ScalesBy(AttemptOf(p, pow), lum, s)
    {
      if 0.0 < s {
        AttemptScales(p, lum, s, pow);
      }
    }
  }

  /** `0.95 ** k`, the factor after k rounds of `use_luminance *= 0.95`. */
  function Fade(k: nat): (f: real)
    ensures 0.0 < f <= 1.0
  {
    if k == 0 then 1.0 else 0.95 * Fade(k - 1)
  }
  /** The luminance of round k: `lum * 0.95 ** k`. */
  function Dim(lum: real, k: nat): real
  {
    Fade(k) * lum
  }

  /** Round k of the loop, started from luminance `lum`. */
  function AttemptAt(rgbAt: real -> Result<Vec3>, lum: real, k: nat): Result<Vec3>
  {
    rgbAt(Dim(lum, k))
  }

  /** Round k of the loop converts but misses the unit cube. */
  predicate Overshoots(rgbAt: real -> Result<Vec3>, lum: real, k: nat)
  {
    AttemptAt(rgbAt, lum, k).Ok? && !AttemptAt(rgbAt, lum, k).value.InUnitCube()
  }

  /** The loop run for at most `fuel` rounds from luminance `use`. */
  function Settle(rgbAt: real -> Result<Vec3>, use: real, fuel: nat): (r: Result<Vec3>)
    ensures r.Ok? ==> r.value.InUnitCube()
    decreases fuel
  {
    if fuel == 0 then Err(OutOfFuel)
    else
      var color :- rgbAt(use);
      if color.InUnitCube() then Ok(color) else Settle(rgbAt, use * 0.95, fuel - 1)
  }

  /** Bernoulli's inequality for 1 / 0.95 = 1 + 1/19: `0.95 ** k * (1 + k/19) <= 1`. */
  lemma {:induction false} FadeBound(k: nat)
    ensures Fade(k) * (1.0 + (k as real) / 19.0) <= 1.0
  {
    if k > 0 {
      FadeBound(k - 1);
      var f, a := Fade(k - 1), 1.0 + ((k - 1) as real) / 19.0;
      assert 1.0 + (k as real) / 19.0 == a + 1.0 / 19.0;
      assert Fade(k) * (a + 1.0 / 19.0) == 0.95 * (f * a) + 0.05 * f;
    }
  }

  /** After more than 19 times the largest channel rounds, a non-negative
      colour has been dimmed into the unit cube. */
  lemma Fits(v: Vec3, k: nat, f: real)
    requires v.NonNegative() && 19.0 * Coloration.Max3(v) < k as real && f == Fade(k)
    ensures Scale(f, v).InUnitCube()
  {
    var m := Coloration.Max3(v);
    FadeBound(k);
    FadedMax(f, (k as real) / 19.0, m);
    ScaledBelow(f, m, v.a);
    ScaledBelow(f, m, v.b);
    ScaledBelow(f, m, v.c);
  }

  lemma FadedMax(f: real, bound: real, m: real)
    requires 0.0 < f && f * (1.0 + bound) <= 1.0 && 0.0 <= m <= bound
    ensures f * m <= 1.0
  {
    assert f * (1.0 + bound) == f + f * bound;
    MulNonNegative(f, bound - m);
  }

  lemma ScaledBelow(f: real, m: real, x: real)
    requires 0.0 < f && 0.0 <= x <= m && f * m <= 1.0
    ensures 0.0 <= f * x <= 1.0
  {
    MulNonNegative(f, x);
    MulNonNegative(f, m - x);
  }

  /** Rounds enough for the loop to stop: one when the first round fails,
      otherwise `int(19 * max(rgb)) + 2`. */
  function Rounds(rgbAt: real -> Result<Vec3>, lum: real): nat
  {
    match rgbAt(lum)
    case Err(_) => 1
    case Ok(v) => if 0.0 <= Coloration.Max3(v) then Trunc(19.0 * Coloration.Max3(v)) + 2 else 1
  }

  /** Round k is the first round's RGB times `0.95 ** k`. */
  lemma Dimmed(rgbAt: real -> Result<Vec3>, lum: real, k: nat)
    requires Linear(rgbAt)
    ensures AttemptAt(rgbAt, lum, k).Ok? == rgbAt(lum).Ok?
    ensures rgbAt(lum).Ok? ==> AttemptAt(rgbAt, lum, k).value == Scale(Fade(k), rgbAt(lum).value)
  {
    assert ScalesBy(rgbAt, lum, Fade(k));
    assert Dim(lum, k) == Fade(k) * lum;
  }

  /** A round that still overshoots is followed by another within `Rounds`. */
  lemma Progress(rgbAt: real -> Result<Vec3>, lum: real, k: nat)
    requires Linear(rgbAt) && Overshoots(rgbAt, lum, k)
    ensures k + 2 <= Rounds(rgbAt, lum)
  {
    Dimmed(rgbAt, lum, k);
    var v := rgbAt(lum).value;
    assert v.NonNegative();
    if Rounds(rgbAt, lum) < k + 2 {
      Fits(v, k, Fade(k));
      assert false;
    }
  }

  /** Dimming `0.95 * use` k times is dimming `use` k + 1 times. */
  lemma DimShift(use: real, k: nat)
    ensures Dim(use * 0.95, k) == Dim(use, k + 1)
    ensures Dim(use, k) * 0.95 == Dim(use, k + 1)
  {
  }

  /** With `Rounds` of fuel from round k on, the loop finishes. */
  lemma {:induction false} SettleReaches(rgbAt: real -> Result<Vec3>, lum: real, k: nat, fuel: nat)
    requires Linear(rgbAt) && rgbAt(lum).Ok? && 1 <= fuel && Rounds(rgbAt, lum) <= k + fuel
    ensures Settle(rgbAt, Dim(lum, k), fuel).Ok?
    decreases fuel
  {
    Dimmed(rgbAt, lum, k);
    if !AttemptAt(rgbAt, lum, k).value.InUnitCube() {
      Progress(rgbAt, lum, k);
      DimShift(lum, k);
      SettleReaches(rgbAt, lum, k + 1, fuel - 1);
    }
  }

  /** What the loop returns is the first round whose RGB lies in the unit
      cube; every earlier round converted without error and overshot. */
  lemma {:induction false} SettleFirst(rgbAt: real -> Result<Vec3>, use: real, fuel: nat)
    requires Settle(rgbAt, use, fuel).Ok?
    ensures exists k: nat :: k < fuel && AttemptAt(rgbAt, use, k) == Settle(rgbAt, use, fuel)
                        && forall j: nat :: j < k ==> Overshoots(rgbAt, use, j)
    decreases fuel
  {
    assert fuel != 0;
    assert AttemptAt(rgbAt, use, 0) == rgbAt(use) by { assert Dim(use, 0) == use; }
    var color := rgbAt(use).value;
    if color.InUnitCube() {
      assert AttemptAt(rgbAt, use, 0) == Settle(rgbAt, use, fuel);
    } else {
      var next := use * 0.95;
      assert Settle(rgbAt, use, fuel) == Settle(rgbAt, next, fuel - 1);
      SettleFirst(rgbAt, next, fuel - 1);
      var k: nat :| k < fuel - 1 && AttemptAt(rgbAt, next, k) == Settle(rgbAt, next, fuel - 1)
               && forall j: nat :: j < k ==> Overshoots(rgbAt, next, j);
      AttemptAtShift(rgbAt, use, k);
      OvershootsShift(rgbAt, use, next, k);
      assert k + 1 < fuel && AttemptAt(rgbAt, use, k + 1) == Settle(rgbAt, use, fuel)
             && forall j: nat :: j < k + 1 ==> Overshoots(rgbAt, use, j);
    }
  }

  lemma AttemptAtShift(rgbAt: real -> Result<Vec3>, use: real, k: nat)
    ensures AttemptAt(rgbAt, use * 0.95, k) == AttemptAt(rgbAt, use, k + 1)
  {
    DimShift(use, k);
  }

  /** Overshooting at round 0 and then for k rounds from `0.95 * use` is
      overshooting for k + 1 rounds from `use`. */
  lemma OvershootsShift(rgbAt: real -> Result<Vec3>, use: real, next: real, k: nat)
    requires next == use * 0.95 && Overshoots(rgbAt, use, 0)
    requires forall j: nat :: j < k ==> Overshoots(rgbAt, next, j)
    ensures forall j: nat :: j < k + 1 ==> Overshoots(rgbAt, use, j)
  {
    forall j: nat | 0 < j < k + 1
      ensures Overshoots(rgbAt, use, j)
    {
      AttemptAtShift(rgbAt, use, j - 1);
      assert Overshoots(rgbAt, next, j - 1);
    }
  }

  /** The loop on luminance `lum` run to the end: it fails exactly when the
      first round fails, with that round's error, and otherwise ends in the
      unit cube. */
  function Settled(rgbAt: real -> Result<Vec3>, lum: real): (r: Result<Vec3>)
    requires Linear(rgbAt)
    ensures r.Ok? <==> rgbAt(lum).Ok?
    ensures r.Err? ==> r == Err(rgbAt(lum).error)
    ensures r.Ok? ==> r.value.InUnitCube()
  {
    if rgbAt(lum).Ok? then
      assert Dim(lum, 0) == lum;
      SettleReaches(rgbAt, lum, 0, Rounds(rgbAt, lum));
      Settle(rgbAt, lum, Rounds(rgbAt, lum))
    else
      Settle(rgbAt, lum, Rounds(rgbAt, lum))
  }

  /** The colour found is the first round's RGB dimmed by `0.95 ** k` for the
      first k that brings it into the unit cube. */
  lemma SettledFirstFit(rgbAt: real -> Result<Vec3>, lum: real)
    requires Linear(rgbAt) && Settled(rgbAt, lum).Ok?
    ensures exists k: nat :: && AttemptAt(rgbAt, lum, k) == Settled(rgbAt, lum)
                        && Settled(rgbAt, lum).value == Scale(Fade(k), rgbAt(lum).value)
                        && forall j: nat :: j < k ==> Overshoots(rgbAt, lum, j)
  {
    SettleFirst(rgbAt, lum, Rounds(rgbAt, lum));
    var k: nat :| AttemptAt(rgbAt, lum, k) == Settled(rgbAt, lum) && forall j: nat :: j < k ==> Overshoots(rgbAt, lum, j);
    Dimmed(rgbAt, lum, k);
  }

  /** The `while not valid_rgb` loop, `rgbAt` being the conversion at the arc
      point (`AttemptOf`). It ends: by `Dimmed` each round is the first one's
      RGB times `0.95 ** k`, which `Fits` the unit cube once k passes
      `19 * max(rgb)`. */
  method FindLuminance(rgbAt: real -> Result<Vec3>, lum: real) returns (r: Result<Vec3>)
    requires Linear(rgbAt)
    ensures r == Settled(rgbAt, lum)
  {
    ghost var n := Rounds(rgbAt, lum);
    ghost var k: nat := 0;
    var valid := false;
    var use := lum;
    var color := Vec3(0.0, 0.0, 0.0);
    while !valid
      invariant use == Dim(lum, k) && k < n
      invariant k > 0 ==> rgbAt(lum).Ok?
      invariant valid ==> Settled(rgbAt, lum) == Ok(color)
      invariant !valid ==> Settled(rgbAt, lum) == Settle(rgbAt, use, n - k)
      decreases n - k, if valid then 0 else 1
    {
      color :- rgbAt(use);
      if color.InUnitCube() {
        valid := true;
      } else {
        Progress(rgbAt, lum, k);
        DimShift(lum, k);
        use := use * 0.95;
        k := k + 1;
      }
    }
    r := Ok(color);
  }

  // ---------------------------------------------------------------------------
  // Hue angles about the copunctal point

  /** The angle rule of `filter_image`: an `arctan2` value of at most -pi/2
      is kept, a larger one is turned back by 2 pi. */
  function LowerAngle(a: real): real
  {
    if a <= -PI / 2.0 then a else a - TWO_PI
  }

  /** On `arctan2`'s range the rule lands in (-5 pi/2, -pi/2]. It is the
      hue-window shift of ChromaticityConversion except at -pi/2 itself,
      which the `<=` keeps where `Normalize`'s `<` moves it a turn lower. */
  lemma LowerAngleRange(a: real)
    requires -PI < a <= PI
    ensures CC.HUE_LOW < LowerAngle(a) <= CC.HUE_HIGH
    ensures a != -PI / 2.0 ==> LowerAngle(a) == CC.Normalize(a)
    ensures a == -PI / 2.0 ==> LowerAngle(a) == CC.Normalize(a) + TWO_PI
  {
  }

  /** The hue angle of chromaticity p about cp. */
  function HueOf(atan2: (real, real) -> real, cp: Point, p: Point): real
  {
    LowerAngle(atan2(p.y - cp.y, p.x - cp.x))
  }

  // ---------------------------------------------------------------------------
  // The sRGB gamut triangle and the arc's angular extent

  /** `gamut_triangle_vertices_srgb`: the xy chromaticity of primary j (0 Red,
      1 Green, 2 Blue), from column j of SRGB_TO_XYZ_2. */
  function GamutVertex(j: nat): Point
    requires j < 3
  {
    var col := SRGB_TO_XYZ_2.Column(j);
    assert col.Sum() > 0.0 by {
      if j == 0 {
      } else if j == 1 {
      } else {
      }
    }
    Point(col.a / col.Sum(), col.b / col.Sum())
  }

  /** Each vertex is the chromaticity `xyz_to_xyy` gives the primary's
      tristimulus values, and lies strictly inside the unit square. */
  lemma GamutVertexChromaticity(j: nat)
    requires j < 3
    ensures var col := SRGB_TO_XYZ_2.Column(j);
      var xyy := XyzToXyy(col, Srgb, SRGB_TO_XYZ_2);
      && xyy.Ok? && xyy.value.a == GamutVertex(j).x && xyy.value.b == GamutVertex(j).y
      && 0.0 < GamutVertex(j).x < 1.0 && 0.0 < GamutVertex(j).y < 1.0
  {
    var col := SRGB_TO_XYZ_2.Column(j);
    assert col.NonNegative() && col.Sum() > 0.0 && col.a < col.Sum() && col.b < col.Sum() by {
      if j == 0 {
      } else if j == 1 {
      } else {
      }
    }
    var xyy := XyzToXyy(col, Srgb, SRGB_TO_XYZ_2);
    QuotientOfProduct(xyy.value.a, col.Sum(), col.a);
    QuotientOfProduct(xyy.value.b, col.Sum(), col.b);
  }

  lemma QuotientOfProduct(u: real, s: real, a: real)
    requires 0.0 < s && u * s == a
    ensures u == a / s
  {
  }

  /** The point at `angle` on the circle of the given radius about cp. */
  function ArcPoint(cp: Point, radius: real, angle: real, lib: Numpy): Point
  {
    CC.RectangularAbout(cp, angle, radius, lib.cos, lib.sin)
  }

  /** `distance_to_edge`: from the arc point at `angle` to where the line
      through cp and that point meets the edge v1 v2; infinite when the two
      lines are parallel. */
  function DistanceToEdge(cp: Point, radius: real, angle: real, v1: Point, v2: Point, lib: Numpy): Distance
  {
    var coordinate := ArcPoint(cp, radius, angle, lib);
    match IntersectionOfTwoSegments(cp, coordinate, v1, v2)
    case Parallel => Infinite
    case Meet(q) => Finite(Hypot(coordinate.x - q.x, coordinate.y - q.y, lib.pow))
  }

  /** A finite distance is never negative, and it is zero exactly when the
      arc point itself lies on the line of the edge (the confusion line not
      being parallel to it): the arc there crosses the gamut edge. */
  lemma DistanceToEdgeZero(cp: Point, radius: real, angle: real, v1: Point, v2: Point, lib: Numpy)
    requires RootFacts(lib.pow)
    ensures var d := DistanceToEdge(cp, radius, angle, v1, v2, lib);
      d.Finite? ==> 0.0 <= d.length
    ensures var coordinate := ArcPoint(cp, radius, angle, lib);
      DistanceToEdge(cp, radius, angle, v1, v2, lib) == Finite(0.0) <==>
        (!ParallelDirections(cp, coordinate, v1, v2) && OnLine(coordinate, v1, v2))
  {
    var c := ArcPoint(cp, radius, angle, lib);
    ParallelIff(cp, c, v1, v2);
    match IntersectionOfTwoSegments(cp, c, v1, v2)
    case Parallel =>
    case Meet(q) =>
      MeetOnBothLines(cp, c, v1, v2);
      HypotFacts(c.x - q.x, c.y - q.y, lib.pow);
      if Hypot(c.x - q.x, c.y - q.y, lib.pow) == 0.0 {
        HypotZero(c.x - q.x, c.y - q.y, lib.pow);
        assert c == q;
      }
      if OnLine(c, v1, v2) {
        assert OnLine(c, cp, c);
        MeetIsUnique(cp, c, v1, v2, c);
      }
  }

  /** Only the zero vector has length zero. */
  lemma HypotZero(dx: real, dy: real, pow: (real, real) -> real)
    requires RootFacts(pow) && Hypot(dx, dy, pow) == 0.0
    ensures dx == 0.0 && dy == 0.0
  {
    var s := pow(dx, 2.0) + pow(dy, 2.0);
    SquareNonNegative(dx);
    SquareNonNegative(dy);
    assert s == dx * dx + dy * dy;
    assert pow(s, 0.5) * pow(s, 0.5) == s;
    assert s == 0.0;
    SquareZero(dx);
    SquareZero(dy);
  }

  /** The arc point is `radius` from cp. */
  lemma ArcPointOnArc(cp: Point, radius: real, angle: real, lib: Numpy)
    requires RootFacts(lib.pow) && CircleFacts(lib.cos, lib.sin) && 0.0 <= radius
    ensures var p := ArcPoint(cp, radius, angle, lib);
      Hypot(p.x - cp.x, p.y - cp.y, lib.pow) == radius
  {
    var p := ArcPoint(cp, radius, angle, lib);
    var c, s := lib.cos(angle), lib.sin(angle);
    assert c * c + s * s == 1.0;
    PolarLength(p.x - cp.x, p.y - cp.y, radius, c, s, lib.pow);
  }

  /** (r cos t, r sin t) has length r. */
  lemma PolarLength(dx: real, dy: real, radius: real, c: real, s: real, pow: (real, real) -> real)
    requires RootFacts(pow) && 0.0 <= radius && c * c + s * s == 1.0
    requires dx == radius * c && dy == radius * s
    ensures Hypot(dx, dy, pow) == radius
  {
    CC.ScaledCircle(radius, c, s);
    var sum := pow(dx, 2.0) + pow(dy, 2.0);
    assert sum == radius * radius;
    MulNonNegative(radius, radius);
    RootUnique(pow(sum, 0.5), radius);
  }

  /** One `fminbound` search: the angle, between the hues of the edge's two
      vertices, whose arc point is closest to the edge's line. */
  function EdgeAngle(cp: Point, radius: real, v1: Point, v2: Point, lib: Numpy): real
  {
    var h1, h2 := HueOf(lib.atan2, cp, v1), HueOf(lib.atan2, cp, v2);
    lib.fminbound((angle: real) => DistanceToEdge(cp, radius, angle, v1, v2, lib),
                  if h1 <= h2 then h1 else h2, if h1 <= h2 then h2 else h1)
  }

  /** The vertices Red, Green, Blue. */
  function GamutVertices(): (vs: seq<Point>)
    ensures |vs| == 3
  {
    [GamutVertex(0), GamutVertex(1), GamutVertex(2)]
  }

  /** `gamut_edge_angles` for the edges Red-Green, Green-Blue, Blue-Red of
      the triangle vs. */
  function EdgeAngles(cp: Point, radius: real, vs: seq<Point>, lib: Numpy): (r: seq<real>)
    requires |vs| == 3
    ensures |r| == 3
  {
    [EdgeAngle(cp, radius, vs[0], vs[1], lib),
     EdgeAngle(cp, radius, vs[1], vs[2], lib),
     EdgeAngle(cp, radius, vs[2], vs[0], lib)]
  }

  /** `angle_bounds`: the least and greatest edge angle, each moved two
      degrees inwards. */
  function AngleBounds(edges: seq<real>): (r: (real, real))
    requires |edges| > 0
    ensures r.0 - PI / 90.0 in edges && r.1 + PI / 90.0 in edges
    ensures forall i :: 0 <= i < |edges| ==> r.0 - PI / 90.0 <= edges[i] <= r.1 + PI / 90.0
  {
    (SeqMin(edges) + PI / 90.0, SeqMax(edges) - PI / 90.0)
  }

  /** The hues of the three vertices about cp. */
  function VertexHues(cp: Point, vs: seq<Point>, atan2: (real, real) -> real): seq<real>
    requires |vs| == 3
  {
    [HueOf(atan2, cp, vs[0]), HueOf(atan2, cp, vs[1]), HueOf(atan2, cp, vs[2])]
  }

  /** An edge angle lies between the hues of the edge's two vertices. */
  lemma EdgeAngleBetween(cp: Point, radius: real, v1: Point, v2: Point, lib: Numpy)
    requires BoundedMinimizer(lib.fminbound)
    ensures var h1, h2 := HueOf(lib.atan2, cp, v1), HueOf(lib.atan2, cp, v2);
      var e := EdgeAngle(cp, radius, v1, v2, lib);
      (h1 <= e <= h2) || (h2 <= e <= h1)
  {
    var h1, h2 := HueOf(lib.atan2, cp, v1), HueOf(lib.atan2, cp, v2);
    var f := (angle: real) => DistanceToEdge(cp, radius, angle, v1, v2, lib);
    var lo, hi := if h1 <= h2 then h1 else h2, if h1 <= h2 then h2 else h1;
    assert lo <= lib.fminbound(f, lo, hi) <= hi;
  }

  /** Each edge angle lies between the hues of its edge's vertices, so the
      bounds lie two degrees inside the vertices' hue range, which in turn
      lies in the window (-5 pi/2, -pi/2]. */
  lemma AngleBoundsInside(cp: Point, radius: real, vs: seq<Point>, lib: Numpy)
    requires |vs| == 3
    requires BoundedMinimizer(lib.fminbound) && AngleRange(lib.atan2)
    ensures var bounds, hues := AngleBounds(EdgeAngles(cp, radius, vs, lib)), VertexHues(cp, vs, lib.atan2);
      && SeqMin(hues) + PI / 90.0 <= bounds.0
      && bounds.1 <= SeqMax(hues) - PI / 90.0
      && CC.HUE_LOW < SeqMin(hues) && SeqMax(hues) <= CC.HUE_HIGH
  {
    EdgeAngleBetween(cp, radius, vs[0], vs[1], lib);
    EdgeAngleBetween(cp, radius, vs[1], vs[2], lib);
    EdgeAngleBetween(cp, radius, vs[2], vs[0], lib);
    HueRange(lib.atan2, cp, vs[0]);
    HueRange(lib.atan2, cp, vs[1]);
    HueRange(lib.atan2, cp, vs[2]);
    ExtremaInside(EdgeAngles(cp, radius, vs, lib), VertexHues(cp, vs, lib.atan2));
  }

  /** The arithmetic of `AngleBoundsInside`: each of the three edge values
      lies between the values at its two ends, and those lie in the window. */
  lemma ExtremaInside(edges: seq<real>, hues: seq<real>)
    requires |edges| == 3 && |hues| == 3
    requires forall i :: 0 <= i < 3 ==> CC.HUE_LOW < hues[i] <= CC.HUE_HIGH
    requires (hues[0] <= edges[0] <= hues[1]) || (hues[1] <= edges[0] <= hues[0])
    requires (hues[1] <= edges[1] <= hues[2]) || (hues[2] <= edges[1] <= hues[1])
    requires (hues[2] <= edges[2] <= hues[0]) || (hues[0] <= edges[2] <= hues[2])
    ensures SeqMin(hues) <= SeqMin(edges) && SeqMax(edges) <= SeqMax(hues)
    ensures CC.HUE_LOW < SeqMin(hues) && SeqMax(hues) <= CC.HUE_HIGH
  {
    var lo, hi := SeqMin(hues), SeqMax(hues);
    Within(edges, lo, hi);
    Within(hues, lo, CC.HUE_HIGH);
    var i :| 0 <= i < 3 && hues[i] == lo;
  }

  lemma Within(s: seq<real>, lo: real, hi: real)
    requires |s| > 0 && forall i :: 0 <= i < |s| ==> lo <= s[i] <= hi
    ensures lo <= SeqMin(s) && SeqMax(s) <= hi
  {
    var i :| 0 <= i < |s| && s[i] == SeqMin(s);
    var j :| 0 <= j < |s| && s[j] == SeqMax(s);
  }

  lemma HueRange(atan2: (real, real) -> real, cp: Point, p: Point)
    requires AngleRange(atan2)
    ensures CC.HUE_LOW < HueOf(atan2, cp, p) <= CC.HUE_HIGH
  {
    LowerAngleRange(atan2(p.y - cp.y, p.x - cp.x));
  }

  /** `if angle < lo: angle = lo` then `if angle > hi: angle = hi`: the clip
      to [lo, hi] when the bounds are in order, and hi when they cross. */
  function ClampAngle(angle: real, bounds: (real, real)): (r: real)
    ensures bounds.0 <= bounds.1 ==> r == Clip(angle, bounds.0, bounds.1)
    ensures bounds.1 < bounds.0 ==> r == bounds.1
  {
    var raised := if angle < bounds.0 then bounds.0 else angle;
    if raised > bounds.1 then bounds.1 else raised
  }

  // ---------------------------------------------------------------------------
  // New colours

  /** `tuple(int(value * 255.0) for value in new_color)` on an RGB triple in
      the unit cube. */
  function Quantize(v: Vec3): Rgb8
    requires v.InUnitCube()
  {
    Rgb8(Trunc(v.a * 255.0), Trunc(v.b * 255.0), Trunc(v.c * 255.0))
  }

  /** Quantizing undoes `value / 255.0`: an 8-bit colour that comes back
      unchanged from the conversions is written back unchanged. */
  lemma QuantizeUnit(k: Rgb8)
    ensures Quantize(Unit(k)) == k
  {
    var v := Unit(k);
    assert v.a * 255.0 == k.r as real && v.b * 255.0 == k.g as real && v.c * 255.0 == k.b as real;
    TruncOfInt(k.r);
    TruncOfInt(k.g);
    TruncOfInt(k.b);
  }

  /** The arc every colour is moved onto: its centre (the copunctal point),
      its radius and its angle bounds. */
  datatype Arc = Arc(center: Point, radius: real, bounds: (real, real))

  /** The hue angle of chromoluminance c about the centre, clamped to the
      bounds. */
  function TargetAngle(c: Vec3, arc: Arc, lib: Numpy): real
  {
    ClampAngle(HueOf(lib.atan2, arc.center, Point(c.a, c.b)), arc.bounds)
  }

  /** The chromaticity colour c is given: the arc point at its clamped hue. */
  function Target(c: Vec3, arc: Arc, lib: Numpy): Point
  {
    ArcPoint(arc.center, arc.radius, TargetAngle(c, arc, lib), lib)
  }

  /** The target lies on the arc, at the colour's own hue when that is
      inside the bounds and at the nearer bound otherwise. */
  lemma TargetOnArc(c: Vec3, arc: Arc, lib: Numpy)
    requires RootFacts(lib.pow) && CircleFacts(lib.cos, lib.sin) && 0.0 <= arc.radius
    requires arc.bounds.0 <= arc.bounds.1
    ensures var t := Target(c, arc, lib);
      Hypot(t.x - arc.center.x, t.y - arc.center.y, lib.pow) == arc.radius
    ensures var hue, angle := HueOf(lib.atan2, arc.center, Point(c.a, c.b)), TargetAngle(c, arc, lib);
      && arc.bounds.0 <= angle <= arc.bounds.1
      && (arc.bounds.0 <= hue <= arc.bounds.1 <==> angle == hue)
      && (hue < arc.bounds.0 ==> angle == arc.bounds.0)
      && (arc.bounds.1 < hue ==> angle == arc.bounds.1)
  {
    ArcPointOnArc(arc.center, arc.radius, TargetAngle(c, arc, lib), lib);
  }

  /** One entry of `changed_colors`: the dimming loop at the colour's target
      from its own luminance, quantized. It fails, with the assertion of
      `xyy_to_xyz`, exactly when the first round does. */
  function NewColor(c: Vec3, arc: Arc, lib: Numpy): (r: Result<Rgb8>)
    ensures r.Ok? <==> Attempt(Target(c, arc, lib), c.c, lib.pow).Ok?
    ensures r.Err? ==> r.error == AssertionError
  {
    var target := Target(c, arc, lib);
    AttemptLinear(target, lib.pow);
    var rgb :- Settled(AttemptOf(target, lib.pow), c.c);
    Ok(Quantize(rgb))
  }

  /** What a new colour is: the first round's RGB at the target, dimmed by
      `0.95 ** k` for the first k that fits the unit cube, then quantized. */
  lemma NewColorFirstFit(c: Vec3, arc: Arc, lib: Numpy)
    requires NewColor(c, arc, lib).Ok?
    ensures var rgbAt := AttemptOf(Target(c, arc, lib), lib.pow);
      exists k: nat :: && AttemptAt(rgbAt, c.c, k).Ok?
                   && AttemptAt(rgbAt, c.c, k).value.InUnitCube()
                   && AttemptAt(rgbAt, c.c, k).value == Scale(Fade(k), rgbAt(c.c).value)
                   && NewColor(c, arc, lib).value == Quantize(AttemptAt(rgbAt, c.c, k).value)
                   && forall j: nat :: j < k ==> Overshoots(rgbAt, c.c, j)
  {
    var rgbAt := AttemptOf(Target(c, arc, lib), lib.pow);
    AttemptLinear(Target(c, arc, lib), lib.pow);
    SettledFirstFit(rgbAt, c.c);
  }

  /** `changed_colors` over the listed colours in order. The first colour
      whose conversion fails ends the loop with its error. */
  function Changed(order: seq<Rgb8>, chroma: map<Rgb8, Vec3>, arc: Arc, lib: Numpy): (r: Result<map<Rgb8, Rgb8>>)
    requires forall k :: k in order ==> k in chroma
    ensures r.Ok? <==> forall k :: k in order ==> NewColor(chroma[k], arc, lib).Ok?
    ensures r.Ok? ==> forall k :: k in r.value <==> k in order
    ensures r.Ok? ==> forall k :: k in order ==> r.value[k] == NewColor(chroma[k], arc, lib).value
    ensures r.Err? ==> r.error == AssertionError
  {
    if |order| == 0 then Ok(map[])
    else
      var last := order[|order| - 1];
      assert forall k :: k in order <==> k in order[..|order| - 1] || k == last by {
        assert order == order[..|order| - 1] + [last];
      }
      var init :- Changed(order[..|order| - 1], chroma, arc, lib);
      var rgb :- NewColor(chroma[last], arc, lib);
      Ok(init[last := rgb])
  }

  /** The `for unique_color, original_chromoluminance in ...` loop. */
  method ChangeColors(order: seq<Rgb8>, chroma: map<Rgb8, Vec3>, arc: Arc, lib: Numpy)
      returns (r: Result<map<Rgb8, Rgb8>>)
    requires forall k :: k in order ==> k in chroma
    ensures r == Changed(order, chroma, arc, lib)
  {
    var changed: map<Rgb8, Rgb8> := map[];
    for i := 0 to |order|
      invariant Changed(order[..i], chroma, arc, lib) == Ok(changed)
    {
      var color := order[i];
      var c := chroma[color];
      var target := Target(c, arc, lib);
      AttemptLinear(target, lib.pow);
      var found := FindLuminance(AttemptOf(target, lib.pow), c.c);
      if found.Err? {
        assert NewColor(c, arc, lib).Err?;
        return Err(found.error);
      }
      changed := changed[color := Quantize(found.value)];
      assert order[..i + 1][..i] == order[..i];
    }
    assert order[..|order|] == order;
    r := Ok(changed);
  }

  /** The new image: a black image of the same size whose every pixel is set
      to the new colour of the old pixel's RGB key. */
  method Remap(image: array2<Pixel>, changed: map<Rgb8, Rgb8>) returns (out: array2<Rgb8>)
    requires forall c, w :: 0 <= c < image.Length0 && 0 <= w < image.Length1 ==> Key(image[c, w]) in changed
    ensures fresh(out) && out.Length0 == image.Length0 && out.Length1 == image.Length1
    ensures forall c, w :: 0 <= c < image.Length0 && 0 <= w < image.Length1 ==> out[c, w] == changed[Key(image[c, w])]
  {
    out := new Rgb8[image.Length0, image.Length1]((c, w) => Rgb8(0, 0, 0));
    for col := 0 to image.Length0
      invariant forall c, w :: 0 <= c < col && 0 <= w < image.Length1 ==> out[c, w] == changed[Key(image[c, w])]
    {
      for row := 0 to image.Length1
        invariant forall c, w :: 0 <= c < col && 0 <= w < image.Length1 ==> out[c, w] == changed[Key(image[c, w])]
        invariant forall w :: 0 <= w < row ==> out[col, w] == changed[Key(image[col, w])]
      {
        out[col, row] := changed[Key(image[col, row])];
      }
    }
  }

  // ---------------------------------------------------------------------------
  // The filter

  /** `get_unique_colors(image)`. */
  function ImageHistogram(image: array2<Pixel>): Histogram
    reads image
  {
    Tally(Scan(image, image.Length0))
  }

  /** The arc of a histogram: about cp, through the mean chromaticity, with
      the bounds the gamut edges give at that radius. */
  function ArcOf(h: Histogram, chroma: map<Rgb8, Vec3>, cp: Point, lib: Numpy): (r: Result<Arc>)
    requires forall k :: k in h.order ==> k in h.counts && k in chroma
    ensures r.Err? <==> Total(h.order, h.counts) == 0
    ensures r.Err? ==> r.error == ZeroDivision
  {
    var mean :- MeanChromaticity(h, chroma);
    Ok(ArcThrough(cp, mean, lib))
  }

  /** The arc about cp through `mean`. */
  function ArcThrough(cp: Point, mean: Point, lib: Numpy): Arc
  {
    ArcAt(cp, Separation(mean, cp, lib.pow), lib)
  }

  /** `((p[0] - q[0]) ** 2.0 + (p[1] - q[1]) ** 2.0) ** 0.5`. */
  function Separation(p: Point, q: Point, pow: (real, real) -> real): real
  {
    Hypot(p.x - q.x, p.y - q.y, pow)
  }

  lemma SeparationNonNegative(p: Point, q: Point, pow: (real, real) -> real)
    requires RootFacts(pow)
    ensures 0.0 <= Separation(p, q, pow)
  {
    HypotFacts(p.x - q.x, p.y - q.y, pow);
  }

  /** The arc of the given radius about cp. */
  function ArcAt(cp: Point, radius: real, lib: Numpy): Arc
  {
    Arc(cp, radius, AngleBounds(EdgeAngles(cp, radius, GamutVertices(), lib)))
  }

  /** The arc of an image for a cone type: it exists exactly when the image
      has a pixel. */
  function ImageArc(image: array2<Pixel>, center: CC.Center, lib: Numpy): (r: Result<Arc>)
    reads image
    ensures r.Err? <==> image.Length0 == 0 || image.Length1 == 0
    ensures r.Err? ==> r.error == ZeroDivision
  {
    var h := ImageHistogram(image);
    ScanLength(image, image.Length0);
    TallyTotal(Scan(image, image.Length0));
    NoPixels(image.Length0, image.Length1);
    ArcOf(h, Chromas(h.order, ChromoluminanceOf(lib.pow)), CC.CenterPoint(center), lib)
  }

  lemma NoPixels(width: nat, height: nat)
    ensures width * height == 0 <==> width == 0 || height == 0
  {
    if width != 0 && height != 0 {
      MulNonNegative((width - 1) as real, (height - 1) as real);
      assert width * height == (width - 1) * (height - 1) + (width - 1) + (height - 1) + 1;
    }
  }

  /** Around the arc of a non-empty image: the radius is a length, the
      centre is the cone's copunctal point, and the bounds lie two degrees
      inside the hues of the gamut vertices. */
  lemma ImageArcFacts(image: array2<Pixel>, center: CC.Center, lib: Numpy)
    requires RootFacts(lib.pow) && BoundedMinimizer(lib.fminbound) && AngleRange(lib.atan2)
    requires ImageArc(image, center, lib).Ok?
    ensures var arc, hues := ImageArc(image, center, lib).value, VertexHues(CC.CenterPoint(center), GamutVertices(), lib.atan2);
      && arc.center == CC.CenterPoint(center)
      && 0.0 <= arc.radius
      && SeqMin(hues) + PI / 90.0 <= arc.bounds.0
      && arc.bounds.1 <= SeqMax(hues) - PI / 90.0
  {
    var h := ImageHistogram(image);
    TallyTotal(Scan(image, image.Length0));
    ArcOfFacts(h, Chromas(h.order, ChromoluminanceOf(lib.pow)), CC.CenterPoint(center), lib);
  }

  lemma ArcOfFacts(h: Histogram, chroma: map<Rgb8, Vec3>, cp: Point, lib: Numpy)
    requires RootFacts(lib.pow) && BoundedMinimizer(lib.fminbound) && AngleRange(lib.atan2)
    requires forall k :: k in h.order ==> k in h.counts && k in chroma
    requires ArcOf(h, chroma, cp, lib).Ok?
    ensures var arc, hues := ArcOf(h, chroma, cp, lib).value, VertexHues(cp, GamutVertices(), lib.atan2);
      && arc.center == cp
      && 0.0 <= arc.radius
      && SeqMin(hues) + PI / 90.0 <= arc.bounds.0
      && arc.bounds.1 <= SeqMax(hues) - PI / 90.0
  {
    ArcThroughFacts(cp, MeanChromaticity(h, chroma).value, lib);
  }

  lemma ArcThroughFacts(cp: Point, mean: Point, lib: Numpy)
    requires RootFacts(lib.pow) && BoundedMinimizer(lib.fminbound) && AngleRange(lib.atan2)
    ensures var arc, hues := ArcThrough(cp, mean, lib), VertexHues(cp, GamutVertices(), lib.atan2);
      && arc.center == cp
      && 0.0 <= arc.radius
      && SeqMin(hues) + PI / 90.0 <= arc.bounds.0
      && arc.bounds.1 <= SeqMax(hues) - PI / 90.0
  {
    SeparationNonNegative(mean, cp, lib.pow);
    ArcAtFacts(cp, Separation(mean, cp, lib.pow), lib);
  }

  lemma ArcAtFacts(cp: Point, radius: real, lib: Numpy)
    requires BoundedMinimizer(lib.fminbound) && AngleRange(lib.atan2)
    ensures var arc, hues := ArcAt(cp, radius, lib), VertexHues(cp, GamutVertices(), lib.atan2);
      && arc.center == cp
      && arc.radius == radius
      && SeqMin(hues) + PI / 90.0 <= arc.bounds.0
      && arc.bounds.1 <= SeqMax(hues) - PI / 90.0
  {
    AngleBoundsInside(cp, radius, GamutVertices(), lib);
  }

  /** Every pixel's colour is a key of the image's histogram, and every key
      is some pixel's colour. */
  lemma PixelsListed(image: array2<Pixel>)
    ensures forall c, w :: 0 <= c < image.Length0 && 0 <= w < image.Length1 ==>
      Key(image[c, w]) in ImageHistogram(image).order
    ensures forall k :: k in ImageHistogram(image).order ==>
      exists c, w :: 0 <= c < image.Length0 && 0 <= w < image.Length1 && Key(image[c, w]) == k
  {
    var scan := Scan(image, image.Length0);
    ScanMembers(image, image.Length0);
    TallyCounts(scan);
    forall c, w | 0 <= c < image.Length0 && 0 <= w < image.Length1
      ensures Key(image[c, w]) in ImageHistogram(image).order
    {
      assert Shows(image, c, w, Key(image[c, w]));
    }
    forall k | k in ImageHistogram(image).order
      ensures exists c, w :: 0 <= c < image.Length0 && 0 <= w < image.Length1 && Key(image[c, w]) == k
    {
      var c, w :| c < image.Length0 && Shows(image, c, w, k);
    }
  }

  /** `changed_colors` for an image and a cone name: the assertion on the
      cone name, the division by the pixel count, then the new colour of
      every distinct colour. */
  function ColorMap(image: array2<Pixel>, cone: string, lib: Numpy): Result<map<Rgb8, Rgb8>>
    reads image
  {
    var center :- ParseCone(cone);
    var arc :- ImageArc(image, center, lib);
    var h := ImageHistogram(image);
    TallyCounts(Scan(image, image.Length0));
    Changed(h.order, Chromas(h.order, ChromoluminanceOf(lib.pow)), arc, lib)
  }

  /** `filter_image`: the error cases in the order the source meets them,
      and otherwise the new colour of every pixel's colour. */
  lemma ColorMapFacts(image: array2<Pixel>, cone: string, lib: Numpy)
    ensures ParseCone(cone).Err? ==> ColorMap(image, cone, lib) == Err(AssertionError)
    ensures ParseCone(cone).Ok? && (image.Length0 == 0 || image.Length1 == 0) ==>
      ColorMap(image, cone, lib) == Err(ZeroDivision)
    ensures ParseCone(cone).Ok? && 0 < image.Length0 && 0 < image.Length1 ==>
      var arc := ImageArc(image, ParseCone(cone).value, lib).value;
      && (ColorMap(image, cone, lib).Ok? <==>
            forall c, w :: 0 <= c < image.Length0 && 0 <= w < image.Length1 ==>
              NewColor(Chromoluminance(Key(image[c, w]), lib.pow), arc, lib).Ok?)
      && (ColorMap(image, cone, lib).Ok? ==>
            forall c, w :: 0 <= c < image.Length0 && 0 <= w < image.Length1 ==>
              && Key(image[c, w]) in ColorMap(image, cone, lib).value
              && ColorMap(image, cone, lib).value[Key(image[c, w])] ==
                 NewColor(Chromoluminance(Key(image[c, w]), lib.pow), arc, lib).value)
    ensures ColorMap(image, cone, lib).Err? ==> ColorMap(image, cone, lib).error in {AssertionError, ZeroDivision}
  {
    PixelsListed(image);
  }

  /** `filter_image(image, cone)`: a new image whose every pixel is the new
      colour of the old pixel's RGB. */
  method FilterImage(image: array2<Pixel>, cone: string, lib: Numpy) returns (r: Result<array2<Rgb8>>)
    ensures r.Ok? <==> ColorMap(image, cone, lib).Ok?
    ensures r.Err? ==> r.error == ColorMap(image, cone, lib).error
    ensures r.Ok? ==> fresh(r.value) && r.value.Length0 == image.Length0 && r.value.Length1 == image.Length1
    ensures r.Ok? ==> forall c, w :: 0 <= c < image.Length0 && 0 <= w < image.Length1 ==>
      && Key(image[c, w]) in ColorMap(image, cone, lib).value
      && r.value[c, w] == ColorMap(image, cone, lib).value[Key(image[c, w])]
  {
    var center :- ParseCone(cone);
    var h := UniqueColors(image);
    TallyTotal(Scan(image, image.Length0));
    var chroma, found := MeanArc(h, CC.CenterPoint(center), lib);
    var arc :- found;
    var changed :- ChangeColors(h.order, chroma, arc, lib);
    PixelsListed(image);
    var out := Remap(image, changed);
    r := Ok(out);
  }

  /** The steps of `filter_image` from the colour counts to the arc: the
      chromoluminances and the weighted sums, the mean, its distance from
      cp, and the angle bounds. */
  method MeanArc(h: Histogram, cp: Point, lib: Numpy) returns (chroma: map<Rgb8, Vec3>, r: Result<Arc>)
    requires forall k :: k in h.order ==> k in h.counts
    ensures chroma == Chromas(h.order, ChromoluminanceOf(lib.pow))
    ensures r == ArcOf(h, chroma, cp, lib)
  {
    var sumX, sumY, sumCount;
    chroma, sumX, sumY, sumCount := Accumulate(h, ChromoluminanceOf(lib.pow));
    if sumCount == 0.0 {
      return chroma, Err(ZeroDivision);
    }
    var mean := Point(sumX / sumCount, sumY / sumCount);
    r := Ok(ArcThrough(cp, mean, lib));
  }
}
