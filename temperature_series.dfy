/** The loops of `generate_temperature_series` (maths/color_temperature.py):
    starting from the lower bound, each next temperature adds the smallest
    power of ten (10 to 10^10) whose chromaticity lies more than `step` away
    from the previous one, until the upper bound is reached. The chromaticity
    function and `**` are parameters. */
module TemperatureSeries {
  import opened Wrappers
  import opened Numerics

  /** `10.0 ** power` for the powers 1 to 10 of the inner loop. */
  function Power(p: nat): (r: int)
    requires 1 <= p <= 10
    ensures 10 <= r
  {
    [1, 10, 100, 1000, 10000, 100000, 1000000, 10000000, 100000000, 1000000000, 10000000000][p]
  }

  /** The chromaticity c lies more than `step` away from `previous`. */
  predicate Moved(previous: (real, real), c: (real, real), step: real, pow: (real, real) -> real)
  {
    step < Hypot(c.0 - previous.0, c.1 - previous.1, pow)
  }

  /** The inner loop may stop at power q with chromaticity c: c is the
      chromaticity at last + 10^q, and unless q is the last power it has moved
      far enough. */
  predicate Accepted(last: int, previous: (real, real), step: real, xy: real -> Result<(real, real)>,
                     pow: (real, real) -> real, q: nat, c: (real, real))
    requires 1 <= q <= 10
  {
    xy((last + Power(q)) as real) == Ok(c) && (q < 10 ==> Moved(previous, c, step, pow))
  }

  /** The inner loop from power p on: the first power q (at most 10) for which
      the chromaticity at last + 10^q is more than `step` away from `previous`;
      10 is taken regardless. */
  function NextPower(last: int, previous: (real, real), step: real, xy: real -> Result<(real, real)>,
                     pow: (real, real) -> real, p: nat): (r: Result<(nat, (real, real))>)
    requires 1 <= p <= 10
    ensures r.Ok? ==> p <= r.value.0 <= 10 && Accepted(last, previous, step, xy, pow, r.value.0, r.value.1)
    decreases 10 - p
  {
    match xy((last + Power(p)) as real)
    case Err(e) => Err(e)
    case Ok(c) =>
      if Moved(previous, c, step, pow) || p == 10 then Ok((p, c))
      else NextPower(last, previous, step, xy, pow, p + 1)
  }

  /** The power chosen is the first one that moves far enough: every smaller
      power from p on stays within `step`. */
  lemma {:induction false} NextPowerFirst(last: int, previous: (real, real), step: real, xy: real -> Result<(real, real)>,
                                          pow: (real, real) -> real, p: nat, q: nat)
    requires 1 <= p <= 10
    requires NextPower(last, previous, step, xy, pow, p).Ok?
    requires p <= q < NextPower(last, previous, step, xy, pow, p).value.0
    ensures xy((last + Power(q)) as real).Ok?
    ensures !Moved(previous, xy((last + Power(q)) as real).value, step, pow)
    decreases 10 - p
  {
    var n := NextPower(last, previous, step, xy, pow, p);
    var c := xy((last + Power(p)) as real);
    assert c.Ok? && p < 10 && !Moved(previous, c.value, step, pow) && n == NextPower(last, previous, step, xy, pow, p + 1);
    if p < q {
      NextPowerFirst(last, previous, step, xy, pow, p + 1, q);
    } else {
      assert xy((last + Power(q)) as real) == c;
    }
  }

  /** The inner loop stops at power p when the chromaticity there is defined and
      has moved far enough, or p is 10. */
  lemma NextPowerStops(last: int, previous: (real, real), step: real, xy: real -> Result<(real, real)>,
                       pow: (real, real) -> real, p: nat)
    requires 1 <= p <= 10
    requires xy((last + Power(p)) as real).Ok?
    requires Moved(previous, xy((last + Power(p)) as real).value, step, pow) || p == 10
    ensures NextPower(last, previous, step, xy, pow, p) == Ok((p, xy((last + Power(p)) as real).value))
  {
  }

  /** Otherwise it goes on to the next power. */
  lemma NextPowerContinues(last: int, previous: (real, real), step: real, xy: real -> Result<(real, real)>,
                           pow: (real, real) -> real, p: nat)
    requires 1 <= p < 10
    requires xy((last + Power(p)) as real).Ok?
    requires !Moved(previous, xy((last + Power(p)) as real).value, step, pow)
    ensures NextPower(last, previous, step, xy, pow, p) == NextPower(last, previous, step, xy, pow, p + 1)
  {
  }

  /** One step of the series: from (a, ca) to (b, cb) as the inner loop chooses. */
  predicate SeriesStep(a: int, ca: (real, real), b: int, cb: (real, real), step: real,
                       xy: real -> Result<(real, real)>, pow: (real, real) -> real)
  {
    var n := NextPower(a, ca, step, xy, pow, 1);
    n.Ok? && b == a + Power(n.value.0) && cb == n.value.1
  }

  /** Each step of a series is one the inner loop chooses. */
  predicate StepsChosen(temps: seq<int>, chromas: seq<(real, real)>, step: real,
                        xy: real -> Result<(real, real)>, pow: (real, real) -> real)
    requires |temps| == |chromas|
  {
    forall i :: 1 <= i < |temps| ==> SeriesStep(temps[i - 1], chromas[i - 1], temps[i], chromas[i], step, xy, pow)
  }

  /** A series built so far from `first`: each temperature has its
      chromaticity, each step is one the inner loop chooses, and every
      temperature but the last is below `hi`. */
  predicate SeriesPrefix(temps: seq<int>, chromas: seq<(real, real)>, first: int, hi: real, step: real,
                         xy: real -> Result<(real, real)>, pow: (real, real) -> real)
  {
    && |temps| == |chromas| >= 1
    && temps[0] == first
    && (forall i :: 0 <= i < |temps| ==> first <= temps[i])
    && (forall i :: 0 <= i < |temps| ==> xy(temps[i] as real) == Ok(chromas[i]))
    && StepsChosen(temps, chromas, step, xy, pow)
    && (forall i :: 0 <= i < |temps| - 1 ==> (temps[i] as real) < hi)
  }

  /** Appending a chosen step keeps every step chosen. */
  lemma StepsExtend(temps: seq<int>, chromas: seq<(real, real)>, step: real,
                    xy: real -> Result<(real, real)>, pow: (real, real) -> real, next: int, c: (real, real))
    requires |temps| == |chromas| >= 1
    requires StepsChosen(temps, chromas, step, xy, pow)
    requires SeriesStep(temps[|temps| - 1], chromas[|chromas| - 1], next, c, step, xy, pow)
    ensures StepsChosen(temps + [next], chromas + [c], step, xy, pow)
  {
    var t, cs := temps + [next], chromas + [c];
    forall i | 1 <= i < |t|
      ensures SeriesStep(t[i - 1], cs[i - 1], t[i], cs[i], step, xy, pow)
    {
      if i < |temps| {
        assert t[i - 1] == temps[i - 1] && t[i] == temps[i] && cs[i - 1] == chromas[i - 1] && cs[i] == chromas[i];
      } else {
        assert t[i - 1] == temps[|temps| - 1] && t[i] == next && cs[i - 1] == chromas[|chromas| - 1] && cs[i] == c;
      }
    }
  }

  /** Appending a chosen step to a series whose last temperature is below `hi`
      gives a longer series. */
  lemma SeriesExtend(temps: seq<int>, chromas: seq<(real, real)>, first: int, hi: real, step: real,
                     xy: real -> Result<(real, real)>, pow: (real, real) -> real, next: int, c: (real, real))
    requires SeriesPrefix(temps, chromas, first, hi, step, xy, pow)
    requires (temps[|temps| - 1] as real) < hi
    requires SeriesStep(temps[|temps| - 1], chromas[|chromas| - 1], next, c, step, xy, pow)
    requires xy(next as real) == Ok(c) && temps[|temps| - 1] <= next
    ensures SeriesPrefix(temps + [next], chromas + [c], first, hi, step, xy, pow)
  {
    StepsExtend(temps, chromas, step, xy, pow, next, c);
  }

  /** What `generate_temperature_series` returns for valid arguments (lo, hi, step). */
  predicate IsSeries(temps: seq<int>, chromas: seq<(real, real)>, lo: real, hi: real, step: real,
                     xy: real -> Result<(real, real)>, pow: (real, real) -> real)
  {
    && SeriesPrefix(temps, chromas, Trunc(lo), hi, step, xy, pow)
    && hi <= temps[|temps| - 1] as real
  }

  /** The inner `for power in 1..10` loop: the next temperature and its
      chromaticity after (last, previous). */
  method ChooseNext(last: int, previous: (real, real), step: real, xy: real -> Result<(real, real)>,
                    pow: (real, real) -> real)
    returns (r: Result<(int, (real, real))>)
    ensures r.Ok? ==> SeriesStep(last, previous, r.value.0, r.value.1, step, xy, pow)
    ensures r.Ok? ==> xy(r.value.0 as real) == Ok(r.value.1)
    ensures (forall t :: 0.0 < t ==> xy(t).Ok?) && 0 <= last ==> r.Ok?
  {
    var power := 1;
    while true
      invariant 1 <= power <= 10
      invariant NextPower(last, previous, step, xy, pow, 1) == NextPower(last, previous, step, xy, pow, power)
      decreases 10 - power
    {
      var c := xy((last + Power(power)) as real);
      if c.Err? {
        return Err(c.error);
      }
      if Moved(previous, c.value, step, pow) || power == 10 {
        NextPowerStops(last, previous, step, xy, pow, power);
        return Ok((last + Power(power), c.value));
      }
      NextPowerContinues(last, previous, step, xy, pow, power);
      power := power + 1;
    }
  }

  /** The loops of `generate_temperature_series` over a chromaticity function
      `xy`; any failure of `xy` is passed on. */
  method BuildSeries(lo: real, hi: real, step: real, xy: real -> Result<(real, real)>, pow: (real, real) -> real)
    returns (r: Result<(seq<int>, seq<(real, real)>)>)
    ensures r.Ok? ==> IsSeries(r.value.0, r.value.1, lo, hi, step, xy, pow)
    ensures (forall t :: 0.0 < t ==> xy(t).Ok?) && 1 <= Trunc(lo) ==> r.Ok?
    ensures xy(Trunc(lo) as real).Err? ==> r == Err(xy(Trunc(lo) as real).error)
  {
    var first := Trunc(lo);
    var c0 := xy(first as real);
    if c0.Err? {
      return Err(c0.error);
    }
    var temps := [first];
    var chromas := [c0.value];
    while (temps[|temps| - 1] as real) < hi
      invariant SeriesPrefix(temps, chromas, first, hi, step, xy, pow)
      decreases hi.Floor - temps[|temps| - 1]
    {
      var last := temps[|temps| - 1];
      var next := ChooseNext(last, chromas[|chromas| - 1], step, xy, pow);
      if next.Err? {
        return Err(next.error);
      }
      StepAdds(last, chromas[|chromas| - 1], next.value.0, next.value.1, step, xy, pow);
      SeriesExtend(temps, chromas, first, hi, step, xy, pow, next.value.0, next.value.1);
      temps, chromas := temps + [next.value.0], chromas + [next.value.1];
    }
    return Ok((temps, chromas));
  }

  /** b is a plus a power of ten from 10 to 10^10. */
  predicate PowerStep(a: int, b: int)
  {
    exists p :: 1 <= p <= 10 && b == a + Power(p)
  }

  /** One step adds 10^p for a p in 1..10, so it adds at least 10. */
  lemma StepAdds(a: int, ca: (real, real), b: int, cb: (real, real), step: real,
                 xy: real -> Result<(real, real)>, pow: (real, real) -> real)
    requires SeriesStep(a, ca, b, cb, step, xy, pow)
    ensures PowerStep(a, b)
    ensures a + 10 <= b
  {
    var p := NextPower(a, ca, step, xy, pow, 1).value.0;
    assert 1 <= p <= 10 && b == a + Power(p);
  }

  /** Each step adds 10^p for a p in 1..10, so a series strictly increases, by
      at least 10 per step. */
  lemma SeriesIncreasing(temps: seq<int>, chromas: seq<(real, real)>, lo: real, hi: real, step: real,
                         xy: real -> Result<(real, real)>, pow: (real, real) -> real)
    requires IsSeries(temps, chromas, lo, hi, step, xy, pow)
    ensures forall i :: 1 <= i < |temps| ==> PowerStep(temps[i - 1], temps[i])
    ensures forall i, j :: 0 <= i < j < |temps| ==> temps[i] + 10 * (j - i) <= temps[j]
  {
    forall i | 1 <= i < |temps|
      ensures PowerStep(temps[i - 1], temps[i]) && AtLeast10(temps[i - 1], temps[i])
    {
      StepAdds(temps[i - 1], chromas[i - 1], temps[i], chromas[i], step, xy, pow);
    }
    forall i, j | 0 <= i < j < |temps| ensures temps[i] + 10 * (j - i) <= temps[j] {
      StepsAdd(temps, i, j);
    }
  }

  predicate AtLeast10(a: int, b: int)
  {
    a + 10 <= b
  }

  lemma {:induction false} StepsAdd(temps: seq<int>, i: int, j: int)
    requires 0 <= i <= j < |temps|
    requires forall k :: 1 <= k < |temps| ==> AtLeast10(temps[k - 1], temps[k])
    ensures temps[i] + 10 * (j - i) <= temps[j]
    decreases j - i
  {
    if i < j {
      StepsAdd(temps, i, j - 1);
      assert AtLeast10(temps[j - 1], temps[j]);
    }
  }
}
