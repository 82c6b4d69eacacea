/** figure/figure.py: the `Figure` class that owns one matplotlib figure and
    its named panels. The model keeps the state the class itself keeps (the
    panel dictionary in insertion order, the nominal positions, the panel
    colours, the font sizes and colour) and the pure parts of its methods:
    argument checks, defaults, the orientation table, the file-name
    sanitising of `save`, and the shared-edge alignment pass of `update`.
    Everything drawn by matplotlib stays outside; a panel is represented by
    the settings the class hands to matplotlib. */
module Figure {
  import opened Wrappers
  import Coloration

  // ---------------------------------------------------------------------------
  // Shared-edge alignment (the pass at the end of `update`)

  /** Edges 0 and 1 (left, bottom) move inwards by growing, edges 2 and 3
      (right, top) by shrinking: `inner` is the max of the two values for the
      first and the min for the second. */
  function Inner(e: int, a: real, b: real): real
  {
    if e <= 1 then (if a >= b then a else b) else (if a <= b then a else b)
  }

  /** a lies at least as far inwards as b on edge e. */
  predicate AtLeast(e: int, a: real, b: real)
  {
    if e <= 1 then a >= b else a <= b
  }

  lemma InnerFacts(e: int, a: real, b: real)
    ensures AtLeast(e, Inner(e, a, b), a) && AtLeast(e, Inner(e, a, b), b)
    ensures Inner(e, a, b) == a || Inner(e, a, b) == b
  {
  }

  /** The innermost fitted value among panel k and the panels before m whose
      nominal edge equals panel k's. */
  function Best(e: int, keys: seq<real>, vals: seq<real>, k: nat, m: nat): real
    requires |keys| == |vals| && k < |vals| && m <= |vals|
  {
    if m == 0 then vals[k]
    else if keys[m - 1] == keys[k] then Inner(e, Best(e, keys, vals, k, m - 1), vals[m - 1])
    else Best(e, keys, vals, k, m - 1)
  }

  /** Best is at least as far inwards as every member of the group and is
      one of them. */
  lemma {:induction false} BestBound(e: int, keys: seq<real>, vals: seq<real>, k: nat, m: nat)
    requires |keys| == |vals| && k < |vals| && m <= |vals|
    ensures AtLeast(e, Best(e, keys, vals, k, m), vals[k])
    ensures forall j :: 0 <= j < m && keys[j] == keys[k] ==> AtLeast(e, Best(e, keys, vals, k, m), vals[j])
    ensures Best(e, keys, vals, k, m) == vals[k]
      || exists j :: 0 <= j < m && keys[j] == keys[k] && Best(e, keys, vals, k, m) == vals[j]
  {
    if m > 0 {
      BestBound(e, keys, vals, k, m - 1);
      InnerFacts(e, Best(e, keys, vals, k, m - 1), vals[m - 1]);
    }
  }

  /** A value at least as far inwards as every member of the group is at
      least as far inwards as Best. */
  lemma BestLeast(e: int, keys: seq<real>, vals: seq<real>, k: nat, x: real)
    requires |keys| == |vals| && k < |vals|
    requires AtLeast(e, x, vals[k])
    requires forall j :: 0 <= j < |vals| && keys[j] == keys[k] ==> AtLeast(e, x, vals[j])
    ensures AtLeast(e, x, Best(e, keys, vals, k, |vals|))
  {
    BestBound(e, keys, vals, k, |vals|);
  }

  /** Panels with equal nominal edges have the same Best. */
  lemma BestShared(e: int, keys: seq<real>, vals: seq<real>, k: nat, l: nat)
    requires |keys| == |vals| && k < |vals| && l < |vals| && keys[k] == keys[l]
    ensures Best(e, keys, vals, k, |vals|) == Best(e, keys, vals, l, |vals|)
  {
    BestBound(e, keys, vals, k, |vals|);
    BestBound(e, keys, vals, l, |vals|);
    BestLeast(e, keys, vals, k, Best(e, keys, vals, l, |vals|));
    BestLeast(e, keys, vals, l, Best(e, keys, vals, k, |vals|));
  }

  /** A panel alone in its group keeps its own value. */
  lemma BestAlone(e: int, keys: seq<real>, vals: seq<real>, k: nat)
    requires |keys| == |vals| && k < |vals|
    requires forall j :: 0 <= j < |vals| && j != k ==> keys[j] != keys[k]
    ensures Best(e, keys, vals, k, |vals|) == vals[k]
  {
    BestBound(e, keys, vals, k, |vals|);
    BestLeast(e, keys, vals, k, vals[k]);
  }

  /** One visit of the pair (i, j) on edge e. */
  function Merge(e: int, keys: seq<real>, s: seq<real>, i: nat, j: nat): (r: seq<real>)
    requires |keys| == |s| && i < |s| && j < |s|
    ensures |r| == |s|
  {
    if keys[i] == keys[j] then
      var inner := Inner(e, s[i], s[j]);
      s[i := inner][j := inner]
    else s
  }

  /** The inner loop of pass i after the partners 1 .. j - 1. */
  function Pass(e: int, keys: seq<real>, s: seq<real>, i: nat, j: nat): (r: seq<real>)
    requires |keys| == |s| && i < |s| && 1 <= j <= |s|
    ensures |r| == |s|
  {
    if j == 1 then s else Merge(e, keys, Pass(e, keys, s, i, j - 1), i, j - 1)
  }

  /** The state before pass i. */
  function Passes(e: int, keys: seq<real>, s: seq<real>, i: nat): (r: seq<real>)
    requires |keys| == |s| && i < |s|
    ensures |r| == |s|
  {
    if i == 0 then s else Pass(e, keys, Passes(e, keys, s, i - 1), i - 1, |s|)
  }

  /** The values of edge e after the alignment: the passes run only with more
      than one panel. */
  function Aligned(e: int, keys: seq<real>, vals: seq<real>): (r: seq<real>)
    requires |keys| == |vals|
    ensures |r| == |vals|
  {
    if |vals| > 1 then Passes(e, keys, vals, |vals| - 1) else vals
  }

  predicate HasEarlier(keys: seq<real>, k: nat, i: nat)
    requires k < |keys| && i <= |keys|
  {
    exists j :: 0 <= j < i && keys[j] == keys[k]
  }

  predicate IsLast(keys: seq<real>, k: nat)
    requires k < |keys|
  {
    forall j :: k < j < |keys| ==> keys[j] != keys[k]
  }

  /** The last member of k's group at or below position j. */
  function LastMember(keys: seq<real>, k: nat, j: nat): (l: nat)
    requires k <= j < |keys|
    ensures k <= l <= j && keys[l] == keys[k]
    ensures forall m :: l < m <= j ==> keys[m] != keys[k]
  {
    if keys[j] == keys[k] then j else LastMember(keys, k, j - 1)
  }

  /** Every value lies between its own fitted value and its group's Best. */
  predicate Bounded(e: int, keys: seq<real>, orig: seq<real>, s: seq<real>)
    requires |keys| == |orig|
  {
    |s| == |orig|
    && forall k :: 0 <= k < |s| ==>
      AtLeast(e, s[k], orig[k]) && AtLeast(e, Best(e, keys, orig, k, |orig|), s[k])
  }

  /** Before pass i: every panel whose group has a member before i holds its
      group's Best when it is itself before i or the last of its group. */
  predicate Done(e: int, keys: seq<real>, orig: seq<real>, s: seq<real>, i: nat)
    requires |keys| == |orig| == |s| && i <= |s|
  {
    forall k :: 0 <= k < |s| && HasEarlier(keys, k, i) && (k < i || IsLast(keys, k)) ==>
      s[k] == Best(e, keys, orig, k, |orig|)
  }

  /** What a merge keeps: the bounds, and every value already at its Best. */
  lemma MergeKeeps(e: int, keys: seq<real>, orig: seq<real>, s: seq<real>, i: nat, j: nat)
    requires |keys| == |orig| && i < |s| && j < |s|
    requires Bounded(e, keys, orig, s)
    ensures Bounded(e, keys, orig, Merge(e, keys, s, i, j))
    ensures forall k :: 0 <= k < |s| && s[k] == Best(e, keys, orig, k, |orig|) ==>
      Merge(e, keys, s, i, j)[k] == Best(e, keys, orig, k, |orig|)
  {
    if keys[i] == keys[j] {
      BestShared(e, keys, orig, i, j);
      InnerFacts(e, s[i], s[j]);
    }
  }

  lemma BoundedStart(e: int, keys: seq<real>, orig: seq<real>)
    requires |keys| == |orig|
    ensures Bounded(e, keys, orig, orig)
  {
    forall k | 0 <= k < |orig|
      ensures AtLeast(e, Best(e, keys, orig, k, |orig|), orig[k])
    {
      BestBound(e, keys, orig, k, |orig|);
    }
  }

  /** What holds of t, the state of pass i from s after the partners
      1 .. j - 1: the bounds stay, values at their Best stay; panel i has
      gathered every partner so far; when i is the first of its group, the
      group's last member, once visited, holds the Best; when it is not, panel
      i does once the last member has been visited. */
  predicate PassInvariant(e: int, keys: seq<real>, orig: seq<real>, s: seq<real>, t: seq<real>, i: nat, j: nat)
    requires |keys| == |orig| == |s| && i < |s|
  {
    && Bounded(e, keys, orig, t)
    && (forall k :: 0 <= k < |s| && s[k] == Best(e, keys, orig, k, |orig|) ==> t[k] == Best(e, keys, orig, k, |orig|))
    && (forall m :: 1 <= m < j && m < |s| && keys[m] == keys[i] ==> AtLeast(e, t[i], orig[m]))
    && (!HasEarlier(keys, i, i) ==>
          forall l :: 1 <= l < j && l < |s| && keys[l] == keys[i] && IsLast(keys, l) ==> t[l] == Best(e, keys, orig, l, |orig|))
    && (HasEarlier(keys, i, i) && (exists l :: 1 <= l < j && l < |s| && keys[l] == keys[i] && IsLast(keys, l)) ==>
          t[i] == Best(e, keys, orig, i, |orig|))
  }

  /** Visiting partner j keeps the invariant. */
  lemma PassStep(e: int, keys: seq<real>, orig: seq<real>, s: seq<real>, t: seq<real>, i: nat, j: nat)
    requires |keys| == |orig| == |s| && i < |s| && 1 <= j < |s|
    requires Bounded(e, keys, orig, s) && Done(e, keys, orig, s, i)
    requires PassInvariant(e, keys, orig, s, t, i, j)
    ensures PassInvariant(e, keys, orig, s, Merge(e, keys, t, i, j), i, j + 1)
  {
    var u := Merge(e, keys, t, i, j);
    MergeKeeps(e, keys, orig, t, i, j);
    if keys[j] == keys[i] {
      BestShared(e, keys, orig, i, j);
      InnerFacts(e, t[i], t[j]);
      var x := Inner(e, t[i], t[j]);
      assert u[i] == x && u[j] == x;
      if !HasEarlier(keys, i, i) && IsLast(keys, j) {
        // every member of the group lies in {i} + [1, j]
        forall m | 0 <= m < |orig| && keys[m] == keys[j]
          ensures AtLeast(e, x, orig[m])
        {
          if m == j {
          } else if m == i {
          } else {
            assert !(m < i);
            assert m < j;
          }
        }
        BestLeast(e, keys, orig, j, x);
      }
      if HasEarlier(keys, i, i) && IsLast(keys, j) {
        var w :| 0 <= w < i && keys[w] == keys[i];
        assert HasEarlier(keys, j, i);
        if j != i {
          assert s[j] == Best(e, keys, orig, j, |orig|);
        }
      }
    }
  }

  /** The inner loop of pass i keeps the invariant. */
  lemma {:induction false} PassFacts(e: int, keys: seq<real>, orig: seq<real>, s: seq<real>, i: nat, j: nat)
    requires |keys| == |orig| == |s| && i < |s| && 1 <= j <= |s|
    requires Bounded(e, keys, orig, s) && Done(e, keys, orig, s, i)
    ensures PassInvariant(e, keys, orig, s, Pass(e, keys, s, i, j), i, j)
  {
    if j > 1 {
      PassFacts(e, keys, orig, s, i, j - 1);
      PassStep(e, keys, orig, s, Pass(e, keys, s, i, j - 1), i, j - 1);
    }
  }

  /** A whole pass moves Done from i to i + 1. */
  lemma PassDone(e: int, keys: seq<real>, orig: seq<real>, s: seq<real>, i: nat)
    requires |keys| == |orig| == |s| && i + 1 < |s|
    requires Bounded(e, keys, orig, s) && Done(e, keys, orig, s, i)
    ensures Bounded(e, keys, orig, Pass(e, keys, s, i, |s|))
    ensures Done(e, keys, orig, Pass(e, keys, s, i, |s|), i + 1)
  {
    var n := |s|;
    PassFacts(e, keys, orig, s, i, n);
    var t := Pass(e, keys, s, i, n);
    forall k | 0 <= k < n && HasEarlier(keys, k, i + 1) && (k < i + 1 || IsLast(keys, k))
      ensures t[k] == Best(e, keys, orig, k, |orig|)
    {
      if HasEarlier(keys, k, i) && (k < i || IsLast(keys, k)) {
      } else if HasEarlier(keys, k, i) {
        assert k == i;
        var l := LastMember(keys, i, n - 1);
        assert IsLast(keys, l);
        assert l != i;
      } else {
        assert keys[i] == keys[k];
        assert !HasEarlier(keys, i, i);
        if k == i {
          forall m | 0 <= m < n && keys[m] == keys[i]
            ensures AtLeast(e, t[i], orig[m])
          {
            if m == 0 {
              assert m == i;
            }
          }
          BestLeast(e, keys, orig, i, t[i]);
        } else {
          assert !(k < i);
        }
      }
    }
  }

  lemma {:induction false} PassesFacts(e: int, keys: seq<real>, orig: seq<real>, i: nat)
    requires |keys| == |orig| && i < |orig|
    ensures Bounded(e, keys, orig, Passes(e, keys, orig, i))
    ensures Done(e, keys, orig, Passes(e, keys, orig, i), i)
  {
    if i == 0 {
      BoundedStart(e, keys, orig);
    } else {
      PassesFacts(e, keys, orig, i - 1);
      PassDone(e, keys, orig, Passes(e, keys, orig, i - 1), i - 1);
    }
  }

  /** Every panel ends with its group's Best. */
  lemma AlignedIsBest(e: int, keys: seq<real>, vals: seq<real>)
    requires |keys| == |vals|
    ensures forall k :: 0 <= k < |vals| ==> Aligned(e, keys, vals)[k] == Best(e, keys, vals, k, |vals|)
  {
    var n := |vals|;
    if n > 1 {
      PassesFacts(e, keys, vals, n - 1);
      var t := Passes(e, keys, vals, n - 1);
      forall k | 0 <= k < n
        ensures t[k] == Best(e, keys, vals, k, n)
      {
        if k < n - 1 {
          assert HasEarlier(keys, k, n - 1) by {
            assert keys[k] == keys[k];
          }
        } else if HasEarlier(keys, k, n - 1) {
          assert IsLast(keys, k);
        } else {
          BestAlone(e, keys, vals, k);
        }
      }
    } else {
      forall k | 0 <= k < n
        ensures vals[k] == Best(e, keys, vals, k, n)
      {
        BestAlone(e, keys, vals, k);
      }
    }
  }

  /** The fitted values of the panels whose nominal edge equals panel k's. */
  function GroupValues(keys: seq<real>, vals: seq<real>, k: int): set<real>
    requires |keys| == |vals| && 0 <= k < |vals|
  {
    set l | 0 <= l < |vals| && keys[l] == keys[k] :: vals[l]
  }

  lemma BestAttained(e: int, keys: seq<real>, vals: seq<real>, k: nat)
    requires |keys| == |vals| && k < |vals|
    ensures exists l :: 0 <= l < |vals| && keys[l] == keys[k] && Best(e, keys, vals, k, |vals|) == vals[l]
  {
    BestBound(e, keys, vals, k, |vals|);
    if Best(e, keys, vals, k, |vals|) == vals[k] {
      assert keys[k] == keys[k];
    }
  }

  /** What the alignment pass achieves on edge e: panels whose nominal edges
      are equal end with one common value; that value is the innermost (the
      largest left or bottom, the smallest right or top) of their fitted
      values and is one of them; a panel sharing its nominal edge with no
      other keeps its fitted value. */
  lemma AlignedFacts(e: int, keys: seq<real>, vals: seq<real>)
    requires |keys| == |vals|
    ensures forall k :: 0 <= k < |vals| ==> Aligned(e, keys, vals)[k] == Best(e, keys, vals, k, |vals|)
    ensures forall k, l :: 0 <= k < |vals| && 0 <= l < |vals| && keys[k] == keys[l] ==>
      Aligned(e, keys, vals)[k] == Aligned(e, keys, vals)[l]
    ensures forall k, l :: 0 <= k < |vals| && 0 <= l < |vals| && keys[k] == keys[l] ==>
      AtLeast(e, Aligned(e, keys, vals)[k], vals[l])
    ensures forall k :: 0 <= k < |vals| ==> Aligned(e, keys, vals)[k] in GroupValues(keys, vals, k)
    ensures forall k :: 0 <= k < |vals| && (forall l :: 0 <= l < |vals| && l != k ==> keys[l] != keys[k]) ==>
      Aligned(e, keys, vals)[k] == vals[k]
  {
    AlignedIsBest(e, keys, vals);
    var r := Aligned(e, keys, vals);
    forall k, l | 0 <= k < |vals| && 0 <= l < |vals| && keys[k] == keys[l]
      ensures r[k] == r[l] && AtLeast(e, r[k], vals[l])
    {
      BestShared(e, keys, vals, k, l);
      BestBound(e, keys, vals, k, |vals|);
    }
    forall k | 0 <= k < |vals|
      ensures Aligned(e, keys, vals)[k] in GroupValues(keys, vals, k)
    {
      BestAttained(e, keys, vals, k);
    }
    forall k | 0 <= k < |vals| && (forall l :: 0 <= l < |vals| && l != k ==> keys[l] != keys[k])
      ensures r[k] == vals[k]
    {
      BestAlone(e, keys, vals, k);
    }
  }

  // ---------------------------------------------------------------------------
  // Names, colours and positions

  /** A figure or panel name: an int or a string. */
  datatype Name = Number(n: int) | Text(s: string)

  /** The check every method makes of a name: a string name is not empty. */
  predicate NameOk(name: Name)
  {
    name.Text? ==> |name.s| > 0
  }

  /** A colour argument: a list or tuple of channel values, or a hexadecimal
      string. */
  datatype ColorArg = Channels(values: seq<real>) | HexText(text: string)

  /** A colour as the class stores it: channel values, or a hexadecimal
      string with its '#' that matplotlib's `to_rgb` (withAlpha false) or
      `to_rgba` (withAlpha true) turns into channels. */
  datatype StoredColor = Rgba(values: seq<real>) | Hex(text: string, withAlpha: bool)

  predicate UnitChannels(values: seq<real>)
  {
    forall i :: 0 <= i < |values| ==> 0.0 <= values[i] <= 1.0
  }

  /** The '#' is added when the string holds none. */
  function Hashed(text: string): (r: string)
    ensures '#' in r
    ensures '#' in text ==> r == text
    ensures '#' !in text ==> r == ['#'] + text
  {
    if '#' in text then text else "#" + text
  }

  /** A 24-bit colour (figure colour, font colour, `change_panel_color`):
      three channels in [0, 1], or a hexadecimal string of 6 or 7
      characters. */
  function ParseRgb(arg: ColorArg): (r: Result<StoredColor>)
    ensures r.Ok? <==> (arg.Channels? && |arg.values| == 3 && UnitChannels(arg.values))
                       || (arg.HexText? && 6 <= |arg.text| <= 7)
    ensures r.Ok? && arg.Channels? ==> r.value == Rgba(arg.values)
    ensures r.Ok? && arg.HexText? ==> r.value == Hex(Hashed(arg.text), false)
    ensures r.Err? ==> r.error == AssertionError
  {
    match arg
    case Channels(values) =>
      if |values| == 3 && UnitChannels(values) then Ok(Rgba(values)) else Err(AssertionError)
    case HexText(text) =>
      if 6 <= |text| <= 7 then Ok(Hex(Hashed(text), false)) else Err(AssertionError)
  }

  /** A panel colour: three or four channels in [0, 1], or a hexadecimal
      string of 6 to 9 characters. Only a 7-character string goes to
      `to_rgb`; the others, 6 characters included, go to `to_rgba`. */
  function ParseRgba(arg: ColorArg): (r: Result<StoredColor>)
    ensures r.Ok? <==> (arg.Channels? && 3 <= |arg.values| <= 4 && UnitChannels(arg.values))
                       || (arg.HexText? && 6 <= |arg.text| <= 9)
    ensures r.Ok? && arg.Channels? ==> r.value == Rgba(arg.values)
    ensures r.Ok? && arg.HexText? ==> r.value == Hex(Hashed(arg.text), |arg.text| != 7)
    ensures r.Err? ==> r.error == AssertionError
  {
    match arg
    case Channels(values) =>
      if 3 <= |values| <= 4 && UnitChannels(values) then Ok(Rgba(values)) else Err(AssertionError)
    case HexText(text) =>
      if 6 <= |text| <= 9 then
        if |text| == 7 then Ok(Hex(Hashed(text), false)) else Ok(Hex(Hashed(text), true))
      else Err(AssertionError)
  }

  /** Every colour accepted as a 24-bit colour is accepted as a panel colour,
      and stored the same way unless it is a 6-character string. */
  lemma RgbIsRgba(arg: ColorArg)
    ensures ParseRgb(arg).Ok? ==> ParseRgba(arg).Ok?
    ensures ParseRgb(arg).Ok? && !(arg.HexText? && |arg.text| == 6) ==> ParseRgba(arg) == ParseRgb(arg)
  {
  }

  /** A position (left, bottom, width, height) with positive width and
      height. */
  predicate PositionOk(p: seq<real>)
  {
    |p| == 4 && p[2] > 0.0 && p[3] > 0.0
  }

  const WHOLE_FIGURE: seq<real> := [0.0, 0.0, 1.0, 1.0]

  /** The edges (left, bottom, right, top) of a position: `update` turns
      width into right and height into top. */
  function Edges(p: seq<real>): (r: seq<real>)
    requires |p| == 4
    ensures |r| == 4 && r[0] == p[0] && r[1] == p[1]
    ensures r[2] - r[0] == p[2] && r[3] - r[1] == p[3]
  {
    [p[0], p[1], p[0] + p[2], p[1] + p[3]]
  }

  /** The edges of a valid position are in order. */
  lemma EdgesOrdered(p: seq<real>)
    requires PositionOk(p)
    ensures Edges(p)[0] < Edges(p)[2] && Edges(p)[1] < Edges(p)[3]
  {
  }

  // ---------------------------------------------------------------------------
  // Grey levels and fonts

  /** `grey_level`: the value (1.0 when omitted) must lie in [0, 1]; the grey
      is (v, v, v), or (1 - v, 1 - v, 1 - v) on an inverted figure. */
  function Grey(value: Option<real>, inverted: bool): (r: Result<seq<real>>)
    ensures var v := if value.Some? then value.value else 1.0;
      && (r.Ok? <==> 0.0 <= v <= 1.0)
      && (r.Err? ==> r.error == AssertionError)
      && (r.Ok? ==>
            |r.value| == 3 && UnitChannels(r.value)
            && r.value[0] == r.value[1] == r.value[2] == (if inverted then 1.0 - v else v))
  {
    var v := if value.Some? then value.value else 1.0;
    if !(0.0 <= v <= 1.0) then Err(AssertionError)
    else if !inverted then Ok([v, v, v])
    else Ok([1.0 - v, 1.0 - v, 1.0 - v])
  }

  /** Inverting a figure mirrors its grey scale, invalid values included. */
  lemma GreyInverted(v: real)
    ensures Grey(Some(v), true) == Grey(Some(1.0 - v), false)
  {
  }

  /** The default grey is white on a plain figure and black on an inverted one,
      and grey 0.5 is the same on both. */
  lemma GreyExamples()
    ensures Grey(None, false) == Ok([1.0, 1.0, 1.0]) && Grey(None, true) == Ok([0.0, 0.0, 0.0])
    ensures Grey(Some(0.5), false) == Grey(Some(0.5), true) == Ok([0.5, 0.5, 0.5])
    ensures Grey(Some(2.0), false).Err?
  {
  }

  /** An omitted font size is allowed; a given one must be positive. */
  predicate SizeOk(size: Option<real>)
  {
    size.Some? ==> size.value > 0.0
  }

  /** The new `font_sizes` dictionary of `set_fonts`. */
  function FontSizes(titles: Option<real>, labels: Option<real>, ticks: Option<real>, legends: Option<real>):
    (m: map<string, real>)
    ensures forall key :: key in m <==>
      (key == "titles" && titles.Some?) || (key == "labels" && labels.Some?)
      || (key == "ticks" && ticks.Some?) || (key == "legends" && legends.Some?)
    ensures titles.Some? ==> m["titles"] == titles.value
    ensures labels.Some? ==> m["labels"] == labels.value
    ensures ticks.Some? ==> m["ticks"] == ticks.value
    ensures legends.Some? ==> m["legends"] == legends.value
  {
    var m0: map<string, real> := map[];
    var m1 := if titles.Some? then m0["titles" := titles.value] else m0;
    var m2 := if labels.Some? then m1["labels" := labels.value] else m1;
    var m3 := if ticks.Some? then m2["ticks" := ticks.value] else m2;
    if legends.Some? then m3["legends" := legends.value] else m3
  }

  // ---------------------------------------------------------------------------
  // Panels

  const SCALES: seq<string> := ["linear", "log", "symlog", "logit"]

  /** An omitted axis scale is 'linear'; a given one is one of SCALES. */
  function Scale(scale: Option<string>): Result<string>
  {
    if scale.None? then Ok("linear") else if scale.value in SCALES then Ok(scale.value) else Err(AssertionError)
  }

  /** Given axis limits must be increasing. */
  predicate LimitOk(limit: Option<(real, real)>)
  {
    limit.Some? ==> limit.value.0 < limit.value.1
  }

  /** A panel name to share an axis with must name an existing panel. */
  predicate ShareOk<T>(share: Option<Name>, panels: map<Name, T>)
  {
    share.Some? ==> NameOk(share.value) && share.value in panels
  }

  /** What the class hands to matplotlib for one panel. Its title is the
      given one or, by default, the panel's name; the view is set by
      `change_panel_orientation`. */
  datatype Axes = Axes(
    title: Name, threeDimensional: bool,
    xScale: string, yScale: string, zScale: string,
    xLim: Option<(real, real)>, yLim: Option<(real, real)>, zLim: Option<(real, real)>,
    sharesX: Option<Name>, sharesY: Option<Name>,
    view: Option<(real, real)>)

  /** The arguments of `add_panel` that the class checks or keeps; labels,
      margins, ticks and tick labels only go to matplotlib. */
  datatype PanelArgs = PanelArgs(
    name: Option<Name>, title: Option<string>, position: Option<seq<real>>,
    panelColor: Option<ColorArg>, threeDimensional: Option<bool>,
    xScale: Option<string>, yScale: Option<string>, zScale: Option<string>,
    xLim: Option<(real, real)>, yLim: Option<(real, real)>, zLim: Option<(real, real)>,
    shareXWith: Option<Name>, shareYWith: Option<Name>)

  /** A new panel: its name, nominal position, colour and settings. */
  datatype Panel = Panel(name: Name, position: seq<real>, color: StoredColor, axes: Axes)

  /** The name of a new panel: by default the number of panels. */
  function PanelName(args: PanelArgs, panels: map<Name, Axes>): Name
  {
    if args.name.Some? then args.name.value else Number(|panels|)
  }

  /** The position of a new panel: by default the whole figure. */
  function PanelPosition(args: PanelArgs): seq<real>
  {
    if args.position.Some? then args.position.value else WHOLE_FIGURE
  }

  /** The colour of a new panel: by default transparent white, or
      transparent black on an inverted figure. */
  function PanelColor(args: PanelArgs, inverted: bool): Result<StoredColor>
  {
    if args.panelColor.Some? then ParseRgba(args.panelColor.value)
    else Ok(Rgba(if inverted then [0.0, 0.0, 0.0, 0.0] else [1.0, 1.0, 1.0, 0.0]))
  }

  /** Every check `add_panel` makes. */
  predicate PanelChecks(args: PanelArgs, panels: map<Name, Axes>, inverted: bool)
  {
    && NameOk(PanelName(args, panels)) && PanelName(args, panels) !in panels
    && PositionOk(PanelPosition(args)) && PanelColor(args, inverted).Ok?
    && Scale(args.xScale).Ok? && Scale(args.yScale).Ok? && Scale(args.zScale).Ok?
    && LimitOk(args.xLim) && LimitOk(args.yLim) && LimitOk(args.zLim)
    && ShareOk(args.shareXWith, panels) && ShareOk(args.shareYWith, panels)
  }

  /** The checks and defaults of `add_panel` against the current panels: a
      new panel gets a valid position and a name that is not taken. */
  function NewPanel(args: PanelArgs, panels: map<Name, Axes>, inverted: bool): (r: Result<Panel>)
    ensures r.Err? ==> r.error == AssertionError
    ensures r.Ok? ==> NameOk(r.value.name) && r.value.name !in panels && PositionOk(r.value.position)
  {
    var name := if args.name.Some? then args.name.value else Number(|panels|);
    if !NameOk(name) || name in panels then Err(AssertionError)
    else
      var position := if args.position.Some? then args.position.value else WHOLE_FIGURE;
      if !PositionOk(position) then Err(AssertionError)
      else
        var color :- if args.panelColor.Some? then ParseRgba(args.panelColor.value)
          else Ok(Rgba(if inverted then [0.0, 0.0, 0.0, 0.0] else [1.0, 1.0, 1.0, 0.0]));
        var threeDimensional := args.threeDimensional == Some(true);
        var xScale :- Scale(args.xScale);
        var yScale :- Scale(args.yScale);
        var zScale :- Scale(args.zScale);
        if !(LimitOk(args.xLim) && LimitOk(args.yLim) && LimitOk(args.zLim)) then Err(AssertionError)
        else if !(ShareOk(args.shareXWith, panels) && ShareOk(args.shareYWith, panels)) then Err(AssertionError)
        else
          var title := if args.title.Some? then Text(args.title.value) else name;
          var zLim := if threeDimensional then args.zLim else None;
          Ok(Panel(name, position, color,
            Axes(title, threeDimensional, xScale, yScale, zScale, args.xLim, args.yLim, zLim,
                 args.shareXWith, args.shareYWith, None)))
  }

  /** A panel is made exactly when every check passes, with the defaults
      filled in; its title is the given one or its name, and it has no view
      yet. */
  lemma NewPanelFacts(args: PanelArgs, panels: map<Name, Axes>, inverted: bool)
    ensures var r := NewPanel(args, panels, inverted);
      && (r.Ok? <==> PanelChecks(args, panels, inverted))
      && (r.Ok? ==>
            r.value.name == PanelName(args, panels) && r.value.position == PanelPosition(args)
            && r.value.color == PanelColor(args, inverted).value
            && r.value.axes.title == (if args.title.Some? then Text(args.title.value) else r.value.name)
            && r.value.axes.threeDimensional == (args.threeDimensional == Some(true))
            && r.value.axes.view.None?)
  {
  }

  /** The default name is the number of panels, so it can be taken: after
      panels 0 and 1 are added and panel 0 is removed, a third panel added
      without a name is refused. */
  lemma DefaultNameTaken(args: PanelArgs, axes: Axes, inverted: bool)
    requires args.name.None? && args.position.None? && args.panelColor.None?
    ensures NewPanel(args, map[Number(1) := axes], inverted).Err?
  {
  }

  predicate Distinct(s: seq<Name>)
  {
    forall i, j :: 0 <= i < j < |s| ==> s[i] != s[j]
  }

  /** In a panel state (panels, order, nominal positions, colours) every
      panel has a valid nominal position and a colour, and the order lists
      the panels once each. */
  ghost predicate PanelsValid(state: (map<Name, Axes>, seq<Name>, map<Name, seq<real>>, map<Name, StoredColor>))
  {
    && (forall k :: k in state.1 <==> k in state.0)
    && Distinct(state.1)
    && state.2.Keys == state.0.Keys
    && (forall k :: k in state.2 ==> PositionOk(state.2[k]))
    && state.0.Keys <= state.3.Keys
  }

  /** Adding a panel under a new name with a valid position keeps a panel
      state valid. */
  lemma WithPanelValid(state: (map<Name, Axes>, seq<Name>, map<Name, seq<real>>, map<Name, StoredColor>), p: Panel)
    requires PanelsValid(state) && p.name !in state.0 && PositionOk(p.position)
    ensures PanelsValid(WithPanel(state, p))
  {
    assert p.name !in state.1;
  }

  /** The panel state (panels, order, nominal positions, colours) with panel
      p added: recorded under its name, which goes last in the order. */
  function WithPanel(state: (map<Name, Axes>, seq<Name>, map<Name, seq<real>>, map<Name, StoredColor>), p: Panel):
    (map<Name, Axes>, seq<Name>, map<Name, seq<real>>, map<Name, StoredColor>)
  {
    (state.0[p.name := p.axes], state.1 + [p.name], state.2[p.name := p.position], state.3[p.name := p.color])
  }

  /** The panel state with the panel x removed from the panels, the order
      and the nominal positions, but not from the colours. */
  function WithoutPanel(state: (map<Name, Axes>, seq<Name>, map<Name, seq<real>>, map<Name, StoredColor>), x: Name):
    (map<Name, Axes>, seq<Name>, map<Name, seq<real>>, map<Name, StoredColor>)
  {
    (state.0 - {x}, Without(state.1, x), state.2 - {x}, state.3)
  }

  lemma WithoutPanelValid(state: (map<Name, Axes>, seq<Name>, map<Name, seq<real>>, map<Name, StoredColor>), x: Name)
    requires PanelsValid(state)
    ensures PanelsValid(WithoutPanel(state, x))
  {
    WithoutDistinct(state.1, x);
  }

  /** The names in s other than x, in their order. */
  function Without(s: seq<Name>, x: Name): (r: seq<Name>)
    ensures forall k :: k in r <==> k in s && k != x
  {
    if |s| == 0 then [] else if s[0] == x then Without(s[1..], x) else [s[0]] + Without(s[1..], x)
  }

  lemma {:induction false} WithoutDistinct(s: seq<Name>, x: Name)
    requires Distinct(s)
    ensures Distinct(Without(s, x))
  {
    if |s| > 0 {
      assert Distinct(s[1..]);
      WithoutDistinct(s[1..], x);
      assert s[0] !in s[1..];
    }
  }

  // ---------------------------------------------------------------------------
  // Orientation of three-dimensional panels

  const LEFT_AXES: seq<string> := ["-x", "+x", "-y", "+y"]
  const BASE_ELEVATION: real := 22.5

  /** The `view_init` arguments (elevation, azimuth) for a vertical sign
      and a left axis. */
  function ViewInit(sign: int, axis: string): (real, real)
  {
    if sign == 1 then
      if axis == "-x" then (BASE_ELEVATION, 45.0 - 270.0)
      else if axis == "+x" then (BASE_ELEVATION, 45.0 - 90.0)
      else if axis == "-y" then (BASE_ELEVATION, 45.0 - 180.0)
      else (BASE_ELEVATION, 45.0)
    else
      if axis == "-x" then (BASE_ELEVATION - 180.0, 45.0)
      else if axis == "+x" then (BASE_ELEVATION - 180.0, 45.0 - 180.0)
      else if axis == "-y" then (BASE_ELEVATION - 180.0, 45.0 - 270.0)
      else (BASE_ELEVATION - 180.0, 45.0 - 90.0)
  }

  /** The checks of `change_panel_orientation`: the sign (1 when omitted)
      is 1 or -1; the left axis ('+y' when omitted) has two characters and,
      lower-cased, is one of LEFT_AXES. */
  predicate OrientationOk(verticalSign: Option<int>, leftAxis: Option<string>)
  {
    var sign := if verticalSign.Some? then verticalSign.value else 1;
    var axis := if leftAxis.Some? then leftAxis.value else "+y";
    (sign == 1 || sign == -1) && |axis| == 2 && Coloration.Lower(axis) in LEFT_AXES
  }

  /** `change_panel_orientation` as written: the axis is checked lower-cased
      but looked up as given, so an upper-case axis falls to the last row
      of the table. */
  function OrientationAsWritten(verticalSign: Option<int>, leftAxis: Option<string>): (r: Result<(real, real)>)
    ensures r.Ok? <==> OrientationOk(verticalSign, leftAxis)
  {
    if !OrientationOk(verticalSign, leftAxis) then Err(AssertionError)
    else
      var sign := if verticalSign.Some? then verticalSign.value else 1;
      var axis := if leftAxis.Some? then leftAxis.value else "+y";
      Ok(ViewInit(sign, axis))
  }

  /** '-X' is accepted, yet it gives the '+y' view instead of the '-x' one. */
  lemma UpperCaseAxisMisread()
    ensures OrientationAsWritten(None, Some("-X")) == OrientationAsWritten(None, Some("+y")) == Ok((22.5, 45.0))
    ensures OrientationAsWritten(None, Some("-x")) == Ok((22.5, -225.0))
  {
    assert Coloration.Lower("-X") == "-x";
    assert Coloration.Lower("+y") == "+y";
    assert Coloration.Lower("-x") == "-x";
  }

  /** The orientation with the axis looked up lower-cased, as it is
      checked. */
  function Orientation(verticalSign: Option<int>, leftAxis: Option<string>): (r: Result<(real, real)>)
    ensures r.Ok? <==> OrientationOk(verticalSign, leftAxis)
    ensures r.Err? ==> r.error == AssertionError
    ensures r.Ok? ==> r.value.0 == (if verticalSign.None? || verticalSign.value == 1 then 22.5 else -157.5)
  {
    if !OrientationOk(verticalSign, leftAxis) then Err(AssertionError)
    else
      var sign := if verticalSign.Some? then verticalSign.value else 1;
      var axis := if leftAxis.Some? then leftAxis.value else "+y";
      Ok(ViewInit(sign, Coloration.Lower(axis)))
  }

  lemma LowerTwice(s: string)
    ensures Coloration.Lower(Coloration.Lower(s)) == Coloration.Lower(s)
  {
    forall i | 0 <= i < |s|
      ensures Coloration.LowerChar(Coloration.LowerChar(s[i])) == Coloration.LowerChar(s[i])
    {
      Coloration.LowerUpper(s[i]);
    }
  }

  /** The corrected orientation ignores the case of the axis, and the eight
      accepted choices give eight different views. */
  lemma OrientationFacts(sign: Option<int>, axis: string, sign': Option<int>, axis': string)
    ensures Orientation(sign, Some(axis)) == Orientation(sign, Some(Coloration.Lower(axis)))
    ensures (Orientation(sign, Some(axis)).Ok? && Orientation(sign', Some(axis')).Ok?
             && Orientation(sign, Some(axis)) == Orientation(sign', Some(axis'))) ==>
      ((if sign.Some? then sign.value else 1) == (if sign'.Some? then sign'.value else 1)
       && Coloration.Lower(axis) == Coloration.Lower(axis'))
  {
    LowerTwice(axis);
    assert |Coloration.Lower(axis)| == |axis|;
  }

  // ---------------------------------------------------------------------------
  // File names of `save`

  /** `str.isalnum` on ASCII letters and digits. */
  predicate IsAlnum(ch: char)
  {
    Coloration.IsLetter(ch) || '0' <= ch <= '9'
  }

  /** The whitespace `str.rstrip` removes, on ASCII. */
  predicate IsSpace(ch: char)
  {
    ch == ' ' || ch == '\t' || ch == '\n' || ch == '\r'
  }

  const PATH_EXTRA: set<char> := {' ', '.', '_', '-', ',', '(', ')', '/', ':'}
  const NAME_EXTRA: set<char> := {' ', '.', '_', '-', ',', '(', ')'}

  predicate Allowed(ch: char, extra: set<char>)
  {
    IsAlnum(ch) || ch in extra
  }

  /** The characters of s that are alphanumeric or in extra, in order. */
  function Keep(s: string, extra: set<char>): (r: string)
    ensures |r| <= |s|
    ensures forall i :: 0 <= i < |r| ==> Allowed(r[i], extra)
    ensures (forall i :: 0 <= i < |s| ==> Allowed(s[i], extra)) ==> r == s
  {
    if |s| == 0 then []
    else if Allowed(s[0], extra) then [s[0]] + Keep(s[1..], extra)
    else Keep(s[1..], extra)
  }

  /** s without its trailing whitespace. */
  function RStrip(s: string): (r: string)
    ensures |r| <= |s| && r == s[..|r|]
    ensures |r| > 0 ==> !IsSpace(r[|r| - 1])
    ensures forall i :: |r| <= i < |s| ==> IsSpace(s[i])
  {
    if |s| > 0 && IsSpace(s[|s| - 1]) then RStrip(s[..|s| - 1]) else s
  }

  function Sanitize(s: string, extra: set<char>): string
  {
    RStrip(Keep(s, extra))
  }

  /** Sanitising keeps only allowed characters; sanitising twice is
      sanitising once. */
  lemma SanitizeFacts(s: string, extra: set<char>)
    ensures forall i :: 0 <= i < |Sanitize(s, extra)| ==> Allowed(Sanitize(s, extra)[i], extra)
    ensures Sanitize(Sanitize(s, extra), extra) == Sanitize(s, extra)
  {
    var kept := Keep(s, extra);
    var t := RStrip(kept);
    assert forall i :: 0 <= i < |t| ==> t[i] == kept[i];
    assert Keep(t, extra) == t;
  }

  /** The sanitised name holds no directory separator. */
  lemma NameHasNoSeparator(name: string)
    ensures '/' !in Sanitize(name, NAME_EXTRA)
  {
    SanitizeFacts(name, NAME_EXTRA);
    assert !Allowed('/', NAME_EXTRA);
  }

  // ---------------------------------------------------------------------------
  // The figure

  class Figure {
    var name: Name
    var size: (real, real)
    var inverted: bool
    var figureColor: StoredColor
    /** `panels`, with its keys in insertion order. */
    var panels: map<Name, Axes>
    var order: seq<Name>
    var nominalPositions: map<Name, seq<real>>
    var panelColors: map<Name, StoredColor>
    var fontColor: StoredColor
    var fontSizes: Option<map<string, real>>

    ghost predicate Valid()
      reads this
    {
      NameOk(name) && size.0 > 0.0 && size.1 > 0.0 && PanelsValid(PanelState())
    }

    /** The state the panel methods change. */
    ghost function PanelState(): (map<Name, Axes>, seq<Name>, map<Name, seq<real>>, map<Name, StoredColor>)
      reads this
    {
      (panels, order, nominalPositions, panelColors)
    }

    /** The state set at initialisation. */
    ghost function Setup(): (Name, (real, real), bool, StoredColor)
      reads this
    {
      (name, size, inverted, figureColor)
    }

    /** `__init__` once its arguments are checked: no panels, black font on
        a plain figure and white on an inverted one, no font sizes. */
    constructor (name: Name, size: (real, real), inverted: bool, figureColor: StoredColor)
      requires NameOk(name) && size.0 > 0.0 && size.1 > 0.0
      ensures Valid()
      ensures Setup() == (name, size, inverted, figureColor)
      ensures panels == map[] && order == [] && nominalPositions == map[] && panelColors == map[]
      ensures fontColor == Rgba(if inverted then [1.0, 1.0, 1.0] else [0.0, 0.0, 0.0])
      ensures fontSizes.None?
    {
      this.name := name;
      this.size := size;
      this.inverted := inverted;
      this.figureColor := figureColor;
      panels := map[];
      order := [];
      nominalPositions := map[];
      panelColors := map[];
      fontColor := Rgba(if inverted then [1.0, 1.0, 1.0] else [0.0, 0.0, 0.0]);
      fontSizes := None;
    }

    /** `grey_level` of this figure. */
    function GreyLevel(value: Option<real>): (r: Result<seq<real>>)
      reads this
      ensures r == Grey(value, inverted)
    {
      Grey(value, inverted)
    }

    /** `set_fonts`: every given size positive and a given colour valid;
        given sizes replace the size dictionary by one holding exactly
        them; the font colour becomes the given colour or, when none is
        given, `grey_level(0.0)`. */
    method SetFonts(titles: Option<real>, labels: Option<real>, ticks: Option<real>, legends: Option<real>,
                    color: Option<ColorArg>) returns (r: Result<()>)
      requires Valid()
      modifies this
      ensures Valid()
      ensures r.Ok? <==> SizeOk(titles) && SizeOk(labels) && SizeOk(ticks) && SizeOk(legends)
                         && (color.Some? ==> ParseRgb(color.value).Ok?)
      ensures r.Err? ==> r.error == AssertionError && fontSizes == old(fontSizes) && fontColor == old(fontColor)
      ensures r.Ok? ==>
        fontSizes == (if titles.Some? || labels.Some? || ticks.Some? || legends.Some?
                      then Some(FontSizes(titles, labels, ticks, legends)) else old(fontSizes))
      ensures r.Ok? ==>
        fontColor == (if color.Some? then ParseRgb(color.value).value else Rgba(Grey(Some(0.0), inverted).value))
      ensures PanelState() == old(PanelState()) && Setup() == old(Setup())
    {
      if !(SizeOk(titles) && SizeOk(labels) && SizeOk(ticks) && SizeOk(legends)) {
        return Err(AssertionError);
      }
      var parsed: Option<StoredColor> := None;
      if color.Some? {
        var c :- ParseRgb(color.value);
        parsed := Some(c);
      }
      if titles.Some? || labels.Some? || ticks.Some? || legends.Some? {
        fontSizes := Some(FontSizes(titles, labels, ticks, legends));
      }
      if parsed.Some? {
        fontColor := parsed.value;
      } else {
        var grey := GreyLevel(Some(0.0));
        fontColor := Rgba(grey.value);
      }
      r := Ok(());
    }

    /** `add_panel`: a panel that passes the checks of NewPanel is recorded
        under its name: its settings, its nominal position and its colour;
        it goes last in the panel order. */
    method AddPanel(args: PanelArgs) returns (r: Result<Axes>)
      requires Valid()
      modifies this
      ensures Valid()
      ensures var p := NewPanel(args, old(panels), inverted);
        && (r.Ok? <==> p.Ok?)
        && (r.Err? ==> r.error == AssertionError && PanelState() == old(PanelState()))
        && (r.Ok? ==> r.value == p.value.axes && PanelState() == WithPanel(old(PanelState()), p.value))
      ensures Setup() == old(Setup()) && fontColor == old(fontColor) && fontSizes == old(fontSizes)
    {
      var p :- NewPanel(args, panels, inverted);
      WithPanelValid(PanelState(), p);
      panels, order, nominalPositions, panelColors := panels[p.name := p.axes], order + [p.name],
        nominalPositions[p.name := p.position], panelColors[p.name := p.color];
      r := Ok(p.axes);
    }

    /** `remove_panel`: an absent name gives false and changes nothing; a
        present one is removed from the panels and the nominal positions,
        its colour staying behind, and gives true. */
    method RemovePanel(name: Name) returns (r: Result<bool>)
      requires Valid()
      modifies this
      ensures Valid()
      ensures !NameOk(name) ==> r == Err(AssertionError) && PanelState() == old(PanelState())
      ensures NameOk(name) && name !in old(panels) ==> r == Ok(false) && PanelState() == old(PanelState())
      ensures NameOk(name) && name in old(panels) ==> r == Ok(true) && PanelState() == WithoutPanel(old(PanelState()), name)
      ensures Setup() == old(Setup()) && fontColor == old(fontColor) && fontSizes == old(fontSizes)
    {
      if !NameOk(name) {
        return Err(AssertionError);
      }
      if name !in panels {
        return Ok(false);
      }
      WithoutPanelValid(PanelState(), name);
      panels, order, nominalPositions := panels - {name}, Without(order, name), nominalPositions - {name};
      r := Ok(true);
    }

    /** `change_panel_position`: for an existing panel and a valid position,
        only that panel's nominal position changes. */
    method ChangePanelPosition(name: Name, position: seq<real>) returns (r: Result<Axes>)
      requires Valid()
      modifies this
      ensures Valid()
      ensures r.Ok? <==> NameOk(name) && name in old(panels) && PositionOk(position)
      ensures r.Err? ==> r.error == AssertionError && PanelState() == old(PanelState())
      ensures r.Ok? ==>
        panels == old(panels) && r.value == panels[name] && order == old(order)
        && nominalPositions == old(nominalPositions)[name := position] && panelColors == old(panelColors)
      ensures Setup() == old(Setup()) && fontColor == old(fontColor) && fontSizes == old(fontSizes)
    {
      if !(NameOk(name) && name in panels && PositionOk(position)) {
        return Err(AssertionError);
      }
      nominalPositions := nominalPositions[name := position];
      r := Ok(panels[name]);
    }

    /** `change_panel_orientation`: for an existing three-dimensional panel,
        its view becomes the corrected Orientation. */
    method ChangePanelOrientation(name: Name, verticalSign: Option<int>, leftAxis: Option<string>)
      returns (r: Result<Axes>)
      requires Valid()
      modifies this
      ensures Valid()
      ensures r.Ok? <==> NameOk(name) && name in old(panels) && old(panels)[name].threeDimensional
                         && Orientation(verticalSign, leftAxis).Ok?
      ensures r.Err? ==> r.error == AssertionError && PanelState() == old(PanelState())
      ensures r.Ok? ==>
        panels == old(panels)[name := old(panels)[name].(view := Some(Orientation(verticalSign, leftAxis).value))]
        && r.value == panels[name]
        && order == old(order) && nominalPositions == old(nominalPositions) && panelColors == old(panelColors)
      ensures Setup() == old(Setup()) && fontColor == old(fontColor) && fontSizes == old(fontSizes)
    {
      if !(NameOk(name) && name in panels && panels[name].threeDimensional) {
        return Err(AssertionError);
      }
      var view :- Orientation(verticalSign, leftAxis);
      panels := panels[name := panels[name].(view := Some(view))];
      r := Ok(panels[name]);
    }

    /** `change_panel_color`: for an existing panel and a valid 24-bit
        colour, only that panel's colour changes. */
    method ChangePanelColor(name: Name, color: ColorArg) returns (r: Result<Axes>)
      requires Valid()
      modifies this
      ensures Valid()
      ensures r.Ok? <==> NameOk(name) && name in old(panels) && ParseRgb(color).Ok?
      ensures r.Err? ==> r.error == AssertionError && PanelState() == old(PanelState())
      ensures r.Ok? ==>
        panels == old(panels) && r.value == panels[name] && order == old(order)
        && nominalPositions == old(nominalPositions) && panelColors == old(panelColors)[name := ParseRgb(color).value]
      ensures Setup() == old(Setup()) && fontColor == old(fontColor) && fontSizes == old(fontSizes)
    {
      if !(NameOk(name) && name in panels) {
        return Err(AssertionError);
      }
      var stored :- ParseRgb(color);
      panelColors := panelColors[name := stored];
      r := Ok(panels[name]);
    }

    /** The file `save` writes to: path '.', the figure's name and extension
        'svg' by default, each a non-empty string; the path and the name are
        sanitised, the name so that it adds no directory. */
    function SaveFileName(path: Option<string>, name: Option<Name>, extension: Option<string>): (r: Result<string>)
      reads this
      ensures var p := if path.Some? then path.value else ".";
        var n := if name.Some? then name.value else this.name;
        var x := if extension.Some? then extension.value else "svg";
        && (r.Ok? <==> |p| > 0 && n.Text? && |n.s| > 0 && |x| > 0)
        && (r.Err? ==> r.error == AssertionError)
        && (r.Ok? ==>
              var dir := Sanitize(p, PATH_EXTRA);
              var file := Sanitize(n.s, NAME_EXTRA);
              && r.value == dir + "/" + file + "." + x
              && '/' !in file
              && Sanitize(dir, PATH_EXTRA) == dir && Sanitize(file, NAME_EXTRA) == file)
    {
      var p := if path.Some? then path.value else ".";
      var n := if name.Some? then name.value else this.name;
      var x := if extension.Some? then extension.value else "svg";
      if !(|p| > 0 && n.Text? && |n.s| > 0 && |x| > 0) then Err(AssertionError)
      else
        SanitizeFacts(p, PATH_EXTRA);
        SanitizeFacts(n.s, NAME_EXTRA);
        NameHasNoSeparator(n.s);
        Ok(Sanitize(p, PATH_EXTRA) + "/" + Sanitize(n.s, NAME_EXTRA) + "." + x)
    }

    /** `old_positions` of `update`: the edges of every panel's nominal
        position, in panel order. */
    function OldPositions(): (edges: seq<seq<real>>)
      reads this
      requires Valid()
      ensures |edges| == |order|
      ensures forall k :: 0 <= k < |order| ==> edges[k] == Edges(nominalPositions[order[k]])
    {
      seq(|order|, (k: int) requires 0 <= k < |order| && Valid() reads this => Edges(nominalPositions[order[k]]))
    }

    /** The alignment pass of `update` over the fitted positions (left,
        bottom, right, top) of the panels in panel order: every edge ends as
        Aligned of its fitted values, grouped by the nominal edges (see
        AlignedFacts for what that value is). */
    method AlignSharedEdges(fitted: array2<real>)
      requires Valid() && fitted.Length0 == |order| && fitted.Length1 == 4
      modifies fitted
      ensures forall e :: 0 <= e < 4 ==> Column(fitted, e) == Aligned(e, EdgeKeys(OldPositions(), e), old(Column(fitted, e)))
    {
      var edges := OldPositions();
      AlignEdges(edges, fitted);
      assert OldPositions() == edges;
    }
  }

  /** Edge e of every entry of a table of edges. */
  function EdgeKeys(edges: seq<seq<real>>, e: nat): (keys: seq<real>)
    requires e < 4 && forall k :: 0 <= k < |edges| ==> |edges[k]| == 4
    ensures |keys| == |edges| && forall k :: 0 <= k < |edges| ==> keys[k] == edges[k][e]
  {
    seq(|edges|, (k: int) requires 0 <= k < |edges| && |edges[k]| == 4 => edges[k][e])
  }

  /** The triple loop of the alignment pass: for every first panel but the
      last, every second panel from the second on, and every edge. */
  method AlignEdges(edges: seq<seq<real>>, fitted: array2<real>)
    requires forall k :: 0 <= k < |edges| ==> |edges[k]| == 4
    requires fitted.Length0 == |edges| && fitted.Length1 == 4
    modifies fitted
    ensures forall e :: 0 <= e < 4 ==> Column(fitted, e) == Aligned(e, EdgeKeys(edges, e), old(Column(fitted, e)))
  {
    var n := |edges|;
    if n > 1 {
      for i := 0 to n - 1
        invariant forall e :: 0 <= e < 4 ==>
          Column(fitted, e) == Passes(e, EdgeKeys(edges, e), old(Column(fitted, e)), i)
      {
        AlignPass(edges, fitted, i);
      }
    }
  }

  /** Pass i: panel i against every panel from the second on. */
  method AlignPass(edges: seq<seq<real>>, fitted: array2<real>, i: nat)
    requires forall k :: 0 <= k < |edges| ==> |edges[k]| == 4
    requires fitted.Length0 == |edges| && fitted.Length1 == 4 && i < |edges|
    modifies fitted
    ensures forall e :: 0 <= e < 4 ==>
      Column(fitted, e) == Pass(e, EdgeKeys(edges, e), old(Column(fitted, e)), i, |edges|)
  {
    for j := 1 to |edges|
      invariant forall e :: 0 <= e < 4 ==>
        Column(fitted, e) == Pass(e, EdgeKeys(edges, e), old(Column(fitted, e)), i, j)
    {
      VisitPair(edges, fitted, i, j);
    }
  }

  /** The pair (i, j) on every edge. */
  method VisitPair(edges: seq<seq<real>>, fitted: array2<real>, i: nat, j: nat)
    requires forall k :: 0 <= k < |edges| ==> |edges[k]| == 4
    requires fitted.Length0 == |edges| && fitted.Length1 == 4 && i < |edges| && j < |edges|
    modifies fitted
    ensures forall e :: 0 <= e < 4 ==>
      Column(fitted, e) == Merge(e, EdgeKeys(edges, e), old(Column(fitted, e)), i, j)
  {
    for e := 0 to 4
      invariant forall d :: 0 <= d < e ==>
        Column(fitted, d) == Merge(d, EdgeKeys(edges, d), old(Column(fitted, d)), i, j)
      invariant forall d :: e <= d < 4 ==> Column(fitted, d) == old(Column(fitted, d))
    {
      MergePair(fitted, e, i, j, edges[i][e] == edges[j][e], EdgeKeys(edges, e));
    }
  }

  /** One visit of the pair (i, j) on edge e of the fitted positions. */
  method MergePair(fitted: array2<real>, e: nat, i: nat, j: nat, same: bool, ghost keys: seq<real>)
    requires e < fitted.Length1 && i < fitted.Length0 && j < fitted.Length0
    requires |keys| == fitted.Length0 && same == (keys[i] == keys[j])
    modifies fitted
    ensures Column(fitted, e) == Merge(e, keys, old(Column(fitted, e)), i, j)
    ensures forall d :: 0 <= d < fitted.Length1 && d != e ==> Column(fitted, d) == old(Column(fitted, d))
  {
    if same {
      var inner := Inner(e, fitted[i, e], fitted[j, e]);
      fitted[i, e] := inner;
      fitted[j, e] := inner;
    }
  }

  /** Column e of a table of fitted positions. */
  function Column(a: array2<real>, e: nat): (r: seq<real>)
    reads a
    requires e < a.Length1
    ensures |r| == a.Length0 && forall k :: 0 <= k < a.Length0 ==> r[k] == a[k, e]
  {
    seq(a.Length0, (k: int) requires 0 <= k < a.Length0 reads a => a[k, e])
  }

  /** `Figure(...)`: the name defaults to the number of open figures, the
      size to 16 by 9 inches, the colour to white, or black when inverted.
      The name must be an int or a non-empty string, the size two positive
      numbers and the colour a valid 24-bit colour. */
  method NewFigure(openFigures: nat, name: Option<Name>, size: Option<seq<real>>, inverted: Option<bool>,
                   figureColor: Option<ColorArg>) returns (r: Result<Figure>)
    ensures var n := if name.Some? then name.value else Number(openFigures);
      var s := if size.Some? then size.value else [16.0, 9.0];
      var c := if figureColor.Some? then ParseRgb(figureColor.value)
        else Ok(Rgba(if inverted == Some(true) then [0.0, 0.0, 0.0] else [1.0, 1.0, 1.0]));
      && (r.Ok? <==> NameOk(n) && |s| == 2 && s[0] > 0.0 && s[1] > 0.0 && c.Ok?)
      && (r.Err? ==> r.error == AssertionError)
      && (r.Ok? ==>
            fresh(r.value) && r.value.Valid()
            && r.value.Setup() == (n, (s[0], s[1]), inverted == Some(true), c.value)
            && r.value.panels == map[] && r.value.fontSizes.None?)
  {
    var n := if name.Some? then name.value else Number(openFigures);
    var s := if size.Some? then size.value else [16.0, 9.0];
    if !(NameOk(n) && |s| == 2 && s[0] > 0.0 && s[1] > 0.0) {
      return Err(AssertionError);
    }
    var inv := inverted == Some(true);
    var c :- if figureColor.Some? then ParseRgb(figureColor.value)
      else Ok(Rgba(if inv then [0.0, 0.0, 0.0] else [1.0, 1.0, 1.0]));
    var f := new Figure(n, (s[0], s[1]), inv, c);
    r := Ok(f);
  }
}
