/** maths/color_blind_filters.py: counting the distinct colours of an image.
    `get_unique_colors` there is, line for line, the `get_unique_colors` of
    maths/color_blind.py, so both are modelled by the one method here.

    An image is a two-dimensional array indexed `[col, row]` as PIL's pixel
    access is, `Length0` being the width and `Length1` the height. A pixel is
    three 8-bit channels and, in RGBA images, an alpha channel. */
module ColorBlindFilters {
  import opened Wrappers

  type byte = x: int | 0 <= x < 256

  /** An 8-bit RGB triple, `pixel[0:3]`. */
  datatype Rgb8 = Rgb8(r: byte, g: byte, b: byte)

  datatype Pixel = Pixel(rgb: Rgb8, alpha: Option<byte>)

  /** The dictionary key of a pixel: its first three channels, alpha dropped. */
  function Key(p: Pixel): Rgb8
  {
    p.rgb
  }

  /** A dictionary from colours to counts, with its keys in insertion order
      (the order a Python `dict` iterates them in). */
  datatype Histogram = Histogram(order: seq<Rgb8>, counts: map<Rgb8, int>)

  /** One more pixel of colour k. */
  function Add(h: Histogram, k: Rgb8): Histogram
  {
    if k in h.counts then Histogram(h.order, h.counts[k := h.counts[k] + 1])
    else Histogram(h.order + [k], h.counts[k := 1])
  }

  /** The histogram of a sequence of colours, added one by one. */
  function Tally(keys: seq<Rgb8>): Histogram
  {
    if |keys| == 0 then Histogram([], map[])
    else Add(Tally(keys[..|keys| - 1]), keys[|keys| - 1])
  }

  predicate Distinct(s: seq<Rgb8>)
  {
    forall i, j :: 0 <= i < j < |s| ==> s[i] != s[j]
  }

  /** The histogram's keys are the colours that occur, each listed once, and
      each count is the number of occurrences, at least 1. */
  lemma {:induction false} TallyCounts(keys: seq<Rgb8>)
    ensures var h := Tally(keys);
      && Distinct(h.order)
      && (forall k :: k in h.counts <==> k in keys)
      && (forall k :: k in h.order <==> k in keys)
      && (forall k :: k in h.counts ==> h.counts[k] == multiset(keys)[k] && 1 <= h.counts[k])
  {
    if |keys| > 0 {
      var init, last := keys[..|keys| - 1], keys[|keys| - 1];
      assert keys == init + [last];
      assert multiset(keys) == multiset(init) + multiset{last};
      TallyCounts(init);
    }
  }

  /** The sum of the counts of the listed keys. */
  function Total(order: seq<Rgb8>, counts: map<Rgb8, int>): int
    requires forall k :: k in order ==> k in counts
  {
    if |order| == 0 then 0 else Total(order[..|order| - 1], counts) + counts[order[|order| - 1]]
  }

  lemma {:induction false} TotalOfUnlisted(order: seq<Rgb8>, counts: map<Rgb8, int>, k: Rgb8, v: int)
    requires forall j :: j in order ==> j in counts
    requires k !in order
    ensures Total(order, counts[k := v]) == Total(order, counts)
  {
    if |order| > 0 {
      assert order[..|order| - 1] + [order[|order| - 1]] == order;
      TotalOfUnlisted(order[..|order| - 1], counts, k, v);
    }
  }

  lemma {:induction false} TotalOfIncrement(order: seq<Rgb8>, counts: map<Rgb8, int>, k: Rgb8)
    requires forall j :: j in order ==> j in counts
    requires k in order && Distinct(order)
    ensures Total(order, counts[k := counts[k] + 1]) == Total(order, counts) + 1
  {
    var init, last := order[..|order| - 1], order[|order| - 1];
    assert order == init + [last];
    if last == k {
      assert k !in init;
      TotalOfUnlisted(init, counts, k, counts[k] + 1);
    } else {
      TotalOfIncrement(init, counts, k);
    }
  }

  /** The counts add up to the number of colours tallied. */
  lemma {:induction false} TallyTotal(keys: seq<Rgb8>)
    ensures forall k :: k in Tally(keys).order ==> k in Tally(keys).counts
    ensures Total(Tally(keys).order, Tally(keys).counts) == |keys|
  {
    if |keys| > 0 {
      var init, last := keys[..|keys| - 1], keys[|keys| - 1];
      TallyKeys(init);
      TallyTotal(init);
      AddTotal(Tally(init), last);
    }
  }

  /** One more colour adds one to the total. */
  lemma AddTotal(h: Histogram, k: Rgb8)
    requires Distinct(h.order) && forall j :: j in h.order <==> j in h.counts
    ensures forall j :: j in Add(h, k).order ==> j in Add(h, k).counts
    ensures Total(Add(h, k).order, Add(h, k).counts) == Total(h.order, h.counts) + 1
  {
    if k in h.counts {
      TotalOfIncrement(h.order, h.counts, k);
    } else {
      var order, counts := h.order + [k], h.counts[k := 1];
      TotalOfUnlisted(h.order, h.counts, k, 1);
      assert order[..|order| - 1] == h.order;
    }
  }

  /** The listed keys are the counted ones, each listed once. */
  lemma TallyKeys(keys: seq<Rgb8>)
    ensures Distinct(Tally(keys).order)
    ensures forall k :: k in Tally(keys).order <==> k in Tally(keys).counts
  {
    TallyCounts(keys);
  }

  /** The keys of column c, top to bottom. */
  function Column(image: array2<Pixel>, c: nat): (r: seq<Rgb8>)
    reads image
    requires c < image.Length0
    ensures |r| == image.Length1 && forall w :: 0 <= w < image.Length1 ==> r[w] == Key(image[c, w])
  {
    seq(image.Length1, (w: int) requires 0 <= w < image.Length1 reads image => Key(image[c, w]))
  }

  /** The keys of the first n columns in the order the loops visit them. */
  function Scan(image: array2<Pixel>, n: nat): seq<Rgb8>
    reads image
    requires n <= image.Length0
  {
    if n == 0 then [] else Scan(image, n - 1) + Column(image, n - 1)
  }

  /** Pixel (c, w) has colour k. */
  predicate Shows(image: array2<Pixel>, c: int, w: int, k: Rgb8)
    reads image
  {
    0 <= c < image.Length0 && 0 <= w < image.Length1 && Key(image[c, w]) == k
  }

  /** The scan holds one key per pixel. */
  lemma {:induction false} ScanLength(image: array2<Pixel>, n: nat)
    requires n <= image.Length0
    ensures |Scan(image, n)| == n * image.Length1
  {
    if n > 0 {
      ScanLength(image, n - 1);
    }
  }

  /** A colour occurs in the scan exactly when some pixel of those columns
      has it. */
  lemma {:induction false} ScanMembers(image: array2<Pixel>, n: nat)
    requires n <= image.Length0
    ensures forall k :: k in Scan(image, n) <==> exists c, w :: c < n && Shows(image, c, w, k)
  {
    if n > 0 {
      var m := n - 1;
      ScanMembers(image, m);
      var column := Column(image, m);
      forall k | k in column
        ensures Shows(image, m, IndexOf(column, k), k)
      {
      }
      forall k | exists c, w :: c < n && Shows(image, c, w, k)
        ensures k in Scan(image, n)
      {
        var c, w :| c < n && Shows(image, c, w, k);
        if c == m {
          assert column[w] == k;
        }
      }
    }
  }

  function IndexOf(s: seq<Rgb8>, k: Rgb8): (i: int)
    requires k in s
    ensures 0 <= i < |s| && s[i] == k
  {
    if s[0] == k then 0 else 1 + IndexOf(s[1..], k)
  }

  /** Tallying one more key of a column is adding it. */
  lemma TallyNext(before: seq<Rgb8>, column: seq<Rgb8>, row: nat)
    requires row < |column|
    ensures Tally(before + column[..row + 1]) == Add(Tally(before + column[..row]), column[row])
  {
    assert before + column[..row + 1] == (before + column[..row]) + [column[row]];
    assert (before + column[..row + 1])[..|before + column[..row + 1]| - 1] == before + column[..row];
  }

  /** The loop body of `get_unique_colors` for one pixel: insert its key at 0
      when absent, then add one. */
  method AddKey(prior: Histogram, key: Rgb8) returns (h: Histogram)
    ensures h == Add(prior, key)
  {
    h := prior;
    if key !in h.counts {
      h := Histogram(h.order + [key], h.counts[key := 0]);
    }
    h := Histogram(h.order, h.counts[key := h.counts[key] + 1]);
  }

  /** The inner loop of `get_unique_colors`: the pixels of one column. */
  method TallyColumn(image: array2<Pixel>, col: nat, prior: Histogram, ghost before: seq<Rgb8>)
    returns (h: Histogram)
    requires col < image.Length0
    requires prior == Tally(before)
    ensures h == Tally(before + Column(image, col))
  {
    h := prior;
    ghost var column := Column(image, col);
    assert before + column[..0] == before;
    for row := 0 to image.Length1
      invariant h == Tally(before + column[..row])
    {
      h := AddKey(h, Key(image[col, row]));
      TallyNext(before, column, row);
    }
    assert column[..image.Length1] == column;
  }

  /** `get_unique_colors`: the tally of every pixel, column by column. */
  method UniqueColors(image: array2<Pixel>) returns (h: Histogram)
    ensures h == Tally(Scan(image, image.Length0))
  {
    h := Histogram([], map[]);
    for col := 0 to image.Length0
      invariant h == Tally(Scan(image, col))
    {
      h := TallyColumn(image, col, h, Scan(image, col));
    }
  }

  /** What `get_unique_colors` promises: a key exactly for each colour some
      pixel has, its count the number of such pixels and at least 1, the
      counts adding up to width times height. */
  lemma UniqueColorsFacts(image: array2<Pixel>, h: Histogram)
    requires h == Tally(Scan(image, image.Length0))
    ensures forall k :: k in h.counts <==> exists c, w :: Shows(image, c, w, k)
    ensures forall k :: k in h.order <==> k in h.counts
    ensures forall k :: k in h.counts ==> 1 <= h.counts[k] == multiset(Scan(image, image.Length0))[k]
    ensures Total(h.order, h.counts) == image.Length0 * image.Length1
  {
    ScanLength(image, image.Length0);
    ScanMembers(image, image.Length0);
    TallyCounts(Scan(image, image.Length0));
    TallyTotal(Scan(image, image.Length0));
  }
}
