/**
  The histogram's bins: `fdBins` and `quantile` of
  src/components/charts/GraphBuilder.tsx, over exact reals.
*/
module Binning {
  import opened Statistics
  import opened Wrappers

  datatype Bin = Bin(x: real, count: nat)

  function Ceil(r: real): int {
    -((-r).Floor)
  }

  // ----- sorting and quantiles -----

  predicate Ascending(s: seq<real>) {
    forall i, j :: 0 <= i < j < |s| ==> s[i] <= s[j]
  }

  function Insert(s: seq<real>, v: real): seq<real> {
    if s == [] || s[|s| - 1] <= v then s + [v] else Insert(s[..|s| - 1], v) + [s[|s| - 1]]
  }

  /** `[...vals].sort((a, b) => a - b)`. */
  function Sorted(vals: seq<real>): seq<real> {
    if vals == [] then [] else Insert(Sorted(vals[..|vals| - 1]), vals[|vals| - 1])
  }

  lemma AscendingSnoc(s: seq<real>, v: real)
    requires Ascending(s) && forall x :: x in s ==> x <= v
    ensures Ascending(s + [v])
  {
    forall i | 0 <= i < |s|
      ensures s[i] <= v
    {
      assert s[i] in s;
    }
  }

  lemma {:induction false} InsertKeeps(s: seq<real>, v: real)
    requires Ascending(s)
    ensures Ascending(Insert(s, v))
    ensures multiset(Insert(s, v)) == multiset(s) + multiset{v}
    ensures |Insert(s, v)| == |s| + 1
    ensures forall x :: x in Insert(s, v) ==> x in s || x == v
  {
    if s == [] || s[|s| - 1] <= v {
      AscendingSnoc(s, v);
    } else {
      var init, last := s[..|s| - 1], s[|s| - 1];
      InsertKeeps(init, v);
      assert s == init + [last];
      AscendingSnoc(Insert(init, v), last);
    }
  }

  lemma {:induction false} SortedSorts(vals: seq<real>)
    ensures Ascending(Sorted(vals)) && multiset(Sorted(vals)) == multiset(vals) && |Sorted(vals)| == |vals|
  {
    if vals != [] {
      var init := vals[..|vals| - 1];
      SortedSorts(init);
      InsertKeeps(Sorted(init), vals[|vals| - 1]);
      assert vals == init + [vals[|vals| - 1]];
    }
  }

  lemma SortedEnds(vals: seq<real>)
    requires vals != []
    ensures |Sorted(vals)| == |vals|
    ensures Sorted(vals)[0] == Min(vals) && Sorted(vals)[|vals| - 1] == Max(vals)
  {
    hide Sorted, Min, Max;
    SortedSorts(vals);
    MinMaxBound(vals);
    var s := Sorted(vals);
    InSame(vals, s, Min(vals));
    InSame(vals, s, Max(vals));
    InSame(s, vals, s[0]);
    InSame(s, vals, s[|s| - 1]);
  }

  lemma InSame(s: seq<real>, t: seq<real>, v: real)
    requires multiset(s) == multiset(t) && v in s
    ensures v in t
  {
    assert v in multiset(s);
  }

  /** The value at a position that may fall between two places. */
  function ValueAt(sorted: seq<real>, pos: real): real
    requires sorted != [] && 0.0 <= pos <= (|sorted| - 1) as real
  {
    var lo, hi := pos.Floor, Ceil(pos);
    Interpolate(sorted[lo], sorted[hi], pos - lo as real)
  }

  function Interpolate(a: real, b: real, t: real): real {
    a + (b - a) * t
  }

  function Position(n: nat, q: real): real {
    (n as real) * q
  }

  function Quantile(sorted: seq<real>, q: real): real
    requires 0.0 <= q <= 1.0
  {
    if sorted == [] then 0.0
    else
      PosInRange(|sorted| - 1, q);
      ValueAt(sorted, Position(|sorted| - 1, q))
  }

  lemma PosInRange(n: nat, q: real)
    requires 0.0 <= q <= 1.0
    ensures 0.0 <= Position(n, q) <= n as real
  {
    NonNegativeProduct(n as real, q);
    NonNegativeProduct(n as real, 1.0 - q);
    assert (n as real) * (1.0 - q) == n as real - (n as real) * q;
  }

  lemma Between(a: real, b: real, t: real)
    requires a <= b && 0.0 <= t <= 1.0
    ensures a <= Interpolate(a, b, t) <= b
  {
    NonNegativeProduct(b - a, t);
    NonNegativeProduct(b - a, 1.0 - t);
    assert (b - a) * (1.0 - t) == (b - a) - (b - a) * t;
  }

  lemma Steeper(d: real, s: real, t: real)
    requires d >= 0.0 && s <= t
    ensures d * s <= d * t
  {
    NonNegativeProduct(d, t - s);
    assert d * (t - s) == d * t - d * s;
  }

  lemma Further(a: real, b: real, s: real, t: real)
    requires a <= b && s <= t
    ensures Interpolate(a, b, s) <= Interpolate(a, b, t)
  {
    Steeper(b - a, s, t);
  }

  /** The value lies between the two around its position. */
  lemma ValueBetween(sorted: seq<real>, pos: real)
    requires Ascending(sorted) && sorted != [] && 0.0 <= pos <= (|sorted| - 1) as real
    ensures sorted[pos.Floor] <= ValueAt(sorted, pos) <= sorted[Ceil(pos)]
  {
    hide Interpolate;
    Between(sorted[pos.Floor], sorted[Ceil(pos)], pos - pos.Floor as real);
  }

  lemma ValueMonotone(sorted: seq<real>, a: real, b: real)
    requires Ascending(sorted) && sorted != [] && 0.0 <= a <= b <= (|sorted| - 1) as real
    ensures ValueAt(sorted, a) <= ValueAt(sorted, b)
  {
    hide Interpolate;
    if a.Floor == b.Floor && Ceil(a) == Ceil(b) {
      Further(sorted[a.Floor], sorted[Ceil(a)], a - a.Floor as real, b - a.Floor as real);
    } else {
      ValueBetween(sorted, a);
      ValueBetween(sorted, b);
      assert Ceil(a) <= b.Floor;
    }
  }

  lemma PosMonotone(n: nat, q: real, r: real)
    requires q <= r
    ensures Position(n, q) <= Position(n, r)
  {
    Steeper(n as real, q, r);
  }

  /** A higher quantile is no smaller. */
  lemma QuantileMonotone(sorted: seq<real>, q: real, r: real)
    requires Ascending(sorted) && 0.0 <= q <= r <= 1.0
    ensures Quantile(sorted, q) <= Quantile(sorted, r)
  {
    hide ValueAt, Position;
    if sorted != [] {
      PosInRange(|sorted| - 1, q);
      PosInRange(|sorted| - 1, r);
      PosMonotone(|sorted| - 1, q, r);
      ValueMonotone(sorted, Position(|sorted| - 1, q), Position(|sorted| - 1, r));
    }
  }

  /** A quantile at position `k + t` lies that part `t` of the way from the `k`th value to
      the next; at a whole position it is the value there, so 0 gives the first and 1 the
      last. */
  lemma QuantileAt(sorted: seq<real>, q: real, k: nat)
    requires 0.0 <= q <= 1.0 && k < |sorted|
    requires k as real <= ((|sorted| - 1) as real) * q < (k + 1) as real
    ensures var t := ((|sorted| - 1) as real) * q - k as real;
            && (t == 0.0 ==> Quantile(sorted, q) == sorted[k])
            && (t > 0.0 ==> k + 1 < |sorted| && Quantile(sorted, q) - sorted[k] == (sorted[k + 1] - sorted[k]) * t)
  {
    PosInRange(|sorted| - 1, q);
    var pos := ((|sorted| - 1) as real) * q;
    assert pos.Floor == k;
    if pos == k as real {
      assert (sorted[k] - sorted[k]) * (pos - k as real) == 0.0;
    }
  }

  // ----- the bins -----

  const MIN_BINS := 5
  const MAX_BINS := 50

  function Clamp(n: int): nat {
    if n < MIN_BINS then MIN_BINS else if n > MAX_BINS then MAX_BINS else n
  }

  /** `max - min || 1`. */
  function Range(vals: seq<real>): real
    requires vals != []
  {
    var range := Max(vals) - Min(vals);
    if range == 0.0 then 1.0 else range
  }

  lemma RangePositive(vals: seq<real>)
    requires vals != []
    ensures Range(vals) > 0.0
    ensures forall i :: 0 <= i < |vals| ==> Min(vals) <= vals[i] <= Min(vals) + Range(vals)
  {
    hide Min, Max;
    MinMaxBound(vals);
  }

  /** The interquartile range. */
  function Iqr(vals: seq<real>): real {
    Quantile(Sorted(vals), 0.75) - Quantile(Sorted(vals), 0.25)
  }

  lemma IqrNotNegative(vals: seq<real>)
    ensures Iqr(vals) >= 0.0
  {
    SortedSorts(vals);
    QuantileMonotone(Sorted(vals), 0.25, 0.75);
  }

  /** Of 4m + 1 values, those with a quarter and three quarters of the others before them
      span the range. */
  lemma IqrOfQuarters(vals: seq<real>, m: nat)
    requires |vals| == 4 * m + 1
    ensures |Sorted(vals)| == |vals|
    ensures Iqr(vals) == Sorted(vals)[3 * m] - Sorted(vals)[m]
  {
    hide Sorted, Quantile;
    SortedSorts(vals);
    assert ((|vals| - 1) as real) * 0.25 == m as real;
    assert ((|vals| - 1) as real) * 0.75 == (3 * m) as real;
    QuantileAt(Sorted(vals), 0.25, m);
    QuantileAt(Sorted(vals), 0.75, 3 * m);
  }

  /** The Freedman-Diaconis width; `shrink` stands for `Math.pow(n, -1 / 3)`. */
  function AutoWidth(vals: seq<real>, shrink: real): (bw: real)
    requires vals != [] && shrink > 0.0
    ensures bw > 0.0
  {
    RangePositive(vals);
    IqrNotNegative(vals);
    var iqr := Iqr(vals);
    if iqr == 0.0 then Range(vals) / 10.0
    else
      ProductPositive(iqr, shrink);
      2.0 * (iqr * shrink)
  }

  lemma ProductPositive(a: real, b: real)
    requires a > 0.0 && b > 0.0
    ensures a * b > 0.0
  {
  }

  /** An override of 0 counts as none. */
  function BinCount(vals: seq<real>, override: Option<nat>, shrink: real): (n: nat)
    requires vals != [] && shrink > 0.0
    ensures n > 0
    ensures override.None? || override.value == 0 ==> MIN_BINS <= n <= MAX_BINS
  {
    if override.Some? && override.value != 0 then override.value
    else Clamp(Ceil(Range(vals) / AutoWidth(vals, shrink)))
  }

  /** A bin count asked for is taken as it is. Otherwise it is the least number of bins of
      the automatic width that cover the range, kept between 5 and 50. */
  lemma BinCountIs(vals: seq<real>, override: Option<nat>, shrink: real)
    requires vals != [] && shrink > 0.0
    ensures var n, bins := BinCount(vals, override, shrink), Range(vals) / AutoWidth(vals, shrink);
            && (override.Some? && override.value > 0 ==> n == override.value)
            && (override.None? || override.value == 0 ==>
                  && 5 <= n <= 50
                  && (5 < n ==> bins > (n - 1) as real) && (n < 50 ==> bins <= n as real))
  {
    hide Range, AutoWidth;
  }

  /** The automatic width: twice the interquartile range over the cube root of the number
      of values; where that range is zero, there are ten bins. */
  lemma AutoWidthIs(vals: seq<real>, root: real, shrink: real)
    requires vals != [] && shrink > 0.0 && root * shrink == 1.0
    ensures Iqr(vals) != 0.0 ==> AutoWidth(vals, shrink) * root == 2.0 * Iqr(vals)
    ensures Iqr(vals) == 0.0 ==> BinCount(vals, None, shrink) == 10
  {
    hide Range, Iqr;
    RangePositive(vals);
    if Iqr(vals) == 0.0 {
      TenthFitsTen(Range(vals));
    } else {
      Cancelled(Iqr(vals), shrink, root);
    }
  }

  lemma TenthFitsTen(range: real)
    requires range > 0.0
    ensures range / (range / 10.0) == 10.0
  {
    assert range == 10.0 * (range / 10.0);
  }

  lemma Cancelled(a: real, shrink: real, root: real)
    requires root * shrink == 1.0
    ensures (2.0 * (a * shrink)) * root == 2.0 * a
  {
    assert (a * shrink) * root == a * (root * shrink);
  }

  /** Bins over a line from `min`, `n` of them, each of width `w`. */
  datatype Grid = Grid(min: real, n: nat, w: real) {
    ghost predicate Valid() {
      n > 0 && w > 0.0
    }

    function Edge(i: int): real {
      min + (i as real) * w
    }

    function Centre(i: int): real {
      min + (i as real + 0.5) * w
    }

    /** `Math.min(binCount - 1, Math.floor((v - min) / binWidth))`. */
    function Index(v: real): int
      requires Valid()
    {
      var i := ((v - min) / w).Floor;
      if i < n - 1 then i else n - 1
    }

    ghost predicate Holds(v: real) {
      min <= v <= Edge(n)
    }
  }

  lemma GridScale(g: Grid, v: real)
    requires g.Valid()
    ensures v == g.min + ((v - g.min) / g.w) * g.w
  {
  }

  lemma ScaleOrder(w: real, s: real, t: real)
    requires w > 0.0
    ensures s <= t <==> s * w <= t * w
    ensures s < t <==> s * w < t * w
  {
    if s < t {
      ProductPositive(t - s, w);
    } else if s > t {
      ProductPositive(s - t, w);
    }
    assert (t - s) * w == t * w - s * w;
  }

  lemma EdgeOrder(g: Grid, v: real, i: int)
    requires g.Valid()
    ensures g.Edge(i) <= v <==> i as real <= (v - g.min) / g.w
  {
    var t := (v - g.min) / g.w;
    GridScale(g, v);
    ScaleOrder(g.w, i as real, t);
  }

  /** Every value of the grid's range has a bin. */
  lemma IndexInRange(g: Grid, v: real)
    requires g.Valid() && g.Holds(v)
    ensures 0 <= g.Index(v) < g.n
  {
    GridScale(g, v);
    ScaleOrder(g.w, 0.0, (v - g.min) / g.w);
  }

  /** A value is in bin `i` exactly when it lies between the bin's edges; the
      upper edge belongs to the next bin, but to the last bin itself. */
  lemma IndexIff(g: Grid, v: real, i: nat)
    requires g.Valid() && g.Holds(v) && i < g.n
    ensures g.Index(v) == i <==> g.Edge(i) <= v && (v < g.Edge(i + 1) || i == g.n - 1)
  {
    EdgeOrder(g, v, i);
    EdgeOrder(g, v, i + 1);
  }

  /** No value is further than half a width from its bin's centre. */
  lemma NearCentre(g: Grid, v: real)
    requires g.Valid() && g.Holds(v)
    ensures 0 <= g.Index(v) < g.n
    ensures -(g.w / 2.0) <= v - g.Centre(g.Index(v)) <= g.w / 2.0
  {
    IndexInRange(g, v);
    var i := g.Index(v);
    IndexIff(g, v, i);
    CentreBetweenEdges(g, i);
    assert v <= g.Edge(i + 1);
  }

  lemma CentreBetweenEdges(g: Grid, i: nat)
    ensures g.Edge(i) == g.Centre(i) - g.w / 2.0
    ensures g.Edge(i + 1) == g.Centre(i) + g.w / 2.0
  {
    var r := i as real;
    assert (r + 0.5) * g.w == r * g.w + 0.5 * g.w;
    assert (r + 1.0) * g.w == r * g.w + g.w;
  }

  function GridOf(vals: seq<real>, override: Option<nat>, shrink: real): (g: Grid)
    requires vals != [] && shrink > 0.0
    ensures g.Valid()
  {
    RangePositive(vals);
    var n := BinCount(vals, override, shrink);
    Grid(Min(vals), n, Range(vals) / (n as real))
  }

  /** The grid runs from the least value over the whole range. */
  lemma GridCovers(vals: seq<real>, override: Option<nat>, shrink: real)
    requires vals != [] && shrink > 0.0
    ensures var g := GridOf(vals, override, shrink);
            && g.Edge(0) == Min(vals)
            && g.Edge(g.n) == (if Min(vals) == Max(vals) then Min(vals) + 1.0 else Max(vals))
            && forall i :: 0 <= i < |vals| ==> g.Holds(vals[i])
  {
    hide Min, Max, BinCount;
    RangePositive(vals);
    var g := GridOf(vals, override, shrink);
    assert (g.n as real) * (Range(vals) / (g.n as real)) == Range(vals);
  }

  /** How many of the values fall into bin `i`. */
  function CountIn(g: Grid, vals: seq<real>, i: nat): nat
    requires g.Valid()
  {
    if vals == [] then 0
    else CountIn(g, vals[..|vals| - 1], i) + (if g.Index(vals[|vals| - 1]) == i then 1 else 0)
  }

  function Bins(g: Grid, vals: seq<real>): (bins: seq<Bin>)
    requires g.Valid()
    ensures |bins| == g.n
  {
    seq(g.n, i requires 0 <= i < g.n => Bin(g.Centre(i), CountIn(g, vals, i)))
  }

  lemma BinsStep(g: Grid, vals: seq<real>, k: nat)
    requires g.Valid() && k < |vals| && 0 <= g.Index(vals[k]) < g.n
    ensures var bins, idx := Bins(g, vals[..k]), g.Index(vals[k]);
            Bins(g, vals[..k + 1]) == bins[idx := bins[idx].(count := bins[idx].count + 1)]
  {
    assert vals[..k + 1][..k] == vals[..k];
  }

  /** The counting loop of `fdBins`, over the bins laid out from `min`. */
  method FillBins(g: Grid, vals: seq<real>) returns (result: seq<Bin>)
    requires g.Valid() && forall i :: 0 <= i < |vals| ==> g.Holds(vals[i])
    ensures result == Bins(g, vals)
  {
    hide CountIn;
    var bins := new Bin[g.n](i => Bin(g.min + (i as real + 0.5) * g.w, 0));
    forall i | 0 <= i < g.n
      ensures bins[i] == Bins(g, vals[..0])[i]
    {
      NoneIn(g, i);
      assert vals[..0] == [];
    }
    for k := 0 to |vals|
      invariant bins.Length == g.n
      invariant bins[..] == Bins(g, vals[..k])
    {
      hide Bins;
      var cell := ((vals[k] - g.min) / g.w).Floor;
      var idx := if cell < g.n - 1 then cell else g.n - 1;
      IndexInRange(g, vals[k]);
      BinsStep(g, vals, k);
      assert idx == g.Index(vals[k]);
      bins[idx] := bins[idx].(count := bins[idx].count + 1);
    }
    assert vals[..|vals|] == vals;
    result := bins[..];
  }

  lemma NoneIn(g: Grid, i: nat)
    requires g.Valid()
    ensures CountIn(g, [], i) == 0
  {
  }

  /** `fdBins`. */
  method FdBins(vals: seq<real>, override: Option<nat>, shrink: real) returns (bins: seq<Bin>, binWidth: real)
    requires shrink > 0.0
    ensures vals == [] ==> bins == [] && binWidth == 1.0
    ensures vals != [] ==>
              var g := GridOf(vals, override, shrink);
              bins == Bins(g, vals) && binWidth == g.w
  {
    hide Bins, Sorted, Min, Max;
    if vals == [] {
      bins, binWidth := [], 1.0;
    } else {
      var sorted := Sorted(vals);
      SortedEnds(vals);
      var min, max := sorted[0], sorted[|sorted| - 1];
      var range := if max - min == 0.0 then 1.0 else max - min;
      var binCount := BinCount(vals, override, shrink);
      binWidth := range / (binCount as real);
      GridCovers(vals, override, shrink);
      RangePositive(vals);
      bins := FillBins(Grid(min, binCount, binWidth), vals);
    }
  }

  // ----- conservation -----

  function Total(bins: seq<Bin>): nat {
    if bins == [] then 0 else Total(bins[..|bins| - 1]) + bins[|bins| - 1].count
  }

  lemma {:induction false} TotalOneUp(bins: seq<Bin>, i: nat)
    requires i < |bins|
    ensures Total(bins[i := bins[i].(count := bins[i].count + 1)]) == Total(bins) + 1
  {
    var up := bins[i := bins[i].(count := bins[i].count + 1)];
    var init := bins[..|bins| - 1];
    if i < |bins| - 1 {
      TotalOneUp(init, i);
      assert up[..|bins| - 1] == init[i := init[i].(count := init[i].count + 1)];
    } else {
      assert up[..|bins| - 1] == init;
    }
  }

  lemma {:induction false} TotalOfEmpty(bins: seq<Bin>)
    requires forall i :: 0 <= i < |bins| ==> bins[i].count == 0
    ensures Total(bins) == 0
  {
    if bins != [] {
      TotalOfEmpty(bins[..|bins| - 1]);
    }
  }

  lemma {:induction false} TotalOfBins(g: Grid, vals: seq<real>, k: nat)
    requires g.Valid() && k <= |vals| && forall i :: 0 <= i < |vals| ==> g.Holds(vals[i])
    ensures Total(Bins(g, vals[..k])) == k
  {
    if k == 0 {
      TotalOfEmpty(Bins(g, vals[..0]));
    } else {
      TotalOfBins(g, vals, k - 1);
      IndexInRange(g, vals[k - 1]);
      BinsStep(g, vals, k - 1);
      TotalOneUp(Bins(g, vals[..k - 1]), g.Index(vals[k - 1]));
    }
  }

  /** What the histogram shows: every value is counted once, in the bin between
      whose edges it lies and no further than half a width from the x drawn. */
  lemma BinningConserves(vals: seq<real>, override: Option<nat>, shrink: real)
    requires vals != [] && shrink > 0.0
    ensures var g := GridOf(vals, override, shrink);
            var bins := Bins(g, vals);
            && Total(bins) == |vals|
            && (forall k :: 0 <= k < |vals| ==>
                  var i := g.Index(vals[k]);
                  && 0 <= i < |bins| && bins[i].count > 0
                  && -(g.w / 2.0) <= vals[k] - bins[i].x <= g.w / 2.0)
  {
    hide Min, Range, BinCount, GridOf;
    var g := GridOf(vals, override, shrink);
    GridCovers(vals, override, shrink);
    TotalOfBins(g, vals, |vals|);
    assert vals[..|vals|] == vals;
    forall k | 0 <= k < |vals|
      ensures var i := g.Index(vals[k]);
              && 0 <= i < g.n && CountIn(g, vals, i) > 0
              && -(g.w / 2.0) <= vals[k] - g.Centre(i) <= g.w / 2.0
    {
      NearCentre(g, vals[k]);
      Counted(g, vals, k);
    }
  }

  lemma {:induction false} Counted(g: Grid, vals: seq<real>, k: nat)
    requires g.Valid() && k < |vals| && 0 <= g.Index(vals[k])
    ensures CountIn(g, vals, g.Index(vals[k])) > 0
  {
    if k < |vals| - 1 {
      Counted(g, vals[..|vals| - 1], k);
    }
  }
}
