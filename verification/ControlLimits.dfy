/**
  The two control charts: src/components/charts/ControlChart.tsx, with the
  population's standard deviation, and the one in
  src/components/charts/GraphBuilder.tsx, with the sample's. `Math.sqrt` is any
  value that is not negative and squares to its argument.
*/
module ControlLimits {
  import opened Statistics
  import opened Wrappers

  datatype Cell = NotNumeric | Number(value: real)

  /** The numeric values, in row order (`numericValues`, and the filter of `computeStats`). */
  function Vals(rows: seq<Cell>): (vals: seq<real>)
    ensures |vals| <= |rows|
  {
    if rows == [] then []
    else
      var last, init := rows[|rows| - 1], Vals(rows[..|rows| - 1]);
      if last.Number? then init + [last.value] else init
  }

  predicate IsRoot(sigma: real, variance: real) {
    sigma >= 0.0 && Sq(sigma) == variance
  }

  predicate Out(v: real, upper: real, lower: real) {
    v > upper || v < lower
  }

  /** The values beyond the limits and the values within them. */
  function Outside(vals: seq<real>, upper: real, lower: real): seq<real> {
    if vals == [] then []
    else
      var last, init := vals[|vals| - 1], Outside(vals[..|vals| - 1], upper, lower);
      if Out(last, upper, lower) then init + [last] else init
  }

  function Within(vals: seq<real>, upper: real, lower: real): seq<real> {
    if vals == [] then []
    else
      var last, init := vals[|vals| - 1], Within(vals[..|vals| - 1], upper, lower);
      if Out(last, upper, lower) then init else init + [last]
  }

  function NumTrue(flags: seq<bool>): (n: nat)
    ensures n <= |flags|
  {
    if flags == [] then 0 else NumTrue(flags[..|flags| - 1]) + (if flags[|flags| - 1] then 1 else 0)
  }

  // ----- ControlChart.tsx -----

  /** `variance`, the mean of the squared deviations. */
  function PopulationVariance(vals: seq<real>): real {
    if vals == [] then 0.0 else SquaredDeviations(vals, Mean(vals)) / (|vals| as real)
  }

  /** What the user may have typed in. */
  datatype Limits = Limits(ucl: Option<real>, lcl: Option<real>, centerLine: Option<real>)

  const AUTOMATIC := Limits(None, None, None)

  function Upper(vals: seq<real>, sigma: real, limits: Limits): real {
    limits.ucl.Or(limits.centerLine.Or(Mean(vals)) + 3.0 * sigma)
  }

  function Lower(vals: seq<real>, sigma: real, limits: Limits): real {
    limits.lcl.Or(limits.centerLine.Or(Mean(vals)) - 3.0 * sigma)
  }

  /** `_violation` of each row. */
  function RowFlags(rows: seq<Cell>, upper: real, lower: real): (flags: seq<bool>)
    ensures |flags| == |rows|
  {
    seq(|rows|, i requires 0 <= i < |rows| => rows[i].Number? && Out(rows[i].value, upper, lower))
  }

  /** `violationCount`. */
  function ViolationCount(rows: seq<Cell>, sigma: real, limits: Limits): nat {
    NumTrue(RowFlags(rows, Upper(Vals(rows), sigma, limits), Lower(Vals(rows), sigma, limits)))
  }

  /** With automatic limits a row is flagged exactly when its value is more than three
      sigma from the mean, above or below. */
  lemma FlaggedIffFar(rows: seq<Cell>, sigma: real, i: nat)
    requires i < |rows| && sigma >= 0.0
    ensures var vals := Vals(rows);
            RowFlags(rows, Upper(vals, sigma, AUTOMATIC), Lower(vals, sigma, AUTOMATIC))[i] <==>
              && rows[i].Number?
              && (rows[i].value - Mean(vals) > 3.0 * sigma || Mean(vals) - rows[i].value > 3.0 * sigma)
  {
    hide Mean, Vals;
  }

  /** Limits typed in are used as they are; a centre line typed in replaces the mean. */
  lemma FlaggedByTyped(rows: seq<Cell>, sigma: real, limits: Limits, i: nat)
    requires i < |rows| && rows[i].Number?
    ensures var vals, v := Vals(rows), rows[i].value;
            var flagged := RowFlags(rows, Upper(vals, sigma, limits), Lower(vals, sigma, limits))[i];
            && (limits.ucl.Some? && v > limits.ucl.value ==> flagged)
            && (limits.lcl.Some? && v < limits.lcl.value ==> flagged)
            && (limits.ucl.Some? && limits.lcl.Some? && limits.lcl.value <= v <= limits.ucl.value ==> !flagged)
            && (limits.ucl.None? && limits.lcl.None? && limits.centerLine.Some? && sigma >= 0.0 ==>
                  (flagged <==> v - limits.centerLine.value > 3.0 * sigma || limits.centerLine.value - v > 3.0 * sigma))
  {
    hide Mean, Vals;
  }

  lemma OutsideOfOneMore(vals: seq<real>, v: real, upper: real, lower: real)
    ensures Outside(vals + [v], upper, lower)
         == if Out(v, upper, lower) then Outside(vals, upper, lower) + [v] else Outside(vals, upper, lower)
  {
    assert (vals + [v])[..|vals|] == vals;
  }

  lemma {:induction false} FlagsCountOutside(rows: seq<Cell>, upper: real, lower: real)
    ensures NumTrue(RowFlags(rows, upper, lower)) == |Outside(Vals(rows), upper, lower)|
  {
    hide Out;
    if rows != [] {
      var init, last := rows[..|rows| - 1], rows[|rows| - 1];
      FlagsCountOutside(init, upper, lower);
      assert RowFlags(rows, upper, lower)[..|rows| - 1] == RowFlags(init, upper, lower);
      if last.Number? {
        OutsideOfOneMore(Vals(init), last.value, upper, lower);
      }
    }
  }

  // ----- how many points can be out -----

  lemma SplitAdds(vals: seq<real>, v: real, m: real)
    ensures SquaredDeviations(vals + [v], m) == SquaredDeviations(vals, m) + Sq(v - m)
    ensures Deviations(vals + [v], m) == Deviations(vals, m) + (v - m)
  {
    assert (vals + [v])[..|vals|] == vals;
  }

  lemma {:induction false} Split(vals: seq<real>, m: real, upper: real, lower: real)
    ensures |vals| == |Outside(vals, upper, lower)| + |Within(vals, upper, lower)|
    ensures SquaredDeviations(vals, m)
         == SquaredDeviations(Outside(vals, upper, lower), m) + SquaredDeviations(Within(vals, upper, lower), m)
    ensures Deviations(vals, m) == Deviations(Outside(vals, upper, lower), m)
        + Deviations(Within(vals, upper, lower), m)
  {
    hide Sq, Out;
    if vals != [] {
      var init, last := vals[..|vals| - 1], vals[|vals| - 1];
      Split(init, m, upper, lower);
      SplitAdds(Outside(init, upper, lower), last, m);
      SplitAdds(Within(init, upper, lower), last, m);
    }
  }

  lemma FarSquare(v: real, m: real, sigma: real)
    requires sigma >= 0.0 && Out(v, m + 3.0 * sigma, m - 3.0 * sigma)
    ensures Sq(v - m) > 9.0 * Sq(sigma)
  {
    var d := if v > m then v - m else m - v;
    assert d > 3.0 * sigma;
    SqOfNegation(d);
    assert Sq(d) == Sq(v - m);
    FarSquarePositive(d, 3.0 * sigma);
  }

  lemma FarSquarePositive(d: real, t: real)
    requires d > t >= 0.0
    ensures Sq(d) > Sq(t)
  {
    SqPositive(d - t);
    assert Sq(d) - Sq(t) == Sq(d - t) + 2.0 * (t * (d - t));
    NonNegativeProduct(t, d - t);
  }

  lemma {:induction false} OutsideIsOut(vals: seq<real>, upper: real, lower: real, i: nat)
    requires i < |Outside(vals, upper, lower)|
    ensures Out(Outside(vals, upper, lower)[i], upper, lower)
  {
    var init := Outside(vals[..|vals| - 1], upper, lower);
    if i < |init| {
      OutsideIsOut(vals[..|vals| - 1], upper, lower, i);
    }
  }

  lemma {:induction false} FarSum(far: seq<real>, m: real, c: real)
    requires forall i :: 0 <= i < |far| ==> Sq(far[i] - m) > c
    ensures SquaredDeviations(far, m) >= (|far| as real) * c
    ensures far != [] ==> SquaredDeviations(far, m) > (|far| as real) * c
  {
    hide Sq;
    if far != [] {
      FarSum(far[..|far| - 1], m, c);
      OneMore(|far| - 1, c);
    }
  }

  lemma OutsideIsFar(vals: seq<real>, m: real, sigma: real)
    requires sigma >= 0.0
    ensures var far := Outside(vals, m + 3.0 * sigma, m - 3.0 * sigma);
            far != [] ==> SquaredDeviations(far, m) > (|far| as real) * (9.0 * Sq(sigma))
  {
    hide Sq, Out, Outside, SquaredDeviations;
    var upper, lower := m + 3.0 * sigma, m - 3.0 * sigma;
    var far := Outside(vals, upper, lower);
    forall i | 0 <= i < |far|
      ensures Sq(far[i] - m) > 9.0 * Sq(sigma)
    {
      OutsideIsOut(vals, upper, lower, i);
      FarSquare(far[i], m, sigma);
    }
    FarSum(far, m, 9.0 * Sq(sigma));
  }

  lemma OneMore(n: nat, c: real)
    ensures ((n + 1) as real) * c == (n as real) * c + c
  {
  }

  /** Chebyshev: with limits three `sigma` from `m` and a total squared deviation
      of `c` times sigma squared, the points outside number less than `c / 9`. */
  lemma Chebyshev(vals: seq<real>, m: real, sigma: real, c: nat)
    requires sigma >= 0.0 && SquaredDeviations(vals, m) == (c as real) * Sq(sigma)
    ensures var k := |Outside(vals, m + 3.0 * sigma, m - 3.0 * sigma)|;
            k > 0 ==> 9 * k < c
  {
    hide Sq, Out, Outside, Within, SquaredDeviations, Deviations;
    var upper, lower := m + 3.0 * sigma, m - 3.0 * sigma;
    var far := Outside(vals, upper, lower);
    if far != [] {
      Split(vals, m, upper, lower);
      OutsideIsFar(vals, m, sigma);
      SquaredDeviationsNonNegative(Within(vals, upper, lower), m);
      SqNonNegative(sigma);
      Cancel(c as real, 9.0 * (|far| as real), Sq(sigma));
    }
  }

  lemma Cancel(c: real, k: real, s: real)
    requires s >= 0.0 && c * s > k * s
    ensures c > k
  {
    assert (k - c) * s == k * s - c * s;
    if c <= k {
      NonNegativeProduct(k - c, s);
    }
  }

  /** The square of a sum is at most the count times the sum of squares. */
  lemma {:induction false} CauchySchwarz(vals: seq<real>, m: real)
    ensures Sq(Deviations(vals, m)) <= (|vals| as real) * SquaredDeviations(vals, m)
  {
    hide Sq;
    if vals == [] {
      SqZero();
    } else {
      var init, w := vals[..|vals| - 1], vals[|vals| - 1] - m;
      CauchySchwarz(init, m);
      SquaredDeviationsNonNegative(init, m);
      CauchyStep(|init|, Deviations(init, m), SquaredDeviations(init, m), w);
      if init == [] {
        SqZero();
      }
    }
  }

  lemma CauchyStep(n: nat, s: real, q: real, w: real)
    requires Sq(s) <= (n as real) * q && q >= 0.0 && (n == 0 ==> s == 0.0 && q == 0.0)
    ensures Sq(s + w) <= ((n + 1) as real) * (q + Sq(w))
  {
    var r := n as real;
    assert Sq(s + w) == Sq(s) + 2.0 * (s * w) + Sq(w) by {
      assert (s + w) * (s + w) == s * (s + w) + w * (s + w);
    }
    assert ((n + 1) as real) * (q + Sq(w)) == r * q + q + r * Sq(w) + Sq(w) by {
      assert (r + 1.0) * (q + Sq(w)) == r * (q + Sq(w)) + (q + Sq(w));
    }
    if n == 0 {
      assert s * w == 0.0;
    } else {
      TwiceProduct(r, s, q, w);
    }
  }

  lemma TwiceProduct(r: real, s: real, q: real, w: real)
    requires r > 0.0 && Sq(s) <= r * q
    ensures 2.0 * (s * w) <= q + r * Sq(w)
  {
    SqNonNegative(s - r * w);
    assert Sq(s - r * w) == Sq(s) - 2.0 * (r * (s * w)) + r * (r * Sq(w)) by {
      ExpandDifference(s, r * w);
      assert Sq(r * w) == r * (r * Sq(w));
      assert s * (r * w) == r * (s * w);
    }
    assert r * (q + r * Sq(w) - 2.0 * (s * w)) == r * q + r * (r * Sq(w)) - 2.0 * (r * (s * w));
    Divide(r, q + r * Sq(w) - 2.0 * (s * w));
  }

  lemma ExpandDifference(a: real, b: real)
    ensures Sq(a - b) == Sq(a) - 2.0 * (a * b) + Sq(b)
  {
    assert (a - b) * (a - b) == a * (a - b) - b * (a - b);
  }

  lemma Divide(r: real, x: real)
    requires r > 0.0 && r * x >= 0.0
    ensures x >= 0.0
  {
    assert (r * x) / r == x;
  }

  /** Samuelson: a single point out of three population sigmas needs eleven points. */
  lemma SingleOutlier(vals: seq<real>, m: real, sigma: real)
    requires sigma >= 0.0 && SquaredDeviations(vals, m) == (|vals| as real) * Sq(sigma) && Deviations(vals, m) == 0.0
    requires |Outside(vals, m + 3.0 * sigma, m - 3.0 * sigma)| == 1
    ensures |vals| > 10
  {
    hide Sq, Out, Outside, Within, SquaredDeviations, Deviations;
    var upper, lower := m + 3.0 * sigma, m - 3.0 * sigma;
    var far, near := Outside(vals, upper, lower), Within(vals, upper, lower);
    Split(vals, m, upper, lower);
    OutsideIsFar(vals, m, sigma);
    OnePoint(far, m);
    var d := far[0] - m;
    CauchySchwarz(near, m);
    SqOfNegation(d);
    SqNonNegative(sigma);
    Samuelson(|vals| as real, Sq(d), SquaredDeviations(near, m), Sq(sigma));
  }

  lemma OnePoint(vals: seq<real>, m: real)
    requires |vals| == 1
    ensures SquaredDeviations(vals, m) == Sq(vals[0] - m) && Deviations(vals, m) == vals[0] - m
  {
    assert vals[..0] == [];
  }

  lemma Samuelson(n: real, dd: real, q: real, s: real)
    requires n > 0.0 && s >= 0.0 && dd > 9.0 * s && dd <= (n - 1.0) * q && dd + q == n * s
    ensures n > 10.0
  {
    assert (n - 1.0) * q + dd + q == n * q + dd;
    assert n * ((n - 1.0) * s - dd) == (n - 1.0) * (n * s) - n * dd;
    assert (n - 1.0) * q == (n - 1.0) * (n * s) - (n - 1.0) * dd;
    Divide(n, (n - 1.0) * s - dd);
    Cancel(n - 1.0, 9.0, s);
  }

  /** ControlChart.tsx with automatic limits: of `n` numeric points, fewer than
      `n / 9` are counted as out, and none below eleven points. */
  lemma PopulationChartBound(rows: seq<Cell>, sigma: real)
    requires IsRoot(sigma, PopulationVariance(Vals(rows)))
    ensures var k := ViolationCount(rows, sigma, AUTOMATIC);
            k > 0 ==> 9 * k < |Vals(rows)| && |Vals(rows)| > 10
  {
    hide Sq, Out, Outside, SquaredDeviations, Mean, Vals, RowFlags;
    var vals := Vals(rows);
    var m := Mean(vals);
    FlagsCountOutside(rows, Upper(vals, sigma, AUTOMATIC), Lower(vals, sigma, AUTOMATIC));
    if vals == [] {
      OutsideOfNone(m + 3.0 * sigma, m - 3.0 * sigma);
    } else {
      assert SquaredDeviations(vals, m) == (|vals| as real) * Sq(sigma) by {
        Undivide(SquaredDeviations(vals, m), |vals| as real);
      }
      Chebyshev(vals, m, sigma, |vals|);
      DeviationsFromMean(vals);
      if |Outside(vals, m + 3.0 * sigma, m - 3.0 * sigma)| == 1 {
        SingleOutlier(vals, m, sigma);
      }
    }
  }

  lemma OutsideOfNone(upper: real, lower: real)
    ensures Outside([], upper, lower) == []
  {
  }

  lemma Undivide(a: real, n: real)
    requires n != 0.0
    ensures n * (a / n) == a
  {
  }

  // ----- GraphBuilder.tsx -----

  /** The square of `stdDev`. */
  function SampleVariance(vals: seq<real>): real {
    if |vals| < 2 then 0.0 else SquaredDeviations(vals, Mean(vals)) / ((|vals| - 1) as real)
  }

  /** `westernElectricViolations`: positions in the list of values. */
  function WesternElectric(vals: seq<real>, ucl: real, lcl: real): seq<nat> {
    if vals == [] then []
    else
      var init := WesternElectric(vals[..|vals| - 1], ucl, lcl);
      if Out(vals[|vals| - 1], ucl, lcl) then init + [|vals| - 1] else init
  }

  lemma {:induction false} WesternElectricFinds(vals: seq<real>, ucl: real, lcl: real, i: nat)
    ensures i in WesternElectric(vals, ucl, lcl) <==> i < |vals| && Out(vals[i], ucl, lcl)
  {
    if vals != [] {
      WesternElectricFinds(vals[..|vals| - 1], ucl, lcl, i);
    }
  }

  lemma {:induction false} WesternElectricCounts(vals: seq<real>, ucl: real, lcl: real)
    ensures |WesternElectric(vals, ucl, lcl)| == |Outside(vals, ucl, lcl)|
  {
    if vals != [] {
      WesternElectricCounts(vals[..|vals| - 1], ucl, lcl);
    }
  }

  /** GraphBuilder.tsx: of `n` numeric points, fewer than `(n - 1) / 9` are out. */
  lemma SampleChartBound(vals: seq<real>, s: real)
    requires IsRoot(s, SampleVariance(vals))
    ensures var k := |WesternElectric(vals, Mean(vals) + 3.0 * s, Mean(vals) - 3.0 * s)|;
            k > 0 ==> 9 * k < |vals| - 1
  {
    hide Sq, Out, Outside, WesternElectric, Mean;
    var m := Mean(vals);
    WesternElectricCounts(vals, m + 3.0 * s, m - 3.0 * s);
    if |vals| < 2 {
      if vals == [] {
        OutsideOfNone(m + 3.0 * s, m - 3.0 * s);
      } else {
        OnlyPointIsMean(vals);
        Chebyshev(vals, m, s, 0);
      }
    } else {
      assert SquaredDeviations(vals, m) == ((|vals| - 1) as real) * Sq(s) by {
        Undivide(SquaredDeviations(vals, m), (|vals| - 1) as real);
      }
      Chebyshev(vals, m, s, |vals| - 1);
    }
  }

  lemma OnlyPointIsMean(vals: seq<real>)
    requires |vals| == 1
    ensures SquaredDeviations(vals, Mean(vals)) == 0.0
  {
    SumOfConstant(vals, vals[0]);
  }

  /** Values that all agree, and none at all, have no spread. */
  lemma NoSpreadNoSigma(vals: seq<real>, c: real)
    requires forall i :: 0 <= i < |vals| ==> vals[i] == c
    ensures IsRoot(0.0, PopulationVariance(vals)) && IsRoot(0.0, SampleVariance(vals))
  {
    SqZero();
    SumOfConstant(vals, c);
    if vals != [] {
      assert Sum(vals) / (|vals| as real) == c;
    }
  }

  // ----- eleven points are enough -----

  /** Ten zeros and a one. */
  const ELEVEN := seq(10, i => Number(0.0)) + [Number(1.0)]

  lemma {:induction false} ValsOfZeros(n: nat)
    ensures Vals(seq(n, i => Number(0.0))) == seq(n, i => 0.0)
  {
    if n > 0 {
      ValsOfZeros(n - 1);
      assert seq(n, i => Number(0.0))[..n - 1] == seq(n - 1, i => Number(0.0));
      assert seq(n, i => 0.0) == seq(n - 1, i => 0.0) + [0.0];
    }
  }

  lemma ElevenStatistics()
    ensures var vals := Vals(ELEVEN);
            && |vals| == 11 && vals[10] == 1.0 && Mean(vals) == 1.0 / 11.0
            && SquaredDeviations(vals, 1.0 / 11.0) == 110.0 / 121.0
  {
    var zeros := seq(10, i => 0.0);
    ValsOfZeros(10);
    assert ELEVEN[..10] == seq(10, i => Number(0.0));
    var vals := zeros + [1.0];
    assert Vals(ELEVEN) == vals;
    assert vals[..10] == zeros;
    SumOfConstant(zeros, 0.0);
    assert Sum(vals) == 1.0;
    ZerosDeviate(zeros, 1.0 / 11.0);
  }

  lemma {:induction false} ZerosDeviate(zeros: seq<real>, m: real)
    requires forall i :: 0 <= i < |zeros| ==> zeros[i] == 0.0
    ensures SquaredDeviations(zeros, m) == (|zeros| as real) * (m * m)
  {
    if zeros != [] {
      ZerosDeviate(zeros[..|zeros| - 1], m);
      OneMore(|zeros| - 1, m * m);
      assert Sq(0.0 - m) == m * m;
    }
  }

  /** Both bounds are met: with eleven points, ten equal and one apart, that one is out. */
  lemma ElevenPointsSuffice(sigma: real, s: real)
    requires IsRoot(sigma, PopulationVariance(Vals(ELEVEN))) && IsRoot(s, SampleVariance(Vals(ELEVEN)))
    ensures ViolationCount(ELEVEN, sigma, AUTOMATIC) == 1
    ensures WesternElectric(Vals(ELEVEN), Mean(Vals(ELEVEN)) + 3.0 * s, Mean(Vals(ELEVEN)) - 3.0 * s) == [10]
  {
    hide Vals, Mean, Sq, SquaredDeviations, WesternElectric, RowFlags, ELEVEN, Outside;
    var vals := Vals(ELEVEN);
    var m := Mean(vals);
    ElevenStatistics();
    OneOutOf(vals, m, sigma);
    OneOutOf(vals, m, s);
    PopulationChartBound(ELEVEN, sigma);
    SampleChartBound(vals, s);
    FlagsCountOutside(ELEVEN, m + 3.0 * sigma, m - 3.0 * sigma);
    WesternElectricCounts(vals, m + 3.0 * sigma, m - 3.0 * sigma);
    WesternElectricFinds(vals, m + 3.0 * sigma, m - 3.0 * sigma, 10);
    WesternElectricFinds(vals, m + 3.0 * s, m - 3.0 * s, 10);
    SingletonOf(WesternElectric(vals, m + 3.0 * s, m - 3.0 * s), 10);
  }

  lemma SingletonOf(s: seq<nat>, x: nat)
    requires |s| <= 1 && x in s
    ensures s == [x]
  {
  }

  lemma OneOutOf(vals: seq<real>, m: real, sigma: real)
    requires |vals| == 11 && vals[10] == 1.0 && m == 1.0 / 11.0
    requires sigma >= 0.0 && Sq(sigma) <= 11.0 / 121.0
    ensures Out(vals[10], m + 3.0 * sigma, m - 3.0 * sigma)
  {
    var d := 10.0 / 11.0;
    if d <= 3.0 * sigma {
      SquareMonotone(d, 3.0 * sigma);
    }
  }

  lemma SquareMonotone(a: real, b: real)
    requires 0.0 <= a <= b
    ensures Sq(a) <= Sq(b)
  {
    if a < b {
      FarSquarePositive(b, a);
    }
  }

  // ----- which dots are marked -----

  /** `violation` of each row: its row number is looked up among the positions of values. */
  function RowMarks(rows: seq<Cell>, ucl: real, lcl: real): (marks: seq<bool>)
    ensures |marks| == |rows|
  {
    var violations := WesternElectric(Vals(rows), ucl, lcl);
    seq(|rows|, i requires 0 <= i < |rows| => i in violations)
  }

  function ValueFlags(vals: seq<real>, ucl: real, lcl: real): (flags: seq<bool>)
    ensures |flags| == |vals|
  {
    seq(|vals|, i requires 0 <= i < |vals| => Out(vals[i], ucl, lcl))
  }

  /** As many rows are flagged as are out of limits, always. */
  lemma MarkCountRight(rows: seq<Cell>, ucl: real, lcl: real)
    ensures NumTrue(RowMarks(rows, ucl, lcl)) == NumTrue(RowFlags(rows, ucl, lcl))
  {
    hide Out, NumTrue, WesternElectric, Outside, Vals, RowFlags, ValueFlags;
    var vals := Vals(rows);
    FlagsCountOutside(rows, ucl, lcl);
    MarksSplit(rows, ucl, lcl);
    MarksOfValues(vals, ucl, lcl);
    FalseTail(ValueFlags(vals, ucl, lcl), |rows| - |vals|);
  }

  /** A dot is marked exactly when the value whose place in the list is the dot's row
      number lies above the upper limit or below the lower one. */
  lemma MarkTells(rows: seq<Cell>, ucl: real, lcl: real, i: nat)
    requires i < |rows|
    ensures RowMarks(rows, ucl, lcl)[i] <==>
              i < |Vals(rows)| && (Vals(rows)[i] > ucl || Vals(rows)[i] < lcl)
  {
    hide Vals, WesternElectric;
    WesternElectricFinds(Vals(rows), ucl, lcl, i);
  }

  lemma MarksSplit(rows: seq<Cell>, ucl: real, lcl: real)
    ensures RowMarks(rows, ucl, lcl)
         == ValueFlags(Vals(rows), ucl, lcl) + seq(|rows| - |Vals(rows)|, i => false)
  {
    hide Out, WesternElectric, Vals;
    forall i: nat | i < |rows|
      ensures RowMarks(rows, ucl, lcl)[i] <==> i < |Vals(rows)| && Out(Vals(rows)[i], ucl, lcl)
    {
      WesternElectricFinds(Vals(rows), ucl, lcl, i);
    }
  }

  lemma {:induction false} MarksOfValues(vals: seq<real>, ucl: real, lcl: real)
    ensures NumTrue(ValueFlags(vals, ucl, lcl)) == |Outside(vals, ucl, lcl)|
  {
    hide Out;
    if vals != [] {
      var init := vals[..|vals| - 1];
      MarksOfValues(init, ucl, lcl);
      assert ValueFlags(vals, ucl, lcl)[..|vals| - 1] == ValueFlags(init, ucl, lcl);
    }
  }

  lemma {:induction false} FalseTail(flags: seq<bool>, n: nat)
    ensures NumTrue(flags + seq(n, i => false)) == NumTrue(flags)
  {
    if n == 0 {
      assert flags + seq(n, i => false) == flags;
    } else {
      FalseTail(flags, n - 1);
      assert (flags + seq(n, i => false))[..|flags| + n - 1] == flags + seq(n - 1, i => false);
    }
  }

  /** The value of a numeric row sits in the list at the number of numeric rows before it. */
  lemma {:induction false} PlaceOf(rows: seq<Cell>, i: nat)
    requires i < |rows| && rows[i].Number?
    ensures |Vals(rows[..i])| < |Vals(rows)| && Vals(rows)[|Vals(rows[..i])|] == rows[i].value
  {
    var init := rows[..|rows| - 1];
    if i < |rows| - 1 {
      PlaceOf(init, i);
      assert init[..i] == rows[..i];
    }
  }

  /** Every value comes from a row. */
  lemma {:induction false} RowOf(rows: seq<Cell>, p: nat) returns (i: nat)
    requires p < |Vals(rows)|
    ensures i < |rows| && rows[i].Number? && rows[i].value == Vals(rows)[p] && |Vals(rows[..i])| == p
  {
    var init := rows[..|rows| - 1];
    if p < |Vals(init)| {
      i := RowOf(init, p);
      assert init[..i] == rows[..i];
    } else {
      i := |rows| - 1;
    }
  }

  lemma {:induction false} AllNumericIffFull(rows: seq<Cell>)
    ensures |Vals(rows)| == |rows| <==> forall j :: 0 <= j < |rows| ==> rows[j].Number?
  {
    if rows != [] {
      var init := rows[..|rows| - 1];
      AllNumericIffFull(init);
      assert forall j :: 0 <= j < |init| ==> init[j] == rows[j];
      if forall j :: 0 <= j < |init| ==> init[j].Number? {
      }
    }
  }

  predicate MarksAgree(rows: seq<Cell>, ucl: real, lcl: real) {
    RowMarks(rows, ucl, lcl) == RowFlags(rows, ucl, lcl)
  }

  predicate NumericUpTo(rows: seq<Cell>, i: nat)
    requires i <= |rows|
  {
    forall j :: 0 <= j < i ==> rows[j].Number?
  }

  /** No gap comes before a row that is out of limits. */
  predicate NoGapBefore(rows: seq<Cell>, ucl: real, lcl: real) {
    forall i: nat :: i < |rows| && RowFlags(rows, ucl, lcl)[i] ==> NumericUpTo(rows, i)
  }

  lemma UpToIffPlace(rows: seq<Cell>, i: nat)
    requires i <= |rows|
    ensures NumericUpTo(rows, i) <==> |Vals(rows[..i])| == i
  {
    AllNumericIffFull(rows[..i]);
    assert forall j :: 0 <= j < i ==> rows[..i][j] == rows[j];
  }

  /** If the marks agree with the rows, a row out of limits behind a gap would
      call for another one further down. */
  lemma {:induction false} AgreeingMarksNoGap(rows: seq<Cell>, ucl: real, lcl: real, i: nat)
    requires MarksAgree(rows, ucl, lcl) && i < |rows| && RowFlags(rows, ucl, lcl)[i]
    ensures |Vals(rows[..i])| == i
    decreases |rows| - i
  {
    hide Out, Vals, WesternElectric;
    if |Vals(rows[..i])| < i {
      WesternElectricFinds(Vals(rows), ucl, lcl, i);
      assert RowMarks(rows, ucl, lcl)[i];
      var p := RowOf(rows, i);
      assert i < p;
      AgreeingMarksNoGap(rows, ucl, lcl, p);
    }
  }

  /** The marked dots are the rows out of limits exactly when no row without a
      number comes before the last row out of limits. */
  lemma MarksRightIff(rows: seq<Cell>, ucl: real, lcl: real)
    ensures MarksAgree(rows, ucl, lcl) <==> NoGapBefore(rows, ucl, lcl)
  {
    hide Out, Vals, WesternElectric, NumericUpTo;
    if MarksAgree(rows, ucl, lcl) {
      forall i: nat | i < |rows| && RowFlags(rows, ucl, lcl)[i]
        ensures NumericUpTo(rows, i)
      {
        AgreeingMarksNoGap(rows, ucl, lcl, i);
        UpToIffPlace(rows, i);
      }
    }
    if NoGapBefore(rows, ucl, lcl) {
      forall i: nat | i < |rows|
        ensures RowMarks(rows, ucl, lcl)[i] == RowFlags(rows, ucl, lcl)[i]
      {
        NoGapAgrees(rows, ucl, lcl, i);
      }
    }
  }

  lemma NoGapAgrees(rows: seq<Cell>, ucl: real, lcl: real, i: nat)
    requires NoGapBefore(rows, ucl, lcl) && i < |rows|
    ensures RowMarks(rows, ucl, lcl)[i] == RowFlags(rows, ucl, lcl)[i]
  {
    hide Out, Vals, WesternElectric, NumericUpTo;
    WesternElectricFinds(Vals(rows), ucl, lcl, i);
    if RowFlags(rows, ucl, lcl)[i] {
      UpToIffPlace(rows, i);
      PlaceOf(rows, i);
    }
    if RowMarks(rows, ucl, lcl)[i] {
      var p := RowOf(rows, i);
      assert RowFlags(rows, ucl, lcl)[p];
      UpToIffPlace(rows, p);
    }
  }

  lemma {:induction false} ValsBehindGap(rows: seq<Cell>)
    ensures Vals([NotNumeric] + rows) == Vals(rows)
  {
    if rows == [] {
      assert [NotNumeric] + rows == [NotNumeric];
    } else {
      ValsBehindGap(rows[..|rows| - 1]);
      assert ([NotNumeric] + rows)[..|rows|] == [NotNumeric] + rows[..|rows| - 1];
    }
  }

  /** A gap before ten equal values and one apart: with automatic limits the marks
      are not at the row out of limits. */
  lemma GapMisplacesMark(s: real)
    requires IsRoot(s, SampleVariance(Vals([NotNumeric] + ELEVEN)))
    ensures var rows := [NotNumeric] + ELEVEN;
            var m := Mean(Vals(rows));
            !MarksAgree(rows, m + 3.0 * s, m - 3.0 * s)
  {
    hide Vals, Mean, SquaredDeviations, RowMarks, Sq, WesternElectric;
    var rows, vals := [NotNumeric] + ELEVEN, Vals(ELEVEN);
    ValsBehindGap(ELEVEN);
    ElevenStatistics();
    var m := Mean(vals);
    OneOutOf(vals, m, s);
    MarksRightIff(rows, m + 3.0 * s, m - 3.0 * s);
    assert rows[11] == Number(1.0) && rows[0] == NotNumeric;
    assert RowFlags(rows, m + 3.0 * s, m - 3.0 * s)[11];
  }
}
