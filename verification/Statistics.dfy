/**
  Sums and means, as src/components/charts/GraphBuilder.tsx and
  src/components/charts/ControlChart.tsx fold them, over exact reals.
*/
module Statistics {

  function Sum(vals: seq<real>): real {
    if vals == [] then 0.0 else Sum(vals[..|vals| - 1]) + vals[|vals| - 1]
  }

  /** `mean`. */
  function Mean(vals: seq<real>): real {
    if vals == [] then 0.0 else Sum(vals) / (|vals| as real)
  }

  function Sq(a: real): real {
    a * a
  }

  /** The sum of squared distances from `m`. */
  function SquaredDeviations(vals: seq<real>, m: real): real {
    if vals == [] then 0.0 else SquaredDeviations(vals[..|vals| - 1], m) + Sq(vals[|vals| - 1] - m)
  }

  lemma NonNegativeProduct(a: real, b: real)
    requires a >= 0.0 && b >= 0.0
    ensures a * b >= 0.0
  {
  }

  lemma SqNonNegative(a: real)
    ensures Sq(a) >= 0.0
    ensures Sq(a) == 0.0 ==> a == 0.0
  {
    if a > 0.0 {
      SqPositive(a);
    } else if a < 0.0 {
      SqPositive(-a);
      SqOfNegation(a);
    }
  }

  lemma SqOfNegation(a: real)
    ensures Sq(-a) == Sq(a)
  {
  }

  lemma SqPositive(a: real)
    requires a > 0.0
    ensures Sq(a) > 0.0
  {
    assert Sq(a) / a == a;
  }

  lemma {:induction false} SquaredDeviationsNonNegative(vals: seq<real>, m: real)
    ensures SquaredDeviations(vals, m) >= 0.0
  {
    if vals != [] {
      SquaredDeviationsNonNegative(vals[..|vals| - 1], m);
      SqNonNegative(vals[|vals| - 1] - m);
    }
  }

  lemma {:induction false} SquaredDeviationsZero(vals: seq<real>, m: real)
    requires SquaredDeviations(vals, m) == 0.0
    ensures forall i :: 0 <= i < |vals| ==> vals[i] == m
  {
    if vals != [] {
      var init := vals[..|vals| - 1];
      SquaredDeviationsNonNegative(init, m);
      SqNonNegative(vals[|vals| - 1] - m);
      SquaredDeviationsZero(init, m);
      forall i | 0 <= i < |vals|
        ensures vals[i] == m
      {
        if i < |vals| - 1 {
          assert vals[i] == init[i];
        }
      }
    }
  }

  /** The sum of signed distances from `m`. */
  function Deviations(vals: seq<real>, m: real): real {
    if vals == [] then 0.0 else Deviations(vals[..|vals| - 1], m) + (vals[|vals| - 1] - m)
  }

  lemma {:induction false} DeviationsFromSum(vals: seq<real>, m: real)
    ensures Deviations(vals, m) == Sum(vals) - (|vals| as real) * m
  {
    if vals != [] {
      DeviationsFromSum(vals[..|vals| - 1], m);
      assert (|vals| as real) * m == ((|vals| - 1) as real) * m + m;
    }
  }

  /** Deviations from the mean cancel. */
  lemma DeviationsFromMean(vals: seq<real>)
    requires vals != []
    ensures Deviations(vals, Mean(vals)) == 0.0
  {
    DeviationsFromSum(vals, Mean(vals));
  }

  lemma SqZero()
    ensures Sq(0.0) == 0.0
  {
  }

  lemma {:induction false} SumOfConstant(vals: seq<real>, c: real)
    requires forall i :: 0 <= i < |vals| ==> vals[i] == c
    ensures Sum(vals) == (|vals| as real) * c && SquaredDeviations(vals, c) == 0.0
  {
    if vals != [] {
      SumOfConstant(vals[..|vals| - 1], c);
      assert (|vals| as real) * c == ((|vals| - 1) as real) * c + c;
    }
  }

  /** `Math.min` and `Math.max` over a non-empty list. */
  function Min(vals: seq<real>): real
    requires vals != []
  {
    if |vals| == 1 then vals[0]
    else
      var least := Min(vals[..|vals| - 1]);
      if vals[|vals| - 1] < least then vals[|vals| - 1] else least
  }

  function Max(vals: seq<real>): real
    requires vals != []
  {
    if |vals| == 1 then vals[0]
    else
      var greatest := Max(vals[..|vals| - 1]);
      if vals[|vals| - 1] > greatest then vals[|vals| - 1] else greatest
  }

  lemma {:induction false} MinMaxBound(vals: seq<real>)
    requires vals != []
    ensures forall i :: 0 <= i < |vals| ==> Min(vals) <= vals[i] <= Max(vals)
    ensures Min(vals) in vals && Max(vals) in vals
  {
    if |vals| > 1 {
      var init := vals[..|vals| - 1];
      MinMaxBound(init);
      forall i | 0 <= i < |vals|
        ensures Min(vals) <= vals[i] <= Max(vals)
      {
        if i < |vals| - 1 {
          assert vals[i] == init[i];
        }
      }
      assert forall v :: v in init ==> v in vals;
    }
  }
}
