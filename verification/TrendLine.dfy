/**
  The scatter chart's trend line and the confidence band drawn around it
  (src/components/charts/GraphBuilder.tsx), over exact reals.
*/
module TrendLine {
  import opened Statistics

  datatype Cell = Missing | Number(value: real)

  datatype Row = Row(x: Cell, y: Cell)

  datatype Point = Point(x: real, y: real)

  datatype Line = Line(slope: real, intercept: real) {
    function At(x: real): real {
      slope * x + intercept
    }
  }

  /** The paired filter: a row counts when both of its cells are numbers. */
  function Pairs(rows: seq<Row>): seq<Point> {
    if rows == [] then []
    else
      var r := rows[|rows| - 1];
      Pairs(rows[..|rows| - 1]) + (if r.x.Number? && r.y.Number? then [Point(r.x.value, r.y.value)] else [])
  }

  /** A row with two numbers gives a point: its x and its y, at the place that counts
      such rows before it. */
  lemma {:induction false} PairOfRow(rows: seq<Row>, i: nat)
    requires i < |rows| && rows[i].x.Number? && rows[i].y.Number?
    ensures |Pairs(rows[..i])| < |Pairs(rows)|
    ensures Pairs(rows)[|Pairs(rows[..i])|].x == rows[i].x.value
    ensures Pairs(rows)[|Pairs(rows[..i])|].y == rows[i].y.value
  {
    var init := rows[..|rows| - 1];
    if i < |rows| - 1 {
      PairOfRow(init, i);
      assert init[..i] == rows[..i];
    }
  }

  /** Every point comes from such a row. */
  lemma {:induction false} RowOfPair(rows: seq<Row>, p: nat) returns (i: nat)
    requires p < |Pairs(rows)|
    ensures i < |rows| && rows[i].x.Number? && rows[i].y.Number? && |Pairs(rows[..i])| == p
  {
    var init := rows[..|rows| - 1];
    if p < |Pairs(init)| {
      i := RowOfPair(init, p);
      assert init[..i] == rows[..i];
    } else {
      i := |rows| - 1;
    }
  }

  function Xs(ps: seq<Point>): (xs: seq<real>)
    ensures |xs| == |ps|
  {
    if ps == [] then [] else Xs(ps[..|ps| - 1]) + [ps[|ps| - 1].x]
  }

  function Ys(ps: seq<Point>): (ys: seq<real>)
    ensures |ys| == |ps|
  {
    if ps == [] then [] else Ys(ps[..|ps| - 1]) + [ps[|ps| - 1].y]
  }

  lemma {:induction false} XsAt(ps: seq<Point>)
    ensures forall i :: 0 <= i < |ps| ==> Xs(ps)[i] == ps[i].x
  {
    if ps != [] {
      XsAt(ps[..|ps| - 1]);
    }
  }

  function Times(u: real, v: real): real {
    u * v
  }

  /** `num`: the sum of products of deviations. */
  function Codeviations(ps: seq<Point>, mx: real, my: real): real {
    if ps == [] then 0.0
    else
      var p := ps[|ps| - 1];
      Codeviations(ps[..|ps| - 1], mx, my) + Times(p.x - mx, p.y - my)
  }

  /** The regression: `slope` and `intercept`. */
  function Fit(ps: seq<Point>): Line {
    var mx := Mean(Xs(ps));
    var my := Mean(Ys(ps));
    var num := Codeviations(ps, mx, my);
    var den := SquaredDeviations(Xs(ps), mx);
    var slope := if den == 0.0 then 0.0 else num / den;
    Line(slope, my - slope * mx)
  }

  /** `trendPoints`: nothing, or the two end points drawn. */
  function TrendPoints(rows: seq<Row>): seq<Point> {
    var ps := Pairs(rows);
    if |ps| > 1 then
      var line := Fit(ps);
      [Point(Min(Xs(ps)), line.At(Min(Xs(ps)))), Point(Max(Xs(ps)), line.At(Max(Xs(ps))))]
    else
      []
  }

  /** The slope and intercept the confidence band reads back off the two points
      drawn; a zero distance counts as 1. */
  function LineThrough(a: Point, b: Point): Line {
    var run := if b.x - a.x == 0.0 then 1.0 else b.x - a.x;
    var slope := (b.y - a.y) / run;
    Line(slope, a.y - slope * a.x)
  }

  // ----- what least squares means -----

  /** How far the points lie from a line, squared and summed. */
  function Residuals(ps: seq<Point>, line: Line): real {
    if ps == [] then 0.0
    else Residuals(ps[..|ps| - 1], line) + Sq(ps[|ps| - 1].y - line.At(ps[|ps| - 1].x))
  }

  /** The sum of squared residuals of a line of slope `a` that misses the centre by
      `e`, written with the sums over the points: of v*v, u*v, u*u, v, u and 1. */
  function Form(a: real, e: real, vv: real, uv: real, uu: real, v: real, u: real, n: real): real {
    vv - 2.0 * (a * uv) + Sq(a) * uu + n * Sq(e) + 2.0 * (e * (v - a * u))
  }

  lemma SquareOfSum(a: real, b: real)
    ensures Sq(a + b) == Sq(a) + 2.0 * (a * b) + Sq(b)
  {
    assert (a + b) * (a + b) == a * (a + b) + b * (a + b);
  }

  lemma SquareOfProduct(a: real, b: real)
    ensures Sq(-(a * b)) == Sq(a) * Sq(b)
  {
  }

  lemma FormOfOne(a: real, e: real, u: real, v: real)
    ensures Sq((v - a * u) + e) == Form(a, e, Sq(v), Times(u, v), Sq(u), v, u, 1.0)
  {
    hide Sq;
    SquareOfSum(v - a * u, e);
    SquareOfSum(v, -(a * u));
    SquareOfProduct(a, u);
    MoveFactor(v, a, u);
    assert (v - a * u) * e == e * (v - a * u);
    assert v - a * u == v + -(a * u);
  }

  lemma MoveFactor(v: real, a: real, u: real)
    ensures v * -(a * u) == -(a * (u * v))
  {
    assert v * (a * u) == a * (u * v);
  }

  lemma FormAdds(a: real, e: real, vv: real, uv: real, uu: real, v: real, u: real, n: real,
                 vv': real, uv': real, uu': real, v': real, u': real, n': real)
    ensures Form(a, e, vv + vv', uv + uv', uu + uu', v + v', u + u', n + n')
         == Form(a, e, vv, uv, uu, v, u, n) + Form(a, e, vv', uv', uu', v', u', n')
  {
    hide Sq;
    Distribute(a, uv, uv');
    Distribute(Sq(a), uu, uu');
    Distribute(Sq(e), n, n');
    Distribute(a, u, u');
    Distribute(e, v - a * u, v' - a * u');
    assert (v + v') - a * (u + u') == (v - a * u) + (v' - a * u');
  }

  lemma Distribute(a: real, b: real, c: real)
    ensures a * (b + c) == a * b + a * c
    ensures (b + c) * a == b * a + c * a
  {
  }

  lemma ResidualOfPoint(p: Point, line: Line, mx: real, my: real)
    ensures Sq(p.y - line.At(p.x))
         == Form(line.slope, my - line.At(mx), Sq(p.y - my), Times(p.x - mx, p.y - my), Sq(p.x - mx), p.y - my,
             p.x - mx, 1.0)
  {
    hide Sq, Form, Times;
    var u, v, a, e := p.x - mx, p.y - my, line.slope, my - line.At(mx);
    FormOfOne(a, e, u, v);
    assert p.y - line.At(p.x) == (v - a * u) + e by {
      Distribute(a, u, mx);
      assert u + mx == p.x;
    }
  }

  /** The residuals of any line, in terms of sums about any centre. */
  lemma {:induction false} ResidualsAbout(ps: seq<Point>, line: Line, mx: real, my: real)
    ensures Residuals(ps, line)
         == Form(line.slope, my - line.At(mx), SquaredDeviations(Ys(ps), my), Codeviations(ps, mx, my),
                 SquaredDeviations(Xs(ps), mx), Deviations(Ys(ps), my), Deviations(Xs(ps), mx), |ps| as real)
    decreases |ps|
  {
    hide Sq, Form, Times, Line.At;
    if ps != [] {
      var init, p := ps[..|ps| - 1], ps[|ps| - 1];
      var a, e := line.slope, my - line.At(mx);
      ResidualsAbout(init, line, mx, my);
      ResidualOfPoint(p, line, mx, my);
      assert Xs(ps)[..|ps| - 1] == Xs(init) && Ys(ps)[..|ps| - 1] == Ys(init);
      FormAdds(a, e, SquaredDeviations(Ys(init), my), Codeviations(init, mx, my), SquaredDeviations(Xs(init), mx),
               Deviations(Ys(init), my), Deviations(Xs(init), mx), |init| as real,
               Sq(p.y - my), Times(p.x - mx, p.y - my), Sq(p.x - mx), p.y - my, p.x - mx, 1.0);
    } else {
      FormOfNone(line.slope, my - line.At(mx));
    }
  }

  lemma FormOfNone(a: real, e: real)
    ensures Form(a, e, 0.0, 0.0, 0.0, 0.0, 0.0, 0.0) == 0.0
  {
  }

  /** When all x agree there is no co-deviation to fit. */
  lemma {:induction false} NoSpreadNoCodeviation(ps: seq<Point>, mx: real, my: real)
    requires SquaredDeviations(Xs(ps), mx) == 0.0
    ensures Codeviations(ps, mx, my) == 0.0
  {
    if ps != [] {
      var init, p := ps[..|ps| - 1], ps[|ps| - 1];
      assert Xs(ps)[..|ps| - 1] == Xs(init);
      SquaredDeviationsNonNegative(Xs(init), mx);
      SqNonNegative(p.x - mx);
      NoSpreadNoCodeviation(init, mx, my);
    }
  }

  /** What any line pays over the fitted one: its error in slope, weighted by the
      spread of x, and its error at the centre of the points. */
  lemma ExcessOverFit(ps: seq<Point>, line: Line)
    requires ps != []
    ensures Residuals(ps, line)
         == Residuals(ps, Fit(ps))
            + Sq(line.slope - Fit(ps).slope) * SquaredDeviations(Xs(ps), Mean(Xs(ps)))
            + (|ps| as real) * Sq(Mean(Ys(ps)) - line.At(Mean(Xs(ps))))
  {
    hide Residuals, Mean, Xs, Ys, Codeviations, SquaredDeviations, Sq;
    var mx, my := Mean(Xs(ps)), Mean(Ys(ps));
    var num, den := Codeviations(ps, mx, my), SquaredDeviations(Xs(ps), mx);
    var fit := Fit(ps);
    DeviationsFromMean(Xs(ps));
    DeviationsFromMean(Ys(ps));
    ResidualsAbout(ps, line, mx, my);
    ResidualsAbout(ps, fit, mx, my);
    if den == 0.0 {
      NoSpreadNoCodeviation(ps, mx, my);
    }
    assert fit.At(mx) == my;
    CentredForm(line.slope, my - line.At(mx), SquaredDeviations(Ys(ps), my), num, den, |ps| as real, fit.slope);
    CentredForm(fit.slope, 0.0, SquaredDeviations(Ys(ps), my), num, den, |ps| as real, fit.slope);
    Complete(line.slope, fit.slope, den);
    SqZero();
  }

  lemma CentredForm(a: real, e: real, vv: real, num: real, den: real, n: real, slope: real)
    requires num == slope * den
    ensures Form(a, e, vv, num, den, 0.0, 0.0, n) == vv + (Sq(a) * den - 2.0 * (a * (slope * den))) + n * Sq(e)
  {
    hide Sq;
    assert e * (0.0 - a * 0.0) == 0.0;
  }

  /** Completing the square. */
  lemma Complete(a: real, s: real, den: real)
    ensures Sq(a) * den - 2.0 * (a * (s * den)) == (Sq(s) * den - 2.0 * (s * (s * den))) + Sq(a - s) * den
  {
    SquareOfSum(a, -s);
    Distribute(den, Sq(a) + 2.0 * (a * -s), Sq(s));
    Distribute(den, Sq(a), 2.0 * (a * -s));
    assert (2.0 * (a * -s)) * den == -(2.0 * (a * (s * den)));
    assert s * (s * den) == Sq(s) * den;
  }

  /** Least squares: no line does better. */
  lemma FitIsOptimal(ps: seq<Point>, line: Line)
    requires ps != []
    ensures Residuals(ps, Fit(ps)) <= Residuals(ps, line)
  {
    hide Residuals, Mean, Xs, Ys, Fit, SquaredDeviations;
    ExcessOverFit(ps, line);
    var den := SquaredDeviations(Xs(ps), Mean(Xs(ps)));
    SquaredDeviationsNonNegative(Xs(ps), Mean(Xs(ps)));
    SqNonNegative(line.slope - Fit(ps).slope);
    SqNonNegative(Mean(Ys(ps)) - line.At(Mean(Xs(ps))));
    NonNegativeProduct(Sq(line.slope - Fit(ps).slope), den);
    NonNegativeProduct(|ps| as real, Sq(Mean(Ys(ps)) - line.At(Mean(Xs(ps)))));
  }

  lemma ZeroProduct(a: real, b: real)
    requires a >= 0.0 && b >= 0.0
    ensures a > 0.0 && a * b == 0.0 ==> b == 0.0
    ensures b > 0.0 && a * b == 0.0 ==> a == 0.0
  {
    if a > 0.0 && b > 0.0 {
      assert a * b > 0.0;
    }
  }

  /** A line does as well exactly when it is the fitted line or, where all x
      agree, when it meets the fitted line at that x. */
  lemma OptimalIff(ps: seq<Point>, line: Line)
    requires ps != []
    ensures Residuals(ps, line) == Residuals(ps, Fit(ps))
        <==> if Min(Xs(ps)) == Max(Xs(ps)) then line.At(Min(Xs(ps))) == Fit(ps).At(Min(Xs(ps)))
             else line == Fit(ps)
  {
    hide Residuals, Xs, Ys, SquaredDeviations, Min, Max, Codeviations, Mean, Sq;
    ExcessOverFit(ps, line);
    var mx, my := Mean(Xs(ps)), Mean(Ys(ps));
    var den := SquaredDeviations(Xs(ps), mx);
    var gap, miss := line.slope - Fit(ps).slope, my - line.At(mx);
    SquaredDeviationsNonNegative(Xs(ps), mx);
    SqNonNegative(gap);
    SqNonNegative(miss);
    NonNegativeProduct(Sq(gap), den);
    NonNegativeProduct(|ps| as real, Sq(miss));
    ZeroProduct(Sq(gap), den);
    ZeroProduct(|ps| as real, Sq(miss));
    SpreadIffDistinct(Xs(ps));
    assert Fit(ps).At(mx) == my;
    SqZero();
  }

  /** The denominator vanishes exactly when all values agree; they then agree with the mean. */
  lemma SpreadIffDistinct(xs: seq<real>)
    requires xs != []
    ensures SquaredDeviations(xs, Mean(xs)) == 0.0 <==> Min(xs) == Max(xs)
    ensures Min(xs) == Max(xs) ==> Mean(xs) == Min(xs)
  {
    hide Sum, SquaredDeviations, Min, Max;
    MinMaxBound(xs);
    if SquaredDeviations(xs, Mean(xs)) == 0.0 {
      SquaredDeviationsZero(xs, Mean(xs));
    }
    if Min(xs) == Max(xs) {
      SumOfConstant(xs, Min(xs));
      assert Sum(xs) / (|xs| as real) == Min(xs);
    }
  }

  // ----- what is drawn -----

  /** With at least two usable rows the two points drawn span the data, lie on
      the least-squares line, and the band reads exactly that line back. */
  lemma TrendIsDrawnRight(rows: seq<Row>)
    ensures |TrendPoints(rows)| == 2 <==> |Pairs(rows)| > 1
    ensures |Pairs(rows)| > 1 ==>
              var ps, ends := Pairs(rows), TrendPoints(rows);
              && (forall i :: 0 <= i < |ps| ==> ends[0].x <= ps[i].x <= ends[1].x)
              && (exists i, j :: 0 <= i < |ps| && 0 <= j < |ps| && ps[i].x == ends[0].x && ps[j].x == ends[1].x)
              && ends[0].y == Fit(ps).At(ends[0].x) && ends[1].y == Fit(ps).At(ends[1].x)
              && LineThrough(ends[0], ends[1]) == Fit(ps)
  {
    hide Pairs, Xs, Min, Max, Fit, LineThrough;
    var ps := Pairs(rows);
    if |ps| > 1 {
      var lo, hi, line := Min(Xs(ps)), Max(Xs(ps)), Fit(ps);
      MinMaxBound(Xs(ps));
      XsAt(ps);
      if lo == hi {
        VerticalSlope(ps);
      }
      ReadBack(line, lo, hi);
    }
  }

  lemma ReadBack(line: Line, lo: real, hi: real)
    requires lo == hi ==> line.slope == 0.0
    ensures LineThrough(Point(lo, line.At(lo)), Point(hi, line.At(hi))) == line
  {
    var run := if hi - lo == 0.0 then 1.0 else hi - lo;
    Rise(line.slope, line.intercept, lo, hi);
    Quotient(line.slope, run);
    assert (line.At(hi) - line.At(lo)) / run == line.slope;
  }

  lemma Rise(a: real, b: real, lo: real, hi: real)
    ensures (a * hi + b) - (a * lo + b) == a * (hi - lo)
  {
  }

  lemma Quotient(a: real, d: real)
    requires d != 0.0
    ensures (a * d) / d == a
  {
  }

  lemma VerticalSlope(ps: seq<Point>)
    requires ps != [] && Min(Xs(ps)) == Max(Xs(ps))
    ensures Fit(ps).slope == 0.0
  {
    hide Xs, Min, Max, SquaredDeviations, Mean, Codeviations;
    SpreadIffDistinct(Xs(ps));
  }

  const STEPS := 20

  datatype BandPoint = BandPoint(x: real, upper: real, lower: real)

  /** One point of the confidence band; `halfWidth` is z times the standard error. */
  function Band(ends: seq<Point>, halfWidth: real, i: nat): BandPoint
    requires |ends| == 2
  {
    var x := ends[0].x + (ends[1].x - ends[0].x) * (i as real / STEPS as real);
    var mid := LineThrough(ends[0], ends[1]).At(x);
    BandPoint(x, mid + halfWidth, mid - halfWidth)
  }

  /** The band runs over the data's whole x range, centred on the least-squares line. */
  lemma BandSurroundsTrend(rows: seq<Row>, halfWidth: real, i: nat)
    requires |Pairs(rows)| > 1 && i <= 20
    ensures var ends, band := TrendPoints(rows), Band(TrendPoints(rows), halfWidth, i);
            && ends[0].x <= band.x <= ends[1].x
            && 20.0 * (band.x - ends[0].x) == (i as real) * (ends[1].x - ends[0].x)
            && band.upper - Fit(Pairs(rows)).At(band.x) == halfWidth
            && Fit(Pairs(rows)).At(band.x) - band.lower == halfWidth
  {
    hide Pairs, Xs, Min, Max, Fit, LineThrough, TrendPoints;
    TrendIsDrawnRight(rows);
    var ends := TrendPoints(rows);
    var t, span := i as real / STEPS as real, ends[1].x - ends[0].x;
    assert ends[0].x <= Pairs(rows)[0].x <= ends[1].x;
    assert 0.0 <= t <= 1.0;
    NonNegativeProduct(span, t);
    NonNegativeProduct(span, 1.0 - t);
    assert span * (1.0 - t) == span - span * t;
    assert 20.0 * (span * t) == (i as real) * span;
  }
}
