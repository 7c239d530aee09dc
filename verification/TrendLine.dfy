/**
 * The least-squares trend line of backend/src/analytics/analytics.service.ts, over the reals:
 * sample i is the point (i, ys[i]).
 */
module TrendLine {

  datatype Trend = Trend(slope: real, intercept: real, r2: real)

  function Sum(ys: seq<real>): real {
    if ys == [] then 0.0 else Sum(ys[..|ys| - 1]) + ys[|ys| - 1]
  }

  /** 0 + 1 + ... + (n - 1) */
  function SumOfIndices(n: nat): real {
    if n == 0 then 0.0 else SumOfIndices(n - 1) + (n - 1) as real
  }

  function Product(x: real, y: real): real { x * y }

  function Square(x: real): real { Product(x, x) }

  /** The line's height at x. */
  function Line(slope: real, intercept: real, x: real): real { slope * x + intercept }

  /** Sum of (i - xMean) * (ys[i] - yMean). */
  function CrossDeviation(ys: seq<real>, xMean: real, yMean: real): real {
    if ys == [] then 0.0
    else
      var n := |ys| - 1;
      CrossDeviation(ys[..n], xMean, yMean) + Product(n as real - xMean, ys[n] - yMean)
  }

  /** Sum of (i - xMean)^2 for i below n. */
  function IndexDeviation(n: nat, xMean: real): real {
    if n == 0 then 0.0 else IndexDeviation(n - 1, xMean) + Square((n - 1) as real - xMean)
  }

  /** Sum of (ys[i] - yMean)^2. */
  function Deviation(ys: seq<real>, yMean: real): real {
    if ys == [] then 0.0 else Deviation(ys[..|ys| - 1], yMean) + Square(ys[|ys| - 1] - yMean)
  }

  /** Sum of squared residuals of the line slope * x + intercept. */
  function Residuals(ys: seq<real>, slope: real, intercept: real): real {
    if ys == [] then 0.0
    else
      var n := |ys| - 1;
      Residuals(ys[..n], slope, intercept) + Square(ys[n] - Line(slope, intercept, n as real))
  }

  function MeanIndex(n: nat): real
    requires n > 0
  {
    SumOfIndices(n) / n as real
  }

  function Mean(ys: seq<real>): real
    requires ys != []
  {
    Sum(ys) / |ys| as real
  }

  function ComputeTrendLine(ys: seq<real>): Trend {
    if |ys| < 2 then Trend(0.0, 0.0, 0.0)
    else
      var xMean, yMean := MeanIndex(|ys|), Mean(ys);
      var numerator := CrossDeviation(ys, xMean, yMean);
      var denominator := IndexDeviation(|ys|, xMean);
      var slope := if denominator != 0.0 then numerator / denominator else 0.0;
      var intercept := yMean - slope * xMean;
      var ssRes := Residuals(ys, slope, intercept);
      var ssTot := Deviation(ys, yMean);
      Trend(slope, intercept, if ssTot != 0.0 then 1.0 - ssRes / ssTot else 0.0)
  }

  // ---------------------------------------------------------------- expanding around the means

  /**
   * The sum of (e - a * d + c)^2 over n points of deviations (d, e), from six sums: of e^2, of
   * d * e, of d^2, of e and of d.
   */
  function Expanded(a: real, c: real, n: real, ee: real, de: real, dd: real, e: real, d: real): real {
    ee - 2.0 * (a * de) + (a * a) * dd + n * Square(c) + 2.0 * (c * e) - 2.0 * ((a * c) * d)
  }

  lemma SquareExpands(e: real, d: real, a: real, c: real)
    ensures Square(e - Product(a, d) + c) == Expanded(a, c, 1.0, Square(e), Product(d, e), Square(d), e, d)
  {
    var u := a * d;
    assert Square(e - u + c) == e * e + u * u + c * c - 2.0 * (e * u) + 2.0 * (e * c) - 2.0 * (u * c);
    assert u * u == (a * a) * Square(d) by {
      assert a * d * (a * d) == a * (d * (a * d)) == a * (a * (d * d));
    }
    assert e * u == a * (d * e) && u * c == (a * c) * d;
  }

  lemma Distribute(k: real, x: real, y: real)
    ensures k * (x + y) == k * x + k * y == x * k + y * k == (x + y) * k
  {
  }

  lemma ExpandedAdds(a: real, c: real, n: real, ee: real, de: real, dd: real, e: real, d: real,
                     n': real, ee': real, de': real, dd': real, e': real, d': real)
    ensures Expanded(a, c, n + n', ee + ee', de + de', dd + dd', e + e', d + d') ==
            Expanded(a, c, n, ee, de, dd, e, d) + Expanded(a, c, n', ee', de', dd', e', d')
  {
    Distribute(a, de, de');
    Distribute(a * a, dd, dd');
    Distribute(Square(c), n, n');
    Distribute(c, e, e');
    Distribute(a * c, d, d');
  }

  /** How far below the centre the line passes. */
  function Offset(a: real, b: real, xMean: real, yMean: real): real { yMean - a * xMean - b }

  /** The residual of one sample, seen from the centre. */
  lemma Recentre(x: real, y: real, a: real, b: real, xMean: real, yMean: real)
    ensures y - Line(a, b, x) == (y - yMean) - Product(a, x - xMean) + Offset(a, b, xMean, yMean)
  {
    Distribute(a, x - xMean, xMean);
  }

  /** Sum of i - xMean. */
  function IndexDrift(n: nat, xMean: real): real {
    if n == 0 then 0.0 else IndexDrift(n - 1, xMean) + ((n - 1) as real - xMean)
  }

  /** Sum of ys[i] - yMean. */
  function Drift(ys: seq<real>, yMean: real): real {
    if ys == [] then 0.0 else Drift(ys[..|ys| - 1], yMean) + (ys[|ys| - 1] - yMean)
  }

  /** Residuals from the deviations about any centre (xMean, yMean). */
  lemma {:induction false} ResidualsExpand(ys: seq<real>, a: real, b: real, xMean: real, yMean: real)
    ensures Residuals(ys, a, b) ==
            Expanded(a, Offset(a, b, xMean, yMean), |ys| as real, Deviation(ys, yMean),
                     CrossDeviation(ys, xMean, yMean), IndexDeviation(|ys|, xMean),
                     Drift(ys, yMean), IndexDrift(|ys|, xMean))
  {
    var c := Offset(a, b, xMean, yMean);
    if ys == [] {
      assert Expanded(a, c, 0.0, 0.0, 0.0, 0.0, 0.0, 0.0) == 0.0;
    } else {
      hide Expanded, Square, Product, Line, Offset;
      var n := |ys| - 1;
      var front := ys[..n];
      ResidualsExpand(front, a, b, xMean, yMean);
      var d, e := n as real - xMean, ys[n] - yMean;
      Recentre(n as real, ys[n], a, b, xMean, yMean);
      SquareExpands(e, d, a, c);
      ExpandedAdds(a, c, n as real, Deviation(front, yMean), CrossDeviation(front, xMean, yMean),
                   IndexDeviation(n, xMean), Drift(front, yMean), IndexDrift(n, xMean),
                   1.0, Square(e), Product(d, e), Square(d), e, d);
    }
  }

  function Multiple(n: nat, x: real): real { n as real * x }

  lemma OneMore(n: nat, x: real)
    ensures Multiple(n + 1, x) == Multiple(n, x) + x
  {
    Distribute(x, n as real, 1.0);
  }

  lemma {:induction false} DriftIs(ys: seq<real>, yMean: real)
    ensures Drift(ys, yMean) == Sum(ys) - Multiple(|ys|, yMean)
  {
    if ys != [] {
      hide Multiple;
      DriftIs(ys[..|ys| - 1], yMean);
      OneMore(|ys| - 1, yMean);
    }
  }

  lemma {:induction false} IndexDriftIs(n: nat, xMean: real)
    ensures IndexDrift(n, xMean) == SumOfIndices(n) - Multiple(n, xMean)
  {
    if n > 0 {
      IndexDriftIs(n - 1, xMean);
      hide Multiple;
      OneMore(n - 1, xMean);
    }
  }

  lemma MeansAreCentres(ys: seq<real>)
    requires ys != []
    ensures Drift(ys, Mean(ys)) == 0.0 && IndexDrift(|ys|, MeanIndex(|ys|)) == 0.0
  {
    Quotient(Sum(ys), |ys| as real);
    Quotient(SumOfIndices(|ys|), |ys| as real);
    DriftIs(ys, Mean(ys));
    IndexDriftIs(|ys|, MeanIndex(|ys|));
  }

  lemma Quotient(x: real, d: real)
    requires d != 0.0
    ensures x == d * (x / d)
  {
  }

  lemma SameSign(x: real, y: real)
    requires (x > 0.0 && y > 0.0) || (x < 0.0 && y < 0.0)
    ensures Product(x, y) > 0.0
  {
  }

  lemma SquareNonNegative(x: real)
    ensures Square(x) >= 0.0 && (Square(x) == 0.0 <==> x == 0.0)
  {
    if x != 0.0 { SameSign(x, x); }
  }

  lemma ProductSign(k: real, x: real)
    requires k > 0.0 && x >= 0.0
    ensures k * x >= 0.0 && (k * x == 0.0 <==> x == 0.0)
  {
  }

  /** The guard `denominator !== 0` never fails: two samples already have distinct indices. */
  lemma {:induction false} DenominatorPositive(n: nat, xMean: real)
    ensures IndexDeviation(n, xMean) >= 0.0
    ensures n >= 2 ==> IndexDeviation(n, xMean) > 0.0
  {
    if n > 0 {
      DenominatorPositive(n - 1, xMean);
      SquareNonNegative((n - 1) as real - xMean);
      if n == 2 {
        SquareNonNegative(0.0 - xMean);
        assert IndexDeviation(1, xMean) == Square(0.0 - xMean);
      }
    }
  }

  /** Completing the square in the slope. */
  lemma CompleteSquare(a: real, c: real, n: real, ee: real, de: real, dd: real, slope: real)
    requires de == dd * slope
    ensures Expanded(a, c, n, ee, de, dd, 0.0, 0.0) ==
            ee - dd * Square(slope) + dd * Square(a - slope) + n * Square(c)
  {
    assert Square(a - slope) == a * a - 2.0 * (a * slope) + slope * slope;
    assert dd * Square(a - slope) == dd * (a * a) - 2.0 * (dd * (a * slope)) + dd * (slope * slope);
    assert a * de == dd * (a * slope);
    assert (a * a) * dd == dd * (a * a);
  }

  /** How far the line (a, b) misses: what no line avoids, and two squares. */
  function Miss(ys: seq<real>, a: real, b: real): (r: (real, real))
    requires |ys| >= 2
    ensures r.0 >= 0.0 && r.1 >= 0.0
    ensures r.0 == r.1 == 0.0 <==> a == ComputeTrendLine(ys).slope && b == ComputeTrendLine(ys).intercept
  {
    var t := ComputeTrendLine(ys);
    var xMean, yMean := MeanIndex(|ys|), Mean(ys);
    var c := Offset(a, b, xMean, yMean);
    DenominatorPositive(|ys|, xMean);
    SquareNonNegative(a - t.slope);
    SquareNonNegative(c);
    ProductSign(IndexDeviation(|ys|, xMean), Square(a - t.slope));
    ProductSign(|ys| as real, Square(c));
    (IndexDeviation(|ys|, xMean) * Square(a - t.slope), |ys| as real * Square(c))
  }

  lemma ResidualsOf(ys: seq<real>, a: real, b: real)
    requires |ys| >= 2
    ensures Residuals(ys, a, b) ==
            Deviation(ys, Mean(ys)) - IndexDeviation(|ys|, MeanIndex(|ys|)) * Square(ComputeTrendLine(ys).slope)
            + Miss(ys, a, b).0 + Miss(ys, a, b).1
  {
    hide Residuals, Deviation, CrossDeviation, IndexDeviation, Expanded, Square, Offset, Mean, MeanIndex;
    var xMean, yMean := MeanIndex(|ys|), Mean(ys);
    var dd := IndexDeviation(|ys|, xMean);
    var de := CrossDeviation(ys, xMean, yMean);
    DenominatorPositive(|ys|, xMean);
    ResidualsExpand(ys, a, b, xMean, yMean);
    MeansAreCentres(ys);
    Quotient(de, dd);
    var slope := ComputeTrendLine(ys).slope;
    assert de == dd * slope;
    CompleteSquare(a, Offset(a, b, xMean, yMean), |ys| as real, Deviation(ys, yMean), de, dd, slope);
  }

  /** Main result: no line has a smaller sum of squared residuals, and no other line has an equal one. */
  lemma LeastSquares(ys: seq<real>, a: real, b: real)
    requires |ys| >= 2
    ensures var t := ComputeTrendLine(ys);
            && Residuals(ys, t.slope, t.intercept) <= Residuals(ys, a, b)
            && (Residuals(ys, t.slope, t.intercept) == Residuals(ys, a, b) <==> a == t.slope && b == t.intercept)
  {
    hide Residuals, Deviation, IndexDeviation, Square, Miss, MeanIndex, Mean, ComputeTrendLine;
    var t := ComputeTrendLine(ys);
    ResidualsOf(ys, a, b);
    ResidualsOf(ys, t.slope, t.intercept);
  }

  lemma {:induction false} ResidualsNonNegative(ys: seq<real>, a: real, b: real)
    ensures Residuals(ys, a, b) >= 0.0
    ensures Residuals(ys, a, b) == 0.0 <==> forall i :: 0 <= i < |ys| ==> ys[i] == Line(a, b, i as real)
  {
    if ys != [] {
      hide Square, Line;
      var n := |ys| - 1;
      ResidualsNonNegative(ys[..n], a, b);
      SquareNonNegative(ys[n] - Line(a, b, n as real));
      if Residuals(ys, a, b) == 0.0 {
        forall i | 0 <= i < |ys| ensures ys[i] == Line(a, b, i as real) {
          if i < n { assert ys[..n][i] == ys[i]; }
        }
      }
    }
  }

  lemma {:induction false} DeviationIsFlatResiduals(ys: seq<real>, yMean: real)
    ensures Deviation(ys, yMean) == Residuals(ys, 0.0, yMean)
  {
    if ys != [] { DeviationIsFlatResiduals(ys[..|ys| - 1], yMean); }
  }

  lemma Share(part: real, whole: real)
    requires 0.0 <= part <= whole && whole > 0.0
    ensures 0.0 <= part / whole <= 1.0
    ensures part / whole == 0.0 <==> part == 0.0
  {
    Quotient(part, whole);
  }

  /** The coefficient of determination is a fraction; it is 1 exactly for a perfect non-constant line. */
  lemma R2IsFraction(ys: seq<real>)
    ensures var t := ComputeTrendLine(ys);
            && 0.0 <= t.r2 <= 1.0
            && (t.r2 == 1.0 <==>
                && (exists i, j :: 0 <= i < j < |ys| && ys[i] != ys[j])
                && (forall i :: 0 <= i < |ys| ==> ys[i] == Line(t.slope, t.intercept, i as real)))
  {
    if |ys| >= 2 {
      var t := ComputeTrendLine(ys);
      var yMean := Mean(ys);
      DeviationIsFlatResiduals(ys, yMean);
      ResidualsNonNegative(ys, 0.0, yMean);
      ResidualsNonNegative(ys, t.slope, t.intercept);
      LeastSquares(ys, 0.0, yMean);
      var ssTot := Deviation(ys, yMean);
      if ssTot != 0.0 {
        Share(Residuals(ys, t.slope, t.intercept), ssTot);
        NotConstant(ys, yMean);
      } else {
        assert forall i, j :: 0 <= i < j < |ys| ==> ys[i] == ys[j];
      }
    }
  }

  /** Fewer than two samples have no trend. */
  lemma NoTrend(ys: seq<real>)
    requires |ys| < 2
    ensures ComputeTrendLine(ys) == Trend(0.0, 0.0, 0.0)
  {
  }

  /** It is the squared correlation of the samples with their positions, or 0 for a constant series. */
  lemma R2IsSquaredCorrelation(ys: seq<real>)
    requires |ys| >= 2
    ensures var t, xMean, yMean := ComputeTrendLine(ys), MeanIndex(|ys|), Mean(ys);
            && (Deviation(ys, yMean) == 0.0 ==> t.r2 == 0.0)
            && (Deviation(ys, yMean) != 0.0 ==>
                  Product(t.r2, Product(IndexDeviation(|ys|, xMean), Deviation(ys, yMean))) == Square(CrossDeviation(ys, xMean, yMean)))
  {
    hide Residuals, Deviation, CrossDeviation, IndexDeviation, Mean, MeanIndex, Square;
    var t, xMean, yMean := ComputeTrendLine(ys), MeanIndex(|ys|), Mean(ys);
    var dd, de, tot := IndexDeviation(|ys|, xMean), CrossDeviation(ys, xMean, yMean), Deviation(ys, yMean);
    DenominatorPositive(|ys|, xMean);
    Quotient(de, dd);
    ResidualsOf(ys, t.slope, t.intercept);
    if tot != 0.0 { Correlation(t.r2, t.slope, Residuals(ys, t.slope, t.intercept), tot, dd, de); }
  }

  lemma Correlation(r2: real, slope: real, res: real, tot: real, dd: real, de: real)
    requires tot != 0.0 && r2 == 1.0 - res / tot && res == tot - dd * Square(slope) && de == dd * slope
    ensures Product(r2, Product(dd, tot)) == Square(de)
  {
    assert r2 * tot == tot - res == dd * (slope * slope);
    calc {
      r2 * (dd * tot);
    == dd * (r2 * tot);
    == dd * (dd * (slope * slope));
    == (dd * slope) * (dd * slope);
    }
  }

  /** A sample that leaves its own mean is not constant. */
  lemma NotConstant(ys: seq<real>, yMean: real)
    requires ys != [] && yMean == Mean(ys) && Deviation(ys, yMean) != 0.0
    ensures exists i, j :: 0 <= i < j < |ys| && ys[i] != ys[j]
  {
    if forall i, j :: 0 <= i < j < |ys| ==> ys[i] == ys[j] {
      forall i | 0 <= i < |ys| ensures ys[i] == ys[0] {}
      ConstantSum(ys, ys[0]);
      Quotient(Sum(ys), |ys| as real);
      assert |ys| as real * (yMean - ys[0]) == 0.0;
      assert yMean == ys[0];
      ResidualsNonNegative(ys, 0.0, yMean);
      DeviationIsFlatResiduals(ys, yMean);
    }
  }

  lemma {:induction false} ConstantSum(ys: seq<real>, y: real)
    requires forall i :: 0 <= i < |ys| ==> ys[i] == y
    ensures Sum(ys) == Multiple(|ys|, y)
  {
    if ys != [] {
      hide Multiple;
      ConstantSum(ys[..|ys| - 1], y);
      OneMore(|ys| - 1, y);
    }
  }
}
