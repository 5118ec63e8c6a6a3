/** The numpy / pandas reductions the metrics use, over exact reals: sum,
    mean, variance and covariance with a delta-degrees-of-freedom divisor,
    and the "linear" quantile. The square root is a parameter of every
    formula that uses one; SqrtLaw states what is assumed of it. */
module Stats {
  import opened ExtReal

  /** Sum of the elements, accumulated left to right. */
  function Sum(s: seq<real>): real
  {
    if |s| == 0 then 0.0 else Sum(s[..|s| - 1]) + s[|s| - 1]
  }

  predicate AllNonneg(s: seq<real>)
  {
    forall i :: 0 <= i < |s| ==> s[i] >= 0.0
  }

  /** Every element equals every other: zero spread. */
  predicate Constant(s: seq<real>)
  {
    forall i, j :: 0 <= i < |s| && 0 <= j < |s| ==> s[i] == s[j]
  }

  lemma {:induction false} SumNonneg(s: seq<real>)
    requires AllNonneg(s)
    ensures Sum(s) >= 0.0
  {
    if |s| > 0 {
      var init := s[..|s| - 1];
      assert forall i :: 0 <= i < |init| ==> init[i] == s[i];
      SumNonneg(init);
    }
  }

  /** A sum of non-negative terms is positive as soon as one term is. */
  lemma {:induction false} SumPositive(s: seq<real>, k: int)
    requires AllNonneg(s) && 0 <= k < |s| && s[k] > 0.0
    ensures Sum(s) > 0.0
  {
    var init := s[..|s| - 1];
    assert forall i :: 0 <= i < |init| ==> init[i] == s[i];
    if k == |s| - 1 {
      SumNonneg(init);
    } else {
      SumPositive(init, k);
    }
  }

  lemma {:induction false} SumConstant(s: seq<real>, c: real)
    requires forall i :: 0 <= i < |s| ==> s[i] == c
    ensures Sum(s) == |s| as real * c
  {
    if |s| > 0 {
      var init := s[..|s| - 1];
      assert forall i :: 0 <= i < |init| ==> init[i] == c by {
        forall i | 0 <= i < |init| ensures init[i] == c { assert init[i] == s[i]; }
      }
      SumConstant(init, c);
    }
  }

  /** pandas' Series.mean / np.mean: NaN for no values, otherwise the value
      whose |s|-fold is the sum. */
  function Mean(s: seq<real>): (r: Ext)
    ensures r.NaN? <==> |s| == 0
    ensures r.Fin? ==> r.v * |s| as real == Sum(s)
  {
    if |s| == 0 then NaN else Fin(Sum(s) / |s| as real)
  }

  /** A non-empty mean has the sign of the sum. */
  lemma MeanSign(s: seq<real>)
    requires |s| > 0
    ensures Mean(s).Fin?
    ensures Mean(s).v == 0.0 <==> Sum(s) == 0.0
    ensures Mean(s).v > 0.0 <==> Sum(s) > 0.0
    ensures Mean(s).v < 0.0 <==> Sum(s) < 0.0
  {
    var n := |s| as real;
    var m := Sum(s) / n;
    if Sum(s) > 0.0 {
      DivPos(Sum(s), n);
    } else if Sum(s) < 0.0 {
      DivPos(-Sum(s), n);
      assert -Sum(s) / n == -m;
    }
  }

  lemma DivPos(a: real, b: real)
    requires a > 0.0 && b > 0.0
    ensures a / b > 0.0
  {
  }

  function Squares(s: seq<real>): (r: seq<real>)
    ensures |r| == |s| && AllNonneg(r)
  {
    assert forall i :: 0 <= i < |s| ==> Sq(s[i]) >= 0.0 by {
      forall i | 0 <= i < |s| ensures Sq(s[i]) >= 0.0 { SquarePos(s[i]); }
    }
    seq(|s|, i requires 0 <= i < |s| => Sq(s[i]))
  }

  function Centered(s: seq<real>, m: real): (r: seq<real>)
    ensures |r| == |s|
  {
    seq(|s|, i requires 0 <= i < |s| => s[i] - m)
  }

  function Products(a: seq<real>, b: seq<real>): (r: seq<real>)
    requires |a| == |b|
    ensures |r| == |a|
  {
    seq(|a|, i requires 0 <= i < |a| => a[i] * b[i])
  }

  /** Sum of squared deviations of s from m. */
  function SqDev(s: seq<real>, m: real): (r: real)
    ensures r >= 0.0
  {
    SumNonneg(Squares(Centered(s, m)));
    Sum(Squares(Centered(s, m)))
  }

  function Id(x: real): real { x }

  /** x squared. The product is written x * Id(x) so that the solver keeps it
      a product of two terms instead of rewriting it into a power, which it
      then reasons about poorly. */
  function Sq(x: real): real { x * Id(x) }

  /** A square is non-negative, positive away from zero, and zero at zero. */
  lemma SquarePos(x: real)
    ensures Sq(x) >= 0.0
    ensures x != 0.0 ==> Sq(x) > 0.0
    ensures x == 0.0 ==> Sq(x) == 0.0
  {
    if x > 0.0 {
      MulPos(x, Id(x));
    } else if x < 0.0 {
      MulPos(-x, -Id(x));
      assert (-x) * (-Id(x)) == x * Id(x);
    }
  }

  /** Squares of a series that is zero everywhere sum to zero. */
  lemma {:induction false} SumSquaresZero(s: seq<real>)
    requires forall i :: 0 <= i < |s| ==> s[i] == 0.0
    ensures Sum(Squares(s)) == 0.0
  {
    if |s| > 0 {
      var init := s[..|s| - 1];
      assert Squares(s)[..|s| - 1] == Squares(init);
      SumSquaresZero(init);
      SquarePos(s[|s| - 1]);
    }
  }

  /** Squares of a series sum to zero exactly when it is zero everywhere. */
  lemma SumSquaresZeroIff(s: seq<real>)
    ensures Sum(Squares(s)) >= 0.0
    ensures Sum(Squares(s)) == 0.0 <==> forall i :: 0 <= i < |s| ==> s[i] == 0.0
  {
    SumNonneg(Squares(s));
    if forall i :: 0 <= i < |s| ==> s[i] == 0.0 {
      SumSquaresZero(s);
    } else {
      var k :| 0 <= k < |s| && s[k] != 0.0;
      SquarePos(s[k]);
      SumPositive(Squares(s), k);
    }
  }

  lemma SqDevZero(s: seq<real>, m: real)
    ensures SqDev(s, m) == 0.0 <==> forall i :: 0 <= i < |s| ==> s[i] == m
  {
    var d := Centered(s, m);
    SumSquaresZeroIff(d);
    assert forall i :: 0 <= i < |s| ==> (s[i] == m <==> d[i] == 0.0);
  }

  /** Variance with divisor |s| - ddof: np.var (ddof 0) and pandas'
      Series.var / Series.std (ddof 1). NaN when |s| <= ddof. */
  function Variance(s: seq<real>, ddof: nat): (r: Ext)
    ensures r.NaN? <==> |s| <= ddof
    ensures r.Fin? ==> r.v >= 0.0
  {
    if |s| <= ddof then NaN
    else Fin(SqDev(s, Sum(s) / |s| as real) / (|s| - ddof) as real)
  }

  /** The variance is zero exactly for a series with no spread. */
  lemma VarianceZero(s: seq<real>, ddof: nat)
    requires |s| > ddof
    ensures Variance(s, ddof).Fin?
    ensures Variance(s, ddof).v == 0.0 <==> Constant(s)
  {
    var n := |s| as real;
    var m := Sum(s) / n;
    SqDevZero(s, m);
    if Constant(s) {
      SumConstant(s, s[0]);
      assert m == s[0];
      assert forall i :: 0 <= i < |s| ==> s[i] == m;
    }
    if Variance(s, ddof).v == 0.0 {
      assert SqDev(s, m) == 0.0;
    }
  }

  /** Covariance of paired samples with divisor |a| - ddof: np.cov(a, b)[0][1]
      uses ddof 1. */
  function Covariance(a: seq<real>, b: seq<real>, ddof: nat): (r: Ext)
    requires |a| == |b|
    ensures r.NaN? <==> |a| <= ddof
  {
    if |a| <= ddof then NaN
    else
      var n := |a| as real;
      Fin(Sum(Products(Centered(a, Sum(a) / n), Centered(b, Sum(b) / n))) / (|a| - ddof) as real)
  }

  /** A series' covariance with itself is its variance, divisor for divisor. */
  lemma CovarianceSelf(a: seq<real>, ddof: nat)
    ensures Covariance(a, a, ddof) == Variance(a, ddof)
  {
    if |a| > ddof {
      var c := Centered(a, Sum(a) / |a| as real);
      assert forall i :: 0 <= i < |c| ==> Products(c, c)[i] == Squares(c)[i];
      assert Products(c, c) == Squares(c);
    }
  }

  /** The square root the formulas are given: non-negative, and squaring it
      gives back its argument. */
  ghost predicate SqrtLaw(sqrt: real -> real)
  {
    forall x :: x >= 0.0 ==> sqrt(x) >= 0.0 && Sq(sqrt(x)) == x
  }

  lemma SqrtZero(sqrt: real -> real, x: real)
    requires SqrtLaw(sqrt) && x >= 0.0
    ensures sqrt(x) >= 0.0
    ensures sqrt(x) == 0.0 <==> x == 0.0
  {
    SquarePos(sqrt(x));
  }

  /** np.sqrt lifted to float64 values: NaN below zero and for NaN. */
  function SqrtExt(sqrt: real -> real, a: Ext): Ext
  {
    match a
    case Fin(x) => if x < 0.0 then NaN else Fin(sqrt(x))
    case PosInf => PosInf
    case NegInf => NaN
    case NaN => NaN
  }

  /** Standard deviation with divisor |s| - ddof. */
  function Std(s: seq<real>, ddof: nat, sqrt: real -> real): (r: Ext)
    ensures r.NaN? <==> |s| <= ddof
  {
    SqrtExt(sqrt, Variance(s, ddof))
  }

  /** Given a lawful square root, the standard deviation is defined from
      ddof + 1 values on, non-negative, and zero exactly for no spread. */
  lemma StdZero(s: seq<real>, ddof: nat, sqrt: real -> real)
    requires SqrtLaw(sqrt) && |s| > ddof
    ensures Std(s, ddof, sqrt).Fin? && Std(s, ddof, sqrt).v >= 0.0
    ensures Std(s, ddof, sqrt).v == 0.0 <==> Constant(s)
  {
    VarianceZero(s, ddof);
    SqrtZero(sqrt, Variance(s, ddof).v);
  }

  predicate Sorted(s: seq<real>)
  {
    forall i, j :: 0 <= i < j < |s| ==> s[i] <= s[j]
  }

  function Insert(x: real, s: seq<real>): (r: seq<real>)
    requires Sorted(s)
    ensures Sorted(r) && multiset(r) == multiset(s) + multiset{x}
    ensures |r| == |s| + 1 && (r[0] == x || (|s| > 0 && r[0] == s[0]))
  {
    if |s| == 0 then [x]
    else if x <= s[0] then [x] + s
    else
      assert s == [s[0]] + s[1..];
      [s[0]] + Insert(x, s[1..])
  }

  /** Insertion sort: an ascending permutation of s. */
  function Sort(s: seq<real>): (r: seq<real>)
    ensures Sorted(r) && multiset(r) == multiset(s) && |r| == |s|
  {
    if |s| == 0 then []
    else
      assert s == [s[0]] + s[1..];
      Insert(s[0], Sort(s[1..]))
  }

  /** The virtual position (n - 1) * q of the linear quantile, split into
      the index below it and the fraction beyond that index. */
  function Position(n: nat, q: real): real
  {
    (n - 1) as real * q
  }

  function Lower(n: nat, q: real): (lo: nat)
    requires n > 0 && 0.0 <= q <= 1.0
    ensures lo < n && lo as real <= Position(n, q) < lo as real + 1.0
  {
    var k := (n - 1) as real;
    MulNonneg(k, q);
    MulNonneg(k, 1.0 - q);
    assert k * (1.0 - q) == k - k * q;
    Position(n, q).Floor
  }

  function Fraction(n: nat, q: real): (f: real)
    requires n > 0 && 0.0 <= q <= 1.0
    ensures 0.0 <= f < 1.0
  {
    Position(n, q) - Lower(n, q) as real
  }

  /** Linear interpolation from a towards b by the fraction f. */
  function Lerp(a: real, b: real, f: real): real
  {
    a + f * (b - a)
  }

  lemma LerpBetween(a: real, b: real, f: real)
    requires a <= b && 0.0 <= f <= 1.0
    ensures a <= Lerp(a, b, f) <= b
  {
    MulNonneg(f, b - a);
    MulNonneg(1.0 - f, b - a);
    assert (1.0 - f) * (b - a) == (b - a) - f * (b - a);
  }

  lemma MulPos(a: real, b: real)
    requires a > 0.0 && b > 0.0
    ensures a * b > 0.0
  {
  }

  lemma MulNonneg(a: real, b: real)
    requires a >= 0.0 && b >= 0.0
    ensures a * b >= 0.0
  {
  }

  /** pandas' Series.quantile(q) with the default "linear" interpolation:
      the value at virtual position (n - 1) * q of the sorted values,
      interpolated between its two neighbours. */
  function Quantile(s: seq<real>, q: real): (r: Ext)
    requires 0.0 <= q <= 1.0
    ensures r.NaN? <==> |s| == 0
    ensures r.Fin? || r.NaN?
  {
    if |s| == 0 then NaN
    else
      var t := Sort(s);
      var lo := Lower(|t|, q);
      var hi := if lo + 1 < |t| then lo + 1 else lo;
      Fin(Lerp(t[lo], t[hi], Fraction(|t|, q)))
  }

  /** The quantile lies between the smallest and the largest value. */
  lemma QuantileBetween(s: seq<real>, q: real)
    requires 0.0 <= q <= 1.0 && |s| > 0
    ensures Quantile(s, q).Fin?
    ensures exists i :: 0 <= i < |s| && s[i] <= Quantile(s, q).v
    ensures exists j :: 0 <= j < |s| && Quantile(s, q).v <= s[j]
  {
    var t := Sort(s);
    var lo := Lower(|t|, q);
    var hi := if lo + 1 < |t| then lo + 1 else lo;
    LerpBetween(t[lo], t[hi], Fraction(|t|, q));
    assert t[lo] in multiset(s) && t[hi] in multiset(s);
    var i :| 0 <= i < |s| && s[i] == t[lo];
    var j :| 0 <= j < |s| && s[j] == t[hi];
  }

  /** A quotient by a positive number, scaled by a positive number, keeps the
      sign of the numerator. */
  lemma ScaledQuotientSign(e: real, d: real, k: real)
    requires d > 0.0 && k > 0.0
    ensures e / d * k > 0.0 <==> e > 0.0
    ensures e / d * k < 0.0 <==> e < 0.0
  {
    if e > 0.0 {
      DivPos(e, d);
      MulPos(e / d, k);
    } else if e < 0.0 {
      DivPos(-e, d);
      assert -e / d == -(e / d);
      MulPos(-(e / d), k);
      assert -(e / d) * k == -(e / d * k);
    }
  }

  lemma QuotientOfQuotients(x: real, a: real, b: real)
    requires x != 0.0 && a != 0.0 && b != 0.0
    ensures (x / a) / (x / b) == b / a
  {
  }

  /** Sample variance over population variance is n / (n - 1) for any
      series with spread. */
  lemma VarianceRatio(s: seq<real>)
    requires |s| >= 2 && !Constant(s)
    ensures Variance(s, 0).Fin? && Variance(s, 1).Fin? && Variance(s, 0).v != 0.0
    ensures Variance(s, 1).v / Variance(s, 0).v == |s| as real / (|s| - 1) as real
  {
    VarianceZero(s, 0);
    var d := SqDev(s, Sum(s) / |s| as real);
    assert d != 0.0;
    QuotientOfQuotients(d, (|s| - 1) as real, |s| as real);
  }
}
