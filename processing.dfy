/** The return and risk formulas of the portfolio simulator: cumulative
    returns from prices, the running peak and maximum drawdown, annual
    volatility, the Sharpe and Sortino ratios, value at risk, tracking error,
    the information ratio, and alpha and beta against a benchmark.

    A series of returns is a sequence of optional reals, None standing for
    pandas' NaN; every reduction skips the missing entries, as pandas'
    skipna does. A price series is a sequence of reals. Results are float64
    values (Ext), so that the unguarded divisions produce the infinities and
    NaNs that numpy produces. */
module Processing {
  import opened Wrappers
  import opened ExtReal
  import opened Stats

  /** Trading days in a year, the annualisation factor. */
  const TradingDays: real := 252.0
  const DefaultRiskFree: real := 0.01
  const DefaultConfidence: real := 0.95
  const DefaultPeriod: real := 252.0

  /** The values of a series that are not NaN, in order. */
  function Present(s: seq<Option<real>>): (r: seq<real>)
    ensures |r| <= |s|
    ensures |r| == 0 <==> forall i :: 0 <= i < |s| ==> s[i].None?
  {
    if |s| == 0 then []
    else
      var init := s[..|s| - 1];
      assert s == init + [s[|s| - 1]];
      match s[|s| - 1]
      case None =>
        Present(init)
      case Some(x) =>
        Present(init) + [x]
  }

  /** Present keeps exactly the values that are there. */
  lemma {:induction false} PresentMembers(s: seq<Option<real>>, x: real)
    ensures x in Present(s) <==> Some(x) in s
  {
    if |s| > 0 {
      var init := s[..|s| - 1];
      assert s == init + [s[|s| - 1]];
      PresentMembers(init, x);
    }
  }

  // ---------------------------------------------------------------------
  // Cumulative returns

  /** A series of exact prices as float64 values. */
  function Floats(x: seq<real>): (s: seq<Ext>)
    ensures |s| == |x|
  {
    seq(|x|, i requires 0 <= i < |x| => Fin(x[i]))
  }

  /** The float64 change from a to b: b / a - 1. */
  function Change(a: Ext, b: Ext): (r: Ext)
    ensures a.Fin? && b.Fin? && a.v != 0.0 ==> r == Fin(b.v / a.v - 1.0)
    ensures a.NaN? || b.NaN? ==> r == NaN
  {
    Sub(Div(b, a), Fin(1.0))
  }

  /** The last value of s up to position i that is not NaN, NaN when there
      is none: Series.ffill() at position i. */
  function LastValid(s: seq<Ext>, i: nat): Ext
    requires i < |s|
  {
    if !s[i].NaN? then s[i] else if i == 0 then NaN else LastValid(s, i - 1)
  }

  /** The forward fill is NaN exactly before the first value, and otherwise
      is the latest value at or before i, every later point up to i being
      NaN. */
  lemma {:induction false} LastValidSpec(s: seq<Ext>, i: nat)
    requires i < |s|
    ensures LastValid(s, i).NaN? <==> forall j :: 0 <= j <= i ==> s[j].NaN?
    ensures !LastValid(s, i).NaN? ==>
      exists j :: 0 <= j <= i && s[j] == LastValid(s, i) && forall k :: j < k <= i ==> s[k].NaN?
  {
    if s[i].NaN? && i > 0 {
      LastValidSpec(s, i - 1);
      if !LastValid(s, i).NaN? {
        var j :| 0 <= j <= i - 1 && s[j] == LastValid(s, i - 1) &&
          forall k :: j < k <= i - 1 ==> s[k].NaN?;
        assert forall k :: j < k <= i ==> s[k].NaN?;
      }
    }
  }

  /** Series.pct_change() with its default forward fill: NaN first, then
      the change from each filled value to the next. */
  function PctChange(s: seq<Ext>): (r: seq<Ext>)
    ensures |r| == |s|
  {
    seq(|s|, i requires 0 <= i < |s| =>
      if i == 0 then NaN else Change(LastValid(s, i - 1), LastValid(s, i)))
  }

  /** Series.fillna(v): every NaN becomes v, every other value stays. */
  function FillNa(s: seq<Ext>, v: real): (r: seq<Ext>)
    ensures |r| == |s|
    ensures forall i :: 0 <= i < |s| ==> !r[i].NaN?
    ensures forall i :: 0 <= i < |s| && !s[i].NaN? ==> r[i] == s[i]
  {
    seq(|s|, i requires 0 <= i < |s| => if s[i].NaN? then Fin(v) else s[i])
  }

  /** (1 + r).cumprod() at position i: the product of the growth factors
      1 + r[j] for j <= i. */
  function Growth(r: seq<Ext>, i: nat): Ext
    requires i < |r|
  {
    var f := Add(Fin(1.0), r[i]);
    if i == 0 then f else Mul(Growth(r, i - 1), f)
  }

  /** (1 + r).cumprod() - 1: the return compounded up to each position. */
  function CompoundedReturns(r: seq<Ext>): (c: seq<Ext>)
    ensures |c| == |r|
  {
    seq(|r|, i requires 0 <= i < |r| => Sub(Growth(r, i), Fin(1.0)))
  }

  /** The filled daily changes of a series: pct_change().fillna(0). */
  function FilledChanges(s: seq<Ext>): (r: seq<Ext>)
    ensures |r| == |s|
    ensures |s| > 0 ==> r[0] == Fin(0.0)
  {
    FillNa(PctChange(s), 0.0)
  }

  /** calculate_cumulative_returns, on the series it is given: pct_change
      (forward-filling NaN), the NaN changes filled with 0, then
      compounded. */
  function CumulativeReturns(s: seq<Ext>): (c: seq<Ext>)
    ensures |c| == |s|
    ensures |s| > 0 ==> c[0] == Fin(0.0)
  {
    CompoundedReturns(FilledChanges(s))
  }

  predicate AllFinite(s: seq<Ext>)
  {
    forall i :: 0 <= i < |s| ==> s[i].Fin?
  }

  /** Adding one back to a value less one gives the value, for every
      float64 value including the infinities and NaN. */
  lemma OnePlusLessOne(g: Ext)
    ensures Add(Fin(1.0), Sub(g, Fin(1.0))) == g
  {
  }

  /** The compounding recurrence, in float64 arithmetic: the first growth
      factor 1 + c[0] is 1 + r[0], and each later growth factor 1 + c[i] is
      the previous one times 1 + r[i]. */
  lemma CompoundedStep(r: seq<Ext>, i: nat)
    requires i < |r|
    ensures i == 0 ==> Add(Fin(1.0), CompoundedReturns(r)[0]) == Add(Fin(1.0), r[0])
    ensures i > 0 ==>
      Add(Fin(1.0), CompoundedReturns(r)[i]) ==
      Mul(Add(Fin(1.0), CompoundedReturns(r)[i - 1]), Add(Fin(1.0), r[i]))
  {
    var c := CompoundedReturns(r);
    OnePlusLessOne(Growth(r, i));
    if i > 0 {
      OnePlusLessOne(Growth(r, i - 1));
      assert Add(Fin(1.0), c[i - 1]) == Growth(r, i - 1);
    }
  }

  lemma RatioChain(a: real, b: real, c: real)
    requires a != 0.0 && b != 0.0
    ensures (b / a) * (c / b) == c / a
  {
  }

  lemma RatioProduct(a: real, b: real, c: real)
    requires a != 0.0 && b != 0.0
    ensures Mul(Fin(b / a), Fin(c / b)) == Fin(c / a)
  {
    RatioChain(a, b, c);
  }

  /** s is NaN before position k and a non-zero number from k on. */
  predicate ValidFrom(s: seq<Ext>, k: nat)
  {
    k < |s| &&
    (forall j :: 0 <= j < k ==> s[j].NaN?) &&
    (forall j :: k <= j < |s| ==> s[j].Fin? && s[j].v != 0.0)
  }

  lemma {:induction false} LastValidFrom(s: seq<Ext>, k: nat, i: nat)
    requires ValidFrom(s, k) && i < |s|
    ensures i < k ==> LastValid(s, i) == NaN
    ensures i >= k ==> LastValid(s, i) == s[i]
  {
    if i < k && i > 0 {
      LastValidFrom(s, k, i - 1);
    }
  }

  /** The filled changes of such a series: 0 up to position k, then the
      change from each value to the next. */
  lemma FilledChangeFrom(s: seq<Ext>, k: nat, i: nat)
    requires ValidFrom(s, k) && i < |s|
    ensures i <= k ==> FilledChanges(s)[i] == Fin(0.0)
    ensures i > k ==> FilledChanges(s)[i] == Fin(s[i].v / s[i - 1].v - 1.0)
  {
    LastValidFrom(s, k, i);
    if i > 0 {
      LastValidFrom(s, k, i - 1);
      assert PctChange(s)[i] == Change(LastValid(s, i - 1), LastValid(s, i));
    }
  }

  /** Growth factors of zero returns are 1. */
  lemma {:induction false} GrowthOnes(r: seq<Ext>, i: nat)
    requires i < |r| && forall j :: 0 <= j <= i ==> r[j] == Fin(0.0)
    ensures Growth(r, i) == Fin(1.0)
  {
    if i > 0 {
      GrowthOnes(r, i - 1);
      GrowthOneStep(r, i);
    }
  }

  /** One compounding step of a zero return keeps a growth factor of 1. */
  lemma GrowthOneStep(r: seq<Ext>, i: nat)
    requires 0 < i < |r| && Growth(r, i - 1) == Fin(1.0) && r[i] == Fin(0.0)
    ensures Growth(r, i) == Fin(1.0)
  {
    assert Add(Fin(1.0), r[i]) == Fin(1.0);
  }

  /** From a growth factor of 1 at k, the changes between non-zero values of
      s compound to the value relative to the one at k. */
  lemma {:induction false} GrowthRelative(r: seq<Ext>, s: seq<Ext>, k: nat, i: nat)
    requires k <= i < |r| == |s|
    requires forall j :: k <= j < |s| ==> s[j].Fin? && s[j].v != 0.0
    requires forall j :: k < j <= i ==> r[j] == Fin(s[j].v / s[j - 1].v - 1.0)
    requires Growth(r, k) == Fin(1.0)
    ensures Growth(r, i) == Fin(s[i].v / s[k].v)
  {
    if i == k {
      DivSelf(s[k].v);
    } else {
      GrowthRelative(r, s, k, i - 1);
      GrowthRatioStep(r, i, s[k].v, s[i - 1].v, s[i].v);
    }
  }

  /** One compounding step of price relatives: b / a times c / b is c / a. */
  lemma GrowthRatioStep(r: seq<Ext>, i: nat, a: real, b: real, c: real)
    requires 0 < i < |r| && a != 0.0 && b != 0.0
    requires Growth(r, i - 1) == Fin(b / a) && r[i] == Fin(c / b - 1.0)
    ensures Growth(r, i) == Fin(c / a)
  {
    assert Add(Fin(1.0), r[i]) == Fin(c / b);
    RatioProduct(a, b, c);
  }

  /** The cumulative return of a series that is NaN before position k and
      non-zero from there: 0 up to k, then the value relative to the one at
      k, minus 1. */
  lemma CumulativeFrom(s: seq<Ext>, k: nat, i: nat)
    requires ValidFrom(s, k) && i < |s|
    ensures i <= k ==> CumulativeReturns(s)[i] == Fin(0.0)
    ensures i >= k ==> CumulativeReturns(s)[i] == Fin(s[i].v / s[k].v - 1.0)
  {
    var r := FilledChanges(s);
    FilledChangesFrom(s, k);
    GrowthFrom(r, s, k, i);
    CompoundedAt(r, i);
  }

  lemma CompoundedAt(r: seq<Ext>, i: nat)
    requires i < |r|
    ensures Growth(r, i).Fin? ==> CompoundedReturns(r)[i] == Fin(Growth(r, i).v - 1.0)
  {
  }

  /** The filled changes of such a series: 0 up to k, then the ratio of
      consecutive values, minus 1. */
  lemma FilledChangesFrom(s: seq<Ext>, k: nat)
    requires ValidFrom(s, k)
    ensures forall j :: 0 <= j <= k ==> FilledChanges(s)[j] == Fin(0.0)
    ensures forall j :: k < j < |s| ==> FilledChanges(s)[j] == Fin(s[j].v / s[j - 1].v - 1.0)
  {
    forall j | 0 <= j < |s|
      ensures j <= k ==> FilledChanges(s)[j] == Fin(0.0)
      ensures j > k ==> FilledChanges(s)[j] == Fin(s[j].v / s[j - 1].v - 1.0)
    {
      FilledChangeFrom(s, k, j);
    }
  }

  /** Zero changes up to k and then the changes of s compound to a growth
      factor of 1 up to k and to the value relative to the one at k after. */
  lemma GrowthFrom(r: seq<Ext>, s: seq<Ext>, k: nat, i: nat)
    requires k < |r| == |s| && i < |r|
    requires forall j :: k <= j < |s| ==> s[j].Fin? && s[j].v != 0.0
    requires forall j :: 0 <= j <= k ==> r[j] == Fin(0.0)
    requires forall j :: k < j < |s| ==> r[j] == Fin(s[j].v / s[j - 1].v - 1.0)
    ensures i <= k ==> Growth(r, i) == Fin(1.0)
    ensures i >= k ==> Growth(r, i) == Fin(s[i].v / s[k].v)
  {
    GrowthOnes(r, if i <= k then i else k);
    if i >= k {
      GrowthRelative(r, s, k, i);
    }
  }

  /** For prices that are never zero the cumulative return telescopes: at
      each position it is the price relative to the first price, minus 1. */
  lemma CumulativeTelescopes(x: seq<real>, i: nat)
    requires forall j :: 0 <= j < |x| ==> x[j] != 0.0
    requires i < |x|
    ensures CumulativeReturns(Floats(x))[i] == Fin(x[i] / x[0] - 1.0)
  {
    CumulativeFrom(Floats(x), 0, i);
  }

  /** As written, main.py hands the function a return series whose first
      value is NaN: the first two cumulative values are 0, and each later
      one is the return relative to the second return, minus 1. */
  lemma CumulativeOfNaNLed(s: seq<Ext>, i: nat)
    requires |s| >= 2 && s[0].NaN? && i < |s|
    requires forall j :: 1 <= j < |s| ==> s[j].Fin? && s[j].v != 0.0
    ensures CumulativeReturns(s)[0] == Fin(0.0) && CumulativeReturns(s)[1] == Fin(0.0)
    ensures i >= 1 ==> CumulativeReturns(s)[i] == Fin(s[i].v / s[1].v - 1.0)
  {
    assert ValidFrom(s, 1);
    CumulativeFrom(s, 1, 0);
    CumulativeFrom(s, 1, 1);
    CumulativeFrom(s, 1, i);
  }

  /** Corrected: the returns themselves compounded, a NaN return counting
      as 0. */
  function CumulativeOfReturns(r: seq<Ext>): (c: seq<Ext>)
    ensures |c| == |r|
  {
    CompoundedReturns(FillNa(r, 0.0))
  }

  /** The corrected series compounds: 1 + c[0] is the first growth factor,
      and 1 + c[i] is 1 + c[i - 1] times 1 + r[i] for a return that is
      there. */
  lemma CumulativeOfReturnsStep(r: seq<Ext>, i: nat)
    requires i < |r|
    ensures i == 0 ==> Add(Fin(1.0), CumulativeOfReturns(r)[0]) == Add(Fin(1.0), FillNa(r, 0.0)[0])
    ensures i > 0 && !r[i].NaN? ==>
      Add(Fin(1.0), CumulativeOfReturns(r)[i]) ==
      Mul(Add(Fin(1.0), CumulativeOfReturns(r)[i - 1]), Add(Fin(1.0), r[i]))
    ensures i > 0 && r[i].NaN? ==> CumulativeOfReturns(r)[i] == CumulativeOfReturns(r)[i - 1]
  {
    var f := FillNa(r, 0.0);
    CompoundedStep(f, i);
    if i > 0 && r[i].NaN? {
      var c := CumulativeOfReturns(r);
      GrowthTimesOne(Growth(f, i - 1));
      assert Growth(f, i) == Mul(Growth(f, i - 1), Fin(1.0));
    }
  }

  /** Multiplying by 1 leaves every float64 value as it is. */
  lemma GrowthTimesOne(g: Ext)
    ensures Mul(g, Fin(1.0)) == g
  {
  }

  // ---------------------------------------------------------------------
  // Running peak and maximum drawdown

  /** The largest finite value of s, NaN when there is none. A pandas
      window operation treats +-inf as missing, so only finite values can
      be the peak. */
  function Peak(s: seq<Ext>): (p: Ext)
    ensures p.Fin? || p.NaN?
    ensures p.NaN? <==> forall j :: 0 <= j < |s| ==> !s[j].Fin?
    ensures p.Fin? ==> forall j :: 0 <= j < |s| && s[j].Fin? ==> s[j].v <= p.v
    ensures p.Fin? ==> p in s
  {
    if |s| == 0 then NaN
    else
      var init := s[..|s| - 1];
      var p := Peak(init);
      var x := s[|s| - 1];
      assert s == init + [x];
      if !x.Fin? then p
      else if p.NaN? || x.v > p.v then x
      else p
  }

  /** cumulative_returns.expanding(min_periods=1).max(). */
  function RunningPeak(c: seq<Ext>): (p: seq<Ext>)
    ensures |p| == |c|
  {
    seq(|c|, i requires 0 <= i < |c| => Peak(c[..i + 1]))
  }

  /** The running peak is at least the current finite value, is one of the
      values seen so far, and never decreases. */
  lemma RunningPeakProperties(c: seq<Ext>, i: nat, j: nat)
    requires i <= j < |c|
    ensures c[i].Fin? ==> RunningPeak(c)[i].Fin? && c[i].v <= RunningPeak(c)[i].v
    ensures RunningPeak(c)[i].Fin? ==> exists k :: 0 <= k <= i && c[k] == RunningPeak(c)[i]
    ensures RunningPeak(c)[i].Fin? ==>
      RunningPeak(c)[j].Fin? && RunningPeak(c)[i].v <= RunningPeak(c)[j].v
  {
    var p := RunningPeak(c);
    assert c[i] == c[..i + 1][i];
    if p[i].Fin? {
      var k :| 0 <= k < i + 1 && c[..i + 1][k] == p[i];
      assert c[k] == p[i];
      assert c[..j + 1][k] == c[k];
    }
  }

  /** (cumulative_returns - peak) / peak, pointwise. */
  function Drawdowns(c: seq<Ext>): (d: seq<Ext>)
    ensures |d| == |c|
  {
    var p := RunningPeak(c);
    seq(|c|, i requires 0 <= i < |c| => Div(Sub(c[i], p[i]), p[i]))
  }

  /** Series.min(): the smallest value that is not NaN (infinities count),
      NaN when every value is NaN. */
  function MinSkipNaN(s: seq<Ext>): (m: Ext)
    ensures m.NaN? <==> forall i :: 0 <= i < |s| ==> s[i].NaN?
    ensures !m.NaN? ==> m in s && forall i :: 0 <= i < |s| && !s[i].NaN? ==> Le(m, s[i])
  {
    if |s| == 0 then NaN
    else
      var init := s[..|s| - 1];
      var m := MinSkipNaN(init);
      var x := s[|s| - 1];
      assert s == init + [x];
      if x.NaN? then m
      else if m.NaN? || Le(x, m) then x
      else m
  }

  /** calculate_maximum_drawdown. */
  function MaxDrawdown(c: seq<Ext>): Ext
  {
    MinSkipNaN(Drawdowns(c))
  }

  lemma DivNonpos(a: real, b: real)
    requires a <= 0.0 && b > 0.0
    ensures a / b <= 0.0
  {
  }

  /** The drawdown of a finite value x below a non-negative peak p >= x:
      at most 0 when p > 0; when p = 0, NaN (x = 0) or -inf (x < 0). */
  lemma DrawdownBelowPeak(x: Ext, p: Ext)
    requires x.Fin? && p.Fin? && x.v <= p.v && p.v >= 0.0
    ensures Div(Sub(x, p), p).NaN? || Le(Div(Sub(x, p), p), Fin(0.0))
    ensures p.v > 0.0 ==> Div(Sub(x, p), p).Fin? && Div(Sub(x, p), p).v <= 0.0
  {
    assert Sub(x, p) == Fin(x.v - p.v);
    if p.v > 0.0 {
      DivNonpos(x.v - p.v, p.v);
    }
  }

  /** Below a non-negative peak a finite point's drawdown is at most 0 or
      undefined. */
  lemma DrawdownSign(c: seq<Ext>, i: nat)
    requires i < |c| && c[i].Fin?
    requires RunningPeak(c)[i].v >= 0.0
    ensures Drawdowns(c)[i].NaN? || Le(Drawdowns(c)[i], Fin(0.0))
    ensures RunningPeak(c)[i].v > 0.0 ==>
      Drawdowns(c)[i].Fin? && Drawdowns(c)[i].v <= 0.0
  {
    RunningPeakProperties(c, i, i);
    DrawdownBelowPeak(c[i], RunningPeak(c)[i]);
  }

  /** Over finite values starting at a non-negative one (as cumulative
      returns start at 0), the maximum drawdown is undefined or at most 0. */
  lemma MaxDrawdownNonpos(c: seq<Ext>)
    requires AllFinite(c) && |c| > 0 && c[0].v >= 0.0
    ensures MaxDrawdown(c).NaN? || Le(MaxDrawdown(c), Fin(0.0))
  {
    var d := Drawdowns(c);
    var m := MaxDrawdown(c);
    if !m.NaN? {
      var i :| 0 <= i < |d| && d[i] == m;
      RunningPeakProperties(c, 0, i);
      DrawdownSign(c, i);
    }
  }

  /** For prices that are never zero, the maximum drawdown of the
      cumulative returns is NaN or at most 0. */
  lemma MaxDrawdownOfPrices(x: seq<real>)
    requires |x| > 0 && forall j :: 0 <= j < |x| ==> x[j] != 0.0
    ensures MaxDrawdown(CumulativeReturns(Floats(x))).NaN? ||
      Le(MaxDrawdown(CumulativeReturns(Floats(x))), Fin(0.0))
  {
    var c := CumulativeReturns(Floats(x));
    forall i | 0 <= i < |c| ensures c[i].Fin? {
      CumulativeTelescopes(x, i);
    }
    MaxDrawdownNonpos(c);
  }

  /** The wealth path 1 + c of cumulative returns c. */
  function Wealth(c: seq<Ext>): (w: seq<Ext>)
    ensures |w| == |c|
  {
    seq(|c|, i requires 0 <= i < |c| => Add(Fin(1.0), c[i]))
  }

  /** Corrected maximum drawdown: taken on wealth rather than on the
      cumulative return itself. */
  function WealthMaxDrawdown(c: seq<Ext>): Ext
  {
    MaxDrawdown(Wealth(c))
  }

  lemma DrawdownRange(w: real, p: real)
    requires 0.0 < w <= p
    ensures -1.0 < (w - p) / p <= 0.0
  {
    DivPos(w, p);
    DivNonpos(w - p, p);
    DivSelf(p);
    assert (w - p) / p == w / p - p / p;
  }

  /** Over a positive path the maximum drawdown is a loss of less than
      100%. */
  lemma MaxDrawdownOfPositive(w: seq<Ext>)
    requires |w| > 0 && forall i :: 0 <= i < |w| ==> w[i].Fin? && w[i].v > 0.0
    ensures MaxDrawdown(w).Fin? && -1.0 < MaxDrawdown(w).v <= 0.0
  {
    var d := Drawdowns(w);
    var p := RunningPeak(w);
    forall i | 0 <= i < |w| ensures d[i].Fin? && -1.0 < d[i].v <= 0.0 {
      RunningPeakProperties(w, i, i);
      assert Sub(w[i], p[i]) == Fin(w[i].v - p[i].v);
      DrawdownRange(w[i].v, p[i].v);
    }
    assert !d[0].NaN?;
    var m := MaxDrawdown(w);
    var k :| 0 <= k < |d| && d[k] == m;
  }

  /** For positive prices the corrected drawdown lies in (-1, 0]. */
  lemma WealthMaxDrawdownBounds(x: seq<real>)
    requires |x| > 0 && forall j :: 0 <= j < |x| ==> x[j] > 0.0
    ensures WealthMaxDrawdown(CumulativeReturns(Floats(x))).Fin?
    ensures -1.0 < WealthMaxDrawdown(CumulativeReturns(Floats(x))).v <= 0.0
  {
    var w := Wealth(CumulativeReturns(Floats(x)));
    forall i | 0 <= i < |w| ensures w[i].Fin? && w[i].v > 0.0 {
      CumulativeTelescopes(x, i);
      DivPos(x[i], x[0]);
    }
    MaxDrawdownOfPositive(w);
  }

  /** The running peak of a two-point path whose second point is lower
      stays at the first point. */
  lemma PeakOfFall(c: seq<Ext>)
    requires |c| == 2 && c[0].Fin? && c[1].Fin? && c[1].v < c[0].v
    ensures RunningPeak(c)[0] == c[0] && RunningPeak(c)[1] == c[0]
  {
    RunningPeakProperties(c, 0, 1);
    RunningPeakProperties(c, 1, 1);
  }

  /** The drawdowns of a two-point fall, both measured from the first
      point. */
  lemma DrawdownsOfFall(c: seq<Ext>)
    requires |c| == 2 && c[0].Fin? && c[1].Fin? && c[1].v < c[0].v
    ensures Drawdowns(c)[0] == Div(Sub(c[0], c[0]), c[0])
    ensures Drawdowns(c)[1] == Div(Sub(c[1], c[0]), c[0])
  {
    PeakOfFall(c);
  }

  /** Series.min() of two values. */
  lemma MinOfPair(a: Ext, b: Ext)
    ensures MinSkipNaN([a, b]) ==
      if a.NaN? then b else if b.NaN? || !Le(b, a) then a else b
  {
    assert [a, b][..1] == [a];
    assert [a][..0] == [];
  }

  /** A cumulative return path that starts at 0, as every one does, and
      falls has a maximum drawdown of -inf: the fall is divided by the peak
      0. */
  lemma FallFromZero(c: seq<Ext>)
    requires |c| == 2 && c[0] == Fin(0.0) && c[1].Fin? && c[1].v < 0.0
    ensures MaxDrawdown(c) == NegInf
  {
    DrawdownsOfFall(c);
    assert Drawdowns(c)[1] == NegInf;
    MinIsNegInf(Drawdowns(c), 1);
  }

  /** A series holding -inf has minimum -inf. */
  lemma MinIsNegInf(s: seq<Ext>, i: nat)
    requires i < |s| && s[i] == NegInf
    ensures MinSkipNaN(s) == NegInf
  {
    assert Le(MinSkipNaN(s), s[i]);
  }

  /** As written, prices that fall from 100 to 90 give cumulative returns
      [0, -0.1] and a maximum drawdown of -inf, since the peak is 0. */
  lemma DrawdownOfFallingPrices(x: seq<real>)
    requires x == [100.0, 90.0]
    ensures CumulativeReturns(Floats(x)) == [Fin(0.0), Fin(-0.1)]
    ensures MaxDrawdown(CumulativeReturns(Floats(x))) == NegInf
  {
    var c := CumulativeReturns(Floats(x));
    CumulativeTelescopes(x, 1);
    assert c[1] == Fin(-0.1);
    assert c == [Fin(0.0), Fin(-0.1)];
    FallFromZero(c);
  }

  /** On wealth [1, 0.9] the same fall is the 10% loss. */
  lemma WealthDrawdownOfFallingPrices()
    ensures WealthMaxDrawdown([Fin(0.0), Fin(-0.1)]) == Fin(-0.1)
  {
    var w := [Fin(1.0), Fin(0.9)];
    assert Wealth([Fin(0.0), Fin(-0.1)]) == w;
    DrawdownsOfFall(w);
    assert Div(Sub(w[0], w[0]), w[0]) == Fin(0.0);
    assert Div(Sub(w[1], w[0]), w[0]) == Fin(-0.1);
    MinOfPair(Fin(0.0), Fin(-0.1));
  }

  /** As written, main.py hands daily returns to the price-based function:
      a first day without a return and two days of +10% come out as
      cumulative returns [0, 0, 0], while compounding the returns gives
      [0, 0.1, 0.21]. */
  lemma CumulativeOfReturnsExample(s: seq<Ext>)
    requires s == [NaN, Fin(0.1), Fin(0.1)]
    ensures CumulativeReturns(s) == [Fin(0.0), Fin(0.0), Fin(0.0)]
    ensures CumulativeOfReturns(s) == [Fin(0.0), Fin(0.1), Fin(0.21)]
  {
    ReturnsAsPrices(s);
    CompoundedTwoDays(s);
  }

  /** Whatever follows a leading NaN, the second cumulative value is 0:
      its change is taken from NaN and filled with 0. */
  lemma CumulativeSecondOfNaNLed(s: seq<Ext>)
    requires |s| >= 2 && s[0].NaN?
    ensures CumulativeReturns(s)[1] == Fin(0.0)
  {
    var r := FilledChanges(s);
    assert PctChange(s)[1] == Change(LastValid(s, 0), LastValid(s, 1));
    assert r[0] == Fin(0.0) && r[1] == Fin(0.0);
    GrowthOnes(r, 1);
    CompoundedAt(r, 1);
  }

  /** A series led by NaN: the first two cumulative values are 0, and
      when the later values are never 0, each is the value relative to the
      second one, minus 1. */
  lemma CumulativeOfNaNLedSeries(s: seq<Ext>)
    requires |s| >= 2 && s[0].NaN?
    ensures CumulativeReturns(s)[0] == Fin(0.0) && CumulativeReturns(s)[1] == Fin(0.0)
    ensures (forall j :: 1 <= j < |s| ==> s[j].Fin? && s[j].v != 0.0) ==>
      forall i :: 1 <= i < |s| ==> CumulativeReturns(s)[i] == Fin(s[i].v / s[1].v - 1.0)
  {
    CumulativeSecondOfNaNLed(s);
    if forall j :: 1 <= j < |s| ==> s[j].Fin? && s[j].v != 0.0 {
      forall i | 1 <= i < |s|
        ensures CumulativeReturns(s)[i] == Fin(s[i].v / s[1].v - 1.0)
      {
        CumulativeOfNaNLed(s, i);
      }
    }
  }

  /** As written, a return series that is the same every day after the
      leading NaN has a cumulative return of 0 throughout. */
  lemma CumulativeOfConstantReturns(s: seq<Ext>, i: nat)
    requires |s| >= 2 && s[0].NaN? && s[1].Fin? && s[1].v != 0.0 && i < |s|
    requires forall j :: 1 <= j < |s| ==> s[j] == s[1]
    ensures CumulativeReturns(s)[i] == Fin(0.0)
  {
    CumulativeOfNaNLed(s, i);
    if i >= 1 {
      assert s[i].v == s[1].v;
      RatioOfEqualLessOne(s[i].v, s[1].v);
    }
  }

  lemma ReturnsAsPrices(s: seq<Ext>)
    requires s == [NaN, Fin(0.1), Fin(0.1)]
    ensures CumulativeReturns(s) == [Fin(0.0), Fin(0.0), Fin(0.0)]
  {
    var c := CumulativeReturns(s);
    forall i | 0 <= i < 3
      ensures c[i] == Fin(0.0)
    {
      CumulativeOfConstantReturns(s, i);
    }
  }

  lemma CompoundedTwoDays(s: seq<Ext>)
    requires s == [NaN, Fin(0.1), Fin(0.1)]
    ensures CumulativeOfReturns(s) == [Fin(0.0), Fin(0.1), Fin(0.21)]
  {
    var f := FillNa(s, 0.0);
    assert f[0] == Fin(0.0) && f[1] == Fin(0.1) && f[2] == Fin(0.1);
    assert Growth(f, 0) == Fin(1.0);
    assert Growth(f, 1) == Mul(Fin(1.0), Fin(1.1));
    assert Growth(f, 2) == Mul(Fin(1.1), Fin(1.1));
    var c := CumulativeOfReturns(s);
    assert c[0] == Fin(0.0) && c[1] == Fin(0.1) && c[2] == Fin(0.21);
  }

  // ---------------------------------------------------------------------
  // Annualised spread and annualised ratios

  /** np.sqrt(252). */
  function Annualiser(sqrt: real -> real): Ext
  {
    SqrtExt(sqrt, Fin(TradingDays))
  }

  lemma AnnualiserPositive(sqrt: real -> real)
    requires SqrtLaw(sqrt)
    ensures Annualiser(sqrt).Fin? && Annualiser(sqrt).v > 0.0
  {
    SqrtZero(sqrt, TradingDays);
  }

  /** std(s) * sqrt(252), the divisor of the deviation being |s| - ddof. */
  function AnnualisedStd(s: seq<real>, ddof: nat, sqrt: real -> real): Ext
  {
    Mul(Std(s, ddof, sqrt), Annualiser(sqrt))
  }

  /** The annualised deviation is NaN up to ddof values; from ddof + 1 values
      on it is a non-negative number, zero exactly when the values do not
      vary. */
  lemma AnnualisedStdCases(s: seq<real>, ddof: nat, sqrt: real -> real)
    requires SqrtLaw(sqrt)
    ensures AnnualisedStd(s, ddof, sqrt).NaN? <==> |s| <= ddof
    ensures |s| > ddof ==>
      AnnualisedStd(s, ddof, sqrt).Fin? && AnnualisedStd(s, ddof, sqrt).v >= 0.0 &&
      (AnnualisedStd(s, ddof, sqrt).v == 0.0 <==> Constant(s))
  {
    AnnualiserPositive(sqrt);
    if |s| > ddof {
      StdZero(s, ddof, sqrt);
      var sd := Std(s, ddof, sqrt).v;
      if sd > 0.0 {
        MulPos(sd, Annualiser(sqrt).v);
      }
    }
  }

  /** (mean(s) - k) / std(s) * sqrt(252): the shape of the Sharpe ratio and
      of the information ratio, neither of which guards the division. */
  function AnnualisedRatio(s: seq<real>, k: real, ddof: nat, sqrt: real -> real): Ext
  {
    Mul(Div(Sub(Mean(s), Fin(k)), Std(s, ddof, sqrt)), Annualiser(sqrt))
  }

  /** The annualised ratio is NaN up to ddof values (and for no values);
      with spread it is a number of the sign of mean(s) - k; for constant
      values it is +-inf, or NaN when the constant is k. */
  lemma AnnualisedRatioCases(s: seq<real>, k: real, ddof: nat, sqrt: real -> real)
    requires SqrtLaw(sqrt)
    ensures |s| <= ddof || |s| == 0 ==> AnnualisedRatio(s, k, ddof, sqrt).NaN?
    ensures |s| > ddof && !Constant(s) ==>
      |s| > 0 && AnnualisedRatio(s, k, ddof, sqrt).Fin? &&
      (AnnualisedRatio(s, k, ddof, sqrt).v > 0.0 <==> Mean(s).v > k) &&
      (AnnualisedRatio(s, k, ddof, sqrt).v < 0.0 <==> Mean(s).v < k)
    ensures |s| > ddof && Constant(s) ==>
      AnnualisedRatio(s, k, ddof, sqrt) ==
        (if s[0] > k then PosInf else if s[0] < k then NegInf else NaN)
  {
    AnnualiserPositive(sqrt);
    if |s| > ddof {
      StdZero(s, ddof, sqrt);
      MeanSign(s);
      var m := Mean(s).v;
      var sd := Std(s, ddof, sqrt).v;
      assert Sub(Mean(s), Fin(k)) == Fin(m - k);
      if sd > 0.0 {
        ScaledQuotientSign(m - k, sd, Annualiser(sqrt).v);
      }
      if Constant(s) {
        SumConstant(s, s[0]);
        assert m == s[0];
      }
    }
  }

  // ---------------------------------------------------------------------
  // Annual volatility and the Sharpe ratio

  /** calculate_annual_volatility: sample standard deviation (divisor
      n - 1) times sqrt(252). */
  function AnnualVolatility(rets: seq<Option<real>>, sqrt: real -> real): Ext
  {
    AnnualisedStd(Present(rets), 1, sqrt)
  }

  /** The volatility needs two returns; from two on it is a non-negative
      number, zero exactly when every return is the same. */
  lemma AnnualVolatilityCases(rets: seq<Option<real>>, sqrt: real -> real)
    requires SqrtLaw(sqrt)
    ensures |Present(rets)| < 2 <==> AnnualVolatility(rets, sqrt).NaN?
    ensures |Present(rets)| >= 2 ==>
      AnnualVolatility(rets, sqrt).Fin? && AnnualVolatility(rets, sqrt).v >= 0.0 &&
      (AnnualVolatility(rets, sqrt).v == 0.0 <==> Constant(Present(rets)))
  {
    AnnualisedStdCases(Present(rets), 1, sqrt);
  }

  /** calculate_sharpe_ratio: (mean - rf / 252) / std * sqrt(252), the
      standard deviation with divisor n - 1. */
  function SharpeRatio(rets: seq<Option<real>>, sqrt: real -> real,
                       riskFree: real := DefaultRiskFree): Ext
  {
    AnnualisedRatio(Present(rets), riskFree / TradingDays, 1, sqrt)
  }

  /** The Sharpe ratio is NaN below two returns; with spread it is a number
      whose sign is that of the mean excess return; for constant returns it
      is +-inf, or NaN when the constant equals rf / 252. */
  lemma SharpeRatioCases(rets: seq<Option<real>>, riskFree: real, sqrt: real -> real)
    requires SqrtLaw(sqrt)
    ensures |Present(rets)| < 2 ==> SharpeRatio(rets, sqrt, riskFree).NaN?
    ensures |Present(rets)| >= 2 && !Constant(Present(rets)) ==>
      SharpeRatio(rets, sqrt, riskFree).Fin? &&
      (SharpeRatio(rets, sqrt, riskFree).v > 0.0 <==>
        Mean(Present(rets)).v > riskFree / TradingDays) &&
      (SharpeRatio(rets, sqrt, riskFree).v < 0.0 <==>
        Mean(Present(rets)).v < riskFree / TradingDays)
    ensures |Present(rets)| >= 2 && Constant(Present(rets)) ==>
      var x := Present(rets)[0];
      var k := riskFree / TradingDays;
      SharpeRatio(rets, sqrt, riskFree) ==
        (if x > k then PosInf else if x < k then NegInf else NaN)
  {
    AnnualisedRatioCases(Present(rets), riskFree / TradingDays, 1, sqrt);
  }

  // ---------------------------------------------------------------------
  // Sortino ratio

  /** returns - rf / 252. */
  function Excess(s: seq<real>, riskFree: real): (e: seq<real>)
    ensures |e| == |s|
  {
    seq(|s|, i requires 0 <= i < |s| => s[i] - riskFree / TradingDays)
  }

  /** np.minimum(excess, 0): every term is at most 0 and at most the excess
      return, it is one of the two, and it is 0 exactly for returns at or
      above the risk-free rate. */
  function Downside(e: seq<real>): (d: seq<real>)
    ensures |d| == |e|
    ensures forall i :: 0 <= i < |e| ==>
      d[i] <= 0.0 && d[i] <= e[i] && (d[i] == e[i] || d[i] == 0.0)
    ensures forall i :: 0 <= i < |e| ==> (d[i] == 0.0 <==> e[i] >= 0.0)
  {
    seq(|e|, i requires 0 <= i < |e| => if e[i] < 0.0 then e[i] else 0.0)
  }

  /** np.sqrt(np.mean(downside ** 2)) * np.sqrt(252). */
  function DownsideDeviation(s: seq<real>, riskFree: real, sqrt: real -> real): Ext
  {
    Mul(SqrtExt(sqrt, Mean(Squares(Downside(Excess(s, riskFree))))), Annualiser(sqrt))
  }

  /** The downside deviation of at least one return is a non-negative
      number, zero exactly when no return is below rf / 252. */
  lemma DownsideDeviationZero(s: seq<real>, riskFree: real, sqrt: real -> real)
    requires SqrtLaw(sqrt) && |s| > 0
    ensures DownsideDeviation(s, riskFree, sqrt).Fin?
    ensures DownsideDeviation(s, riskFree, sqrt).v >= 0.0
    ensures DownsideDeviation(s, riskFree, sqrt).v == 0.0 <==>
      forall i :: 0 <= i < |s| ==> s[i] >= riskFree / TradingDays
  {
    var e := Excess(s, riskFree);
    var d := Downside(e);
    var q := Squares(d);
    SumSquaresZeroIff(d);
    MeanSign(q);
    var m := Mean(q).v;
    SqrtZero(sqrt, m);
    AnnualiserPositive(sqrt);
    if sqrt(m) > 0.0 {
      MulPos(sqrt(m), Annualiser(sqrt).v);
    }
    assert (forall i :: 0 <= i < |s| ==> s[i] >= riskFree / TradingDays) <==>
      (forall i :: 0 <= i < |d| ==> d[i] == 0.0) by {
      assert forall i :: 0 <= i < |s| ==> (s[i] >= riskFree / TradingDays <==> e[i] >= 0.0);
    }
  }

  /** calculate_sortino_ratio: mean excess return times 252 over the
      downside deviation, NaN when that deviation is 0. */
  function SortinoRatio(rets: seq<Option<real>>, sqrt: real -> real,
                        riskFree: real := DefaultRiskFree): Ext
  {
    var s := Present(rets);
    var dd := DownsideDeviation(s, riskFree, sqrt);
    if dd != Fin(0.0) then Div(Mul(Mean(Excess(s, riskFree)), Fin(TradingDays)), dd)
    else NaN
  }

  /** The Sortino ratio is NaN exactly when there is no return or no return
      below rf / 252; otherwise it is the annualised mean excess return over
      a positive downside deviation. */
  lemma SortinoRatioCases(rets: seq<Option<real>>, riskFree: real, sqrt: real -> real)
    requires SqrtLaw(sqrt)
    ensures SortinoRatio(rets, sqrt, riskFree).NaN? <==>
      var s := Present(rets);
      |s| == 0 || forall i :: 0 <= i < |s| ==> s[i] >= riskFree / TradingDays
    ensures !SortinoRatio(rets, sqrt, riskFree).NaN? ==>
      var s := Present(rets);
      var dd := DownsideDeviation(s, riskFree, sqrt);
      SortinoRatio(rets, sqrt, riskFree).Fin? && dd.Fin? && dd.v > 0.0 &&
      SortinoRatio(rets, sqrt, riskFree).v == Mean(Excess(s, riskFree)).v * TradingDays / dd.v
  {
    var s := Present(rets);
    if |s| > 0 {
      DownsideDeviationZero(s, riskFree, sqrt);
      MeanSign(Excess(s, riskFree));
    }
  }

  // ---------------------------------------------------------------------
  // Value at risk

  /** -(q * sqrt(period)): a quantile turned into an annualised loss. */
  function ScaledLoss(q: Ext, period: real, sqrt: real -> real): Ext
  {
    Neg(Mul(q, SqrtExt(sqrt, Fin(period))))
  }

  /** l is the loss -(q * root) of a finite quantile q. */
  predicate LossOf(l: Ext, q: Ext, root: real)
  {
    l.Fin? && q.Fin? && l.v == -(q.v * root)
  }

  /** A finite quantile becomes a finite loss of the opposite sign. */
  lemma ScaledLossSign(q: Ext, period: real, sqrt: real -> real)
    requires period >= 0.0 && sqrt(period) >= 0.0 && q.Fin?
    ensures ScaledLoss(q, period, sqrt).Fin?
    ensures LossOf(ScaledLoss(q, period, sqrt), q, sqrt(period))
    ensures q.v >= 0.0 ==> ScaledLoss(q, period, sqrt).v <= 0.0
    ensures q.v <= 0.0 ==> ScaledLoss(q, period, sqrt).v >= 0.0
  {
    ScaledLossValue(q, period, sqrt);
    LossOfSign(ScaledLoss(q, period, sqrt), q, sqrt(period));
  }

  lemma ScaledLossValue(q: Ext, period: real, sqrt: real -> real)
    requires period >= 0.0 && q.Fin?
    ensures LossOf(ScaledLoss(q, period, sqrt), q, sqrt(period))
  {
    var r := sqrt(period);
    assert SqrtExt(sqrt, Fin(period)) == Fin(r);
    assert Mul(q, Fin(r)) == Fin(q.v * r);
  }

  /** A loss has the opposite sign of its quantile when the root is >= 0. */
  lemma LossOfSign(l: Ext, q: Ext, r: real)
    requires LossOf(l, q, r) && r >= 0.0
    ensures q.v >= 0.0 ==> l.v <= 0.0
    ensures q.v <= 0.0 ==> l.v >= 0.0
  {
    NonnegProductSign(q.v, r);
  }

  lemma NonnegProductSign(x: real, r: real)
    requires r >= 0.0
    ensures x >= 0.0 ==> x * r >= 0.0
    ensures x <= 0.0 ==> x * r <= 0.0
  {
    if x >= 0.0 {
      MulNonneg(x, r);
    } else {
      MulNonneg(-x, r);
      assert (-x) * r == -(x * r);
    }
  }

  /** The (1 - confidence) quantile of s as an annualised loss. */
  function QuantileLoss(s: seq<real>, confidence: real, period: real, sqrt: real -> real): Ext
    requires 0.0 <= confidence <= 1.0
  {
    ScaledLoss(Quantile(s, 1.0 - confidence), period, sqrt)
  }

  /** The loss is NaN exactly for no values; otherwise it is minus the
      quantile (a value between two of them: QuantileBetween) times
      sqrt(period). */
  lemma QuantileLossCases(s: seq<real>, confidence: real, period: real, sqrt: real -> real)
    requires 0.0 <= confidence <= 1.0 && period >= 0.0 && SqrtLaw(sqrt)
    ensures QuantileLoss(s, confidence, period, sqrt).NaN? <==> |s| == 0
    ensures |s| > 0 ==>
      LossOf(QuantileLoss(s, confidence, period, sqrt), Quantile(s, 1.0 - confidence), sqrt(period))
  {
    if |s| > 0 {
      var q := Quantile(s, 1.0 - confidence);
      SqrtZero(sqrt, period);
      ScaledLossSign(q, period, sqrt);
    }
  }

  /** The loss is at most 0 when no value is negative, and at least 0 when
      no value is positive. */
  lemma QuantileLossSign(s: seq<real>, confidence: real, period: real, sqrt: real -> real)
    requires 0.0 <= confidence <= 1.0 && period >= 0.0 && SqrtLaw(sqrt)
    ensures (forall i :: 0 <= i < |s| ==> s[i] >= 0.0) ==>
      !QuantileLoss(s, confidence, period, sqrt).Fin? ||
      QuantileLoss(s, confidence, period, sqrt).v <= 0.0
    ensures (forall i :: 0 <= i < |s| ==> s[i] <= 0.0) ==>
      !QuantileLoss(s, confidence, period, sqrt).Fin? ||
      QuantileLoss(s, confidence, period, sqrt).v >= 0.0
  {
    if |s| > 0 {
      var q := Quantile(s, 1.0 - confidence);
      QuantileBetween(s, 1.0 - confidence);
      SqrtZero(sqrt, period);
      ScaledLossSign(q, period, sqrt);
    }
  }

  /** calculate_var: NaN for an empty series, otherwise minus the
      (1 - confidence) quantile scaled by sqrt(period). None stands for the
      ValueError pandas raises for a quantile level outside [0, 1]. */
  function ValueAtRisk(rets: seq<Option<real>>, sqrt: real -> real,
                       confidence: real := DefaultConfidence,
                       period: real := DefaultPeriod): Option<Ext>
  {
    if |rets| == 0 then Some(NaN)
    else if !(0.0 <= confidence <= 1.0) then None
    else Some(QuantileLoss(Present(rets), confidence, period, sqrt))
  }

  /** Value at risk fails exactly when there are returns and the
      confidence is outside [0, 1]. Otherwise it is NaN exactly when no
      return is present (the series is empty or all NaN), and else the loss
      at the quantile of the present returns (so minus a value lying
      between two of them, times sqrt(period)); it is at most 0 when no
      return is a loss and at least 0 when every return is one. */
  lemma ValueAtRiskCases(rets: seq<Option<real>>, confidence: real, period: real,
                         sqrt: real -> real)
    requires period >= 0.0 && SqrtLaw(sqrt)
    ensures ValueAtRisk(rets, sqrt, confidence, period).None? <==>
      |rets| > 0 && !(0.0 <= confidence <= 1.0)
    ensures 0.0 <= confidence <= 1.0 ==>
      (ValueAtRisk(rets, sqrt, confidence, period) == Some(NaN) <==> |Present(rets)| == 0)
    ensures 0.0 <= confidence <= 1.0 && |Present(rets)| > 0 ==>
      ValueAtRisk(rets, sqrt, confidence, period) ==
        Some(QuantileLoss(Present(rets), confidence, period, sqrt)) &&
      QuantileLoss(Present(rets), confidence, period, sqrt).Fin?
    ensures (0.0 <= confidence <= 1.0 &&
             forall i :: 0 <= i < |Present(rets)| ==> Present(rets)[i] >= 0.0) ==>
      !ValueAtRisk(rets, sqrt, confidence, period).value.Fin? ||
      ValueAtRisk(rets, sqrt, confidence, period).value.v <= 0.0
    ensures (0.0 <= confidence <= 1.0 &&
             forall i :: 0 <= i < |Present(rets)| ==> Present(rets)[i] <= 0.0) ==>
      !ValueAtRisk(rets, sqrt, confidence, period).value.Fin? ||
      ValueAtRisk(rets, sqrt, confidence, period).value.v >= 0.0
  {
    if 0.0 <= confidence <= 1.0 {
      QuantileLossCases(Present(rets), confidence, period, sqrt);
      QuantileLossSign(Present(rets), confidence, period, sqrt);
    }
  }

  // ---------------------------------------------------------------------
  // Aligning a portfolio series with a benchmark series

  /** One observation of a labelled series: its date and its value, None
      for NaN. */
  datatype Point = Point(date: int, value: Option<real>)

  type Series = seq<Point>

  /** One row of the aligned pair: a date and both values at it. */
  datatype Row = Row(date: int, p: real, b: real)

  /** The value at date d (the first one, if the date repeats), None when
      the series has no such date. */
  function Lookup(s: Series, d: int): (r: Option<Option<real>>)
    ensures r.None? <==> forall i :: 0 <= i < |s| ==> s[i].date != d
    ensures r.Some? ==> Point(d, r.value) in s
  {
    if |s| == 0 then None
    else if s[0].date == d then Some(s[0].value)
    else Lookup(s[1..], d)
  }

  predicate DistinctDates(s: Series)
  {
    forall i, j :: 0 <= i < j < |s| ==> s[i].date != s[j].date
  }

  /** With distinct dates, the lookup finds the point that has the date. */
  lemma {:induction false} LookupDistinct(s: Series, i: nat)
    requires DistinctDates(s) && i < |s|
    ensures Lookup(s, s[i].date) == Some(s[i].value)
  {
    if i > 0 {
      assert DistinctDates(s[1..]) by {
        forall a, b | 0 <= a < b < |s[1..]| ensures s[1..][a].date != s[1..][b].date {
          assert s[1..][a] == s[a + 1] && s[1..][b] == s[b + 1];
        }
      }
      assert s[0].date != s[i].date;
      LookupDistinct(s[1..], i - 1);
    }
  }

  /** A row of the alignment: the portfolio has the point, and the
      benchmark has a value at its date. */
  predicate Joined(p: Series, b: Series, r: Row)
  {
    Point(r.date, Some(r.p)) in p && Lookup(b, r.date) == Some(Some(r.b))
  }

  /** align(join='inner') followed by concat(...).dropna(): the dates both
      series have, in the portfolio's order, keeping the rows where neither
      value is NaN. */
  function Aligned(p: Series, b: Series): (rows: seq<Row>)
    ensures |rows| <= |p|
  {
    if |p| == 0 then []
    else
      var rest := Aligned(p[1..], b);
      match (p[0].value, Lookup(b, p[0].date))
      case (Some(x), Some(Some(y))) => [Row(p[0].date, x, y)] + rest
      case _ => rest
  }

  /** Every aligned row comes from a portfolio point with a value and a
      benchmark value at the same date. */
  lemma {:induction false} AlignedSound(p: Series, b: Series, k: nat)
    requires k < |Aligned(p, b)|
    ensures Joined(p, b, Aligned(p, b)[k])
  {
    var rest := Aligned(p[1..], b);
    if Aligned(p, b) == rest {
      AlignedSound(p[1..], b, k);
      assert Point(rest[k].date, Some(rest[k].p)) in p[1..];
    } else if k > 0 {
      AlignedSound(p[1..], b, k - 1);
      assert Point(rest[k - 1].date, Some(rest[k - 1].p)) in p[1..];
    }
  }

  /** Every portfolio point whose date carries a benchmark value gives a
      row. */
  lemma {:induction false} AlignedComplete(p: Series, b: Series, i: nat, x: real, y: real)
    requires i < |p| && p[i].value == Some(x) && Lookup(b, p[i].date) == Some(Some(y))
    ensures Row(p[i].date, x, y) in Aligned(p, b)
  {
    if i > 0 {
      AlignedComplete(p[1..], b, i - 1, x, y);
    }
  }

  /** With distinct dates on both sides, aligning is symmetric: a row
      (d, x, y) of one alignment is the row (d, y, x) of the other. */
  lemma AlignedSymmetric(p: Series, b: Series, d: int, x: real, y: real)
    requires DistinctDates(p) && DistinctDates(b)
    ensures Row(d, x, y) in Aligned(p, b) <==> Row(d, y, x) in Aligned(b, p)
  {
    if Row(d, x, y) in Aligned(p, b) {
      Flip(p, b, d, x, y);
    }
    if Row(d, y, x) in Aligned(b, p) {
      Flip(b, p, d, y, x);
    }
  }

  lemma Flip(p: Series, b: Series, d: int, x: real, y: real)
    requires DistinctDates(p) && Row(d, x, y) in Aligned(p, b)
    ensures Row(d, y, x) in Aligned(b, p)
  {
    var rows := Aligned(p, b);
    var k :| 0 <= k < |rows| && rows[k] == Row(d, x, y);
    AlignedSound(p, b, k);
    var j :| 0 <= j < |b| && b[j] == Point(d, Some(y));
    var i :| 0 <= i < |p| && p[i] == Point(d, Some(x));
    LookupDistinct(p, i);
    AlignedComplete(b, p, j, y, x);
  }

  /** The portfolio and benchmark columns of the aligned rows. */
  function PortfolioColumn(rows: seq<Row>): (c: seq<real>)
    ensures |c| == |rows|
  {
    seq(|rows|, k requires 0 <= k < |rows| => rows[k].p)
  }

  function BenchmarkColumn(rows: seq<Row>): (c: seq<real>)
    ensures |c| == |rows|
  {
    seq(|rows|, k requires 0 <= k < |rows| => rows[k].b)
  }

  /** portfolio_returns - benchmark_returns over the aligned rows. */
  function ActiveReturns(rows: seq<Row>): (c: seq<real>)
    ensures |c| == |rows|
  {
    seq(|rows|, k requires 0 <= k < |rows| => rows[k].p - rows[k].b)
  }

  // ---------------------------------------------------------------------
  // Tracking error and information ratio

  /** calculate_tracking_error: np.std (divisor n) of the active returns
      times sqrt(252). */
  function TrackingError(p: Series, b: Series, sqrt: real -> real): Ext
  {
    AnnualisedStd(ActiveReturns(Aligned(p, b)), 0, sqrt)
  }

  /** The tracking error is NaN exactly when no date has both values;
      otherwise it is a non-negative number, zero exactly when the active
      return never varies (so a single aligned date gives 0). */
  lemma TrackingErrorCases(p: Series, b: Series, sqrt: real -> real)
    requires SqrtLaw(sqrt)
    ensures TrackingError(p, b, sqrt).NaN? <==> |Aligned(p, b)| == 0
    ensures |Aligned(p, b)| > 0 ==>
      TrackingError(p, b, sqrt).Fin? && TrackingError(p, b, sqrt).v >= 0.0 &&
      (TrackingError(p, b, sqrt).v == 0.0 <==> Constant(ActiveReturns(Aligned(p, b))))
  {
    AnnualisedStdCases(ActiveReturns(Aligned(p, b)), 0, sqrt);
  }

  /** mean(a) / np.std(a) * sqrt(252), the deviation with divisor n. */
  function MeanOverStd(a: seq<real>, sqrt: real -> real): Ext
  {
    Mul(Div(Mean(a), Std(a, 0, sqrt)), Annualiser(sqrt))
  }

  lemma MeanOverStdCases(a: seq<real>, sqrt: real -> real)
    requires SqrtLaw(sqrt)
    ensures |a| == 0 ==> MeanOverStd(a, sqrt).NaN?
    ensures |a| > 0 && !Constant(a) ==>
      MeanOverStd(a, sqrt).Fin? &&
      (MeanOverStd(a, sqrt).v > 0.0 <==> Mean(a).v > 0.0) &&
      (MeanOverStd(a, sqrt).v < 0.0 <==> Mean(a).v < 0.0)
    ensures |a| > 0 && Constant(a) ==>
      MeanOverStd(a, sqrt) == (if a[0] > 0.0 then PosInf else if a[0] < 0.0 then NegInf else NaN)
  {
    AnnualiserPositive(sqrt);
    if |a| > 0 {
      StdZero(a, 0, sqrt);
      MeanSign(a);
      var m := Mean(a).v;
      var sd := Std(a, 0, sqrt).v;
      if sd > 0.0 {
        ScaledQuotientSign(m, sd, Annualiser(sqrt).v);
      }
      if Constant(a) {
        SumConstant(a, a[0]);
        assert m == a[0];
      }
    }
  }

  /** calculate_information_ratio: mean active return over its np.std
      (divisor n), times sqrt(252), unguarded. */
  function InformationRatio(p: Series, b: Series, sqrt: real -> real): Ext
  {
    MeanOverStd(ActiveReturns(Aligned(p, b)), sqrt)
  }

  /** The information ratio is NaN with no aligned date; with a varying
      active return it is a number of the sign of the mean active return;
      with a constant one (a single aligned date included) it is +-inf, or
      NaN for a zero active return. */
  lemma InformationRatioCases(p: Series, b: Series, sqrt: real -> real)
    requires SqrtLaw(sqrt)
    ensures
      var a := ActiveReturns(Aligned(p, b));
      var r := InformationRatio(p, b, sqrt);
      (|a| == 0 ==> r.NaN?) &&
      (|a| > 0 && !Constant(a) ==>
        r.Fin? && (r.v > 0.0 <==> Mean(a).v > 0.0) && (r.v < 0.0 <==> Mean(a).v < 0.0)) &&
      (|a| > 0 && Constant(a) ==>
        r == (if a[0] > 0.0 then PosInf else if a[0] < 0.0 then NegInf else NaN))
  {
    MeanOverStdCases(ActiveReturns(Aligned(p, b)), sqrt);
  }

  // ---------------------------------------------------------------------
  // Alpha and beta

  datatype AlphaBeta = AlphaBeta(alpha: Ext, beta: Ext)

  /** Alpha and beta of aligned columns ps, bs (at least two rows), the
      benchmark variance taken with divisor n - varDdof and the covariance
      with divisor n - 1. */
  function AlphaBetaFrom(ps: seq<real>, bs: seq<real>, varDdof: nat): AlphaBeta
    requires |ps| == |bs| >= 2 && varDdof <= 1
  {
    var v := Variance(bs, varDdof);
    if v == Fin(0.0) then AlphaBeta(NaN, NaN)
    else
      var beta := Div(Covariance(ps, bs, 1), v);
      AlphaBeta(Mul(Sub(Mean(ps), Mul(beta, Mean(bs))), Fin(TradingDays)), beta)
  }

  /** The least-squares identities of beta and alpha over columns ps, bs:
      beta times the variance (divisor n - varDdof) is the covariance
      (divisor n - 1), and alpha is the annualised intercept
      mean(p) - beta * mean(b). */
  predicate Regression(r: AlphaBeta, ps: seq<real>, bs: seq<real>, varDdof: nat)
    requires |ps| == |bs| >= 2 && varDdof <= 1
  {
    RegressionOn(r, Covariance(ps, bs, 1), Variance(bs, varDdof), Mean(ps), Mean(bs))
  }

  /** The same identities over given moments: a covariance c, a variance v
      and the two means mp, mb. */
  predicate RegressionOn(r: AlphaBeta, c: Ext, v: Ext, mp: Ext, mb: Ext)
  {
    r.alpha.Fin? && r.beta.Fin? && c.Fin? && v.Fin? && mp.Fin? && mb.Fin? &&
    r.beta.v * v.v == c.v &&
    r.alpha.v == (mp.v - r.beta.v * mb.v) * TradingDays
  }

  /** Over at least two rows both are NaN exactly when the benchmark never
      moves; otherwise beta is the covariance over the variance and alpha is
      the annualised intercept mean(p) - beta * mean(b). */
  lemma AlphaBetaFromCases(ps: seq<real>, bs: seq<real>, varDdof: nat)
    requires |ps| == |bs| >= 2 && varDdof <= 1
    ensures AlphaBetaFrom(ps, bs, varDdof) == AlphaBeta(NaN, NaN) <==> Constant(bs)
    ensures !Constant(bs) ==> Regression(AlphaBetaFrom(ps, bs, varDdof), ps, bs, varDdof)
  {
    VarianceZero(bs, varDdof);
    MeanSign(ps);
    MeanSign(bs);
    if !Constant(bs) {
      var c, v := Covariance(ps, bs, 1), Variance(bs, varDdof);
      AlphaBetaArith(c, v, Mean(ps), Mean(bs));
      assert AlphaBetaFrom(ps, bs, varDdof) ==
        AlphaBeta(Mul(Sub(Mean(ps), Mul(Div(c, v), Mean(bs))), Fin(TradingDays)), Div(c, v));
    }
  }

  /** The alpha and beta formulas on finite values with a non-zero
      variance. */
  lemma AlphaBetaArith(c: Ext, v: Ext, mp: Ext, mb: Ext)
    requires c.Fin? && v.Fin? && mp.Fin? && mb.Fin? && v.v != 0.0
    ensures RegressionOn(AlphaBeta(Mul(Sub(mp, Mul(Div(c, v), mb)), Fin(TradingDays)), Div(c, v)),
      c, v, mp, mb)
  {
    var beta := c.v / v.v;
    assert Div(c, v) == Fin(beta);
    assert beta * v.v == c.v;
    assert Mul(Fin(beta), mb) == Fin(beta * mb.v);
  }

  /** calculate_alpha_beta as written: np.cov (divisor n - 1) over np.var
      (divisor n). */
  function AlphaBetaOf(p: Series, b: Series): AlphaBeta
  {
    var rows := Aligned(p, b);
    if |rows| < 2 then AlphaBeta(NaN, NaN)
    else AlphaBetaFrom(PortfolioColumn(rows), BenchmarkColumn(rows), 0)
  }

  /** Both are NaN exactly when fewer than two rows align or the benchmark
      never moves; otherwise beta is the covariance (divisor n - 1) over the
      variance (divisor n), and alpha is the annualised intercept. */
  lemma AlphaBetaCases(p: Series, b: Series)
    ensures AlphaBetaOf(p, b) == AlphaBeta(NaN, NaN) <==>
      |Aligned(p, b)| < 2 || Constant(BenchmarkColumn(Aligned(p, b)))
    ensures |Aligned(p, b)| >= 2 && !Constant(BenchmarkColumn(Aligned(p, b))) ==>
      Regression(AlphaBetaOf(p, b), PortfolioColumn(Aligned(p, b)), BenchmarkColumn(Aligned(p, b)), 0)
  {
    var rows := Aligned(p, b);
    if |rows| >= 2 {
      var ps, bs := PortfolioColumn(rows), BenchmarkColumn(rows);
      assert AlphaBetaOf(p, b) == AlphaBetaFrom(ps, bs, 0);
      AlphaBetaFromCases(ps, bs, 0);
    }
  }

  /** Corrected alpha and beta: the variance with the covariance's own
      divisor n - 1. */
  function AlphaBetaConsistent(p: Series, b: Series): AlphaBeta
  {
    var rows := Aligned(p, b);
    if |rows| < 2 then AlphaBeta(NaN, NaN)
    else AlphaBetaFrom(PortfolioColumn(rows), BenchmarkColumn(rows), 1)
  }

  /** Aligned with itself, a series with distinct dates gives rows whose two
      values agree. */
  lemma AlignedSelf(b: Series)
    requires DistinctDates(b)
    ensures PortfolioColumn(Aligned(b, b)) == BenchmarkColumn(Aligned(b, b))
  {
    var rows := Aligned(b, b);
    forall k | 0 <= k < |rows| ensures rows[k].p == rows[k].b {
      AlignedSound(b, b, k);
      var i :| 0 <= i < |b| && b[i] == Point(rows[k].date, Some(rows[k].p));
      LookupDistinct(b, i);
    }
  }

  lemma RatioOfEqualLessOne(a: real, b: real)
    requires a == b && b != 0.0
    ensures a / b - 1.0 == 0.0
  {
  }

  lemma DivSelf(a: real)
    requires a != 0.0
    ensures a / a == 1.0
  {
  }

  lemma DivAboveOne(a: real, b: real)
    requires 0.0 < b < a
    ensures a / b > 1.0
  {
  }

  /** As written, the beta of a moving benchmark against itself is
      n / (n - 1), which exceeds 1. */
  lemma SelfBetaAsWritten(b: Series)
    requires DistinctDates(b)
    requires |Aligned(b, b)| >= 2 && !Constant(BenchmarkColumn(Aligned(b, b)))
    ensures AlphaBetaOf(b, b).beta ==
      Fin(|Aligned(b, b)| as real / (|Aligned(b, b)| - 1) as real)
    ensures AlphaBetaOf(b, b).beta.v > 1.0
  {
    var rows := Aligned(b, b);
    var bs := BenchmarkColumn(rows);
    AlignedSelf(b);
    CovarianceSelf(bs, 1);
    VarianceRatio(bs);
    AlphaBetaFromCases(bs, bs, 0);
    DivAboveOne(|rows| as real, (|rows| - 1) as real);
  }

  /** Corrected, a moving benchmark against itself has beta 1 and alpha 0. */
  lemma SelfBetaConsistent(b: Series)
    requires DistinctDates(b)
    requires |Aligned(b, b)| >= 2 && !Constant(BenchmarkColumn(Aligned(b, b)))
    ensures AlphaBetaConsistent(b, b) == AlphaBeta(Fin(0.0), Fin(1.0))
  {
    var rows := Aligned(b, b);
    var bs := BenchmarkColumn(rows);
    AlignedSelf(b);
    CovarianceSelf(bs, 1);
    VarianceZero(bs, 1);
    MeanSign(bs);
    var v := Variance(bs, 1).v;
    var m := Mean(bs).v;
    assert AlphaBetaConsistent(b, b) == AlphaBetaFrom(bs, bs, 1);
    assert v != 0.0;
    DivSelf(v);
    assert Div(Fin(v), Fin(v)) == Fin(1.0);
    assert Mul(Fin(1.0), Fin(m)) == Fin(m);
  }
}
