/** The weighted daily return of the portfolio (main.py, lines 219 to
    237): the held assets with a positive weight and usable price data are
    kept, and their daily price changes, each times its weight, are added
    up date by date on the dates of the first kept ticker's download. */
module Performance {
  import opened Wrappers
  import opened ExtReal
  import Stats
  import Processing
  import opened Composition

  // ---------------------------------------------------------------------
  // Price data and returns as date-labelled series

  /** One row of a price download: a trading date and its adjusted close. */
  datatype Quote = Quote(date: int, adjClose: real)

  /** A price download: its rows, and whether it has an 'Adj Close'
      column at all. */
  datatype StockData = StockData(quotes: seq<Quote>, hasAdjClose: bool)

  /** A series of returns, keyed by date. */
  type Returns = map<int, Ext>

  /** Data that the return calculation can use: not empty and with an
      'Adj Close' column. */
  predicate Usable(d: StockData)
  {
    |d.quotes| > 0 && d.hasAdjClose
  }

  /** The adjusted closes, row by row. */
  function Prices(q: seq<Quote>): (p: seq<real>)
    ensures |p| == |q|
  {
    seq(|q|, k requires 0 <= k < |q| => q[k].adjClose)
  }

  function DatesOf(q: seq<Quote>): set<int>
  {
    if |q| == 0 then {} else {q[0].date} + DatesOf(q[1..])
  }

  /** The first row with date d, or |q| when there is none. */
  function Find(q: seq<Quote>, d: int): (k: nat)
    ensures k <= |q|
    ensures k < |q| ==> q[k].date == d
    ensures k == |q| <==> d !in DatesOf(q)
  {
    if |q| == 0 then 0
    else if q[0].date == d then 0
    else
      var k := 1 + Find(q[1..], d);
      assert k < |q| ==> q[k] == q[1..][k - 1];
      k
  }

  /** The series of the prices' changes, one per date: NaN on the first
      date (Series.pct_change). */
  function Changes(q: seq<Quote>): (r: Returns)
    ensures r.Keys == DatesOf(q)
  {
    map d | d in DatesOf(q) :: ChangeOn(q, Find(q, d))
  }

  /** The change into row k from the row before it; NaN for the first row. */
  function ChangeOn(q: seq<Quote>, k: nat): Ext
    requires k < |q|
  {
    if k == 0 then NaN else Processing.Change(Fin(q[k - 1].adjClose), Fin(q[k].adjClose))
  }

  /** ChangeOn is Series.pct_change of the prices, row by row. */
  lemma ChangeOnIsPctChange(q: seq<Quote>, k: nat)
    requires k < |q|
    ensures ChangeOn(q, k) == Processing.PctChange(Processing.Floats(Prices(q)))[k]
  {
    var s := Processing.Floats(Prices(q));
    if k > 0 {
      assert s[k - 1] == Fin(q[k - 1].adjClose);
      assert s[k] == Fin(q[k].adjClose);
    }
    PctChangeAt(s, k);
  }

  /** pct_change between two values that are there is their change; the
      first value has none. */
  lemma PctChangeAt(s: seq<Ext>, k: nat)
    requires k < |s| && (k > 0 ==> !s[k - 1].NaN? && !s[k].NaN?)
    ensures Processing.PctChange(s)[k] ==
      if k == 0 then NaN else Processing.Change(s[k - 1], s[k])
  {
    var r := Processing.PctChange(s);
    if k > 0 {
      assert r[k] == Processing.Change(Processing.LastValid(s, k - 1), Processing.LastValid(s, k));
    } else {
      assert r[0] == NaN;
    }
  }

  predicate DistinctDates(q: seq<Quote>)
  {
    forall i, j :: 0 <= i < j < |q| ==> q[i].date != q[j].date
  }

  /** With distinct dates, the change on each row's date is that row's
      pct_change. */
  lemma {:induction false} ChangesArePctChange(q: seq<Quote>, k: nat)
    requires DistinctDates(q) && k < |q|
    ensures q[k].date in Changes(q)
    ensures Changes(q)[q[k].date] == Processing.PctChange(Processing.Floats(Prices(q)))[k]
  {
    FindDistinct(q, k);
    ChangeOnIsPctChange(q, k);
  }

  lemma {:induction false} FindDistinct(q: seq<Quote>, k: nat)
    requires DistinctDates(q) && k < |q|
    ensures Find(q, q[k].date) == k
  {
    if k > 0 {
      assert q[0].date != q[k].date;
      assert q[1..][k - 1] == q[k];
      assert DistinctDates(q[1..]) by {
        forall i, j | 0 <= i < j < |q[1..]| ensures q[1..][i].date != q[1..][j].date {
          assert q[1..][i] == q[i + 1] && q[1..][j] == q[j + 1];
        }
      }
      FindDistinct(q[1..], k - 1);
    }
  }

  /** A ticker's share of the portfolio return: its changes times its
      weight. */
  function Contribution(q: seq<Quote>, weight: real): (r: Returns)
    ensures r.Keys == DatesOf(q)
  {
    map d | d in Changes(q) :: Mul(Changes(q)[d], Fin(weight))
  }

  /** In-place Series addition (a += b): pandas adds over the dates of
      either series and then reindexes the result like a, so the dates of a
      are kept, a date of a that b lacks becomes NaN, and a date only b
      has is dropped. */
  function AddAligned(a: Returns, b: Returns): (r: Returns)
    ensures r.Keys == a.Keys
  {
    map d | d in a :: if d in b then Add(a[d], b[d]) else NaN
  }

  /** pd.Series(0, index=...): zero on every date of the download. */
  function Zeros(q: seq<Quote>): (r: Returns)
    ensures r.Keys == DatesOf(q)
  {
    map d | d in DatesOf(q) :: Fin(0.0)
  }

  // ---------------------------------------------------------------------
  // The calculation, as functions

  /** The downloads are given: fetched[t] is what the download for t
      returned, a missing key standing for an empty download. */
  predicate UsableFor(fetched: map<string, StockData>, t: string)
  {
    t in fetched && Usable(fetched[t])
  }

  predicate Eligible(m: map<string, Asset>, fetched: map<string, StockData>, t: string)
  {
    t in m && m[t].weight > 0.0 && UsableFor(fetched, t)
  }

  /** The tickers of ts, in order, that enter the calculation: a positive
      weight and usable data. */
  function Included(ts: seq<string>, m: map<string, Asset>, fetched: map<string, StockData>)
    : (r: seq<string>)
    ensures forall t :: t in r <==> t in ts && Eligible(m, fetched, t)
    ensures forall i :: 0 <= i < |r| ==> Eligible(m, fetched, r[i])
  {
    if |ts| == 0 then []
    else
      var init := Included(ts[..|ts| - 1], m, fetched);
      var t := ts[|ts| - 1];
      assert ts == ts[..|ts| - 1] + [t];
      if Eligible(m, fetched, t) then init + [t] else init
  }

  predicate AllEligible(vs: seq<string>, m: map<string, Asset>, fetched: map<string, StockData>)
  {
    forall i :: 0 <= i < |vs| ==> Eligible(m, fetched, vs[i])
  }

  /** The running sum after the tickers vs, from the series start. */
  function Accumulated(vs: seq<string>, m: map<string, Asset>, fetched: map<string, StockData>,
                       start: Returns): Returns
    requires AllEligible(vs, m, fetched)
  {
    if |vs| == 0 then start
    else
      var t := vs[|vs| - 1];
      AddAligned(Accumulated(vs[..|vs| - 1], m, fetched, start),
                 Contribution(fetched[t].quotes, m[t].weight))
  }

  /** The portfolio returns, None when no ticker is included (the panel
      then warns and stops). */
  function ReturnsOf(ts: seq<string>, m: map<string, Asset>, fetched: map<string, StockData>)
    : Option<Returns>
  {
    var vs := Included(ts, m, fetched);
    if |vs| == 0 then None
    else Some(Accumulated(vs, m, fetched, Zeros(fetched[vs[0]].quotes)))
  }

  // ---------------------------------------------------------------------
  // What the calculation gives

  /** There is no portfolio return exactly when no held ticker has both a
      positive weight and usable data. */
  lemma ReturnsNone(ts: seq<string>, m: map<string, Asset>, fetched: map<string, StockData>)
    ensures ReturnsOf(ts, m, fetched).None? <==> forall t :: t in ts ==> !Eligible(m, fetched, t)
  {
    var vs := Included(ts, m, fetched);
    if |vs| > 0 {
      assert vs[0] in vs;
    }
  }

  /** The running sum keeps the dates of the series it starts from. */
  lemma {:induction false} AccumulatedKeys(vs: seq<string>, m: map<string, Asset>,
                                           fetched: map<string, StockData>, start: Returns)
    requires AllEligible(vs, m, fetched)
    ensures Accumulated(vs, m, fetched, start).Keys == start.Keys
  {
    if |vs| > 0 {
      AccumulatedKeys(vs[..|vs| - 1], m, fetched, start);
    }
  }

  /** The portfolio returns have exactly the dates of the first included
      ticker's download: the series starts on its index and += keeps it. */
  lemma ReturnsDates(ts: seq<string>, m: map<string, Asset>, fetched: map<string, StockData>)
    ensures ReturnsOf(ts, m, fetched).Some? ==>
      ReturnsOf(ts, m, fetched).value.Keys == DatesOf(fetched[Included(ts, m, fetched)[0]].quotes)
  {
    var vs := Included(ts, m, fetched);
    if |vs| > 0 {
      AccumulatedKeys(vs, m, fetched, Zeros(fetched[vs[0]].quotes));
    }
  }

  /** A download gives no return on date d when it lacks the date or d is
      its first date (pct_change has no previous price there). */
  predicate NoReturnAt(q: seq<Quote>, d: int)
  {
    d !in DatesOf(q) || (|q| > 0 && q[0].date == d)
  }

  /** A date without a return in q has no weighted return from q. */
  lemma ContributionNaN(q: seq<Quote>, weight: real, d: int)
    requires NoReturnAt(q, d) && d in DatesOf(q)
    ensures Contribution(q, weight)[d] == NaN
  {
    assert Find(q, d) == 0;
  }

  lemma {:induction false} AccumulatedNaN(vs: seq<string>, m: map<string, Asset>,
                                          fetched: map<string, StockData>, start: Returns,
                                          d: int, i: nat)
    requires AllEligible(vs, m, fetched) && i < |vs|
    requires NoReturnAt(fetched[vs[i]].quotes, d)
    requires d in Accumulated(vs, m, fetched, start)
    ensures Accumulated(vs, m, fetched, start)[d] == NaN
  {
    var init := vs[..|vs| - 1];
    var t := vs[|vs| - 1];
    var prev := Accumulated(init, m, fetched, start);
    var c := Contribution(fetched[t].quotes, m[t].weight);
    if i == |vs| - 1 {
      if d in c {
        ContributionNaN(fetched[t].quotes, m[t].weight, d);
      }
    } else if d in prev {
      assert init[i] == vs[i];
      AccumulatedNaN(init, m, fetched, start, d, i);
    }
  }

  /** The portfolio return is NaN on every date where some included
      ticker has no return: a date it lacks, or its first date. */
  lemma ReturnsNaN(ts: seq<string>, m: map<string, Asset>, fetched: map<string, StockData>,
                   d: int, i: nat)
    requires ReturnsOf(ts, m, fetched).Some? && d in ReturnsOf(ts, m, fetched).value
    requires i < |Included(ts, m, fetched)|
    requires NoReturnAt(fetched[Included(ts, m, fetched)[i]].quotes, d)
    ensures ReturnsOf(ts, m, fetched).value[d] == NaN
  {
    var vs := Included(ts, m, fetched);
    AccumulatedNaN(vs, m, fetched, Zeros(fetched[vs[0]].quotes), d, i);
  }

  /** A download has a return on date d: d is one of its dates but not the
      first, and the previous price is not zero. */
  predicate HasReturn(q: seq<Quote>, d: int)
  {
    var k := Find(q, d);
    0 < k < |q| && q[k - 1].adjClose != 0.0
  }

  /** The return on date d: the price's change from the previous row. */
  function ReturnAt(q: seq<Quote>, d: int): real
    requires HasReturn(q, d)
  {
    var k := Find(q, d);
    q[k].adjClose / q[k - 1].adjClose - 1.0
  }

  /** On a date with a return, the price series' change is that return. */
  lemma ChangesAt(q: seq<Quote>, d: int)
    requires HasReturn(q, d)
    ensures d in Changes(q) && Changes(q)[d] == Fin(ReturnAt(q, d))
  {
    assert d in DatesOf(q);
  }

  lemma ContributionAt(q: seq<Quote>, weight: real, d: int)
    requires HasReturn(q, d)
    ensures d in Contribution(q, weight)
    ensures Contribution(q, weight)[d] == Fin(ReturnAt(q, d) * weight)
  {
    ChangesAt(q, d);
    MulFinite(ReturnAt(q, d), weight);
  }

  lemma AddAlignedAt(a: Returns, b: Returns, d: int)
    requires d in a && d in b
    ensures d in AddAligned(a, b) && AddAligned(a, b)[d] == Add(a[d], b[d])
  {
  }

  lemma MulFinite(x: real, y: real)
    ensures Mul(Fin(x), Fin(y)) == Fin(x * y)
  {
  }

  /** Additions one after another, from s0. */
  function AddAll(s0: Ext, xs: seq<Ext>): Ext
  {
    if |xs| == 0 then s0 else Add(AddAll(s0, xs[..|xs| - 1]), xs[|xs| - 1])
  }

  /** Additions of finite values are the finite sum. */
  lemma {:induction false} AddAllFinite(s0: real, xs: seq<Ext>, ys: seq<real>)
    requires |xs| == |ys| && forall i :: 0 <= i < |xs| ==> xs[i] == Fin(ys[i])
    ensures AddAll(Fin(s0), xs) == Fin(s0 + Stats.Sum(ys))
  {
    if |xs| > 0 {
      var n := |xs| - 1;
      assert forall i :: 0 <= i < n ==> xs[..n][i] == xs[i] && ys[..n][i] == ys[i];
      AddAllFinite(s0, xs[..n], ys[..n]);
    }
  }

  /** The weighted changes of the tickers vs on a date d that each has. */
  function ValuesAt(vs: seq<string>, m: map<string, Asset>, fetched: map<string, StockData>, d: int)
    : (r: seq<Ext>)
    requires AllEligible(vs, m, fetched)
    requires forall i :: 0 <= i < |vs| ==> d in DatesOf(fetched[vs[i]].quotes)
    ensures |r| == |vs|
  {
    seq(|vs|, i requires 0 <= i < |vs| => Contribution(fetched[vs[i]].quotes, m[vs[i]].weight)[d])
  }

  lemma ValuesAtLast(vs: seq<string>, m: map<string, Asset>, fetched: map<string, StockData>, d: int)
    requires AllEligible(vs, m, fetched) && |vs| > 0
    requires forall i :: 0 <= i < |vs| ==> d in DatesOf(fetched[vs[i]].quotes)
    ensures AllEligible(vs[..|vs| - 1], m, fetched)
    ensures ValuesAt(vs, m, fetched, d)[..|vs| - 1] == ValuesAt(vs[..|vs| - 1], m, fetched, d)
    ensures ValuesAt(vs, m, fetched, d)[|vs| - 1] ==
      Contribution(fetched[vs[|vs| - 1]].quotes, m[vs[|vs| - 1]].weight)[d]
  {
    var init := vs[..|vs| - 1];
    assert forall i :: 0 <= i < |init| ==> init[i] == vs[i];
  }

  /** Where every series has the date, the running sum there is the start
      plus each series' value there, added in order. */
  lemma {:induction false} AccumulatedAt(vs: seq<string>, m: map<string, Asset>,
                                         fetched: map<string, StockData>, start: Returns, d: int)
    requires AllEligible(vs, m, fetched)
    requires forall i :: 0 <= i < |vs| ==> d in DatesOf(fetched[vs[i]].quotes)
    requires d in start
    ensures d in Accumulated(vs, m, fetched, start)
    ensures Accumulated(vs, m, fetched, start)[d] == AddAll(start[d], ValuesAt(vs, m, fetched, d))
  {
    if |vs| > 0 {
      var init := vs[..|vs| - 1];
      var t := vs[|vs| - 1];
      assert forall i :: 0 <= i < |init| ==> init[i] == vs[i];
      AccumulatedAt(init, m, fetched, start, d);
      var xs := ValuesAt(vs, m, fetched, d);
      var acc, c := Accumulated(init, m, fetched, start), Contribution(fetched[t].quotes, m[t].weight);
      ValuesAtLast(vs, m, fetched, d);
      AddAlignedAt(acc, c, d);
      assert Accumulated(vs, m, fetched, start) == AddAligned(acc, c);
      assert AddAll(start[d], xs) == Add(AddAll(start[d], xs[..|init|]), xs[|init|]);
    }
  }

  lemma ValueAtFinite(vs: seq<string>, m: map<string, Asset>, fetched: map<string, StockData>,
                      d: int, i: nat)
    requires AllEligible(vs, m, fetched) && i < |vs|
    requires forall i :: 0 <= i < |vs| ==> HasReturn(fetched[vs[i]].quotes, d)
    ensures forall i :: 0 <= i < |vs| ==> d in DatesOf(fetched[vs[i]].quotes)
    ensures ValuesAt(vs, m, fetched, d)[i] == Fin(WeightedReturns(vs, m, fetched, d)[i])
  {
    var q, w := fetched[vs[i]].quotes, m[vs[i]].weight;
    ContributionAt(q, w, d);
    assert ValuesAt(vs, m, fetched, d)[i] == Contribution(q, w)[d];
    assert WeightedReturns(vs, m, fetched, d)[i] == ReturnAt(q, d) * w;
  }

  /** Each included ticker's return on d times its weight. */
  function WeightedReturns(vs: seq<string>, m: map<string, Asset>, fetched: map<string, StockData>,
                           d: int): (r: seq<real>)
    requires AllEligible(vs, m, fetched)
    requires forall i :: 0 <= i < |vs| ==> HasReturn(fetched[vs[i]].quotes, d)
    ensures |r| == |vs|
  {
    seq(|vs|, i requires 0 <= i < |vs| => ReturnAt(fetched[vs[i]].quotes, d) * m[vs[i]].weight)
  }

  /** Where every ticker of vs has a return on d, the running sum there is
      the start plus the weighted returns. */
  lemma AccumulatedFinite(vs: seq<string>, m: map<string, Asset>, fetched: map<string, StockData>,
                          start: Returns, d: int)
    requires AllEligible(vs, m, fetched)
    requires forall i :: 0 <= i < |vs| ==> HasReturn(fetched[vs[i]].quotes, d)
    requires d in start && start[d].Fin?
    ensures d in Accumulated(vs, m, fetched, start)
    ensures Accumulated(vs, m, fetched, start)[d] ==
      Fin(start[d].v + Stats.Sum(WeightedReturns(vs, m, fetched, d)))
  {
    var xs := ValuesAt(vs, m, fetched, d);
    var ys := WeightedReturns(vs, m, fetched, d);
    forall i | 0 <= i < |vs|
      ensures xs[i] == Fin(ys[i])
    {
      ValueAtFinite(vs, m, fetched, d, i);
    }
    AccumulatedAt(vs, m, fetched, start, d);
    AddAllFinite(start[d].v, xs, ys);
  }

  /** On a date where every included ticker has a return, the portfolio
      return is the sum of those returns, each times its weight. */
  lemma ReturnsSum(ts: seq<string>, m: map<string, Asset>, fetched: map<string, StockData>,
                   d: int)
    requires ReturnsOf(ts, m, fetched).Some?
    requires forall i :: 0 <= i < |Included(ts, m, fetched)| ==>
      HasReturn(fetched[Included(ts, m, fetched)[i]].quotes, d)
    ensures d in ReturnsOf(ts, m, fetched).value
    ensures ReturnsOf(ts, m, fetched).value[d] ==
      Fin(Stats.Sum(WeightedReturns(Included(ts, m, fetched), m, fetched, d)))
  {
    var vs := Included(ts, m, fetched);
    var q := fetched[vs[0]].quotes;
    assert HasReturn(q, d);
    AccumulatedFinite(vs, m, fetched, Zeros(q), d);
  }


  /** Returns as a series on the dates of the download q, in its row
      order: NaN on a date the returns lack. */
  function SeriesOn(value: Returns, q: seq<Quote>): (s: seq<Ext>)
    ensures |s| == |q|
  {
    seq(|q|, k requires 0 <= k < |q| => if q[k].date in value then value[q[k].date] else NaN)
  }

  /** The portfolio returns as the series handed on to the cumulative
      return: on the dates of the first included download. */
  function ReturnSeries(ts: seq<string>, m: map<string, Asset>, fetched: map<string, StockData>)
    : seq<Ext>
    requires ReturnsOf(ts, m, fetched).Some?
  {
    SeriesOn(ReturnsOf(ts, m, fetched).value, fetched[Included(ts, m, fetched)[0]].quotes)
  }

  /** The series starts with NaN: the first date has no previous price. */
  lemma ReturnSeriesLeadsWithNaN(ts: seq<string>, m: map<string, Asset>,
                                 fetched: map<string, StockData>)
    requires ReturnsOf(ts, m, fetched).Some?
    ensures |ReturnSeries(ts, m, fetched)| > 0 && ReturnSeries(ts, m, fetched)[0].NaN?
  {
    var vs := Included(ts, m, fetched);
    var q := fetched[vs[0]].quotes;
    var d := q[0].date;
    assert d in DatesOf(q);
    ReturnsDates(ts, m, fetched);
    ReturnsNaN(ts, m, fetched, d, 0);
  }

  lemma {:induction false} DateOfRow(q: seq<Quote>, k: nat)
    requires k < |q|
    ensures q[k].date in DatesOf(q)
  {
    if k > 0 {
      assert q[1..][k - 1] == q[k];
      DateOfRow(q[1..], k - 1);
    }
  }

  /** Every row of the first included download carries the portfolio
      return on its date: the series is the returns, row by row. */
  lemma ReturnSeriesAt(ts: seq<string>, m: map<string, Asset>, fetched: map<string, StockData>,
                       k: nat)
    requires ReturnsOf(ts, m, fetched).Some?
    requires k < |fetched[Included(ts, m, fetched)[0]].quotes|
    ensures fetched[Included(ts, m, fetched)[0]].quotes[k].date in ReturnsOf(ts, m, fetched).value
    ensures ReturnSeries(ts, m, fetched)[k] ==
      ReturnsOf(ts, m, fetched).value[fetched[Included(ts, m, fetched)[0]].quotes[k].date]
  {
    var q := fetched[Included(ts, m, fetched)[0]].quotes;
    DateOfRow(q, k);
    ReturnsDates(ts, m, fetched);
  }

  /** As written, main.py passes these returns to the cumulative return,
      which reads them as prices: the first two values are 0 whatever the
      returns, and with returns that are never 0 each later value is the
      return relative to the second day's return, minus 1. */
  lemma PortfolioCumulativeAsWritten(ts: seq<string>, m: map<string, Asset>,
                                     fetched: map<string, StockData>, s: seq<Ext>)
    requires ReturnsOf(ts, m, fetched).Some? && s == ReturnSeries(ts, m, fetched) && |s| >= 2
    ensures Processing.CumulativeReturns(s)[0] == Fin(0.0)
    ensures Processing.CumulativeReturns(s)[1] == Fin(0.0)
    ensures (forall j :: 1 <= j < |s| ==> s[j].Fin? && s[j].v != 0.0) ==>
      forall i :: 1 <= i < |s| ==> Processing.CumulativeReturns(s)[i] == Fin(s[i].v / s[1].v - 1.0)
  {
    ReturnSeriesLeadsWithNaN(ts, m, fetched);
    Processing.CumulativeOfNaNLedSeries(s);
  }

  // ---------------------------------------------------------------------
  // The calculation, as the loops of the panel

  /** The loop over the holdings that keeps the usable tickers. */
  method IncludedPass(ts: seq<string>, m: map<string, Asset>, fetched: map<string, StockData>)
    returns (valid: seq<string>)
    ensures valid == Included(ts, m, fetched)
  {
    valid := [];
    var j := 0;
    while j < |ts|
      invariant 0 <= j <= |ts|
      invariant valid == Included(ts[..j], m, fetched)
    {
      var t := ts[j];
      assert ts[..j + 1][..j] == ts[..j];
      if t in m && m[t].weight > 0.0 {
        if t in fetched && |fetched[t].quotes| > 0 && fetched[t].hasAdjClose {
          valid := valid + [t];
        }
      }
      j := j + 1;
    }
    assert ts[..|ts|] == ts;
  }

  /** The loop that adds each included ticker's weighted changes. */
  method AccumulatePass(vs: seq<string>, m: map<string, Asset>, fetched: map<string, StockData>,
                        start: Returns)
    returns (acc: Returns)
    requires AllEligible(vs, m, fetched)
    ensures acc == Accumulated(vs, m, fetched, start)
  {
    acc := start;
    var j := 0;
    while j < |vs|
      invariant 0 <= j <= |vs|
      invariant acc == Accumulated(vs[..j], m, fetched, start)
    {
      var t := vs[j];
      assert vs[..j + 1][..j] == vs[..j];
      acc := AddAligned(acc, Contribution(fetched[t].quotes, m[t].weight));
      j := j + 1;
    }
    assert vs[..|vs|] == vs;
  }

  /** The return calculation of the panel, on the portfolio held. */
  method PortfolioReturns(p: Portfolio, fetched: map<string, StockData>)
    returns (r: Option<Returns>)
    ensures r == ReturnsOf(p.tickers, p.assets, fetched)
  {
    var valid := IncludedPass(p.tickers, p.assets, fetched);
    if |valid| == 0 {
      return None;
    }
    var acc := AccumulatePass(valid, p.assets, fetched, Zeros(fetched[valid[0]].quotes));
    r := Some(acc);
  }
}
