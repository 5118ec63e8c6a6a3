# Portfolio simulator: verified model

A Dafny model of the Streamlit portfolio simulator in
`Assignment_HC/streamlit_task`. The model has two parts.

The first part is the metrics library `processing.py`:
- cumulative returns from prices;
- annual volatility;
- Sharpe, Sortino and information ratios;
- maximum drawdown;
- value at risk;
- tracking error;
- alpha and beta against a benchmark.

The second part is the state-changing core of the app `main.py`:
- the portfolio held in the session (tickers in insertion order, the assets
  and the total value);
- the callbacks that add and delete assets;
- the allocation loop that turns the widget readings into weights, values
  and class totals;
- the normalisation of weights that add up to more than 100%;
- the loop that builds the weighted daily portfolio return from the price
  downloads.

Layout:
- `ext_real.dfy` (module `ExtReal`): float64 values over exact reals: finite,
  +inf, -inf and NaN, with the IEEE 754 rules for addition, subtraction,
  multiplication, division and comparison. Unguarded divisions in the source
  (a Sharpe ratio with no spread, a drawdown from a zero peak) therefore give
  the infinities and NaNs that numpy gives.
- `stats.dfy` (module `Stats`): sums, means, variance and covariance with a
  `ddof`, sorting, and pandas' linear-interpolation quantile. The square
  root is a function parameter constrained by `SqrtLaw`.
- `processing.dfy` (module `Processing`): `processing.py`. A series of
  returns is a `seq<Option<real>>`, where `None` is NaN and pandas skips it.
  A labelled series is a sequence of `Point(date, value)`.
- `composition.dfy` (module `Composition`): the portfolio as a class
  `Portfolio` whose methods update its fields, and the allocation and
  normalisation loops as methods proved against functions of the old state.
- `performance.dfy` (module `Performance`): the return calculation of the
  performance panel. The downloads are a parameter `fetched`, and a
  date-labelled series is a `map<int, Ext>`.
- `wrappers.dfy` (module `Wrappers`): `Option`.

## Model

| member | source | states |
|---|---|---|
| Processing.Present | Assignment_HC/streamlit_task/processing.py:20 | the values pandas does not skip: empty exactly when every value is NaN |
| Processing.PresentMembers | Assignment_HC/streamlit_task/processing.py:20 | a number is among the values pandas computes on exactly when it is one of the non-NaN entries |
| Processing.LastValidSpec | Assignment_HC/streamlit_task/processing.py:9 | the value pct_change divides by is the last non-NaN value at or before the position, NaN exactly when there is none |
| Processing.CompoundedStep | Assignment_HC/streamlit_task/processing.py:12 | the recurrence `cumprod` defines, on any series including NaN and infinite terms: 1 + c[i] is 1 + c[i - 1] times 1 + r[i]. The corrected Processing.CumulativeOfReturnsStep is proved from it |
| Processing.CumulativeFrom | Assignment_HC/streamlit_task/processing.py:8-12 | for a series that is NaN before position k and non-zero from k on, the cumulative return is 0 up to k, and after that the value relative to the one at k, minus 1 |
| Processing.CumulativeTelescopes | Assignment_HC/streamlit_task/processing.py:4-13 | for non-zero prices the cumulative return at i is price[i] / price[0] - 1 |
| Processing.CumulativeOfNaNLed | Assignment_HC/streamlit_task/processing.py:4-13 | a series with a leading NaN and non-zero values after it: the first two cumulative values are 0, and each later one is relative to the second value |
| Processing.CumulativeSecondOfNaNLed | Assignment_HC/streamlit_task/processing.py:9-12 | after a leading NaN the second cumulative value is 0, whatever follows |
| Processing.Peak | Assignment_HC/streamlit_task/processing.py:33 | the largest finite value seen, NaN exactly when there is none; it is one of the values |
| Processing.RunningPeakProperties | Assignment_HC/streamlit_task/processing.py:33 | the expanding maximum is at least each finite value, is a value already seen, and never decreases |
| Processing.MinSkipNaN | Assignment_HC/streamlit_task/processing.py:35 | Series.min(): NaN exactly when every value is NaN, otherwise one of the values, at most every non-NaN value |
| Processing.MaxDrawdownNonpos | Assignment_HC/streamlit_task/processing.py:29-35 | over finite values starting at a non-negative one, the maximum drawdown is NaN or at most 0 |
| Processing.MaxDrawdownOfPrices | Assignment_HC/streamlit_task/processing.py:29-35 | for non-zero prices, the maximum drawdown of their cumulative returns is NaN or at most 0 |
| Processing.AnnualVolatilityCases | Assignment_HC/streamlit_task/processing.py:16-20 | NaN exactly below two returns; otherwise a non-negative number, 0 exactly when every return is the same |
| Stats.StdZero | Assignment_HC/streamlit_task/processing.py:20 | above ddof values the deviation is a non-negative number, 0 exactly for constant values |
| Processing.SharpeRatioCases | Assignment_HC/streamlit_task/processing.py:22-27 | NaN below two returns; with spread, a number whose sign is that of mean - rf / 252; for constant returns +inf, -inf or NaN |
| Processing.AnnualisedRatioCases | Assignment_HC/streamlit_task/processing.py:26-27 | the sign of (mean - k) / std * sqrt(252) is the sign of mean - k; with no spread the division gives an infinity or NaN |
| Stats.Sort | Assignment_HC/streamlit_task/processing.py:51 | sorted, and a permutation of its input |
| Stats.QuantileBetween | Assignment_HC/streamlit_task/processing.py:51 | the quantile of a non-empty series is finite and lies between two of its values |
| Processing.QuantileLossCases | Assignment_HC/streamlit_task/processing.py:51-57 | the annualised loss is NaN exactly for no values, and otherwise minus the quantile times sqrt(period) |
| Processing.QuantileLossSign | Assignment_HC/streamlit_task/processing.py:51-57 | the loss is at most 0 when no value is negative, and at least 0 when no value is positive |
| Processing.ValueAtRiskCases | Assignment_HC/streamlit_task/processing.py:38-57 | fails (pandas' ValueError) exactly when there are returns and the confidence is outside [0, 1]; otherwise NaN exactly when no return is present, else the annualised loss at the (1 - confidence) quantile, with its sign bounds |
| Processing.Lookup | Assignment_HC/streamlit_task/processing.py:78 | None exactly when no point has the date; otherwise the value of a point with that date |
| Processing.LookupDistinct | Assignment_HC/streamlit_task/processing.py:78 | with distinct dates, the lookup finds the point that has the date |
| Processing.AlignedSound | Assignment_HC/streamlit_task/processing.py:78-81 | every aligned row is a portfolio value and a benchmark value on the same date |
| Processing.AlignedComplete | Assignment_HC/streamlit_task/processing.py:78-81 | every date on which both series have values gives a row |
| Processing.AlignedSymmetric | Assignment_HC/streamlit_task/processing.py:78-81 | with distinct dates, (d, x, y) is a row of one alignment exactly when (d, y, x) is a row of the other |
| Processing.TrackingErrorCases | Assignment_HC/streamlit_task/processing.py:59-61 | NaN exactly when no date aligns; otherwise a non-negative number, 0 exactly when the active return never varies |
| Processing.InformationRatioCases | Assignment_HC/streamlit_task/processing.py:63-66 | NaN with no aligned date; with a varying active return, a number whose sign is that of the mean active return; otherwise +inf, -inf or NaN |
| Processing.Downside | Assignment_HC/streamlit_task/processing.py:71 | each term is at most 0 and at most the excess return, and is one of the two; it is 0 exactly for excess returns that are not negative |
| Processing.DownsideDeviationZero | Assignment_HC/streamlit_task/processing.py:70-72 | for at least one return, a non-negative number, 0 exactly when no return is below rf / 252 |
| Processing.SortinoRatioCases | Assignment_HC/streamlit_task/processing.py:68-73 | NaN exactly when there are no returns or none below rf / 252; otherwise the annualised mean excess return over a positive downside deviation |
| Stats.CovarianceSelf | Assignment_HC/streamlit_task/processing.py:89 | the covariance of a series with itself is its variance, with the same divisor |
| Stats.VarianceZero | Assignment_HC/streamlit_task/processing.py:90-93 | above ddof values the variance is 0 exactly for constant values |
| Processing.AlphaBetaFromCases | Assignment_HC/streamlit_task/processing.py:89-97 | both NaN exactly when the benchmark never moves; otherwise beta times the variance is the covariance, and alpha is 252 times the intercept |
| Processing.AlphaBetaCases | Assignment_HC/streamlit_task/processing.py:75-97 | both NaN exactly when fewer than two rows align or the benchmark never moves; otherwise the regression identities over the aligned columns |
| Processing.SelfBetaAsWritten | Assignment_HC/streamlit_task/processing.py:89-90 | a moving benchmark against itself has beta n / (n - 1) > 1 |
| Processing.SelfBetaConsistent | Assignment_HC/streamlit_task/processing.py:89-90 | with the variance and covariance on one divisor, a moving benchmark against itself has beta 1 and alpha 0 |
| Processing.DrawdownOfFallingPrices | Assignment_HC/streamlit_task/processing.py:33-34 | prices 100 then 90 give cumulative returns [0, -0.1] and a maximum drawdown of -inf |
| Processing.WealthMaxDrawdownBounds | Assignment_HC/streamlit_task/processing.py:33-34 | for positive prices, the drawdown taken on wealth 1 + c is a finite loss in (-1, 0] |
| Processing.WealthDrawdownOfFallingPrices | Assignment_HC/streamlit_task/processing.py:33-34 | on wealth, the fall from 100 to 90 is a drawdown of -0.1 |
| Processing.CumulativeOfReturnsExample | Assignment_HC/streamlit_task/main.py:248 | returns [NaN, 0.1, 0.1] give cumulative returns [0, 0, 0] as written, and [0, 0.1, 0.21] when compounded |
| Processing.CumulativeOfConstantReturns | Assignment_HC/streamlit_task/main.py:248 | as written, a constant non-zero daily return after the leading NaN shows a cumulative return of 0 on every day |
| Processing.CumulativeOfReturnsStep | Assignment_HC/streamlit_task/main.py:248 | the corrected cumulative return compounds each return present and carries the previous value over a NaN |
| Composition.ClassIndex | Assignment_HC/streamlit_task/main.py:19-24 | every asset class has a position among the four classes |
| Composition.ClassesDistinct | Assignment_HC/streamlit_task/main.py:19-24 | the four classes and their names are distinct |
| Composition.UpperIdempotent | Assignment_HC/streamlit_task/main.py:55 | upper-casing twice is upper-casing once; it gives "" only for "" |
| Composition.UpperIsTicker | Assignment_HC/streamlit_task/main.py:55-57 | upper-casing a non-empty string gives a non-empty string with no letter a-z |
| Composition.Without | Assignment_HC/streamlit_task/main.py:76 | removes exactly the ticker, keeping the rest distinct |
| Composition.Portfolio.constructor | Assignment_HC/streamlit_task/main.py:35-38 | an empty portfolio with a total value of $100,000 |
| Composition.Portfolio.CoversTickers | Assignment_HC/streamlit_task/main.py:57-77 | in a valid portfolio the tickers in insertion order are exactly the keys of the held assets, as the keys of one dict are |
| Composition.Portfolio.SetTotalValue | Assignment_HC/streamlit_task/main.py:127-131 | the total value becomes the input, everything else stays, and the invariant holds |
| Composition.Portfolio.AddAsset | Assignment_HC/streamlit_task/main.py:48-68 | a new non-empty upper-cased ticker is added at the end with weight and value 0; a held ticker or an empty one changes nothing; it reports which case occurred and keeps the invariant |
| Composition.Portfolio.DeleteAsset | Assignment_HC/streamlit_task/main.py:70-79 | a held ticker is removed from the assets and the order, with everything else kept; an unknown ticker changes nothing |
| Composition.ReallocatedClassSound | Assignment_HC/streamlit_task/main.py:159-178 | one class's inner loop keeps every weight and value in range, keeps each asset's class, and leaves the assets of the other classes as they were |
| Composition.ReallocatedSound | Assignment_HC/streamlit_task/main.py:171-178 | a widget reading in range gives a weight in [0, 1], a non-negative value equal to weight times total value, and the same class and type |
| Composition.ReallocatedAllSound | Assignment_HC/streamlit_task/main.py:171-178 | reallocating every asset keeps the weights and values in range, each value the weight's share of the total |
| Composition.PassValue | Assignment_HC/streamlit_task/main.py:159-178 | a pass over some tickers reallocates the class's assets among them and leaves every other asset as it was |
| Composition.StagesComplete | Assignment_HC/streamlit_task/main.py:148-178 | after the four class passes every held asset is reallocated |
| Composition.ClassTotalsAddUp | Assignment_HC/streamlit_task/main.py:149-150 | the four class totals add up to the portfolio total |
| Composition.AllocateClassPass | Assignment_HC/streamlit_task/main.py:159-188 | the inner loop leaves the class reallocated and returns the class's new total weight and value |
| Composition.AllocatePass | Assignment_HC/streamlit_task/main.py:144-188 | the outer loop leaves every asset reallocated, returns the totals of the new weights and values, and the class totals, which each class sums before its own loop runs and which earlier classes' loops leave unchanged |
| Composition.Portfolio.Allocate | Assignment_HC/streamlit_task/main.py:144-188 | the portfolio's assets become the reallocated ones; the totals and class totals are returned; every value is its weight's share; the invariant holds |
| Composition.RescaledTotal | Assignment_HC/streamlit_task/main.py:207-208 | dividing every weight by w divides the total weight by w |
| Composition.RescaledSumsToOne | Assignment_HC/streamlit_task/main.py:205-209 | normalising by a total weight over 1 makes the weights add up to 1 |
| Composition.RescaledInRanges | Assignment_HC/streamlit_task/main.py:205-209 | normalising keeps every weight in [0, 1] and every value non-negative |
| Composition.RescalePass | Assignment_HC/streamlit_task/main.py:207-209 | the loop divides every asset's weight by w and sets its value from the new weight |
| Composition.Portfolio.NormalizeIfOver | Assignment_HC/streamlit_task/main.py:205-209 | above 1 every asset is rescaled; otherwise nothing changes |
| Composition.Portfolio.AllocationPanel | Assignment_HC/streamlit_task/main.py:144-209 | after allocation and normalisation the weights add up to at most 1 (exactly 1 if the first total was over 1), and each value is its weight's share of the total value |
| Performance.Find | Assignment_HC/streamlit_task/main.py:237 | the row of a date, past the end exactly when the download lacks the date |
| Performance.ChangeOnIsPctChange | Assignment_HC/streamlit_task/main.py:237 | the change of each row is Series.pct_change of the adjusted closes at that row |
| Performance.ChangesArePctChange | Assignment_HC/streamlit_task/main.py:237 | with distinct dates, the change on each date is pct_change at that date's row |
| Performance.Included | Assignment_HC/streamlit_task/main.py:221-229 | a ticker is kept exactly when it is held with a positive weight and its download is usable |
| Performance.IncludedPass | Assignment_HC/streamlit_task/main.py:219-229 | the loop keeps the tickers Included computes, in order |
| Performance.AccumulatePass | Assignment_HC/streamlit_task/main.py:235-237 | the loop adds the weighted changes of every included ticker to the running series with `+=` |
| Performance.PortfolioReturns | Assignment_HC/streamlit_task/main.py:219-237 | the computed return series, None when no ticker is usable |
| Performance.ReturnsNone | Assignment_HC/streamlit_task/main.py:230-232 | there is no return series exactly when no held ticker has a positive weight and usable data |
| Performance.ReturnsDates | Assignment_HC/streamlit_task/main.py:235-237 | the portfolio returns have exactly the dates of the first included download: the series starts on its index and `+=` keeps that index |
| Performance.AccumulatedKeys | Assignment_HC/streamlit_task/main.py:235-237 | adding a ticker's weighted changes with `+=` keeps the dates of the series added to |
| Performance.ReturnSeriesAt | Assignment_HC/streamlit_task/main.py:235-248 | each row of the first included download carries the portfolio return on its date, so the series handed on is the returns row by row |
| Performance.ReturnsNaN | Assignment_HC/streamlit_task/main.py:235-237 | the portfolio return is NaN on every date where some included download lacks the date or starts on it |
| Performance.ReturnsSum | Assignment_HC/streamlit_task/main.py:235-237 | on a date where every included download has a return, the portfolio return is the sum of the returns times their weights |
| Performance.ReturnSeriesLeadsWithNaN | Assignment_HC/streamlit_task/main.py:235-237 | the return series handed on to the cumulative return starts with NaN |
| Performance.PortfolioCumulativeAsWritten | Assignment_HC/streamlit_task/main.py:235-248 | as written, the cumulative return of the portfolio returns is 0 on the first two days whatever the returns, and afterwards relative to the second day's return |

## Left out

- User interface: the page layout, CSS, the markdown, metric and chart
  output, and the formatting of the results table (main.py:81-125,
  152-202, 257-314). These produce output only.
- Downloads: `get_stock_data` calls yfinance over the network, and
  `st.cache_data` caches the result. Both become the parameter `fetched`
  (what each download returned). The period radio only chooses what to
  download.
- Benchmark: the S&P 500 download and its `pct_change().dropna()`
  (main.py:239-245), the path where the benchmark is None, and the second
  alignment of the cumulative series for the chart (main.py:250-255). The
  benchmark metrics take a benchmark series as an argument.
- The reporting lines of the results panel: `(1 + mean) ** 252 - 1`,
  `cumulative_returns.iloc[-1]`, the start and end dates, and the
  `IndexError` handler (main.py:274-277, 311-312).
- Widgets: the slider and dollar readings are the map `inputs`. `InRange`
  states the range each widget accepts. The value a widget keeps across
  reruns is not modelled.
- Delete inside the loop: the Delete button in the allocation loop and
  `st.rerun()` (main.py:181-183, 78-79) are not modelled. The model's
  `DeleteAsset` is the callback itself, and a run of the allocation loop
  cut short by a rerun is not modelled.
- Asset type: any string. The type selectbox offers only the types of the
  chosen class (main.py:136), and that dependency is not modelled.
- Composition.Upper: upper-cases the ASCII letters a-z only. Python's
  `str.upper` also maps other letters, for example "ß" to "SS".
- Composition.Portfolio.AddAsset: weaker than the source for tickers with
  letters outside a-z, since `Composition.Upper` is ASCII-only.
- Floating point: values are exact reals, so rounding, overflow and the
  sign of zero are not modelled. A zero divisor is taken to be +0.
- Infinite returns in the metrics: a zero adjusted close makes the next
  day's `pct_change` +inf or -inf. `Performance.ChangeOn` produces these
  values, but the single-series metrics take returns as `Option<real>`
  (finite or NaN), and the labelled series hold `Option<real>` too. The
  metrics below therefore do not model how an infinite return spreads
  through a mean, a deviation or a quantile.
- Processing.AnnualVolatility: takes finite or NaN returns only; an
  infinite return is not modelled.
- Processing.SharpeRatio: takes finite or NaN returns only; an infinite
  return is not modelled.
- Processing.SortinoRatio: takes finite or NaN returns only; an infinite
  return is not modelled.
- Processing.ValueAtRisk: takes finite or NaN returns only; an infinite
  return, which would move the quantile, is not modelled.
- Processing.TrackingError: its series points hold finite or NaN values
  only; an infinite return is not modelled.
- Processing.InformationRatio: its series points hold finite or NaN values
  only; an infinite return is not modelled.
- Processing.AlphaBetaOf: its series points hold finite or NaN values
  only; an infinite return is not modelled.
- Square root: `np.sqrt` is a parameter `sqrt` that `SqrtLaw` requires to
  be the exact non-negative square root on every x >= 0. The rounding of
  `np.sqrt` is not modelled.
- Processing.Lookup: takes the first row of a date that repeats.
- Performance.ChangeOn: every row of a download has a real adjusted close.
  A row whose Adj Close is missing (NaN), which `pct_change` would pad over
  with the last close before it, is not modelled for the portfolio
  returns. Processing.CumulativeReturns does model that pad-fill.
- Processing.Aligned: pairs each portfolio point with one benchmark point,
  the first with its date. pandas' inner join gives one row per pair of
  equal labels. The two agree when the benchmark's dates are distinct.
- Performance.Find: likewise takes the first row of a repeated date.
  Repeated dates in a download are not modelled.
- Processing.TrackingError and Processing.InformationRatio: defined on the
  inner join of the two series. main.py:281-282 pass the series
  unaligned; their difference outer-joins, with NaN on dates one side
  lacks, and the NaNs are then skipped. The values are the same.
- Processing.SharpeRatio and Processing.InformationRatio: the source has
  no guard against zero spread, and the model adds none. With no spread
  they give +inf, -inf or NaN, as the Cases lemmas state.
  Processing.TrackingError divides by nothing: with no spread it is 0,
  as Processing.TrackingErrorCases states.
- Processing.ValueAtRisk: models the `ValueError` pandas raises for a
  quantile level outside [0, 1] as `None`. Other exception types are not
  modelled.
- The DataFrame branch of `calculate_cumulative_returns` (processing.py:
  10-11): main.py passes a Series only.
- `fig.py` and `query.py` are not part of this model.

## Findings

| source | as written | input that shows it | evidently intended | confidence | as-written member | corrected member |
|---|---|---|---|---|---|---|
| Assignment_HC/streamlit_task/main.py:248 | the daily portfolio returns are passed to `calculate_cumulative_returns`, which expects prices and takes their `pct_change` | daily returns [NaN, 0.1, 0.1] give cumulative returns [0, 0, 0] | compound the returns: [0, 0.1, 0.21] | not executed; high | Processing.CumulativeOfReturnsExample, Performance.PortfolioCumulativeAsWritten | Processing.CumulativeOfReturns (property: Processing.CumulativeOfReturnsStep) |
| Assignment_HC/streamlit_task/processing.py:89-90 | beta is `np.cov` (divisor n - 1) over `np.var` (divisor n) | a benchmark that moves, against itself: beta n / (n - 1), for example 2 over two days | the same divisor on both sides, so beta 1 against itself | not executed; high | Processing.SelfBetaAsWritten | Processing.AlphaBetaConsistent (property: Processing.SelfBetaConsistent) |
| Assignment_HC/streamlit_task/processing.py:33-34 | the drawdown is (c - peak) / peak on the cumulative returns c, whose peak starts at 0 | prices 100 then 90: cumulative returns [0, -0.1] and a drawdown of -0.1 / 0 = -inf | the usual definition, on the wealth path 1 + c: a drawdown of -10% | not executed; medium | Processing.DrawdownOfFallingPrices | Processing.WealthMaxDrawdown (properties: Processing.WealthMaxDrawdownBounds, Processing.WealthDrawdownOfFallingPrices) |
