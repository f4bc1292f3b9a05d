# Portfolio analysis of portfolio-reporter, in Dafny

portfolio-reporter fetches a brokerage account's holdings and emails a daily
report. The report is built from one computation, `PortfolioService.analyze`
(`app/services/portfolio.py`). `PortfolioReporter.analyze_portfolio` in
`main.py` is a line-for-line copy of it. This project models that computation
and proves what its result means.

The analysis takes a list of holding records. Each record may have
`tradingsymbol`, `sector`, `quantity`, `average_price` and `last_price`. If
the list is missing or empty, the analysis returns nothing. Otherwise it
makes one pass over the holdings and, for each one:

- computes its current value, invested value, profit and loss (pnl) and a pnl
  percentage. The percentage is 0 when the invested value is not positive;
- adds the current value and pnl to the portfolio totals;
- adds the holding to the aggregate (value, pnl, count) of its sector label;
- appends a `{symbol, pnl, pnl_percentage, current_value}` entry to the gainers
  if its pnl is positive, and to the losers otherwise.

After the pass it sorts the gainers by descending pnl and the losers by
ascending pnl, with a stable sort. It then computes the portfolio pnl
percentage. Its denominator, total value less total pnl, is guarded the same
way.

Files:

- `wrappers.dfy`: `Option`, for record keys that may be missing. `GetOr` is
  dictionary `get` with a default.
- `holdings.dfy`: module `Holdings`, the holding record and the per-holding
  figures.
- `stable_sort.dfy`: module `StableSort`, the two `list.sort(key=pnl)` calls.
  `SortInPlace` is an in-place stable insertion sort on an array. It is proved
  to compute `InsertionSort`, which is proved sorted, a permutation and
  tie-preserving. `StableSortIsUnique` proves that every sorted, tie-preserving
  rearrangement equals `InsertionSort`. So Python's own stable sort gives the
  same list.
- `portfolio.dfy`: module `Portfolio`. It first states the result as functions
  of the holdings:
  - the totals;
  - `Sectors`, a group-by over the sector labels;
  - `Gainers` and `Losers`, the split in input order;
  - the `Describes` predicate, which links an `Analysis` to its holdings.

  It then has the loop (`Accumulate`) and `Analyze`, which are proved to
  compute it. `Consistent` collects the invariants that the result keeps,
  stated on the result alone.
- `reporter.dfy`: module `Reporter`, the copy in `main.py`.
- `scenarios.dfy`: module `Scenarios`, a worked example with two holdings in
  one sector. It is derived from the contract of `Analyze` alone.

Numbers are exact `real`s. A missing numeric key reads as 0. A missing sector
or symbol key reads as `"Unknown"`.

A sum over the sector aggregates is stated for every list of the sector
labels without repeats. So it holds whatever order the dictionary keeps.
`SectorOrder` is that order: first encounter, as in Python's dict.

## Model

| member | source | states |
|---|---|---|
| `Holdings.HoldingFigures` | app/services/portfolio.py:38-45 | A holding's pnl is quantity × (last price − average price). Its recorded entry carries that pnl and its current value. The entry's percentage is 0 when the invested value is ≤ 0. Otherwise the percentage × the invested value is pnl × 100. |
| `Holdings.GuardedPercentageMeaning` | app/services/portfolio.py:45 | The guarded percentage is 0 when the denominator is ≤ 0, never a division by zero. Otherwise it is the numerator in hundredths of the denominator. In that case it has the numerator's sign and is 0 exactly when the numerator is 0. The same guard is used per holding and for the portfolio (lines 78-80). |
| `Holdings.ZeroCostHolding` | app/services/portfolio.py:42-45 | 10 units bought at 0 and priced at 5 have invested value 0, pnl 50 and percentage 0. |
| `Portfolio.InvestedIsValueLessPnl` | app/services/portfolio.py:77 | Total value − total pnl equals the sum of the invested values, the denominator of the portfolio percentage. |
| `Portfolio.LabelsOccur` | app/services/portfolio.py:51-53 | A label is among the sector labels exactly when some holding carries it. |
| `Portfolio.SectorsGroupBy` | app/services/portfolio.py:50-57 | The sector map has one key for each label that occurs and no other key. Each aggregate is the value sum, pnl sum and number of exactly the holdings with that label, so its count is at least 1. A holding with no sector key is grouped under "Unknown". A label a holding does carry, the empty label included, is its own key. |
| `Portfolio.SectorsStep` | app/services/portfolio.py:52-57 | Creating a label's aggregate at zero when it is new and then adding one holding to it builds the group-by of the longer prefix. |
| `Portfolio.SectorTotals` | app/services/portfolio.py:47-57 | For any list of the sector labels without repeats, the sector values add up to the total value. The sector pnls add up to the total pnl, and the sector counts to the number of holdings. |
| `Portfolio.SectorOrderEnumerates` | app/services/portfolio.py:52-53 | The labels in first-encounter order, the dict's key order, list every sector exactly once. |
| `Portfolio.InSector` | app/services/portfolio.py:51-57 | A label that no holding carries has no holdings in its group. |
| `Portfolio.Gainers` | app/services/portfolio.py:67-68 | Every entry appended to the gainers has a pnl > 0. |
| `Portfolio.Losers` | app/services/portfolio.py:69-70 | Every entry appended to the losers has a pnl ≤ 0. A pnl of exactly 0 goes here. |
| `Portfolio.GainersLosersSplit` | app/services/portfolio.py:67-70 | The gainers and losers together have as many entries as there are holdings. As multisets they add up to the entries of all holdings. |
| `Portfolio.GainersLosersPartition` | app/services/portfolio.py:67-70 | Each holding's entry is among the gainers and not the losers when its pnl is > 0. Otherwise it is among the losers and not the gainers. |
| `Portfolio.DescribedSectorSums` | app/services/portfolio.py:47-57 | In a described analysis, the aggregates' values, pnls and counts add up to its total value, total pnl and holdings count. |
| `Portfolio.DescribedSplit` | app/services/portfolio.py:67-74 | In a described analysis, the sorted gainers and losers together have `holdings_count` entries. The gainers all have pnl > 0 and the losers pnl ≤ 0. |
| `Portfolio.DescribedPartition` | app/services/portfolio.py:67-74 | In a described analysis, each holding's entry is among the top gainers and not the top losers when its pnl is > 0. Otherwise it is among the top losers and not the top gainers. |
| `Portfolio.DescribedIsConsistent` | app/services/portfolio.py:28-82 | An analysis that describes its holdings keeps all the result invariants. The totals equal the sums over sectors. The gainers and losers split the count, with gainers > 0 and non-increasing and losers ≤ 0 and non-decreasing. The percentage is guarded on total value − total pnl. |
| `Portfolio.DescribedIsUnique` | app/services/portfolio.py:23-82 | Two analyses of the same holdings are equal. The result depends on the input alone, so analysing twice gives the same result. |
| `Portfolio.Accumulate` | app/services/portfolio.py:37-70 | The loop leaves the total value, the total pnl, the group-by sector map, and the gainers and losers in input order. |
| `Portfolio.Analyze` | app/services/portfolio.py:23-82 | It returns no result exactly when the holdings are missing or empty. Otherwise the result describes the holdings: `holdings_count` is the input length, the totals are the sums, and `sectors` is the group-by. The gainers are sorted by descending pnl and the losers by ascending pnl. Each list is a permutation of its input-order list and keeps equal-pnl entries in input order. The percentage is guarded on the invested total. The result also keeps the invariants of `Consistent`. |
| `StableSort.InsertAt` | app/services/portfolio.py:73-74 | Moving an array entry left past the entries that outrank it puts it into its place in the sorted prefix. The rest of the array is left unchanged. |
| `StableSort.SortInPlace` | app/services/portfolio.py:73-74 | Sorting the array in place leaves exactly the stable insertion sort of its old contents. |
| `StableSort.SortByPnl` | app/services/portfolio.py:73-74 | The sorted list is ordered by pnl in the requested direction. It is a permutation of the input and keeps the input order among equal pnls. |
| `StableSort.InsertionSortSorted` | app/services/portfolio.py:73-74 | The stable insertion sort is ordered by pnl in the requested direction. |
| `StableSort.InsertionSortPermutes` | app/services/portfolio.py:73-74 | The stable insertion sort is a permutation of its input. |
| `StableSort.InsertionSortKeepsTies` | app/services/portfolio.py:73-74 | For every pnl value, the entries with that pnl come out in their input order. |
| `StableSort.StableSortIsUnique` | app/services/portfolio.py:73-74 | Any sorted rearrangement that keeps ties in input order equals the insertion sort. So every stable sort by pnl gives the same list. |
| `Reporter.AnalyzePortfolio` | main.py:76-133 | The copy in the report script has the same contract as `Portfolio.Analyze`: no result for missing or empty input, otherwise the described and consistent analysis. |
| `Scenarios.TwoHoldingsFigures` | app/services/portfolio.py:37-70 | A (10 at 100, now 120) and B (5 at 200, now 150) in sector "Tech" give total value 1950, total pnl −50 and invested 2000. Tech's aggregate is (1950, −50, 2), the gainers are [A] and the losers [B]. |
| `Scenarios.TwoHoldingsAnalysis` | app/services/portfolio.py:23-82 | Any analysis that describes A and B has those figures, and its portfolio percentage is −2.5. |
| `Scenarios.TwoHoldingsInOneSector` | app/services/portfolio.py:23-82 | Running the analysis on A and B yields those figures. |

## Left out

- Fetching holdings through the KiteConnect client (`get_holdings`, app/services/portfolio.py:13-21, and `get_portfolio_holdings`, main.py:46-55) is a network call. The holdings are a parameter, and a failed fetch is the empty list it returns. The price-history fetch `get_historical_data` (main.py:57-74) feeds only the charts and is left out with them.
- Chart rendering (app/services/charts.py, main.py:135-209) is left out. So are HTML composition and SMTP sending (main.py:211-349), the `run_report`/`main` orchestration, the scheduler, the Flask routes and app factory, token-file persistence and generate_token.py. All of these are I/O, rendering or web glue around third-party libraries.
- Logging calls are left out.
- Floating point: quantities and prices are exact reals, so IEEE rounding of the Python arithmetic is not modelled.
- A key that is present with the value `None`: `get` then returns `None`, not the default. The model represents only present values and missing keys.
- Python truthiness of `holdings`: only a missing list (`None`) and an empty list are modelled as "no holdings".
- Python's `int`/`float` mix (`0` versus `0.0` in the result) is not modelled.
- The order of the `sectors` dictionary is not part of the result map. `SectorOrder` gives it, and the sums over sectors hold in every order.
- Python's sort is Timsort. The model sorts by insertion instead. `StableSortIsUnique` shows that both give the same list.
- `Portfolio.Accumulate` computes each holding's figures with the `Holdings` functions (`CurrentValue`, `InvestedValue`, `GuardedPercentage`, the defaults of `GetOr`). These are the same expressions as lines 38-45, not repeated inline.
- A sector label: only a missing `sector` key becomes "Unknown" (`holding.get('sector', 'Unknown')`, app/services/portfolio.py:51). A present empty label stays `""` and is its own key.
