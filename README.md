# Forecast App: hyperparameter grid search

This project models the core of the "Validate" action of a Streamlit
forecasting page (`app.py`). The action builds a grid of Prophet
hyperparameters and backtests each configuration in turn. It then ranks
the configurations by an error metric and stores the best one in the page
session.

The model has four modules.

- `Grid` (`grid.dfy`) covers `create_param_grid` and the Cartesian-product
  expansion. The four structural settings are fixed singletons. There are
  four changepoint prior scales (0.5, 1, 5, 10) and four seasonality prior
  scales (5, 10, 15, 20). `FlatMap`/`AllParams` model `itertools.product`
  with the last key varying fastest. The lemmas show that the expansion has
  16 pairwise distinct entries. Entry `p` holds changepoint scale `p / 4`
  and seasonality scale `p % 4`.
- `Search` (`search.dfy`) covers the search loop.
  - The Prophet fit and the cross validation are outside the model. The
    result of backtesting configuration `i` is the input `outcomes[i]`:
    - `BacktestFails`: `cross_validation` raised `ValueError`.
    - `MetricMissing`: the chosen metric column is absent, so `KeyError`.
    - `Value(e)`: the metric's value.
  - `yNearZero` stands for the test `df['y'].min() < 1e-8`.
  - `RunSearch` is the loop itself, proved against the specification
    functions `StopIndex` and `SearchErrors`.
- `Ranking` (`ranking.dfy`) covers the results table. It is sorted by
  ascending error, a permutation of the (configuration, error) rows. The
  optimum is the configuration at the first index of the minimal error.
- `App` (`session.dfy`) covers the session object, whose `params` and
  `cvTable` fields the action updates in place, and the whole `Validate`
  action.

## Model

| member | source | states |
|---|---|---|
| Grid.CreateParamGrid | app.py:18-30 | the four structural settings become one-element lists holding exactly the given values; the changepoint list is exactly 0.5, 1, 5, 10 and the seasonality list exactly 5, 10, 15, 20, each pairwise distinct |
| Grid.AllParams | app.py:125 | the `itertools.product` expansion as nested concatenations, last key fastest; it has no contract of its own, and `ExpandAt`, `GridExpansion` and `ProductIsValidationGrid` describe it |
| Grid.FlatMapLength | app.py:125 | when every element expands to `k` items, the product expansion has `BlockStart(|xs|, k)` items, i.e. the product of the list lengths |
| Grid.FlatMapAt | app.py:125 | item `j` of the block contributed by element `i` sits at position `i*k + j` of the expansion (row-major order of `itertools.product`) |
| Grid.BlockStartIsProduct | app.py:125 | the block offset used for the expansion order equals `i * k` |
| Grid.ExpandAt | app.py:122-125 | for any grid with singleton structural lists, the expansion has `|cps| * |sps|` entries and entry `i*|sps| + j` combines the fixed settings with changepoint scale `i` and seasonality scale `j` |
| Grid.ExpandFourByFour | app.py:122-125 | with 4 values per prior-scale list, there are 16 entries and entry `p` uses changepoint scale `p / 4` and seasonality scale `p % 4` |
| Grid.GridAt | app.py:122-125 | the grid built from the four settings has entry `p` equal to the settings with changepoint scale `ChangepointScales[p / 4]` and seasonality scale `SeasonalityScales[p % 4]` |
| Grid.GridExpansion | app.py:122-125 | the product over the grid from `create_param_grid` has exactly 16 configurations, all sharing the four structural settings, in the stated order |
| Grid.ExpandFourByFourDistinct | app.py:125 | two different positions of a 4x4 expansion with distinct scale lists hold different configurations |
| Grid.GridDistinct | app.py:125 | the 16 configurations are pairwise distinct |
| Grid.ProductIsValidationGrid | app.py:122-125 | the product expansion equals the closed-form 16-entry grid `ValidationGrid` |
| Grid.ExpandGrid | app.py:122-125 | the two statements that build `all_params` yield the 16-entry `ValidationGrid` |
| Search.StopsSearch | app.py:141-158 | a backtest failure always ends the search, a value never does, a missing metric does when the metric is MAPE and y is near zero, and otherwise only a backtest failure does |
| Search.StopIndex | app.py:134-158 | the loop leaves at the first backtest failure, or at the first missing metric when the metric is MAPE and y is near zero; no earlier outcome stops it |
| Search.Recorded | app.py:152-155 | the definition keeps the values of the `Value` outcomes in order; the contract bounds the length by the number of outcomes, and `RecordedStep`, `RecordedComplete` and `RecordedAllValues` describe the contents |
| Search.SearchErrors | app.py:127-158 | the errors list holds at most as many entries as configurations visited before the loop stopped |
| Search.ProgressFraction | app.py:160-161 | the progress bar value stays within [0, 1] and reaches 1 exactly when every step was taken |
| Search.BacktestWarnings | app.py:141-148 | after a backtest failure: a yearly, weekly or daily warning appears exactly when that setting is truthy (`auto` included), in yearly-weekly-daily order, followed always by the horizon warning |
| Search.AbortMessages | app.py:141-158 | the messages of a stopping outcome are never empty; they end with the horizon warning exactly after a backtest failure, and hold the near-zero MAPE error exactly otherwise |
| Search.RunSearch | app.py:127-161 | the loop's progress steps are `StopIndex`, its errors are `SearchErrors`, errors never outnumber the steps nor the steps the grid, and the progress bar reaches 1 exactly when every configuration was visited, and the messages are those of the outcome that stopped it (none if it ran to the end) |
| Search.RecordedStep | app.py:152-158 | one more outcome appends its value when it has one and otherwise leaves the errors unchanged |
| Search.StopIndexAt | app.py:134-158 | if nothing before `k` stops the loop and outcome `k` stops it, the loop stops at `k` |
| Search.CompleteSearch | app.py:134-160 | when every configuration yields a value, the loop visits all of them and records one error each |
| Search.LaterOutcomesIgnored | app.py:134-158 | once an outcome stops the loop, what later configurations would yield changes neither the stop point nor the errors |
| Search.BacktestFailureTruncates | app.py:138-149 | a backtest failure at `k`, with none earlier stopping, ends the loop at `k` |
| Search.MissingMetricSkipped | app.py:152-158 | a missing metric is skipped silently, adding no error and not stopping the loop, unless the metric is MAPE and y is near zero |
| Search.RecordedPrefix | app.py:154 | errors only grow by appending: the errors of a shorter prefix are a prefix of those of a longer one |
| Search.RecordedComplete | app.py:152-155 | there are as many errors as outcomes exactly when every outcome carries a value |
| Search.RecordedAllValues | app.py:154 | when every outcome carries a value, error `i` is the value of outcome `i` |
| Search.SearchCompleteIff | app.py:152-167 | the search yields one error per configuration if and only if every configuration yields a value, and then the errors are those values in grid order |
| Search.RunsToEnd | app.py:134-160 | if no outcome stops the loop (no backtest failure, and no missing metric in a MAPE run on near-zero data), it visits every configuration and its errors are all recorded values |
| Ranking.ResultRows | app.py:166-167 | the results table in grid order, row `i` pairing configuration `i` with error `i`; it has no contract of its own, and `Select` states that the ranked table is a permutation of these rows |
| Ranking.Insert | app.py:172 | inserting a row into a table sorted by ascending error keeps it sorted and adds exactly that row |
| Ranking.SortByError | app.py:172 | the sorted table is ordered by ascending error and is a permutation of its input rows |
| Ranking.Min | app.py:175 | `min(errors)` is an element of the list no larger than any element |
| Ranking.IndexOf | app.py:175 | `list.index` gives the first position holding the value |
| Ranking.FirstMinIndex | app.py:175 | `errors.index(min(errors))` is a valid index of a minimal error, and every earlier error is strictly larger |
| Ranking.FirstMinIndexUnique | app.py:175 | any index with that property is `FirstMinIndex`: the optimum is uniquely determined |
| Ranking.Select | app.py:163-177 | results exist if and only if there is one error per configuration; then the optimum is the configuration at the first minimal error and the table is the sorted permutation of the result rows |
| Ranking.RankedHeadHasMinimalError | app.py:172-175 | the first row of the ranked table carries the minimal error |
| App.Session.constructor | app.py:65 | a fresh session holds no parameters and an empty table, so it shows no optimum |
| App.Session.ShowsOptimum | app.py:179 | the guard for displaying the optimum: parameters stored and the table non-empty; the constructor's contract shows it is false at first, and the contracts of `StoreResults` and `Validate` show it holds after a complete run |
| App.Session.StoreResults | app.py:163-177 | with one error per configuration, the session stores the optimum and the sorted table and shows the optimum; otherwise it reports the failure and keeps its previous values |
| App.Session.Validate | app.py:120-180 | the whole action: the progress steps equal `StopIndex`; on a complete run the session holds the first-argmin configuration of the 16-entry grid and its sorted results and shows the optimum; otherwise the session is unchanged and the stop messages are followed by the results-failure error |

## Left out

- Reading the CSV (`fetch_data`), date conversion (`preprocess_data`), the day-first and upload flags, the logistic cap/floor columns, and all widgets and rendering are outside the grid search and are not modelled.
- Prophet fitting, `cross_validation` and `performance_metrics` are not part of this model; their effect on each configuration is the `outcomes` input.
- Floating point is not modelled. Errors are real numbers. The test `y.min() < 1e-8` is the boolean `yNearZero`. NaN errors are not represented.
- The progress bar value is modelled as a count of steps. `ProgressFraction` gives its value as a fraction; float rounding of the repeated `1/16` additions is not modelled.
- Ranking.SortByError: states a sorted permutation but not the tie order of pandas' `sort_values`, which is unspecified for equal errors.
- Ranking.Select: requires a non-empty grid. `min([])` would raise an uncaught error there, and the grid built by the action always has 16 entries.
- Session internals (`SessionState.get` and its rerun semantics) are reduced to a class with two fields.
- The model follows the code as written:
  - A missing metric stops the search only for MAPE with y near zero; otherwise it is skipped silently.
  - The progress bar also advances on a silently skipped configuration.
  - After a stopped or incomplete search, the column assignment fails because the lengths differ. The session then keeps its previous optimum and table; no partial optimum is ever stored.
