# Financial risk research pipeline: a verified model

This project models the computational core of a financial risk research system.
It has four parts:

- **Research orchestrator** (`orchestrator.dfy`, `main.py`). It runs a study in three
  phases: data research, risk analysis and report generation. It saves the research
  data after phase 1 and the complete study after phase 3. Every phase result is
  checked before the next phase starts, and any exception becomes one logged
  "Research study failed: …" error. The three agents and the file saver are oracles
  (function-typed fields). A ghost trace records every call made to them, so the
  order of the phases and saves can be stated and proved.
- **Market-data tool** (`financial_data.dfy`, `tools/financial_data_tool.py`). It
  assembles one record per requested symbol, in one pass over the request list. The
  record holds the percentage-change return series, the running peak and maximum
  drawdown, the Sharpe ratio with its zero fallbacks, and the price and volume
  figures. The tool also parses the comma-separated symbol list.
- **Risk calculator** (`risk_calculator.dfy`, `tools/risk_calculator.py`):
  - historical VaR, using numpy's linear-interpolation percentile;
  - parametric VaR;
  - conditional VaR (expected shortfall);
  - the per-level result keys;
  - portfolio metrics over a returns matrix;
  - the JSON dispatcher that picks the calculation.
- **Research search tool** (`research_search.dfy`, `tools/research_search_tool.py`).
  It scores web-search hits by keyword relevance (3, 2 and 1 points per keyword for
  title, snippet and link). It then returns the five best of the first six hits, by
  stable descending score.

The supporting modules are:

- `wrappers.dfy`: `Option`.
- `text.dfy`: Python `str` operations over `seq<char>`.
- `numerics.dfy`: sum, mean, min, max, an ascending sort, and the `Stats` bundle of
  statistics that are left uninterpreted.
- `json.dfy`: JSON values, Python truthiness and `dict.get`.

The configuration constants are parameters. `RiskCalculator.DefaultSettings` holds
the configured values (`config/settings.py:18-19`): a risk-free rate of 0.05 and
confidence levels [0.95, 0.99].

Some figures depend on which standard deviation the code takes and on how pandas
treats short series:

- The volatility of a symbol is pandas' sample `std()` of its returns. For an empty
  series that is NaN, so volatility is left uninterpreted (`Stats`).
- The Sharpe ratio is 0.0 for no returns and for a zero standard deviation of the
  excess returns. With one return, pandas' sample standard deviation is NaN, so the
  ratio is NaN. `FinancialData.SharpeFallback` states the two fallbacks exactly as
  the code tests them.
- The portfolio uses numpy's population `std`, while the per-symbol figures use
  pandas' sample `std`. `RiskCalculator.HalfAndHalfOfTwins` therefore compares
  weights [0.5, 0.5] over two identical columns with the one-asset *portfolio* of
  that column.

## Model

| member | source | states |
|---|---|---|
| ResearchSearch.CalculateRelevance | tools/research_search_tool.py:52-71 | the keyword loop returns the relevance score of the lower-cased title, snippet and link, and the score is at most 66 |
| ResearchSearch.KeywordScoreByHits | tools/research_search_tool.py:62-71 | the score is 3 × title hits + 2 × snippet hits + link hits; each hit count is at most the number of keywords |
| ResearchSearch.KeywordScore | tools/research_search_tool.py:62-71 | the score accumulated over the keywords is at most 3 + 2 + 1 per keyword |
| ResearchSearch.Relevance | tools/research_search_tool.py:52-71 | `_calculate_relevance` over the lower-cased fields (absent ones as ""); with 11 keywords every score is at most 66 |
| ResearchSearch.RelevanceZero | tools/research_search_tool.py:62-71 | the score is 0 exactly when no keyword occurs in any of the three lower-cased fields |
| ResearchSearch.RelevanceIgnoresCase | tools/research_search_tool.py:53-55 | hits whose fields agree after lower-casing score the same |
| ResearchSearch.ScoreAll | tools/research_search_tool.py:30-36 | one scored entry per hit, and the i-th entry carries the i-th hit's fields (absent ones as "") and its score |
| ResearchSearch.InsertDesc | tools/research_search_tool.py:41 | inserting into a descending list keeps it descending and adds exactly that entry |
| ResearchSearch.StableSortDesc | tools/research_search_tool.py:41 | the sort by descending score is ordered, keeps the length and is a permutation |
| ResearchSearch.InsertDescWithScore | tools/research_search_tool.py:41 | insertion puts the new entry before every entry of equal score |
| ResearchSearch.StableSortKeepsTies | tools/research_search_tool.py:41 | the sort is stable: entries of equal score keep their input order |
| ResearchSearch.SortedPrefixIsTop | tools/research_search_tool.py:46 | the first k entries of a descending list are descending, drawn from it, and none left out scores higher |
| ResearchSearch.Ranked | tools/research_search_tool.py:30-46 | the returned list has min(5, min(6, hits)) entries in non-increasing score order |
| ResearchSearch.RankedShape | tools/research_search_tool.py:30-46 | the answer has min(5, min(6, hits)) entries, is descending, comes from the first six scored hits, and no scored hit left out beats one kept |
| ResearchSearch.RankedFromInput | tools/research_search_tool.py:30-46 | every returned entry is one of the first six hits, scored |
| ResearchSearch.RankedKeepsTies | tools/research_search_tool.py:41-46 | the returned entries of any score are the first of the scored hits with that score, in provider order |
| ResearchSearch.SearchFinancialResearch | tools/research_search_tool.py:12-50 | missing key: the key error and no request; otherwise one request for the extended query, then the exception text, the no-results message (no `organic` list, or an empty one) or the ranked top five |
| Text.Lower | tools/research_search_tool.py:53-55 | `lower()` keeps the length, maps each upper-case ASCII letter to its lower-case letter (code + 32), and changes nothing else |
| Text.LowerIdempotent | tools/research_search_tool.py:53-55 | lower-casing twice is lower-casing once |
| Text.ContainsIffOccurs | tools/research_search_tool.py:64-68 | `needle in hay` holds exactly when the needle occurs at some offset |
| FinancialData.PctChange | tools/financial_data_tool.py:28 | one return fewer than prices, the i-th being price[i+1] / price[i] − 1 |
| FinancialData.CompoundPctChange | tools/financial_data_tool.py:28 | compounding the first price by the returns gives back the last price |
| FinancialData.RunningPeak | tools/financial_data_tool.py:82 | the running peak has one entry per price, is never below the price and never decreases |
| FinancialData.PeakIsPrefixMax | tools/financial_data_tool.py:82 | the peak at i is the largest price among the first i + 1 |
| FinancialData.PeakOfNonDecreasing | tools/financial_data_tool.py:82 | for non-decreasing prices the running peak is the price series itself |
| FinancialData.Drawdowns | tools/financial_data_tool.py:82-83 | one drawdown per price; each lies in (−1, 0] and is 0 exactly where the price equals its running peak |
| FinancialData.MaxDrawdown | tools/financial_data_tool.py:80-85 | the maximum drawdown of positive prices lies in (−1, 0] |
| FinancialData.MaxDrawdownZeroIff | tools/financial_data_tool.py:80-85 | the maximum drawdown is 0 exactly when the prices never fall |
| FinancialData.MeanExcess | tools/financial_data_tool.py:72 | the mean excess return is the mean return less rate / 252 |
| FinancialData.SharpeFallback | tools/financial_data_tool.py:67-74 | no returns, or a zero standard deviation of the excess returns, gives 0.0 |
| FinancialData.SharpeRatio | tools/financial_data_tool.py:67-77 | with a positive standard deviation of the excess returns, the ratio is positive (negative) exactly when the mean return beats (falls short of) rate / 252 |
| FinancialData.BuildEntry | tools/financial_data_tool.py:16-62 | an error entry exactly for an exception or an empty history, with the two error texts; a record has one data point per price, low ≤ current ≤ high, drawdown in (−1, 0] and 0 iff prices never fall, and no mean return exactly for one price; its figures are the last price, the highest and lowest prices, `MaxDrawdown` of the prices, `SharpeRatio` of their returns and the first-to-last percentage change |
| FinancialData.AssignKeepsLast | tools/financial_data_tool.py:15-62 | one assignment of the loop keeps the keys equal to the symbols requested so far, each entry built from its last request |
| FinancialData.FetchStockData | tools/financial_data_tool.py:11-64 | every requested symbol has exactly one entry, built from its last request; no symbol aborts the loop |
| FinancialData.ParseSymbols | tools/financial_data_tool.py:89 | there are (commas + 1) symbols, and none holds a comma, a lower-case letter or surrounding whitespace |
| FinancialData.ParseJoined | tools/financial_data_tool.py:89 | round trip: parsing the comma-join of clean symbols gives them back |
| Text.Upper | tools/financial_data_tool.py:89 | `upper()` keeps the length, maps each lower-case ASCII letter to its upper-case letter (code − 32), and changes nothing else |
| Text.Strip | tools/financial_data_tool.py:89 | `strip()` is a slice with only whitespace cut on either side, and it neither starts nor ends with whitespace |
| Text.StripPadded | tools/financial_data_tool.py:89 | stripping whitespace padding around a clean string gives the string back |
| FinancialData.ParsePadded | tools/financial_data_tool.py:89 | parsing the comma-join of whitespace-padded, comma-free symbols gives each symbol upper-cased, padding removed, inner text kept |
| FinancialData.PaddedPieceParsed | tools/financial_data_tool.py:89 | a piece that is a padded symbol parses to that symbol upper-cased |
| FinancialData.ParseTypedList | tools/financial_data_tool.py:89 | `"AAPL, msft ,TSLA"` parses to `AAPL`, `MSFT`, `TSLA` |
| Text.SplitShape | tools/financial_data_tool.py:89 | `split(',')` gives commas + 1 pieces, none with a comma |
| Text.JoinSplit | tools/financial_data_tool.py:89 | joining the pieces with the separator gives back the input |
| Text.SplitJoin | tools/financial_data_tool.py:89 | splitting a join of separator-free pieces gives back the pieces |
| Numerics.Min | tools/financial_data_tool.py:50 | the minimum is an element and no element is smaller |
| Numerics.Max | tools/financial_data_tool.py:49 | the maximum is an element and no element is larger |
| Numerics.SortAsc | tools/risk_calculator.py:24 | numpy's sort before the percentile: ascending, same length, a permutation |
| Numerics.SortAscEnds | tools/risk_calculator.py:24 | the sorted series starts at the minimum and ends at the maximum |
| Numerics.SortAscSorted | tools/risk_calculator.py:24 | an ascending series is its own sort |
| Numerics.MeanBounds | tools/risk_calculator.py:30 | a mean lies between any lower and upper bound of the elements |
| RiskCalculator.Rank | tools/risk_calculator.py:24 | the fractional rank (n − 1)·q/100 of a valid percentile lies in [0, n − 1] |
| RiskCalculator.InterpolateBounds | tools/risk_calculator.py:24 | interpolation stays between the first and last of an ascending series |
| RiskCalculator.InterpolateMonotone | tools/risk_calculator.py:24 | interpolation at a larger rank is never smaller |
| RiskCalculator.Percentile | tools/risk_calculator.py:24 | numpy's linear-method percentile lies between the minimum and maximum of the data |
| RiskCalculator.PercentileMonotone | tools/risk_calculator.py:24 | a higher percentile is never smaller |
| RiskCalculator.TailPercent | tools/risk_calculator.py:24 | (1 − c)·100 is a percentile numpy accepts, for c in [0, 1] |
| RiskCalculator.Percent | tools/risk_calculator.py:32-34 | `int(confidence * 100)` is at most 100 |
| RiskCalculator.AtOrBelow | tools/risk_calculator.py:30 | the boolean-mask selection keeps every return at or below the threshold as often as it occurs, and no other |
| RiskCalculator.TailHoldsMinimum | tools/risk_calculator.py:30 | the tail below the historical VaR always holds the worst return, so its mean is defined |
| RiskCalculator.HistoricalVaR | tools/risk_calculator.py:24 | the historical VaR lies between the worst and the best return |
| RiskCalculator.ParametricVaR | tools/risk_calculator.py:25-27 | mean + std · norm.ppf(1 − c) is the mean for a series without dispersion, and at most the mean when the tail quantile is not positive |
| RiskCalculator.ConditionalVaR | tools/risk_calculator.py:24-30 | worst return ≤ CVaR ≤ historical VaR |
| RiskCalculator.HistoricalVaRMonotone | tools/risk_calculator.py:23-24 | a higher confidence level never gives a higher historical VaR |
| RiskCalculator.KeyInjective | tools/risk_calculator.py:32-34 | two result keys are equal only for the same percentage and the same figure |
| RiskCalculator.LevelKeysDistinct | tools/risk_calculator.py:32-34 | each level writes three distinct keys |
| RiskCalculator.AddLevelEffect | tools/risk_calculator.py:32-34 | one iteration writes the level's three figures under its three keys and keeps every other entry |
| RiskCalculator.ValueAtRiskSpec | tools/risk_calculator.py:12-36 | the error map is returned exactly for empty returns |
| RiskCalculator.ValueAtRisk | tools/risk_calculator.py:12-36 | the loop computes exactly the value-at-risk result: error map, numpy's percentile exception, or the table |
| RiskCalculator.Tabulate | tools/risk_calculator.py:23-35 | the loop over the levels never yields the empty-returns error, and the only exception it lets out is numpy's percentile-range error |
| RiskCalculator.RaisedPersists | tools/risk_calculator.py:23-24 | once a level raises, the remaining levels change nothing |
| RiskCalculator.TabulateRaisesIff | tools/risk_calculator.py:23-24 | numpy's exception escapes exactly when some level lies outside [0, 1] |
| RiskCalculator.TabulateKeys | tools/risk_calculator.py:23-35 | the table's keys are exactly the three keys of every level |
| RiskCalculator.TabulateValues | tools/risk_calculator.py:23-35 | a level that is last with its percentage leaves its own historical, parametric and conditional figures in the table |
| RiskCalculator.ConfiguredLevelKeys | config/settings.py:19 | levels 0.95 and 0.99 write `VaR_95%_historical`, `VaR_95%_parametric`, `CVaR_95%` and the same for 99 |
| RiskCalculator.DefaultTableKeys | tools/risk_calculator.py:14-15 | with the configured levels, non-empty returns give a table with exactly the six keys |
| RiskCalculator.DefaultTableValues | tools/risk_calculator.py:23-33 | with the configured levels 0.95 and 0.99, each of the six keys holds its own level's historical, parametric or conditional VaR |
| RiskCalculator.TenReturnsVaR | tools/risk_calculator.py:24 | on ten sample returns the 95% historical VaR is −0.041 |
| RiskCalculator.TenReturnsCVaR | tools/risk_calculator.py:30 | on the same returns the 95% CVaR is −0.05 |
| RiskCalculator.PortfolioReturns | tools/risk_calculator.py:46 | one weighted sum per row of the matrix |
| RiskCalculator.PortfolioMetrics | tools/risk_calculator.py:39-63 | success exactly for non-empty weights matching the columns of a non-empty matrix, with one asset per weight; every failure is the missing-inputs text or numpy's shape message |
| RiskCalculator.PortfolioMissingInputs | tools/risk_calculator.py:42-43 | the missing-inputs error is returned exactly for empty weights or an empty matrix |
| RiskCalculator.PortfolioShapeError | tools/risk_calculator.py:46 | non-empty inputs fail exactly when the weights do not match the columns, with numpy's shape message |
| RiskCalculator.PortfolioSuccess | tools/risk_calculator.py:45-60 | matching inputs give mean × 252, population std × √252, one asset per weight, and Sharpe (return − rate) / volatility or 0 |
| RiskCalculator.PortfolioSharpeSign | tools/risk_calculator.py:51-52 | the Sharpe ratio is positive exactly for positive volatility and a return above the rate, and 0 exactly for no volatility or a return equal to the rate |
| RiskCalculator.PortfolioOneHot | tools/risk_calculator.py:46 | all weight on one asset makes the portfolio series that asset's column |
| RiskCalculator.HalfAndHalfOfTwins | tools/risk_calculator.py:45-60 | weights [0.5, 0.5] over two identical columns give the figures of the single column with weight 1 |
| RiskCalculator.RiskWrapper | tools/risk_calculator.py:66-83 | any type but "VaR" and "portfolio", a missing one included, is refused; a table answers only a VaR request with returns, portfolio figures only a portfolio request |
| RiskCalculator.VarRequestReply | tools/risk_calculator.py:71-72 | with the configured levels a VaR request errs exactly for missing or empty returns, and otherwise answers the table `calculate_value_at_risk` builds: the six keys, each holding its level's historical, parametric or conditional VaR |
| RiskCalculator.PortfolioRequestReply | tools/risk_calculator.py:73-77 | a portfolio request with a rectangular matrix answers exactly as the portfolio calculation |
| Text.NatToString | tools/risk_calculator.py:32-34 | `str(n)` is a non-empty run of digits, of two or more digits exactly from 10 up |
| Text.NatToStringInjective | tools/risk_calculator.py:32-34 | different numbers print differently |
| Orchestrator.ResearchOrchestrator.constructor | main.py:11-17 | the orchestrator holds the agents it was built with |
| Orchestrator.ResearchOrchestrator.ConductComprehensiveStudy | main.py:19-108 | the method's result and call trace are those of the study, and the result has the five study keys or only `error` |
| Orchestrator.FilepathLookup | main.py:98 | the closing lookup `report['metadata']['filepath']` succeeds exactly when `metadata` is an object holding `filepath` |
| Orchestrator.ReportPhase | main.py:81-102 | the report phase adds `research_report` to the results or answers only `error` |
| Orchestrator.AnalysisPhase | main.py:66-102 | the analysis phase adds `risk_analysis` and `research_report` or answers only `error` |
| Orchestrator.Study | main.py:19-108 | every study returns the five study keys or only `error` |
| Orchestrator.ResearchErrorStops | main.py:47-53 | a research result with `error` ends the study at once, before any save |
| Orchestrator.AnalysisErrorStops | main.py:58-72 | an analysis result with `error` ends the study before the report, after the research data was saved |
| Orchestrator.ReportGate | main.py:81-88 | a report without truthy `success` fails with its `error`, or "Unknown error" |
| Orchestrator.StudySuccess | main.py:32-102 | when all phases pass, the study returns the five keys with each phase's result (start time = study id) after exactly two saves, the second of the study as returned |
| Orchestrator.ResearchRaises | main.py:47-108 | the research agent raising: "Research study failed: …" is logged once, after the research call, and returned as the only key |
| Orchestrator.ResearchSaveFails | main.py:58-108 | the first save raising: the failure is logged once, after the save, and returned; no analysis runs |
| Orchestrator.AnalysisRaises | main.py:66-108 | the analysis agent raising: the failure is logged once, after the analysis call, and returned; no report runs |
| Orchestrator.ReportRaises | main.py:81-108 | the report agent raising: the failure is logged once, after the report call, and returned; no second save runs |
| Orchestrator.CompleteSaveFails | main.py:93-108 | the second save raising: the failure is logged once, after that save, and returned |
| Orchestrator.StudyCompletesIff | main.py:42-108 | the five study keys come back exactly when every phase passed and nothing raised; otherwise the only key is `error` |
| Orchestrator.ClosingMessageRaises | main.py:93-108 | a report without `metadata.filepath` fails the study after the complete study was saved, logging the error once |
| Orchestrator.StudyOrder | main.py:42-108 | every study runs a prefix of research, save, analysis, report, save, in that order; it logs at most one error, last, and returns that message |

## Left out

- I/O is out of scope. The HTTP request, the market-data provider, the LLM agents and
  the file saver are oracles given as parameters. The error-log append is a ghost trace
  event that always succeeds.
- Orchestrator.ResearchOrchestrator.ConductComprehensiveStudy: a failing error-log write
  is not modelled. `log_error` (utils/helpers.py:46-51) opens and appends to a file
  inside the `except` block at main.py:104-106, so an I/O error there would escape the
  method instead of returning the error map; the model always returns the error map.
- Timestamps are out of scope: the study id, the search and portfolio `timestamp`
  fields, and the saver's time-stamped path. The study id is a parameter. The two
  `timestamp` fields are not part of the modelled results.
- Console output and the phase timings of `conduct_comprehensive_study` are left out.
- JSON encoding and decoding (`json.dumps`, `json.loads`) and dictionary key order are
  not modelled. Requests arrive decoded and results are values.
- `round()` is not modelled: the figures are exact reals.
- Floating point, NaN and infinities are not modelled.
- FinancialData.SharpeRatio: with a single return pandas gives NaN, which the model
  leaves to the uninterpreted standard deviation.
- The sample and population standard deviations, √252, `norm.ppf`, skewness and
  kurtosis are uninterpreted functions in `Numerics.Stats`. Their numeric values are
  not modelled. Only the properties proved without them are claimed.
- RiskCalculator.Percent: `int(confidence * 100)` is taken on exact reals. Binary
  rounding, for example 0.29 × 100 giving 28.999…, is not modelled.
- RiskCalculator.RiskWrapper:
  - a non-string `calculation_type` is treated as unknown;
  - a ragged `returns_matrix` gives `RaggedMatrixReply` in place of numpy's exact
    message;
  - 1-D and deeper matrices are not modelled;
  - list entries that are not numbers, which numpy would reject, are not modelled.
- ResearchSearch.OrganicResult and RiskCalculator.Request: a JSON `null` is not told
  apart from an absent key. In the source a `null` title, snippet or link makes
  `.lower()` raise, a `null` `organic` list makes the slice raise, and `null` returns
  make `len()` raise, each answered as an error text. The model reads such a `null`
  as the default value instead.
- Orchestrator.FilepathLookup: the `TypeError` texts follow CPython 3.11's wording.
  Objects other than the JSON kinds are not modelled.
- `Json` `str()` of floats, lists and objects is the placeholder `"<value>"`. Error
  texts built from such values are not exact.
- `Text.Lower` and `Text.Upper` map ASCII letters only. Python's full Unicode case
  mapping is not modelled.
- `list.sort` and numpy's sort are pure functional sorts. They are library calls on
  private lists, so nothing is shared that an in-place sort could change.
- The `price_range_52w` high and low cover the full two-year history, as the code
  computes them. The model does the same and does not restrict them to 52 weeks.
- `FinancialData.BuildEntry` takes prices as positive and one volume per price, as
  the provider delivers them. Other shapes are not modelled.
- The tool registration (`create_*_tool`, LangChain `Tool`), the agents' own prompt
  logic, the Streamlit app and `get_study_summary` are not part of this model.
