# jmeter-automaster in Dafny

A model of the core of jmeter-automaster, a tool that runs every Apache JMeter test
plan (`.jmx`) found under a directory, reads back each plan's CSV result file
(`.jtl`), summarises it, and builds one HTML report over all plans. The model
covers three parts of that tool:

- **Result aggregation** (`JMeterTestRunner.parse_results`). It turns one plan's
  result rows into a plan summary. The summary holds:
  - the request counts;
  - the mean, minimum and maximum response time;
  - TPS (transactions per second) and the error rate;
  - one statistics entry per transaction label;
  - the error details of the failed rows.

  The figures are exact reals computed from integer sums.
- **The batch** (`JMeterTestRunner.run_all_tests`, `find_jmx_files`,
  `run_single_test`). It covers plan discovery, the checks after one plan's engine
  run, and the completion loop. That loop stores each returned summary under the
  plan's file stem and lists every other plan as failed.
- **The report figures** (`ReportGenerator`). These are the totals and the mean of
  the per-plan means passed to the HTML template, the success rates the template
  prints, and the data series fed to the charts.

The modules are:

- `Wrappers`: `Option` and `Result`.
- `Numbers`: column sum, minimum, maximum and mean, requests per second, and the
  guarded percentage.
- `Summary`: the value types (`Record`, `TxSummary`, `ErrorDetail`, `PlanSummary`).
- `Aggregation`: the functions that specify `parse_results`, with their properties.
- `Batch`: the results dictionary and the completion fold.
- `Runner`: the class `JMeterTestRunner`, whose methods update `allResults` in place.
- `Report`: the report generator's folds, rates and series.

Three behaviours of the code are worth stating up front:

- **Plans with no rows.** pandas gives NaN for the mean, minimum and maximum of an
  empty frame. The model keeps that NaN as `None`.
- **Plans sharing a stem.** The search `glob('**/*.jmx')` is recursive, so two
  files with the same name in different sub-directories have the same stem. They
  then share an output directory and a results key. `ReportDirsDistinct` and
  `SharedStemDependsOnOrder` state the consequences.
- **A worked example.** Ten rows, seven successful, with response times 100 (seven
  times), 200, 300 and 400 total 1600 ms. They give a mean of 160, a minimum of
  100, a maximum of 400 and an error rate of 30 (`SevenOfTen`).

## Model

| member | source | states |
|---|---|---|
| Numbers.SeqMin | JMeterTestRunner.py:203 | the minimum of a non-empty column is a lower bound of every value and is one of the values |
| Numbers.SeqMax | JMeterTestRunner.py:204 | the maximum of a non-empty column is an upper bound of every value and is one of the values |
| Numbers.MeanBetweenMinMax | JMeterTestRunner.py:202-204 | the mean of a non-empty column lies between its minimum and maximum |
| Numbers.PerSecond | JMeterTestRunner.py:207-208 | requests per second is never negative; it is 0 when the span is not positive; otherwise rate × span = count × 1000; it is positive iff there are requests and a positive span |
| Numbers.Percent | JMeterTestRunner.py:211-212 | the guarded percentage is 0 for a non-positive whole; otherwise r × whole = part × 100; it lies in [0, 100] when 0 <= part <= whole |
| Numbers.PercentsComplement | ReportGenerator.py:421 | the percentages of two parts that make up a whole add up to 100 |
| Aggregation.SuccessPlusFail | JMeterTestRunner.py:199-201 | every row is counted by exactly one of the two filters, so successful + failed = total |
| Aggregation.ParsedCountsConsistent | JMeterTestRunner.py:199-201 | a parsed summary, with or without its report directory, has total = number of rows and successful + failed = total |
| Aggregation.ResponseTimes | JMeterTestRunner.py:202-204 | mean, minimum and maximum are NaN exactly for no rows; otherwise min <= mean <= max, min and max are attained by some row, and every row's elapsed lies between them |
| Aggregation.Tps | JMeterTestRunner.py:207-208 | TPS is never negative; it is 0 for no rows; for rows it is positive iff the timestamp span is positive, and then TPS × span = rows × 1000 |
| Aggregation.TpsZeroOnOneTimestamp | JMeterTestRunner.py:207-208 | rows that all share one timestamp (for example a single row) give TPS 0 |
| Aggregation.ErrorRateRange | JMeterTestRunner.py:211-212 | the error rate lies in [0, 100], is 0 for no rows, and error rate × total = failed × 100 |
| Aggregation.Group | JMeterTestRunner.py:215 | a label's group holds only rows of that label, is no longer than the input, and is non-empty iff the label occurs |
| Aggregation.GroupExact | JMeterTestRunner.py:215 | a label's group holds every row of that label as often as it occurs and no row of another label |
| Aggregation.DistinctLabels | JMeterTestRunner.py:215 | the labels the grouping visits have no repeats and are exactly the labels that occur |
| Aggregation.TxSummaryConsistent | JMeterTestRunner.py:216-225 | a group's entry has count >= 1, success + fail = count, error rate = the guarded percentage of fail over count (so error rate × count = fail × 100) within [0, 100], and min <= mean <= max |
| Aggregation.TransactionEntry | JMeterTestRunner.py:215-225 | the transaction keys are exactly the labels that occur; each entry summarises its label's rows, with count >= 1, success + fail = count, error rate in [0, 100] and min <= mean <= max |
| Aggregation.TransactionCountsSum | JMeterTestRunner.py:215-217 | each entry's count is its label's number of rows, and the counts summed over the keys equal the plan's total requests |
| Aggregation.FailedRecordsAppend | JMeterTestRunner.py:228 | filtering the failed rows of a concatenation filters each part, so record order is kept |
| Aggregation.FailedRecordsExact | JMeterTestRunner.py:228 | the failed-row filter keeps every failed row as often as it occurs and no successful row; its length is the fail count |
| Aggregation.ErrorDetailsOfFailures | JMeterTestRunner.py:228-236 | there is one error detail per failed row, in record order, so as many as failed requests; each copies its row's label, response code, failure message and thread name, with its time formatted |
| Aggregation.SevenOfTen | JMeterTestRunner.py:199-212 | ten rows, seven successful, with response times 100 ×7, 200, 300, 400 give mean 160, min 100, max 400 and error rate 30 |
| Batch.Results.Put | JMeterTestRunner.py:156 | storing a key keeps the dictionary well formed, adds only that key, gives it the new value, leaves every other entry unchanged, appends a new key and keeps an existing key's place |
| Batch.AbsorbAll | JMeterTestRunner.py:151-161 | the completion fold keeps the results dictionary well formed |
| Batch.KeysOnlyGrow | JMeterTestRunner.py:151-161 | later completions never remove a stored key or move it |
| Batch.EntryUntouched | JMeterTestRunner.py:151-161 | a stored summary survives, unchanged, every later completion that does not return a summary under the same stem |
| Batch.Routing | JMeterTestRunner.py:151-161 | with distinct stems, a stem is stored iff its plan returned a summary, and then it maps to that summary; it is listed as failed iff its plan gave None or raised |
| Batch.EveryPlanReported | JMeterTestRunner.py:151-161 | with distinct stems, stored keys plus failed entries number exactly the completions |
| Batch.PlanRouting | JMeterTestRunner.py:142-161 | with distinct stems and any completion order, each plan is stored with its own summary iff it returned one and is failed otherwise, never both; nothing else is recorded |
| Batch.OrderIndependent | JMeterTestRunner.py:144-161 | with distinct stems, any two completion orders give the same mapping and the same set of failed stems |
| Batch.SharedStemDependsOnOrder | JMeterTestRunner.py:156-161 | two plans sharing a stem make the result depend on completion order (the later one wins), and a stem can be both stored and failed |
| Runner.JMeterTestRunner.constructor | JMeterTestRunner.py:47-49 | the runner starts with an empty, well-formed results dictionary and the run's timestamp |
| Runner.JMeterTestRunner.FindJmxFiles | JMeterTestRunner.py:60-63 | discovery fails with the test directory iff no plan was found; otherwise it returns the plans found |
| Runner.JMeterTestRunner.ReportDirsDistinct | JMeterTestRunner.py:77-80 | two plans share a report directory iff they share a stem |
| Runner.JMeterTestRunner.ParseResults | JMeterTestRunner.py:171-238 | the summary built field by field equals the summary the aggregation functions specify for the rows |
| Runner.JMeterTestRunner.CollectTransactions | JMeterTestRunner.py:215-225 | the grouping loop builds exactly the transaction map: one entry per label, each that label's statistics |
| Runner.JMeterTestRunner.CollectErrorDetails | JMeterTestRunner.py:227-236 | the appending loop builds exactly the error details of the failed rows, in record order |
| Runner.JMeterTestRunner.RunSingleTest | JMeterTestRunner.py:75-129 | checks in order: a non-zero exit fails; then a missing result file fails; then an unreadable file fails; otherwise the parsed summary is returned with its report directory added; the result agrees with the outcome the completion loop sees for the plan |
| Runner.JMeterTestRunner.StoredIffRunSucceeded | JMeterTestRunner.py:100-161 | with distinct stems and any completion order, a plan is stored iff its engine exited with 0, left a result file and that file was readable; otherwise it is listed as failed |
| Runner.JMeterTestRunner.RunAllTests | JMeterTestRunner.py:131-169 | an empty discovery fails and changes nothing; otherwise the results become the fold of every plan's outcome in completion order, the failed stems are returned, and every stored summary keeps consistent counts |
| Report.TotalSystems | ReportGenerator.py:107 | the system count is the number of stored plans |
| Report.TotalsConsistent | ReportGenerator.py:108-110 | when every plan's success and fail counts make up its total, total success + total failed = total requests and 0 <= total success <= total requests |
| Report.PieAgreesWithOverallRate | ReportGenerator.py:30-31 | the pie chart's slices are total success and total failed, and with consistent counts the success slice's share is the printed overall success rate |
| Report.SumAverages | ReportGenerator.py:111 | the sum of the per-plan averages is NaN iff some plan's average is NaN |
| Report.OverallAverage | ReportGenerator.py:111-112 | the overall average is 0 with no plans, and NaN iff some plan's average is NaN |
| Report.OverallAverageBetween | ReportGenerator.py:111-112 | with plans present and every average a number, the overall average lies within any bounds of the per-plan averages |
| Report.MeanOfMeans | ReportGenerator.py:111-112 | two plans averaging 100 and 200 give 150 whatever their request counts: the mean is not weighted |
| Report.OverallSuccessRate | ReportGenerator.py:306 | the overall success rate is 0 without requests; otherwise rate × total requests = total success × 100; it lies in [0, 100] when every plan's counts are consistent |
| Report.SystemSuccessRate | ReportGenerator.py:383 | a system's success rate is 0 without requests; otherwise rate × total = successful × 100; it lies in [0, 100] with consistent counts |
| Report.TransactionSuccessRate | ReportGenerator.py:421 | a transaction's success rate satisfies rate × count = success × 100 and lies in [0, 100] when success <= count |
| Report.TransactionRatesComplement | ReportGenerator.py:421 | every parsed transaction has count > 0, so the unguarded division is defined, and its success rate plus its error rate is 100 |
| Report.AverageSeries | ReportGenerator.py:50 | the response-time series has one value per system |
| Report.TpsSeries | ReportGenerator.py:70 | the TPS series has one value per system |
| Report.SeriesAligned | ReportGenerator.py:49-50 | the systems, the response-time series and the TPS series all have the system count as length; each stored plan appears once on the x axis with its own average and TPS |
| Report.ThreePlansOneFails | ReportGenerator.py:107 | three plans where the second exits non-zero give, in any completion order, results holding the first and third, the second as the only failed test, and two systems |

## Left out

- Running JMeter is not modelled: the command line, `subprocess.run`, and creating the plan directory. Each plan's run is an input: its exit status, whether the result file exists, and the rows read from it.
- The thread pool is not modelled. Plans are merged one at a time in a completion order given as an input, so concurrency and locking are not captured.
- Reading the CSV is not modelled. The rows are given already parsed. A file that pandas cannot read, or that lacks a column, is a `None` table.
- Local-time formatting of an error's timestamp is not modelled. It depends on the machine's time zone, so it is the runner's `formatTime` function.
- Floating point is not modelled. Rates and means are exact reals. pandas' NaN for the mean, minimum and maximum of no rows is `None`. The `float('inf')` initial minimum is overwritten before use, so it is not modelled.
- Labels are always strings, so the rows that `groupby` drops for a missing label are not modelled.
- The sorted order in which `groupby` lists the transaction keys is not modelled; the transaction map is unordered.
- Paths are plain strings joined with `/`, so platform path separators and `Path` normalisation are not modelled.
- Runner.JMeterTestRunner.RunAllTests: returns the failed stems, which the source only writes to the log. Logging is not modelled anywhere.
- Runner.JMeterTestRunner.RunAllTests: the `else` branch for a plan returning None is never taken, because `run_single_test` never returns None. `Batch.Outcome.ReturnedNone` models that branch in the fold.
- Rendering is not modelled: Plotly figures, Jinja templates and the report file write.
- Email delivery (EmailSender.py) is not part of this model.
- Setup is not part of this model: TestUtils.py (directories, logging setup, the JMeter installation check) and mainrun.py (configuration and entry point).
