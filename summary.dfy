/** The values that flow through the runner: one row of the engine's result file,
    and the per-plan summary the parser builds from a plan's rows. */
module Summary {
  import opened Wrappers

  /** One row of a plan's CSV result file (a request the engine simulated).
      `failureMessage` is None where the CSV cell is empty. */
  datatype Record = Record(
    timeStamp: int,        // epoch milliseconds
    elapsed: int,          // response time in milliseconds
    labelName: string,     // the `label` column: the transaction name
    success: bool,
    responseCode: string,
    failureMessage: Option<string>,
    threadName: string)

  /** The statistics of one transaction label (an entry of `transactions`). */
  datatype TxSummary = TxSummary(
    count: nat,
    success: nat,
    fail: nat,
    avgResponseTime: real,
    minResponseTime: int,
    maxResponseTime: int,
    errorRate: real)

  /** One entry of `error_details`; `timestamp` is the row's time as local text. */
  datatype ErrorDetail = ErrorDetail(
    labelName: string,
    responseCode: string,
    responseMessage: Option<string>,
    threadName: string,
    timestamp: string)

  /** The summary of one plan. The three response-time figures are None where pandas
      yields NaN (a result file without rows); `reportDir` is None until the runner
      adds the directory of the engine's own HTML report. */
  datatype PlanSummary = PlanSummary(
    testName: string,
    totalRequests: nat,
    successfulRequests: nat,
    failedRequests: nat,
    averageResponseTime: Option<real>,
    minResponseTime: Option<int>,
    maxResponseTime: Option<int>,
    errorDetails: seq<ErrorDetail>,
    transactions: map<string, TxSummary>,
    tps: real,
    errorRate: real,
    reportDir: Option<string>)
}
