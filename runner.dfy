/** The test runner (`JMeterTestRunner`): plan discovery, one plan's run and the
    checks that follow it, result parsing, and the batch over all plans. The engine
    process, the file system and the thread pool are inputs: what the engine left
    behind for each plan, and the order in which plans complete. */
module Runner {
  import opened Wrappers
  import opened Summary
  import opened Aggregation
  import opened Batch

  /** A discovered test plan: the path of its .jmx file and that file's stem. */
  datatype JmxFile = JmxFile(path: string, stem: string)

  /** `JMXFileNotFoundException`: the test directory holds no .jmx file. */
  datatype RunnerError = JmxFileNotFound(testDir: string)

  /** What the engine left behind for one plan: its exit status, whether the .jtl
      result file exists, and the rows read from it (None when the file cannot be
      read as a table with the required columns). */
  datatype ProcessRun = ProcessRun(exitCode: int, resultFileExists: bool, table: Option<seq<Record>>)

  /** The stems of the discovered plans. */
  function Stems(jmxFiles: seq<JmxFile>): (stems: seq<string>)
    ensures |stems| == |jmxFiles|
    ensures forall p :: 0 <= p < |jmxFiles| ==> stems[p] == jmxFiles[p].stem
  {
    seq(|jmxFiles|, p requires 0 <= p < |jmxFiles| => jmxFiles[p].stem)
  }

  class JMeterTestRunner {
    const testDir: string
    /** The day's result directory. */
    const resultDir: string
    /** The run's timestamp, shared by all plans of the batch. */
    const timestamp: string
    /** Epoch milliseconds to local, second-precision text (depends on the time zone). */
    const formatTime: int -> string
    /** `self.all_results` */
    var allResults: Results

    /** The dictionary is well formed and every stored summary has consistent counts. */
    ghost predicate Valid()
      reads this
    {
      && allResults.Valid()
      && forall k :: k in allResults.entries ==> CountsConsistent(allResults.entries[k])
    }

    constructor (testDir: string, resultDir: string, timestamp: string, formatTime: int -> string)
      ensures Valid() && allResults == NoResults
      ensures this.testDir == testDir && this.resultDir == resultDir
      ensures this.timestamp == timestamp && this.formatTime == formatTime
    {
      this.testDir := testDir;
      this.resultDir := resultDir;
      this.timestamp := timestamp;
      this.formatTime := formatTime;
      allResults := NoResults;
    }

    /** `find_jmx_files`: the plans the recursive search found, or an error when
        there are none. */
    function FindJmxFiles(discovered: seq<JmxFile>): (r: Result<seq<JmxFile>, RunnerError>)
      ensures r.Failure? <==> discovered == []
      ensures r.Failure? ==> r.error == JmxFileNotFound(testDir)
      ensures r.Success? ==> r.value == discovered
    {
      if discovered == [] then Failure(JmxFileNotFound(testDir)) else Success(discovered)
    }

    /** The per-plan output directory `<result dir>/<stem>_<timestamp>`. */
    function PlanDir(stem: string): string
    {
      resultDir + "/" + stem + "_" + timestamp
    }

    /** The plan's result file `<plan dir>/<stem>.jtl`. */
    function JtlFile(stem: string): string
    {
      PlanDir(stem) + "/" + stem + ".jtl"
    }

    /** The engine's HTML report directory `<plan dir>/html_report`. */
    function ReportDir(stem: string): string
    {
      PlanDir(stem) + "/html_report"
    }

    /** Plans with different stems write to different report directories; plans
        with the same stem (in different sub-directories) share one. */
    lemma ReportDirsDistinct(stem1: string, stem2: string)
      ensures ReportDir(stem1) == ReportDir(stem2) <==> stem1 == stem2
    {
      var prefix, suffix := resultDir + "/", "_" + timestamp + "/html_report";
      assert ReportDir(stem1) == prefix + stem1 + suffix;
      assert ReportDir(stem2) == prefix + stem2 + suffix;
      if ReportDir(stem1) == ReportDir(stem2) {
        assert |stem1| == |stem2|;
        assert stem1 == ReportDir(stem1)[|prefix|..|prefix| + |stem1|];
        assert stem2 == ReportDir(stem2)[|prefix|..|prefix| + |stem2|];
      }
    }

    /** `parse_results`: the summary is filled in field by field; the transaction
        map and the error details each come from a loop. */
    method ParseResults(records: seq<Record>, testName: string) returns (summary: PlanSummary)
      ensures summary == PlanSummaryOf(records, testName, formatTime)
    {
      // The initial dictionary; every figure is overwritten below.
      summary := PlanSummary(testName, 0, 0, 0, Some(0.0), None, Some(0), [], map[], 0.0, 0.0, None);
      summary := summary.(
        totalRequests := |records|,
        successfulRequests := SuccessCount(records),
        failedRequests := FailCount(records),
        averageResponseTime := AverageResponseTime(records),
        minResponseTime := MinResponseTime(records),
        maxResponseTime := MaxResponseTime(records));
      summary := summary.(tps := Tps(records));
      summary := summary.(errorRate := ErrorRate(records));
      var transactions := CollectTransactions(records);
      summary := summary.(transactions := transactions);
      var errorDetails := CollectErrorDetails(records);
      summary := summary.(errorDetails := errorDetails);
    }

    /** The loop over `df.groupby('label')`: one entry per label group. */
    method CollectTransactions(records: seq<Record>) returns (transactions: map<string, TxSummary>)
      ensures transactions == Transactions(records)
    {
      var labels := DistinctLabels(records);
      transactions := map[];
      for i := 0 to |labels|
        invariant forall l :: l in transactions <==> l in labels[..i]
        invariant forall l :: l in transactions ==> transactions[l] == TxSummaryOf(Group(records, l))
      {
        var name := labels[i];
        assert name in Labels(records);
        var group := Group(records, name);
        transactions := transactions[name := TxSummaryOf(group)];
        assert labels[..i + 1] == labels[..i] + [name];
      }
      assert labels[..|labels|] == labels;
      TransactionsByLabel(records, transactions);
    }

    /** The loop over the failed rows: one error detail appended per row. */
    method CollectErrorDetails(records: seq<Record>) returns (errorDetails: seq<ErrorDetail>)
      ensures errorDetails == ErrorDetails(records, formatTime)
    {
      var errorRows := FailedRecords(records);
      errorDetails := [];
      for k := 0 to |errorRows|
        invariant |errorDetails| == k
        invariant forall j :: 0 <= j < k ==> errorDetails[j] == DetailOf(errorRows[j], formatTime)
      {
        errorDetails := errorDetails + [DetailOf(errorRows[k], formatTime)];
      }
    }

    /** `run_single_test`: the checks after the engine exits, in order — exit
        status, then the result file's existence, then parsing; a successful run
        returns the parsed summary with the report directory added. */
    method RunSingleTest(jmx: JmxFile, run: ProcessRun) returns (r: Result<PlanSummary, TestExecutionError>)
      ensures run.exitCode != 0 ==> r == Failure(ProcessFailed(run.exitCode))
      ensures run.exitCode == 0 && !run.resultFileExists ==> r == Failure(ResultFileMissing(JtlFile(jmx.stem)))
      ensures run.exitCode == 0 && run.resultFileExists && run.table.None? ==>
        r == Failure(ParseFailed(JtlFile(jmx.stem)))
      ensures run.exitCode == 0 && run.resultFileExists && run.table.Some? ==>
        && r.Success?
        && r.value.reportDir == Some(ReportDir(jmx.stem))
        && r.value == PlanSummaryOf(run.table.value, jmx.stem, formatTime).(reportDir := Some(ReportDir(jmx.stem)))
      ensures PlanOutcome(jmx, run) == if r.Success? then Returned(r.value) else Raised(r.error)
    {
      var testName := jmx.stem;
      var jtlFile := JtlFile(testName);
      if run.exitCode != 0 {
        return Failure(ProcessFailed(run.exitCode));
      }
      if !run.resultFileExists {
        return Failure(ResultFileMissing(jtlFile));
      }
      if run.table.None? {
        return Failure(ParseFailed(jtlFile));
      }
      var results := ParseResults(run.table.value, testName);
      results := results.(reportDir := Some(ReportDir(testName)));
      return Success(results);
    }

    /** What `future.result()` gives for plan `jmx`: the summary `RunSingleTest`
        returns, or the exception it raises (`run_single_test` never returns None). */
    function PlanOutcome(jmx: JmxFile, run: ProcessRun): Outcome
    {
      if run.exitCode != 0 then Raised(ProcessFailed(run.exitCode))
      else if !run.resultFileExists then Raised(ResultFileMissing(JtlFile(jmx.stem)))
      else if run.table.None? then Raised(ParseFailed(JtlFile(jmx.stem)))
      else Returned(PlanSummaryOf(run.table.value, jmx.stem, formatTime).(reportDir := Some(ReportDir(jmx.stem))))
    }

    /** The outcomes of all plans, in discovery order. */
    function PlanOutcomes(jmxFiles: seq<JmxFile>, runs: seq<ProcessRun>): (outcomes: seq<Outcome>)
      requires |runs| == |jmxFiles|
      ensures |outcomes| == |jmxFiles|
    {
      seq(|jmxFiles|, p requires 0 <= p < |jmxFiles| => PlanOutcome(jmxFiles[p], runs[p]))
    }

    /** With distinct stems, starting from an empty dictionary, a plan ends up in the
        results exactly when its engine run exited with status 0, left a result
        file and that file could be read; every other plan is reported as failed. */
    lemma StoredIffRunSucceeded(discovered: seq<JmxFile>, runs: seq<ProcessRun>, completionOrder: seq<nat>, p: nat)
      requires |runs| == |discovered|
      requires forall i, j :: 0 <= i < j < |discovered| ==> discovered[i].stem != discovered[j].stem
      requires IsPermutation(completionOrder, |discovered|)
      requires p < |discovered|
      ensures var cs := Completions(Stems(discovered), PlanOutcomes(discovered, runs), completionOrder);
        var stored := runs[p].exitCode == 0 && runs[p].resultFileExists && runs[p].table.Some?;
        && (discovered[p].stem in AbsorbAll(NoResults, cs).entries <==> stored)
        && (discovered[p].stem in FailedTests(cs) <==> !stored)
    {
      var stems, outcomes := Stems(discovered), PlanOutcomes(discovered, runs);
      PlanRouting(stems, outcomes, completionOrder);
      assert stems[p] == discovered[p].stem;
      assert outcomes[p] == PlanOutcome(discovered[p], runs[p]);
    }

    /** `run_all_tests`: discovery, then every plan's outcome merged as it completes
        (`completionOrder` is the order in which the pool hands them back). The
        result is the list of failed stems, which the source logs; an empty
        discovery re-raises and stores nothing. */
    method RunAllTests(discovered: seq<JmxFile>, runs: seq<ProcessRun>, completionOrder: seq<nat>)
      returns (r: Result<seq<string>, RunnerError>)
      requires Valid()
      requires |runs| == |discovered|
      requires IsPermutation(completionOrder, |discovered|)
      modifies this
      ensures Valid()
      ensures discovered == [] ==> r == Failure(JmxFileNotFound(testDir)) && allResults == old(allResults)
      ensures discovered != [] ==>
        var cs := Completions(Stems(discovered), PlanOutcomes(discovered, runs), completionOrder);
        r == Success(FailedTests(cs)) && allResults == AbsorbAll(old(allResults), cs)
    {
      var found := FindJmxFiles(discovered);
      if found.Failure? {
        return Failure(found.error);
      }
      var jmxFiles := found.value;
      ghost var cs := Completions(Stems(jmxFiles), PlanOutcomes(jmxFiles, runs), completionOrder);
      var failedTests: seq<string> := [];
      for i := 0 to |completionOrder|
        invariant Valid()
        invariant allResults == AbsorbAll(old(allResults), cs[..i])
        invariant failedTests == FailedTests(cs[..i])
      {
        var k := completionOrder[i];
        var jmx := jmxFiles[k];
        var result := RunSingleTest(jmx, runs[k]);
        assert cs[..i + 1][..i] == cs[..i];
        assert cs[i] == Completion(jmx.stem, PlanOutcome(jmx, runs[k]));
        if result.Success? {
          ParsedCountsConsistent(runs[k].table.value, jmx.stem, formatTime, Some(ReportDir(jmx.stem)));
          allResults := allResults.Put(jmx.stem, result.value);
        } else {
          failedTests := failedTests + [jmx.stem];
        }
      }
      assert cs[..|completionOrder|] == cs;
      return Success(failedTests);
    }
  }
}
