/** What the parser computes from one plan's rows (the specification of
    `JMeterTestRunner.parse_results`), and the properties of those figures. */
module Aggregation {
  import opened Wrappers
  import opened Numbers
  import opened Summary

  /** The `elapsed` column. */
  function Elapsed(rs: seq<Record>): (xs: seq<int>)
    ensures |xs| == |rs|
    ensures forall i :: 0 <= i < |rs| ==> xs[i] == rs[i].elapsed
  {
    seq(|rs|, i requires 0 <= i < |rs| => rs[i].elapsed)
  }

  /** The `timeStamp` column. */
  function Timestamps(rs: seq<Record>): (xs: seq<int>)
    ensures |xs| == |rs|
    ensures forall i :: 0 <= i < |rs| ==> xs[i] == rs[i].timeStamp
  {
    seq(|rs|, i requires 0 <= i < |rs| => rs[i].timeStamp)
  }

  /** `len(df[df['success'] == True])` */
  function SuccessCount(rs: seq<Record>): nat
  {
    if rs == [] then 0
    else SuccessCount(rs[..|rs| - 1]) + (if rs[|rs| - 1].success then 1 else 0)
  }

  /** `len(df[df['success'] == False])` */
  function FailCount(rs: seq<Record>): nat
  {
    if rs == [] then 0
    else FailCount(rs[..|rs| - 1]) + (if rs[|rs| - 1].success then 0 else 1)
  }

  /** The two filters are counted separately; since `success` is a boolean,
      every row falls in exactly one of them. */
  lemma {:induction false} SuccessPlusFail(rs: seq<Record>)
    ensures SuccessCount(rs) + FailCount(rs) == |rs|
  {
    if rs != [] {
      SuccessPlusFail(rs[..|rs| - 1]);
    }
  }

  /** The wall-clock span of the rows' timestamps, in milliseconds. */
  function Span(rs: seq<Record>): int
    requires rs != []
  {
    SeqMax(Timestamps(rs)) - SeqMin(Timestamps(rs))
  }

  /** Requests per second over the span of the rows' timestamps; 0 when the span
      is not positive, and for no rows (NaN > 0 is false). */
  function Tps(rs: seq<Record>): (tps: real)
    ensures tps >= 0.0
    ensures rs == [] ==> tps == 0.0
    ensures rs != [] ==> (tps > 0.0 <==> Span(rs) > 0)
    ensures rs != [] && Span(rs) > 0 ==> tps * (Span(rs) as real) == (|rs| as real) * 1000.0
  {
    if rs == [] then 0.0 else PerSecond(|rs|, Span(rs))
  }

  /** The distinct labels of the rows. */
  function Labels(rs: seq<Record>): set<string>
  {
    set r | r in rs :: r.labelName
  }

  lemma LabelsOfPrefix(rs: seq<Record>)
    requires rs != []
    ensures Labels(rs) == Labels(rs[..|rs| - 1]) + {rs[|rs| - 1].labelName}
  {
    assert rs == rs[..|rs| - 1] + [rs[|rs| - 1]];
  }

  /** The rows of one label, in record order (one group of `df.groupby('label')`). */
  function Group(rs: seq<Record>, name: string): (g: seq<Record>)
    ensures |g| <= |rs|
    ensures forall i :: 0 <= i < |g| ==> g[i].labelName == name
    ensures |g| > 0 <==> name in Labels(rs)
  {
    if rs == [] then []
    else
      LabelsOfPrefix(rs);
      var prev := Group(rs[..|rs| - 1], name);
      if rs[|rs| - 1].labelName == name then prev + [rs[|rs| - 1]] else prev
  }

  /** A label's group keeps every row of that label as often as it occurs, and no
      row of another label. */
  lemma {:induction false} GroupExact(rs: seq<Record>, name: string)
    ensures forall r :: multiset(Group(rs, name))[r] == if r.labelName == name then multiset(rs)[r] else 0
  {
    if rs != [] {
      var prefix := rs[..|rs| - 1];
      assert rs == prefix + [rs[|rs| - 1]];
      GroupExact(prefix, name);
    }
  }

  /** The distinct labels in order of first occurrence: the keys `groupby` visits. */
  function DistinctLabels(rs: seq<Record>): (ls: seq<string>)
    ensures forall i, j :: 0 <= i < j < |ls| ==> ls[i] != ls[j]
    ensures forall l :: l in ls <==> l in Labels(rs)
  {
    if rs == [] then []
    else
      LabelsOfPrefix(rs);
      var prev := DistinctLabels(rs[..|rs| - 1]);
      if rs[|rs| - 1].labelName in prev then prev else prev + [rs[|rs| - 1].labelName]
  }

  /** The statistics tuple of one non-empty group. */
  function TxSummaryOf(g: seq<Record>): TxSummary
    requires g != []
  {
    TxSummary(
      |g|,
      SuccessCount(g),
      FailCount(g),
      Mean(Elapsed(g)),
      SeqMin(Elapsed(g)),
      SeqMax(Elapsed(g)),
      Percent(FailCount(g), |g|))
  }

  /** `summary['transactions']`: one entry per distinct label. */
  function Transactions(rs: seq<Record>): map<string, TxSummary>
  {
    map l | l in Labels(rs) :: TxSummaryOf(Group(rs, l))
  }

  /** A map with one entry per label, each that label's statistics, is the
      transaction map. */
  lemma TransactionsByLabel(rs: seq<Record>, m: map<string, TxSummary>)
    requires forall l :: l in m <==> l in Labels(rs)
    requires forall l :: l in m ==> Group(rs, l) != [] && m[l] == TxSummaryOf(Group(rs, l))
    ensures m == Transactions(rs)
  {
  }

  /** `df[df['success'] == False]`: the failed rows, in record order. */
  function FailedRecords(rs: seq<Record>): seq<Record>
  {
    if rs == [] then []
    else FailedRecords(rs[..|rs| - 1]) + (if rs[|rs| - 1].success then [] else [rs[|rs| - 1]])
  }

  /** The error-detail entry the parser appends for one failed row; `formatTime`
      turns epoch milliseconds into local, second-precision text. */
  function DetailOf(r: Record, formatTime: int -> string): ErrorDetail
  {
    ErrorDetail(r.labelName, r.responseCode, r.failureMessage, r.threadName, formatTime(r.timeStamp))
  }

  /** `summary['error_details']`: one entry per failed row, in record order. */
  function ErrorDetails(rs: seq<Record>, formatTime: int -> string): seq<ErrorDetail>
  {
    var failed := FailedRecords(rs);
    seq(|failed|, k requires 0 <= k < |failed| => DetailOf(failed[k], formatTime))
  }

  /** `df['elapsed'].mean()`, None (NaN) for no rows. */
  function AverageResponseTime(rs: seq<Record>): Option<real>
  {
    if rs == [] then None else Some(Mean(Elapsed(rs)))
  }

  /** `df['elapsed'].min()`, None (NaN) for no rows. */
  function MinResponseTime(rs: seq<Record>): Option<int>
  {
    if rs == [] then None else Some(SeqMin(Elapsed(rs)))
  }

  /** `df['elapsed'].max()`, None (NaN) for no rows. */
  function MaxResponseTime(rs: seq<Record>): Option<int>
  {
    if rs == [] then None else Some(SeqMax(Elapsed(rs)))
  }

  /** `failed_requests / total_requests * 100 if total_requests > 0 else 0` */
  function ErrorRate(rs: seq<Record>): real
  {
    Percent(FailCount(rs), |rs|)
  }

  /** The summary `parse_results` returns for rows `rs` of plan `testName`. */
  function PlanSummaryOf(rs: seq<Record>, testName: string, formatTime: int -> string): PlanSummary
  {
    PlanSummary(
      testName,
      |rs|,
      SuccessCount(rs),
      FailCount(rs),
      AverageResponseTime(rs),
      MinResponseTime(rs),
      MaxResponseTime(rs),
      ErrorDetails(rs, formatTime),
      Transactions(rs),
      Tps(rs),
      ErrorRate(rs),
      None)
  }

  /** Success and fail counts partition the total. */
  ghost predicate CountsConsistent(s: PlanSummary)
  {
    s.successfulRequests + s.failedRequests == s.totalRequests
  }

  // ---------------------------------------------------------------------------
  // Properties of a plan summary

  /** Every summary the parser builds (with or without the report directory the
      runner adds) has consistent counts, its total being the number of rows. */
  lemma ParsedCountsConsistent(rs: seq<Record>, testName: string, formatTime: int -> string, reportDir: Option<string>)
    ensures PlanSummaryOf(rs, testName, formatTime).(reportDir := reportDir).totalRequests == |rs|
    ensures CountsConsistent(PlanSummaryOf(rs, testName, formatTime).(reportDir := reportDir))
  {
    SuccessPlusFail(rs);
  }

  /** For rows present, min <= mean <= max, and min and max are some row's
      `elapsed`; for no rows all three are NaN. */
  lemma ResponseTimes(rs: seq<Record>)
    ensures rs == [] <==> AverageResponseTime(rs).None?
    ensures rs == [] <==> MinResponseTime(rs).None?
    ensures rs == [] <==> MaxResponseTime(rs).None?
    ensures rs != [] ==>
      && MinResponseTime(rs).value as real <= AverageResponseTime(rs).value
      && AverageResponseTime(rs).value <= MaxResponseTime(rs).value as real
    ensures rs != [] ==>
      && (exists i :: 0 <= i < |rs| && rs[i].elapsed == MinResponseTime(rs).value)
      && (exists j :: 0 <= j < |rs| && rs[j].elapsed == MaxResponseTime(rs).value)
      && (forall i :: 0 <= i < |rs| ==> MinResponseTime(rs).value <= rs[i].elapsed <= MaxResponseTime(rs).value)
  {
    if rs != [] {
      var xs := Elapsed(rs);
      MeanBetweenMinMax(xs);
      var i :| 0 <= i < |xs| && xs[i] == SeqMin(xs);
      var j :| 0 <= j < |xs| && xs[j] == SeqMax(xs);
      assert rs[i].elapsed == SeqMin(xs);
      assert rs[j].elapsed == SeqMax(xs);
    }
  }

  /** Rows that all carry one timestamp (in particular a single row) give TPS 0. */
  lemma {:induction false} TpsZeroOnOneTimestamp(rs: seq<Record>)
    requires forall i, j :: 0 <= i < |rs| && 0 <= j < |rs| ==> rs[i].timeStamp == rs[j].timeStamp
    ensures Tps(rs) == 0.0
  {
    if rs != [] {
      var ts := Timestamps(rs);
      var i :| 0 <= i < |ts| && ts[i] == SeqMax(ts);
      var j :| 0 <= j < |ts| && ts[j] == SeqMin(ts);
      assert rs[i].timeStamp == rs[j].timeStamp;
      assert Span(rs) == 0;
    }
  }

  /** The error rate is `failed / total * 100`, 0 for no rows, and within [0, 100]. */
  lemma ErrorRateRange(rs: seq<Record>)
    ensures 0.0 <= ErrorRate(rs) <= 100.0
    ensures rs == [] ==> ErrorRate(rs) == 0.0
    ensures ErrorRate(rs) * (|rs| as real) == (FailCount(rs) as real) * 100.0
  {
    SuccessPlusFail(rs);
  }

  // ---------------------------------------------------------------------------
  // Properties of the transaction map

  /** The statistics tuple of a non-empty group: success and fail partition the
      count, the error rate is `fail / count * 100` within [0, 100], and the
      response times are ordered. */
  lemma TxSummaryConsistent(g: seq<Record>)
    requires g != []
    ensures TxSummaryOf(g).count >= 1
    ensures TxSummaryOf(g).success + TxSummaryOf(g).fail == TxSummaryOf(g).count
    ensures TxSummaryOf(g).errorRate == Percent(TxSummaryOf(g).fail, TxSummaryOf(g).count)
    ensures 0.0 <= TxSummaryOf(g).errorRate <= 100.0
    ensures TxSummaryOf(g).minResponseTime as real <= TxSummaryOf(g).avgResponseTime
    ensures TxSummaryOf(g).avgResponseTime <= TxSummaryOf(g).maxResponseTime as real
  {
    TxCounts(g);
    TxTimes(g);
  }

  /** The counts of a non-empty group's tuple partition its size, and its error
      rate is the guarded percentage of failures. */
  lemma TxCounts(g: seq<Record>)
    requires g != []
    ensures TxSummaryOf(g).count >= 1
    ensures TxSummaryOf(g).success + TxSummaryOf(g).fail == TxSummaryOf(g).count
    ensures TxSummaryOf(g).errorRate == Percent(TxSummaryOf(g).fail, TxSummaryOf(g).count)
  {
    SuccessPlusFail(g);
  }

  /** The mean response time of a non-empty group lies between its minimum and
      maximum. */
  lemma TxTimes(g: seq<Record>)
    requires g != []
    ensures TxSummaryOf(g).minResponseTime as real <= TxSummaryOf(g).avgResponseTime
    ensures TxSummaryOf(g).avgResponseTime <= TxSummaryOf(g).maxResponseTime as real
  {
    MeanBetweenMinMax(Elapsed(g));
  }

  /** The transaction map is keyed by exactly the labels that occur; each entry
      summarises that label's rows, so its count is at least 1 (its error rate never
      takes the `else 0` branch) and the tuple is consistent. */
  lemma TransactionEntry(rs: seq<Record>, l: string)
    ensures l in Transactions(rs) <==> l in Labels(rs)
    ensures l in Transactions(rs) ==>
      && |Group(rs, l)| >= 1
      && Transactions(rs)[l] == TxSummaryOf(Group(rs, l))
      && Transactions(rs)[l].count == |Group(rs, l)|
      && Transactions(rs)[l].success + Transactions(rs)[l].fail == Transactions(rs)[l].count
      && 0.0 <= Transactions(rs)[l].errorRate <= 100.0
      && Transactions(rs)[l].minResponseTime as real <= Transactions(rs)[l].avgResponseTime
      && Transactions(rs)[l].avgResponseTime <= Transactions(rs)[l].maxResponseTime as real
  {
    if l in Labels(rs) {
      TxSummaryConsistent(Group(rs, l));
    }
  }

  /** The number of rows labelled `l`. */
  function LabelCount(rs: seq<Record>, l: string): nat
  {
    |Group(rs, l)|
  }

  /** Counts of the labels listed in `ls`, summed. */
  function SumLabelCounts(rs: seq<Record>, ls: seq<string>): nat
  {
    if ls == [] then 0 else SumLabelCounts(rs, ls[..|ls| - 1]) + LabelCount(rs, ls[|ls| - 1])
  }

  /** How often `x` occurs in `ls`. */
  function Occurrences(ls: seq<string>, x: string): nat
  {
    if ls == [] then 0 else Occurrences(ls[..|ls| - 1], x) + (if ls[|ls| - 1] == x then 1 else 0)
  }

  lemma {:induction false} OccurrencesOfDistinct(ls: seq<string>, x: string)
    requires forall i, j :: 0 <= i < j < |ls| ==> ls[i] != ls[j]
    ensures Occurrences(ls, x) == if x in ls then 1 else 0
  {
    if ls != [] {
      var prefix := ls[..|ls| - 1];
      assert ls == prefix + [ls[|ls| - 1]];
      OccurrencesOfDistinct(prefix, x);
    }
  }

  /** Adding one row adds one to the count of its label and nothing to the others. */
  lemma {:induction false} SumLabelCountsStep(rs: seq<Record>, ls: seq<string>)
    requires rs != []
    ensures SumLabelCounts(rs, ls)
         == SumLabelCounts(rs[..|rs| - 1], ls) + Occurrences(ls, rs[|rs| - 1].labelName)
  {
    if ls != [] {
      SumLabelCountsStep(rs, ls[..|ls| - 1]);
    }
  }

  lemma {:induction false} SumLabelCountsOfNoRows(ls: seq<string>)
    ensures SumLabelCounts([], ls) == 0
  {
    if ls != [] {
      SumLabelCountsOfNoRows(ls[..|ls| - 1]);
    }
  }

  lemma {:induction false} SumLabelCountsCovers(rs: seq<Record>, ls: seq<string>)
    requires forall i, j :: 0 <= i < j < |ls| ==> ls[i] != ls[j]
    requires forall l :: l in Labels(rs) ==> l in ls
    ensures SumLabelCounts(rs, ls) == |rs|
  {
    if rs != [] {
      var prefix, last := rs[..|rs| - 1], rs[|rs| - 1];
      LabelsOfPrefix(rs);
      assert last.labelName in Labels(rs);
      SumLabelCountsCovers(prefix, ls);
      SumLabelCountsStep(rs, ls);
      OccurrencesOfDistinct(ls, last.labelName);
    } else {
      SumLabelCountsOfNoRows(ls);
    }
  }

  /** Transaction counts, summed over the distinct labels (each key once), give the
      plan's total request count. */
  lemma TransactionCountsSum(rs: seq<Record>)
    ensures SumLabelCounts(rs, DistinctLabels(rs)) == |rs|
    ensures forall l :: l in DistinctLabels(rs) ==> Transactions(rs)[l].count == LabelCount(rs, l)
  {
    SumLabelCountsCovers(rs, DistinctLabels(rs));
  }

  // ---------------------------------------------------------------------------
  // Properties of the error details

  /** Filtering a concatenation filters each part: the failed rows keep record order. */
  lemma {:induction false} FailedRecordsAppend(a: seq<Record>, b: seq<Record>)
    ensures FailedRecords(a + b) == FailedRecords(a) + FailedRecords(b)
  {
    if b == [] {
      assert a + b == a;
    } else {
      var b' := b[..|b| - 1];
      assert (a + b)[..|a + b| - 1] == a + b';
      assert (a + b)[|a + b| - 1] == b[|b| - 1];
      FailedRecordsAppend(a, b');
    }
  }

  /** Every failed row is kept exactly as often as it occurs; no successful row is. */
  lemma {:induction false} FailedRecordsExact(rs: seq<Record>)
    ensures forall r :: multiset(FailedRecords(rs))[r] == if r.success then 0 else multiset(rs)[r]
    ensures |FailedRecords(rs)| == FailCount(rs)
  {
    if rs != [] {
      var prefix := rs[..|rs| - 1];
      assert rs == prefix + [rs[|rs| - 1]];
      FailedRecordsExact(prefix);
    }
  }

  /** `error_details` has one entry per failed row, in record order, each copying
      that row's label, response code, failure message and thread name. */
  lemma ErrorDetailsOfFailures(rs: seq<Record>, formatTime: int -> string)
    ensures var details, failed := ErrorDetails(rs, formatTime), FailedRecords(rs);
      && |details| == FailCount(rs) == |failed|
      && forall k :: 0 <= k < |failed| ==>
           && !failed[k].success
           && details[k].labelName == failed[k].labelName
           && details[k].responseCode == failed[k].responseCode
           && details[k].responseMessage == failed[k].failureMessage
           && details[k].threadName == failed[k].threadName
           && details[k].timestamp == formatTime(failed[k].timeStamp)
  {
    FailedRecordsExact(rs);
    var failed := FailedRecords(rs);
    forall k | 0 <= k < |failed| ensures !failed[k].success {
      assert failed[k] in multiset(failed);
    }
  }

  /** The column of the ten-row example below totals 1600. */
  lemma TenResponseTimesSum(xs: seq<int>)
    requires xs == [100, 100, 100, 100, 100, 100, 100, 200, 300, 400]
    ensures SeqSum(xs) == 1600
  {
    assert SeqSum(xs[..0]) == 0;
    SeqSumStep(xs, 1);
    assert SeqSum(xs[..1]) == 100;
    SeqSumStep(xs, 2);
    assert SeqSum(xs[..2]) == 200;
    SeqSumStep(xs, 3);
    assert SeqSum(xs[..3]) == 300;
    SeqSumStep(xs, 4);
    assert SeqSum(xs[..4]) == 400;
    SeqSumStep(xs, 5);
    assert SeqSum(xs[..5]) == 500;
    SeqSumStep(xs, 6);
    assert SeqSum(xs[..6]) == 600;
    SeqSumStep(xs, 7);
    assert SeqSum(xs[..7]) == 700;
    SeqSumStep(xs, 8);
    assert SeqSum(xs[..8]) == 900;
    SeqSumStep(xs, 9);
    assert SeqSum(xs[..9]) == 1200;
    SeqSumStep(xs, 10);
    assert SeqSum(xs[..10]) == 1600;
    assert xs[..10] == xs;
  }

  /** The column of the ten-row example below ranges from 100 to 400. */
  lemma TenResponseTimesRange(xs: seq<int>)
    requires |xs| == 10 && xs[0] == 100 && xs[9] == 400
    requires forall i :: 0 <= i < |xs| ==> 100 <= xs[i] <= 400
    ensures SeqMin(xs) == 100 && SeqMax(xs) == 400
  {
    assert SeqMin(xs) <= xs[0];
    assert xs[9] <= SeqMax(xs);
  }

  /** Seven successful rows followed by three failed ones: three failures. */
  lemma ThreeFailuresOfTen(rs: seq<Record>)
    requires |rs| == 10
    requires forall i :: 0 <= i < 10 ==> (rs[i].success <==> i < 7)
    ensures FailCount(rs) == 3
  {
    FailedRecordsExact(rs[..7]);
    assert forall r :: r in rs[..7] ==> r.success;
    assert forall r :: multiset(FailedRecords(rs[..7]))[r] == 0;
    assert FailCount(rs[..7]) == 0;
    assert rs[..8][..7] == rs[..7] && !rs[7].success;
    assert FailCount(rs[..8]) == 1;
    assert rs[..9][..8] == rs[..8] && !rs[8].success;
    assert FailCount(rs[..9]) == 2;
    assert rs[..9] == rs[..|rs| - 1] && !rs[9].success;
  }

  /** Ten rows, seven successful and three failed, with response times
      100 ×7, 200, 300, 400: mean 160 (a total of 1600 ms over ten rows), min 100,
      max 400, error rate 30 %. */
  lemma SevenOfTen(rs: seq<Record>)
    requires |rs| == 10
    requires Elapsed(rs) == [100, 100, 100, 100, 100, 100, 100, 200, 300, 400]
    requires forall i :: 0 <= i < 10 ==> (rs[i].success <==> i < 7)
    ensures AverageResponseTime(rs) == Some(160.0)
    ensures MinResponseTime(rs) == Some(100)
    ensures MaxResponseTime(rs) == Some(400)
    ensures ErrorRate(rs) == 30.0
  {
    var xs := Elapsed(rs);
    TenResponseTimesSum(xs);
    TenResponseTimesRange(xs);
    ThreeFailuresOfTen(rs);
  }
}
