/** The cross-plan figures of `ReportGenerator`: the totals and the mean of means
    handed to the HTML template, the success rates the template displays, and the
    data series fed to the charts. Rendering itself is not modelled. */
module Report {
  import opened Wrappers
  import opened Numbers
  import opened Summary
  import opened Aggregation
  import opened Batch

  /** `self.results.values()`, in key order. */
  function Values(res: Results): (vs: seq<PlanSummary>)
    requires res.Valid()
    ensures |vs| == |res.keys|
  {
    seq(|res.keys|, i requires 0 <= i < |res.keys| && res.keys[i] in res.entries => res.entries[res.keys[i]])
  }

  lemma {:induction false} DistinctCount(keys: seq<string>)
    requires forall i, j :: 0 <= i < j < |keys| ==> keys[i] != keys[j]
    ensures |set k | k in keys| == |keys|
  {
    if keys != [] {
      var prefix := keys[..|keys| - 1];
      DistinctCount(prefix);
      assert (set k | k in keys) == (set k | k in prefix) + {keys[|keys| - 1]};
    }
  }

  /** `total_systems = len(self.results)`: the number of stored plans. */
  function TotalSystems(res: Results): (n: nat)
    requires res.Valid()
    ensures n == |res.entries|
  {
    DistinctCount(res.keys);
    assert res.entries.Keys == set k | k in res.keys;
    |res.keys|
  }

  /** `sum(f(r) for r in results.values())` */
  function SumBy(vs: seq<PlanSummary>, f: PlanSummary -> int): int
  {
    if vs == [] then 0 else SumBy(vs[..|vs| - 1], f) + f(vs[|vs| - 1])
  }

  function Requests(s: PlanSummary): int { s.totalRequests }
  function Successes(s: PlanSummary): int { s.successfulRequests }
  function Failures(s: PlanSummary): int { s.failedRequests }

  /** `total_requests` */
  function TotalRequests(res: Results): int
    requires res.Valid()
  {
    SumBy(Values(res), Requests)
  }

  /** `total_success`, also the pie chart's success value. */
  function TotalSuccess(res: Results): int
    requires res.Valid()
  {
    SumBy(Values(res), Successes)
  }

  /** `total_failed`, also the pie chart's fail value. */
  function TotalFailed(res: Results): int
    requires res.Valid()
  {
    SumBy(Values(res), Failures)
  }

  lemma {:induction false} SumByAdds(vs: seq<PlanSummary>, f: PlanSummary -> int, g: PlanSummary -> int, h: PlanSummary -> int)
    requires forall i :: 0 <= i < |vs| ==> f(vs[i]) + g(vs[i]) == h(vs[i])
    ensures SumBy(vs, f) + SumBy(vs, g) == SumBy(vs, h)
  {
    if vs != [] {
      SumByAdds(vs[..|vs| - 1], f, g, h);
    }
  }

  lemma {:induction false} SumByNonNegative(vs: seq<PlanSummary>, f: PlanSummary -> int)
    requires forall i :: 0 <= i < |vs| ==> f(vs[i]) >= 0
    ensures SumBy(vs, f) >= 0
  {
    if vs != [] {
      SumByNonNegative(vs[..|vs| - 1], f);
    }
  }

  /** When every plan's success and fail counts partition its total, so do the
      report's totals. */
  lemma TotalsConsistent(res: Results)
    requires res.Valid()
    ensures (forall k :: k in res.entries ==> CountsConsistent(res.entries[k])) ==>
      && TotalSuccess(res) + TotalFailed(res) == TotalRequests(res)
      && 0 <= TotalSuccess(res) <= TotalRequests(res)
  {
    if forall k :: k in res.entries ==> CountsConsistent(res.entries[k]) {
      TotalsConsistentWhenEachIs(res);
    }
  }

  lemma TotalsConsistentWhenEachIs(res: Results)
    requires res.Valid()
    requires forall k :: k in res.entries ==> CountsConsistent(res.entries[k])
    ensures TotalSuccess(res) + TotalFailed(res) == TotalRequests(res)
    ensures 0 <= TotalSuccess(res) <= TotalRequests(res)
  {
    var vs := Values(res);
    assert forall i :: 0 <= i < |vs| ==> vs[i] == res.entries[res.keys[i]];
    SumByAdds(vs, Successes, Failures, Requests);
    SumByNonNegative(vs, Successes);
    SumByNonNegative(vs, Failures);
  }

  /** The sum of the per-plan averages; None (NaN) when some plan has none. */
  function SumAverages(vs: seq<PlanSummary>): (r: Option<real>)
    ensures r.None? <==> exists i :: 0 <= i < |vs| && vs[i].averageResponseTime.None?
  {
    if vs == [] then Some(0.0)
    else
      var prefix, last := vs[..|vs| - 1], vs[|vs| - 1];
      assert forall i :: 0 <= i < |prefix| ==> prefix[i] == vs[i];
      match (SumAverages(prefix), last.averageResponseTime)
      case (Some(t), Some(a)) => Some(t + a)
      case _ => None
  }

  /** `overall_avg_response_time`: the unweighted mean of the plans' own averages,
      0 when there are no plans, NaN (None) when some plan's average is NaN. */
  function OverallAverage(res: Results): (r: Option<real>)
    requires res.Valid()
    ensures res.keys == [] ==> r == Some(0.0)
    ensures r.None? <==> exists i :: 0 <= i < |res.keys| && Values(res)[i].averageResponseTime.None?
  {
    if |res.keys| == 0 then Some(0.0)
    else match SumAverages(Values(res))
      case Some(t) => Some(t / (|res.keys| as real))
      case None => None
  }

  lemma BoundsAddOne(n: real, t: real, a: real, lo: real, hi: real)
    requires n * lo <= t <= n * hi && lo <= a <= hi
    ensures (n + 1.0) * lo <= t + a <= (n + 1.0) * hi
  {
  }

  lemma {:induction false} SumAveragesBounds(vs: seq<PlanSummary>, lo: real, hi: real)
    requires forall i :: 0 <= i < |vs| ==>
      vs[i].averageResponseTime.Some? && lo <= vs[i].averageResponseTime.value <= hi
    ensures SumAverages(vs).Some?
    ensures (|vs| as real) * lo <= SumAverages(vs).value <= (|vs| as real) * hi
  {
    if vs != [] {
      var prefix, last := vs[..|vs| - 1], vs[|vs| - 1];
      assert forall i :: 0 <= i < |prefix| ==> prefix[i] == vs[i];
      SumAveragesBounds(prefix, lo, hi);
      var t := SumAverages(prefix).value;
      assert last.averageResponseTime.Some? && lo <= last.averageResponseTime.value <= hi;
      var a := last.averageResponseTime.value;
      assert SumAverages(vs) == Some(t + a);
      BoundsAddOne(|prefix| as real, t, a, lo, hi);
    }
  }

  /** With plans present and every average a number, the overall average lies
      between any bounds of the per-plan averages (so between the smallest and the
      largest). */
  lemma OverallAverageBetween(res: Results, lo: real, hi: real)
    requires res.Valid() && res.keys != []
    requires forall k :: k in res.entries ==>
      res.entries[k].averageResponseTime.Some? && lo <= res.entries[k].averageResponseTime.value <= hi
    ensures OverallAverage(res).Some?
    ensures lo <= OverallAverage(res).value <= hi
  {
    var vs := Values(res);
    assert forall i :: 0 <= i < |vs| ==>
      vs[i].averageResponseTime.Some? && lo <= vs[i].averageResponseTime.value <= hi
    by {
      assert forall i :: 0 <= i < |vs| ==> vs[i] == res.entries[res.keys[i]];
    }
    MeanOfAveragesBetween(vs, lo, hi);
  }

  /** The sum of bounded per-plan averages, divided by their number, keeps the bounds. */
  lemma MeanOfAveragesBetween(vs: seq<PlanSummary>, lo: real, hi: real)
    requires vs != []
    requires forall i :: 0 <= i < |vs| ==>
      vs[i].averageResponseTime.Some? && lo <= vs[i].averageResponseTime.value <= hi
    ensures SumAverages(vs).Some?
    ensures lo <= SumAverages(vs).value / (|vs| as real) <= hi
  {
    SumAveragesBounds(vs, lo, hi);
    QuotientBetween(SumAverages(vs).value, |vs| as real, lo, hi);
  }

  /** Two plans averaging 100 ms and 200 ms give 150 ms, whatever their request
      counts: the mean of means is not weighted by requests. */
  lemma MeanOfMeans(name1: string, name2: string, s1: PlanSummary, s2: PlanSummary)
    requires name1 != name2
    requires s1.averageResponseTime == Some(100.0) && s2.averageResponseTime == Some(200.0)
    ensures OverallAverage(Results([name1, name2], map[name1 := s1, name2 := s2])) == Some(150.0)
  {
    var res := Results([name1, name2], map[name1 := s1, name2 := s2]);
    var vs := Values(res);
    assert vs == [s1, s2];
    assert vs[..1] == [s1];
    assert [s1][..0] == [];
    assert SumAverages([s1]) == Some(100.0);
    assert SumAverages(vs) == Some(300.0);
  }

  // ---------------------------------------------------------------------------
  // Success rates shown by the template

  /** The overall success rate: `total_success / total_requests * 100`, or 0 when
      there are no requests; within [0, 100] when the plans' counts are consistent. */
  function OverallSuccessRate(res: Results): (rate: real)
    requires res.Valid()
    ensures TotalRequests(res) <= 0 ==> rate == 0.0
    ensures TotalRequests(res) > 0 ==> rate * (TotalRequests(res) as real) == (TotalSuccess(res) as real) * 100.0
    ensures (forall k :: k in res.entries ==> CountsConsistent(res.entries[k])) ==> 0.0 <= rate <= 100.0
  {
    TotalsConsistent(res);
    Percent(TotalSuccess(res), TotalRequests(res))
  }

  /** The pie chart's two slices are the report's `total_success` and
      `total_failed`; with consistent counts they add up to `total_requests`, so the
      chart's success share is the overall success rate the template prints. */
  lemma PieAgreesWithOverallRate(res: Results)
    requires res.Valid()
    requires forall k :: k in res.entries ==> CountsConsistent(res.entries[k])
    ensures OverallSuccessRate(res) == Percent(TotalSuccess(res), TotalSuccess(res) + TotalFailed(res))
  {
    TotalsConsistentWhenEachIs(res);
  }

  /** One system's success rate: `successful_requests / total_requests * 100`, or 0
      when it has no requests; within [0, 100] when its counts are consistent. */
  function SystemSuccessRate(s: PlanSummary): (rate: real)
    ensures s.totalRequests == 0 ==> rate == 0.0
    ensures s.totalRequests > 0 ==> rate * (s.totalRequests as real) == (s.successfulRequests as real) * 100.0
    ensures CountsConsistent(s) ==> 0.0 <= rate <= 100.0
  {
    Percent(s.successfulRequests, s.totalRequests)
  }

  /** One transaction's success rate: `success / count * 100`, computed without a
      guard, so the template needs `count > 0`. */
  function TransactionSuccessRate(t: TxSummary): (rate: real)
    requires t.count > 0
    ensures rate * (t.count as real) == (t.success as real) * 100.0
    ensures t.success <= t.count ==> 0.0 <= rate <= 100.0
  {
    (t.success as real) / (t.count as real) * 100.0
  }

  /** A transaction tuple whose success and fail make up its count, and whose
      error rate is the failed share, has success rate + error rate = 100. */
  lemma TxRatesComplement(t: TxSummary)
    requires t.count > 0 && t.success + t.fail == t.count
    requires t.errorRate == Percent(t.fail, t.count)
    ensures TransactionSuccessRate(t) + t.errorRate == 100.0
  {
    assert TransactionSuccessRate(t) == Percent(t.success, t.count);
    PercentsComplement(t.success, t.fail, t.count);
  }

  /** For every transaction of a parsed plan the template's division is defined, and
      the displayed success rate and the stored error rate add up to 100. */
  lemma TransactionRatesComplement(rs: seq<Record>, l: string)
    requires l in Transactions(rs)
    ensures Transactions(rs)[l].count > 0
    ensures TransactionSuccessRate(Transactions(rs)[l]) + Transactions(rs)[l].errorRate == 100.0
  {
    var t := Transactions(rs)[l];
    assert t.count > 0 && t.success + t.fail == t.count && t.errorRate == Percent(t.fail, t.count) by {
      TransactionEntry(rs, l);
    }
    TxRatesComplement(t);
  }

  // ---------------------------------------------------------------------------
  // Chart series

  /** `systems = list(self.results.keys())` */
  function Systems(res: Results): seq<string>
  {
    res.keys
  }

  /** `avg_response_times`, in the order of `systems`. */
  function AverageSeries(res: Results): (ys: seq<Option<real>>)
    requires res.Valid()
    ensures |ys| == |Systems(res)|
  {
    var vs := Values(res);
    seq(|vs|, i requires 0 <= i < |vs| => vs[i].averageResponseTime)
  }

  /** `tps_values`, in the order of `systems`. */
  function TpsSeries(res: Results): (ys: seq<real>)
    requires res.Valid()
    ensures |ys| == |Systems(res)|
  {
    var vs := Values(res);
    seq(|vs|, i requires 0 <= i < |vs| => vs[i].tps)
  }

  /** The bar charts pair each system with its own figures: every stored plan
      appears exactly once on the x axis, and at that position the two series hold
      that plan's average response time and TPS. */
  lemma SeriesAligned(res: Results, name: string)
    requires res.Valid()
    requires name in res.entries
    ensures |Systems(res)| == |AverageSeries(res)| == |TpsSeries(res)| == TotalSystems(res)
    ensures exists i :: 0 <= i < |Systems(res)| && Systems(res)[i] == name
    ensures forall i :: 0 <= i < |Systems(res)| && Systems(res)[i] == name ==>
      && AverageSeries(res)[i] == res.entries[name].averageResponseTime
      && TpsSeries(res)[i] == res.entries[name].tps
      && (forall j :: 0 <= j < |Systems(res)| && j != i ==> Systems(res)[j] != name)
  {
    assert name in res.keys;
  }

  /** What the three-plan scenario below comes to once each plan is routed: the
      results hold the first and third plans, the second is the one failed test. */
  lemma FirstAndThirdStored(stems: seq<string>, res: Results, failed: seq<string>, a: PlanSummary, c: PlanSummary)
    requires |stems| == 3 && stems[0] != stems[1] && stems[1] != stems[2] && stems[0] != stems[2]
    requires res.Valid()
    requires stems[0] in res.entries && res.entries[stems[0]] == a
    requires stems[2] in res.entries && res.entries[stems[2]] == c
    requires stems[1] !in res.entries && stems[1] in failed
    requires forall s :: s in res.entries ==> s in stems
    requires |res.keys| + |failed| == 3
    ensures res.entries == map[stems[0] := a, stems[2] := c]
    ensures TotalSystems(res) == 2
    ensures failed == [stems[1]]
  {
    assert stems == [stems[0], stems[1], stems[2]];
    assert res.entries.Keys == {stems[0], stems[2]};
    assert res.entries == map[stems[0] := a, stems[2] := c];
    assert TotalSystems(res) == |res.keys| == 2;
  }

  /** Three plans where the second plan's engine exits non-zero: whatever order
      they complete in, the results hold the first and third plans only, the second
      is the one failed test, and the report counts two systems. */
  lemma ThreePlansOneFails(stems: seq<string>, a: PlanSummary, c: PlanSummary, exitCode: int, order: seq<nat>)
    requires |stems| == 3 && stems[0] != stems[1] && stems[1] != stems[2] && stems[0] != stems[2]
    requires exitCode != 0
    requires IsPermutation(order, 3)
    ensures var cs := Completions(stems, [Returned(a), Raised(ProcessFailed(exitCode)), Returned(c)], order);
      && AbsorbAll(NoResults, cs).entries == map[stems[0] := a, stems[2] := c]
      && FailedTests(cs) == [stems[1]]
      && TotalSystems(AbsorbAll(NoResults, cs)) == 2
  {
    var outcomes := [Returned(a), Raised(ProcessFailed(exitCode)), Returned(c)];
    var cs := Completions(stems, outcomes, order);
    var res, failed := AbsorbAll(NoResults, cs), FailedTests(cs);
    assert NoResults.Valid();
    PlanRouting(stems, outcomes, order);
    FirstAndThirdStored(stems, res, failed, a, c);
  }
}
