/** The completion loop of `JMeterTestRunner.run_all_tests`: how each plan's outcome
    is routed either into the results dictionary, keyed by the plan's file stem, or
    onto the list of failed tests. */
module Batch {
  import opened Summary

  /** A Python dict from plan stem to summary: `keys` in insertion order and the
      mapping itself. */
  datatype Results = Results(keys: seq<string>, entries: map<string, PlanSummary>) {

    /** The keys are listed once each, and exactly the keys of the mapping. */
    ghost predicate Valid() {
      && (forall i, j :: 0 <= i < j < |keys| ==> keys[i] != keys[j])
      && (forall k :: k in entries <==> k in keys)
    }

    /** `results[k] = v`: only key `k` changes; a new key goes last, a key already
        present keeps its place. */
    function Put(k: string, v: PlanSummary): (r: Results)
      ensures Valid() ==> r.Valid()
      ensures r.entries.Keys == entries.Keys + {k}
      ensures r.entries[k] == v
      ensures forall k' :: k' in entries && k' != k ==> r.entries[k'] == entries[k']
      ensures k in entries ==> r.keys == keys
      ensures k !in entries ==> r.keys == keys + [k]
    {
      Results(if k in entries then keys else keys + [k], entries[k := v])
    }
  }

  /** The empty dictionary the runner starts with. */
  const NoResults := Results([], map[])

  /** Why a plan produced no summary (each is raised as `TestExecutionException`). */
  datatype TestExecutionError =
    | ProcessFailed(exitCode: int)      // the engine exited with a non-zero status
    | ResultFileMissing(jtlFile: string) // the engine exited with 0 but wrote no result file
    | ParseFailed(jtlFile: string)       // the result file could not be read as a table

  /** What `future.result()` gives for one plan: a summary, None, or an exception. */
  datatype Outcome = Returned(summary: PlanSummary) | ReturnedNone | Raised(error: TestExecutionError)

  /** One plan's completion: the stem of its .jmx file and its outcome. */
  datatype Completion = Completion(stem: string, outcome: Outcome)

  /** One pass of the completion loop: a returned summary (a dict is never empty,
      so it is truthy) is stored under the plan's stem; None and an exception leave
      the results alone. */
  function Absorb(res: Results, c: Completion): Results
  {
    if c.outcome.Returned? then res.Put(c.stem, c.outcome.summary) else res
  }

  /** The results after the completions `cs`, in the order they completed. */
  function AbsorbAll(res: Results, cs: seq<Completion>): (r: Results)
    ensures res.Valid() ==> r.Valid()
  {
    if cs == [] then res else Absorb(AbsorbAll(res, cs[..|cs| - 1]), cs[|cs| - 1])
  }

  /** `failed_tests`: the stems of the plans that gave None or raised, in completion order. */
  function FailedTests(cs: seq<Completion>): seq<string>
  {
    if cs == [] then []
    else FailedTests(cs[..|cs| - 1]) + (if cs[|cs| - 1].outcome.Returned? then [] else [cs[|cs| - 1].stem])
  }

  /** No two completions carry the same stem. */
  ghost predicate StemsDistinct(cs: seq<Completion>)
  {
    forall i, j :: 0 <= i < j < |cs| ==> cs[i].stem != cs[j].stem
  }

  /** `order` lists each of the indices 0 .. n-1 exactly once: an order in which
      `as_completed` may hand back the n submitted plans. */
  ghost predicate IsPermutation(order: seq<nat>, n: nat)
  {
    && |order| == n
    && (forall j :: 0 <= j < n ==> order[j] < n)
    && (forall i, j :: 0 <= i < j < n ==> order[i] != order[j])
    && (forall p :: 0 <= p < n ==> p in order)
  }

  /** The completions of plans with stems `stems` and outcomes `outcomes`, in the
      completion order `order`. */
  function Completions(stems: seq<string>, outcomes: seq<Outcome>, order: seq<nat>): seq<Completion>
    requires |stems| == |outcomes|
    requires forall j :: 0 <= j < |order| ==> order[j] < |stems|
  {
    seq(|order|, j requires 0 <= j < |order| => Completion(stems[order[j]], outcomes[order[j]]))
  }

  // ---------------------------------------------------------------------------
  // Isolation

  /** A stored summary is never lost: whatever completes later, the keys already
      present stay present and in place. */
  lemma {:induction false} KeysOnlyGrow(res: Results, cs: seq<Completion>)
    ensures res.entries.Keys <= AbsorbAll(res, cs).entries.Keys
    ensures res.keys <= AbsorbAll(res, cs).keys
  {
    if cs != [] {
      KeysOnlyGrow(res, cs[..|cs| - 1]);
    }
  }

  /** One plan's completion touches no other plan's entry: an entry whose stem no
      later completion returns a summary for keeps its value, whatever the others did. */
  lemma {:induction false} EntryUntouched(res: Results, cs: seq<Completion>, s: string)
    requires s in res.entries
    requires forall j :: 0 <= j < |cs| && cs[j].stem == s ==> !cs[j].outcome.Returned?
    ensures s in AbsorbAll(res, cs).entries && AbsorbAll(res, cs).entries[s] == res.entries[s]
  {
    if cs != [] {
      EntryUntouched(res, cs[..|cs| - 1], s);
    }
  }

  // ---------------------------------------------------------------------------
  // Routing, starting from the empty dictionary

  /** With distinct stems, a stem is a key exactly when its plan returned a summary,
      and then it maps to that summary; it is in `failed_tests` exactly when its
      plan gave None or raised. */
  lemma Routing(cs: seq<Completion>)
    requires StemsDistinct(cs)
    ensures forall s :: s in AbsorbAll(NoResults, cs).entries <==>
      exists j :: 0 <= j < |cs| && cs[j].stem == s && cs[j].outcome.Returned?
    ensures forall j :: 0 <= j < |cs| && cs[j].outcome.Returned? ==>
      AbsorbAll(NoResults, cs).entries[cs[j].stem] == cs[j].outcome.summary
    ensures forall s :: s in FailedTests(cs) <==>
      exists j :: 0 <= j < |cs| && cs[j].stem == s && !cs[j].outcome.Returned?
  {
    StoredStems(cs);
    StoredValues(cs);
    FailedStems(cs);
  }

  /** A stem is stored iff some completion under it returned a summary. */
  lemma {:induction false} StoredStems(cs: seq<Completion>)
    ensures forall s :: s in AbsorbAll(NoResults, cs).entries <==>
      exists j :: 0 <= j < |cs| && cs[j].stem == s && cs[j].outcome.Returned?
  {
    if cs != [] {
      var prefix, c := cs[..|cs| - 1], cs[|cs| - 1];
      StoredStems(prefix);
      var before := AbsorbAll(NoResults, prefix);
      assert AbsorbAll(NoResults, cs) == Absorb(before, c);
      forall s ensures s in AbsorbAll(NoResults, cs).entries <==>
        exists j :: 0 <= j < |cs| && cs[j].stem == s && cs[j].outcome.Returned?
      {
        if exists j :: 0 <= j < |cs| && cs[j].stem == s && cs[j].outcome.Returned? {
          var j :| 0 <= j < |cs| && cs[j].stem == s && cs[j].outcome.Returned?;
          if j < |prefix| {
            assert prefix[j] == cs[j];
          }
        }
        if s in before.entries {
          var j :| 0 <= j < |prefix| && prefix[j].stem == s && prefix[j].outcome.Returned?;
          assert cs[j] == prefix[j];
        }
      }
    }
  }

  /** A stem is listed as failed iff some completion under it gave None or raised. */
  lemma {:induction false} FailedStems(cs: seq<Completion>)
    ensures forall s :: s in FailedTests(cs) <==>
      exists j :: 0 <= j < |cs| && cs[j].stem == s && !cs[j].outcome.Returned?
  {
    if cs != [] {
      var prefix, c := cs[..|cs| - 1], cs[|cs| - 1];
      FailedStems(prefix);
      forall s ensures s in FailedTests(cs) <==>
        exists j :: 0 <= j < |cs| && cs[j].stem == s && !cs[j].outcome.Returned?
      {
        if exists j :: 0 <= j < |cs| && cs[j].stem == s && !cs[j].outcome.Returned? {
          var j :| 0 <= j < |cs| && cs[j].stem == s && !cs[j].outcome.Returned?;
          if j < |prefix| {
            assert prefix[j] == cs[j];
          }
        }
        if s in FailedTests(prefix) {
          var j :| 0 <= j < |prefix| && prefix[j].stem == s && !prefix[j].outcome.Returned?;
          assert cs[j] == prefix[j];
        }
      }
    }
  }

  /** With distinct stems, a stem whose plan returned a summary maps to it. */
  lemma {:induction false} StoredValues(cs: seq<Completion>)
    requires StemsDistinct(cs)
    ensures forall j :: 0 <= j < |cs| && cs[j].outcome.Returned? ==>
      && cs[j].stem in AbsorbAll(NoResults, cs).entries
      && AbsorbAll(NoResults, cs).entries[cs[j].stem] == cs[j].outcome.summary
  {
    StoredStems(cs);
    if cs != [] {
      var prefix, c := cs[..|cs| - 1], cs[|cs| - 1];
      assert StemsDistinct(prefix);
      StoredValues(prefix);
      StoredStems(prefix);
      var before := AbsorbAll(NoResults, prefix);
      assert AbsorbAll(NoResults, cs) == Absorb(before, c);
      forall j | 0 <= j < |cs| && cs[j].outcome.Returned?
        ensures cs[j].stem in AbsorbAll(NoResults, cs).entries
        ensures AbsorbAll(NoResults, cs).entries[cs[j].stem] == cs[j].outcome.summary
      {
        if j < |prefix| {
          assert prefix[j] == cs[j];
          assert prefix[j].stem != c.stem;
          assert cs[j].stem in before.entries;
        }
      }
    }
  }

  /** Every plan's completion is recorded exactly once: the stored keys and the
      failed list together have one element per completion. */
  lemma {:induction false} EveryPlanReported(cs: seq<Completion>)
    requires StemsDistinct(cs)
    ensures |AbsorbAll(NoResults, cs).keys| + |FailedTests(cs)| == |cs|
  {
    if cs != [] {
      var prefix, c := cs[..|cs| - 1], cs[|cs| - 1];
      assert StemsDistinct(prefix);
      EveryPlanReported(prefix);
      Routing(prefix);
    }
  }

  /** Every submitted plan ends up in exactly one place: under its stem in the
      results (with its own summary) when it returned one, in `failed_tests`
      otherwise; and nothing else is recorded. Stems are the plans' file stems,
      assumed distinct; `order` is any completion order. */
  lemma PlanRouting(stems: seq<string>, outcomes: seq<Outcome>, order: seq<nat>)
    requires |stems| == |outcomes|
    requires forall p, q :: 0 <= p < q < |stems| ==> stems[p] != stems[q]
    requires IsPermutation(order, |stems|)
    ensures var cs := Completions(stems, outcomes, order);
      var r, failed := AbsorbAll(NoResults, cs), FailedTests(cs);
      && (forall p :: 0 <= p < |stems| ==>
            && (stems[p] in r.entries <==> outcomes[p].Returned?)
            && (stems[p] in failed <==> !outcomes[p].Returned?)
            && (outcomes[p].Returned? ==> r.entries[stems[p]] == outcomes[p].summary))
      && (forall s :: s in r.entries ==> s in stems)
      && (forall s :: s in failed ==> s in stems)
      && |r.keys| + |failed| == |stems|
  {
    var cs := Completions(stems, outcomes, order);
    assert StemsDistinct(cs) by {
      forall i, j | 0 <= i < j < |cs| ensures cs[i].stem != cs[j].stem {
        assert order[i] != order[j];
      }
    }
    Routing(cs);
    EveryPlanReported(cs);
    RoutingByPlan(stems, outcomes, order, cs, AbsorbAll(NoResults, cs).entries, FailedTests(cs));
    RoutedStemsAreStems(stems, outcomes, order, cs, AbsorbAll(NoResults, cs).entries, FailedTests(cs));
  }

  /** Routing stated per completion, restated per plan: `cs` lists each plan once,
      in the order `order`. */
  lemma RoutingByPlan(stems: seq<string>, outcomes: seq<Outcome>, order: seq<nat>, cs: seq<Completion>,
                      m: map<string, PlanSummary>, failed: seq<string>)
    requires |stems| == |outcomes|
    requires IsPermutation(order, |stems|)
    requires |cs| == |order|
    requires forall j :: 0 <= j < |cs| ==> cs[j] == Completion(stems[order[j]], outcomes[order[j]])
    requires forall p, q :: 0 <= p < q < |stems| ==> stems[p] != stems[q]
    requires forall s :: s in m <==> exists j :: 0 <= j < |cs| && cs[j].stem == s && cs[j].outcome.Returned?
    requires forall j :: 0 <= j < |cs| && cs[j].outcome.Returned? ==> m[cs[j].stem] == cs[j].outcome.summary
    requires forall s :: s in failed <==> exists j :: 0 <= j < |cs| && cs[j].stem == s && !cs[j].outcome.Returned?
    ensures forall p :: 0 <= p < |stems| ==>
      && (stems[p] in m <==> outcomes[p].Returned?)
      && (stems[p] in failed <==> !outcomes[p].Returned?)
      && (outcomes[p].Returned? ==> m[stems[p]] == outcomes[p].summary)
  {
    forall p | 0 <= p < |stems|
      ensures stems[p] in m <==> outcomes[p].Returned?
      ensures stems[p] in failed <==> !outcomes[p].Returned?
      ensures outcomes[p].Returned? ==> m[stems[p]] == outcomes[p].summary
    {
      assert p in order;
      var j :| 0 <= j < |order| && order[j] == p;
      assert cs[j].stem == stems[p];
      if stems[p] in m {
        var i :| 0 <= i < |cs| && cs[i].stem == stems[p] && cs[i].outcome.Returned?;
        assert order[i] == p;
      }
      if stems[p] in failed {
        var i :| 0 <= i < |cs| && cs[i].stem == stems[p] && !cs[i].outcome.Returned?;
        assert order[i] == p;
      }
    }
  }

  /** Only the plans' own stems are stored or listed as failed. */
  lemma RoutedStemsAreStems(stems: seq<string>, outcomes: seq<Outcome>, order: seq<nat>, cs: seq<Completion>,
                            m: map<string, PlanSummary>, failed: seq<string>)
    requires |stems| == |outcomes|
    requires |cs| == |order| && forall j :: 0 <= j < |order| ==> order[j] < |stems|
    requires forall j :: 0 <= j < |cs| ==> cs[j] == Completion(stems[order[j]], outcomes[order[j]])
    requires forall s :: s in m ==> exists j :: 0 <= j < |cs| && cs[j].stem == s
    requires forall s :: s in failed ==> exists j :: 0 <= j < |cs| && cs[j].stem == s
    ensures forall s :: s in m ==> s in stems
    ensures forall s :: s in failed ==> s in stems
  {
    forall s | s in m ensures s in stems {
      var i :| 0 <= i < |cs| && cs[i].stem == s;
      assert stems[order[i]] == s;
    }
    forall s | s in failed ensures s in stems {
      var i :| 0 <= i < |cs| && cs[i].stem == s;
      assert stems[order[i]] == s;
    }
  }

  /** The completion order does not matter: for plans with distinct stems, any two
      orders give the same mapping and the same set of failed stems (only the key
      order and the failed list's order differ). */
  lemma OrderIndependent(stems: seq<string>, outcomes: seq<Outcome>, order1: seq<nat>, order2: seq<nat>)
    requires |stems| == |outcomes|
    requires forall p, q :: 0 <= p < q < |stems| ==> stems[p] != stems[q]
    requires IsPermutation(order1, |stems|) && IsPermutation(order2, |stems|)
    ensures AbsorbAll(NoResults, Completions(stems, outcomes, order1)).entries
         == AbsorbAll(NoResults, Completions(stems, outcomes, order2)).entries
    ensures forall s :: s in FailedTests(Completions(stems, outcomes, order1))
                    <==> s in FailedTests(Completions(stems, outcomes, order2))
  {
    PlanRouting(stems, outcomes, order1);
    PlanRouting(stems, outcomes, order2);
    SameRouting(stems, outcomes,
      AbsorbAll(NoResults, Completions(stems, outcomes, order1)).entries,
      FailedTests(Completions(stems, outcomes, order1)),
      AbsorbAll(NoResults, Completions(stems, outcomes, order2)).entries,
      FailedTests(Completions(stems, outcomes, order2)));
  }

  /** Two routings of the same plans, each storing exactly the returned summaries
      and failing exactly the others, agree on the mapping and the failed stems. */
  lemma SameRouting(stems: seq<string>, outcomes: seq<Outcome>,
                    m1: map<string, PlanSummary>, f1: seq<string>,
                    m2: map<string, PlanSummary>, f2: seq<string>)
    requires |stems| == |outcomes|
    requires forall p :: 0 <= p < |stems| ==>
      && (stems[p] in m1 <==> outcomes[p].Returned?) && (stems[p] in m2 <==> outcomes[p].Returned?)
      && (stems[p] in f1 <==> !outcomes[p].Returned?) && (stems[p] in f2 <==> !outcomes[p].Returned?)
      && (outcomes[p].Returned? ==> m1[stems[p]] == outcomes[p].summary && m2[stems[p]] == outcomes[p].summary)
    requires forall s :: (s in m1 || s in m2 || s in f1 || s in f2) ==> s in stems
    ensures m1 == m2
    ensures forall s :: s in f1 <==> s in f2
  {
    forall s | s in m1 || s in m2 ensures s in m1 && s in m2 && m1[s] == m2[s] {
      var p :| 0 <= p < |stems| && stems[p] == s;
    }
    forall s | s in f1 || s in f2 ensures s in f1 && s in f2 {
      var p :| 0 <= p < |stems| && stems[p] == s;
    }
  }

  /** With two plans sharing a stem (the .jmx search is recursive, so two
      directories may hold files of the same name), the later completion wins, so
      the results depend on the completion order; and a stem can be both stored and
      listed as failed. */
  lemma SharedStemDependsOnOrder(stem: string, a: PlanSummary, b: PlanSummary, e: TestExecutionError)
    requires a != b
    ensures var ca, cb := Completion(stem, Returned(a)), Completion(stem, Returned(b));
      && AbsorbAll(NoResults, [ca, cb]).entries[stem] == b
      && AbsorbAll(NoResults, [cb, ca]).entries[stem] == a
      && AbsorbAll(NoResults, [ca, cb]) != AbsorbAll(NoResults, [cb, ca])
    ensures var ca, ce := Completion(stem, Returned(a)), Completion(stem, Raised(e));
      && stem in AbsorbAll(NoResults, [ca, ce]).entries
      && stem in FailedTests([ca, ce])
  {
    LaterSummaryWins(stem, a, b);
    LaterSummaryWins(stem, b, a);
    StoredAndFailed(stem, a, e);
  }

  /** Of two summaries returned under one stem, the one that completes later is kept. */
  lemma LaterSummaryWins(stem: string, a: PlanSummary, b: PlanSummary)
    ensures var ca, cb := Completion(stem, Returned(a)), Completion(stem, Returned(b));
      stem in AbsorbAll(NoResults, [ca, cb]).entries && AbsorbAll(NoResults, [ca, cb]).entries[stem] == b
  {
    var ca, cb := Completion(stem, Returned(a)), Completion(stem, Returned(b));
    assert AbsorbAll(NoResults, [ca]) == NoResults.Put(stem, a) by {
      assert [ca][..0] == [];
    }
    assert [ca, cb][..1] == [ca];
  }

  /** A summary returned under a stem and an exception raised under the same stem
      leave the stem both stored and failed. */
  lemma StoredAndFailed(stem: string, a: PlanSummary, e: TestExecutionError)
    ensures var ca, ce := Completion(stem, Returned(a)), Completion(stem, Raised(e));
      stem in AbsorbAll(NoResults, [ca, ce]).entries && stem in FailedTests([ca, ce])
  {
    var ca, ce := Completion(stem, Returned(a)), Completion(stem, Raised(e));
    assert [ca, ce][..1] == [ca] && [ca][..0] == [];
    assert AbsorbAll(NoResults, [ca]) == NoResults.Put(stem, a);
    assert FailedTests([ca, ce]) == FailedTests([ca]) + [stem];
  }
}
