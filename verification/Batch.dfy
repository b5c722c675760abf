/** The batch command: nested loops over fixture files, an early stop, a report and an exit code. */
module Batch {
  import opened Wrappers
  import opened Runner

  /** One fixture of a file: its id, and how its replay ends. */
  datatype TestCase = TestCase(testId: string, outcome: Outcome)

  /** The result entered in the report; an exception becomes an error result. */
  function ResultOf(c: TestCase): FixtureResult {
    match c.outcome
    case Returned(result) => result
    case Raised => FixtureResult(c.testId, [], Some("runner crashed"))
  }

  /** The replay came to an end and its result is a pass. */
  predicate Succeeds(c: TestCase) {
    c.outcome.Returned? && c.outcome.result.error.None?
    && forall b :: b in c.outcome.result.blocks ==> b.matched
  }

  /** A replay that raised is a failure, entered under its own id and with an error. */
  lemma RaisedIsAFailure(c: TestCase)
    ensures ResultOf(c).Passed() <==> Succeeds(c)
    ensures c.outcome.Returned? ==> ResultOf(c) == c.outcome.result
    ensures c.outcome.Raised? ==>
              ResultOf(c).testId == c.testId && ResultOf(c).error.Some? && ResultOf(c).error.value != ""
              && ResultOf(c).blocks == []
  {
  }

  function ResultsOf(cases: seq<TestCase>): seq<FixtureResult> {
    seq(|cases|, i requires 0 <= i < |cases| => ResultOf(cases[i]))
  }

  function Flatten(files: seq<seq<TestCase>>): seq<TestCase> {
    if files == [] then [] else Flatten(files[..|files| - 1]) + files[|files| - 1]
  }

  predicate AllPassed(results: seq<FixtureResult>) {
    forall i :: 0 <= i < |results| ==> results[i].Passed()
  }

  /** The report of a batch: everything up to and including the first failure, or everything. */
  function Reported(results: seq<FixtureResult>, stop: bool): seq<FixtureResult> {
    if results == [] then []
    else if stop && !results[0].Passed() then [results[0]]
    else [results[0]] + Reported(results[1..], stop)
  }

  lemma {:induction false} ReportedOfAppend(a: seq<FixtureResult>, b: seq<FixtureResult>, stop: bool)
    ensures stop && !AllPassed(a) ==> Reported(a + b, stop) == Reported(a, stop)
    ensures !(stop && !AllPassed(a)) ==> Reported(a + b, stop) == a + Reported(b, stop)
  {
    if a == [] {
      assert a + b == b;
    } else {
      assert (a + b)[1..] == a[1..] + b;
      ReportedOfAppend(a[1..], b, stop);
      assert a == [a[0]] + a[1..];
      assert !AllPassed(a[1..]) ==> !AllPassed(a);
    }
  }

  lemma {:induction false} NoStop(results: seq<FixtureResult>, stop: bool)
    requires !(stop && !AllPassed(results))
    ensures Reported(results, stop) == results
  {
    ReportedOfAppend(results, [], stop);
    assert results + [] == results;
  }

  lemma StopsHere(results: seq<FixtureResult>, n: nat)
    requires n < |results| && AllPassed(results[..n]) && !results[n].Passed()
    ensures Reported(results, true) == results[..n] + [results[n]]
  {
    assert results == results[..n] + results[n..];
    ReportedOfAppend(results[..n], results[n..], true);
  }

  lemma FirstFailure(results: seq<FixtureResult>) returns (n: nat)
    requires !AllPassed(results)
    ensures n < |results| && AllPassed(results[..n]) && !results[n].Passed()
  {
    hide FixtureResult.Passed;
    n := 0;
    while n < |results| && results[n].Passed()
      invariant n <= |results|
      invariant forall i :: 0 <= i < n ==> results[i].Passed()
    {
      n := n + 1;
    }
  }

  /** The report is everything, or with the flag the shortest prefix that ends in a failure, if there is one. */
  lemma {:induction false} ReportedIsShortestPrefix(results: seq<FixtureResult>, stop: bool)
    ensures var reported := Reported(results, stop);
            && reported <= results
            && (!(stop && !AllPassed(results)) ==> reported == results)
            && (stop && !AllPassed(results) ==>
                  && reported != [] && !reported[|reported| - 1].Passed()
                  && AllPassed(reported[..|reported| - 1]))
  {
    hide FixtureResult.Passed, AllPassed, Reported;
    if stop && !AllPassed(results) {
      var n := FirstFailure(results);
      StopsHere(results, n);
      assert Reported(results, stop)[..n] == results[..n];
    } else {
      NoStop(results, stop);
    }
  }

  function Count(results: seq<FixtureResult>, p: FixtureResult -> bool): nat {
    if results == [] then 0
    else Count(results[..|results| - 1], p) + if p(results[|results| - 1]) then 1 else 0
  }

  function PassedCount(results: seq<FixtureResult>): nat {
    Count(results, (r: FixtureResult) => r.Passed())
  }

  function ErroredCount(results: seq<FixtureResult>): nat {
    Count(results, (r: FixtureResult) => r.error.Some?)
  }

  lemma {:induction false} CountsAddUp(results: seq<FixtureResult>)
    ensures PassedCount(results) + ErroredCount(results) <= |results|
    ensures PassedCount(results) == |results| <==> AllPassed(results)
  {
    if results != [] {
      var front := results[..|results| - 1];
      CountsAddUp(front);
      assert AllPassed(results) <==> AllPassed(front) && results[|results| - 1].Passed() by {
        assert forall i :: 0 <= i < |front| ==> front[i] == results[i];
      }
    }
  }

  /** A count is the number of places where its condition holds. */
  lemma {:induction false} CountIsCardinality(results: seq<FixtureResult>, p: FixtureResult -> bool)
    ensures Count(results, p) == |set i: nat | i < |results| && p(results[i])|
  {
    var all := set i: nat | i < |results| && p(results[i]);
    if results == [] {
      assert all == {};
    } else {
      var n := |results| - 1;
      var front := results[..n];
      CountIsCardinality(front, p);
      var before := set i: nat | i < |front| && p(front[i]);
      assert all == if p(results[n]) then before + {n} else before;
    }
  }

  /** `BatchReport`. */
  class BatchReport {
    var results: seq<FixtureResult>

    constructor ()
      ensures results == []
    {
      results := [];
    }

    method Add(result: FixtureResult)
      modifies this
      ensures results == old(results) + [result]
    {
      results := results + [result];
    }

    function Total(): nat
      reads this
    {
      |results|
    }

    function Passed(): nat
      reads this
    {
      PassedCount(results)
    }

    function Failed(): int
      reads this
    {
      Total() - Passed()
    }

    function Errored(): nat
      reads this
    {
      ErroredCount(results)
    }

    /** The headline numbers are what they are called. */
    lemma HeadlineIs()
      ensures Total() == |results|
      ensures Passed() == |set i: nat | i < |results| && results[i].Passed()|
      ensures Failed() == |results| - Passed() >= 0
      ensures Errored() == |set i: nat | i < |results| && results[i].error.Some?|
    {
      CountsAddUp(results);
      CountIsCardinality(results, (r: FixtureResult) => r.Passed());
      CountIsCardinality(results, (r: FixtureResult) => r.error.Some?);
      hide FixtureResult.Passed;
      assert (set i: nat | i < |results| && ((r: FixtureResult) => r.Passed())(results[i]))
          == (set i: nat | i < |results| && results[i].Passed());
      assert (set i: nat | i < |results| && ((r: FixtureResult) => r.error.Some?)(results[i]))
          == (set i: nat | i < |results| && results[i].error.Some?);
    }

    /** `failed` already counts the errored results, so their sum is zero exactly when nothing failed. */
    lemma CleanIffAllPassed()
      ensures 0 <= Errored() <= Failed()
      ensures Failed() + Errored() == 0 <==> AllPassed(results)
    {
      CountsAddUp(results);
    }
  }

  lemma ResultsOfAppend(a: seq<TestCase>, b: seq<TestCase>)
    ensures ResultsOf(a + b) == ResultsOf(a) + ResultsOf(b)
  {
  }

  lemma AllPassedOfSnoc(results: seq<FixtureResult>, r: FixtureResult)
    ensures AllPassed(results + [r]) <==> AllPassed(results) && r.Passed()
  {
    hide FixtureResult.Passed;
    var all := results + [r];
    assert all[|results|] == r && forall i :: 0 <= i < |results| ==> all[i] == results[i];
  }

  lemma {:induction false} FlattenAppend(a: seq<seq<TestCase>>, b: seq<seq<TestCase>>)
    ensures Flatten(a + b) == Flatten(a) + Flatten(b)
  {
    if b == [] {
      assert a + b == a;
    } else {
      assert (a + b)[..|a + b| - 1] == a + b[..|b| - 1];
      FlattenAppend(a, b[..|b| - 1]);
    }
  }

  lemma BrokenPrefix(files: seq<seq<TestCase>>, f: nat)
    requires f <= |files| && !AllPassed(Reported(ResultsOf(Flatten(files[..f])), true))
    ensures Reported(ResultsOf(Flatten(files)), true) == Reported(ResultsOf(Flatten(files[..f])), true)
  {
    hide FixtureResult.Passed, ResultOf, Reported;
    var a, b := Flatten(files[..f]), Flatten(files[f..]);
    assert files == files[..f] + files[f..];
    FlattenAppend(files[..f], files[f..]);
    ResultsOfAppend(a, b);
    ReportedIsShortestPrefix(ResultsOf(a), true);
    ReportedOfAppend(ResultsOf(a), ResultsOf(b), true);
  }

  predicate AllSucceed(cases: seq<TestCase>) {
    forall i :: 0 <= i < |cases| ==> Succeeds(cases[i])
  }

  /** The report is clean exactly when every fixture of the batch succeeds, whether it stopped early or not. */
  lemma ReportedTellsAll(cases: seq<TestCase>, stop: bool)
    ensures AllPassed(Reported(ResultsOf(cases), stop)) <==> AllSucceed(cases)
  {
    hide FixtureResult.Passed, Reported, Succeeds, ResultOf;
    var results := ResultsOf(cases);
    forall i | 0 <= i < |cases|
      ensures results[i].Passed() <==> Succeeds(cases[i])
    {
      RaisedIsAFailure(cases[i]);
    }
    ReportedIsShortestPrefix(results, stop);
  }

  /** The inner loop: the fixtures of one file, up to the first failure when the flag is set. */
  method ReplayFile(file: seq<TestCase>, stopOnFirstFailure: bool, report: BatchReport)
    requires !(stopOnFirstFailure && !AllPassed(report.results))
    modifies report
    ensures report.results == Reported(old(report.results) + ResultsOf(file), stopOnFirstFailure)
  {
    hide FixtureResult.Passed, Reported, AllPassed, ResultOf;
    ghost var before := report.results;
    ghost var all := before + ResultsOf(file);
    for k := 0 to |file|
      invariant report.results == before + ResultsOf(file[..k]) == all[..|before| + k]
      invariant !(stopOnFirstFailure && !AllPassed(report.results))
    {
      var result := ResultOf(file[k]);
      AllPassedOfSnoc(report.results, result);
      ghost var n := |report.results|;
      report.Add(result);
      assert result == all[n];
      if stopOnFirstFailure && !result.Passed() {
        StopsHere(all, n);
        return;
      }
    }
    assert all[..|before| + |file|] == all;
    NoStop(report.results, stopOnFirstFailure);
  }

  lemma NothingReported(stop: bool)
    ensures Reported(ResultsOf(Flatten([])), stop) == [] && AllPassed([])
  {
  }

  /** `run_cmd`: replay every fixture of every file; returns the exit code. */
  method RunBatch(files: seq<seq<TestCase>>, stopOnFirstFailure: bool, report: BatchReport) returns (exitCode: nat)
    requires report.results == []
    modifies report
    ensures report.results == Reported(ResultsOf(Flatten(files)), stopOnFirstFailure)
    ensures exitCode == if files != [] && AllSucceed(Flatten(files)) then 0 else 1
  {
    hide FixtureResult.Passed, Reported, ResultOf, ResultsOf, BatchReport.Failed, BatchReport.Errored, AllSucceed;
    NothingReported(stopOnFirstFailure);
    if files == [] {
      return 1;
    }
    var f := 0;
    var broken := false;
    while f < |files| && !broken
      invariant f <= |files|
      invariant broken <==> stopOnFirstFailure && !AllPassed(report.results)
      invariant report.results == Reported(ResultsOf(Flatten(files[..f])), stopOnFirstFailure)
      decreases |files| - f, !broken
    {
      ghost var before := Flatten(files[..f]);
      assert files[..f + 1][..f] == files[..f];
      ResultsOfAppend(before, files[f]);
      ReportedIsShortestPrefix(ResultsOf(before), stopOnFirstFailure);
      ReplayFile(files[f], stopOnFirstFailure, report);
      report.CleanIffAllPassed();
      broken := stopOnFirstFailure && report.Failed() + report.Errored() > 0;
      f := f + 1;
    }
    if broken {
      BrokenPrefix(files, f);
    } else {
      assert files[..f] == files;
    }
    report.CleanIffAllPassed();
    ReportedTellsAll(Flatten(files), stopOnFirstFailure);
    return if report.Failed() + report.Errored() == 0 then 0 else 1;
  }

  // ---------------------------------------------------------------- the Markdown table

  datatype RowStatus = PassRow | ErrRow | FailRow

  /** The status column: an error counts as one only when its text is not empty. */
  function StatusOf(r: FixtureResult): RowStatus {
    if r.Passed() then PassRow else if r.error.Some? && r.error.value != "" then ErrRow else FailRow
  }

  function StatusCount(results: seq<FixtureResult>, s: RowStatus): nat {
    Count(results, (r: FixtureResult) => StatusOf(r) == s)
  }

  predicate NoEmptyError(results: seq<FixtureResult>) {
    forall i :: 0 <= i < |results| ==> results[i].error != Some("")
  }

  /** PASS rows are the headline's `passed`; ERR rows are its `errored` exactly when no error text is empty. */
  lemma {:induction false} StatusColumn(results: seq<FixtureResult>)
    ensures StatusCount(results, PassRow) == PassedCount(results)
    ensures StatusCount(results, PassRow) + StatusCount(results, ErrRow) + StatusCount(results, FailRow) == |results|
    ensures StatusCount(results, ErrRow) <= ErroredCount(results)
    ensures StatusCount(results, ErrRow) == ErroredCount(results) <==> NoEmptyError(results)
  {
    if results != [] {
      var front := results[..|results| - 1];
      StatusColumn(front);
      assert NoEmptyError(results) <==> NoEmptyError(front) && results[|results| - 1].error != Some("") by {
        assert forall i :: 0 <= i < |front| ==> front[i] == results[i];
      }
    }
  }

  /** A replay's own errors are never empty, so for a batch of replays the column and the headline agree. */
  lemma ReplayErrorsAreNotEmpty(fx: Fixture, c: TestCase, builder: Builder, fields: seq<string>, s: Script)
    requires c.outcome == Conclusion(fx, c.testId, builder, fields, s)
    ensures ResultOf(c).error != Some("")
  {
    hide Plan, Blocks;
  }
}
