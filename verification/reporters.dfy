/** The independent counters of the three reporters and the run summary. */
module Reporters {
  import opened Prelude
  import Postman
  import opened Scripts
  import opened Runner
  import opened Runs
  import opened RunProperties

  datatype Tally = Tally(requests: nat, failedRequests: nat, tests: nat, failedTests: nat)

  const ZERO := Tally(0, 0, 0, 0)

  function Add(a: Tally, b: Tally): Tally {
    Tally(a.requests + b.requests, a.failedRequests + b.failedRequests, a.tests + b.tests, a.failedTests + b.failedTests)
  }

  lemma AddAssociative(a: Tally, b: Tally, c: Tally)
    ensures Add(Add(a, b), c) == Add(a, Add(b, c))
  {
  }

  function FailedTests(tests: seq<TestResult>): nat {
    if tests == [] then 0
    else FailedTests(tests[..|tests| - 1]) + if tests[|tests| - 1].passed then 0 else 1
  }

  function CliOf(r: RequestResult): Tally {
    if r.skipped then ZERO
    else Tally(1, if Passed(r) then 0 else 1, |r.tests|, FailedTests(r.tests))
  }

  function JsonOf(r: RequestResult): Tally {
    Tally(
      if r.skipped then 0 else 1,
      (if r.error.Some? then 1 else 0) + (if !r.skipped && !Passed(r) && r.error.None? then 1 else 0),
      |r.tests|, FailedTests(r.tests))
  }

  /** JUnit counts test cases; an errored request is one failed case of its own. */
  function JUnitOf(r: RequestResult): Tally {
    if r.skipped then ZERO
    else if r.error.Some? then Tally(0, 0, 1, 1)
    else Tally(0, 0, |r.tests|, FailedTests(r.tests))
  }

  /** The run summary counts requests, passed and failed; the passed ones are `requests - failedRequests`. */
  function SummaryOf(r: RequestResult): Tally {
    if r.skipped then ZERO else Tally(1, if Passed(r) then 0 else 1, 0, 0)
  }

  function ErroredOf(r: RequestResult): Tally {
    Tally(if r.error.Some? && !r.skipped then 1 else 0, if r.error.Some? && r.skipped then 1 else 0, 0, 0)
  }

  /**
   All counters side by side. `errored.requests` counts the errored requests that ran,
   `errored.failedRequests` the skipped ones that nevertheless have an error.
   */
  datatype Totals = Totals(cli: Tally, json: Tally, junit: Tally, summary: Tally, errored: Tally)

  const NOTHING := Totals(ZERO, ZERO, ZERO, ZERO, ZERO)

  function Of(r: RequestResult): Totals {
    Totals(CliOf(r), JsonOf(r), JUnitOf(r), SummaryOf(r), ErroredOf(r))
  }

  function Plus(a: Totals, b: Totals): Totals {
    Totals(Add(a.cli, b.cli), Add(a.json, b.json), Add(a.junit, b.junit),
           Add(a.summary, b.summary), Add(a.errored, b.errored))
  }

  function Sum(rs: seq<RequestResult>): Totals {
    if rs == [] then NOTHING else Plus(Sum(rs[..|rs| - 1]), Of(rs[|rs| - 1]))
  }

  function SumAll(its: seq<IterationResult>): Totals {
    if its == [] then NOTHING else Plus(SumAll(its[..|its| - 1]), Sum(its[|its| - 1].requests))
  }

  lemma SumSnoc(rs: seq<RequestResult>, j: nat)
    requires j < |rs|
    ensures Sum(rs[..j + 1]) == Plus(Sum(rs[..j]), Of(rs[j]))
  {
    assert rs[..j + 1][..j] == rs[..j];
  }

  lemma SumAllSnoc(its: seq<IterationResult>, i: nat)
    requires i < |its|
    ensures SumAll(its[..i + 1]) == Plus(SumAll(its[..i]), Sum(its[i].requests))
    ensures its[i].requests[..|its[i].requests|] == its[i].requests
  {
    assert its[..i + 1][..i] == its[..i];
  }

  // ---------- the counting loops ----------

  method CountTests(tests: seq<TestResult>, total: nat, failed: nat) returns (total': nat, failed': nat)
    ensures total' == total + |tests| && failed' == failed + FailedTests(tests)
  {
    total', failed' := total, failed;
    for k := 0 to |tests|
      invariant total' == total + k && failed' == failed + FailedTests(tests[..k])
    {
      assert tests[..k + 1][..k] == tests[..k];
      total' := total' + 1;
      if !tests[k].passed {
        failed' := failed' + 1;
      }
    }
    assert tests[..|tests|] == tests;
  }

  method CountForCli(r: RequestResult, t: Tally) returns (t': Tally)
    ensures t' == Add(t, CliOf(r))
  {
    t' := t;
    if !r.skipped {
      t' := t'.(requests := t'.requests + 1);
      if !Passed(r) {
        t' := t'.(failedRequests := t'.failedRequests + 1);
      }
      var tests, failed := CountTests(r.tests, t'.tests, t'.failedTests);
      t' := t'.(tests := tests, failedTests := failed);
    }
  }

  method CountAllForCli(rs: seq<RequestResult>, t: Tally) returns (t': Tally)
    ensures t' == Add(t, Sum(rs).cli)
  {
    t' := t;
    for j := 0 to |rs|
      invariant t' == Add(t, Sum(rs[..j]).cli)
    {
      SumSnoc(rs, j);
      AddAssociative(t, Sum(rs[..j]).cli, CliOf(rs[j]));
      t' := CountForCli(rs[j], t');
    }
    assert rs[..|rs|] == rs;
  }

  method CliCounters(iterations: seq<IterationResult>) returns (t: Tally)
    ensures t == SumAll(iterations).cli
  {
    t := ZERO;
    for i := 0 to |iterations|
      invariant t == SumAll(iterations[..i]).cli
    {
      SumAllSnoc(iterations, i);
      t := CountAllForCli(iterations[i].requests, t);
    }
    assert iterations[..|iterations|] == iterations;
  }

  method CountForJson(r: RequestResult, t: Tally) returns (t': Tally)
    ensures t' == Add(t, JsonOf(r))
  {
    t' := t;
    if r.error.Some? {
      t' := t'.(failedRequests := t'.failedRequests + 1);
    }
    if !r.skipped {
      t' := t'.(requests := t'.requests + 1);
      if !Passed(r) && r.error.None? {
        t' := t'.(failedRequests := t'.failedRequests + 1);
      }
    }
    var tests, failed := CountTests(r.tests, t'.tests, t'.failedTests);
    t' := t'.(tests := tests, failedTests := failed);
  }

  method CountAllForJson(rs: seq<RequestResult>, t: Tally) returns (t': Tally)
    ensures t' == Add(t, Sum(rs).json)
  {
    t' := t;
    for j := 0 to |rs|
      invariant t' == Add(t, Sum(rs[..j]).json)
    {
      SumSnoc(rs, j);
      AddAssociative(t, Sum(rs[..j]).json, JsonOf(rs[j]));
      t' := CountForJson(rs[j], t');
    }
    assert rs[..|rs|] == rs;
  }

  method JsonCounters(iterations: seq<IterationResult>) returns (t: Tally)
    ensures t == SumAll(iterations).json
  {
    t := ZERO;
    for i := 0 to |iterations|
      invariant t == SumAll(iterations[..i]).json
    {
      SumAllSnoc(iterations, i);
      t := CountAllForJson(iterations[i].requests, t);
    }
    assert iterations[..|iterations|] == iterations;
  }

  /** One request in its iteration's suite: nothing if skipped, one failed case if errored, else its tests. */
  method CountForSuite(r: RequestResult, suite: Tally) returns (suite': Tally)
    ensures suite' == Add(suite, JUnitOf(r))
  {
    if r.skipped {
      return suite;
    }
    if r.error.Some? {
      return suite.(tests := suite.tests + 1, failedTests := suite.failedTests + 1);
    }
    var tests, failed := CountTests(r.tests, suite.tests, suite.failedTests);
    suite' := suite.(tests := tests, failedTests := failed);
  }

  /** Suite counters are summed per iteration and then added to the totals. */
  method JUnitCounters(iterations: seq<IterationResult>) returns (t: Tally)
    ensures t == SumAll(iterations).junit
  {
    t := ZERO;
    for i := 0 to |iterations|
      invariant t == SumAll(iterations[..i]).junit
    {
      SumAllSnoc(iterations, i);
      var rs := iterations[i].requests;
      var suite := ZERO;
      for j := 0 to |rs|
        invariant suite == Sum(rs[..j]).junit
      {
        SumSnoc(rs, j);
        suite := CountForSuite(rs[j], suite);
      }
      t := Add(t, suite);
    }
    assert iterations[..|iterations|] == iterations;
  }

  method BuildRunSummary(iterations: seq<IterationResult>) returns (total: nat, passed: nat, failed: nat)
    ensures total == SumAll(iterations).summary.requests && failed == SumAll(iterations).summary.failedRequests
    ensures total == passed + failed
  {
    total, passed, failed := 0, 0, 0;
    for i := 0 to |iterations|
      invariant total == SumAll(iterations[..i]).summary.requests && total == passed + failed
      invariant failed == SumAll(iterations[..i]).summary.failedRequests
    {
      SumAllSnoc(iterations, i);
      var rs := iterations[i].requests;
      ghost var t0, f0 := total, failed;
      for j := 0 to |rs|
        invariant total == t0 + Sum(rs[..j]).summary.requests && total == passed + failed
        invariant failed == f0 + Sum(rs[..j]).summary.failedRequests
      {
        SumSnoc(rs, j);
        if rs[j].skipped {
          continue;
        }
        total := total + 1;
        if Passed(rs[j]) {
          passed := passed + 1;
        } else {
          failed := failed + 1;
        }
      }
    }
    assert iterations[..|iterations|] == iterations;
  }

  predicate RunPassed(iterations: seq<IterationResult>) {
    forall i :: 0 <= i < |iterations| ==> IterationPassed(iterations[i])
  }

  // ---------- agreement ----------

  ghost predicate RunShaped(iterations: seq<IterationResult>) {
    forall i :: 0 <= i < |iterations| ==> AllShaped(iterations[i].requests)
  }

  /** True of any results: CLI, JSON and summary count the same requests. */
  predicate RequestsAgree(t: Totals) {
    && t.cli.requests == t.json.requests == t.summary.requests
    && t.cli.failedRequests == t.summary.failedRequests
    && t.json.failedRequests == t.cli.failedRequests + t.errored.failedRequests
  }

  /** True of results as the runner makes them. */
  predicate TestsAgree(t: Totals) {
    && t.errored.failedRequests == 0
    && t.cli.tests == t.json.tests && t.cli.failedTests == t.json.failedTests
    && t.junit.tests == t.json.tests + t.errored.requests
    && t.junit.failedTests == t.json.failedTests + t.errored.requests
  }

  lemma {:induction false} FailedTestsPositive(tests: seq<TestResult>)
    ensures FailedTests(tests) <= |tests|
    ensures FailedTests(tests) == 0 <==> forall i :: 0 <= i < |tests| ==> tests[i].passed
  {
    if tests != [] {
      FailedTestsPositive(tests[..|tests| - 1]);
    }
  }

  lemma OneAgrees(r: RequestResult)
    ensures RequestsAgree(Of(r)) && (WellShaped(r) ==> TestsAgree(Of(r)))
    ensures Passed(r) <==> Of(r).cli.failedRequests == 0
    ensures Passed(r) <==> Of(r).junit.failedTests == 0
  {
    FailedTestsPositive(r.tests);
  }

  predicate NoFailures(t: Totals) {
    t.cli.failedRequests == 0 && t.junit.failedTests == 0
  }

  predicate SomeFailures(t: Totals) {
    t.cli.failedRequests > 0 && t.junit.failedTests > 0
  }

  lemma {:induction false} SumsAgree(rs: seq<RequestResult>)
    ensures RequestsAgree(Sum(rs)) && (AllShaped(rs) ==> TestsAgree(Sum(rs)))
    ensures if (forall i :: 0 <= i < |rs| ==> Passed(rs[i])) then NoFailures(Sum(rs)) else SomeFailures(Sum(rs))
  {
    if rs != [] {
      var front, last := rs[..|rs| - 1], rs[|rs| - 1];
      SumsAgree(front);
      OneAgrees(last);
      assert forall i :: 0 <= i < |front| ==> front[i] == rs[i];
    }
  }

  lemma {:induction false} AllSumsAgree(its: seq<IterationResult>)
    ensures RequestsAgree(SumAll(its)) && (RunShaped(its) ==> TestsAgree(SumAll(its)))
    ensures if RunPassed(its) then NoFailures(SumAll(its)) else SomeFailures(SumAll(its))
  {
    if its != [] {
      var front, last := its[..|its| - 1], its[|its| - 1];
      AllSumsAgree(front);
      SumsAgree(last.requests);
      assert forall i :: 0 <= i < |front| ==> front[i] == its[i];
    }
  }

  /**
   On any results at all, the CLI and the summary agree on requests; JSON agrees with them
   exactly when no skipped request carries an error.
   */
  lemma RequestCountsAgree(its: seq<IterationResult>)
    ensures var t := SumAll(its);
            && t.cli.requests == t.json.requests == t.summary.requests
            && t.cli.failedRequests == t.summary.failedRequests
            && (t.json.failedRequests == t.cli.failedRequests <==> t.errored.failedRequests == 0)
  {
    AllSumsAgree(its);
  }

  /** The run passed exactly when no counter of any reporter shows a failure. */
  lemma PassedIffNoFailures(its: seq<IterationResult>)
    ensures RunPassed(its) <==> SumAll(its).cli.failedRequests == 0
    ensures RunPassed(its) <==> SumAll(its).summary.failedRequests == 0
    ensures RunPassed(its) <==> SumAll(its).junit.failedTests == 0
    ensures RunShaped(its) ==> (RunPassed(its) <==> SumAll(its).json.failedRequests == 0)
  {
    AllSumsAgree(its);
  }

  /** For runs as the runner makes them, JUnit differs from the other reporters by its errored requests alone. */
  lemma TestCountsAgree(its: seq<IterationResult>)
    requires RunShaped(its)
    ensures var t := SumAll(its);
            && t.cli.tests == t.json.tests && t.cli.failedTests == t.json.failedTests
            && t.junit.tests == t.json.tests + t.errored.requests
            && t.junit.failedTests == t.json.failedTests + t.errored.requests
            && t.json.failedRequests == t.cli.failedRequests
  {
    AllSumsAgree(its);
  }

  /** Every run of the runner has the shape the test counters need. */
  lemma RunsAreShaped(w: World, col: Postman.Collection, env: Option<Postman.Environment>, opts: Options, tick: nat)
    ensures RunShaped(WholeRun(w, col, env, opts, tick).iterations)
  {
    RunsAreGood(w, col, env, opts, tick);
  }

  // ---------- what is counted ----------

  /** Every result of the run, in order. */
  function AllResults(its: seq<IterationResult>): seq<RequestResult> {
    if its == [] then [] else AllResults(its[..|its| - 1]) + its[|its| - 1].requests
  }

  function TestsOf(rs: seq<RequestResult>): seq<TestResult> {
    if rs == [] then [] else rs[0].tests + TestsOf(rs[1..])
  }

  predicate WasRun(r: RequestResult) {
    !r.skipped
  }

  /** It was run, and ended in an error or has a test that failed. */
  predicate Failing(r: RequestResult) {
    WasRun(r) && (r.error.Some? || exists i :: 0 <= i < |r.tests| && !r.tests[i].passed)
  }

  predicate FailedTest(t: TestResult) {
    !t.passed
  }

  lemma {:induction false} FailedAreFiltered(tests: seq<TestResult>)
    ensures FailedTests(tests) == |Filter(tests, FailedTest)|
  {
    if tests != [] {
      var front, last := tests[..|tests| - 1], tests[|tests| - 1];
      FailedAreFiltered(front);
      FilterConcat(front, [last], FailedTest);
      FilterOne(last, FailedTest);
      assert tests == front + [last];
    }
  }

  lemma {:induction false} TestsConcat(a: seq<RequestResult>, b: seq<RequestResult>)
    ensures TestsOf(a + b) == TestsOf(a) + TestsOf(b)
    decreases |a|
  {
    if a == [] {
      assert a + b == b;
    } else {
      assert (a + b)[1..] == a[1..] + b;
      TestsConcat(a[1..], b);
      Associative(a[0].tests, TestsOf(a[1..]), TestsOf(b));
    }
  }

  /** The counts of the console report, as sizes of what they count. */
  function Counted(rs: seq<RequestResult>): Tally {
    Sizes(Filter(rs, WasRun), Filter(rs, Failing))
  }

  function Sizes(ran: seq<RequestResult>, failing: seq<RequestResult>): Tally {
    Tally(|ran|, |failing|, |TestsOf(ran)|, |Filter(TestsOf(ran), FailedTest)|)
  }

  lemma {:induction false} SizesConcat(ran: seq<RequestResult>, ran': seq<RequestResult>,
                                       failing: seq<RequestResult>, failing': seq<RequestResult>)
    ensures Sizes(ran + ran', failing + failing') == Add(Sizes(ran, failing), Sizes(ran', failing'))
  {
    FilteredTestsConcat(ran, ran');
  }

  lemma {:induction false} CountedConcat(a: seq<RequestResult>, b: seq<RequestResult>)
    ensures Counted(a + b) == Add(Counted(a), Counted(b))
  {
    FilterConcat(a, b, WasRun);
    FilterConcat(a, b, Failing);
    SizesConcat(Filter(a, WasRun), Filter(b, WasRun), Filter(a, Failing), Filter(b, Failing));
  }

  lemma {:induction false} FilteredTestsConcat(a: seq<RequestResult>, b: seq<RequestResult>)
    ensures |TestsOf(a + b)| == |TestsOf(a)| + |TestsOf(b)|
    ensures |Filter(TestsOf(a + b), FailedTest)| == |Filter(TestsOf(a), FailedTest)| + |Filter(TestsOf(b), FailedTest)|
  {
    TestsConcat(a, b);
    FilterConcat(TestsOf(a), TestsOf(b), FailedTest);
  }

  lemma {:induction false} CountedOne(r: RequestResult)
    ensures Counted([r]) == CliOf(r)
  {
    FilterOne(r, WasRun);
    FilterOne(r, Failing);
    FailedAreFiltered(r.tests);
    assert TestsOf([]) == [] && [r][1..] == [] && TestsOf([r]) == r.tests + [] == r.tests;
    assert Filter<TestResult>([], FailedTest) == [];
  }

  lemma {:induction false} SumIsCounted(rs: seq<RequestResult>)
    ensures Sum(rs).cli == Counted(rs)
  {
    if rs == [] {
      assert Filter<RequestResult>([], WasRun) == [] && TestsOf([]) == [];
    } else {
      var front, last := rs[..|rs| - 1], rs[|rs| - 1];
      SumIsCounted(front);
      CountedOne(last);
      CountedConcat(front, [last]);
      assert rs == front + [last];
    }
  }

  /**
   What the console counts, over a whole run: the requests that were run, those of them that failed,
   and all their tests and failed tests; the other reporters' counts follow from it.
   */
  lemma {:induction false} CountsExactly(its: seq<IterationResult>)
    ensures SumAll(its).cli == Counted(AllResults(its))
  {
    if its == [] {
      assert Filter<RequestResult>([], WasRun) == [] && TestsOf([]) == [];
    } else {
      var front, last := its[..|its| - 1], its[|its| - 1];
      CountsExactly(front);
      SumIsCounted(last.requests);
      CountedConcat(AllResults(front), last.requests);
    }
  }
}
