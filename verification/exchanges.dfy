/**
 What one request asks of the world, in which order, and what becomes of the answers. The
 questions are those the tree plans for the request, read top-down; the answers are looked
 at one by one.
 */
module Exchanges {
  import opened Prelude
  import opened Postman
  import opened Flatten
  import opened Inheritance
  import opened Variables
  import opened Scripts
  import opened Runner

  /** What a collection plans for one of its requests: what is sent, how it authenticates, what runs before and after. */
  datatype Plan = Plan(name: string, request: Postman.Request, auth: Option<Auth>, pre: seq<string>, test: seq<string>)

  /** The plan of the `j`-th request, with what it inherits on the way down. */
  function PlanOf(col: Collection, j: nat): (plan: Plan)
    requires j < |Flattened(col.items, [])|
    ensures Planned(col, Flattened(col.items, [])[j], plan)
  {
    AuthsAgree(col.items, col.auth);
    ScriptsAgree(col.items, col.events, "prerequest");
    ScriptsAgree(col.items, col.events, "test");
    var fr := Flattened(col.items, [])[j];
    Plan(fr.name, fr.item.request, InheritedAuths(col.items, col.auth)[j],
         InheritedScripts(col.items, Matching(col.events, "prerequest"), "prerequest")[j],
         InheritedScripts(col.items, Matching(col.events, "test"), "test")[j])
  }

  /** The flat request has this plan. */
  predicate Planned(col: Collection, fr: FlatRequest, plan: Plan) {
    && fr.item.Leaf? && plan.name == fr.name && plan.request == fr.item.request
    && plan.auth == EffectiveAuth(fr, col.auth)
    && plan.pre == ScriptsFor(col.events, fr, "prerequest") && plan.test == ScriptsFor(col.events, fr, "test")
  }

  // ---------- running scripts ----------

  /** The sandbox's answer to the `k`-th script, asked at its time, with the scopes before it. */
  function Answer(w: World, scripts: seq<string>, request: Postman.Request, response: Option<Response>, info: Info,
                  ss: seq<Scopes>, t: nat, k: nat): Result<ScriptResult>
    requires k < |scripts| && k < |ss|
  {
    w.script(t + k, scripts[k],
             ScriptContext(View(ss[k].global, ss[k].environment, ss[k].collection, ss[k].data), request, response, info))
  }

  /** Those of the first scripts whose answers came: each was `answers[k]`, and left `ss[k + 1]`. */
  ghost predicate Ran(w: World, scripts: seq<string>, request: Postman.Request, response: Option<Response>, info: Info,
                      ss: seq<Scopes>, t: nat, answers: seq<ScriptResult>)
  {
    && |ss| == |answers| + 1 && |answers| <= |scripts|
    && forall k :: 0 <= k < |answers| ==>
         && Answer(w, scripts, request, response, info, ss, t, k) == Ok(answers[k])
         && ss[k + 1] == ss[k].(global := answers[k].mutations.globals,
                                environment := answers[k].mutations.environment,
                                collection := answers[k].mutations.collectionVariables)
  }

  /** One more at the front. */
  lemma RanCons(w: World, scripts: seq<string>, request: Postman.Request, response: Option<Response>, info: Info,
                s: Scopes, ss: seq<Scopes>, t: nat, a: ScriptResult, answers: seq<ScriptResult>)
    requires scripts != [] && Ran(w, scripts[1..], request, response, info, ss, t + 1, answers)
    requires ss[0] == s.(global := a.mutations.globals, environment := a.mutations.environment,
                         collection := a.mutations.collectionVariables)
    requires Answer(w, scripts, request, response, info, [s], t, 0) == Ok(a)
    ensures Ran(w, scripts, request, response, info, [s] + ss, t, [a] + answers)
  {
    var ss', answers' := [s] + ss, [a] + answers;
    forall k | 0 <= k < |answers'|
      ensures Answer(w, scripts, request, response, info, ss', t, k) == Ok(answers'[k])
      ensures ss'[k + 1] == ss'[k].(global := answers'[k].mutations.globals,
                                    environment := answers'[k].mutations.environment,
                                    collection := answers'[k].mutations.collectionVariables)
    {
      if k > 0 {
        assert Answer(w, scripts[1..], request, response, info, ss, t + 1, k - 1) == Ok(answers[k - 1]);
        assert scripts[1..][k - 1] == scripts[k] && ss'[k] == ss[k - 1] && answers'[k] == answers[k - 1];
      }
    }
  }

  // ---------- before the exchange ----------

  /** How the pre-request phase ends: with the first script that cannot be run or skips the request, else after all. */
  ghost predicate PreEnds(w: World, plan: Plan, info: Info, ss: seq<Scopes>, t: nat, answers: seq<ScriptResult>,
                          end: PreEnd, t': nat)
  {
    var n := |answers|;
    && Ran(w, plan.pre, plan.request, None, info, ss, t, answers)
    && (forall k :: 0 <= k < n - 1 ==> !answers[k].mutations.skipRequest)
    && match end
       case Skip => n > 0 && answers[n - 1].mutations.skipRequest && t' == t + n
       case Fail(e) =>
         && (n > 0 ==> !answers[n - 1].mutations.skipRequest) && t' == t + n + 1 && n < |plan.pre|
         && var a := Answer(w, plan.pre, plan.request, None, info, ss, t, n); a.Err? && e == "prerequest script: " + a.error
       case Proceed => (n > 0 ==> !answers[n - 1].mutations.skipRequest) && t' == t + n && n == |plan.pre|
  }

  lemma {:induction false} PreScriptsEnd(w: World, plan: Plan, fr: FlatRequest, info: Info, s: Scopes, t: nat)
    returns (ss: seq<Scopes>, answers: seq<ScriptResult>)
    requires fr.item.Leaf? && plan.request == fr.item.request
    ensures var (end, s1, t1) := PreScripts(w, plan.pre, fr, info, s, t);
            PreEnds(w, plan, info, ss, t, answers, end, t1) && ss[0] == s && ss[|ss| - 1] == s1
    decreases |plan.pre|
  {
    ss, answers := [s], [];
    if plan.pre != [] {
      var a := w.script(t, plan.pre[0], Context(s, fr, None, info));
      assert Answer(w, plan.pre, plan.request, None, info, [s], t, 0) == a;
      if a.Ok? {
        var m := a.value.mutations;
        var s1 := Replaced(s, m.globals, m.environment, m.collectionVariables);
        if m.skipRequest {
          ss, answers := [s, s1], [a.value];
        } else {
          var ss', answers' := PreScriptsEnd(w, plan.(pre := plan.pre[1..]), fr, info, s1, t + 1);
          RanCons(w, plan.pre, plan.request, None, info, s, ss', t, a.value, answers');
          ss, answers := [s] + ss', [a.value] + answers';
          var (end, s2, t2) := PreScripts(w, plan.pre, fr, info, s, t);
          PreEndsCons(w, plan, info, s, ss', t, a.value, answers', end, t2);
        }
      }
    }
  }

  lemma PreEndsCons(w: World, plan: Plan, info: Info, s: Scopes, ss: seq<Scopes>, t: nat, a: ScriptResult,
                    answers: seq<ScriptResult>, end: PreEnd, t': nat)
    requires plan.pre != [] && !a.mutations.skipRequest
    requires PreEnds(w, plan.(pre := plan.pre[1..]), info, ss, t + 1, answers, end, t')
    requires Ran(w, plan.pre, plan.request, None, info, [s] + ss, t, [a] + answers)
    ensures PreEnds(w, plan, info, [s] + ss, t, [a] + answers, end, t')
  {
    var answers' := [a] + answers;
    forall k | 0 <= k < |answers'| - 1 ensures !answers'[k].mutations.skipRequest {
      if k > 0 { assert answers'[k] == answers[k - 1]; }
    }
    if end.Fail? {
      assert plan.pre[1..][|answers|] == plan.pre[|answers'|] && ([s] + ss)[|answers'|] == ss[|answers|];
    }
  }

  // ---------- after the exchange ----------

  /** All tests of all answers, in order. */
  function AllTests(answers: seq<ScriptResult>): seq<TestResult> {
    if answers == [] then [] else answers[0].tests + AllTests(answers[1..])
  }

  /** The last directive given, or `next` if none was. */
  ghost predicate LastDirective(answers: seq<ScriptResult>, next: Option<string>, last: Option<string>) {
    || (last == next && forall k :: 0 <= k < |answers| ==> answers[k].mutations.nextRequest.None?)
    || exists k :: 0 <= k < |answers| && answers[k].mutations.nextRequest.Some? && last == answers[k].mutations.nextRequest
         && forall j :: k < j < |answers| ==> answers[j].mutations.nextRequest.None?
  }

  ghost predicate TestsEnd(w: World, plan: Plan, response: Response, info: Info, ss: seq<Scopes>, t: nat,
                           answers: seq<ScriptResult>, tests: seq<TestResult>, next: Option<string>, end: TestEnd, t': nat)
  {
    var n := |answers|;
    && Ran(w, plan.test, plan.request, Some(response), info, ss, t, answers)
    && match end
       case TestFailed(e) =>
         && n < |plan.test| && t' == t + n + 1
         && var a := Answer(w, plan.test, plan.request, Some(response), info, ss, t, n);
            a.Err? && e == "test script: " + a.error
       case Tested(all, last) =>
         n == |plan.test| && t' == t + n && all == tests + AllTests(answers) && LastDirective(answers, next, last)
  }

  lemma {:induction false} TestScriptsEnd(w: World, plan: Plan, fr: FlatRequest, response: Response, info: Info,
                                          s: Scopes, t: nat, tests: seq<TestResult>, next: Option<string>)
    returns (ss: seq<Scopes>, answers: seq<ScriptResult>)
    requires fr.item.Leaf? && plan.request == fr.item.request
    ensures var (end, s1, t1) := TestScripts(w, plan.test, fr, response, info, s, t, tests, next);
            TestsEnd(w, plan, response, info, ss, t, answers, tests, next, end, t1) && ss[0] == s && ss[|ss| - 1] == s1
    decreases |plan.test|
  {
    ss, answers := [s], [];
    if plan.test != [] {
      var a := w.script(t, plan.test[0], Context(s, fr, Some(response), info));
      assert Answer(w, plan.test, plan.request, Some(response), info, [s], t, 0) == a;
      if a.Ok? {
        var m := a.value.mutations;
        var s1 := Replaced(s, m.globals, m.environment, m.collectionVariables);
        var next1 := if m.nextRequest.Some? then m.nextRequest else next;
        var ss', answers' :=
          TestScriptsEnd(w, plan.(test := plan.test[1..]), fr, response, info, s1, t + 1, tests + a.value.tests, next1);
        RanCons(w, plan.test, plan.request, Some(response), info, s, ss', t, a.value, answers');
        ss, answers := [s] + ss', [a.value] + answers';
        var (end, s2, t2) := TestScripts(w, plan.test, fr, response, info, s, t, tests, next);
        TestsEndCons(w, plan, response, info, s, ss', t, a.value, answers', tests, next, end, t2);
      }
    }
  }

  lemma TestsEndCons(w: World, plan: Plan, response: Response, info: Info, s: Scopes, ss: seq<Scopes>, t: nat,
                     a: ScriptResult, answers: seq<ScriptResult>, tests: seq<TestResult>, next: Option<string>,
                     end: TestEnd, t': nat)
    requires plan.test != []
    requires TestsEnd(w, plan.(test := plan.test[1..]), response, info, ss, t + 1, answers, tests + a.tests,
                      if a.mutations.nextRequest.Some? then a.mutations.nextRequest else next, end, t')
    requires Ran(w, plan.test, plan.request, Some(response), info, [s] + ss, t, [a] + answers)
    ensures TestsEnd(w, plan, response, info, [s] + ss, t, [a] + answers, tests, next, end, t')
  {
    var answers' := [a] + answers;
    match end {
      case TestFailed(_) =>
        assert plan.test[1..][|answers|] == plan.test[|answers'|] && ([s] + ss)[|answers'|] == ss[|answers|];
      case Tested(_, last) =>
        assert answers'[1..] == answers;
        Associative(tests, a.tests, AllTests(answers));
        LastDirectiveCons(a, answers, next, last);
    }
  }

  lemma LastDirectiveCons(a: ScriptResult, answers: seq<ScriptResult>, next: Option<string>, last: Option<string>)
    requires LastDirective(answers, if a.mutations.nextRequest.Some? then a.mutations.nextRequest else next, last)
    ensures LastDirective([a] + answers, next, last)
  {
    var all := [a] + answers;
    if k :| 0 <= k < |answers| && answers[k].mutations.nextRequest.Some? && last == answers[k].mutations.nextRequest
            && forall j :: k < j < |answers| ==> answers[j].mutations.nextRequest.None? {
      assert all[k + 1] == answers[k];
      assert forall j :: k + 1 < j < |all| ==> all[j] == answers[j - 1];
    } else {
      assert forall j :: 0 < j < |all| ==> all[j] == answers[j - 1];
      if a.mutations.nextRequest.Some? { assert all[0] == a; }
    }
  }

  // ---------- the whole request ----------

  /**
   What happened: the scopes before and after each script and the answers it gave, before the
   exchange, which began at `sent`, and after it; and how either phase ended.
   */
  datatype Trace = Trace(
    before: seq<Scopes>, pre: seq<ScriptResult>, end: PreEnd, sent: nat,
    after: seq<Scopes>, test: seq<ScriptResult>, tested: TestEnd)

  /** What a request that was let through comes to: auth, one exchange with the planned request and auth, and the tests. */
  ghost predicate Exchanged(w: World, plan: Plan, info: Info, save: bool, s: Scopes, t: nat, trace: Trace,
                            outcome: Outcome, s': Scopes, t': nat)
  {
    if plan.auth.Some? && w.authError(plan.auth.value).Some? then
      outcome == Recorded(FailedResult(plan.name, "auth: " + w.authError(plan.auth.value).value)) && s' == s && t' == t
    else
      match w.http(t, plan.request, s, plan.auth)
      case Err(e) =>
        && s' == s && t' == t + 1
        && outcome == if w.cancelled(t) then Aborted(CANCELLED) else Recorded(FailedResult(plan.name, e))
      case Ok(response) =>
        && TestsEnd(w, plan, response, info.(eventName := "test"), trace.after, t + 1, trace.test, [], None, trace.tested, t')
        && trace.after[0] == s && trace.after[|trace.after| - 1] == s'
        && outcome == match trace.tested
                      case TestFailed(e) => Recorded(FailedResult(plan.name, e))
                      case Tested(tests, next) =>
                        Recorded(RequestResult(plan.name, false, None, tests, if save then Some(response) else None, next))
  }

  /** Everything a request asks and is told: the phases in order, and what is recorded of them. */
  ghost predicate Happens(w: World, plan: Plan, info: Info, save: bool, s: Scopes, t: nat, trace: Trace,
                          outcome: Outcome, s': Scopes, t': nat)
  {
    && PreEnds(w, plan, info, trace.before, t, trace.pre, trace.end, trace.sent) && trace.before[0] == s
    && var s1 := trace.before[|trace.before| - 1];
       match trace.end
       case Skip => outcome == Recorded(RequestResult(plan.name, true, None, [], None, None)) && s' == s1 && t' == trace.sent
       case Fail(e) => outcome == Recorded(FailedResult(plan.name, e)) && s' == s1 && t' == trace.sent
       case Proceed => Exchanged(w, plan, info, save, s1, trace.sent, trace, outcome, s', t')
  }

  lemma SendHappens(w: World, col: Collection, fr: FlatRequest, plan: Plan, info: Info, s: Scopes, opts: Options, t: nat,
                    given: Trace)
    returns (trace: Trace)
    requires Planned(col, fr, plan)
    ensures trace == given.(after := trace.after, test := trace.test, tested := trace.tested)
    ensures var (outcome, s', t') := SendAndTest(w, col, fr, info, s, opts, t);
            Exchanged(w, plan, info, opts.saveResponse, s, t, trace, outcome, s', t')
  {
    trace := given;
    if plan.auth.None? || w.authError(plan.auth.value).None? {
      var reply := w.http(t, plan.request, s, plan.auth);
      if reply.Ok? {
        var info' := info.(eventName := "test");
        var after, test := TestScriptsEnd(w, plan, fr, reply.value, info', s, t + 1, [], None);
        var tested := TestScripts(w, plan.test, fr, reply.value, info', s, t + 1, [], None).0;
        trace := given.(after := after, test := test, tested := tested);
      }
    }
  }

  /**
   Every request of every collection, in every world: the planned scripts run in order, each on what
   the one before it left; then the planned request goes out once, with the planned auth; then the
   planned tests run on the response; and the result records just that.
   */
  lemma RequestFollowsPlan(w: World, col: Collection, j: nat, s: Scopes, i: nat, opts: Options, t: nat)
    returns (trace: Trace)
    requires j < |Flattened(col.items, [])|
    ensures var plan := PlanOf(col, j);
            var (outcome, s', t') := OneRequest(w, col, Flattened(col.items, [])[j], s, i, opts, t);
            Happens(w, plan, Info("prerequest", i, opts.iterations, plan.name), opts.saveResponse, s, t, trace, outcome, s', t')
  {
    var fr, plan := Flattened(col.items, [])[j], PlanOf(col, j);
    var info := Info("prerequest", i, opts.iterations, plan.name);
    var before, pre := PreScriptsEnd(w, plan, fr, info, s, t);
    var phase := PreScripts(w, plan.pre, fr, info, s, t);
    var given := Trace(before, pre, phase.0, phase.2, [], [], TestFailed(""));
    trace := SendHappens(w, col, fr, plan, info, phase.1, opts, phase.2, given);
  }
}
