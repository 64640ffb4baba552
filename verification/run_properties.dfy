/** What holds of every run, in every world. */
module RunProperties {
  import opened Prelude
  import opened Postman
  import opened Flatten
  import opened Inheritance
  import opened Expansion
  import opened Variables
  import opened Scripts
  import opened Runner
  import opened Exchanges
  import opened Iterations
  import opened Runs
  import RunStream

  // ---------- result shapes ----------

  /** A skipped result has no error and no tests, a failed one no tests and no directive. */
  predicate WellShaped(r: RequestResult) {
    && (r.skipped ==> r.error.None? && r.tests == [] && r.nextRequest.None?)
    && (r.error.Some? ==> r.tests == [] && r.nextRequest.None?)
  }

  lemma SendShape(w: World, col: Postman.Collection, fr: FlatRequest, info: Info, s: Scopes, opts: Options, tick: nat)
    requires fr.item.Leaf?
    ensures var outcome := SendAndTest(w, col, fr, info, s, opts, tick).0;
            outcome.Recorded? ==> WellShaped(outcome.result) && outcome.result.name == fr.name
  {
  }

  lemma OneRequestShape(w: World, col: Postman.Collection, fr: FlatRequest, s: Scopes, i: nat, opts: Options, tick: nat)
    requires fr.item.Leaf?
    ensures var outcome := OneRequest(w, col, fr, s, i, opts, tick).0;
            outcome.Recorded? ==> WellShaped(outcome.result) && outcome.result.name == fr.name
  {
    var info := Info("prerequest", i, opts.iterations, fr.name);
    var (end, s1, t1) := PreScripts(w, ScriptsFor(col.events, fr, "prerequest"), fr, info, s, tick);
    SendShape(w, col, fr, info, s1, opts, t1);
  }

  ghost predicate AllShaped(results: seq<RequestResult>) {
    forall k :: 0 <= k < |results| ==> WellShaped(results[k])
  }

  lemma StepShaped(run: Run, st: State)
    requires AllLeaves(run.flat) && AllShaped(st.recorded) && st.status.Running?
    ensures AllShaped(StepOnce(run, st).recorded)
  {
    if !Halts(run, st) {
      var t := if run.opts.delayed && st.recorded != [] then st.tick + 1 else st.tick;
      var answer := OneRequest(run.w, run.col, run.flat[st.i], st.scopes, run.iteration, run.opts, t);
      OneRequestShape(run.w, run.col, run.flat[st.i], st.scopes, run.iteration, run.opts, t);
      StepIsAbsorb(run, st, answer);
    }
  }

  lemma {:induction false} IterationShapes(run: Run, st: State)
    requires AllLeaves(run.flat) && |st.recorded| <= MAX_REQUESTS_PER_ITERATION && AllShaped(st.recorded)
    ensures AllShaped(Complete(run, st).recorded)
    decreases if st.status.Running? then MAX_REQUESTS_PER_ITERATION + 1 - |st.recorded| else 0
  {
    if st.status.Running? {
      StepShaped(run, st);
      CompleteStep(run, st);
      IterationShapes(run, StepOnce(run, st));
    }
  }

  // ---------- the data row ----------

  /** Same data row and same (never written) local scope. */
  predicate SameRow(s: Scopes, t: Scopes) {
    s.data == t.data && s.local == t.local
  }

  lemma {:induction false} PreScriptsKeepRow(w: World, scripts: seq<string>, fr: FlatRequest, info: Info, s: Scopes, tick: nat)
    requires fr.item.Leaf?
    ensures SameRow(s, PreScripts(w, scripts, fr, info, s, tick).1)
    decreases |scripts|
  {
    if scripts != [] {
      var res := w.script(tick, scripts[0], Context(s, fr, None, info));
      if res.Ok? && !res.value.mutations.skipRequest {
        var m := res.value.mutations;
        PreScriptsKeepRow(w, scripts[1..], fr, info,
                          Replaced(s, m.globals, m.environment, m.collectionVariables), tick + 1);
      }
    }
  }

  lemma {:induction false} TestScriptsKeepRow(w: World, scripts: seq<string>, fr: FlatRequest, response: Response, info: Info,
                                              s: Scopes, tick: nat, tests: seq<TestResult>, next: Option<string>)
    requires fr.item.Leaf?
    ensures SameRow(s, TestScripts(w, scripts, fr, response, info, s, tick, tests, next).1)
    decreases |scripts|
  {
    if scripts != [] {
      var res := w.script(tick, scripts[0], Context(s, fr, Some(response), info));
      if res.Ok? {
        var m := res.value.mutations;
        TestScriptsKeepRow(w, scripts[1..], fr, response, info,
                           Replaced(s, m.globals, m.environment, m.collectionVariables), tick + 1, tests + res.value.tests,
                           if m.nextRequest.Some? then m.nextRequest else next);
      }
    }
  }

  lemma SendKeepsRow(w: World, col: Postman.Collection, fr: FlatRequest, info: Info, s: Scopes, opts: Options, tick: nat)
    requires fr.item.Leaf?
    ensures SameRow(s, SendAndTest(w, col, fr, info, s, opts, tick).1)
  {
    var resp := w.http(tick, fr.item.request, s, EffectiveAuth(fr, col.auth));
    if resp.Ok? {
      TestScriptsKeepRow(w, ScriptsFor(col.events, fr, "test"), fr, resp.value, info.(eventName := "test"),
                         s, tick + 1, [], None);
    }
  }

  lemma RequestKeepsRow(w: World, col: Postman.Collection, fr: FlatRequest, s: Scopes, i: nat, opts: Options, tick: nat)
    requires fr.item.Leaf?
    ensures SameRow(s, OneRequest(w, col, fr, s, i, opts, tick).1)
  {
    var info := Info("prerequest", i, opts.iterations, fr.name);
    var pre := ScriptsFor(col.events, fr, "prerequest");
    PreScriptsKeepRow(w, pre, fr, info, s, tick);
    var (end, s1, t1) := PreScripts(w, pre, fr, info, s, tick);
    SendKeepsRow(w, col, fr, info, s1, opts, t1);
  }

  lemma {:induction false} IterationKeepsRow(run: Run, st: State)
    requires AllLeaves(run.flat) && |st.recorded| <= MAX_REQUESTS_PER_ITERATION
    ensures SameRow(st.scopes, Complete(run, st).scopes)
    decreases if st.status.Running? then MAX_REQUESTS_PER_ITERATION + 1 - |st.recorded| else 0
  {
    if st.status.Running? {
      if st.i < |run.flat| {
        var t := if run.opts.delayed && st.recorded != [] then st.tick + 1 else st.tick;
        RequestKeepsRow(run.w, run.col, run.flat[st.i], st.scopes, run.iteration, run.opts, t);
      }
      IterationKeepsRow(run, StepOnce(run, st));
    }
  }

  /** Every key of the row resolves to its row value. */
  ghost predicate RowHolds(s: Scopes, row: Definitions) {
    forall key :: key in row ==> key in s.Effective() && s.Effective()[key] == row[key]
  }

  /** Whatever a sandbox sends back, the data row's keys resolve to their row values to the end of the iteration. */
  lemma RowValueWins(w: World, col: Postman.Collection, env: Option<Postman.Environment>, flat: seq<FlatRequest>,
                     opts: Options, i: nat, tick: nat)
    requires AllLeaves(flat) && i < |opts.data|
    ensures RowHolds(OneIteration(w, col, env, flat, opts, i, tick).scopes, opts.data[i])
  {
    IterationKeepsRow(RunOf(w, col, flat, opts, i), Start(InitialScopes(col, env, opts, i), tick));
  }

  /** Two worlds that answer alike whenever a script sees the row unchanged and a request is sent with its values. */
  ghost predicate AlikeOnRow(w: World, w': World, row: Definitions) {
    && (forall tick, script, ctx: ScriptContext :: ctx.visible.data == row ==> w.script(tick, script, ctx) == w'.script(tick, script, ctx))
    && (forall tick, request, s, auth :: RowHolds(s, row) ==>
          w.http(tick, request, s, auth) == w'.http(tick, request, s, auth))
    && (forall auth :: w.authError(auth) == w'.authError(auth))
    && (forall tick :: w.cancelled(tick) == w'.cancelled(tick))
  }

  /** Asked on behalf of the planned request, before it is sent or with its response, and with the row unchanged. */
  predicate Asked(ctx: ScriptContext, plan: Plan, row: Definitions, eventName: string) {
    && ctx.visible.data == row && ctx.request == plan.request && ctx.info.requestName == plan.name
    && ctx.info.eventName == eventName && (ctx.response.None? <==> eventName == "prerequest")
  }

  /**
   Two worlds that answer alike whenever a planned script is asked for, before the exchange or after
   it, and whenever the planned request goes out with the planned auth and the row's values.
   */
  ghost predicate AlikeOnPlan(w: World, w': World, row: Definitions, plan: Plan) {
    && (forall tick, script, ctx: ScriptContext :: script in plan.pre && Asked(ctx, plan, row, "prerequest") ==>
          w.script(tick, script, ctx) == w'.script(tick, script, ctx))
    && (forall tick, script, ctx: ScriptContext :: script in plan.test && Asked(ctx, plan, row, "test") ==>
          w.script(tick, script, ctx) == w'.script(tick, script, ctx))
    && (forall tick, s :: RowHolds(s, row) ==>
          w.http(tick, plan.request, s, plan.auth) == w'.http(tick, plan.request, s, plan.auth))
    && (plan.auth.Some? ==> w.authError(plan.auth.value) == w'.authError(plan.auth.value))
    && (forall tick :: w.cancelled(tick) == w'.cancelled(tick))
  }

  predicate HasRow(s: Scopes, row: Definitions) {
    s.data == row && s.local == map[]
  }

  lemma {:induction false} PreScriptsAlike(w: World, w': World, row: Definitions, plan: Plan, scripts: seq<string>,
                                           fr: FlatRequest, info: Info, s: Scopes, tick: nat)
    requires fr.item.Leaf? && plan.request == fr.item.request && AlikeOnPlan(w, w', row, plan) && HasRow(s, row)
    requires (forall i :: 0 <= i < |scripts| ==> scripts[i] in plan.pre)
    requires info.eventName == "prerequest" && info.requestName == plan.name
    ensures PreScripts(w, scripts, fr, info, s, tick) == PreScripts(w', scripts, fr, info, s, tick)
    decreases |scripts|
  {
    if scripts != [] {
      var ctx := Context(s, fr, None, info);
      var res := w.script(tick, scripts[0], ctx);
      assert Asked(ctx, plan, row, "prerequest") && res == w'.script(tick, scripts[0], ctx);
      if res.Ok? && !res.value.mutations.skipRequest {
        var m := res.value.mutations;
        PreScriptsAlike(w, w', row, plan, scripts[1..], fr, info,
                        Replaced(s, m.globals, m.environment, m.collectionVariables), tick + 1);
      }
    }
  }

  lemma {:induction false} TestScriptsAlike(w: World, w': World, row: Definitions, plan: Plan, scripts: seq<string>,
                                            fr: FlatRequest, response: Response, info: Info, s: Scopes, tick: nat,
                                            tests: seq<TestResult>, next: Option<string>)
    requires fr.item.Leaf? && plan.request == fr.item.request && AlikeOnPlan(w, w', row, plan) && HasRow(s, row)
    requires (forall i :: 0 <= i < |scripts| ==> scripts[i] in plan.test)
    requires info.eventName == "test" && info.requestName == plan.name
    ensures TestScripts(w, scripts, fr, response, info, s, tick, tests, next)
         == TestScripts(w', scripts, fr, response, info, s, tick, tests, next)
    decreases |scripts|
  {
    if scripts != [] {
      var ctx := Context(s, fr, Some(response), info);
      var res := w.script(tick, scripts[0], ctx);
      assert Asked(ctx, plan, row, "test") && res == w'.script(tick, scripts[0], ctx);
      if res.Ok? {
        var m := res.value.mutations;
        TestScriptsAlike(w, w', row, plan, scripts[1..], fr, response, info,
                         Replaced(s, m.globals, m.environment, m.collectionVariables), tick + 1,
                         tests + res.value.tests, if m.nextRequest.Some? then m.nextRequest else next);
      }
    }
  }

  lemma SendAlike(w: World, w': World, row: Definitions, plan: Plan, col: Postman.Collection, fr: FlatRequest, info: Info,
                  s: Scopes, opts: Options, tick: nat)
    requires Planned(col, fr, plan) && AlikeOnPlan(w, w', row, plan) && HasRow(s, row) && info.requestName == plan.name
    ensures SendAndTest(w, col, fr, info, s, opts, tick) == SendAndTest(w', col, fr, info, s, opts, tick)
  {
    assert RowHolds(s, row);
    var resp := w.http(tick, plan.request, s, plan.auth);
    assert resp == w'.http(tick, plan.request, s, plan.auth);
    assert w.cancelled(tick) == w'.cancelled(tick);
    if resp.Ok? {
      TestScriptsAlike(w, w', row, plan, plan.test, fr, resp.value, info.(eventName := "test"), s, tick + 1, [], None);
    }
  }

  lemma RequestAlike(w: World, w': World, row: Definitions, plan: Plan, col: Postman.Collection, fr: FlatRequest, s: Scopes,
                     i: nat, opts: Options, tick: nat)
    requires Planned(col, fr, plan) && AlikeOnPlan(w, w', row, plan) && HasRow(s, row)
    ensures OneRequest(w, col, fr, s, i, opts, tick) == OneRequest(w', col, fr, s, i, opts, tick)
  {
    var info := Info("prerequest", i, opts.iterations, fr.name);
    PreScriptsAlike(w, w', row, plan, plan.pre, fr, info, s, tick);
    PreScriptsKeepRow(w, plan.pre, fr, info, s, tick);
    var (end, s1, t1) := PreScripts(w, plan.pre, fr, info, s, tick);
    SendAlike(w, w', row, plan, col, fr, info, s1, opts, t1);
  }

  /** Every request of the list has one of the collection's plans, and the worlds are alike on all of these. */
  ghost predicate AlikeOnPlans(w: World, w': World, row: Definitions, col: Postman.Collection) {
    forall j {:trigger PlanOf(col, j)} :: 0 <= j < |Flattened(col.items, [])| ==> AlikeOnPlan(w, w', row, PlanOf(col, j))
  }

  ghost predicate AllFrom(flat: seq<FlatRequest>, col: Postman.Collection) {
    forall k :: 0 <= k < |flat| ==> flat[k] in Flattened(col.items, [])
  }

  lemma StepAlike(run: Run, run': Run, row: Definitions, st: State)
    requires AllLeaves(run.flat) && AllFrom(run.flat, run.col) && run' == run.(w := run'.w)
    requires AlikeOnPlans(run.w, run'.w, row, run.col) && (forall t :: run.w.cancelled(t) == run'.w.cancelled(t))
    requires HasRow(st.scopes, row) && st.status.Running?
    ensures StepOnce(run, st) == StepOnce(run', st) && HasRow(StepOnce(run, st).scopes, row)
  {
    assert run.w.cancelled(st.tick) == run'.w.cancelled(st.tick);
    if !Halts(run, st) {
      var t := if run.opts.delayed && st.recorded != [] then st.tick + 1 else st.tick;
      var fr := run.flat[st.i];
      var j :| 0 <= j < |Flattened(run.col.items, [])| && Flattened(run.col.items, [])[j] == fr;
      RequestAlike(run.w, run'.w, row, PlanOf(run.col, j), run.col, fr, st.scopes, run.iteration, run.opts, t);
      RequestKeepsRow(run.w, run.col, fr, st.scopes, run.iteration, run.opts, t);
      var answer := OneRequest(run.w, run.col, fr, st.scopes, run.iteration, run.opts, t);
      StepIsAbsorb(run, st, answer);
      StepIsAbsorb(run', st, answer);
    }
  }

  lemma {:induction false} CompleteAlike(run: Run, run': Run, row: Definitions, st: State)
    requires AllLeaves(run.flat) && AllFrom(run.flat, run.col) && run' == run.(w := run'.w)
    requires AlikeOnPlans(run.w, run'.w, row, run.col) && (forall t :: run.w.cancelled(t) == run'.w.cancelled(t))
    requires HasRow(st.scopes, row) && |st.recorded| <= MAX_REQUESTS_PER_ITERATION
    ensures Complete(run, st) == Complete(run', st)
    decreases if st.status.Running? then MAX_REQUESTS_PER_ITERATION + 1 - |st.recorded| else 0
  {
    if st.status.Running? {
      StepAlike(run, run', row, st);
      CompleteStep(run, st);
      CompleteStep(run', st);
      CompleteAlike(run, run', row, StepOnce(run, st));
    }
  }

  /**
   An iteration asks the world nothing but what is planned: two worlds that answer alike when a
   request's own scripts are run before its exchange and after it, and when it is sent with the auth
   it inherits, give the same iteration, whatever else they would have answered.
   */
  lemma EveryCallFollowsPlan(w: World, w': World, col: Postman.Collection, env: Option<Postman.Environment>,
                             opts: Options, i: nat, tick: nat)
    requires var row := if i < |opts.data| then opts.data[i] else map[]; AlikeOnPlans(w, w', row, col)
    requires forall t :: w.cancelled(t) == w'.cancelled(t)
    ensures AllLeaves(SelectedRequests(col, opts))
    ensures OneIteration(w, col, env, SelectedRequests(col, opts), opts, i, tick)
         == OneIteration(w', col, env, SelectedRequests(col, opts), opts, i, tick)
  {
    var flat := SelectedRequests(col, opts);
    SelectedLeaves(col, opts);
    SelectedAreFlat(col, opts);
    CompleteAlike(RunOf(w, col, flat, opts, i), RunOf(w', col, flat, opts, i),
                  if i < |opts.data| then opts.data[i] else map[], Start(InitialScopes(col, env, opts, i), tick));
  }

  lemma SelectedAreFlat(col: Postman.Collection, opts: Options)
    ensures AllFrom(SelectedRequests(col, opts), col)
  {
    InFolderIsPart(Flattened(col.items, []), opts.folder);
  }

  lemma {:induction false} InFolderIsPart(flat: seq<FlatRequest>, name: string)
    ensures forall fr :: fr in InFolder(flat, name) ==> fr in flat
  {
    if flat != [] {
      InFolderIsPart(flat[..|flat| - 1], name);
    }
  }

  /**
   At every single call of the sandbox and of the network the row is what it was: an iteration
   cannot tell two worlds apart that differ only where a script would see another row, or a
   request would be sent with other values for the row's keys.
   */
  lemma EveryCallSeesRow(w: World, w': World, col: Postman.Collection, env: Option<Postman.Environment>,
                         opts: Options, i: nat, tick: nat)
    requires i < |opts.data| && AlikeOnRow(w, w', opts.data[i])
    ensures AllLeaves(SelectedRequests(col, opts))
    ensures OneIteration(w, col, env, SelectedRequests(col, opts), opts, i, tick)
         == OneIteration(w', col, env, SelectedRequests(col, opts), opts, i, tick)
  {
    forall j: nat | j < |Flattened(col.items, [])| ensures AlikeOnPlan(w, w', opts.data[i], PlanOf(col, j)) {
    }
    EveryCallFollowsPlan(w, w', col, env, opts, i, tick);
  }

  // ---------- scripts as if run in place ----------

  /** What the sandbox runs for a script, or the error with which it fails to run it at all. */
  type Program = (nat, string, ScriptContext) -> Result<Scripts.Script>

  /** The script oracle is the sandbox: it runs a program on copies of what the context shows. */
  ghost predicate SandboxWorld(w: World, program: Program) {
    forall tick, s, ctx :: w.script(tick, s, ctx) ==
      match program(tick, s, ctx)
      case Err(e) => Err(e)
      case Ok(script) => Ok(Outcome(RunSteps(script, ctx.visible, NO_FLOW)))
  }

  function Outcome(end: (View, Flow)): ScriptResult {
    ScriptResult(end.1.tests, Mutations(end.0.globals, end.0.environment, end.0.collection,
                                        end.1.nextRequest, end.1.skipRequest))
  }

  /** Pre-request scripts run directly on one shared set of scopes. */
  function PreInPlace(program: Program, scripts: seq<string>, fr: FlatRequest, info: Info, s: Scopes, tick: nat)
    : (PreEnd, Scopes, nat)
    requires fr.item.Leaf?
    decreases |scripts|
  {
    if scripts == [] then (Proceed, s, tick)
    else
      match program(tick, scripts[0], Context(s, fr, None, info))
      case Err(e) => (Fail("prerequest script: " + e), s, tick + 1)
      case Ok(script) =>
        var (s1, _, flow) := RunInPlace(script, s, s.data, NO_FLOW);
        if flow.skipRequest then (Skip, s1, tick + 1)
        else PreInPlace(program, scripts[1..], fr, info, s1, tick + 1)
  }

  /** Test scripts likewise. */
  function TestInPlace(program: Program, scripts: seq<string>, fr: FlatRequest, response: Response, info: Info,
                       s: Scopes, tick: nat, tests: seq<TestResult>, next: Option<string>)
    : (TestEnd, Scopes, nat)
    requires fr.item.Leaf?
    decreases |scripts|
  {
    if scripts == [] then (Tested(tests, next), s, tick)
    else
      match program(tick, scripts[0], Context(s, fr, Some(response), info))
      case Err(e) => (TestFailed("test script: " + e), s, tick + 1)
      case Ok(script) =>
        var (s1, _, flow) := RunInPlace(script, s, s.data, NO_FLOW);
        TestInPlace(program, scripts[1..], fr, response, info, s1, tick + 1, tests + flow.tests,
                    if flow.nextRequest.Some? then flow.nextRequest else next)
  }

  /** The runner's snapshot-and-replace loops are the in-place runs. */
  lemma {:induction false} PreScriptsInPlace(w: World, program: Program, scripts: seq<string>, fr: FlatRequest,
                                             info: Info, s: Scopes, tick: nat)
    requires fr.item.Leaf? && SandboxWorld(w, program)
    ensures PreScripts(w, scripts, fr, info, s, tick) == PreInPlace(program, scripts, fr, info, s, tick)
    decreases |scripts|
  {
    if scripts != [] {
      var ran := program(tick, scripts[0], Context(s, fr, None, info));
      if ran.Ok? {
        CopiesRefineInPlace(ran.value, s, s.data, NO_FLOW);
        var (s1, _, flow) := RunInPlace(ran.value, s, s.data, NO_FLOW);
        PreScriptsInPlace(w, program, scripts[1..], fr, info, s1, tick + 1);
      }
    }
  }

  lemma {:induction false} TestScriptsInPlace(w: World, program: Program, scripts: seq<string>, fr: FlatRequest,
                                              response: Response, info: Info, s: Scopes, tick: nat,
                                              tests: seq<TestResult>, next: Option<string>)
    requires fr.item.Leaf? && SandboxWorld(w, program)
    ensures TestScripts(w, scripts, fr, response, info, s, tick, tests, next)
         == TestInPlace(program, scripts, fr, response, info, s, tick, tests, next)
    decreases |scripts|
  {
    if scripts != [] {
      var ran := program(tick, scripts[0], Context(s, fr, Some(response), info));
      if ran.Ok? {
        CopiesRefineInPlace(ran.value, s, s.data, NO_FLOW);
        var (s1, _, flow) := RunInPlace(ran.value, s, s.data, NO_FLOW);
        TestScriptsInPlace(w, program, scripts[1..], fr, response, info, s1, tick + 1, tests + flow.tests,
                           if flow.nextRequest.Some? then flow.nextRequest else next);
      }
    }
  }

  // ---------- whole runs ----------

  ghost predicate GoodProgress(w: World, col: Postman.Collection, env: Option<Postman.Environment>,
                               flat: seq<FlatRequest>, opts: Options, p: Progress)
    requires AllLeaves(flat)
  {
    && |p.iterations| <= opts.iterations
    && (forall k :: 0 <= k < |p.iterations| ==>
          && p.iterations[k].index == k
          && FromFreshScopes(w, col, env, flat, opts, p.iterations[k])
          && AllShaped(p.iterations[k].requests))
    && (forall k :: 0 <= k < |p.iterations| - 1 ==> opts.bail ==> IterationPassed(p.iterations[k]))
    && (p.error.None? ==> p.calls == AllCalls(p.iterations))
  }

  /** The iteration's results depend on its own initial scopes and on no earlier script. */
  ghost predicate FromFreshScopes(w: World, col: Postman.Collection, env: Option<Postman.Environment>,
                                  flat: seq<FlatRequest>, opts: Options, it: IterationResult)
    requires AllLeaves(flat)
  {
    exists tick ::
      it.requests
      == Complete(Iterations.Run(w, col, flat, it.index, opts), Start(InitialScopes(col, env, opts, it.index), tick)).recorded
  }

  /** Every recorded result, in order, with its iteration. */
  function AllCalls(iterations: seq<IterationResult>): seq<(nat, RequestResult)> {
    if iterations == [] then []
    else AllCalls(iterations[..|iterations| - 1]) + CallsOf(iterations[|iterations| - 1])
  }

  function CallsOf(it: IterationResult): seq<(nat, RequestResult)> {
    seq(|it.requests|, k requires 0 <= k < |it.requests| => (it.index, it.requests[k]))
  }

  /** All iterations were run, unless one failed under bail or was broken off, which is what the error is then. */
  ghost predicate EndsRightly(w: World, col: Postman.Collection, env: Option<Postman.Environment>,
                              flat: seq<FlatRequest>, opts: Options, p: Progress)
    requires AllLeaves(flat)
  {
    var n := |p.iterations|;
    if p.error.None? then n == opts.iterations || (opts.bail && n > 0 && !IterationPassed(p.iterations[n - 1]))
    else
      && n < opts.iterations && (opts.bail && n > 0 ==> IterationPassed(p.iterations[n - 1]))
      && exists tick ::
           var end := OneIteration(w, col, env, flat, opts, n, tick);
           && end.status == Broken(p.error.value)
           && p.calls == AllCalls(p.iterations) + CallsOf(IterationResult(n, end.recorded))
  }

  lemma {:induction false} IterateGood(w: World, col: Postman.Collection, env: Option<Postman.Environment>,
                                       flat: seq<FlatRequest>, opts: Options, i: nat, p: Progress)
    requires AllLeaves(flat) && GoodProgress(w, col, env, flat, opts, p)
    requires |p.iterations| == i && p.error.None?
    requires opts.bail ==> forall k :: 0 <= k < i ==> IterationPassed(p.iterations[k])
    ensures GoodProgress(w, col, env, flat, opts, IterateFrom(w, col, env, flat, opts, i, p))
    decreases opts.iterations - i
  {
    if i < opts.iterations {
      var end := OneIteration(w, col, env, flat, opts, i, p.tick);
      assert Calls(i, end.recorded) == CallsOf(IterationResult(i, end.recorded));
      if end.status.Broken? {
      } else {
        var it := IterationResult(i, end.recorded);
        var next := Progress(p.iterations + [it], p.calls + Calls(i, end.recorded), end.tick, None);
        assert FromFreshScopes(w, col, env, flat, opts, it);
        IterationShapes(RunOf(w, col, flat, opts, i), Start(InitialScopes(col, env, opts, i), p.tick));
        assert next.iterations[..i] == p.iterations;
        assert GoodProgress(w, col, env, flat, opts, next);
        if !(opts.bail && !IterationPassed(it)) {
          IterateGood(w, col, env, flat, opts, i + 1, next);
        }
      }
    }
  }

  lemma {:induction false} IterateEnds(w: World, col: Postman.Collection, env: Option<Postman.Environment>,
                                       flat: seq<FlatRequest>, opts: Options, i: nat, p: Progress)
    requires AllLeaves(flat) && p.calls == AllCalls(p.iterations) && p.error.None?
    requires |p.iterations| == i <= opts.iterations && (opts.bail && i > 0 ==> IterationPassed(p.iterations[i - 1]))
    ensures EndsRightly(w, col, env, flat, opts, IterateFrom(w, col, env, flat, opts, i, p))
    decreases opts.iterations - i
  {
    if i < opts.iterations {
      IterateStep(w, col, env, flat, opts, i, p);
      var end := OneIteration(w, col, env, flat, opts, i, p.tick);
      var it := IterationResult(i, end.recorded);
      var next := Progress(p.iterations + [it], p.calls + Calls(i, end.recorded), end.tick, None);
      assert Calls(i, end.recorded) == CallsOf(it) && next.iterations[..i] == p.iterations;
      if !end.status.Broken? && !(opts.bail && !IterationPassed(it)) {
        IterateEnds(w, col, env, flat, opts, i + 1, next);
      }
    }
  }

  /**
   Every run: iterations are numbered in order, each computed from scopes that no earlier
   script has touched; under `bail` only the last may fail; all of them are run, at least one,
   unless one fails under `bail` or is broken off; and the streaming callback saw exactly the
   recorded results, in order.
   */
  lemma {:induction false} RunsAreGood(w: World, col: Postman.Collection, env: Option<Postman.Environment>, opts: Options, tick: nat)
    ensures AllLeaves(SelectedRequests(col, opts))
    ensures var opts' := opts.(iterations := if opts.iterations < 1 then 1 else opts.iterations);
            && GoodProgress(w, col, env, SelectedRequests(col, opts), opts', WholeRun(w, col, env, opts, tick))
            && EndsRightly(w, col, env, SelectedRequests(col, opts), opts', WholeRun(w, col, env, opts, tick))
  {
    SelectedLeaves(col, opts);
    IterateGood(w, col, env, SelectedRequests(col, opts), Normalised(opts), 0, Progress([], [], tick, None));
    IterateEnds(w, col, env, SelectedRequests(col, opts), Normalised(opts), 0, Progress([], [], tick, None));
  }

  // ---------- the run's event stream ----------

  /** Every directive met in the run that names a request names one further on. */
  ghost predicate OnlyForward(w: World, col: Postman.Collection, env: Option<Postman.Environment>,
                              flat: seq<FlatRequest>, opts: Options, i: nat, p: Progress)
    requires AllLeaves(flat)
    decreases opts.iterations - i
  {
    i >= opts.iterations
    || (var end := OneIteration(w, col, env, flat, opts, i, p.tick);
        var it := IterationResult(i, end.recorded);
        && JumpsForward(end.path)
        && (end.status.Broken? || (opts.bail && !IterationPassed(it))
            || OnlyForward(w, col, env, flat, opts, i + 1,
                           Progress(p.iterations + [it], p.calls + Calls(i, end.recorded), end.tick, None))))
  }

  lemma {:induction false} ForwardCalls(w: World, col: Postman.Collection, env: Option<Postman.Environment>,
                                        flat: seq<FlatRequest>, opts: Options, i: nat, p: Progress)
    requires AllLeaves(flat) && i <= opts.iterations && OnlyForward(w, col, env, flat, opts, i, p)
    ensures |IterateFrom(w, col, env, flat, opts, i, p).calls| <= |p.calls| + |flat| * (opts.iterations - i)
    decreases opts.iterations - i
  {
    var room := |flat| * (opts.iterations - i);
    if i < opts.iterations {
      var end := OneIteration(w, col, env, flat, opts, i, p.tick);
      ForwardIteration(w, col, env, flat, opts, i, p.tick);
      var it := IterationResult(i, end.recorded);
      var next := Progress(p.iterations + [it], p.calls + Calls(i, end.recorded), end.tick, None);
      Distribute(|flat|, opts.iterations - i);
      assert |next.calls| + |flat| * (opts.iterations - (i + 1)) <= |p.calls| + room;
      if !end.status.Broken? && !(opts.bail && !IterationPassed(it)) {
        ForwardCalls(w, col, env, flat, opts, i + 1, next);
      }
    }
  }

  lemma ForwardIteration(w: World, col: Postman.Collection, env: Option<Postman.Environment>,
                         flat: seq<FlatRequest>, opts: Options, i: nat, tick: nat)
    requires AllLeaves(flat)
    requires var end := OneIteration(w, col, env, flat, opts, i, tick);
             JumpsForward(end.path)
    ensures |OneIteration(w, col, env, flat, opts, i, tick).recorded| <= |flat|
  {
    var end := OneIteration(w, col, env, flat, opts, i, tick);
    IterationFollowsPath(RunOf(w, col, flat, opts, i), InitialScopes(col, env, opts, i), tick);
    ForwardBound(flat, end.recorded, end.path);
  }

  lemma Distribute(a: nat, n: nat)
    requires n > 0
    ensures a * n == a + a * (n - 1) && a * (n - 1) >= 0
  {
  }

  /** What the producer logs: a start event, one event per callback, a final event. */
  function RunEvents(p: Progress): seq<RunStream.Event> {
    [RunStream.Start]
    + seq(|p.calls|, k requires 0 <= k < |p.calls| => RunStream.RequestDone(p.calls[k].1.name))
    + [if p.error.Some? then RunStream.Error(p.error.value) else RunStream.Done]
  }

  /** The larger of the two. */
  function BufferSize(total: nat, iterations: nat): (size: nat)
    ensures size >= 100 && size >= total * iterations + 10 && size in {100, total * iterations + 10}
  {
    if total * iterations + 10 > 100 then total * iterations + 10 else 100
  }

  lemma EventsComplete(p: Progress)
    ensures RunStream.CompleteLog(RunEvents(p)) && |RunEvents(p)| == |p.calls| + 2
  {
    var log := RunEvents(p);
    forall i | 0 <= i < |log| - 1 ensures !RunStream.IsFinal(log[i]) && (log[i].Start? <==> i == 0) {
      if i > 0 { assert log[i] == RunStream.RequestDone(p.calls[i - 1].1.name); }
    }
  }

  /** The stream tells the run: each recorded result in order, and at the end whether it was broken off, and by what. */
  lemma EventsTellRun(w: World, col: Postman.Collection, env: Option<Postman.Environment>, opts: Options, tick: nat)
    ensures var p := WholeRun(w, col, env, opts, tick);
            var log, n := RunEvents(p), |AllCalls(p.iterations)|;
            && n <= |log| - 2 && log[0] == RunStream.Start
            && (forall k :: 0 <= k < n ==> log[k + 1] == RunStream.RequestDone(AllCalls(p.iterations)[k].1.name))
            && (if p.error.Some? then log[|log| - 1] == RunStream.Error(p.error.value)
                else |log| == n + 2 && log[|log| - 1] == RunStream.Done)
  {
    RunsAreGood(w, col, env, opts, tick);
  }

  /** Once a streamed run is done, its summary is reported exactly if it was not broken off. */
  lemma SummaryIffWhole(size: nat, steps: seq<RunStream.Step>, p: Progress)
    requires Streams(size, steps, p) && RunStream.After(size, steps).value.done
    ensures RunStream.ReportsSummary(RunStream.After(size, steps).value) <==> p.error.None?
  {
    RunStream.FailedRunNeverReported(size, steps);
  }

  ghost predicate JumpsOnlyForward(w: World, col: Postman.Collection, env: Option<Postman.Environment>,
                                   opts: Options, tick: nat)
  {
    && AllLeaves(SelectedRequests(col, opts))
    && OnlyForward(w, col, env, SelectedRequests(col, opts), Normalised(opts), 0, Progress([], [], tick, None))
  }

  /** A schedule in which the producer has logged the whole run. */
  ghost predicate Streams(size: nat, steps: seq<RunStream.Step>, p: Progress) {
    RunStream.After(size, steps).Some? && RunStream.After(size, steps).value.log == RunEvents(p)
  }

  /**
   When every jump goes forward, a run logs at most `total * iterations + 2` events; the
   channel sized for it then drops none of them, in any schedule, and a reader that is
   alone and stays to the end has received them all.
   */
  lemma {:induction false} ForwardRunsStreamCompletely(w: World, col: Postman.Collection, env: Option<Postman.Environment>,
                                    opts: Options, tick: nat, steps: seq<RunStream.Step>)
    requires JumpsOnlyForward(w, col, env, opts, tick)
    requires Streams(BufferSize(|Flattened(col.items, [])|, Normalised(opts).iterations), steps,
                     WholeRun(w, col, env, opts, tick))
    ensures var total, iterations := |Flattened(col.items, [])|, Normalised(opts).iterations;
            var s := RunStream.After(BufferSize(total, iterations), steps).value;
            |s.log| <= total * iterations + 2 && RunStream.NothingLost(s)
  {
    ForwardRunFits(w, col, env, opts, tick);
    RunStream.FittingLosesNothing(BufferSize(|Flattened(col.items, [])|, Normalised(opts).iterations), steps);
  }

  lemma ForwardRunFits(w: World, col: Postman.Collection, env: Option<Postman.Environment>, opts: Options, tick: nat)
    requires JumpsOnlyForward(w, col, env, opts, tick)
    ensures |RunEvents(WholeRun(w, col, env, opts, tick))| <= |Flattened(col.items, [])| * Normalised(opts).iterations + 2
  {
    var flat := SelectedRequests(col, opts);
    SelectedLeaves(col, opts);
    ForwardCalls(w, col, env, flat, Normalised(opts), 0, Progress([], [], tick, None));
    MoreTotal(|flat|, |Flattened(col.items, [])|, Normalised(opts).iterations);
    EventsComplete(WholeRun(w, col, env, opts, tick));
  }

  lemma MoreTotal(a: nat, b: nat, n: nat)
    requires a <= b
    ensures a * n <= b * n
  {
  }

  // ---------- jumping back ----------

  /** Whenever the first request runs, it passes and its scripts name it again. */
  ghost predicate AlwaysJumpsBack(run: Run)
    requires AllLeaves(run.flat) && run.flat != []
  {
    forall s, tick: nat ::
      var outcome := OneRequest(run.w, run.col, run.flat[0], s, run.iteration, run.opts, tick).0;
      && outcome.Recorded? && outcome.result.nextRequest == Some(run.flat[0].name)
      && !EndsIteration(outcome.result, run.opts.bail)
  }

  lemma {:induction false} LoopsToTheLimit(run: Run, st: State)
    requires AllLeaves(run.flat) && run.flat != [] && AlwaysJumpsBack(run) && !run.opts.delayed
    requires st.status.Running? && st.i == 0 && |st.recorded| <= MAX_REQUESTS_PER_ITERATION
    ensures var end := Complete(run, st);
            |end.recorded| == MAX_REQUESTS_PER_ITERATION && end.status == Broken(TOO_MANY)
    decreases MAX_REQUESTS_PER_ITERATION - |st.recorded|
  {
    CompleteStep(run, st);
    if |st.recorded| < MAX_REQUESTS_PER_ITERATION {
      var answer := OneRequest(run.w, run.col, run.flat[0], st.scopes, run.iteration, run.opts, st.tick);
      StepIsAbsorb(run, st, answer);
      assert answer.0.Recorded? && Follow(run.flat, 0, answer.0.result) == 0;
      LoopsToTheLimit(run, StepOnce(run, st));
    }
  }

  /**
   The failing case of the channel's size: a run of one iteration whose first request always jumps
   back logs 1002 events, more than the channel of 100 holds, and some schedule drops one.
   */
  lemma {:induction false} BackwardJumpsOverflow(w: World, col: Postman.Collection, env: Option<Postman.Environment>, opts: Options, tick: nat)
    requires opts.iterations == 1 && !opts.delayed && AllLeaves(SelectedRequests(col, opts))
    requires SelectedRequests(col, opts) != [] && |Flattened(col.items, [])| <= 90
    requires AlwaysJumpsBack(RunOf(w, col, SelectedRequests(col, opts), opts, 0))
    ensures var log := RunEvents(WholeRun(w, col, env, opts, tick));
            var size := BufferSize(|Flattened(col.items, [])|, 1);
            && |log| == 1002 && size == 100
            && exists steps, n {:trigger RunStream.After(size, steps).value.fates[n]} ::
                 && RunStream.After(size, steps).Some? && RunStream.After(size, steps).value.log == log
                 && 0 <= n < |RunStream.After(size, steps).value.fates|
                 && RunStream.After(size, steps).value.fates[n].Dropped?
  {
    var flat, p := SelectedRequests(col, opts), WholeRun(w, col, env, opts, tick);
    var run := RunOf(w, col, flat, opts, 0);
    SelectedLeaves(col, opts);
    LoopsToTheLimit(run, Start(InitialScopes(col, env, opts, 0), tick));
    assert Normalised(opts) == opts;
    var end := OneIteration(w, col, env, flat, opts, 0, tick);
    assert p == Progress([], [] + Calls(0, end.recorded), end.tick, Some(TOO_MANY));
    EventsComplete(p);
    RunStream.NeverDropsIffFits(100, RunEvents(p));
  }

  /** A sandbox whose scripts ask for the request of the given name, in a network where everything succeeds. */
  function JumpingWorld(name: string): World {
    World(
      (tick, script, ctx: ScriptContext) =>
        Ok(ScriptResult([], Mutations(ctx.visible.globals, ctx.visible.environment, ctx.visible.collection,
                                      Some(name), false))),
      (tick, request, s, auth) => Ok(Response(200, "OK", "")),
      auth => None,
      tick => false)
  }

  /** One request with one test script. */
  function JumpingCollection(name: string, request: Postman.Request): Postman.Collection {
    Postman.Collection("", "", "",
      [Leaf(name, request, [Event("test", Script("text/javascript", ["pm.execution.setNextRequest(pm.info.requestName)"]))], None)],
      None, [], [])
  }

  /** Such a run exists. */
  lemma JumpingRunJumpsBack(name: string, request: Postman.Request, opts: Options)
    requires name != "" && opts.folder == ""
    ensures var col := JumpingCollection(name, request);
            var flat := SelectedRequests(col, opts);
            && |Flattened(col.items, [])| == 1 && AllLeaves(flat) && flat != []
            && AlwaysJumpsBack(RunOf(JumpingWorld(name), col, flat, opts, 0))
  {
    var w, col := JumpingWorld(name), JumpingCollection(name, request);
    var item := col.items[0];
    var fr := FlatRequest(name, item, []);
    assert col.items[1..] == [] && Flattened([], []) == [] && [fr] + [] == [fr];
    assert Flattened(col.items, []) == FlattenedOne(item, []) + Flattened(col.items[1..], []) == [fr];
    assert item.events[..0] == [] && "test" != "prerequest";
    assert Matching([], "test") == [] && Matching([], "prerequest") == [];
    forall s, tick: nat
      ensures var outcome := OneRequest(w, col, fr, s, 0, opts, tick).0;
              && outcome.Recorded? && outcome.result.nextRequest == Some(name)
              && !EndsIteration(outcome.result, opts.bail)
    {
      JumpingRequest(name, col, fr, s, opts, tick);
    }
  }

  lemma JumpingRequest(name: string, col: Postman.Collection, fr: FlatRequest, s: Scopes, opts: Options, tick: nat)
    requires name != "" && fr.item.Leaf? && col.events == []
    requires ScriptsFor([], fr, "prerequest") == [] && |ScriptsFor([], fr, "test")| == 1
    ensures var outcome := OneRequest(JumpingWorld(name), col, fr, s, 0, opts, tick).0;
            && outcome.Recorded? && outcome.result.nextRequest == Some(name)
            && !EndsIteration(outcome.result, opts.bail)
  {
    var w, resp := JumpingWorld(name), Response(200, "OK", "");
    var info := Info("prerequest", 0, opts.iterations, fr.name);
    JumpingTest(w, name, ScriptsFor([], fr, "test"), fr, resp, info.(eventName := "test"), s, tick + 1);
    assert PreScripts(w, [], fr, info, s, tick) == (Proceed, s, tick);
    var auth := EffectiveAuth(fr, col.auth);
    assert auth.Some? ==> w.authError(auth.value).None?;
    assert w.http(tick, fr.item.request, s, auth) == Ok(resp);
    assert SendAndTest(w, col, fr, info, s, opts, tick).0
        == Recorded(RequestResult(fr.name, false, None, [], if opts.saveResponse then Some(resp) else None, Some(name)));
  }

  lemma JumpingTest(w: World, name: string, scripts: seq<string>, fr: FlatRequest, resp: Response, info: Info,
                    s: Scopes, tick: nat)
    requires w == JumpingWorld(name) && |scripts| == 1 && fr.item.Leaf?
    ensures TestScripts(w, scripts, fr, resp, info, s, tick, [], None).0 == Tested([], Some(name))
  {
    var ctx := Context(s, fr, Some(resp), info);
    var res := w.script(tick, scripts[0], ctx).value;
    assert res.tests == [] && res.mutations.nextRequest == Some(name);
    assert scripts[1..] == [];
    var s1 := Replaced(s, res.mutations.globals, res.mutations.environment, res.mutations.collectionVariables);
    assert TestScripts(w, scripts, fr, resp, info, s, tick, [], None)
        == TestScripts(w, [], fr, resp, info, s1, tick + 1, [] + [], Some(name));
  }
}
