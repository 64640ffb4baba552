/** The collection runner: requests in order, with jumps, bail-out and a step limit. */
module Runner {
  import opened Prelude
  import opened Postman
  import opened Flatten
  import opened Inheritance
  import opened Expansion
  import opened Variables
  import opened Scripts

  const MAX_REQUESTS_PER_ITERATION: nat := 1000
  const CANCELLED := "context canceled"

  datatype Response = Response(code: int, status: string, body: string)

  datatype Info = Info(eventName: string, iteration: nat, iterationCount: int, requestName: string)

  datatype ScriptContext = ScriptContext(visible: View, request: Postman.Request, response: Option<Response>, info: Info)

  datatype Mutations = Mutations(
    globals: Definitions, environment: Definitions, collectionVariables: Definitions,
    nextRequest: Option<string>, skipRequest: bool)

  datatype ScriptResult = ScriptResult(tests: seq<TestResult>, mutations: Mutations)

  /**
   Everything outside the runner. The first argument numbers the calls, so the same
   question may be answered differently each time it is asked.
   */
  datatype World = World(
    script: (nat, string, ScriptContext) -> Result<ScriptResult>,
    http: (nat, Postman.Request, Scopes, Option<Auth>) -> Result<Response>,
    authError: Auth -> Option<string>,
    cancelled: nat -> bool)

  datatype RequestResult = RequestResult(
    name: string, skipped: bool, error: Option<string>, tests: seq<TestResult>,
    response: Option<Response>, nextRequest: Option<string>)

  function FailedResult(name: string, error: string): RequestResult {
    RequestResult(name, false, Some(error), [], None, None)
  }

  /** A skipped request is not a failure. */
  predicate Passed(r: RequestResult) {
    r.skipped || (r.error.None? && forall i :: 0 <= i < |r.tests| ==> r.tests[i].passed)
  }

  datatype Options = Options(
    iterations: int, delayed: bool, folder: string, bail: bool, data: seq<Definitions>, saveResponse: bool,
    globalVars: Definitions, envVars: Definitions, colVars: Definitions)

  // ---------- one request ----------

  /** `Cancelled`: the run was cancelled and nothing is recorded. */
  datatype Outcome = Recorded(result: RequestResult) | Aborted(error: string)

  function Context(s: Scopes, fr: FlatRequest, response: Option<Response>, info: Info): ScriptContext
    requires fr.item.Leaf?
  {
    ScriptContext(Visible(s, s.data), fr.item.request, response, info)
  }

  datatype PreEnd = Proceed | Skip | Fail(error: string)

  /** Pre-request scripts in order; flow directives and tests of these scripts are not looked at. */
  function PreScripts(w: World, scripts: seq<string>, fr: FlatRequest, info: Info, s: Scopes, tick: nat)
    : (PreEnd, Scopes, nat)
    requires fr.item.Leaf?
    decreases |scripts|
  {
    if scripts == [] then (Proceed, s, tick)
    else
      match w.script(tick, scripts[0], Context(s, fr, None, info))
      case Err(e) => (Fail("prerequest script: " + e), s, tick + 1)
      case Ok(res) =>
        var s1 := Replaced(s, res.mutations.globals, res.mutations.environment, res.mutations.collectionVariables);
        if res.mutations.skipRequest then (Skip, s1, tick + 1)
        else PreScripts(w, scripts[1..], fr, info, s1, tick + 1)
  }

  datatype TestEnd = Tested(tests: seq<TestResult>, next: Option<string>) | TestFailed(error: string)

  /** Test scripts in order: their tests add up, the last directive given is the one that counts. */
  function TestScripts(w: World, scripts: seq<string>, fr: FlatRequest, response: Response, info: Info,
                       s: Scopes, tick: nat, tests: seq<TestResult>, next: Option<string>)
    : (TestEnd, Scopes, nat)
    requires fr.item.Leaf?
    decreases |scripts|
  {
    if scripts == [] then (Tested(tests, next), s, tick)
    else
      match w.script(tick, scripts[0], Context(s, fr, Some(response), info))
      case Err(e) => (TestFailed("test script: " + e), s, tick + 1)
      case Ok(res) =>
        var s1 := Replaced(s, res.mutations.globals, res.mutations.environment, res.mutations.collectionVariables);
        TestScripts(w, scripts[1..], fr, response, info, s1, tick + 1, tests + res.tests,
                    if res.mutations.nextRequest.Some? then res.mutations.nextRequest else next)
  }

  function OneRequest(w: World, col: Collection, fr: FlatRequest, s: Scopes, iteration: nat, opts: Options, tick: nat)
    : (Outcome, Scopes, nat)
    requires fr.item.Leaf?
  {
    var info := Info("prerequest", iteration, opts.iterations, fr.name);
    var (end, s1, t1) := PreScripts(w, ScriptsFor(col.events, fr, "prerequest"), fr, info, s, tick);
    match end
    case Fail(e) => (Recorded(FailedResult(fr.name, e)), s1, t1)
    case Skip => (Recorded(RequestResult(fr.name, true, None, [], None, None)), s1, t1)
    case Proceed => SendAndTest(w, col, fr, info, s1, opts, t1)
  }

  /** The second half: auth, the HTTP exchange, and the test scripts if there is a response. */
  function SendAndTest(w: World, col: Collection, fr: FlatRequest, info: Info, s: Scopes, opts: Options, tick: nat)
    : (Outcome, Scopes, nat)
    requires fr.item.Leaf?
  {
    var auth := EffectiveAuth(fr, col.auth);
    if auth.Some? && w.authError(auth.value).Some?
    then (Recorded(FailedResult(fr.name, "auth: " + w.authError(auth.value).value)), s, tick)
    else
      match w.http(tick, fr.item.request, s, auth)
      case Err(e) =>
        (if w.cancelled(tick) then Aborted(CANCELLED) else Recorded(FailedResult(fr.name, e)), s, tick + 1)
      case Ok(resp) =>
        var (tested, s1, t1) := TestScripts(w, ScriptsFor(col.events, fr, "test"), fr, resp,
                                            info.(eventName := "test"), s, tick + 1, [], None);
        match tested
        case TestFailed(e) => (Recorded(FailedResult(fr.name, e)), s1, t1)
        case Tested(tests, next) =>
          (Recorded(RequestResult(fr.name, false, None, tests,
                                  if opts.saveResponse then Some(resp) else None, next)), s1, t1)
  }

  method WriteBack(vars: Resolver, m: Mutations)
    requires vars.Valid()
    modifies vars.scopes
    ensures vars.Valid()
    ensures vars.View() == Replaced(old(vars.View()), m.globals, m.environment, m.collectionVariables)
  {
    var globals := new VarMap(m.globals);
    var environment := new VarMap(m.environment);
    var collection := new VarMap(m.collectionVariables);
    ApplyMutations(vars, globals, environment, collection);
  }

  method TakeSnapshot(vars: Resolver) returns (v: View)
    requires vars.Valid()
    ensures v == Visible(vars.View(), vars.View().data)
  {
    var globals := vars.Snapshot(Scope.Global);
    var environment := vars.Snapshot(Scope.Environment);
    var collection := vars.Snapshot(Scope.Collection);
    var data := vars.Snapshot(Scope.Data);
    v := View(globals.entries, environment.entries, collection.entries, data.entries);
  }

  method RunPreScripts(w: World, scripts: seq<string>, fr: FlatRequest, info: Info, vars: Resolver, tick: nat)
    returns (end: PreEnd, tick': nat)
    requires vars.Valid() && fr.item.Leaf?
    modifies vars.scopes
    ensures vars.Valid()
    ensures (end, vars.View(), tick') == PreScripts(w, scripts, fr, info, old(vars.View()), tick)
  {
    tick' := tick;
    var i := 0;
    while i < |scripts|
      invariant i <= |scripts| && vars.Valid()
      invariant PreScripts(w, scripts[i..], fr, info, vars.View(), tick')
             == PreScripts(w, scripts, fr, info, old(vars.View()), tick)
    {
      assert scripts[i..][0] == scripts[i] && scripts[i..][1..] == scripts[i + 1..];
      var visible := TakeSnapshot(vars);
      var res := w.script(tick', scripts[i], ScriptContext(visible, fr.item.request, None, info));
      tick' := tick' + 1;
      if res.Err? {
        return Fail("prerequest script: " + res.error), tick';
      }
      WriteBack(vars, res.value.mutations);
      if res.value.mutations.skipRequest {
        return Skip, tick';
      }
      i := i + 1;
    }
    end := Proceed;
  }

  method RunTestScripts(w: World, scripts: seq<string>, fr: FlatRequest, response: Response, info: Info,
                        vars: Resolver, tick: nat)
    returns (end: TestEnd, tick': nat)
    requires vars.Valid() && fr.item.Leaf?
    modifies vars.scopes
    ensures vars.Valid()
    ensures (end, vars.View(), tick') == TestScripts(w, scripts, fr, response, info, old(vars.View()), tick, [], None)
  {
    tick' := tick;
    var tests, next := [], None;
    var i := 0;
    while i < |scripts|
      invariant i <= |scripts| && vars.Valid()
      invariant TestScripts(w, scripts[i..], fr, response, info, vars.View(), tick', tests, next)
             == TestScripts(w, scripts, fr, response, info, old(vars.View()), tick, [], None)
    {
      assert scripts[i..][0] == scripts[i] && scripts[i..][1..] == scripts[i + 1..];
      var visible := TakeSnapshot(vars);
      var res := w.script(tick', scripts[i], ScriptContext(visible, fr.item.request, Some(response), info));
      tick' := tick' + 1;
      if res.Err? {
        return TestFailed("test script: " + res.error), tick';
      }
      tests := tests + res.value.tests;
      WriteBack(vars, res.value.mutations);
      if res.value.mutations.nextRequest.Some? {
        next := res.value.mutations.nextRequest;
      }
      i := i + 1;
    }
    end := Tested(tests, next);
  }

  method ScopesOf(vars: Resolver) returns (s: Scopes)
    requires vars.Valid()
    ensures s == vars.View()
  {
    s := Scopes(vars.scopes[0].entries, vars.scopes[1].entries, vars.scopes[2].entries,
                vars.scopes[3].entries, vars.scopes[4].entries);
  }

  method RunRequest(w: World, col: Collection, fr: FlatRequest, vars: Resolver, iteration: nat, opts: Options, tick: nat)
    returns (outcome: Outcome, tick': nat)
    requires vars.Valid() && fr.item.Leaf?
    modifies vars.scopes
    ensures vars.Valid()
    ensures (outcome, vars.View(), tick') == OneRequest(w, col, fr, old(vars.View()), iteration, opts, tick)
  {
    var info := Info("prerequest", iteration, opts.iterations, fr.name);
    var pre := JoinScripts(col.events, fr.folders, fr.item.events, "prerequest");
    var end;
    end, tick' := RunPreScripts(w, pre, fr, info, vars, tick);
    if end.Fail? {
      return Recorded(FailedResult(fr.name, end.error)), tick';
    }
    if end.Skip? {
      return Recorded(RequestResult(fr.name, true, None, [], None, None)), tick';
    }
    outcome, tick' := FinishRequest(w, col, fr, info, vars, opts, tick');
  }

  method FinishRequest(w: World, col: Collection, fr: FlatRequest, info: Info, vars: Resolver, opts: Options, tick: nat)
    returns (outcome: Outcome, tick': nat)
    requires vars.Valid() && fr.item.Leaf?
    modifies vars.scopes
    ensures vars.Valid()
    ensures (outcome, vars.View(), tick') == SendAndTest(w, col, fr, info, old(vars.View()), opts, tick)
  {
    tick' := tick;
    var auth := ResolveAuth(fr, col.auth);
    if auth.Some? {
      var bad := w.authError(auth.value);
      if bad.Some? {
        return Recorded(FailedResult(fr.name, "auth: " + bad.value)), tick';
      }
    }
    var s := ScopesOf(vars);
    var resp := w.http(tick', fr.item.request, s, auth);
    tick' := tick' + 1;
    if resp.Err? {
      return if w.cancelled(tick) then Aborted(CANCELLED) else Recorded(FailedResult(fr.name, resp.error)), tick';
    }
    var test := JoinScripts(col.events, fr.folders, fr.item.events, "test");
    var tested;
    tested, tick' := RunTestScripts(w, test, fr, resp.value, info.(eventName := "test"), vars, tick');
    if tested.TestFailed? {
      return Recorded(FailedResult(fr.name, tested.error)), tick';
    }
    outcome := Recorded(RequestResult(fr.name, false, None, tested.tests,
                                      if opts.saveResponse then Some(resp.value) else None, tested.next));
  }
}
