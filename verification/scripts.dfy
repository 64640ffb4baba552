/**
 Script execution. The sandbox gives each script copies of the variable scopes and sends
 back what the script left in them; the engine then replaces its scopes by that.

 A script is any finite list of operations, each chosen by looking at everything the
 script can read; this covers every terminating run of an arbitrary script, as far as
 variables and flow control are concerned and as long as the engine can read the answer: a
 directive or a test name that is no string makes the reply unreadable, and is not modelled.
 */
module Scripts {
  import opened Prelude
  import opened Expansion
  import opened Variables

  datatype Store = GlobalStore | EnvironmentStore | CollectionStore

  datatype TestResult = TestResult(name: string, passed: bool, error: string)

  /** What a script can read: the three stores and its own copy of the data row. */
  datatype View = View(
    globals: Definitions, environment: Definitions, collection: Definitions, data: Definitions)
  {
    function At(store: Store): Definitions {
      match store
      case GlobalStore => globals
      case EnvironmentStore => environment
      case CollectionStore => collection
    }

    function With(store: Store, m: Definitions): View {
      match store
      case GlobalStore => this.(globals := m)
      case EnvironmentStore => this.(environment := m)
      case CollectionStore => this.(collection := m)
    }
  }

  /** `SetNextRequest(None)` is a call with null or undefined. */
  datatype Op =
    | SetVar(store: Store, key: string, value: string)
    | UnsetVar(store: Store, key: string)
    | ClearVars(store: Store)
    | VariablesSet(key: string, value: string)
    | UnsetData(key: string)
    | SetNextRequest(name: Option<string>)
    | SkipRequest
    | Test(result: TestResult)

  type Script = seq<View -> Op>

  /** Effects of a script besides its variables. */
  datatype Flow = Flow(nextRequest: Option<string>, skipRequest: bool, tests: seq<TestResult>)

  const NO_FLOW := Flow(None, false, [])

  // ---------- the stores are plain JavaScript objects ----------

  /** The one inherited property that has a setter. */
  const PROTO := "__proto__"

  /** The names of what every plain object inherits. */
  predicate IsInherited(key: string) {
    || key == PROTO || key == "constructor" || key == "hasOwnProperty" || key == "isPrototypeOf"
    || key == "propertyIsEnumerable" || key == "toString" || key == "valueOf" || key == "toLocaleString"
    || key == "__defineGetter__" || key == "__defineSetter__" || key == "__lookupGetter__" || key == "__lookupSetter__"
  }

  /** `store[key] = String(value)`: a string is no prototype, so without a key of that name the setter ignores it. */
  function Put(store: Definitions, key: string, value: string): Definitions {
    if key == PROTO && key !in store then store else store[key := value]
  }

  /** What `store[key]` can yield: nothing, the text stored, or a member that is no variable at all. */
  datatype Read = Undefined | Text(value: string) | Member

  function Look(store: Definitions, key: string): Read {
    if key in store then Text(store[key])
    else if IsInherited(key) then Member
    else Undefined
  }

  // ---------- the reference: one shared set of scopes, changed in place ----------

  function Visible(s: Scopes, data: Definitions): View {
    View(s.global, s.environment, s.collection, data)
  }

  function ScopeOf(store: Store): Scope {
    match store
    case GlobalStore => Global
    case EnvironmentStore => Environment
    case CollectionStore => Collection
  }

  /** One operation on the shared scopes; `data` is the running script's view of the data row. */
  function InPlace(s: Scopes, data: Definitions, flow: Flow, op: Op): (Scopes, Definitions, Flow) {
    match op
    case SetVar(store, k, v) => (s.With(ScopeOf(store), Put(s.At(ScopeOf(store)), k, v)), data, flow)
    case UnsetVar(store, k) => (s.With(ScopeOf(store), s.At(ScopeOf(store)) - {k}), data, flow)
    case ClearVars(store) => (s.With(ScopeOf(store), map[]), data, flow)
    case VariablesSet(k, v) => (s.(collection := Put(s.collection, k, v)), data, flow)
    case UnsetData(k) => (s, data - {k}, flow)
    case SetNextRequest(name) => (s, data, flow.(nextRequest := Some(if name.Some? then name.value else "")))
    case SkipRequest => (s, data, flow.(skipRequest := true))
    case Test(result) => (s, data, flow.(tests := flow.tests + [result]))
  }

  function RunInPlace(script: Script, s: Scopes, data: Definitions, flow: Flow): (Scopes, Definitions, Flow)
    decreases |script|
  {
    if script == [] then (s, data, flow)
    else
      var (s1, data1, flow1) := InPlace(s, data, flow, script[0](Visible(s, data)));
      RunInPlace(script[1..], s1, data1, flow1)
  }

  /** How a request's test scripts end: with their tests and the last directive, or because one could not be run. */
  datatype ThreadEnd = Ended(tests: seq<TestResult>, next: Option<string>) | Failed(error: string)

  /** All scripts of a request one after the other on the same scopes; each starts from the full data row. */
  function RunAllInPlace(scripts: seq<Result<Script>>, s: Scopes, tests: seq<TestResult>, next: Option<string>)
    : (Scopes, ThreadEnd)
    decreases |scripts|
  {
    if scripts == [] then (s, Ended(tests, next))
    else
      match scripts[0]
      case Err(e) => (s, Failed("test script: " + e))
      case Ok(script) =>
        var (s1, _, flow) := RunInPlace(script, s, s.data, NO_FLOW);
        RunAllInPlace(scripts[1..], s1, tests + flow.tests, if flow.nextRequest.Some? then flow.nextRequest else next)
  }

  // ---------- the implementation: copies and replacement ----------

  /** The `pm` object of one script execution. */
  class Pm {
    const globals: VarMap
    const environment: VarMap
    const collectionVariables: VarMap
    var iterationData: Definitions
    var flow: Flow

    ghost predicate Valid() {
      globals != environment && globals != collectionVariables && environment != collectionVariables
    }

    ghost function Seen(): View
      reads this, globals, environment, collectionVariables
    {
      View(globals.entries, environment.entries, collectionVariables.entries, iterationData)
    }

    /** Every store is a copy of what the context holds. */
    constructor (ctxGlobals: VarMap, ctxEnvironment: VarMap, ctxCollection: VarMap, ctxData: VarMap)
      ensures Valid() && fresh(globals) && fresh(environment) && fresh(collectionVariables)
      ensures Seen() == View(ctxGlobals.entries, ctxEnvironment.entries, ctxCollection.entries, ctxData.entries)
      ensures flow == NO_FLOW
    {
      var g := new VarMap(ctxGlobals.entries);
      var e := new VarMap(ctxEnvironment.entries);
      var c := new VarMap(ctxCollection.entries);
      globals := g;
      environment := e;
      collectionVariables := c;
      iterationData := ctxData.entries;
      flow := NO_FLOW;
    }

    function StoreOf(store: Store): VarMap {
      match store
      case GlobalStore => globals
      case EnvironmentStore => environment
      case CollectionStore => collectionVariables
    }

    method Do(op: Op)
      requires Valid()
      modifies this, globals, environment, collectionVariables
      ensures OnCopies(old(Seen()), old(flow), op) == (Seen(), flow)
    {
      match op {
        case SetVar(store, k, v) =>
          var m := StoreOf(store);
          m.entries := Put(m.entries, k, v);
        case UnsetVar(store, k) =>
          var m := StoreOf(store);
          m.entries := m.entries - {k};
        case ClearVars(store) =>
          var m := StoreOf(store);
          m.entries := map[];
        case VariablesSet(k, v) =>
          collectionVariables.entries := Put(collectionVariables.entries, k, v);
        case UnsetData(k) =>
          iterationData := iterationData - {k};
        case SetNextRequest(name) =>
          flow := flow.(nextRequest := Some(if name.Some? then name.value else ""));
        case SkipRequest =>
          flow := flow.(skipRequest := true);
        case Test(result) =>
          flow := flow.(tests := flow.tests + [result]);
      }
    }

    method Run(script: Script)
      requires Valid()
      modifies this, globals, environment, collectionVariables
      ensures (Seen(), flow) == RunSteps(script, old(Seen()), old(flow))
    {
      var i := 0;
      while i < |script|
        invariant i <= |script|
        invariant RunSteps(script[i..], Seen(), flow) == RunSteps(script, old(Seen()), old(flow))
      {
        assert script[i..][0] == script[i] && script[i..][1..] == script[i + 1..];
        var view := View(globals.entries, environment.entries, collectionVariables.entries, iterationData);
        Do(script[i](view));
        i := i + 1;
      }
    }
  }

  /** One operation on a script's own copies. */
  function OnCopies(v: View, flow: Flow, op: Op): (View, Flow) {
    match op
    case SetVar(store, k, x) => (v.With(store, Put(v.At(store), k, x)), flow)
    case UnsetVar(store, k) => (v.With(store, v.At(store) - {k}), flow)
    case ClearVars(store) => (v.With(store, map[]), flow)
    case VariablesSet(k, x) => (v.(collection := Put(v.collection, k, x)), flow)
    case UnsetData(k) => (v.(data := v.data - {k}), flow)
    case SetNextRequest(name) => (v, flow.(nextRequest := Some(if name.Some? then name.value else "")))
    case SkipRequest => (v, flow.(skipRequest := true))
    case Test(result) => (v, flow.(tests := flow.tests + [result]))
  }

  function RunSteps(script: Script, v: View, flow: Flow): (View, Flow)
    decreases |script|
  {
    if script == [] then (v, flow)
    else
      var (v1, flow1) := OnCopies(v, flow, script[0](v));
      RunSteps(script[1..], v1, flow1)
  }

  // ---------- what an operation does, key by key ----------

  function Held(store: Definitions, key: string): Option<string> {
    if key in store then Some(store[key]) else None
  }

  /** The operation is meant for the store; `pm.variables` writes where `pm.collectionVariables` does. */
  predicate Aims(op: Op, store: Store) {
    match op
    case SetVar(st, _, _) => st == store
    case UnsetVar(st, _) => st == store
    case ClearVars(st) => st == store
    case VariablesSet(_, _) => store == CollectionStore
    case _ => false
  }

  /** What a store holds under a key after an operation meant for it. */
  function HeldAfter(before: Definitions, op: Op, key: string): Option<string> {
    match op
    case SetVar(_, k, x) => if key == k && (k != PROTO || k in before) then Some(x) else Held(before, key)
    case VariablesSet(k, x) => if key == k && (k != PROTO || k in before) then Some(x) else Held(before, key)
    case UnsetVar(_, k) => if key == k then None else Held(before, key)
    case ClearVars(_) => None
    case _ => Held(before, key)
  }

  /** One operation changes one key of the one store it is meant for, or clears that store; or the data, or the flow. */
  lemma OpExactly(v: View, flow: Flow, op: Op, key: string)
    ensures var (v', flow') := OnCopies(v, flow, op);
            && Held(v'.globals, key)
               == (if Aims(op, GlobalStore) then HeldAfter(v.globals, op, key) else Held(v.globals, key))
            && Held(v'.environment, key)
               == (if Aims(op, EnvironmentStore) then HeldAfter(v.environment, op, key) else Held(v.environment, key))
            && Held(v'.collection, key)
               == (if Aims(op, CollectionStore) then HeldAfter(v.collection, op, key) else Held(v.collection, key))
            && Held(v'.data, key) == (if op == UnsetData(key) then None else Held(v.data, key))
            && flow'.skipRequest == (flow.skipRequest || op.SkipRequest?)
            && flow'.tests == flow.tests + (if op.Test? then [op.result] else [])
            && flow'.nextRequest == (if op == SetNextRequest(None) then Some("") else
                                     if op.SetNextRequest? then op.name else flow.nextRequest)
  {
  }

  /** A script is its operations one after the other, each chosen from what the ones before have left. */
  lemma {:induction false} RunIsStepwise(script: Script, more: Script, v: View, flow: Flow)
    ensures RunSteps([], v, flow) == (v, flow)
    ensures forall step :: RunSteps([step], v, flow) == OnCopies(v, flow, step(v))
    ensures var (v', flow') := RunSteps(script, v, flow); RunSteps(script + more, v, flow) == RunSteps(more, v', flow')
    decreases |script|
  {
    forall step: View -> Op ensures RunSteps([step], v, flow) == OnCopies(v, flow, step(v)) {
      assert [step][1..] == [];
    }
    if script == [] {
      assert script + more == more;
    } else {
      var (v1, flow1) := OnCopies(v, flow, script[0](v));
      RunIsStepwise(script[1..], more, v1, flow1);
      assert (script + more)[1..] == script[1..] + more;
    }
  }

  /** The scopes after the three replaced ones; the data row and the local scope are not touched. */
  function Replaced(s: Scopes, globals: Definitions, environment: Definitions, collection: Definitions): Scopes {
    s.(global := globals, environment := environment, collection := collection)
  }

  /** What no operation touches. */
  predicate SameOutside(s: Scopes, t: Scopes) {
    s.local == t.local && s.data == t.data
  }

  lemma {:induction false} OpRefines(s: Scopes, data: Definitions, flow: Flow, op: Op)
    ensures var (s1, data1, flow1) := InPlace(s, data, flow, op);
            OnCopies(Visible(s, data), flow, op) == (Visible(s1, data1), flow1) && SameOutside(s, s1)
  {
    match op {
      case SetVar(store, k, v) => StoreIsScope(s, data, store, Put(s.At(ScopeOf(store)), k, v));
      case UnsetVar(store, k) => StoreIsScope(s, data, store, s.At(ScopeOf(store)) - {k});
      case ClearVars(store) => StoreIsScope(s, data, store, map[]);
      case _ =>
    }
  }

  lemma StoreIsScope(s: Scopes, data: Definitions, store: Store, m: Definitions)
    ensures Visible(s, data).At(store) == s.At(ScopeOf(store))
    ensures Visible(s.With(ScopeOf(store), m), data) == Visible(s, data).With(store, m)
    ensures SameOutside(s, s.With(ScopeOf(store), m))
  {
  }

  lemma {:induction false} RunRefines(script: Script, s: Scopes, data: Definitions, flow: Flow)
    ensures var (s1, data1, flow1) := RunInPlace(script, s, data, flow);
            RunSteps(script, Visible(s, data), flow) == (Visible(s1, data1), flow1) && SameOutside(s, s1)
    decreases |script|
  {
    if script != [] {
      var op := script[0](Visible(s, data));
      OpRefines(s, data, flow, op);
      var (s1, data1, flow1) := InPlace(s, data, flow, op);
      RunRefines(script[1..], s1, data1, flow1);
    }
  }

  /** A script run on copies and written back does what it would have done in place. */
  lemma {:induction false} CopiesRefineInPlace(script: Script, s: Scopes, data: Definitions, flow: Flow)
    ensures var (v, f) := RunSteps(script, Visible(s, data), flow);
            RunInPlace(script, s, data, flow) == (Replaced(s, v.globals, v.environment, v.collection), v.data, f)
  {
    RunRefines(script, s, data, flow);
  }

  /** One script of the loop: snapshot, execute, write back. */
  method ExecuteScript(vars: Resolver, script: Script) returns (flow: Flow)
    requires vars.Valid()
    modifies vars.scopes
    ensures vars.Valid()
    ensures (vars.View(), flow) ==
            var r := RunInPlace(script, old(vars.View()), old(vars.View()).data, NO_FLOW); (r.0, r.2)
  {
    ghost var s := vars.View();
    var globals := vars.Snapshot(Global);
    var environment := vars.Snapshot(Environment);
    var collection := vars.Snapshot(Collection);
    var data := vars.Snapshot(Data);
    var pm := new Pm(globals, environment, collection, data);
    pm.Run(script);
    CopiesRefineInPlace(script, s, s.data, NO_FLOW);
    ApplyMutations(vars, pm.globals, pm.environment, pm.collectionVariables);
    flow := pm.flow;
  }

  method ApplyMutations(vars: Resolver, globals: VarMap, environment: VarMap, collection: VarMap)
    requires vars.Valid()
    modifies vars.scopes
    ensures vars.Valid()
    ensures vars.View() == Replaced(old(vars.View()), globals.entries, environment.entries, collection.entries)
  {
    vars.ReplaceScope(Global, globals);
    vars.ReplaceScope(Environment, environment);
    vars.ReplaceScope(Collection, collection);
  }

  /**
   The whole test loop: threading snapshots through the scripts is running them on one shared set
   of scopes, with the tests added up, the last directive kept, and an end at the first failure.
   */
  method ThreadScripts(vars: Resolver, scripts: seq<Result<Script>>) returns (end: ThreadEnd)
    requires vars.Valid()
    modifies vars.scopes
    ensures vars.Valid()
    ensures (vars.View(), end) == RunAllInPlace(scripts, old(vars.View()), [], None)
  {
    var tests, next := [], None;
    var i := 0;
    while i < |scripts|
      invariant i <= |scripts| && vars.Valid()
      invariant RunAllInPlace(scripts[i..], vars.View(), tests, next)
             == RunAllInPlace(scripts, old(vars.View()), [], None)
    {
      assert scripts[i..][0] == scripts[i] && scripts[i..][1..] == scripts[i + 1..];
      if scripts[i].Err? {
        return Failed("test script: " + scripts[i].error);
      }
      var flow := ExecuteScript(vars, scripts[i].value);
      tests := tests + flow.tests;
      if flow.nextRequest.Some? {
        next := flow.nextRequest;
      }
      i := i + 1;
    }
    end := Ended(tests, next);
  }

  /** The loop goes through the scripts one after the other; the first that cannot be run ends it. */
  lemma {:induction false} ThreadIsStepwise(scripts: seq<Result<Script>>, more: seq<Result<Script>>, s: Scopes,
                                            tests: seq<TestResult>, next: Option<string>)
    ensures RunAllInPlace([], s, tests, next) == (s, Ended(tests, next))
    ensures forall e :: RunAllInPlace([Err(e)], s, tests, next) == (s, Failed("test script: " + e))
    ensures forall script ::
              var (s', _, flow) := RunInPlace(script, s, s.data, NO_FLOW);
              RunAllInPlace([Ok(script)], s, tests, next)
              == (s', Ended(tests + flow.tests, if flow.nextRequest == None then next else flow.nextRequest))
    ensures var (s', end) := RunAllInPlace(scripts, s, tests, next);
            RunAllInPlace(scripts + more, s, tests, next)
            == if end.Failed? then (s', end) else RunAllInPlace(more, s', end.tests, end.next)
    decreases |scripts|
  {
    forall script: Script
      ensures var (s', _, flow) := RunInPlace(script, s, s.data, NO_FLOW);
              RunAllInPlace([Ok(script)], s, tests, next)
              == (s', Ended(tests + flow.tests, if flow.nextRequest == None then next else flow.nextRequest))
    {
      assert [Result<Script>.Ok(script)][1..] == [];
    }
    if scripts == [] {
      assert scripts + more == more;
    } else {
      assert (scripts + more)[1..] == scripts[1..] + more;
      if scripts[0].Ok? {
        var (s1, _, flow) := RunInPlace(scripts[0].value, s, s.data, NO_FLOW);
        ThreadIsStepwise(scripts[1..], more, s1, tests + flow.tests, if flow.nextRequest.Some? then flow.nextRequest else next);
      }
    }
  }

  // ---------- consequences ----------

  /** Whatever the scripts do, a key of the data row resolves to its row value. */
  lemma {:induction false} DataRowWins(scripts: seq<Result<Script>>, s: Scopes, tests: seq<TestResult>,
                                       next: Option<string>, key: string)
    requires s.local == map[] && key in s.data
    ensures var after := RunAllInPlace(scripts, s, tests, next).0;
            && after.data == s.data && after.local == map[]
            && key in after.Effective() && after.Effective()[key] == s.data[key]
    decreases |scripts|
  {
    if scripts != [] && scripts[0].Ok? {
      RunRefines(scripts[0].value, s, s.data, NO_FLOW);
      var (s1, _, flow) := RunInPlace(scripts[0].value, s, s.data, NO_FLOW);
      DataRowWins(scripts[1..], s1, tests + flow.tests, if flow.nextRequest.Some? then flow.nextRequest else next, key);
    }
  }

  /** `pm.variables.get`: the first of data row, environment, collection and globals that yields anything. */
  function VariablesGet(v: View, key: string): Read {
    if !Look(v.data, key).Undefined? then Look(v.data, key)
    else if !Look(v.environment, key).Undefined? then Look(v.environment, key)
    else if !Look(v.collection, key).Undefined? then Look(v.collection, key)
    else Look(v.globals, key)
  }

  function EngineValue(s: Scopes, key: string): Read {
    if key in s.Effective() then Text(s.Effective()[key]) else Undefined
  }

  /**
   A script and the engine agree on a variable exactly when its name is none of those every
   object inherits, or the data row defines it: the inherited member hides all other scopes.
   */
  lemma ScriptSeesEngineValueIff(s: Scopes, key: string)
    requires s.local == map[]
    ensures VariablesGet(Visible(s, s.data), key) == EngineValue(s, key)
       <==> !IsInherited(key) || key in s.data
  {
  }

  /**
   `pm.variables.set` writes the collection scope, so the value it sets is the one found later
   exactly when no higher scope holds another; for the name of the prototype setter, which stores
   nothing unless the key is there already, also when the globals happen to hold that value.
   */
  lemma SetVisibleIff(s: Scopes, key: string, value: string)
    requires s.local == map[]
    ensures var after := InPlace(s, s.data, NO_FLOW, VariablesSet(key, value)).0;
            EngineValue(after, key) == Text(value)
            <==> if key in s.data then s.data[key] == value
                 else if key in s.environment then s.environment[key] == value
                 else key != PROTO || key in s.collection || (key in s.global && s.global[key] == value)
  {
  }

  /**
   What a later script reads is the value set exactly when the data row and the environment hold no
   other and the name is none that every object inherits: such a name yields the inherited member of
   the data row, whatever the other scopes hold.
   */
  lemma SetVisibleToScriptsIff(s: Scopes, key: string, value: string)
    ensures var after := InPlace(s, s.data, NO_FLOW, VariablesSet(key, value)).0;
            VariablesGet(Visible(after, after.data), key) == Text(value)
            <==> if key in s.data then s.data[key] == value
                 else !IsInherited(key) && (key in s.environment ==> s.environment[key] == value)
  {
  }

  /** An inherited name that nothing defines: the engine finds what was set, later scripts do not. */
  lemma InheritedNameHidesFromScripts(s: Scopes, value: string)
    requires s.local == map[] && "constructor" !in s.data && "constructor" !in s.environment
    ensures var after := InPlace(s, s.data, NO_FLOW, VariablesSet("constructor", value)).0;
            && EngineValue(after, "constructor") == Text(value)
            && VariablesGet(Visible(after, after.data), "constructor") == Member
  {
    assert |PROTO| == 9 && |"constructor"| == 11;
    SetVisibleIff(s, "constructor", value);
  }

  /** The setter's name, unused so far: the set is lost, though nothing hides the key. */
  lemma ProtoIsNotStored(s: Scopes, value: string)
    requires PROTO !in s.collection
    ensures InPlace(s, s.data, NO_FLOW, VariablesSet(PROTO, value)).0 == s
  {
  }
}
