/** A collection run: iterations with fresh scopes, and the events they produce. */
module Runs {
  import opened Prelude
  import opened Postman
  import opened Flatten
  import opened Expansion
  import opened Variables
  import opened Runner
  import opened Iterations

  // ---------- the scopes an iteration starts from ----------

  /** Later variables win, disabled ones do not count. */
  function CollectionVars(vars: seq<Variable>): Definitions {
    if vars == [] then map[]
    else
      var v := vars[|vars| - 1];
      var before := CollectionVars(vars[..|vars| - 1]);
      if v.disabled then before else before[v.key := v.value]
  }

  function EnvironmentVars(values: seq<EnvironmentValue>): Definitions {
    if values == [] then map[]
    else
      var v := values[|values| - 1];
      var before := EnvironmentVars(values[..|values| - 1]);
      if v.enabled then before[v.key := v.value] else before
  }

  /** Fixed by the collection, the environment, the options and the iteration's number alone. */
  function InitialScopes(col: Postman.Collection, env: Option<Postman.Environment>, opts: Options, iteration: nat): Scopes {
    Scopes(
      map[],
      if iteration < |opts.data| then opts.data[iteration] else map[],
      (if env.Some? then EnvironmentVars(env.value.values) else map[]) + opts.envVars,
      CollectionVars(col.variables) + opts.colVars,
      opts.globalVars)
  }

  /** The last variable of the key that is not disabled. */
  ghost predicate LastVariable(vars: seq<Variable>, key: string, i: nat) {
    && i < |vars| && !vars[i].disabled && vars[i].key == key
    && forall j :: i < j < |vars| && !vars[j].disabled ==> vars[j].key != key
  }

  ghost predicate LastValue(values: seq<EnvironmentValue>, key: string, i: nat) {
    && i < |values| && values[i].enabled && values[i].key == key
    && forall j :: i < j < |values| && values[j].enabled ==> values[j].key != key
  }

  lemma {:induction false} CollectionVarsExactly(vars: seq<Variable>, key: string)
    ensures forall i: nat :: LastVariable(vars, key, i) ==> key in CollectionVars(vars) && CollectionVars(vars)[key] == vars[i].value
    ensures (forall i :: 0 <= i < |vars| && !vars[i].disabled ==> vars[i].key != key) ==> key !in CollectionVars(vars)
  {
    if vars != [] {
      var n, front := |vars| - 1, vars[..|vars| - 1];
      CollectionVarsExactly(front, key);
      forall i: nat | LastVariable(vars, key, i)
        ensures key in CollectionVars(vars) && CollectionVars(vars)[key] == vars[i].value
      {
        if i < n { assert LastVariable(front, key, i); }
      }
    }
  }

  lemma {:induction false} EnvironmentVarsExactly(values: seq<EnvironmentValue>, key: string)
    ensures forall i: nat :: LastValue(values, key, i) ==>
              key in EnvironmentVars(values) && EnvironmentVars(values)[key] == values[i].value
    ensures (forall i :: 0 <= i < |values| && values[i].enabled ==> values[i].key != key) ==> key !in EnvironmentVars(values)
  {
    if values != [] {
      var n, front := |values| - 1, values[..|values| - 1];
      EnvironmentVarsExactly(front, key);
      forall i: nat | LastValue(values, key, i)
        ensures key in EnvironmentVars(values) && EnvironmentVars(values)[key] == values[i].value
      {
        if i < n { assert LastValue(front, key, i); }
      }
    }
  }

  /**
   What an iteration starts from, key by key: what the options give, else the last variable of the
   collection or the environment that counts, else nothing; and the iteration's own data row.
   */
  lemma InitialScopesExactly(col: Postman.Collection, env: Option<Postman.Environment>, opts: Options, iteration: nat, key: string)
    ensures var s := InitialScopes(col, env, opts, iteration);
            && s.local == map[] && s.global == opts.globalVars
            && s.data == (if iteration < |opts.data| then opts.data[iteration] else map[])
            && (key in opts.colVars ==> key in s.collection && s.collection[key] == opts.colVars[key])
            && (key in opts.envVars ==> key in s.environment && s.environment[key] == opts.envVars[key])
            && (key !in opts.colVars ==>
                  && (forall i: nat :: LastVariable(col.variables, key, i) ==>
                        key in s.collection && s.collection[key] == col.variables[i].value)
                  && ((forall i :: 0 <= i < |col.variables| && !col.variables[i].disabled ==> col.variables[i].key != key) ==>
                        key !in s.collection))
            && (key !in opts.envVars ==>
                  && (env.Some? ==> forall i: nat :: LastValue(env.value.values, key, i) ==>
                        key in s.environment && s.environment[key] == env.value.values[i].value)
                  && (env.None? || (forall i :: 0 <= i < |env.value.values| && env.value.values[i].enabled ==>
                                      env.value.values[i].key != key) ==>
                        key !in s.environment))
  {
    CollectionVarsExactly(col.variables, key);
    if env.Some? {
      EnvironmentVarsExactly(env.value.values, key);
    }
  }

  method SetAll(vars: Resolver, scope: Scope, m: Definitions)
    requires vars.Valid()
    modifies vars.scopes[Rank(scope)]
    ensures vars.Valid()
    ensures vars.View() == old(vars.View()).With(scope, old(vars.View()).At(scope) + m)
  {
    var keys := m.Keys;
    ghost var before := vars.View();
    assert m - keys == map[];
    WithTwice(before, scope, before.At(scope), before.At(scope));
    while keys != {}
      invariant vars.Valid() && keys <= m.Keys
      invariant vars.View() == before.With(scope, before.At(scope) + (m - keys))
      decreases keys
    {
      var k :| k in keys;
      ghost var now := before.At(scope) + (m - keys);
      AddOne(before.At(scope), m, keys, k);
      vars.Set(scope, k, m[k]);
      WithTwice(before, scope, now, now[k := m[k]]);
      keys := keys - {k};
    }
    assert m - {} == m;
  }

  lemma AddOne(base: Definitions, m: Definitions, keys: set<string>, k: string)
    requires k in keys && keys <= m.Keys
    ensures (base + (m - keys))[k := m[k]] == base + (m - (keys - {k}))
  {
  }

  lemma WithTwice(s: Scopes, scope: Scope, a: Definitions, b: Definitions)
    ensures s.With(scope, a).With(scope, b) == s.With(scope, b)
    ensures s.With(scope, a).At(scope) == a
    ensures s.With(scope, s.At(scope)) == s
  {
  }

  method BuildVars(col: Postman.Collection, env: Option<Postman.Environment>) returns (vars: Resolver)
    ensures vars.Valid() && fresh(vars.scopes) && forall i :: 0 <= i < 5 ==> fresh(vars.scopes[i])
    ensures vars.View() == EMPTY_SCOPES.(
              collection := CollectionVars(col.variables),
              environment := if env.Some? then EnvironmentVars(env.value.values) else map[])
  {
    vars := new Resolver();
    for i := 0 to |col.variables|
      invariant vars.Valid() && fresh(vars.scopes) && forall j :: 0 <= j < 5 ==> fresh(vars.scopes[j])
      invariant vars.View() == EMPTY_SCOPES.(collection := CollectionVars(col.variables[..i]))
    {
      assert col.variables[..i + 1][..i] == col.variables[..i];
      if !col.variables[i].disabled {
        vars.Set(Scope.Collection, col.variables[i].key, col.variables[i].value);
      }
    }
    assert col.variables[..|col.variables|] == col.variables;
    if env.Some? {
      var values := env.value.values;
      for i := 0 to |values|
        invariant vars.Valid() && fresh(vars.scopes) && forall j :: 0 <= j < 5 ==> fresh(vars.scopes[j])
        invariant vars.View() == EMPTY_SCOPES.(
                    collection := CollectionVars(col.variables), environment := EnvironmentVars(values[..i]))
      {
        assert values[..i + 1][..i] == values[..i];
        if values[i].enabled {
          vars.Set(Scope.Environment, values[i].key, values[i].value);
        }
      }
      assert values[..|values|] == values;
    }
  }

  /** The options' variables on top of the collection's and the environment's. */
  method Override(vars: Resolver, opts: Options)
    requires vars.Valid()
    modifies vars.scopes[4], vars.scopes[2], vars.scopes[3]
    ensures vars.Valid()
    ensures vars.View() == old(vars.View()).(global := old(vars.View()).global + opts.globalVars,
                                             environment := old(vars.View()).environment + opts.envVars,
                                             collection := old(vars.View()).collection + opts.colVars)
  {
    SetAll(vars, Scope.Global, opts.globalVars);
    SetAll(vars, Scope.Environment, opts.envVars);
    SetAll(vars, Scope.Collection, opts.colVars);
  }

  method InitialVars(col: Postman.Collection, env: Option<Postman.Environment>, opts: Options, iteration: nat)
    returns (vars: Resolver)
    ensures vars.Valid() && fresh(vars.scopes)
    ensures vars.View() == InitialScopes(col, env, opts, iteration)
  {
    vars := BuildVars(col, env);
    Override(vars, opts);
    if iteration < |opts.data| {
      SetAll(vars, Scope.Data, opts.data[iteration]);
    }
  }

  // ---------- all iterations ----------

  datatype IterationResult = IterationResult(index: nat, requests: seq<RequestResult>)

  predicate IterationPassed(it: IterationResult) {
    forall i :: 0 <= i < |it.requests| ==> Passed(it.requests[i])
  }

  datatype RunResult = RunResult(name: string, iterations: seq<IterationResult>)

  /** Accumulated by the iterations: results, streaming callbacks, and the error that broke the run off. */
  datatype Progress = Progress(iterations: seq<IterationResult>, calls: seq<(nat, RequestResult)>,
                               tick: nat, error: Option<string>)

  function RunOf(w: World, col: Postman.Collection, flat: seq<FlatRequest>, opts: Options, i: nat): Run {
    Iterations.Run(w, col, flat, i, opts)
  }

  function OneIteration(w: World, col: Postman.Collection, env: Option<Postman.Environment>,
                        flat: seq<FlatRequest>, opts: Options, i: nat, tick: nat): State
    requires AllLeaves(flat)
  {
    Complete(RunOf(w, col, flat, opts, i), Start(InitialScopes(col, env, opts, i), tick))
  }

  function IterateFrom(w: World, col: Postman.Collection, env: Option<Postman.Environment>,
                       flat: seq<FlatRequest>, opts: Options, i: nat, p: Progress): Progress
    requires AllLeaves(flat)
    decreases opts.iterations - i
  {
    if i >= opts.iterations then p
    else
      var end := OneIteration(w, col, env, flat, opts, i, p.tick);
      var calls := p.calls + Calls(i, end.recorded);
      if end.status.Broken? then Progress(p.iterations, calls, end.tick, Some(end.status.error))
      else
        var it := IterationResult(i, end.recorded);
        var next := Progress(p.iterations + [it], calls, end.tick, None);
        if opts.bail && !IterationPassed(it) then next
        else IterateFrom(w, col, env, flat, opts, i + 1, next)
  }

  lemma IterateStep(w: World, col: Postman.Collection, env: Option<Postman.Environment>,
                    flat: seq<FlatRequest>, opts: Options, i: nat, p: Progress)
    requires AllLeaves(flat) && i < opts.iterations
    ensures var end := OneIteration(w, col, env, flat, opts, i, p.tick);
            var calls, it := p.calls + Calls(i, end.recorded), IterationResult(i, end.recorded);
            var next := Progress(p.iterations + [it], calls, end.tick, None);
            IterateFrom(w, col, env, flat, opts, i, p)
            == if end.status.Broken? then Progress(p.iterations, calls, end.tick, Some(end.status.error))
               else if opts.bail && !IterationPassed(it) then next
               else IterateFrom(w, col, env, flat, opts, i + 1, next)
  {
  }

  /** The options as the run uses them: at least one iteration. */
  function Normalised(opts: Options): Options {
    if opts.iterations < 1 then opts.(iterations := 1) else opts
  }

  function SelectedRequests(col: Postman.Collection, opts: Options): seq<FlatRequest> {
    if opts.folder != "" then InFolder(Flattened(col.items, []), opts.folder) else Flattened(col.items, [])
  }

  /** Without a folder the run has all requests; with one, those directly inside a folder of that name, in order. */
  lemma RunSelects(col: Postman.Collection, opts: Options) returns (at: seq<nat>)
    ensures var all, chosen := Flattened(col.items, []), SelectedRequests(col, opts);
            && Picks(all, chosen, at)
            && forall i: nat :: i < |all| ==>
                 (i in at <==> opts.folder == "" || DirectlyIn(all[i], opts.folder))
  {
    var all := Flattened(col.items, []);
    if opts.folder == "" {
      at := seq(|all|, i => i);
      forall i: nat | i < |all| ensures i in at {
        assert at[i] == i;
      }
    } else {
      at := InFolderExactly(all, opts.folder);
    }
  }

  lemma {:induction false} FlattenedLeaves(items: seq<Item>, ancestors: seq<Item>)
    ensures AllLeaves(Flattened(items, ancestors))
    decreases items
  {
    if items != [] {
      FlattenedLeaves(items[1..], ancestors);
      if items[0].Folder? {
        FlattenedLeaves(items[0].items, ancestors + [items[0]]);
      }
    }
  }

  lemma {:induction false} InFolderLeaves(flat: seq<FlatRequest>, name: string)
    requires AllLeaves(flat)
    ensures AllLeaves(InFolder(flat, name))
  {
    if flat != [] {
      InFolderLeaves(flat[..|flat| - 1], name);
    }
  }

  lemma SelectedLeaves(col: Postman.Collection, opts: Options)
    ensures AllLeaves(SelectedRequests(col, opts))
    ensures |SelectedRequests(col, opts)| <= |Flattened(col.items, [])|
  {
    FlattenedLeaves(col.items, []);
    InFolderLeaves(Flattened(col.items, []), opts.folder);
  }

  function WholeRun(w: World, col: Postman.Collection, env: Option<Postman.Environment>, opts: Options, tick: nat): Progress {
    SelectedLeaves(col, opts);
    IterateFrom(w, col, env, SelectedRequests(col, opts), Normalised(opts), 0, Progress([], [], tick, None))
  }

  method RunCollection(w: World, col: Postman.Collection, env: Option<Postman.Environment>, options: Options,
                       observer: Observer, tick: nat)
    returns (r: Result<RunResult>)
    modifies observer
    ensures var p := WholeRun(w, col, env, options, tick);
            && observer.calls == old(observer.calls) + p.calls
            && r == if p.error.Some? then Err(p.error.value) else Ok(RunResult(col.name, p.iterations))
  {
    var opts := if options.iterations < 1 then options.(iterations := 1) else options;
    var nothing := new Item[0];
    var flat := FlattenItems(col.items, Slice(nothing, 0));
    if opts.folder != "" {
      flat := FilterFolder(flat, opts.folder);
    }
    SelectedLeaves(col, options);
    assert flat == SelectedRequests(col, options);
    var iterations, error;
    iterations, error := RunIterations(w, col, env, flat, opts, observer, tick);
    r := if error.Some? then Err(error.value) else Ok(RunResult(col.name, iterations));
  }

  method RunIterations(w: World, col: Postman.Collection, env: Option<Postman.Environment>, flat: seq<FlatRequest>,
                       opts: Options, observer: Observer, tick: nat)
    returns (iterations: seq<IterationResult>, error: Option<string>)
    requires AllLeaves(flat)
    modifies observer
    ensures var p := IterateFrom(w, col, env, flat, opts, 0, Progress([], [], tick, None));
            iterations == p.iterations && error == p.error && observer.calls == old(observer.calls) + p.calls
  {
    iterations := [];
    ghost var calls: seq<(nat, RequestResult)> := [];
    var now, i := tick, 0;
    while i < opts.iterations
      invariant 0 <= i && observer.calls == old(observer.calls) + calls
      invariant IterateFrom(w, col, env, flat, opts, i, Progress(iterations, calls, now, None))
             == IterateFrom(w, col, env, flat, opts, 0, Progress([], [], tick, None))
    {
      var results;
      IterateStep(w, col, env, flat, opts, i, Progress(iterations, calls, now, None));
      results, error, now := RunOne(w, col, env, flat, opts, i, observer, now);
      Associative(old(observer.calls), calls, Calls(i, results));
      calls := calls + Calls(i, results);
      if error.Some? {
        return;
      }
      var it := IterationResult(i, results);
      iterations := iterations + [it];
      if opts.bail {
        var ok := AllPassed(results);
        if !ok {
          return;
        }
      }
      i := i + 1;
    }
    error := None;
  }

  method RunOne(w: World, col: Postman.Collection, env: Option<Postman.Environment>, flat: seq<FlatRequest>,
                opts: Options, i: nat, observer: Observer, tick: nat)
    returns (results: seq<RequestResult>, error: Option<string>, tick': nat)
    requires AllLeaves(flat)
    modifies observer
    ensures var end := OneIteration(w, col, env, flat, opts, i, tick);
            && results == end.recorded && tick' == end.tick
            && error == (if end.status.Broken? then Some(end.status.error) else None)
            && observer.calls == old(observer.calls) + Calls(i, results)
  {
    var vars := InitialVars(col, env, opts, i);
    results, error, tick' := RunIteration(RunOf(w, col, flat, opts, i), vars, observer, tick);
  }

  method AllPassed(results: seq<RequestResult>) returns (ok: bool)
    ensures ok == forall i :: 0 <= i < |results| ==> Passed(results[i])
  {
    for i := 0 to |results|
      invariant forall j :: 0 <= j < i ==> Passed(results[j])
    {
      if !Passed(results[i]) {
        return false;
      }
    }
    ok := true;
  }
}
