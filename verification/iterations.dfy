/**
 Iterations and whole runs. One iteration is a small-step machine over request positions;
 `runIteration`'s loop is that machine, and its properties are proved for every world.
 */
module Iterations {
  import opened Prelude
  import opened Postman
  import opened Flatten
  import opened Inheritance
  import opened Variables
  import opened Runner

  // ---------- where to go next ----------

  predicate AllLeaves(flat: seq<FlatRequest>) {
    forall i :: 0 <= i < |flat| ==> flat[i].item.Leaf?
  }

  /** The first request with the given name, if any. */
  function FirstNamed(flat: seq<FlatRequest>, name: string): (r: Option<nat>)
    ensures r.Some? ==> r.value < |flat| && flat[r.value].name == name
                        && forall j :: 0 <= j < r.value ==> flat[j].name != name
    ensures r.None? ==> forall j :: 0 <= j < |flat| ==> flat[j].name != name
  {
    if flat == [] then None
    else
      var before := FirstNamed(flat[..|flat| - 1], name);
      if before.Some? then before
      else if flat[|flat| - 1].name == name then Some(|flat| - 1)
      else None
  }

  /** -1 when no request has the name. */
  method FindRequest(flat: seq<FlatRequest>, name: string) returns (r: int)
    ensures r == if FirstNamed(flat, name).Some? then FirstNamed(flat, name).value else -1
  {
    for i := 0 to |flat|
      invariant forall j :: 0 <= j < i ==> flat[j].name != name
    {
      if flat[i].name == name {
        return i;
      }
    }
    return -1;
  }

  /** The position after request `i` answered `r`: the next one, or the first with the name asked for. */
  function Follow(flat: seq<FlatRequest>, i: nat, r: RequestResult): nat {
    if r.nextRequest.None? then i + 1
    else
      var target := FirstNamed(flat, r.nextRequest.value);
      if target.Some? then target.value else i + 1
  }

  /** An empty name is the directive to stop. */
  predicate Stops(r: RequestResult) {
    r.nextRequest == Some("")
  }

  predicate EndsIteration(r: RequestResult, bail: bool) {
    (bail && !Passed(r)) || Stops(r)
  }

  // ---------- the machine ----------

  datatype Status = Running | Finished | Broken(error: string)

  /** `path` lists the positions of the recorded requests. */
  datatype State = State(
    i: nat, recorded: seq<RequestResult>, path: seq<nat>, scopes: Scopes, tick: nat, status: Status)

  datatype Run = Run(w: World, col: Collection, flat: seq<FlatRequest>, iteration: nat, opts: Options)

  const TOO_MANY := "runner: exceeded 1000 requests per iteration (setNextRequest loop?)"

  function Start(scopes: Scopes, tick: nat): State {
    State(0, [], [], scopes, tick, Running)
  }

  function StepOnce(run: Run, st: State): State
    requires AllLeaves(run.flat) && st.status.Running?
  {
    if st.i >= |run.flat| then st.(status := Finished)
    else if |st.recorded| >= MAX_REQUESTS_PER_ITERATION then st.(status := Broken(TOO_MANY))
    else if run.opts.delayed && st.recorded != [] && run.w.cancelled(st.tick)
    then st.(status := Broken(CANCELLED), tick := st.tick + 1)
    else
      var t := if run.opts.delayed && st.recorded != [] then st.tick + 1 else st.tick;
      Absorb(run, st, OneRequest(run.w, run.col, run.flat[st.i], st.scopes, run.iteration, run.opts, t))
  }

  function Absorb(run: Run, st: State, answer: (Outcome, Scopes, nat)): State {
    match answer.0
    case Aborted(e) => st.(scopes := answer.1, tick := answer.2, status := Broken(e))
    case Recorded(r) => Advanced(run, st, r, answer.1, answer.2)
  }

  /** The state after request `st.i` answered `r`. */
  function Advanced(run: Run, st: State, r: RequestResult, scopes: Scopes, tick: nat): State {
    if EndsIteration(r, run.opts.bail)
    then State(st.i, st.recorded + [r], st.path + [st.i], scopes, tick, Finished)
    else State(Follow(run.flat, st.i, r), st.recorded + [r], st.path + [st.i], scopes, tick, Running)
  }

  /** The machine run until it stops. */
  function Complete(run: Run, st: State): State
    requires AllLeaves(run.flat) && |st.recorded| <= MAX_REQUESTS_PER_ITERATION
    decreases if st.status.Running? then MAX_REQUESTS_PER_ITERATION + 1 - |st.recorded| else 0
  {
    if st.status.Running? then Complete(run, StepOnce(run, st)) else st
  }

  lemma CompleteStep(run: Run, st: State)
    requires AllLeaves(run.flat) && |st.recorded| <= MAX_REQUESTS_PER_ITERATION && st.status.Running?
    ensures Complete(run, st) == Complete(run, StepOnce(run, st))
  {
  }

  /** A step that records a request, and the end of the run if it was the last. */
  lemma RecordedStep(run: Run, st: State, r: RequestResult, scopes: Scopes, tick: nat)
    requires AllLeaves(run.flat) && |st.recorded| < MAX_REQUESTS_PER_ITERATION && st.status.Running?
    requires StepOnce(run, st) == Absorb(run, st, (Recorded(r), scopes, tick))
    ensures var next := Advanced(run, st, r, scopes, tick);
            Complete(run, st) == if EndsIteration(r, run.opts.bail) then next else Complete(run, next)
  {
    CompleteStep(run, st);
  }

  /** Records the streaming callback's calls. */
  class Observer {
    var calls: seq<(nat, RequestResult)>

    constructor ()
      ensures calls == []
    {
      calls := [];
    }
  }

  function Calls(iteration: nat, results: seq<RequestResult>): seq<(nat, RequestResult)> {
    seq(|results|, k requires 0 <= k < |results| => (iteration, results[k]))
  }

  /** The head of the loop body: the delay before every request but the first, then the request. */
  method DelayAndRun(run: Run, vars: Resolver, ghost st: State, i: nat, execCount: nat, tick: nat)
    returns (outcome: Outcome, tick': nat)
    requires vars.Valid() && AllLeaves(run.flat) && i < |run.flat| && execCount < MAX_REQUESTS_PER_ITERATION
    requires st.status.Running? && st.i == i && |st.recorded| == execCount && st.scopes == vars.View() && st.tick == tick
    modifies vars.scopes
    ensures vars.Valid()
    ensures StepOnce(run, st) == Absorb(run, st, (outcome, vars.View(), tick'))
  {
    tick' := tick;
    if run.opts.delayed && execCount > 0 {
      tick' := tick' + 1;
      if run.w.cancelled(tick) {
        return Aborted(CANCELLED), tick';
      }
    }
    outcome, tick' := RunRequest(run.w, run.col, run.flat[i], vars, run.iteration, run.opts, tick');
  }

  /** Appends the result and tells the observer. */
  method Record(iteration: nat, results: seq<RequestResult>, r: RequestResult, observer: Observer,
                ghost before: seq<(nat, RequestResult)>)
    returns (results': seq<RequestResult>)
    requires observer.calls == before + Calls(iteration, results)
    modifies observer
    ensures results' == results + [r]
    ensures observer.calls == before + Calls(iteration, results')
  {
    assert Calls(iteration, results + [r]) == Calls(iteration, results) + [(iteration, r)];
    Associative(before, Calls(iteration, results), [(iteration, r)]);
    results' := results + [r];
    observer.calls := observer.calls + [(iteration, r)];
  }

  /** The flow-control switch, for a request that does not end the iteration. */
  method NextIndex(flat: seq<FlatRequest>, i: nat, r: RequestResult) returns (next: nat)
    requires !Stops(r)
    ensures next == Follow(flat, i, r)
  {
    if r.nextRequest.None? {
      return i + 1;
    }
    var j := FindRequest(flat, r.nextRequest.value);
    next := if j < 0 then i + 1 else j;
  }

  method RunIteration(run: Run, vars: Resolver, observer: Observer, tick: nat)
    returns (results: seq<RequestResult>, error: Option<string>, tick': nat)
    requires vars.Valid() && AllLeaves(run.flat)
    modifies vars.scopes, observer
    ensures vars.Valid()
    ensures var end := Complete(run, Start(old(vars.View()), tick));
            && results == end.recorded && tick' == end.tick && vars.View() == end.scopes
            && error == (if end.status.Broken? then Some(end.status.error) else None)
            && observer.calls == old(observer.calls) + Calls(run.iteration, results)
  {
    results := [];
    tick' := tick;
    var execCount, i := 0, 0;
    ghost var path: seq<nat> := [];
    while i < |run.flat|
      invariant vars.Valid() && execCount == |results| <= MAX_REQUESTS_PER_ITERATION && 0 <= i
      invariant observer.calls == old(observer.calls) + Calls(run.iteration, results)
      invariant Complete(run, State(i, results, path, vars.View(), tick', Running))
             == Complete(run, Start(old(vars.View()), tick))
      decreases MAX_REQUESTS_PER_ITERATION - execCount
    {
      ghost var st := State(i, results, path, vars.View(), tick', Running);
      CompleteStep(run, st);
      if execCount >= MAX_REQUESTS_PER_ITERATION {
        return results, Some(TOO_MANY), tick';
      }
      var outcome;
      outcome, tick' := DelayAndRun(run, vars, st, i, execCount, tick');
      execCount := execCount + 1;
      if outcome.Aborted? {
        return results, Some(outcome.error), tick';
      }
      var r := outcome.result;
      RecordedStep(run, st, r, vars.View(), tick');
      results := Record(run.iteration, results, r, observer, old(observer.calls));
      path := path + [i];
      if run.opts.bail && !Passed(r) {
        return results, None, tick';
      }
      if r.nextRequest == Some("") {
        return results, None, tick';
      }
      i := NextIndex(run.flat, i, r);
    }
    error := None;
  }

  // ---------- the path through the requests ----------

  /** Request `i` leads to `j`: to the first with the name asked for if there is one, to the next one otherwise. */
  ghost predicate Leads(flat: seq<FlatRequest>, i: nat, directive: Option<string>, j: nat) {
    if directive.Some? && (exists k :: 0 <= k < |flat| && flat[k].name == directive.value) then
      && j < |flat| && flat[j].name == directive.value
      && forall k :: 0 <= k < j ==> flat[k].name != directive.value
    else j == i + 1
  }

  lemma FollowLeads(flat: seq<FlatRequest>, i: nat, r: RequestResult, j: nat)
    ensures Leads(flat, i, r.nextRequest, j) <==> j == Follow(flat, i, r)
  {
    if r.nextRequest.Some? {
      var first := FirstNamed(flat, r.nextRequest.value);
      if first.Some? && Leads(flat, i, r.nextRequest, j) {
        assert !(j < first.value) && !(first.value < j);
      }
    }
  }

  /** The recorded requests are those at the positions of the path, each of which leads to the next. */
  ghost predicate OnPath(flat: seq<FlatRequest>, recorded: seq<RequestResult>, path: seq<nat>) {
    && |path| == |recorded|
    && (path != [] ==> path[0] == 0)
    && (forall k :: 0 <= k < |path| ==> path[k] < |flat| && recorded[k].name == flat[path[k]].name)
    && (forall k :: 0 <= k < |path| - 1 ==> Leads(flat, path[k], recorded[k].nextRequest, path[k + 1]))
  }

  /** The last request leads off the end of the list. */
  ghost predicate RunsOut(flat: seq<FlatRequest>, recorded: seq<RequestResult>, path: seq<nat>)
    requires |path| == |recorded|
  {
    if path == [] then flat == []
    else Leads(flat, path[|path| - 1], recorded[|recorded| - 1].nextRequest, |flat|)
  }

  /** Only the last recorded request may end the iteration. */
  ghost predicate OnlyLastEnds(recorded: seq<RequestResult>, bail: bool) {
    forall k :: 0 <= k < |recorded| - 1 ==> !EndsIteration(recorded[k], bail)
  }

  /** Where the path leads after its last request. */
  function After(flat: seq<FlatRequest>, recorded: seq<RequestResult>, path: seq<nat>): nat
    requires |path| == |recorded|
  {
    if path == [] then 0 else Follow(flat, path[|path| - 1], recorded[|recorded| - 1])
  }

  lemma RunsOutIff(flat: seq<FlatRequest>, recorded: seq<RequestResult>, path: seq<nat>)
    requires OnPath(flat, recorded, path)
    ensures RunsOut(flat, recorded, path) <==> After(flat, recorded, path) >= |flat|
  {
    if path != [] {
      FollowLeads(flat, path[|path| - 1], recorded[|recorded| - 1], |flat|);
    }
  }

  ghost predicate Sound(run: Run, st: State) {
    && |st.recorded| <= MAX_REQUESTS_PER_ITERATION
    && OnPath(run.flat, st.recorded, st.path)
    && OnlyLastEnds(st.recorded, run.opts.bail)
    && (match st.status
        case Running =>
          && st.i == After(run.flat, st.recorded, st.path)
          && (st.recorded != [] ==> !EndsIteration(st.recorded[|st.recorded| - 1], run.opts.bail))
        case Finished =>
          || (st.recorded != [] && EndsIteration(st.recorded[|st.recorded| - 1], run.opts.bail))
          || After(run.flat, st.recorded, st.path) >= |run.flat|
        case Broken(e) =>
          && After(run.flat, st.recorded, st.path) < |run.flat|
          && (st.recorded != [] ==> !EndsIteration(st.recorded[|st.recorded| - 1], run.opts.bail))
          && ((e == TOO_MANY && |st.recorded| == MAX_REQUESTS_PER_ITERATION) || exists t :: run.w.cancelled(t)))
  }

  lemma AbortMeansCancelled(w: World, col: Collection, fr: FlatRequest, s: Scopes, iteration: nat, opts: Options, tick: nat)
    requires fr.item.Leaf?
    ensures OneRequest(w, col, fr, s, iteration, opts, tick).0.Aborted? ==> exists t :: w.cancelled(t)
  {
    if OneRequest(w, col, fr, s, iteration, opts, tick).0.Aborted? {
      var info := Info("prerequest", iteration, opts.iterations, fr.name);
      var t := PreScripts(w, ScriptsFor(col.events, fr, "prerequest"), fr, info, s, tick).2;
      assert w.cancelled(t);
    }
  }

  lemma RecordsName(w: World, col: Collection, fr: FlatRequest, s: Scopes, iteration: nat, opts: Options, tick: nat)
    requires fr.item.Leaf?
    ensures var outcome := OneRequest(w, col, fr, s, iteration, opts, tick).0;
            outcome.Recorded? ==> outcome.result.name == fr.name
  {
  }

  lemma StepSound(run: Run, st: State)
    requires AllLeaves(run.flat) && Sound(run, st) && st.status.Running?
    ensures Sound(run, StepOnce(run, st))
  {
    if !Halts(run, st) {
      var t := if run.opts.delayed && st.recorded != [] then st.tick + 1 else st.tick;
      AbortMeansCancelled(run.w, run.col, run.flat[st.i], st.scopes, run.iteration, run.opts, t);
      var answer := OneRequest(run.w, run.col, run.flat[st.i], st.scopes, run.iteration, run.opts, t);
      RecordsName(run.w, run.col, run.flat[st.i], st.scopes, run.iteration, run.opts, t);
      AbsorbSound(run, st, answer);
      StepIsAbsorb(run, st, answer);
    }
  }

  /** The next step sends no request. */
  predicate Halts(run: Run, st: State) {
    || st.i >= |run.flat| || |st.recorded| >= MAX_REQUESTS_PER_ITERATION
    || (run.opts.delayed && st.recorded != [] && run.w.cancelled(st.tick))
  }

  lemma StepIsAbsorb(run: Run, st: State, answer: (Outcome, Scopes, nat))
    requires AllLeaves(run.flat) && st.status.Running? && !Halts(run, st)
    requires answer == OneRequest(run.w, run.col, run.flat[st.i], st.scopes, run.iteration, run.opts,
                                  if run.opts.delayed && st.recorded != [] then st.tick + 1 else st.tick)
    ensures StepOnce(run, st) == Absorb(run, st, answer)
  {
  }

  lemma AbsorbSound(run: Run, st: State, answer: (Outcome, Scopes, nat))
    requires Sound(run, st) && st.status.Running?
    requires st.i < |run.flat| && |st.recorded| < MAX_REQUESTS_PER_ITERATION
    requires answer.0.Aborted? ==> exists t :: run.w.cancelled(t)
    requires answer.0.Recorded? ==> answer.0.result.name == run.flat[st.i].name
    ensures Sound(run, Absorb(run, st, answer))
  {
    if answer.0.Recorded? {
      AdvanceSound(run, st, answer.0.result, answer.1, answer.2);
    }
  }

  /** One more request on the path, which had not ended. */
  lemma AdvanceSound(run: Run, st: State, r: RequestResult, scopes: Scopes, tick: nat)
    requires Sound(run, st) && st.status.Running?
    requires st.i < |run.flat| && |st.recorded| < MAX_REQUESTS_PER_ITERATION && r.name == run.flat[st.i].name
    ensures Sound(run, Advanced(run, st, r, scopes, tick))
  {
    var recorded, path := st.recorded + [r], st.path + [st.i];
    OnPathSnoc(run.flat, st.recorded, st.path, r);
    forall k | 0 <= k < |recorded| - 1 ensures !EndsIteration(recorded[k], run.opts.bail) {
      assert recorded[k] == st.recorded[k];
    }
    assert After(run.flat, recorded, path) == Follow(run.flat, st.i, r);
  }

  lemma OnPathSnoc(flat: seq<FlatRequest>, recorded: seq<RequestResult>, path: seq<nat>, r: RequestResult)
    requires OnPath(flat, recorded, path) && After(flat, recorded, path) < |flat|
    requires r.name == flat[After(flat, recorded, path)].name
    ensures OnPath(flat, recorded + [r], path + [After(flat, recorded, path)])
  {
    var recorded', path' := recorded + [r], path + [After(flat, recorded, path)];
    forall k | 0 <= k < |path'| - 1 ensures Leads(flat, path'[k], recorded'[k].nextRequest, path'[k + 1]) {
      if k < |path| - 1 {
        assert Leads(flat, path[k], recorded[k].nextRequest, path[k + 1]);
      } else {
        FollowLeads(flat, path[k], recorded[k], path'[k + 1]);
      }
    }
  }

  lemma {:induction false} CompleteSound(run: Run, st: State)
    requires AllLeaves(run.flat) && Sound(run, st)
    ensures Sound(run, Complete(run, st)) && !Complete(run, st).status.Running?
    decreases if st.status.Running? then MAX_REQUESTS_PER_ITERATION + 1 - |st.recorded| else 0
  {
    if st.status.Running? {
      StepSound(run, st);
      CompleteSound(run, StepOnce(run, st));
    }
  }

  /**
   Every iteration, in every world: at most 1000 requests, exactly the path the requests'
   directives describe, ended only by its last request, by running off the end of the list,
   by the step limit, or by cancellation.
   */
  lemma IterationFollowsPath(run: Run, scopes: Scopes, tick: nat)
    requires AllLeaves(run.flat)
    ensures FollowsDirectives(run, Complete(run, Start(scopes, tick)))
  {
    var end := Complete(run, Start(scopes, tick));
    CompleteSound(run, Start(scopes, tick));
    RunsOutIff(run.flat, end.recorded, end.path);
    SoundFollows(run, end);
  }

  ghost predicate FollowsDirectives(run: Run, end: State) {
    var n := |end.recorded|;
    && n <= MAX_REQUESTS_PER_ITERATION
    && OnPath(run.flat, end.recorded, end.path)
    && (forall k :: 0 <= k < n - 1 ==>
          end.recorded[k].nextRequest != Some("") && (run.opts.bail ==> Passed(end.recorded[k])))
    && (end.status.Finished? <==>
          || (n > 0 && end.recorded[n - 1].nextRequest == Some(""))
          || (n > 0 && run.opts.bail && !Passed(end.recorded[n - 1]))
          || RunsOut(run.flat, end.recorded, end.path))
    && (end.status.Broken? && (forall t :: !run.w.cancelled(t)) ==>
          end.status.error == TOO_MANY && n == MAX_REQUESTS_PER_ITERATION)
  }

  lemma SoundFollows(run: Run, end: State)
    requires Sound(run, end) && !end.status.Running?
    requires RunsOut(run.flat, end.recorded, end.path) <==> After(run.flat, end.recorded, end.path) >= |run.flat|
    ensures FollowsDirectives(run, end)
  {
    forall k | 0 <= k < |end.recorded| - 1
      ensures end.recorded[k].nextRequest != Some("") && (run.opts.bail ==> Passed(end.recorded[k]))
    {
      assert !EndsIteration(end.recorded[k], run.opts.bail);
    }
  }

  /** No request asked for another one or for the end. */
  predicate NoDirectives(recorded: seq<RequestResult>) {
    forall k :: 0 <= k < |recorded| ==> recorded[k].nextRequest.None?
  }

  predicate AllPass(recorded: seq<RequestResult>) {
    forall k :: 0 <= k < |recorded| ==> Passed(recorded[k])
  }

  /** Without directives the requests run in order, each once, all of them unless one fails under bail. */
  lemma PlainIterationIsInOrder(run: Run, scopes: Scopes, tick: nat)
    requires AllLeaves(run.flat) && NoDirectives(Complete(run, Start(scopes, tick)).recorded)
    ensures var end := Complete(run, Start(scopes, tick));
            && |end.path| == |end.recorded| <= |run.flat|
            && (forall k :: 0 <= k < |end.path| ==> end.path[k] == k)
            && (end.status.Finished? && (run.opts.bail ==> AllPass(end.recorded)) ==> |end.path| == |run.flat|)
  {
    IterationFollowsPath(run, scopes, tick);
    PlainEnd(run, Complete(run, Start(scopes, tick)));
  }

  lemma PlainEnd(run: Run, end: State)
    requires FollowsDirectives(run, end) && NoDirectives(end.recorded)
    ensures |end.path| == |end.recorded| <= |run.flat| && forall k :: 0 <= k < |end.path| ==> end.path[k] == k
    ensures end.status.Finished? && (run.opts.bail ==> AllPass(end.recorded)) ==> |end.path| == |run.flat|
  {
    forall k: nat | k < |end.path| ensures end.path[k] == k {
      PlainPath(run.flat, end.recorded, end.path, k);
    }
    if end.path != [] {
      assert end.path[|end.path| - 1] == |end.path| - 1;
    }
  }

  lemma {:induction false} PlainPath(flat: seq<FlatRequest>, recorded: seq<RequestResult>, path: seq<nat>, k: nat)
    requires OnPath(flat, recorded, path) && k < |path| && NoDirectives(recorded)
    ensures path[k] == k
    decreases k
  {
    if k > 0 {
      var j := k - 1;
      PlainPath(flat, recorded, path, j);
      assert Leads(flat, path[j], recorded[j].nextRequest, path[j + 1]);
    }
  }

  // ---------- what runs where ----------

  /** The time at which request number `k` starts: waiting for the delay takes one question. */
  function Begins(run: Run, k: nat, tick: nat): nat {
    if run.opts.delayed && k > 0 then tick + 1 else tick
  }

  /** Result number `k` is that of the request at `path[k]` in the scopes and at the time the one before it left. */
  ghost predicate ThreadAt(run: Run, recorded: seq<RequestResult>, path: seq<nat>, ss: seq<Scopes>, ts: seq<nat>, k: nat)
    requires AllLeaves(run.flat) && |path| == |recorded| && |ss| == |ts| == |recorded| + 1 && k < |recorded|
  {
    && path[k] < |run.flat|
    && (run.opts.delayed && k > 0 ==> !run.w.cancelled(ts[k]))
    && OneRequest(run.w, run.col, run.flat[path[k]], ss[k], run.iteration, run.opts, Begins(run, k, ts[k]))
       == (Recorded(recorded[k]), ss[k + 1], ts[k + 1])
  }

  ghost predicate Threads(run: Run, recorded: seq<RequestResult>, path: seq<nat>, ss: seq<Scopes>, ts: seq<nat>)
    requires AllLeaves(run.flat)
  {
    && |path| == |recorded| && |ss| == |ts| == |recorded| + 1
    && forall k :: 0 <= k < |recorded| ==> ThreadAt(run, recorded, path, ss, ts, k)
  }

  /** What broke the iteration off, after all that was recorded. */
  ghost predicate BrokenBy(run: Run, end: State, s: Scopes, t: nat)
    requires AllLeaves(run.flat) && |end.path| == |end.recorded| && end.status.Broken?
  {
    var n, next := |end.recorded|, After(run.flat, end.recorded, end.path);
    || (n == MAX_REQUESTS_PER_ITERATION && end.status.error == TOO_MANY && end.scopes == s && end.tick == t)
    || (run.opts.delayed && n > 0 && run.w.cancelled(t) && end.status.error == CANCELLED && end.scopes == s
        && end.tick == t + 1)
    || (next < |run.flat|
        && OneRequest(run.w, run.col, run.flat[next], s, run.iteration, run.opts, Begins(run, n, t))
           == (Aborted(end.status.error), end.scopes, end.tick))
  }

  ghost predicate Traced(run: Run, st: State, ss: seq<Scopes>, ts: seq<nat>)
    requires AllLeaves(run.flat)
  {
    && Threads(run, st.recorded, st.path, ss, ts)
    && if st.status.Broken? then BrokenBy(run, st, ss[|ss| - 1], ts[|ts| - 1])
       else st.scopes == ss[|ss| - 1] && st.tick == ts[|ts| - 1]
  }

  /**
   Each result of an iteration is what its request gives in the scopes the request before it left,
   the first one in those the iteration starts with; and the iteration leaves the last one's scopes,
   if it is not broken off.
   */
  lemma IterationThreadsScopes(run: Run, scopes: Scopes, tick: nat) returns (ss: seq<Scopes>, ts: seq<nat>)
    requires AllLeaves(run.flat)
    ensures Traced(run, Complete(run, Start(scopes, tick)), ss, ts) && ss[0] == scopes && ts[0] == tick
  {
    CompleteSound(run, Start(scopes, tick));
    ss, ts := CompleteTraced(run, Start(scopes, tick), [scopes], [tick]);
  }

  lemma {:induction false} CompleteTraced(run: Run, st: State, before: seq<Scopes>, times: seq<nat>)
    returns (ss: seq<Scopes>, ts: seq<nat>)
    requires AllLeaves(run.flat) && Sound(run, st) && Traced(run, st, before, times)
    ensures Traced(run, Complete(run, st), ss, ts) && ss[0] == before[0] && ts[0] == times[0]
    decreases if st.status.Running? then MAX_REQUESTS_PER_ITERATION + 1 - |st.recorded| else 0
  {
    ss, ts := before, times;
    if st.status.Running? {
      StepSound(run, st);
      ss, ts := StepTraced(run, st, before, times);
      ss, ts := CompleteTraced(run, StepOnce(run, st), ss, ts);
    }
  }

  lemma StepTraced(run: Run, st: State, before: seq<Scopes>, times: seq<nat>)
    returns (ss: seq<Scopes>, ts: seq<nat>)
    requires AllLeaves(run.flat) && Sound(run, st) && st.status.Running? && Traced(run, st, before, times)
    ensures Traced(run, StepOnce(run, st), ss, ts) && ss[0] == before[0] && ts[0] == times[0]
  {
    ss, ts := before, times;
    if Halts(run, st) {
      HaltTraced(run, st, before, times);
    } else {
      var t := Begins(run, |st.recorded|, st.tick);
      var answer := OneRequest(run.w, run.col, run.flat[st.i], st.scopes, run.iteration, run.opts, t);
      StepIsAbsorb(run, st, answer);
      if answer.0.Recorded? {
        ss, ts := before + [answer.1], times + [answer.2];
        RecordTraced(run, st, answer, before, times);
      } else {
        AbortTraced(run, st, answer, before, times);
      }
    }
  }

  lemma HaltTraced(run: Run, st: State, ss: seq<Scopes>, ts: seq<nat>)
    requires AllLeaves(run.flat) && Sound(run, st) && st.status.Running? && Traced(run, st, ss, ts) && Halts(run, st)
    ensures Traced(run, StepOnce(run, st), ss, ts)
  {
    var next := StepOnce(run, st);
    assert next.recorded == st.recorded && next.path == st.path && next.scopes == st.scopes;
  }

  lemma AbortTraced(run: Run, st: State, answer: (Outcome, Scopes, nat), ss: seq<Scopes>, ts: seq<nat>)
    requires AllLeaves(run.flat) && Sound(run, st) && st.status.Running? && Traced(run, st, ss, ts) && !Halts(run, st)
    requires answer.0.Aborted?
    requires answer == OneRequest(run.w, run.col, run.flat[st.i], st.scopes, run.iteration, run.opts,
                                  Begins(run, |st.recorded|, st.tick))
    ensures Traced(run, Absorb(run, st, answer), ss, ts)
  {
    var next := Absorb(run, st, answer);
    assert next.recorded == st.recorded && next.path == st.path;
  }

  lemma RecordTraced(run: Run, st: State, answer: (Outcome, Scopes, nat), ss: seq<Scopes>, ts: seq<nat>)
    requires AllLeaves(run.flat) && st.status.Running? && Traced(run, st, ss, ts) && !Halts(run, st)
    requires answer.0.Recorded?
    requires answer == OneRequest(run.w, run.col, run.flat[st.i], st.scopes, run.iteration, run.opts,
                                  Begins(run, |st.recorded|, st.tick))
    ensures Traced(run, Absorb(run, st, answer), ss + [answer.1], ts + [answer.2])
  {
    var ss', ts' := ss + [answer.1], ts + [answer.2];
    var recorded, path := st.recorded + [answer.0.result], st.path + [st.i];
    forall k | 0 <= k < |recorded| ensures ThreadAt(run, recorded, path, ss', ts', k) {
      if k < |st.recorded| {
        assert ThreadAt(run, st.recorded, st.path, ss, ts, k);
      }
    }
    assert Threads(run, recorded, path, ss', ts');
  }

  // ---------- forward jumps ----------

  /** Every directive that names a request names one further on. */
  ghost predicate JumpsForward(path: seq<nat>) {
    forall k :: 0 <= k < |path| - 1 ==> path[k] < path[k + 1]
  }

  /** With forward jumps only, no request runs twice in an iteration. */
  lemma {:induction false} ForwardBound(flat: seq<FlatRequest>, recorded: seq<RequestResult>, path: seq<nat>)
    requires OnPath(flat, recorded, path) && JumpsForward(path)
    ensures |recorded| <= |flat|
    ensures forall k :: 0 <= k < |path| ==> k <= path[k]
  {
    var k := 0;
    while k < |path|
      invariant 0 <= k <= |path| && forall j :: 0 <= j < k ==> j <= path[j]
    {
      assert k > 0 ==> path[k - 1] < path[(k - 1) + 1];
      k := k + 1;
    }
    if path != [] {
      assert path[|path| - 1] < |flat|;
    }
  }
}
