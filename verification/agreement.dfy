/**
 The engine's repeated rewriting and the front end's resolve-then-substitute are two
 implementations of one promise. This module says exactly when they give the same text.
 */
module Agreement {
  import opened Templates
  import opened Expansion
  import opened Variables
  import opened VariableScope

  /**
   Text in which no literal opening brace is directly followed by another opening brace, and
   which uses no known dynamic name. Other literal braces are allowed, as in JSON.
   */
  predicate Plain(dynamics: Dynamics, ps: seq<Piece>) {
    Clean(ps) && Undrawn(dynamics, ps)
  }

  predicate Undrawn(dynamics: Dynamics, ps: seq<Piece>) {
    forall i :: 0 <= i < |ps| ==> !IsDrawn(dynamics, ps[i])
  }

  /** Definitions a caller may rely on: non-empty names without `$`, plain values that do not end in an opening brace. */
  predicate PlainDefinitions(dynamics: Dynamics, m: Definitions) {
    forall name {:trigger PlainDefinition(dynamics, m, name)} :: name in m ==> PlainDefinition(dynamics, m, name)
  }

  predicate PlainDefinition(dynamics: Dynamics, m: Definitions, name: string)
    requires name in m
  {
    name != "" && !IsDynamic(name) && Plain(dynamics, Meaning(m, name)) && !Open(Meaning(m, name))
  }

  lemma PlainConcat(dynamics: Dynamics, ps: seq<Piece>, qs: seq<Piece>)
    requires Plain(dynamics, ps) && Plain(dynamics, qs) && Joins(ps, qs)
    ensures Plain(dynamics, ps + qs)
  {
    CleanConcat(ps, qs);
  }

  lemma PlainTail(dynamics: Dynamics, ps: seq<Piece>)
    requires ps != [] && Plain(dynamics, ps)
    ensures Plain(dynamics, ps[1..]) && Plain(dynamics, [ps[0]]) && Joins([ps[0]], ps[1..])
  {
    CleanTail(ps);
    forall i | 0 <= i < |ps[1..]| ensures !IsDrawn(dynamics, ps[1..][i]) {
      assert ps[1..][i] == ps[i + 1];
    }
    assert !IsDrawn(dynamics, ps[0]);
  }

  /** What expansion keeps: plain text, a literal first piece, and an end that is no opening brace. */
  predicate PlainOutcome(dynamics: Dynamics, ps: seq<Piece>, qs: seq<Piece>) {
    && Plain(dynamics, qs) && (!Open(ps) ==> !Open(qs)) && (ps == [] ==> qs == [])
    && (ps != [] && ps[0].Lit? ==> qs != [] && qs[0] == ps[0])
  }

  /** Replacing the first piece, and what has become of the others: values fit wherever a reference stood. */
  lemma PlainGrows(dynamics: Dynamics, ps: seq<Piece>, head: seq<Piece>, tail: seq<Piece>)
    requires ps != [] && Plain(dynamics, ps) && Plain(dynamics, head) && PlainOutcome(dynamics, ps[1..], tail)
    requires if ps[0].Lit? then head == [ps[0]] else !Open(head)
    ensures PlainOutcome(dynamics, ps, head + tail)
  {
    assert |ps| > 1 ==> MayFollow(ps[1 - 1], ps[1]);
    PlainConcat(dynamics, head, tail);
    if tail == [] {
      assert head + tail == head;
    } else {
      assert (head + tail)[|head + tail| - 1] == tail[|tail| - 1];
      assert |ps| > 1 ==> ps[|ps| - 1] == ps[1..][|ps| - 2];
    }
  }

  /** One level of expansion makes plain text of plain text. */
  lemma {:induction false} StepPlain(dynamics: Dynamics, m: Definitions, ps: seq<Piece>)
    requires PlainDefinitions(dynamics, m) && Plain(dynamics, ps)
    ensures PlainOutcome(dynamics, ps, Step(m, ps))
    decreases |ps|
  {
    if ps != [] {
      PlainTail(dynamics, ps);
      StepPlain(dynamics, m, ps[1..]);
      var head := if Known(m, ps[0]) then Meaning(m, ps[0].name) else [ps[0]];
      if Known(m, ps[0]) {
        assert PlainDefinition(dynamics, m, ps[0].name);
      }
      PlainGrows(dynamics, ps, head, Step(m, ps[1..]));
    }
  }

  /** On plain text, a substitution pass over the string is one step over its pieces. */
  lemma {:induction false} SubstituteIsStep(dynamics: Dynamics, m: Definitions, ps: seq<Piece>)
    requires PlainDefinitions(dynamics, m) && Plain(dynamics, ps)
    ensures Substitute(ps, Table(m)) == Render(Step(m, ps))
    decreases |ps|
  {
    if ps != [] {
      PlainTail(dynamics, ps);
      SubstituteIsStep(dynamics, m, ps[1..]);
      if Known(m, ps[0]) {
        assert PlainDefinition(dynamics, m, ps[0].name);
        RenderScan(m[ps[0].name], 0);
        RenderConcat(Meaning(m, ps[0].name), Step(m, ps[1..]));
      } else {
        RenderCons(ps[0], Step(m, ps[1..]));
      }
    }
  }

  lemma OnePassIsStep(dynamics: Dynamics, m: Definitions, s: string, next: string, ps: seq<Piece>, qs: seq<Piece>)
    requires PlainDefinitions(dynamics, m) && Plain(dynamics, ps) && ps == Scan(s, 0)
    requires next == Substitute(Scan(s, 1), Table(m)) && qs == Step(m, ps)
    ensures Scan(next, 0) == qs && Plain(dynamics, qs)
  {
    StrictScanSubstitutes(s, Table(m));
    SubstituteIsStep(dynamics, m, ps);
    StepPlain(dynamics, m, ps);
    ScanRender(qs);
  }

  lemma OneMorePass(t: Definitions, m: Definitions, s: string, ps: seq<Piece>, n: nat, next: string)
    requires n > 0 && next == Substitute(Scan(s, 1), t)
    requires Passes(t, next, n - 1) == Render(Expand(m, Step(m, ps), n - 1))
    ensures Passes(t, s, n) == Render(Expand(m, ps, n))
  {
    OnePass(t, s, n, next);
    ExpandStep(m, ps, n - 1);
  }

  /** The engine's `n` passes over plain text are `n` levels of expansion. */
  lemma {:induction false} PassesAreExpansion(t: Definitions, dynamics: Dynamics, m: Definitions,
                                        s: string, ps: seq<Piece>, n: nat)
    requires t == Table(m)
    requires PlainDefinitions(dynamics, m) && Plain(dynamics, ps) && ps == Scan(s, 0)
    ensures Passes(t, s, n) == Render(Expand(m, ps, n))
    decreases n
  {
    if n == 0 {
      RenderScan(s, 0);
    } else {
      var next, qs := Substitute(Scan(s, 1), t), Step(m, ps);
      OnePassIsStep(dynamics, m, s, next, ps, qs);
      PassesAreExpansion(t, dynamics, m, next, qs, n - 1);
      OneMorePass(t, m, s, ps, n, next);
    }
  }

  lemma {:induction false} ExpandPlain(dynamics: Dynamics, m: Definitions, ps: seq<Piece>, n: nat)
    requires PlainDefinitions(dynamics, m) && Plain(dynamics, ps)
    ensures PlainOutcome(dynamics, ps, Expand(m, ps, n))
    decreases n, |ps|
  {
    if n > 0 && ps != [] {
      PlainTail(dynamics, ps);
      var tail := Expand(m, ps[1..], n);
      ExpandPlain(dynamics, m, ps[1..], n);
      if Known(m, ps[0]) {
        var meaning := Meaning(m, ps[0].name);
        assert PlainDefinition(dynamics, m, ps[0].name);
        ExpandPlain(dynamics, m, meaning, n - 1);
        PlainGrows(dynamics, ps, Expand(m, meaning, n - 1), tail);
      } else {
        PlainGrows(dynamics, ps, [ps[0]], tail);
      }
    }
  }

  /** The stricter scan finds no reference that the other one does not. */
  lemma {:induction false} StrictRefs(s: string, p: Piece)
    requires p in Scan(s, 1) && p.Ref?
    ensures p in Scan(s, 0)
    decreases |s|
  {
    if RefAt(s, 1) {
      var n := NameLength(s[2..]);
      if p != Ref(s[2..n + 2]) {
        StrictRefs(s[n + 4..], p);
      }
    } else if RefAt(s, 0) {
      EmptyScans(s);
      StrictRefs(s[4..], p);
    } else {
      StrictRefs(s[1..], p);
    }
  }

  /** On plain text the engine's rounds, early exit included, are passes, and draw nothing. */
  lemma {:induction false} RoundsArePasses(t: Definitions, dynamics: Dynamics, m: Definitions,
                                           s: string, ps: seq<Piece>, n: nat, tick: nat)
    requires t == Table(m)
    requires PlainDefinitions(dynamics, m) && Plain(dynamics, ps) && ps == Scan(s, 0)
    ensures Rounds(m, dynamics, s, n, tick) == (Passes(t, s, n), tick)
    decreases n
  {
    if n > 0 {
      var next, qs := Substitute(Scan(s, 1), t), Step(m, ps);
      PlainRound(t, dynamics, m, s, ps, next, tick);
      if next == s {
        OneRound(m, dynamics, s, n, tick, next, tick);
        PassesAtFixpoint(t, s, n);
      } else {
        OnePassIsStep(dynamics, m, s, next, ps, qs);
        RoundsArePasses(t, dynamics, m, next, qs, n - 1, tick);
        OneMoreRound(t, dynamics, m, s, n, tick, next);
      }
    }
  }

  lemma OneMoreRound(t: Definitions, dynamics: Dynamics, m: Definitions, s: string, n: nat, tick: nat, next: string)
    requires n > 0 && next != s && next == Substitute(Scan(s, 1), t)
    requires PassOver(m, dynamics, Scan(s, 1), tick) == (next, tick)
    requires Rounds(m, dynamics, next, n - 1, tick) == (Passes(t, next, n - 1), tick)
    ensures Rounds(m, dynamics, s, n, tick) == (Passes(t, s, n), tick)
  {
    OneRound(m, dynamics, s, n, tick, next, tick);
    OnePass(t, s, n, next);
  }

  lemma PlainRound(t: Definitions, dynamics: Dynamics, m: Definitions, s: string, ps: seq<Piece>, next: string, tick: nat)
    requires t == Table(m) && Undrawn(dynamics, ps) && ps == Scan(s, 0) && next == Substitute(Scan(s, 1), t)
    ensures PassOver(m, dynamics, Scan(s, 1), tick) == (next, tick)
  {
    var strict := Scan(s, 1);
    NamesNonEmpty(s);
    forall i | 0 <= i < |strict| ensures !IsDrawn(dynamics, strict[i]) {
      if strict[i].Ref? {
        StrictRefs(s, strict[i]);
        var k :| 0 <= k < |ps| && ps[k] == strict[i];
        assert !IsDrawn(dynamics, ps[k]);
      }
    }
    UndrawnIsSubstitution(m, dynamics, strict, tick);
  }

  /** With `n` passes, the implementations agree exactly when `n` levels are enough. */
  lemma AgreeIffShallow(m: Definitions, dynamics: Dynamics, order: seq<string>, s: string, n: nat, depth: nat)
    requires PlainDefinitions(dynamics, m) && Plain(dynamics, Scan(s, 0))
    requires Shallow(m, Scan(s, 0), depth) && Enumerates(order, m)
    ensures Passes(Table(m), s, n) == ApplyVariables(s, ResolveAll(m, order, map[]))
            <==> Shallow(m, Scan(s, 0), n)
  {
    var ps := Scan(s, 0);
    PassesAreExpansion(Table(m), dynamics, m, s, ps, n);
    ApplyIsExpansion(m, order, ps, depth);
    if Shallow(m, ps, n) {
      ApplyIsExpansion(m, order, ps, n);
    } else {
      ExpandedIffShallow(m, ps, depth);
      ExpandedIffShallow(m, ps, n);
      PrintsDistinct(dynamics, m, ps, depth, n);
    }
  }

  /**
   For plain text that leads to no cycle, the two implementations agree exactly when the
   references are at most `MAX_RESOLVE_DEPTH` levels deep, in whatever order the front end
   visits the definitions.
   */
  lemma EnginesAgree(scopes: Scopes, dynamics: Dynamics, order: seq<string>, s: string, tick: nat)
    requires scopes.local == map[] && scopes.data == map[]
    requires var m := Merge(scopes.global, scopes.collection, scopes.environment);
             && PlainDefinitions(dynamics, m) && Plain(dynamics, Scan(s, 0))
             && Finite(m, Scan(s, 0)) && Enumerates(order, m)
    ensures var m := Merge(scopes.global, scopes.collection, scopes.environment);
            Rounds(scopes.Effective(), dynamics, s, MAX_RESOLVE_DEPTH, tick).0
              == ApplyVariables(s, ResolveAll(m, order, map[]))
            <==> Shallow(m, Scan(s, 0), MAX_RESOLVE_DEPTH)
  {
    var m := Merge(scopes.global, scopes.collection, scopes.environment);
    assert scopes.Effective() == m;
    var depth: nat :| Shallow(m, Scan(s, 0), depth);
    RoundsArePasses(Table(m), dynamics, m, s, Scan(s, 0), MAX_RESOLVE_DEPTH, tick);
    AgreeIffShallow(m, dynamics, order, s, MAX_RESOLVE_DEPTH, depth);
  }

  /** Different expansions of plain text print differently. */
  lemma PrintsDistinct(dynamics: Dynamics, m: Definitions, ps: seq<Piece>, d: nat, e: nat)
    requires PlainDefinitions(dynamics, m) && Plain(dynamics, ps)
    requires Expand(m, ps, d) != Expand(m, ps, e)
    ensures Render(Expand(m, ps, d)) != Render(Expand(m, ps, e))
  {
    ExpandPlain(dynamics, m, ps, d);
    ExpandPlain(dynamics, m, ps, e);
    ScanRender(Expand(m, ps, d));
    ScanRender(Expand(m, ps, e));
  }

  // ---------- chains of references ----------

  function Name(k: nat): string {
    seq(k, _ => 'x')
  }

  function ChainNames(n: nat): set<string> {
    set k | 1 <= k <= n :: Name(k)
  }

  /** Names of 1 to `n` letters, each referring to the next longer one and the last to nothing. */
  function ChainOf(n: nat): Definitions {
    map name | name in ChainNames(n) :: if |name| < n then Text(Ref(Name(|name| + 1))) else ""
  }

  lemma ChainMeaning(n: nat, k: nat)
    requires 1 <= k <= n
    ensures Link(ChainOf(n), n, k)
  {
    assert Name(k) in ChainNames(n) && |Name(k)| == k;
    if k < n {
      RefersTo(ChainOf(n), Name(k), Name(k + 1));
    }
  }

  predicate Link(m: Definitions, n: nat, k: nat) {
    Name(k) in m && Meaning(m, Name(k)) == if k < n then [Ref(Name(k + 1))] else []
  }

  lemma {:induction false} ChainDepth(m: Definitions, n: nat, k: nat, d: nat)
    requires 1 <= k <= n && forall j {:trigger Link(m, n, j)} :: 1 <= j <= n ==> Link(m, n, j)
    ensures Shallow(m, [Ref(Name(k))], d) <==> n - k < d
    decreases n - k
  {
    assert Link(m, n, k);
    if k < n && d > 0 {
      ChainDepth(m, n, k + 1, d - 1);
    }
    assert Known(m, [Ref(Name(k))][0]);
    assert Shallow(m, [Ref(Name(k))], d) <==> d > 0 && Shallow(m, Meaning(m, Name(k)), d - 1);
  }

  lemma LinkIsPlain(m: Definitions, n: nat, k: nat, dynamics: Dynamics)
    requires 1 <= k <= n && Link(m, n, k)
    ensures PlainDefinition(dynamics, m, Name(k))
  {
    assert Name(k)[0] == 'x' && Name(k + 1)[0] == 'x';
    var meaning := Meaning(m, Name(k));
    assert |meaning| <= 1 && (meaning != [] ==> meaning[0] == Ref(Name(k + 1)));
    assert Clean(meaning) && Undrawn(dynamics, meaning) && !Open(meaning);
    assert |Name(k)| == k && Name(k) != "" && !IsDynamic(Name(k));
  }

  lemma ChainIsPlain(n: nat, dynamics: Dynamics)
    ensures PlainDefinitions(dynamics, ChainOf(n))
  {
    var m := ChainOf(n);
    forall name | name in m ensures PlainDefinition(dynamics, m, name) {
      var k: nat :| 1 <= k <= n && name == Name(k);
      ChainMeaning(n, k);
      LinkIsPlain(m, n, k, dynamics);
    }
  }

  lemma ReferenceReads(name: string)
    requires CleanPiece(Ref(name))
    ensures Scan(Text(Ref(name)), 0) == [Ref(name)]
  {
    ScanRender([Ref(name)]);
    RenderCons(Ref(name), []);
    assert [Ref(name)] + [] == [Ref(name)] && Text(Ref(name)) + "" == Text(Ref(name));
  }

  /** On a chain of `n` references the engines agree up to ten of them, and on no longer chain. */
  lemma ChainsAgreeUpToTen(n: nat, dynamics: Dynamics, order: seq<string>, tick: nat)
    requires n > 0 && Enumerates(order, ChainOf(n))
    ensures Rounds(EMPTY_SCOPES.(environment := ChainOf(n)).Effective(), dynamics, Text(Ref(Name(1))), MAX_RESOLVE_DEPTH, tick).0
              == ApplyVariables(Text(Ref(Name(1))), ResolveAll(ChainOf(n), order, map[]))
            <==> n <= 10
  {
    var m := ChainOf(n);
    forall k {:trigger Link(m, n, k)} | 1 <= k <= n ensures Link(m, n, k) {
      ChainMeaning(n, k);
    }
    ChainIsPlain(n, dynamics);
    LinkedAgree(m, n, dynamics, order, tick);
  }

  lemma LinkedAgree(m: Definitions, n: nat, dynamics: Dynamics, order: seq<string>, tick: nat)
    requires n > 0 && Enumerates(order, m) && PlainDefinitions(dynamics, m)
    requires forall k {:trigger Link(m, n, k)} :: 1 <= k <= n ==> Link(m, n, k)
    ensures Rounds(EMPTY_SCOPES.(environment := m).Effective(), dynamics, Text(Ref(Name(1))), MAX_RESOLVE_DEPTH, tick).0
              == ApplyVariables(Text(Ref(Name(1))), ResolveAll(m, order, map[]))
            <==> n <= 10
  {
    var name := Name(1);
    LinkDepth(m, n);
    NameReads(name, dynamics);
    OneReferenceAgrees(m, n, dynamics, order, name, tick);
  }

  lemma LinkDepth(m: Definitions, n: nat)
    requires n > 0 && forall k {:trigger Link(m, n, k)} :: 1 <= k <= n ==> Link(m, n, k)
    ensures Shallow(m, [Ref(Name(1))], n)
    ensures Shallow(m, [Ref(Name(1))], MAX_RESOLVE_DEPTH) <==> n <= 10
  {
    ChainDepth(m, n, 1, n);
    ChainDepth(m, n, 1, MAX_RESOLVE_DEPTH);
  }

  lemma NameReads(name: string, dynamics: Dynamics)
    requires name == Name(1)
    ensures Scan(Text(Ref(name)), 0) == [Ref(name)] && Plain(dynamics, [Ref(name)])
  {
    assert name[0] == 'x';
    ReferenceReads(name);
  }

  lemma OneReferenceAgrees(m: Definitions, n: nat, dynamics: Dynamics, order: seq<string>, name: string, tick: nat)
    requires Enumerates(order, m) && PlainDefinitions(dynamics, m)
    requires Scan(Text(Ref(name)), 0) == [Ref(name)] && Plain(dynamics, [Ref(name)]) && Shallow(m, [Ref(name)], n)
    ensures Rounds(EMPTY_SCOPES.(environment := m).Effective(), dynamics, Text(Ref(name)), MAX_RESOLVE_DEPTH, tick).0
              == ApplyVariables(Text(Ref(name)), ResolveAll(m, order, map[]))
            <==> Shallow(m, [Ref(name)], MAX_RESOLVE_DEPTH)
  {
    var scopes := EMPTY_SCOPES.(environment := m);
    assert Merge(scopes.global, scopes.collection, scopes.environment) == m;
    EnginesAgree(scopes, dynamics, order, Text(Ref(name)), tick);
  }
}
