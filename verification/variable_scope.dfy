/**
 The front end's variable scope: three variable lists merged by priority, every value
 expanded once, then one substitution pass over any text.
 */
module VariableScope {
  import opened Prelude
  import opened Templates
  import opened Expansion
  import opened Frontend

  // ---------- merging the scopes ----------

  /** A variable takes part when it is enabled and named; later entries win. */
  function ScopeMap(vars: seq<EnvVariable>): (m: Definitions)
    ensures "" !in m
  {
    if vars == [] then map[]
    else
      var v := vars[|vars| - 1];
      var before := ScopeMap(vars[..|vars| - 1]);
      if v.enabled && v.key != "" then before[v.key := CurrentOrInitial(v)] else before
  }

  function CurrentOrInitial(v: EnvVariable): string {
    if v.currentValue != "" then v.currentValue else v.initialValue
  }

  /** The last entry that takes part under the key. */
  ghost predicate LastActive(vars: seq<EnvVariable>, key: string, i: nat) {
    && i < |vars| && vars[i].enabled && vars[i].key == key
    && forall j :: i < j < |vars| && vars[j].enabled ==> vars[j].key != key
  }

  ghost predicate HasActive(vars: seq<EnvVariable>, key: string) {
    key != "" && exists i :: 0 <= i < |vars| && vars[i].enabled && vars[i].key == key
  }

  /** The key's value is that of its last entry: the current value, or the initial one if that is empty. */
  ghost predicate ShowsLast(vars: seq<EnvVariable>, key: string, value: string) {
    exists i: nat :: LastActive(vars, key, i)
      && value == if vars[i].currentValue == "" then vars[i].initialValue else vars[i].currentValue
  }

  lemma {:induction false} ScopeMapExactly(vars: seq<EnvVariable>, key: string)
    ensures key in ScopeMap(vars) <==> HasActive(vars, key)
    ensures key in ScopeMap(vars) ==> ShowsLast(vars, key, ScopeMap(vars)[key])
  {
    if vars != [] {
      var n, front := |vars| - 1, vars[..|vars| - 1];
      ScopeMapExactly(front, key);
      if vars[n].enabled && vars[n].key == key {
        assert LastActive(vars, key, n);
      } else if key in ScopeMap(front) {
        var i: nat :| LastActive(front, key, i)
          && ScopeMap(front)[key] == if front[i].currentValue == "" then front[i].initialValue else front[i].currentValue;
        assert LastActive(vars, key, i);
      }
    }
  }

  method CollectScope(vars: seq<EnvVariable>) returns (m: Definitions)
    ensures m == ScopeMap(vars)
    ensures forall key :: key in m <==> HasActive(vars, key)
    ensures forall key :: key in m ==> ShowsLast(vars, key, m[key])
  {
    m := map[];
    for i := 0 to |vars|
      invariant m == ScopeMap(vars[..i])
    {
      assert vars[..i + 1][..i] == vars[..i];
      if vars[i].enabled && vars[i].key != "" {
        m := m[vars[i].key := CurrentOrInitial(vars[i])];
      }
    }
    assert vars[..|vars|] == vars;
    forall key ensures key in m <==> HasActive(vars, key) {
      ScopeMapExactly(vars, key);
    }
    forall key | key in m ensures ShowsLast(vars, key, m[key]) {
      ScopeMapExactly(vars, key);
    }
  }

  /** The definitions in force: environment over collection over globals. */
  function Merge(globals: Definitions, collection: Definitions, environment: Definitions): Definitions {
    globals + collection + environment
  }

  /** The merged scope, key by key: a list counts only where the more important ones have no entry for the key. */
  lemma MergedExactly(globals: seq<EnvVariable>, collection: seq<EnvVariable>, environment: seq<EnvVariable>, key: string)
    ensures var m := Merge(ScopeMap(globals), ScopeMap(collection), ScopeMap(environment));
            && (key in m <==> HasActive(globals, key) || HasActive(collection, key) || HasActive(environment, key))
            && (HasActive(environment, key) ==> ShowsLast(environment, key, m[key]))
            && (HasActive(collection, key) && !HasActive(environment, key) ==> ShowsLast(collection, key, m[key]))
            && (HasActive(globals, key) && !HasActive(collection, key) && !HasActive(environment, key) ==>
                  ShowsLast(globals, key, m[key]))
  {
    ScopeMapExactly(globals, key);
    ScopeMapExactly(collection, key);
    ScopeMapExactly(environment, key);
  }

  // ---------- the memoised, cycle-guarded expansion ----------

  /**
   Text of `ps` and the memo afterwards. References in `visiting` are being expanded
   further up and stay as written; an expansion already in `memo` is reused.
   */
  function Guarded(m: Definitions, ps: seq<Piece>, visiting: set<string>, memo: Definitions): (string, Definitions)
    decreases m.Keys - visiting, |ps|
  {
    if ps == [] then ("", memo)
    else
      var (head, memo1) := GuardedPiece(m, ps, visiting, memo);
      var (tail, memo2) := Guarded(m, ps[1..], visiting, memo1);
      (head + tail, memo2)
  }

  function GuardedPiece(m: Definitions, ps: seq<Piece>, visiting: set<string>, memo: Definitions): (string, Definitions)
    requires ps != []
    decreases m.Keys - visiting, |ps|, 0
  {
    match ps[0]
    case Lit(c) => ([c], memo)
    case Ref(name) =>
      if name in visiting || name !in m then (Text(ps[0]), memo)
      else if name in memo then (memo[name], memo)
      else
        var (text, memo1) := Guarded(m, Meaning(m, name), visiting + {name}, memo);
        (text, memo1[name := text])
  }

  /** Every key in turn, in any order. */
  function ResolveAll(m: Definitions, order: seq<string>, memo: Definitions): Definitions
    requires forall i :: 0 <= i < |order| ==> order[i] in m
  {
    if order == [] then memo
    else if order[0] in memo then ResolveAll(m, order[1..], memo)
    else
      var (text, memo1) := Guarded(m, Meaning(m, order[0]), {order[0]}, memo);
      ResolveAll(m, order[1..], memo1[order[0] := text])
  }

  class Expander {
    const rawMap: Definitions
    var resolved: Definitions
    var visiting: set<string>

    constructor (rawMap: Definitions)
      ensures this.rawMap == rawMap && resolved == map[] && visiting == {}
    {
      this.rawMap := rawMap;
      resolved := map[];
      visiting := {};
    }

    method ResolveValue(value: string) returns (r: string)
      modifies this
      ensures visiting == old(visiting)
      ensures (r, resolved) == Guarded(rawMap, Scan(value, 0), old(visiting), old(resolved))
      decreases rawMap.Keys - visiting
    {
      var ps := Scan(value, 0);
      r := "";
      var i := 0;
      assert ps[0..] == ps && r + Guarded(rawMap, ps, visiting, resolved).0 == Guarded(rawMap, ps, visiting, resolved).0;
      while i < |ps|
        invariant i <= |ps| && visiting == old(visiting)
        invariant (r + Guarded(rawMap, ps[i..], visiting, resolved).0, Guarded(rawMap, ps[i..], visiting, resolved).1)
               == Guarded(rawMap, ps, old(visiting), old(resolved))
      {
        assert ps[i..][0] == ps[i] && ps[i..][1..] == ps[i + 1..];
        ghost var before := r;
        var text;
        match ps[i] {
          case Lit(c) =>
            text := [c];
          case Ref(name) =>
            if name in visiting || name !in rawMap {
              text := Text(ps[i]);
            } else if name in resolved {
              text := resolved[name];
            } else {
              visiting := visiting + {name};
              text := ResolveValue(rawMap[name]);
              visiting := visiting - {name};
              resolved := resolved[name := text];
            }
        }
        r := r + text;
        Associative(before, text, Guarded(rawMap, ps[i + 1..], visiting, resolved).0);
        i := i + 1;
      }
      assert r + "" == r;
    }
  }

  /** `order` is the map's iteration order. */
  method ResolveRecursive(rawMap: Definitions, order: seq<string>) returns (resolved: Definitions)
    requires forall i :: 0 <= i < |order| ==> order[i] in rawMap
    ensures resolved == ResolveAll(rawMap, order, map[])
  {
    var e := new Expander(rawMap);
    var i := 0;
    while i < |order|
      invariant i <= |order| && e.visiting == {} && e.rawMap == rawMap
      invariant ResolveAll(rawMap, order[i..], e.resolved) == ResolveAll(rawMap, order, map[])
    {
      assert order[i..][0] == order[i] && order[i..][1..] == order[i + 1..];
      if order[i] !in e.resolved {
        e.visiting := {order[i]};
        var text := e.ResolveValue(rawMap[order[i]]);
        e.resolved := e.resolved[order[i] := text];
        e.visiting := {};
      }
      i := i + 1;
    }
    resolved := e.resolved;
  }

  /** One substitution pass with the resolved map; unknown names stay as written. */
  function ApplyVariables(s: string, resolved: Definitions): string {
    Substitute(Scan(s, 0), resolved)
  }

  // ---------- correctness ----------

  /** The memo holds only definitions, and the full expansion of each one of finite depth. */
  ghost predicate Sound(m: Definitions, memo: Definitions) {
    && memo.Keys <= m.Keys
    && forall name, d {:trigger Shallow(m, Meaning(m, name), d)} ::
         name in memo && Shallow(m, Meaning(m, name), d) ==> memo[name] == Render(Expand(m, Meaning(m, name), d))
  }

  /** Whatever is being visited is at least as deep as the text it led to. */
  ghost predicate LedTo(m: Definitions, visiting: set<string>, ps: seq<Piece>) {
    && visiting <= m.Keys
    && forall name, d {:trigger Shallow(m, Meaning(m, name), d)} ::
         name in visiting && Shallow(m, Meaning(m, name), d) ==> Shallow(m, ps, d)
  }

  /** A text of finite depth mentions nothing that led to it: the guard fires only on cycles. */
  lemma {:induction false} GuardMeansCycle(m: Definitions, ps: seq<Piece>, visiting: set<string>, i: nat, d: nat)
    requires LedTo(m, visiting, ps) && i < |ps| && Known(m, ps[i]) && ps[i].name in visiting
    ensures !Shallow(m, ps, d)
    decreases d
  {
    if Shallow(m, ps, d) {
      ShallowBody(m, ps, i, d);
      GuardMeansCycle(m, ps, visiting, i, d - 1);
      assert false;
    }
  }

  lemma LedToSuffix(m: Definitions, visiting: set<string>, ps: seq<Piece>)
    requires LedTo(m, visiting, ps) && ps != []
    ensures LedTo(m, visiting, ps[1..])
  {
    forall name, d: nat | name in visiting && Shallow(m, Meaning(m, name), d) ensures Shallow(m, ps[1..], d) {
      ShallowSuffix(m, ps, d);
    }
  }

  lemma LedToBody(m: Definitions, visiting: set<string>, ps: seq<Piece>)
    requires LedTo(m, visiting, ps) && ps != [] && Known(m, ps[0])
    ensures LedTo(m, visiting + {ps[0].name}, Meaning(m, ps[0].name))
  {
    forall name, d: nat | name in visiting + {ps[0].name} && Shallow(m, Meaning(m, name), d)
      ensures Shallow(m, Meaning(m, ps[0].name), d)
    {
      if name in visiting {
        ShallowBody(m, ps, 0, d);
        ShallowGrows(m, Meaning(m, ps[0].name), d - 1, d);
      }
    }
  }

  lemma {:induction false} GuardedCorrect(m: Definitions, ps: seq<Piece>, visiting: set<string>, memo: Definitions)
    requires Sound(m, memo) && LedTo(m, visiting, ps) && visiting !! memo.Keys
    ensures var (text, after) := Guarded(m, ps, visiting, memo);
            && Sound(m, after) && memo.Keys <= after.Keys && visiting !! after.Keys
            && (forall d :: Shallow(m, ps, d) ==> text == Render(Expand(m, ps, d)))
    decreases m.Keys - visiting, |ps|, 1
  {
    if ps == [] {
    } else {
      GuardedPieceCorrect(m, ps, visiting, memo);
      var (head, memo1) := GuardedPiece(m, ps, visiting, memo);
      LedToSuffix(m, visiting, ps);
      GuardedCorrect(m, ps[1..], visiting, memo1);
      var (tail, memo2) := Guarded(m, ps[1..], visiting, memo1);
      forall d: nat | Shallow(m, ps, d) ensures head + tail == Render(Expand(m, ps, d)) {
        ShallowSuffix(m, ps, d);
        ExpandConcat(m, [ps[0]], ps[1..], d);
        assert ps == [ps[0]] + ps[1..];
        RenderConcat(Expand(m, [ps[0]], d), Expand(m, ps[1..], d));
      }
    }
  }

  lemma {:induction false} GuardedPieceCorrect(m: Definitions, ps: seq<Piece>, visiting: set<string>, memo: Definitions)
    requires ps != []
    requires Sound(m, memo) && LedTo(m, visiting, ps) && visiting !! memo.Keys
    ensures var (text, after) := GuardedPiece(m, ps, visiting, memo);
            && Sound(m, after) && memo.Keys <= after.Keys && visiting !! after.Keys
            && (forall d :: Shallow(m, ps, d) ==> text == Render(Expand(m, [ps[0]], d)))
    decreases m.Keys - visiting, |ps|, 0
  {
    var (text, after) := GuardedPiece(m, ps, visiting, memo);
    if Known(m, ps[0]) && ps[0].name !in visiting && ps[0].name !in memo {
      LedToBody(m, visiting, ps);
      GuardedCorrect(m, Meaning(m, ps[0].name), visiting + {ps[0].name}, memo);
    }
    forall d: nat | Shallow(m, ps, d) ensures text == Render(Expand(m, [ps[0]], d)) {
      if Known(m, ps[0]) && ps[0].name in visiting {
        GuardMeansCycle(m, ps, visiting, 0, d);
      } else if Known(m, ps[0]) {
        ShallowBody(m, ps, 0, d);
        ExpandOne(m, ps[0], d);
      } else {
        ExpandOne(m, ps[0], d);
        RenderCons(ps[0], []);
      }
    }
  }

  lemma ExpandOne(m: Definitions, p: Piece, d: nat)
    requires Known(m, p) ==> d > 0
    ensures Expand(m, [p], d) == if Known(m, p) then Expand(m, Meaning(m, p.name), d - 1) else [p]
  {
    assert [p][1..] == [];
  }

  lemma {:induction false} ResolveAllSound(m: Definitions, order: seq<string>, memo: Definitions)
    requires forall i :: 0 <= i < |order| ==> order[i] in m
    requires Sound(m, memo)
    ensures var after := ResolveAll(m, order, memo);
            Sound(m, after) && memo.Keys <= after.Keys && forall i :: 0 <= i < |order| ==> order[i] in after
    decreases |order|
  {
    if order != [] {
      var memo1 := memo;
      if order[0] !in memo {
        assert LedTo(m, {order[0]}, Meaning(m, order[0]));
        GuardedCorrect(m, Meaning(m, order[0]), {order[0]}, memo);
        var (text, after) := Guarded(m, Meaning(m, order[0]), {order[0]}, memo);
        memo1 := after[order[0] := text];
      }
      ResolveAllSound(m, order[1..], memo1);
      forall i | 0 <= i < |order| ensures order[i] in ResolveAll(m, order, memo) {
        if i > 0 { assert order[i] == order[1..][i - 1]; }
      }
    }
  }

  /** The keys of `m`, in some order. */
  ghost predicate Enumerates(order: seq<string>, m: Definitions) {
    forall name :: name in order <==> name in m
  }

  /**
   Whatever the iteration order and whatever cycles there are elsewhere: the result has
   exactly the keys of the raw map, and every key that leads to no cycle gets its full,
   memo-free and guard-free expansion.
   */
  lemma ResolveRecursiveCorrect(m: Definitions, order: seq<string>)
    requires Enumerates(order, m)
    ensures ResolveAll(m, order, map[]).Keys == m.Keys
    ensures forall name, d {:trigger Shallow(m, Meaning(m, name), d)} ::
              name in m && Shallow(m, Meaning(m, name), d) ==>
              ResolveAll(m, order, map[])[name] == Render(Expand(m, Meaning(m, name), d))
  {
    ResolveAllSound(m, order, map[]);
  }

  /** Substituting resolved values is full expansion, for any text that leads to no cycle. */
  lemma {:induction false} ApplyIsExpansion(m: Definitions, order: seq<string>, ps: seq<Piece>, d: nat)
    requires Enumerates(order, m) && Shallow(m, ps, d)
    ensures Substitute(ps, ResolveAll(m, order, map[])) == Render(Expand(m, ps, d))
    decreases |ps|
  {
    ResolveRecursiveCorrect(m, order);
    if ps == [] {
    } else {
      ShallowSuffix(m, ps, d);
      ApplyIsExpansion(m, order, ps[1..], d);
      if Known(m, ps[0]) {
        ShallowBody(m, ps, 0, d);
      }
      ExpandOne(m, ps[0], d);
      ExpandConcat(m, [ps[0]], ps[1..], d);
      assert ps == [ps[0]] + ps[1..];
      RenderConcat(Expand(m, [ps[0]], d), Expand(m, ps[1..], d));
      RenderCons(ps[0], []);
    }
  }

  // ---------- keys on a cycle ----------

  /**
   A cycle somewhere in `m`: each name's value is a reference to the next name, and the last one's
   to the first; one name refers to itself. Anything else may be defined beside it, and may refer to it.
   */
  ghost predicate Ring(m: Definitions, names: seq<string>) {
    && names != []
    && (forall i, j :: 0 <= i < j < |names| ==> names[i] != names[j])
    && (forall i :: 0 <= i < |names| ==> CleanPiece(Ref(names[i])))
    && (forall i {:trigger NextIn(names, i)} :: 0 <= i < |names| ==>
          names[i] in m && m[names[i]] == Text(Ref(NextIn(names, i))))
  }

  function NextIn(names: seq<string>, i: nat): string
    requires i < |names|
  {
    if i + 1 < |names| then names[i + 1] else names[0]
  }

  lemma RefersTo(m: Definitions, name: string, next: string)
    requires name in m && m[name] == Text(Ref(next)) && CleanPiece(Ref(next))
    ensures Meaning(m, name) == [Ref(next)]
  {
    ScanRender([Ref(next)]);
    RenderCons(Ref(next), []);
    assert [Ref(next)] + [] == [Ref(next)];
    assert Text(Ref(next)) + "" == Text(Ref(next));
  }

  lemma RingRotates(m: Definitions, names: seq<string>)
    requires Ring(m, names)
    ensures Ring(m, names[1..] + [names[0]])
    ensures forall name :: name in names[1..] + [names[0]] <==> name in names
  {
    var k, rotated := |names|, names[1..] + [names[0]];
    forall name ensures name in rotated <==> name in names {
      assert name in names <==> name == names[0] || name in names[1..];
    }
    forall i, j | 0 <= i < j < k ensures rotated[i] != rotated[j] {
      assert rotated[i] == names[i + 1];
    }
    forall i | 0 <= i < k
      ensures CleanPiece(Ref(rotated[i])) && rotated[i] in m && m[rotated[i]] == Text(Ref(NextIn(rotated, i)))
    {
      RotatedValue(m, names, i);
    }
  }

  lemma RotatedValue(m: Definitions, names: seq<string>, i: nat)
    requires Ring(m, names) && i < |names|
    ensures var rotated := names[1..] + [names[0]];
            CleanPiece(Ref(rotated[i])) && rotated[i] in m && m[rotated[i]] == Text(Ref(NextIn(rotated, i)))
  {
    var rotated := names[1..] + [names[0]];
    var was := if i + 1 < |names| then i + 1 else 0;
    assert rotated[i] == names[was] && NextIn(rotated, i) == NextIn(names, was);
  }

  lemma {:induction false} RingFrom(m: Definitions, names: seq<string>, p: nat) returns (rotated: seq<string>)
    requires Ring(m, names) && p < |names|
    ensures Ring(m, rotated) && rotated[0] == names[p] && forall name :: name in rotated <==> name in names
    decreases p
  {
    if p == 0 {
      rotated := names;
    } else {
      RingRotates(m, names);
      rotated := RingFrom(m, names[1..] + [names[0]], p - 1);
    }
  }

  lemma GuardedSingle(m: Definitions, p: Piece, visiting: set<string>, memo: Definitions)
    ensures Guarded(m, [p], visiting, memo) == GuardedPiece(m, [p], visiting, memo)
  {
    var (head, memo1) := GuardedPiece(m, [p], visiting, memo);
    assert [p][1..] == [];
    assert Guarded(m, [], visiting, memo1) == ("", memo1);
    assert head + "" == head;
  }

  lemma GuardedRef(m: Definitions, next: string, visiting: set<string>, memo: Definitions, text: string, after: Definitions)
    requires next !in visiting && next in m && next !in memo
    requires Guarded(m, Meaning(m, next), visiting + {next}, memo) == (text, after)
    ensures Guarded(m, [Ref(next)], visiting, memo) == (text, after[next := text])
  {
    GuardedSingle(m, Ref(next), visiting, memo);
  }

  /** Going round from the first name, the guard stops at it again, and every name on the way gets its reference. */
  lemma {:induction false} RoundTheRing(
    m: Definitions, names: seq<string>, i: nat, visiting: set<string>, memo: Definitions, text: string)
    requires Ring(m, names) && 0 < i <= |names| && names[i - 1] in m && text == Text(Ref(names[0]))
    requires forall j :: 0 <= j < |names| ==> (names[j] in visiting <==> j < i)
    requires Untouched(names, memo)
    ensures var (value, after) := Guarded(m, Meaning(m, names[i - 1]), visiting, memo);
            value == text && AllFrom(names, i, after, text)
    decreases |names| - i
  {
    var next := NextIn(names, i - 1);
    RefersTo(m, names[i - 1], next);
    if i == |names| {
      GuardedSingle(m, Ref(next), visiting, memo);
    } else {
      assert next in names && NextIn(names, i) in names;
      RoundTheRing(m, names, i + 1, visiting + {next}, memo, text);
      var (value, after) := Guarded(m, Meaning(m, next), visiting + {next}, memo);
      GuardedRef(m, next, visiting, memo, value, after);
    }
  }

  ghost predicate AllFrom(names: seq<string>, i: nat, memo: Definitions, text: string) {
    forall j :: i <= j < |names| ==> names[j] in memo && memo[names[j]] == text
  }

  // ---------- what a run does to a cycle ----------

  ghost predicate Untouched(names: seq<string>, memo: Definitions) {
    forall name :: name in names ==> name !in memo
  }

  /** Every name is resolved to a reference to `key`. */
  ghost predicate SettledOn(names: seq<string>, memo: Definitions, key: string) {
    forall name :: name in names ==> name in memo && memo[name] == Text(Ref(key))
  }

  /** Not reached so far, or settled on one of its own keys. */
  ghost predicate WholeRing(names: seq<string>, memo: Definitions) {
    Untouched(names, memo) || exists key :: key in names && SettledOn(names, memo, key)
  }

  /** What is settled stays so. */
  ghost predicate KeepsSettled(names: seq<string>, before: Definitions, after: Definitions) {
    forall key :: key in names && SettledOn(names, before, key) ==> SettledOn(names, after, key)
  }

  /** The key at which a cycle is entered becomes what all its keys refer to. */
  lemma EnteredRing(m: Definitions, names: seq<string>, key: string, visiting: set<string>, memo: Definitions)
    requires Ring(m, names) && key in names && key in m && Untouched(names, memo)
    requires forall name :: name in names ==> name !in visiting
    ensures var (text, after) := Guarded(m, Meaning(m, key), visiting + {key}, memo);
            SettledOn(names, after[key := text], key)
  {
    var p :| 0 <= p < |names| && names[p] == key;
    var ring := RingFrom(m, names, p);
    assert forall j :: 0 <= j < |ring| ==> ring[j] in names;
    RoundTheRing(m, ring, 1, visiting + {key}, memo, Text(Ref(key)));
    var (text, after) := Guarded(m, Meaning(m, key), visiting + {key}, memo);
    forall name | name in names ensures name in after[key := text] && after[key := text][name] == Text(Ref(key)) {
      var j :| 0 <= j < |ring| && ring[j] == name;
    }
  }

  lemma {:induction false} GuardedKeepsRing(
    m: Definitions, names: seq<string>, ps: seq<Piece>, visiting: set<string>, memo: Definitions)
    requires Ring(m, names) && WholeRing(names, memo) && forall name :: name in names ==> name !in visiting
    ensures var after := Guarded(m, ps, visiting, memo).1;
            WholeRing(names, after) && KeepsSettled(names, memo, after)
    decreases m.Keys - visiting, |ps|, 1
  {
    if ps != [] {
      PieceKeepsRing(m, names, ps, visiting, memo);
      GuardedKeepsRing(m, names, ps[1..], visiting, GuardedPiece(m, ps, visiting, memo).1);
    }
  }

  lemma {:induction false} PieceKeepsRing(
    m: Definitions, names: seq<string>, ps: seq<Piece>, visiting: set<string>, memo: Definitions)
    requires ps != []
    requires Ring(m, names) && WholeRing(names, memo) && forall name :: name in names ==> name !in visiting
    ensures var after := GuardedPiece(m, ps, visiting, memo).1;
            WholeRing(names, after) && KeepsSettled(names, memo, after)
    decreases m.Keys - visiting, |ps|, 0
  {
    if Known(m, ps[0]) && ps[0].name !in visiting && ps[0].name !in memo {
      ValueKeepsRing(m, names, ps[0].name, visiting, memo);
    }
  }

  /** Resolving one key that is not resolved yet, wherever it leads. */
  lemma {:induction false} ValueKeepsRing(
    m: Definitions, names: seq<string>, key: string, visiting: set<string>, memo: Definitions)
    requires Ring(m, names) && WholeRing(names, memo) && forall name :: name in names ==> name !in visiting
    requires key in m && key !in visiting && key !in memo
    ensures var (text, after) := Guarded(m, Meaning(m, key), visiting + {key}, memo);
            WholeRing(names, after[key := text]) && KeepsSettled(names, memo, after[key := text])
    decreases m.Keys - visiting - {key}, |Meaning(m, key)|, 2
  {
    if key in names {
      EnteredRing(m, names, key, visiting, memo);
    } else {
      GuardedKeepsRing(m, names, Meaning(m, key), visiting + {key}, memo);
    }
  }

  lemma {:induction false} ResolveAllKeepsRing(m: Definitions, names: seq<string>, order: seq<string>, memo: Definitions)
    requires forall i :: 0 <= i < |order| ==> order[i] in m
    requires Ring(m, names) && WholeRing(names, memo)
    ensures WholeRing(names, ResolveAll(m, order, memo)) && KeepsSettled(names, memo, ResolveAll(m, order, memo))
    decreases |order|
  {
    if order != [] {
      if order[0] in memo {
        ResolveAllKeepsRing(m, names, order[1..], memo);
      } else {
        ValueKeepsRing(m, names, order[0], {}, memo);
        assert {} + {order[0]} == {order[0]};
        var (text, after) := Guarded(m, Meaning(m, order[0]), {order[0]}, memo);
        ResolveAllKeepsRing(m, names, order[1..], after[order[0] := text]);
      }
    }
  }

  /** Whatever else the map holds and in whatever order: all keys of a cycle end up as a reference to one of them. */
  lemma CycleSharesOneKey(m: Definitions, names: seq<string>, order: seq<string>)
    requires Ring(m, names) && Enumerates(order, m)
    ensures exists key :: key in names && SettledOn(names, ResolveAll(m, order, map[]), key)
  {
    ResolveAllKeepsRing(m, names, order, map[]);
    ResolveRecursiveCorrect(m, order);
    assert names[0] in names && NextIn(names, 0) in names;
    assert names[0] in ResolveAll(m, order, map[]);
  }

  // ---------- which of them ----------

  /** Names that refer to each other and to nothing else that is defined. */
  ghost predicate Closed(m: Definitions, apart: set<string>) {
    forall name :: name in apart && name in m ==> Within(m, Meaning(m, name), apart)
  }

  ghost predicate Within(m: Definitions, ps: seq<Piece>, apart: set<string>) {
    forall i :: 0 <= i < |ps| && Known(m, ps[i]) ==> ps[i].name in apart
  }

  ghost predicate Avoids(names: seq<string>, apart: set<string>) {
    forall name :: name in names ==> name !in apart
  }

  /** What never leads to the cycle does not touch it. */
  lemma {:induction false} ApartLeavesRing(
    m: Definitions, names: seq<string>, apart: set<string>, ps: seq<Piece>, visiting: set<string>, memo: Definitions)
    requires Closed(m, apart) && Avoids(names, apart) && Within(m, ps, apart) && Untouched(names, memo)
    ensures Untouched(names, Guarded(m, ps, visiting, memo).1)
    decreases m.Keys - visiting, |ps|
  {
    if ps != [] {
      var p := ps[0];
      if Known(m, p) && p.name !in visiting && p.name !in memo {
        ApartLeavesRing(m, names, apart, Meaning(m, p.name), visiting + {p.name}, memo);
      }
      assert Within(m, ps[1..], apart) by {
        assert forall i :: 0 <= i < |ps[1..]| ==> ps[1..][i] == ps[i + 1];
      }
      ApartLeavesRing(m, names, apart, ps[1..], visiting, GuardedPiece(m, ps, visiting, memo).1);
    }
  }

  /** The keys listed before `order[p]` have nothing to do with the cycle. */
  ghost predicate FirstAt(m: Definitions, names: seq<string>, order: seq<string>, p: nat, apart: set<string>) {
    && p < |order| && Closed(m, apart) && Avoids(names, apart)
    && forall i :: 0 <= i < p ==> order[i] in apart
  }

  lemma {:induction false} SettlesWhenEntered(
    m: Definitions, names: seq<string>, order: seq<string>, memo: Definitions, p: nat, apart: set<string>, key: string)
    requires forall i :: 0 <= i < |order| ==> order[i] in m
    requires Ring(m, names) && Untouched(names, memo) && FirstAt(m, names, order, p, apart) && Enters(m, names, order[p], key)
    requires order[p] !in memo && order[p] !in apart && memo.Keys <= apart
    ensures SettledOn(names, ResolveAll(m, order, memo), key)
    decreases |order|
  {
    if p == 0 {
      EnteringSettles(m, names, order[0], key, memo);
      var (text, after) := Guarded(m, Meaning(m, order[0]), {order[0]}, memo);
      ResolveAllKeepsRing(m, names, order[1..], after[order[0] := text]);
    } else if order[0] in memo {
      SettlesWhenEntered(m, names, order[1..], memo, p - 1, apart, key);
    } else {
      assert Within(m, Meaning(m, order[0]), apart);
      ApartLeavesRing(m, names, apart, Meaning(m, order[0]), {order[0]}, memo);
      ApartStaysApart(m, apart, Meaning(m, order[0]), {order[0]}, memo);
      var (text, after) := Guarded(m, Meaning(m, order[0]), {order[0]}, memo);
      SettlesWhenEntered(m, names, order[1..], after[order[0] := text], p - 1, apart, key);
    }
  }

  lemma {:induction false} ApartStaysApart(
    m: Definitions, apart: set<string>, ps: seq<Piece>, visiting: set<string>, memo: Definitions)
    requires Closed(m, apart) && Within(m, ps, apart) && memo.Keys <= apart
    ensures Guarded(m, ps, visiting, memo).1.Keys <= apart
    decreases m.Keys - visiting, |ps|
  {
    if ps != [] {
      var p := ps[0];
      if Known(m, p) && p.name !in visiting && p.name !in memo {
        ApartStaysApart(m, apart, Meaning(m, p.name), visiting + {p.name}, memo);
      }
      assert Within(m, ps[1..], apart) by {
        assert forall i :: 0 <= i < |ps[1..]| ==> ps[1..][i] == ps[i + 1];
      }
      ApartStaysApart(m, apart, ps[1..], visiting, GuardedPiece(m, ps, visiting, memo).1);
    }
  }

  /** `first` is the key of the cycle, or lies outside and its value is a reference to it. */
  ghost predicate Enters(m: Definitions, names: seq<string>, first: string, key: string) {
    key in names && (first == key || (first !in names && first in m && m[first] == Text(Ref(key))))
  }

  lemma EnteringSettles(m: Definitions, names: seq<string>, first: string, key: string, memo: Definitions)
    requires Ring(m, names) && Untouched(names, memo) && first in m && Enters(m, names, first, key)
    ensures var (text, after) := Guarded(m, Meaning(m, first), {first}, memo);
            SettledOn(names, after[first := text], key)
  {
    var i :| 0 <= i < |names| && names[i] == key;
    assert NextIn(names, i) in names && key in m;
    if first == key {
      EnteredRing(m, names, key, {}, memo);
      assert {} + {key} == {key};
    } else {
      RefersTo(m, first, key);
      EnteredRing(m, names, key, {first}, memo);
      var (text, after) := Guarded(m, Meaning(m, key), {first} + {key}, memo);
      GuardedRef(m, key, {first}, memo, text, after);
    }
  }

  /**
   The shared key is the one the iteration meets first, if nothing listed before it leads to the
   cycle; or the one that the first key to lead there refers to, wherever the cycle's own keys are listed.
   */
  lemma CyclesDependOnOrder(m: Definitions, names: seq<string>, order: seq<string>, p: nat, apart: set<string>, key: string)
    requires Ring(m, names) && Enumerates(order, m)
    requires FirstAt(m, names, order, p, apart) && order[p] !in apart && Enters(m, names, order[p], key)
    ensures SettledOn(names, ResolveAll(m, order, map[]), key)
  {
    SettlesWhenEntered(m, names, order, map[], p, apart, key);
  }

  /** Two iteration orders give every key of a cycle the same value exactly when they enter it at the same key. */
  lemma OrdersDiffer(
    m: Definitions, names: seq<string>, name: string, order: seq<string>, other: seq<string>,
    p: nat, q: nat, apart: set<string>, apart': set<string>, key: string, key': string)
    requires Ring(m, names) && Enumerates(order, m) && Enumerates(other, m) && name in names
    requires FirstAt(m, names, order, p, apart) && order[p] !in apart && Enters(m, names, order[p], key)
    requires FirstAt(m, names, other, q, apart') && other[q] !in apart' && Enters(m, names, other[q], key')
    ensures name in ResolveAll(m, order, map[]) && name in ResolveAll(m, other, map[])
    ensures key == key' <==> ResolveAll(m, order, map[])[name] == ResolveAll(m, other, map[])[name]
  {
    CyclesDependOnOrder(m, names, order, p, apart, key);
    CyclesDependOnOrder(m, names, other, q, apart', key');
    assert Text(Ref(key))[2..|Text(Ref(key))| - 2] == key && Text(Ref(key'))[2..|Text(Ref(key'))| - 2] == key';
  }
}
