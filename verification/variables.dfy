/** The engine's variable store and its resolver. */
module Variables {
  import opened Prelude
  import opened Templates
  import opened Expansion

  /** Scopes in order of priority, highest first. */
  datatype Scope = Local | Data | Environment | Collection | Global

  function Rank(scope: Scope): (r: nat)
    ensures r < 5
  {
    match scope
    case Local => 0
    case Data => 1
    case Environment => 2
    case Collection => 3
    case Global => 4
  }

  /** The contents of all scopes, as values. */
  datatype Scopes = Scopes(
    local: Definitions, data: Definitions, environment: Definitions,
    collection: Definitions, global: Definitions)
  {
    function At(scope: Scope): Definitions {
      match scope
      case Local => local
      case Data => data
      case Environment => environment
      case Collection => collection
      case Global => global
    }

    function With(scope: Scope, m: Definitions): Scopes {
      match scope
      case Local => this.(local := m)
      case Data => this.(data := m)
      case Environment => this.(environment := m)
      case Collection => this.(collection := m)
      case Global => this.(global := m)
    }

    /** The definitions in force: a name means what its highest-priority scope says. */
    function Effective(): Definitions {
      global + collection + environment + data + local
    }
  }

  /** Local over data over environment over collection over global. */
  lemma PriorityOrder(s: Scopes, name: string)
    ensures var m := s.Effective();
            if name in s.local then name in m && m[name] == s.local[name]
            else if name in s.data then name in m && m[name] == s.data[name]
            else if name in s.environment then name in m && m[name] == s.environment[name]
            else if name in s.collection then name in m && m[name] == s.collection[name]
            else if name in s.global then name in m && m[name] == s.global[name]
            else name !in m
  {
  }

  const EMPTY_SCOPES := Scopes(map[], map[], map[], map[], map[])

  /** Number of passes after which circular references are given up. */
  const MAX_RESOLVE_DEPTH: nat := 10

  predicate IsDynamic(name: string) {
    name != "" && name[0] == '$'
  }

  /**
   The generators behind the dynamic names. `value(n, name)` is what the n-th evaluation yields:
   every occurrence of a dynamic name, in every pass, is evaluated anew.
   */
  datatype Dynamics = Dynamics(known: set<string>, value: (nat, string) -> string)

  predicate IsDrawn(dynamics: Dynamics, p: Piece) {
    p.Ref? && IsDynamic(p.name) && p.name[1..] in dynamics.known
  }

  /** What one piece is replaced by. */
  function Replacement(defs: Definitions, dynamics: Dynamics, p: Piece, tick: nat): string {
    if IsDrawn(dynamics, p) then dynamics.value(tick, p.name[1..])
    else if p.Ref? && !IsDynamic(p.name) && p.name in defs then defs[p.name]
    else Text(p)
  }

  /** One pass from left to right, and the number of evaluations so far. */
  function PassOver(defs: Definitions, dynamics: Dynamics, ps: seq<Piece>, tick: nat): (string, nat) {
    if ps == [] then ("", tick)
    else
      var rest := PassOver(defs, dynamics, ps[1..], if IsDrawn(dynamics, ps[0]) then tick + 1 else tick);
      (Replacement(defs, dynamics, ps[0], tick) + rest.0, rest.1)
  }

  /** At most `n` passes; a pass that changes nothing is the last one. */
  function Rounds(defs: Definitions, dynamics: Dynamics, s: string, n: nat, tick: nat): (string, nat)
    decreases n
  {
    if n == 0 then (s, tick)
    else
      var (next, tick1) := PassOver(defs, dynamics, Scan(s, 1), tick);
      if next == s then (s, tick1) else Rounds(defs, dynamics, next, n - 1, tick1)
  }

  lemma OneRound(defs: Definitions, dynamics: Dynamics, s: string, n: nat, tick: nat, next: string, tick1: nat)
    requires n > 0 && (next, tick1) == PassOver(defs, dynamics, Scan(s, 1), tick)
    ensures Rounds(defs, dynamics, s, n, tick)
         == if next == s then (s, tick1) else Rounds(defs, dynamics, next, n - 1, tick1)
  {
  }

  /** A pass evaluates each occurrence of a known dynamic name once, and nothing else. */
  lemma {:induction false} EveryOccurrenceIsDrawn(defs: Definitions, dynamics: Dynamics, ps: seq<Piece>, tick: nat)
    ensures PassOver(defs, dynamics, ps, tick).1 == tick + Occurrences(dynamics, ps)
  {
    if ps != [] {
      EveryOccurrenceIsDrawn(defs, dynamics, ps[1..], if IsDrawn(dynamics, ps[0]) then tick + 1 else tick);
    }
  }

  function Occurrences(dynamics: Dynamics, ps: seq<Piece>): nat {
    if ps == [] then 0 else (if IsDrawn(dynamics, ps[0]) then 1 else 0) + Occurrences(dynamics, ps[1..])
  }

  // ---------- without dynamic names ----------

  /** The names a pass replaces whatever the generators do: defined ones without `$`. */
  function Table(defs: Definitions): (t: Definitions)
    ensures "" !in t
  {
    map name | name in defs && name != "" && !IsDynamic(name) :: defs[name]
  }

  /** `n` substitution passes. */
  function Passes(t: Definitions, s: string, n: nat): string
    decreases n
  {
    if n == 0 then s else Passes(t, Substitute(Scan(s, 1), t), n - 1)
  }

  lemma OnePass(t: Definitions, s: string, n: nat, next: string)
    requires n > 0 && next == Substitute(Scan(s, 1), t)
    ensures Passes(t, s, n) == Passes(t, next, n - 1)
  {
  }

  lemma {:induction false} PassesAtFixpoint(t: Definitions, s: string, n: nat)
    requires Substitute(Scan(s, 1), t) == s
    ensures Passes(t, s, n) == s
  {
    if n > 0 { PassesAtFixpoint(t, s, n - 1); }
  }

  /** Without a known dynamic name a pass is plain substitution. */
  lemma {:induction false} UndrawnIsSubstitution(defs: Definitions, dynamics: Dynamics, ps: seq<Piece>, tick: nat)
    requires forall i :: 0 <= i < |ps| ==> !IsDrawn(dynamics, ps[i]) && (ps[i].Ref? ==> ps[i].name != "")
    ensures PassOver(defs, dynamics, ps, tick) == (Substitute(ps, Table(defs)), tick)
  {
    if ps != [] {
      assert !IsDrawn(dynamics, ps[0]);
      UndrawnIsSubstitution(defs, dynamics, ps[1..], tick);
    }
  }

  /** A mutable map: what the source's maps are, so that sharing one shows. */
  class VarMap {
    var entries: Definitions

    constructor (entries: Definitions)
      ensures this.entries == entries
    {
      this.entries := entries;
    }
  }

  class Resolver {
    const scopes: array<VarMap>

    ghost predicate Valid()
      reads this, scopes
    {
      && scopes.Length == 5
      && forall i, j :: 0 <= i < j < 5 ==> scopes[i] != scopes[j]
    }

    ghost function View(): Scopes
      requires Valid()
      reads this, scopes, scopes[..]
    {
      Scopes(scopes[0].entries, scopes[1].entries, scopes[2].entries, scopes[3].entries, scopes[4].entries)
    }

    constructor ()
      ensures Valid() && fresh(scopes) && (forall i :: 0 <= i < 5 ==> fresh(scopes[i])) && View() == EMPTY_SCOPES
    {
      var maps: seq<VarMap> := [];
      for i := 0 to 5
        invariant |maps| == i && forall j :: 0 <= j < i ==> fresh(maps[j]) && maps[j].entries == map[]
        invariant forall j, k :: 0 <= j < k < i ==> maps[j] != maps[k]
      {
        var m := new VarMap(map[]);
        maps := maps + [m];
      }
      scopes := new VarMap[5](i requires 0 <= i < 5 => maps[i]);
      new;
      assert forall i :: 0 <= i < 5 ==> scopes[i] == maps[i];
    }

    method Set(scope: Scope, key: string, value: string)
      requires Valid()
      modifies scopes[Rank(scope)]
      ensures Valid()
      ensures View() == old(View()).With(scope, old(View()).At(scope)[key := value])
    {
      var m := scopes[Rank(scope)];
      m.entries := m.entries[key := value];
    }

    /** The first scope that defines `key`. */
    method Get(key: string) returns (r: Option<string>)
      requires Valid()
      ensures r == if key in View().Effective() then Some(View().Effective()[key]) else None
    {
      var i := 0;
      while i < 5
        invariant i <= 5 && forall j :: 0 <= j < i ==> key !in scopes[j].entries
      {
        if key in scopes[i].entries {
          return Some(scopes[i].entries[key]);
        }
        i := i + 1;
      }
      r := None;
    }

    /** A copy: later changes to either side are not seen by the other. */
    method Snapshot(scope: Scope) returns (m: VarMap)
      requires Valid()
      ensures fresh(m) && m.entries == View().At(scope)
    {
      m := new VarMap(scopes[Rank(scope)].entries);
    }

    /** Takes over a copy of `values`, so the caller keeps no way into the store. */
    method ReplaceScope(scope: Scope, values: VarMap)
      requires Valid()
      modifies scopes
      ensures Valid() && fresh(scopes[Rank(scope)])
      ensures forall i :: 0 <= i < 5 && i != Rank(scope) ==> scopes[i] == old(scopes[i])
      ensures View() == old(View()).With(scope, values.entries)
    {
      var m := new VarMap(values.entries);
      scopes[Rank(scope)] := m;
    }

    /** One `ReplaceAllStringFunc`; `tick` counts the evaluations of dynamic names. */
    method Pass(s: string, dynamics: Dynamics, tick: nat) returns (next: string, tick': nat)
      requires Valid()
      ensures (next, tick') == PassOver(View().Effective(), dynamics, Scan(s, 1), tick)
    {
      ghost var defs := View().Effective();
      var ps := Scan(s, 1);
      next, tick' := "", tick;
      var i := 0;
      assert ps[0..] == ps && next + PassOver(defs, dynamics, ps, tick').0 == PassOver(defs, dynamics, ps, tick').0;
      while i < |ps|
        invariant i <= |ps|
        invariant var rest := PassOver(defs, dynamics, ps[i..], tick');
                  (next + rest.0, rest.1) == PassOver(defs, dynamics, ps, tick)
      {
        assert ps[i..][0] == ps[i] && ps[i..][1..] == ps[i + 1..];
        ghost var before, drawn := next, tick';
        var text := Text(ps[i]);
        if ps[i].Ref? {
          var key := ps[i].name;
          if IsDynamic(key) {
            if key[1..] in dynamics.known {
              text := dynamics.value(tick', key[1..]);
              tick' := tick' + 1;
            }
          } else {
            var v := Get(key);
            if v.Some? {
              text := v.value;
            }
          }
        }
        assert text == Replacement(defs, dynamics, ps[i], drawn);
        Associative(before, text, PassOver(defs, dynamics, ps[i + 1..], tick').0);
        next := next + text;
        i := i + 1;
      }
      assert next + "" == next;
    }

    method Resolve(s: string, dynamics: Dynamics, tick: nat) returns (r: string, tick': nat)
      requires Valid()
      ensures (r, tick') == Rounds(View().Effective(), dynamics, s, MAX_RESOLVE_DEPTH, tick)
    {
      ghost var defs := View().Effective();
      r, tick' := s, tick;
      for round := 0 to MAX_RESOLVE_DEPTH
        invariant Rounds(defs, dynamics, r, MAX_RESOLVE_DEPTH - round, tick')
               == Rounds(defs, dynamics, s, MAX_RESOLVE_DEPTH, tick)
      {
        var next, tick1 := Pass(r, dynamics, tick');
        OneRound(defs, dynamics, r, MAX_RESOLVE_DEPTH - round, tick', next, tick1);
        tick' := tick1;
        if next == r {
          break;
        }
        r := next;
      }
    }
  }

  /** The engine's pattern never yields an empty name. */
  lemma {:induction false} NamesNonEmpty(s: string)
    ensures forall i :: 0 <= i < |Scan(s, 1)| && Scan(s, 1)[i].Ref? ==> Scan(s, 1)[i].name != ""
    decreases |s|
  {
    if s == "" {
    } else if RefAt(s, 1) {
      NamesNonEmpty(s[NameLength(s[2..]) + 4..]);
    } else {
      NamesNonEmpty(s[1..]);
    }
  }
}
