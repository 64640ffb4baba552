/**
 A value between literal braces: the text that two engines read differently. The front end
 substitutes once; the engine reads the result again and finds a reference in it.
 */
module Seams {
  import opened Prelude
  import opened Templates
  import opened Expansion
  import opened Variables
  import opened VariableScope
  import opened Agreement

  /** A reference to `x` between two pairs of literal braces. */
  function Braced(x: string): string {
    ['{'] + (['{'] + (Text(Ref(x)) + "}}"))
  }

  function BracedPieces(p: Piece): seq<Piece> {
    [Lit('{')] + ([Lit('{')] + ([p] + [Lit('}'), Lit('}')]))
  }

  predicate BraceFree(s: string) {
    forall i :: 0 <= i < |s| ==> !IsBrace(s[i])
  }

  /** The first of three opening braces is literal. */
  lemma OpenThen(rest: string)
    requires |rest| >= 2 && rest[1] == '{'
    ensures Scan(['{'] + rest, 0) == [Lit('{')] + Scan(rest, 0)
  {
    var s := ['{'] + rest;
    assert s[2..][0] == '{' && s[1..] == rest;
    assert !RefAt(s, 0);
  }

  lemma ClosingReads()
    ensures Scan("}}", 0) == [Lit('}'), Lit('}')]
  {
    ScanLitThen('}', "}", 0);
    ScanLitThen('}', "", 0);
    assert ['}'] + "}" == "}}" && ['}'] + "" == "}" && Scan("", 0) == [];
  }

  lemma BracedReads(x: string)
    requires BraceFree(x)
    ensures Scan(Braced(x), 0) == BracedPieces(Ref(x))
  {
    var inner := Text(Ref(x)) + "}}";
    assert inner[0] == '{' && inner[1] == '{';
    ClosingReads();
    ScanRefThen(x, "}}", 0);
    OpenThen(inner);
    OpenThen(['{'] + inner);
  }

  lemma {:induction false} BraceFreeReads(s: string)
    requires BraceFree(s)
    ensures forall i :: 0 <= i < |Scan(s, 0)| ==> Scan(s, 0)[i].Lit? && Scan(s, 0)[i] != Lit('{')
    decreases |s|
  {
    if s != "" {
      BraceFreeReads(s[1..]);
      assert Scan(s, 0) == [Lit(s[0])] + Scan(s[1..], 0);
    }
  }

  lemma {:induction false} LiteralStays(m: Definitions, ps: seq<Piece>, n: nat)
    requires forall i :: 0 <= i < |ps| ==> ps[i].Lit?
    ensures Expand(m, ps, n) == ps && Shallow(m, ps, n)
    decreases |ps|
  {
    if n > 0 && ps != [] {
      LiteralStays(m, ps[1..], n);
      assert ps == [ps[0]] + ps[1..];
    }
  }

  lemma BracedSubstitutes(m: Definitions, x: string)
    requires x in m
    ensures Substitute(BracedPieces(Ref(x)), m) == Text(Ref(m[x]))
  {
    var closing := [Lit('}'), Lit('}')];
    LiteralKept('}', [], m);
    LiteralKept('}', [Lit('}')], m);
    assert closing == [Lit('}')] + [Lit('}')] && [Lit('}')] == [Lit('}')] + [];
    assert Substitute(closing, m) == "}}";
    var middle := [Ref(x)] + closing;
    assert middle[1..] == closing && Substitute(middle, m) == m[x] + "}}";
    LiteralKept('{', middle, m);
    LiteralKept('{', [Lit('{')] + middle, m);
    assert ['{'] + (['{'] + (m[x] + "}}")) == Text(Ref(m[x]));
  }

  /** `x` stands for the name `a`, and `a` for `v`; none of them has a brace or is dynamic. */
  ghost predicate Nested(m: Definitions, x: string, a: string, v: string) {
    && x != a && m == map[x := a, a := v] && x != "" && a != "" && !IsDynamic(x) && !IsDynamic(a)
    && BraceFree(x) && BraceFree(a) && BraceFree(v)
  }

  /**
   Without the spacing that plain text has, the engines part: the engine ends with the value of
   the name between the braces, the front end with the reference to it.
   */
  lemma SeamMakesReference(m: Definitions, x: string, a: string, v: string, dynamics: Dynamics, order: seq<string>, tick: nat)
    requires Nested(m, x, a, v) && Enumerates(order, m)
    ensures Rounds(m, dynamics, Braced(x), MAX_RESOLVE_DEPTH, tick).0 == v
    ensures ApplyVariables(Braced(x), ResolveAll(m, order, map[])) == Text(Ref(a))
  {
    BracedReads(x);
    FrontEndKeepsReference(m, x, a, v, order);
    EngineFollowsReference(m, x, a, v, dynamics, MAX_RESOLVE_DEPTH, tick);
  }

  lemma FrontEndKeepsReference(m: Definitions, x: string, a: string, v: string, order: seq<string>)
    requires Nested(m, x, a, v) && Enumerates(order, m) && Scan(Braced(x), 0) == BracedPieces(Ref(x))
    ensures ApplyVariables(Braced(x), ResolveAll(m, order, map[])) == Text(Ref(a))
  {
    ResolveRecursiveCorrect(m, order);
    BraceFreeReads(a);
    LiteralStays(m, Meaning(m, x), 0);
    RenderScan(a, 0);
    BracedSubstitutes(ResolveAll(m, order, map[]), x);
  }

  lemma EngineFollowsReference(m: Definitions, x: string, a: string, v: string, dynamics: Dynamics, n: nat, tick: nat)
    requires Nested(m, x, a, v) && n > 1 && Scan(Braced(x), 0) == BracedPieces(Ref(x))
    ensures Rounds(m, dynamics, Braced(x), n, tick).0 == v
  {
    var s, t, next := Braced(x), Table(m), Text(Ref(a));
    StrictScanSubstitutes(s, t);
    BracedSubstitutes(t, x);
    PlainRound(t, dynamics, m, s, BracedPieces(Ref(x)), next, tick);
    OneRound(m, dynamics, s, n, tick, next, tick);
    assert s[2] == '{' && next != s by {
      assert next[2..|a| + 2] == a;
      if a != "" { assert !IsBrace(a[0]); }
      assert next[2] == a[0];
    }
    ReferenceReads(a);
    NestedIsPlain(m, x, a, v, dynamics);
    RoundsArePasses(t, dynamics, m, next, [Ref(a)], n - 1, tick);
    PassesAreExpansion(t, dynamics, m, next, [Ref(a)], n - 1);
    ReferenceExpands(m, a, v, n - 1);
  }

  lemma NestedIsPlain(m: Definitions, x: string, a: string, v: string, dynamics: Dynamics)
    requires Nested(m, x, a, v)
    ensures PlainDefinitions(dynamics, m) && Plain(dynamics, [Ref(a)])
  {
    BraceFreeReads(a);
    BraceFreeReads(v);
    assert PlainDefinition(dynamics, m, x) && PlainDefinition(dynamics, m, a);
  }

  lemma ReferenceExpands(m: Definitions, a: string, v: string, n: nat)
    requires a in m && m[a] == v && BraceFree(v) && n > 0
    ensures Render(Expand(m, [Ref(a)], n)) == v
  {
    BraceFreeReads(v);
    LiteralStays(m, Meaning(m, a), n - 1);
    ExpandOne(m, Ref(a), n);
    RenderScan(v, 0);
  }
}
