/**
 What it means to expand references, independently of both implementations: a
 definition map `m` sends names to texts that may refer to further names.
 */
module Expansion {
  import opened Prelude
  import opened Templates

  type Definitions = map<string, string>

  /** The pieces a known reference stands for. */
  function Meaning(m: Definitions, name: string): seq<Piece>
    requires name in m
  {
    Scan(m[name], 0)
  }

  /** Full expansion down to `depth` levels of references, without memory and without guard. */
  function Expand(m: Definitions, ps: seq<Piece>, depth: nat): seq<Piece>
    decreases depth, |ps|
  {
    if depth == 0 || ps == [] then ps
    else
      (if Known(m, ps[0]) then Expand(m, Meaning(m, ps[0].name), depth - 1) else [ps[0]])
      + Expand(m, ps[1..], depth)
  }

  /** The references in `ps` are at most `depth` levels deep. */
  predicate Shallow(m: Definitions, ps: seq<Piece>, depth: nat)
    decreases depth
  {
    forall i :: 0 <= i < |ps| && Known(m, ps[i]) ==>
      depth > 0 && Shallow(m, Meaning(m, ps[i].name), depth - 1)
  }

  /** The reference depth of `ps` is finite: nothing in it leads to a cycle (see `ShallowIffNoCycle`). */
  ghost predicate Finite(m: Definitions, ps: seq<Piece>) {
    exists depth :: Shallow(m, ps, depth)
  }

  lemma {:induction false} ShallowGrows(m: Definitions, ps: seq<Piece>, d: nat, e: nat)
    requires Shallow(m, ps, d) && d <= e
    ensures Shallow(m, ps, e)
    decreases d
  {
    forall i | 0 <= i < |ps| && Known(m, ps[i])
      ensures e > 0 && Shallow(m, Meaning(m, ps[i].name), e - 1)
    {
      ShallowGrows(m, Meaning(m, ps[i].name), d - 1, e - 1);
    }
  }

  lemma ShallowSuffix(m: Definitions, ps: seq<Piece>, d: nat)
    requires ps != [] && Shallow(m, ps, d)
    ensures Shallow(m, ps[1..], d)
  {
    forall i | 0 <= i < |ps[1..]| && Known(m, ps[1..][i])
      ensures d > 0 && Shallow(m, Meaning(m, ps[1..][i].name), d - 1)
    {
      assert ps[1..][i] == ps[i + 1];
    }
  }

  /** A text that refers to `name` is strictly deeper than the body of `name`. */
  lemma ShallowBody(m: Definitions, ps: seq<Piece>, i: nat, d: nat)
    requires i < |ps| && Known(m, ps[i]) && Shallow(m, ps, d)
    ensures d > 0 && Shallow(m, Meaning(m, ps[i].name), d - 1)
  {
  }

  // ---------- one level at a time ----------

  /** One pass: every known reference replaced by the pieces of its definition. */
  function Step(m: Definitions, ps: seq<Piece>): seq<Piece> {
    if ps == [] then []
    else (if Known(m, ps[0]) then Meaning(m, ps[0].name) else [ps[0]]) + Step(m, ps[1..])
  }

  lemma {:induction false} ExpandConcat(m: Definitions, ps: seq<Piece>, qs: seq<Piece>, d: nat)
    ensures Expand(m, ps + qs, d) == Expand(m, ps, d) + Expand(m, qs, d)
    decreases |ps|
  {
    if d == 0 {
    } else if ps == [] {
      assert ps + qs == qs;
    } else {
      ExpandConcat(m, ps[1..], qs, d);
      assert (ps + qs)[1..] == ps[1..] + qs;
      var head := if Known(m, ps[0]) then Expand(m, Meaning(m, ps[0].name), d - 1) else [ps[0]];
      Associative(head, Expand(m, ps[1..], d), Expand(m, qs, d));
    }
  }

  /** Expanding `d + 1` levels is one pass followed by `d` levels. */
  lemma {:induction false} ExpandStep(m: Definitions, ps: seq<Piece>, d: nat)
    ensures Expand(m, ps, d + 1) == Expand(m, Step(m, ps), d)
    decreases |ps|
  {
    if ps == [] {
    } else {
      var head := if Known(m, ps[0]) then Meaning(m, ps[0].name) else [ps[0]];
      ExpandStep(m, ps[1..], d);
      ExpandConcat(m, head, Step(m, ps[1..]), d);
      if !Known(m, ps[0]) && d > 0 {
        assert Expand(m, [ps[0]], d) == [ps[0]] + Expand(m, [ps[0]][1..], d);
        assert [ps[0]][1..] == [];
      }
    }
  }

  predicate Mentioning(m: Definitions, ps: seq<Piece>) {
    exists i :: 0 <= i < |ps| && Known(m, ps[i])
  }

  /** After `d` levels nothing known is left exactly when `d` levels were enough. */
  lemma {:induction false} ExpandedIffShallow(m: Definitions, ps: seq<Piece>, d: nat)
    ensures !Mentioning(m, Expand(m, ps, d)) <==> Shallow(m, ps, d)
    decreases d, |ps|
  {
    if d == 0 || ps == [] {
    } else {
      var p, t := ps[0], ps[1..];
      var head := if Known(m, p) then Expand(m, Meaning(m, p.name), d - 1) else [p];
      var tail := Expand(m, t, d);
      ExpandedIffShallow(m, t, d);
      if Known(m, p) {
        ExpandedIffShallow(m, Meaning(m, p.name), d - 1);
      }
      MentioningConcat(m, head, tail);
      ShallowCons(m, ps, d);
      assert Expand(m, ps, d) == head + tail;
    }
  }

  lemma MentioningConcat(m: Definitions, ps: seq<Piece>, qs: seq<Piece>)
    ensures Mentioning(m, ps + qs) <==> Mentioning(m, ps) || Mentioning(m, qs)
  {
    if i :| 0 <= i < |ps| && Known(m, ps[i]) {
      assert (ps + qs)[i] == ps[i];
    }
    if i :| 0 <= i < |qs| && Known(m, qs[i]) {
      assert (ps + qs)[|ps| + i] == qs[i];
    }
  }

  lemma ShallowCons(m: Definitions, ps: seq<Piece>, d: nat)
    requires ps != [] && d > 0
    ensures Shallow(m, ps, d) <==>
            (Known(m, ps[0]) ==> Shallow(m, Meaning(m, ps[0].name), d - 1)) && Shallow(m, ps[1..], d)
  {
    if Shallow(m, ps, d) {
      ShallowSuffix(m, ps, d);
    }
    if (Known(m, ps[0]) ==> Shallow(m, Meaning(m, ps[0].name), d - 1)) && Shallow(m, ps[1..], d) {
      forall i | 0 <= i < |ps| && Known(m, ps[i])
        ensures Shallow(m, Meaning(m, ps[i].name), d - 1)
      {
        if i > 0 { assert ps[i] == ps[1..][i - 1]; }
      }
    }
  }

  // ---------- finite depth is the absence of cycles ----------

  predicate Mentions(ps: seq<Piece>, name: string) {
    exists i :: 0 <= i < |ps| && ps[i] == Ref(name)
  }

  /** A chain of definitions, each mentioned by the text before it, starting in `ps`. */
  predicate Chain(m: Definitions, ps: seq<Piece>, names: seq<string>)
    decreases |names|
  {
    names == []
    || (names[0] in m && Mentions(ps, names[0]) && Chain(m, Meaning(m, names[0]), names[1..]))
  }

  /** `ps` leads to a definition that leads back to itself. */
  ghost predicate ReachesCycle(m: Definitions, ps: seq<Piece>) {
    exists names, i, j {:trigger Chain(m, ps, names), names[i], names[j]} ::
      Chain(m, ps, names) && 0 <= i < j < |names| && names[i] == names[j]
  }

  lemma {:induction false} DeepHasChain(m: Definitions, ps: seq<Piece>, d: nat) returns (names: seq<string>)
    requires !Shallow(m, ps, d)
    ensures |names| == d + 1 && Chain(m, ps, names)
    decreases d
  {
    var i :| 0 <= i < |ps| && Known(m, ps[i]) && !(d > 0 && Shallow(m, Meaning(m, ps[i].name), d - 1));
    var name := ps[i].name;
    assert ps[i] == Ref(name);
    if d == 0 {
      names := [name];
    } else {
      var rest := DeepHasChain(m, Meaning(m, name), d - 1);
      names := [name] + rest;
      assert names[1..] == rest;
    }
  }

  lemma {:induction false} ChainBounded(m: Definitions, ps: seq<Piece>, names: seq<string>, d: nat)
    requires Chain(m, ps, names) && Shallow(m, ps, d)
    ensures |names| <= d
    decreases |names|
  {
    if names != [] {
      var i :| 0 <= i < |ps| && ps[i] == Ref(names[0]);
      ShallowBody(m, ps, i, d);
      ChainBounded(m, Meaning(m, names[0]), names[1..], d - 1);
    }
  }

  lemma {:induction false} ChainNames(m: Definitions, ps: seq<Piece>, names: seq<string>)
    requires Chain(m, ps, names)
    ensures forall i :: 0 <= i < |names| ==> names[i] in m
    decreases |names|
  {
    if names != [] {
      ChainNames(m, Meaning(m, names[0]), names[1..]);
      forall i | 0 <= i < |names| ensures names[i] in m {
        if i > 0 { assert names[i] == names[1..][i - 1]; }
      }
    }
  }

  /** Reads the text at position `k` of a chain: the rest of the chain starts in that definition. */
  lemma {:induction false} ChainDrop(m: Definitions, ps: seq<Piece>, names: seq<string>, k: nat)
    requires Chain(m, ps, names) && k < |names|
    ensures names[k] in m && Chain(m, Meaning(m, names[k]), names[k + 1..])
    decreases |names|
  {
    if k > 0 {
      ChainDrop(m, Meaning(m, names[0]), names[1..], k - 1);
      assert names[1..][k - 1] == names[k];
      assert names[1..][k..] == names[k + 1..];
    } else {
      assert names[0 + 1..] == names[1..];
    }
  }

  lemma {:induction false} ChainJoin(m: Definitions, ps: seq<Piece>, a: seq<string>, b: seq<string>)
    requires a != [] && Chain(m, ps, a) && a[|a| - 1] in m && Chain(m, Meaning(m, a[|a| - 1]), b)
    ensures Chain(m, ps, a + b)
    decreases |a|
  {
    if |a| == 1 {
      assert (a + b)[1..] == b;
    } else {
      assert a[1..][|a[1..]| - 1] == a[|a| - 1];
      ChainJoin(m, Meaning(m, a[0]), a[1..], b);
      assert (a + b)[1..] == a[1..] + b;
    }
  }

  /** A chain that closes a loop can follow the loop as often as one likes. */
  lemma {:induction false} LoopUnrolled(m: Definitions, ps: seq<Piece>, names: seq<string>, i: nat, j: nat, times: nat)
    returns (longer: seq<string>)
    requires Chain(m, ps, names) && i < j < |names| && names[i] == names[j]
    ensures Chain(m, ps, longer) && |longer| >= times
    decreases times
  {
    ChainPrefix(m, ps, names, j + 1);
    ChainDrop(m, ps, names, i);
    var loop := names[i + 1..][..j - i];
    ChainPrefix(m, Meaning(m, names[i]), names[i + 1..], j - i);
    assert loop[|loop| - 1] == names[j];
    longer := names[..j + 1];
    while |longer| < times
      invariant Chain(m, ps, longer) && longer != [] && longer[|longer| - 1] == names[j]
    {
      ChainJoin(m, ps, longer, loop);
      longer := longer + loop;
    }
  }

  lemma {:induction false} ChainPrefix(m: Definitions, ps: seq<Piece>, names: seq<string>, k: nat)
    requires Chain(m, ps, names) && k <= |names|
    ensures Chain(m, ps, names[..k])
    decreases k
  {
    if k > 0 {
      ChainPrefix(m, Meaning(m, names[0]), names[1..], k - 1);
      assert names[..k][1..] == names[1..][..k - 1];
    }
  }

  /** A sequence longer than the set it draws from repeats an element. */
  lemma {:induction false} Pigeonhole(names: seq<string>, from: set<string>) returns (i: nat, j: nat)
    requires |names| > |from| && forall k :: 0 <= k < |names| ==> names[k] in from
    ensures i < j < |names| && names[i] == names[j]
    decreases |names|
  {
    var rest := names[1..];
    if k :| 0 <= k < |rest| && rest[k] == names[0] {
      i, j := 0, k + 1;
    } else {
      i, j := Pigeonhole(rest, from - {names[0]});
      i, j := i + 1, j + 1;
    }
  }

  /** References have a finite depth exactly when they lead to no cycle; then `|m|` bounds it. */
  lemma ShallowIffNoCycle(m: Definitions, ps: seq<Piece>)
    ensures Finite(m, ps) <==> !ReachesCycle(m, ps)
    ensures Finite(m, ps) <==> Shallow(m, ps, |m|)
  {
    if !Shallow(m, ps, |m|) {
      var names := DeepHasChain(m, ps, |m|);
      ChainNames(m, ps, names);
      assert |m.Keys| == |m|;
      var i, j := Pigeonhole(names, m.Keys);
      assert ReachesCycle(m, ps);
    }
    if ReachesCycle(m, ps) && Finite(m, ps) {
      var names, i, j :| Chain(m, ps, names) && 0 <= i < j < |names| && names[i] == names[j];
      var d: nat :| Shallow(m, ps, d);
      var longer := LoopUnrolled(m, ps, names, i, j, d + 1);
      ChainBounded(m, ps, longer, d);
      assert false;
    }
  }
}
