/**
 What resolving a text yields, slot by slot: generated names are drawn from left to right, one
 evaluation each, defined names get their values, and what is neither stays as written.
 */
module Substitution {
  import opened Prelude
  import opened Templates
  import opened Expansion
  import opened Variables

  /** Texts with something between each two. */
  function Interleaved(texts: seq<string>, middles: seq<string>): string
    requires |texts| == |middles| + 1
  {
    if middles == [] then texts[0] else texts[0] + (middles[0] + Interleaved(texts[1..], middles[1..]))
  }

  function Slot(name: string): string {
    "{{" + name + "}}"
  }

  function Slots(names: seq<string>): seq<string> {
    seq(|names|, k requires 0 <= k < |names| => Slot(names[k]))
  }

  predicate BraceFree(s: string) {
    forall i :: 0 <= i < |s| ==> s[i] != '{' && s[i] != '}'
  }

  predicate Dollar(name: string) {
    name != "" && name[0] == '$'
  }

  predicate IsGenerated(dynamics: Dynamics, name: string) {
    Dollar(name) && name[1..] in dynamics.known
  }

  /** How many of the first `k` names are generated. */
  function Drawn(dynamics: Dynamics, names: seq<string>, k: nat): nat
    requires k <= |names|
  {
    if k == 0 then 0 else (if IsGenerated(dynamics, names[0]) then 1 else 0) + Drawn(dynamics, names[1..], k - 1)
  }

  /** What slot `k` is to show: a generated name's next value, a defined name's definition, anything else itself. */
  predicate ShowsAt(defs: Definitions, dynamics: Dynamics, names: seq<string>, values: seq<string>, tick: nat, k: nat)
    requires k < |names| && |values| == |names|
  {
    var name, value := names[k], values[k];
    if Dollar(name) then
      if name[1..] in dynamics.known
      then value == dynamics.value(tick + Drawn(dynamics, names, k), name[1..]) && BraceFree(value)
      else value == Slot(name)
    else
      if name in defs then value == defs[name] && BraceFree(value) else value == Slot(name)
  }

  predicate Shows(defs: Definitions, dynamics: Dynamics, names: seq<string>, values: seq<string>, tick: nat) {
    |values| == |names| && forall k :: 0 <= k < |names| ==> ShowsAt(defs, dynamics, names, values, tick, k)
  }

  predicate Readable(texts: seq<string>, names: seq<string>) {
    && |texts| == |names| + 1
    && (forall k :: 0 <= k < |texts| ==> BraceFree(texts[k]))
    && (forall k :: 0 <= k < |names| ==> names[k] != "" && BraceFree(names[k]))
  }

  // ---------- pieces ----------

  function Lits(s: string): seq<Piece> {
    seq(|s|, i requires 0 <= i < |s| => Lit(s[i]))
  }

  /** The same with pieces: texts with something between each two. */
  function Woven(texts: seq<string>, middles: seq<seq<Piece>>): seq<Piece>
    requires |texts| == |middles| + 1
  {
    if middles == [] then Lits(texts[0]) else Lits(texts[0]) + (middles[0] + Woven(texts[1..], middles[1..]))
  }

  /** No literal brace, and names the engine's pattern reads. */
  predicate Tame(ps: seq<Piece>) {
    forall i :: 0 <= i < |ps| ==>
      match ps[i] case Lit(c) => c != '{' && c != '}' case Ref(name) => name != "" && BraceFree(name)
  }

  lemma {:induction false} TameReads(ps: seq<Piece>)
    requires Tame(ps)
    ensures Scan(Render(ps), 1) == ps
  {
    if ps != [] {
      var t := ps[1..];
      TameReads(t);
      ScanPieceThen(ps[0], Render(t), t, 1);
      assert ps == [ps[0]] + t;
    }
  }

  lemma {:induction false} LitsRender(s: string)
    ensures Render(Lits(s)) == s && Tame(Lits(s)) == BraceFree(s)
  {
    if s != "" {
      LitsRender(s[1..]);
      assert Lits(s)[1..] == Lits(s[1..]);
      assert s == [s[0]] + s[1..];
      if Tame(Lits(s)) {
        forall i | 0 <= i < |s| ensures s[i] != '{' && s[i] != '}' {
          assert Lits(s)[i] == Lit(s[i]);
        }
      }
    }
  }

  lemma {:induction false} WovenRenders(texts: seq<string>, middles: seq<seq<Piece>>, shown: seq<string>)
    requires |texts| == |middles| + 1 && |shown| == |middles|
    requires forall k :: 0 <= k < |texts| ==> BraceFree(texts[k])
    requires forall k :: 0 <= k < |middles| ==> Tame(middles[k]) && Render(middles[k]) == shown[k]
    ensures Render(Woven(texts, middles)) == Interleaved(texts, shown) && Tame(Woven(texts, middles))
    decreases |middles|
  {
    LitsRender(texts[0]);
    if middles != [] {
      var rest := Woven(texts[1..], middles[1..]);
      WovenRenders(texts[1..], middles[1..], shown[1..]);
      RenderConcat(middles[0], rest);
      RenderConcat(Lits(texts[0]), middles[0] + rest);
    }
  }

  // ---------- one pass ----------

  lemma {:induction false} PassConcat(defs: Definitions, dynamics: Dynamics, ps: seq<Piece>, qs: seq<Piece>, tick: nat)
    ensures var (a, tick1) := PassOver(defs, dynamics, ps, tick);
            var (b, tick2) := PassOver(defs, dynamics, qs, tick1);
            PassOver(defs, dynamics, ps + qs, tick) == (a + b, tick2)
    decreases |ps|
  {
    if ps == [] {
      var (b, _) := PassOver(defs, dynamics, qs, tick);
      assert ps + qs == qs && "" + b == b;
    } else {
      var tick1 := if IsDrawn(dynamics, ps[0]) then tick + 1 else tick;
      PassConcat(defs, dynamics, ps[1..], qs, tick1);
      assert (ps + qs)[1..] == ps[1..] + qs;
      var (a, tick2) := PassOver(defs, dynamics, ps[1..], tick1);
      Associative(Replacement(defs, dynamics, ps[0], tick), a, PassOver(defs, dynamics, qs, tick2).0);
    }
  }

  lemma {:induction false} PassLits(defs: Definitions, dynamics: Dynamics, s: string, tick: nat)
    ensures PassOver(defs, dynamics, Lits(s), tick) == (s, tick)
  {
    if s != "" {
      PassLits(defs, dynamics, s[1..], tick);
      assert Lits(s)[1..] == Lits(s[1..]);
      assert s == [s[0]] + s[1..];
    }
  }

  lemma {:induction false} PassSlot(defs: Definitions, dynamics: Dynamics, name: string, tick: nat)
    requires name != ""
    ensures PassOver(defs, dynamics, [Ref(name)], tick)
         == if IsGenerated(dynamics, name) then (dynamics.value(tick, name[1..]), tick + 1)
            else if !Dollar(name) && name in defs then (defs[name], tick)
            else (Slot(name), tick)
  {
    var p := Ref(name);
    assert [p][1..] == [] && Text(p) == Slot(name);
    assert Replacement(defs, dynamics, p, tick) + "" == Replacement(defs, dynamics, p, tick);
  }

  /** Between each two texts a pass makes of the pieces what is shown there. */
  lemma {:induction false} PassWoven(defs: Definitions, dynamics: Dynamics, texts: seq<string>, middles: seq<seq<Piece>>,
                                     shown: seq<string>, ticks: seq<nat>)
    requires |texts| == |middles| + 1 && |shown| == |middles| && |ticks| == |texts|
    requires forall k :: 0 <= k < |middles| ==>
               PassOver(defs, dynamics, middles[k], ticks[k]) == (shown[k], ticks[k + 1])
    ensures PassOver(defs, dynamics, Woven(texts, middles), ticks[0]) == (Interleaved(texts, shown), ticks[|ticks| - 1])
    decreases |middles|
  {
    PassLits(defs, dynamics, texts[0], ticks[0]);
    if middles != [] {
      var rest := Woven(texts[1..], middles[1..]);
      PassWoven(defs, dynamics, texts[1..], middles[1..], shown[1..], ticks[1..]);
      PassConcat(defs, dynamics, middles[0], rest, ticks[0]);
      PassConcat(defs, dynamics, Lits(texts[0]), middles[0] + rest, ticks[0]);
    }
  }

  // ---------- the slots ----------

  function Refs(names: seq<string>): seq<seq<Piece>> {
    seq(|names|, k requires 0 <= k < |names| => [Ref(names[k])])
  }

  /** What a slot has become: text, or the reference it was. */
  function Kept(names: seq<string>, values: seq<string>): seq<seq<Piece>>
    requires |names| == |values|
  {
    seq(|names|, k requires 0 <= k < |names| => if BraceFree(values[k]) then Lits(values[k]) else [Ref(names[k])])
  }

  /** The time before each slot, and after the last. */
  function Ticks(dynamics: Dynamics, names: seq<string>, tick: nat): (ticks: seq<nat>)
    ensures |ticks| == |names| + 1 && ticks[0] == tick
  {
    seq(|names| + 1, k requires 0 <= k < |names| + 1 => tick + Drawn(dynamics, names, k))
  }

  lemma {:induction false} DrawnNext(dynamics: Dynamics, names: seq<string>, k: nat)
    requires k < |names|
    ensures Drawn(dynamics, names, k + 1) == Drawn(dynamics, names, k) + if IsGenerated(dynamics, names[k]) then 1 else 0
    decreases k
  {
    if k > 0 {
      DrawnNext(dynamics, names[1..], k - 1);
    }
  }

  lemma {:induction false} RefRenders(name: string)
    ensures Render([Ref(name)]) == Slot(name)
  {
    assert [Ref(name)][1..] == [] && Text(Ref(name)) + "" == Text(Ref(name));
  }

  /** A pass makes of these pieces what is shown, and they are read back from what they print. */
  ghost predicate Becomes(defs: Definitions, dynamics: Dynamics, ps: seq<Piece>, written: string, shown: string,
                          tick: nat, tick': nat)
  {
    PassOver(defs, dynamics, ps, tick) == (shown, tick') && Tame(ps) && Render(ps) == written
  }

  /** So it is between texts, with the scanning of the whole. */
  lemma {:induction false} PassMiddles(defs: Definitions, dynamics: Dynamics, texts: seq<string>, middles: seq<seq<Piece>>,
                    written: seq<string>, shown: seq<string>, ticks: seq<nat>)
    requires |texts| == |middles| + 1 && |written| == |shown| == |middles| && |ticks| == |texts|
    requires forall k :: 0 <= k < |texts| ==> BraceFree(texts[k])
    requires forall k :: 0 <= k < |middles| ==>
               Becomes(defs, dynamics, middles[k], written[k], shown[k], ticks[k], ticks[k + 1])
    ensures PassOver(defs, dynamics, Scan(Interleaved(texts, written), 1), ticks[0])
         == (Interleaved(texts, shown), ticks[|ticks| - 1])
  {
    forall k: nat | k < |middles|
      ensures Tame(middles[k]) && Render(middles[k]) == written[k]
      ensures PassOver(defs, dynamics, middles[k], ticks[k]) == (shown[k], ticks[k + 1])
    {
      assert Becomes(defs, dynamics, middles[k], written[k], shown[k], ticks[k], ticks[k + 1]);
    }
    WovenRenders(texts, middles, written);
    TameReads(Woven(texts, middles));
    PassWoven(defs, dynamics, texts, middles, shown, ticks);
  }

  lemma {:induction false} PassFills(defs: Definitions, dynamics: Dynamics, texts: seq<string>, names: seq<string>, values: seq<string>, tick: nat)
    requires Readable(texts, names) && Shows(defs, dynamics, names, values, tick)
    ensures PassOver(defs, dynamics, Scan(Interleaved(texts, Slots(names)), 1), tick)
         == (Interleaved(texts, values), tick + Drawn(dynamics, names, |names|))
  {
    var refs, slots, ticks := Refs(names), Slots(names), Ticks(dynamics, names, tick);
    forall k: nat | k < |names|
      ensures Becomes(defs, dynamics, refs[k], slots[k], values[k], ticks[k], ticks[k + 1])
    {
      SlotBecomes(defs, dynamics, names, values, tick, k, ticks[k], ticks[k + 1]);
    }
    PassMiddles(defs, dynamics, texts, refs, slots, values, ticks);
  }

  lemma {:induction false} SlotBecomes(defs: Definitions, dynamics: Dynamics, names: seq<string>, values: seq<string>, tick: nat, k: nat,
                    before: nat, after: nat)
    requires |values| == |names| && k < |names| && ShowsAt(defs, dynamics, names, values, tick, k)
    requires names[k] != "" && BraceFree(names[k])
    requires before == tick + Drawn(dynamics, names, k) && after == tick + Drawn(dynamics, names, k + 1)
    ensures Becomes(defs, dynamics, [Ref(names[k])], Slot(names[k]), values[k], before, after)
  {
    PassSlot(defs, dynamics, names[k], before);
    DrawnNext(dynamics, names, k);
    RefRenders(names[k]);
  }

  /** The result is not changed by another pass. */
  lemma {:induction false} PassKeeps(defs: Definitions, dynamics: Dynamics, texts: seq<string>, names: seq<string>, values: seq<string>,
                  tick: nat, now: nat)
    requires Readable(texts, names) && Shows(defs, dynamics, names, values, tick)
    ensures PassOver(defs, dynamics, Scan(Interleaved(texts, values), 1), now) == (Interleaved(texts, values), now)
  {
    var kept, ticks := Kept(names, values), seq(|texts|, k => now);
    forall k: nat | k < |names|
      ensures Becomes(defs, dynamics, kept[k], values[k], values[k], ticks[k], ticks[k + 1])
    {
      assert ShowsAt(defs, dynamics, names, values, tick, k);
      if BraceFree(values[k]) {
        PassLits(defs, dynamics, values[k], now);
        LitsRender(values[k]);
      } else {
        PassSlot(defs, dynamics, names[k], now);
        RefRenders(names[k]);
      }
    }
    PassMiddles(defs, dynamics, texts, kept, values, values, ticks);
  }

  // ---------- all passes ----------

  /**
   Whatever the texts and names: resolving fills every slot with what it is to show. Generated names
   are evaluated once each, from left to right; an unknown one stays, even where a scope defines it.
   */
  lemma {:induction false} ResolvesSlots(defs: Definitions, dynamics: Dynamics, texts: seq<string>, names: seq<string>,
                      values: seq<string>, tick: nat)
    requires Readable(texts, names) && Shows(defs, dynamics, names, values, tick)
    ensures Rounds(defs, dynamics, Interleaved(texts, Slots(names)), MAX_RESOLVE_DEPTH, tick)
         == (Interleaved(texts, values), tick + Drawn(dynamics, names, |names|))
  {
    var s, filled, now := Interleaved(texts, Slots(names)), Interleaved(texts, values), tick + Drawn(dynamics, names, |names|);
    PassFills(defs, dynamics, texts, names, values, tick);
    PassKeeps(defs, dynamics, texts, names, values, tick, now);
    OneRound(defs, dynamics, s, MAX_RESOLVE_DEPTH, tick, filled, now);
    OneRound(defs, dynamics, filled, MAX_RESOLVE_DEPTH - 1, now, filled, now);
  }
}
