/** The lexer behind the front end's variable-highlighting input. */
module Tokenizer {
  import opened Prelude
  import opened Templates
  import opened Expansion

  datatype Token = TextToken(text: string) | VarToken(name: string, resolved: bool, text: string)

  function Lits(s: string): seq<Piece> {
    seq(|s|, i requires 0 <= i < |s| => Lit(s[i]))
  }

  function TokenPieces(t: Token): seq<Piece> {
    match t
    case TextToken(text) => Lits(text)
    case VarToken(name, _, _) => [Ref(name)]
  }

  function PiecesOf(tokens: seq<Token>): seq<Piece> {
    if tokens == [] then []
    else
      PiecesOf(tokens[..|tokens| - 1]) + TokenPieces(tokens[|tokens| - 1])
  }

  function Texts(tokens: seq<Token>): string {
    if tokens == [] then "" else Texts(tokens[..|tokens| - 1]) + tokens[|tokens| - 1].text
  }

  /** The position of the next reference at or after `from`: one `exec` of the global regex. */
  function NextRef(value: string, from: nat): (r: Option<nat>)
    requires from <= |value|
    ensures r.Some? ==> from <= r.value < |value| && RefAt(value[r.value..], 0)
    decreases |value| - from
  {
    if from == |value| then None
    else if RefAt(value[from..], 0) then Some(from)
    else NextRef(value, from + 1)
  }

  function EndOf(value: string, r: Option<nat>): nat {
    if r.Some? then r.value else |value|
  }

  /** Up to the next reference there is literal text only. */
  lemma {:induction false} NextRefScan(value: string, from: nat, end: nat)
    requires from <= |value| && end == EndOf(value, NextRef(value, from))
    ensures from <= end <= |value|
    ensures Scan(value[from..], 0) == Lits(value[from..end]) + Scan(value[end..], 0)
    decreases |value| - from
  {
    if from == |value| || RefAt(value[from..], 0) {
      assert Lits(value[from..end]) == [];
    } else {
      NextRefScan(value, from + 1, end);
      assert value[from..][1..] == value[from + 1..];
      assert Lits(value[from..end]) == [Lit(value[from])] + Lits(value[from + 1..end]);
      Associative([Lit(value[from])], Lits(value[from + 1..end]), Scan(value[end..], 0));
    }
  }

  /** At a reference, the scan yields it and goes on behind it. */
  lemma ScanAtRef(value: string, index: nat, name: string, end: nat)
    requires index < |value| && RefAt(value[index..], 0)
    requires name == NameAt(value, index) && end == index + |name| + 4
    ensures Scan(value[index..], 0) == [Ref(name)] + Scan(value[end..], 0)
  {
    var v, n := value[index..], |name|;
    assert v[2..n + 2] == name;
    assert v[n + 4..] == value[end..];
    ScanRef(v, 0, name, value[end..]);
  }

  /** The tokens as the source promises them: nothing empty, text runs merged, flags and texts right. */
  predicate WellFormed(tokens: seq<Token>, resolved: Definitions) {
    && (forall i :: 0 <= i < |tokens| ==> GoodToken(tokens[i], resolved))
    && forall i :: 0 < i < |tokens| ==> tokens[i - 1].VarToken? || tokens[i].VarToken?
  }

  /** The loop's invariant: the tokens read the string up to `lastIndex`. */
  predicate ReadTo(value: string, tokens: seq<Token>, lastIndex: nat, resolved: Definitions) {
    lastIndex <= |value| && Read(tokens, Scan(value[lastIndex..], 0), Scan(value, 0), resolved)
  }

  /** The tokens, and the pieces still to come. */
  predicate Read(tokens: seq<Token>, rest: seq<Piece>, whole: seq<Piece>, resolved: Definitions) {
    && PiecesOf(tokens) + rest == whole
    && WellFormed(tokens, resolved)
    && (tokens != [] ==> tokens[|tokens| - 1].VarToken?)
  }

  method TokenizeVariables(value: string, resolved: Definitions) returns (tokens: seq<Token>)
    ensures PiecesOf(tokens) == Scan(value, 0)
    ensures WellFormed(tokens, resolved)
  {
    tokens := [];
    var lastIndex := 0;
    var next := NextRef(value, 0);
    assert value[0..] == value;
    while next.Some?
      invariant ReadTo(value, tokens, lastIndex, resolved)
      invariant next == NextRef(value, lastIndex)
      decreases |value| - lastIndex
    {
      var index := next.value;
      var name := NameAt(value, index);
      var text, token := value[lastIndex..index], VarToken(name, name in resolved, Text(Ref(name)));
      ghost var tokensBefore, indexBefore := tokens, lastIndex;
      if index > lastIndex {
        tokens := tokens + [TextToken(text)];
      }
      tokens := tokens + [token];
      lastIndex := index + |name| + 4;
      RoundPieces(value, indexBefore, index, name, lastIndex);
      RoundReads(tokensBefore, text, token, resolved, Scan(value[indexBefore..], 0), Scan(value[lastIndex..], 0),
                 Scan(value, 0));
      next := NextRef(value, lastIndex);
    }
    RestReads(value, tokens, lastIndex, resolved);
    if lastIndex < |value| {
      tokens := tokens + [TextToken(value[lastIndex..])];
    }
  }

  /** The name of the reference at `index`: the regex's first group. */
  function NameAt(value: string, index: nat): (name: string)
    requires index < |value| && RefAt(value[index..], 0)
    ensures index + |name| + 4 <= |value|
  {
    var n := NameLength(value[index..][2..]);
    value[index + 2..index + 2 + n]
  }

  /** The pieces up to the next reference, the reference, and the rest. */
  lemma {:induction false} RoundPieces(value: string, lastIndex: nat, index: nat, name: string, end: nat)
    requires lastIndex <= |value| && NextRef(value, lastIndex) == Some(index)
    requires name == NameAt(value, index) && end == index + |name| + 4
    ensures Scan(value[lastIndex..], 0) == Lits(value[lastIndex..index]) + ([Ref(name)] + Scan(value[end..], 0))
  {
    NextRefScan(value, lastIndex, index);
    ScanAtRef(value, index, name, end);
  }

  lemma RoundReads(tokens: seq<Token>, text: string, ref: Token, resolved: Definitions,
                   before: seq<Piece>, rest: seq<Piece>, whole: seq<Piece>)
    requires Read(tokens, before, whole, resolved) && GoodToken(ref, resolved) && ref.VarToken?
    requires before == Lits(text) + ([Ref(ref.name)] + rest)
    ensures Read(Round(tokens, text, ref), rest, whole, resolved)
  {
    RoundKeeps(tokens, text, ref, resolved);
    Associative(PiecesOf(tokens), Lits(text), [Ref(ref.name)] + rest);
    Associative(PiecesOf(tokens) + Lits(text), [Ref(ref.name)], rest);
  }

  lemma {:induction false} RestReads(value: string, tokens: seq<Token>, lastIndex: nat, resolved: Definitions)
    requires ReadTo(value, tokens, lastIndex, resolved) && NextRef(value, lastIndex).None?
    ensures var all := if lastIndex < |value| then tokens + [TextToken(value[lastIndex..])] else tokens;
            PiecesOf(all) == Scan(value, 0) && WellFormed(all, resolved)
  {
    NextRefScan(value, lastIndex, |value|);
    assert value[lastIndex..|value|] == value[lastIndex..] && value[|value|..] == "";
    if lastIndex < |value| {
      PiecesOfSnoc(tokens, TextToken(value[lastIndex..]));
      WellFormedSnoc(tokens, TextToken(value[lastIndex..]), resolved);
    }
  }

  predicate GoodToken(t: Token, resolved: Definitions) {
    match t
    case TextToken(text) => text != ""
    case VarToken(name, known, text) => known == (name in resolved) && text == Text(Ref(name))
  }

  lemma PiecesOfSnoc(tokens: seq<Token>, t: Token)
    ensures PiecesOf(tokens + [t]) == PiecesOf(tokens) + TokenPieces(t)
  {
    assert (tokens + [t])[..|tokens|] == tokens;
  }

  lemma WellFormedSnoc(tokens: seq<Token>, t: Token, resolved: Definitions)
    requires WellFormed(tokens, resolved) && GoodToken(t, resolved)
    requires t.VarToken? || tokens == [] || tokens[|tokens| - 1].VarToken?
    ensures WellFormed(tokens + [t], resolved)
  {
    var all := tokens + [t];
    forall i | 0 <= i < |all| ensures GoodToken(all[i], resolved) {
      if i < |tokens| { assert all[i] == tokens[i]; }
    }
  }

  /** One round of the loop: the text before the reference, if any, and the reference. */
  function Round(tokens: seq<Token>, text: string, ref: Token): seq<Token> {
    (if text != "" then tokens + [TextToken(text)] else tokens) + [ref]
  }

  lemma {:induction false} RoundKeeps(tokens: seq<Token>, text: string, ref: Token, resolved: Definitions)
    requires WellFormed(tokens, resolved) && GoodToken(ref, resolved) && ref.VarToken?
    requires tokens != [] ==> tokens[|tokens| - 1].VarToken?
    ensures WellFormed(Round(tokens, text, ref), resolved)
    ensures PiecesOf(Round(tokens, text, ref)) == PiecesOf(tokens) + Lits(text) + [Ref(ref.name)]
  {
    var mid := if text != "" then tokens + [TextToken(text)] else tokens;
    if text != "" {
      PiecesOfSnoc(tokens, TextToken(text));
      WellFormedSnoc(tokens, TextToken(text), resolved);
    } else {
      assert Lits(text) == [];
    }
    PiecesOfSnoc(mid, ref);
    WellFormedSnoc(mid, ref, resolved);
  }

  lemma {:induction false} RenderLits(s: string)
    ensures Render(Lits(s)) == s
  {
    if s != "" {
      RenderLits(s[1..]);
      assert Lits(s)[1..] == Lits(s[1..]);
      assert s == [s[0]] + s[1..];
    }
  }

  lemma {:induction false} TextsRender(tokens: seq<Token>, resolved: Definitions)
    requires WellFormed(tokens, resolved)
    ensures Texts(tokens) == Render(PiecesOf(tokens))
  {
    if tokens != [] {
      assert GoodToken(tokens[|tokens| - 1], resolved);
      var front, last := tokens[..|tokens| - 1], tokens[|tokens| - 1];
      TextsRender(front, resolved);
      match last {
        case TextToken(text) =>
          RenderLits(text);
          RenderConcat(PiecesOf(front), Lits(text));
        case VarToken(name, _, _) =>
          RenderConcat(PiecesOf(front), [Ref(name)]);
          RenderCons(Ref(name), []);
      }
    }
  }

  /** Any tokens that read as the scan of `value` spell `value` out: the lexer loses nothing. */
  lemma LexerLossless(value: string, tokens: seq<Token>, resolved: Definitions)
    requires PiecesOf(tokens) == Scan(value, 0) && WellFormed(tokens, resolved)
    ensures Texts(tokens) == value
  {
    TextsRender(tokens, resolved);
    RenderScan(value, 0);
  }

  /** The token list is determined by the string and the map: there is one way to merge the text. */
  lemma {:induction false} TokensUnique(a: seq<Token>, b: seq<Token>, resolved: Definitions)
    requires WellFormed(a, resolved) && WellFormed(b, resolved) && PiecesOf(a) == PiecesOf(b)
    ensures a == b
    decreases |a|
  {
    if a == [] || b == [] {
      if a != [] { LastPieces(a, resolved); }
      if b != [] { LastPieces(b, resolved); }
    } else {
      LastEqual(a, b, resolved);
      TokensUnique(a[..|a| - 1], b[..|b| - 1], resolved);
      assert a == a[..|a| - 1] + [a[|a| - 1]];
      assert b == b[..|b| - 1] + [b[|b| - 1]];
    }
  }

  lemma {:induction false} LastEqual(a: seq<Token>, b: seq<Token>, resolved: Definitions)
    requires a != [] && b != []
    requires WellFormed(a, resolved) && WellFormed(b, resolved) && PiecesOf(a) == PiecesOf(b)
    ensures WellFormed(a[..|a| - 1], resolved) && WellFormed(b[..|b| - 1], resolved)
    ensures a[|a| - 1] == b[|b| - 1] && PiecesOf(a[..|a| - 1]) == PiecesOf(b[..|b| - 1])
  {
    var fa, la, fb, lb := a[..|a| - 1], a[|a| - 1], b[..|b| - 1], b[|b| - 1];
    LastPieces(a, resolved);
    LastPieces(b, resolved);
    assert GoodToken(la, resolved) && GoodToken(lb, resolved);
    if la.VarToken? {
      SameLast(PiecesOf(fa), Ref(la.name), PiecesOf(fb), Ref(lb.name));
    } else {
      SameTail(PiecesOf(fa), la.text, PiecesOf(fb), lb.text);
    }
  }

  predicate EndsInRef(ps: seq<Piece>) {
    ps == [] || ps[|ps| - 1].Ref?
  }

  lemma LastPieces(tokens: seq<Token>, resolved: Definitions)
    requires tokens != [] && WellFormed(tokens, resolved)
    ensures var front := tokens[..|tokens| - 1];
            && WellFormed(front, resolved) && PiecesOf(tokens) != []
            && PiecesOf(tokens)[|PiecesOf(tokens)| - 1].Ref? == tokens[|tokens| - 1].VarToken?
            && (tokens[|tokens| - 1].TextToken? ==> EndsInRef(PiecesOf(front)))
  {
    var front := tokens[..|tokens| - 1];
    assert GoodToken(tokens[|tokens| - 1], resolved);
    if tokens[|tokens| - 1].TextToken? && front != [] {
      assert tokens[|tokens| - 2].VarToken?;
      assert front[|front| - 1] == tokens[|tokens| - 2];
    }
  }

  lemma SameLast<T>(a: seq<T>, x: T, b: seq<T>, y: T)
    requires a + [x] == b + [y]
    ensures a == b && x == y
  {
    assert (a + [x])[..|a|] == a && (b + [y])[..|b|] == b;
    assert (a + [x])[|a|] == x && (b + [y])[|b|] == y;
  }

  lemma SameTail(ps: seq<Piece>, s: string, qs: seq<Piece>, t: string)
    requires EndsInRef(ps) && EndsInRef(qs) && ps + Lits(s) == qs + Lits(t)
    ensures ps == qs && s == t
  {
    var all := ps + Lits(s);
    assert forall k :: |ps| <= k < |all| ==> all[k].Lit?;
    assert forall k :: |qs| <= k < |all| ==> (qs + Lits(t))[k].Lit?;
    assert ps != [] ==> all[|ps| - 1].Ref?;
    assert qs != [] ==> (qs + Lits(t))[|qs| - 1].Ref?;
    assert |ps| == |qs|;
    assert ps == all[..|ps|] && qs == all[..|qs|];
    forall i | 0 <= i < |s| ensures s[i] == t[i] {
      assert all[|ps| + i] == Lit(s[i]);
      assert (qs + Lits(t))[|qs| + i] == Lit(t[i]);
    }
  }
}
