/**
 `{{name}}` references in strings.

 Both implementations of variable resolution find references with a regular
 expression: two opening braces, a run of characters that are not braces, two
 closing braces, leftmost match first and without overlap. The front end accepts an
 empty run (`*`), the Go engine asks for at least one character (`+`); `least` is
 that minimum.
 */
module Templates {
  import opened Prelude

  /** A string cut at its references: single characters of literal text, and references. */
  datatype Piece = Lit(c: char) | Ref(name: string)

  predicate IsBrace(c: char) {
    c == '{' || c == '}'
  }

  /** Length of the longest brace-free prefix of `s`: what `[^{}]*` consumes. */
  function NameLength(s: string): (n: nat)
    ensures n <= |s|
    ensures forall i :: 0 <= i < n ==> !IsBrace(s[i])
    ensures n < |s| ==> IsBrace(s[n])
  {
    if s == "" || IsBrace(s[0]) then 0 else 1 + NameLength(s[1..])
  }

  /** Whether a reference starts at the first character of `s`. */
  predicate RefAt(s: string, least: nat) {
    && |s| >= 2 && s[0] == '{' && s[1] == '{'
    && var n := NameLength(s[2..]);
       least <= n && n + 4 <= |s| && s[n + 2] == '}' && s[n + 3] == '}'
  }

  /** The leftmost, non-overlapping reading of `s`. */
  function Scan(s: string, least: nat): seq<Piece>
    decreases |s|
  {
    if s == "" then []
    else if RefAt(s, least) then
      var n := NameLength(s[2..]);
      [Ref(s[2..n + 2])] + Scan(s[n + 4..], least)
    else [Lit(s[0])] + Scan(s[1..], least)
  }

  lemma ScanRef(s: string, least: nat, name: string, rest: string)
    requires RefAt(s, least)
    requires name == s[2..NameLength(s[2..]) + 2] && rest == s[NameLength(s[2..]) + 4..]
    ensures Scan(s, least) == [Ref(name)] + Scan(rest, least)
  {
  }

  function Text(p: Piece): string {
    match p
    case Lit(c) => [c]
    case Ref(name) => "{{" + name + "}}"
  }

  function Render(ps: seq<Piece>): string {
    if ps == [] then "" else Text(ps[0]) + Render(ps[1..])
  }

  /** Every reference known to `m` replaced by its value; other pieces kept as written. */
  function Substitute(ps: seq<Piece>, m: map<string, string>): string {
    if ps == [] then ""
    else (if Known(m, ps[0]) then m[ps[0].name] else Text(ps[0])) + Substitute(ps[1..], m)
  }

  predicate Known(m: map<string, string>, p: Piece) {
    p.Ref? && p.name in m
  }

  /**
   Pieces that print and re-read as themselves: literal text may hold braces, as long as no
   opening brace of it is directly followed by another one, its own or a reference's.
   */
  predicate Clean(ps: seq<Piece>) {
    (forall i :: 0 <= i < |ps| ==> CleanPiece(ps[i])) && Spaced(ps)
  }

  /** A name as the pattern reads it. */
  predicate CleanPiece(p: Piece) {
    p.Ref? ==> forall i :: 0 <= i < |p.name| ==> !IsBrace(p.name[i])
  }

  predicate Spaced(ps: seq<Piece>) {
    forall i :: 0 < i < |ps| ==> MayFollow(ps[i - 1], ps[i])
  }

  predicate MayFollow(p: Piece, q: Piece) {
    p == Lit('{') ==> q.Lit? && q.c != '{'
  }

  /** The print ends in a literal opening brace. */
  predicate Open(ps: seq<Piece>) {
    ps != [] && ps[|ps| - 1] == Lit('{')
  }

  /** What `qs` begins with may stand behind what `ps` ends with. */
  predicate Joins(ps: seq<Piece>, qs: seq<Piece>) {
    ps != [] && qs != [] ==> MayFollow(ps[|ps| - 1], qs[0])
  }

  lemma CleanConcat(ps: seq<Piece>, qs: seq<Piece>)
    requires Clean(ps) && Clean(qs) && Joins(ps, qs)
    ensures Clean(ps + qs)
  {
    var all := ps + qs;
    forall i | 0 < i < |all| ensures MayFollow(all[i - 1], all[i]) {
      if i < |ps| {
        assert all[i - 1] == ps[i - 1];
      } else if i > |ps| {
        assert all[i - 1] == qs[i - 1 - |ps|];
      }
    }
  }

  lemma CleanTail(ps: seq<Piece>)
    requires ps != [] && Clean(ps)
    ensures Clean(ps[1..]) && CleanPiece(ps[0]) && Joins([ps[0]], ps[1..])
  {
    var t := ps[1..];
    forall i | 0 <= i < |t| ensures CleanPiece(t[i]) {
      assert t[i] == ps[i + 1];
    }
    forall i | 0 < i < |t| ensures MayFollow(t[i - 1], t[i]) {
      assert t[i - 1] == ps[i] && t[i] == ps[i + 1];
    }
    assert |ps| > 1 ==> MayFollow(ps[1 - 1], ps[1]);
  }

  // ---------- reading and printing ----------

  lemma RenderCons(p: Piece, ps: seq<Piece>)
    ensures Render([p] + ps) == Text(p) + Render(ps)
  {
    assert ([p] + ps)[1..] == ps;
  }

  lemma {:induction false} RenderConcat(ps: seq<Piece>, qs: seq<Piece>)
    ensures Render(ps + qs) == Render(ps) + Render(qs)
  {
    if ps == [] {
      assert ps + qs == qs;
    } else {
      var p, t := ps[0], ps[1..];
      assert ps + qs == [p] + (t + qs);
      calc {
        Render(ps + qs);
        { RenderCons(p, t + qs); }
        Text(p) + Render(t + qs);
        { RenderConcat(t, qs); }
        Text(p) + (Render(t) + Render(qs));
        { Associative(Text(p), Render(t), Render(qs)); }
        (Text(p) + Render(t)) + Render(qs);
      }
    }
  }

  lemma ReferencePrefix(s: string, n: nat)
    requires RefAt(s, 0) && n == NameLength(s[2..])
    ensures s == Text(Ref(s[2..n + 2])) + s[n + 4..]
  {
    var t := Text(Ref(s[2..n + 2]));
    assert |t| == n + 4;
    assert s[..n + 4] == t;
    assert s == s[..n + 4] + s[n + 4..];
  }

  lemma RenderStep(s: string, p: Piece, rest: string, ps: seq<Piece>)
    requires s == Text(p) + rest && Render(ps) == rest
    ensures Render([p] + ps) == s
  {
    RenderCons(p, ps);
  }

  /** Scanning loses no character, whatever the string. */
  lemma {:induction false} RenderScan(s: string, least: nat)
    ensures Render(Scan(s, least)) == s
    decreases |s|
  {
    if s == "" {
    } else if RefAt(s, least) {
      var n := NameLength(s[2..]);
      RenderScan(s[n + 4..], least);
      ReferencePrefix(s, n);
      RenderStep(s, Ref(s[2..n + 2]), s[n + 4..], Scan(s[n + 4..], least));
      ScanRef(s, least, s[2..n + 2], s[n + 4..]);
    } else {
      RenderScan(s[1..], least);
      assert s == [s[0]] + s[1..];
      RenderStep(s, Lit(s[0]), s[1..], Scan(s[1..], least));
    }
  }

  /** The name of a reference is the longest run, however the string goes on. */
  lemma {:induction false} NameLengthIs(name: string, rest: string)
    requires forall i :: 0 <= i < |name| ==> !IsBrace(name[i])
    requires rest != "" ==> IsBrace(rest[0])
    ensures NameLength(name + rest) == |name|
  {
    if name == "" {
      assert name + rest == rest;
    } else {
      NameLengthIs(name[1..], rest);
      assert (name + rest)[1..] == name[1..] + rest;
    }
  }

  /** A reference survives printing, whatever follows. */
  lemma ScanRefThen(name: string, rest: string, least: nat)
    requires CleanPiece(Ref(name)) && least <= |name|
    ensures Scan(Text(Ref(name)) + rest, least) == [Ref(name)] + Scan(rest, least)
  {
    var s := Text(Ref(name)) + rest;
    assert s[2..] == name + ("}}" + rest);
    NameLengthIs(name, "}}" + rest);
    assert s[2..|name| + 2] == name;
    assert s[|name| + 4..] == rest;
    ScanRef(s, least, name, rest);
  }

  /** A literal character does unless it is an opening brace before another one. */
  lemma ScanLitThen(c: char, rest: string, least: nat)
    requires c == '{' && rest != "" ==> rest[0] != '{'
    ensures Scan([c] + rest, least) == [Lit(c)] + Scan(rest, least)
  {
    var s := [c] + rest;
    assert s[0] == c && s[1..] == rest;
    assert |s| >= 2 ==> s[1] == rest[0];
  }

  lemma FirstPrinted(ps: seq<Piece>)
    requires ps != [] && ps[0].Lit?
    ensures Render(ps) != "" && Render(ps)[0] == ps[0].c
  {
  }

  /** One piece printed before a text that reads as `ps`, and not making a reference with it. */
  lemma ScanPieceThen(p: Piece, rest: string, ps: seq<Piece>, least: nat)
    requires Scan(rest, least) == ps
    requires p.Ref? ==> CleanPiece(p) && least <= |p.name|
    requires p == Lit('{') && rest != "" ==> rest[0] != '{'
    ensures Scan(Text(p) + rest, least) == [p] + ps
  {
    match p
    case Ref(name) => ScanRefThen(name, rest, least);
    case Lit(c) => ScanLitThen(c, rest, least);
  }

  /** Re-reading a printed string gives its pieces: no reference is lost or made at a seam. */
  lemma {:induction false} ScanRender(ps: seq<Piece>)
    requires Clean(ps)
    ensures Scan(Render(ps), 0) == ps
  {
    if ps != [] {
      var t := ps[1..];
      CleanTail(ps);
      ScanRender(t);
      if t != [] && t[0].Lit? { FirstPrinted(t); }
      ScanPieceThen(ps[0], Render(t), t, 0);
      assert ps == [ps[0]] + t;
    }
  }

  /**
   The stricter pattern of the engine replaces exactly what the front end's replaces,
   as long as the empty name is not defined: an empty reference is four literal
   characters to the one and an unknown reference to the other.
   */
  lemma {:induction false} StrictScanSubstitutes(s: string, m: map<string, string>)
    requires "" !in m
    ensures Substitute(Scan(s, 1), m) == Substitute(Scan(s, 0), m)
    decreases |s|
  {
    if s == "" {
    } else if RefAt(s, 1) {
      var n := NameLength(s[2..]);
      StrictScanSubstitutes(s[n + 4..], m);
      assert Scan(s, 1)[1..] == Scan(s[n + 4..], 1);
      assert Scan(s, 0)[1..] == Scan(s[n + 4..], 0);
    } else if RefAt(s, 0) {
      EmptyScans(s);
      EmptyReference(Scan(s[4..], 0), Scan(s[4..], 1), m);
      StrictScanSubstitutes(s[4..], m);
    } else {
      StrictScanSubstitutes(s[1..], m);
      assert Scan(s, 1)[1..] == Scan(s[1..], 1);
      assert Scan(s, 0)[1..] == Scan(s[1..], 0);
    }
  }

  /** `{{}}`: an unknown reference to the one scanner, four literal characters to the other. */
  lemma EmptyScans(s: string)
    requires RefAt(s, 0) && !RefAt(s, 1)
    ensures Scan(s, 1) == [Lit('{'), Lit('{'), Lit('}'), Lit('}')] + Scan(s[4..], 1)
    ensures Scan(s, 0) == [Ref("")] + Scan(s[4..], 0)
  {
    var s1, s2, s3 := s[1..], s[2..], s[3..];
    assert s1[1..] == s2 && s2[1..] == s3 && s3[1..] == s[4..] && NameLength(s2) == 0;
    assert Scan(s3, 1) == [Lit('}')] + Scan(s[4..], 1);
    assert Scan(s2, 1) == [Lit('}')] + Scan(s3, 1);
    assert Scan(s1, 1) == [Lit('{')] + Scan(s2, 1);
    assert Scan(s, 1) == [Lit('{')] + Scan(s1, 1);
    assert s[2..2] == "";
  }

  /** Both print the same. */
  lemma EmptyReference(ps: seq<Piece>, qs: seq<Piece>, m: map<string, string>)
    requires "" !in m
    ensures Substitute([Ref("")] + ps, m) == "{{}}" + Substitute(ps, m)
    ensures Substitute([Lit('{'), Lit('{'), Lit('}'), Lit('}')] + qs, m) == "{{}}" + Substitute(qs, m)
  {
    assert ([Ref("")] + ps)[1..] == ps && Text(Ref("")) == "{{}}";
    LiteralKept('}', qs, m);
    LiteralKept('}', [Lit('}')] + qs, m);
    LiteralKept('{', [Lit('}')] + ([Lit('}')] + qs), m);
    LiteralKept('{', [Lit('{')] + ([Lit('}')] + ([Lit('}')] + qs)), m);
    assert [Lit('{'), Lit('{'), Lit('}'), Lit('}')] + qs
        == [Lit('{')] + ([Lit('{')] + ([Lit('}')] + ([Lit('}')] + qs)));
    FourThen('{', '{', '}', '}', Substitute(qs, m));
  }

  lemma LiteralKept(c: char, ps: seq<Piece>, m: map<string, string>)
    ensures Substitute([Lit(c)] + ps, m) == [c] + Substitute(ps, m)
  {
    assert ([Lit(c)] + ps)[1..] == ps;
  }

  lemma FourThen(a: char, b: char, c: char, d: char, rest: string)
    ensures [a] + ([b] + ([c] + ([d] + rest))) == [a, b, c, d] + rest
  {
  }
}
