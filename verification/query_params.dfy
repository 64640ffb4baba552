/** The query string of a URL as a table of parameters, and back. */
module QueryParams {
  import opened Prelude
  import opened Frontend
  import opened Splitting

  /** `s.indexOf(c)`. */
  function IndexOf(c: char, s: string): (r: Option<nat>)
    ensures r.None? <==> Free(c, s)
    ensures r.Some? ==> r.value < |s| && s[r.value] == c && Free(c, s[..r.value])
  {
    if s == "" then None
    else if s[0] == c then Some(0)
    else
      var later := IndexOf(c, s[1..]);
      if later.None? then None
      else
        assert s[..later.value + 1] == [s[0]] + s[1..][..later.value];
        Some(later.value + 1)
  }

  lemma {:induction false} IndexOfFirst(c: char, a: string, b: string)
    requires Free(c, a)
    ensures IndexOf(c, a + [c] + b) == Some(|a|)
    ensures (a + [c] + b)[..|a|] == a && (a + [c] + b)[|a| + 1..] == b
  {
    if a != "" {
      assert a[0] in a;
      assert (a + [c] + b)[1..] == a[1..] + [c] + b;
      IndexOfFirst(c, a[1..], b);
    }
  }

  // ---------- parsing ----------

  /** The part before the first `?`. */
  function Base(url: string): string {
    var q := IndexOf('?', url);
    if q.None? then url else url[..q.value]
  }

  predicate IsPiece(piece: string) {
    piece != ""
  }

  function NonEmpty(pieces: seq<string>): seq<string> {
    Filter(pieces, IsPiece)
  }

  /** The minted row id is left blank. */
  function ParsePair(pair: string): KeyValue {
    var eq := IndexOf('=', pair);
    KeyValue("", true,
      if eq.None? then pair else pair[..eq.value],
      if eq.None? then "" else pair[eq.value + 1..],
      "")
  }

  function ParsePairs(pairs: seq<string>): seq<KeyValue> {
    if pairs == [] then [] else [ParsePair(pairs[0])] + ParsePairs(pairs[1..])
  }

  function ParseQueryParams(url: string): seq<KeyValue> {
    var q := IndexOf('?', url);
    if q.None? then [] else ParsePairs(NonEmpty(Split('&', url[q.value + 1..])))
  }

  // ---------- building ----------

  predicate IsWritten(p: KeyValue) {
    p.enabled && p.key != ""
  }

  /** The enabled parameters with a key. */
  function Kept(params: seq<KeyValue>): seq<KeyValue> {
    Filter(params, IsWritten)
  }

  lemma {:induction false} KeptHaveKeys(params: seq<KeyValue>)
    ensures forall p :: p in Kept(params) ==> p in params && p.enabled && p.key != ""
  {
    if params != [] {
      KeptHaveKeys(params[1..]);
    }
  }

  function Pair(p: KeyValue): string {
    p.key + "=" + p.value
  }

  function Pairs(params: seq<KeyValue>): (pairs: seq<string>)
    ensures |pairs| == |params|
  {
    if params == [] then [] else [Pair(params[0])] + Pairs(params[1..])
  }

  function BuildUrlWithParams(url: string, params: seq<KeyValue>): string {
    if Kept(params) == [] then Base(url)
    else Base(url) + "?" + Join('&', Pairs(Kept(params)))
  }

  // ---------- the round trip ----------

  /** What a query string can express of a parameter. */
  function Bare(p: KeyValue): KeyValue {
    KeyValue("", true, p.key, p.value, "")
  }

  function BareAll(params: seq<KeyValue>): seq<KeyValue> {
    if params == [] then [] else [Bare(params[0])] + BareAll(params[1..])
  }

  predicate Expressible(p: KeyValue) {
    Free('&', p.key) && Free('=', p.key) && Free('&', p.value)
  }

  /** Whatever is parsed is expressible and bare. */
  lemma {:induction false} ParsedPairs(pairs: seq<string>)
    requires forall i :: 0 <= i < |pairs| ==> Free('&', pairs[i])
    ensures forall p :: p in ParsePairs(pairs) ==> Expressible(p) && p == Bare(p)
  {
    if pairs != [] {
      ParsedPairs(pairs[1..]);
      assert Free('&', pairs[0]);
      var p := ParsePair(pairs[0]);
      assert Expressible(p);
    }
  }

  lemma {:induction false} NonEmptyFree(pieces: seq<string>, c: char)
    requires forall i :: 0 <= i < |pieces| ==> Free(c, pieces[i])
    ensures forall i :: 0 <= i < |NonEmpty(pieces)| ==> Free(c, NonEmpty(pieces)[i])
  {
    if pieces != [] {
      var rest := NonEmpty(pieces[1..]);
      NonEmptyFree(pieces[1..], c);
      assert NonEmpty(pieces) == if IsPiece(pieces[0]) then [pieces[0]] + rest else rest;
      assert Free(c, pieces[0]);
    }
  }

  lemma ParsedIsExpressible(url: string)
    ensures forall p :: p in ParseQueryParams(url) ==> Expressible(p) && p == Bare(p)
  {
    var q := IndexOf('?', url);
    if q.Some? {
      var pieces := Split('&', url[q.value + 1..]);
      SplitPieces('&', url[q.value + 1..]);
      NonEmptyFree(pieces, '&');
      ParsedPairs(NonEmpty(pieces));
    }
  }

  lemma PairReads(p: KeyValue)
    requires Free('=', p.key)
    ensures ParsePair(Pair(p)) == Bare(p) && Pair(p) != ""
    ensures Free('&', p.key) && Free('&', p.value) ==> Free('&', Pair(p))
  {
    IndexOfFirst('=', p.key, p.value);
    assert Pair(p) == p.key + ['='] + p.value;
  }

  lemma {:induction false} PairsParse(params: seq<KeyValue>)
    requires forall p :: p in params ==> Expressible(p) && p.key != ""
    ensures NonEmpty(Pairs(params)) == Pairs(params)
    ensures ParsePairs(Pairs(params)) == BareAll(params)
    ensures forall i :: 0 <= i < |params| ==> Free('&', Pairs(params)[i])
  {
    if params != [] {
      assert params[0] in params && forall r :: r in params[1..] ==> r in params;
      PairReads(params[0]);
      PairsParse(params[1..]);
      var rest := Pairs(params[1..]);
      assert Pairs(params) == [Pair(params[0])] + rest && Pairs(params)[1..] == rest;
    }
  }

  lemma {:induction false} BareMembers(params: seq<KeyValue>)
    ensures |BareAll(params)| == |params|
    ensures forall i :: 0 <= i < |params| ==> BareAll(params)[i] == Bare(params[i])
  {
    if params != [] {
      BareMembers(params[1..]);
      forall i | 0 <= i < |params| ensures BareAll(params)[i] == Bare(params[i]) {
        if i > 0 {
          assert BareAll(params)[i] == BareAll(params[1..])[i - 1];
        }
      }
    }
  }

  lemma BaseOfBuilt(url: string, params: seq<KeyValue>)
    ensures Base(BuildUrlWithParams(url, params)) == Base(url)
    ensures Kept(params) != [] ==>
              IndexOf('?', BuildUrlWithParams(url, params)) == Some(|Base(url)|)
              && BuildUrlWithParams(url, params)[|Base(url)| + 1..] == Join('&', Pairs(Kept(params)))
  {
    assert Free('?', Base(url));
    if Kept(params) != [] {
      IndexOfFirst('?', Base(url), Join('&', Pairs(Kept(params))));
    }
  }

  /**
   Parsing a built URL gives back exactly the enabled parameters with a key, in order, if and
   only if no kept key holds an `&` or `=` and no kept value an `&`: nothing is escaped.
   */
  lemma {:induction false} ParseBuildIff(url: string, params: seq<KeyValue>)
    ensures ParseQueryParams(BuildUrlWithParams(url, params)) == BareAll(Kept(params))
       <==> forall p :: p in Kept(params) ==> Expressible(p)
  {
    var kept, built := Kept(params), BuildUrlWithParams(url, params);
    KeptHaveKeys(params);
    BaseOfBuilt(url, params);
    if forall p :: p in kept ==> Expressible(p) {
      if kept != [] {
        PairsParse(kept);
        SplitJoin('&', Pairs(kept));
      }
    }
    if ParseQueryParams(built) == BareAll(kept) {
      BareMembers(kept);
      ParsedIsExpressible(built);
      forall p | p in kept ensures Expressible(p) {
        var i :| 0 <= i < |kept| && kept[i] == p;
        assert BareAll(kept)[i] in ParseQueryParams(built);
      }
    }
  }

  function WithKeys(params: seq<KeyValue>): seq<KeyValue> {
    if params == [] then []
    else (if params[0].key != "" then [params[0]] else []) + WithKeys(params[1..])
  }

  lemma {:induction false} BareKept(params: seq<KeyValue>)
    requires forall p :: p in params ==> p == Bare(p)
    ensures Kept(params) == WithKeys(params) && BareAll(Kept(params)) == Kept(params)
    ensures Kept(Kept(params)) == Kept(params)
  {
    if params != [] {
      assert params[0] in params && forall p :: p in params[1..] ==> p in params;
      BareKept(params[1..]);
      assert params[0].enabled == Bare(params[0]).enabled;
      var rest := Kept(params[1..]);
      if params[0].key != "" {
        assert ([params[0]] + rest)[1..] == rest;
      } else {
        assert Kept(params) == rest;
      }
    }
  }

  /** Rebuilding a URL from its own parameters loses the empty keys and nothing else. */
  lemma {:induction false} ParseBuildParse(url: string)
    ensures ParseQueryParams(BuildUrlWithParams(url, ParseQueryParams(url))) == WithKeys(ParseQueryParams(url))
  {
    ParsedIsExpressible(url);
    BareKept(ParseQueryParams(url));
    KeptHaveKeys(ParseQueryParams(url));
    ParseBuildIff(url, ParseQueryParams(url));
  }

  /** Rebuilding twice is rebuilding once. */
  lemma {:induction false} RebuildIdempotent(url: string)
    ensures var once := BuildUrlWithParams(url, ParseQueryParams(url));
            BuildUrlWithParams(once, ParseQueryParams(once)) == once
  {
    ParsedIsExpressible(url);
    BareKept(ParseQueryParams(url));
    ParseBuildParse(url);
    BaseOfBuilt(url, ParseQueryParams(url));
  }

  lemma {:induction false} TwoPiecesParse(first: string, second: string)
    requires first != "" && second != "" && Free('&', first) && Free('&', second)
    ensures ParsePairs(NonEmpty(Split('&', first + ['&'] + second))) == [ParsePair(first), ParsePair(second)]
  {
    var pieces := [first, second];
    assert pieces[1..] == [second] && [second][1..] == [];
    assert Join('&', pieces) == first + ['&'] + second;
    SplitJoin('&', pieces);
    AllNonEmpty(pieces);
    assert ParsePairs([]) == [] && ParsePairs([second]) == [ParsePair(second)] + ParsePairs([second][1..]);
  }

  lemma {:induction false} BrokenPairParses(url: string, p: KeyValue, first: string, second: string)
    requires IsWritten(p) && Pair(p) == first + ['&'] + second
    requires first != "" && second != "" && Free('&', first) && Free('&', second)
    ensures ParseQueryParams(BuildUrlWithParams(url, [p])) == [ParsePair(first), ParsePair(second)]
  {
    FilterOne(p, IsWritten);
    assert [p][1..] == [] && Pairs([p]) == [Pair(p)];
    BaseOfBuilt(url, [p]);
    TwoPiecesParse(first, second);
  }

  /** A key with an ampersand in it comes back as two parameters, the first without a value. */
  lemma {:induction false} AmpersandSplitsKey(url: string, a: string, b: string, c: string)
    requires Free('&', a) && Free('=', a) && a != "" && Free('&', b) && Free('=', b) && Free('&', c)
    ensures ParseQueryParams(BuildUrlWithParams(url, [KeyValue("", true, a + ['&'] + b, c, "")]))
         == [KeyValue("", true, a, "", ""), KeyValue("", true, b, c, "")]
  {
    var p, second := KeyValue("", true, a + ['&'] + b, c, ""), KeyValue("", true, b, c, "");
    PairReads(second);
    BrokenPairParses(url, p, a, Pair(second));
  }

  // ---------- exactly what is built and parsed ----------

  /** The written form of some parameters. */
  function Written(params: seq<KeyValue>, at: seq<nat>): seq<string>
    requires forall k :: 0 <= k < |at| ==> at[k] < |params|
  {
    seq(|at|, k requires 0 <= k < |at| => params[at[k]].key + "=" + params[at[k]].value)
  }

  lemma {:induction false} PairsAre(params: seq<KeyValue>)
    ensures Pairs(params) == seq(|params|, k requires 0 <= k < |params| => params[k].key + "=" + params[k].value)
  {
    if params != [] {
      PairsAre(params[1..]);
    }
  }

  /**
   A URL keeps what stands before its first `?`, whatever its query was, and gets the enabled
   parameters with a key in their order; without any, no `?` is left.
   */
  lemma {:induction false} BuiltExactly(base: string, query: string, params: seq<KeyValue>) returns (at: seq<nat>)
    requires Free('?', base)
    ensures (forall k :: 0 <= k < |at| ==> at[k] < |params|) && (forall j, k :: 0 <= j < k < |at| ==> at[j] < at[k])
    ensures forall i: nat :: i < |params| ==> (i in at <==> params[i].enabled && params[i].key != "")
    ensures BuildUrlWithParams(base, params) == BuildUrlWithParams(base + "?" + query, params)
    ensures BuildUrlWithParams(base, params) == if at == [] then base else base + "?" + Join('&', Written(params, at))
  {
    at := FilterExactly(params, IsWritten);
    PairsAre(Kept(params));
    assert Pairs(Kept(params)) == Written(params, at);
    IndexOfFirst('?', base, query);
    assert base + ['?'] + query == base + "?" + query;
  }

  /** A row says what its piece of the query says: up to the first `=` the key, behind it the value, or all of it the key. */
  predicate ReadsPiece(piece: string, row: KeyValue) {
    && row.enabled && row.description == "" && Free('=', row.key)
    && (piece == row.key + "=" + row.value || (piece == row.key && row.value == ""))
  }

  /** Parsing takes each piece between ampersands that is not empty, in order; without a `?` there is none. */
  lemma {:induction false} ParsedExactly(base: string, pieces: seq<string>)
    requires Free('?', base) && pieces != [] && forall i :: 0 <= i < |pieces| ==> Free('&', pieces[i]) && pieces[i] != ""
    ensures var rows := ParseQueryParams(base + "?" + Join('&', pieces));
            |rows| == |pieces| && forall i :: 0 <= i < |pieces| ==> ReadsPiece(pieces[i], rows[i])
    ensures ParseQueryParams(base) == []
  {
    var query := Join('&', pieces);
    IndexOfFirst('?', base, query);
    assert base + ['?'] + query == base + "?" + query;
    SplitJoin('&', pieces);
    AllNonEmpty(pieces);
    PiecesAreRead(pieces);
  }

  lemma {:induction false} AllNonEmpty(pieces: seq<string>)
    requires forall i :: 0 <= i < |pieces| ==> pieces[i] != ""
    ensures NonEmpty(pieces) == pieces
  {
    if pieces != [] {
      AllNonEmpty(pieces[1..]);
    }
  }

  /** Empty pieces are passed over. */
  lemma EmptyPiecesAreSkipped(pieces: seq<string>, more: seq<string>)
    ensures NonEmpty(pieces + ([""] + more)) == NonEmpty(pieces + more)
  {
    FilterConcat(pieces, [""] + more, IsPiece);
    FilterConcat(pieces, more, IsPiece);
    FilterCons("", more, IsPiece);
  }

  lemma {:induction false} PiecesAreRead(pieces: seq<string>)
    ensures |ParsePairs(pieces)| == |pieces|
    ensures forall i :: 0 <= i < |pieces| ==> ReadsPiece(pieces[i], ParsePairs(pieces)[i])
  {
    if pieces != [] {
      PiecesAreRead(pieces[1..]);
      PieceIsRead(pieces[0]);
    }
  }

  lemma PieceIsRead(piece: string)
    ensures ReadsPiece(piece, ParsePair(piece))
  {
    var eq := IndexOf('=', piece);
    if eq.Some? {
      assert piece == piece[..eq.value] + "=" + piece[eq.value + 1..];
    }
  }
}
