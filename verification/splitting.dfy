/** Splitting a string at a separator character, and joining. */
module Splitting {
  /** `s.split(sep)`: always at least one piece. */
  function Split(sep: char, s: string): (pieces: seq<string>)
    ensures pieces != []
  {
    if s == "" then [""]
    else
      var rest := Split(sep, s[1..]);
      if s[0] == sep then [""] + rest else [[s[0]] + rest[0]] + rest[1..]
  }

  /** `pieces.join(sep)`. */
  function Join(sep: char, pieces: seq<string>): string {
    if pieces == [] then ""
    else if |pieces| == 1 then pieces[0]
    else pieces[0] + [sep] + Join(sep, pieces[1..])
  }

  predicate Free(sep: char, piece: string) {
    sep !in piece
  }

  lemma {:induction false} SplitPieces(sep: char, s: string)
    ensures forall i :: 0 <= i < |Split(sep, s)| ==> Free(sep, Split(sep, s)[i])
  {
    if s != "" {
      SplitPieces(sep, s[1..]);
      var rest := Split(sep, s[1..]);
      forall i | 0 <= i < |Split(sep, s)| ensures Free(sep, Split(sep, s)[i]) {
        if s[0] == sep {
          if i > 0 { assert Split(sep, s)[i] == rest[i - 1]; }
        } else if i == 0 {
          assert Free(sep, rest[0]);
        } else {
          assert Split(sep, s)[i] == rest[i];
        }
      }
    }
  }

  lemma JoinCons(sep: char, first: string, rest: seq<string>)
    requires rest != []
    ensures Join(sep, [first] + rest) == first + [sep] + Join(sep, rest)
  {
    assert ([first] + rest)[1..] == rest;
  }

  lemma JoinGrow(sep: char, c: char, pieces: seq<string>)
    requires pieces != []
    ensures Join(sep, [[c] + pieces[0]] + pieces[1..]) == [c] + Join(sep, pieces)
  {
    var grown := [[c] + pieces[0]] + pieces[1..];
    if |pieces| > 1 {
      assert grown[1..] == pieces[1..];
      assert [c] + pieces[0] + [sep] + Join(sep, pieces[1..]) == [c] + (pieces[0] + [sep] + Join(sep, pieces[1..]));
    }
  }

  /** Joining what was split gives the string back. */
  lemma {:induction false} JoinSplit(sep: char, s: string)
    ensures Join(sep, Split(sep, s)) == s
  {
    if s != "" {
      JoinSplit(sep, s[1..]);
      if s[0] == sep {
        JoinCons(sep, "", Split(sep, s[1..]));
      } else {
        JoinGrow(sep, s[0], Split(sep, s[1..]));
      }
      assert s == [s[0]] + s[1..];
    }
  }

  lemma {:induction false} SplitPiece(sep: char, piece: string)
    requires Free(sep, piece)
    ensures Split(sep, piece) == [piece]
  {
    if piece != "" {
      SplitPiece(sep, piece[1..]);
      assert [piece[0]] + piece[1..] == piece;
    }
  }

  /** Splitting what was joined gives the pieces back: nothing else splits into them. */
  lemma {:induction false} SplitJoin(sep: char, pieces: seq<string>)
    requires pieces != [] && forall i :: 0 <= i < |pieces| ==> Free(sep, pieces[i])
    ensures Split(sep, Join(sep, pieces)) == pieces
  {
    if |pieces| == 1 {
      SplitPiece(sep, pieces[0]);
    } else {
      SplitJoin(sep, pieces[1..]);
      SplitFirst(sep, pieces[0], Join(sep, pieces[1..]));
      assert pieces == [pieces[0]] + pieces[1..];
    }
  }

  /** A piece, a separator, and the rest. */
  lemma SplitFirst(sep: char, piece: string, rest: string)
    requires Free(sep, piece)
    ensures Split(sep, piece + [sep] + rest) == [piece] + Split(sep, rest)
  {
    assert piece + [sep] + rest == piece + ([sep] + rest);
    SplitPiece(sep, piece);
    SplitConcat(sep, piece, [sep] + rest);
    assert ([sep] + rest)[1..] == rest;
    assert piece + "" == piece;
  }

  /** The pieces of `a` continued by those of `b`: the last of the one and the first of the other are one piece. */
  function Continue(a: seq<string>, b: seq<string>): seq<string>
    requires a != [] && b != []
  {
    a[..|a| - 1] + [a[|a| - 1] + b[0]] + b[1..]
  }

  lemma ContinueCons(first: string, a: seq<string>, b: seq<string>)
    requires a != [] && b != []
    ensures Continue([first] + a, b) == [first] + Continue(a, b)
  {
  }

  lemma ContinueGrow(c: char, a: seq<string>, b: seq<string>)
    requires a != [] && b != []
    ensures Continue([[c] + a[0]] + a[1..], b) == [[c] + Continue(a, b)[0]] + Continue(a, b)[1..]
  {
    var grown := [[c] + a[0]] + a[1..];
    if |a| == 1 {
      assert [c] + (a[0] + b[0]) == ([c] + a[0]) + b[0];
    } else {
      ContinueCons([c] + a[0], a[1..], b);
      ContinueCons(a[0], a[1..], b);
      assert a == [a[0]] + a[1..];
      assert ([a[0]] + Continue(a[1..], b))[1..] == Continue(a[1..], b);
    }
  }

  /** Only the last piece of `a` is continued. */
  lemma ContinueLast(a: seq<string>, b: seq<string>)
    requires a != [] && b != []
    ensures Continue(a, b) == a[..|a| - 1] + Continue([a[|a| - 1]], b)
  {
  }

  /** Splitting a concatenation. */
  lemma {:induction false} SplitConcat(sep: char, a: string, b: string)
    ensures Split(sep, a + b) == Continue(Split(sep, a), Split(sep, b))
  {
    if a == "" {
      assert a + b == b && "" + Split(sep, b)[0] == Split(sep, b)[0];
      assert Split(sep, b) == [Split(sep, b)[0]] + Split(sep, b)[1..];
    } else {
      SplitConcat(sep, a[1..], b);
      assert (a + b)[1..] == a[1..] + b && (a + b)[0] == a[0];
      if a[0] == sep {
        ContinueCons("", Split(sep, a[1..]), Split(sep, b));
      } else {
        ContinueGrow(a[0], Split(sep, a[1..]), Split(sep, b));
      }
    }
  }
}
