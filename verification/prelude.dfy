/** What every module shares. */
module Prelude {
  datatype Option<+T> = None | Some(value: T)

  datatype Result<+T> = Ok(value: T) | Err(error: string)

  lemma Associative<T>(a: seq<T>, b: seq<T>, c: seq<T>)
    ensures (a + b) + c == a + (b + c)
  {
  }

  /** `out` is what stands at the positions `at` of `all`, in order. */
  predicate Picks<T(==)>(all: seq<T>, out: seq<T>, at: seq<nat>) {
    && |at| == |out| && (forall k :: 0 <= k < |at| ==> at[k] < |all| && out[k] == all[at[k]])
    && forall j, k :: 0 <= j < k < |at| ==> at[j] < at[k]
  }

  lemma PicksLonger<T>(front: seq<T>, x: T, out: seq<T>, at: seq<nat>)
    requires Picks(front, out, at)
    ensures Picks(front + [x], out, at) && |front| !in at && Picks(front + [x], out + [x], at + [|front|])
  {
  }

  /** `s.filter(keep)`. */
  function Filter<T>(s: seq<T>, keep: T -> bool): seq<T> {
    if s == [] then []
    else if keep(s[0]) then [s[0]] + Filter(s[1..], keep)
    else Filter(s[1..], keep)
  }

  lemma FilterCons<T>(x: T, s: seq<T>, keep: T -> bool)
    ensures Filter([x] + s, keep) == if keep(x) then [x] + Filter(s, keep) else Filter(s, keep)
  {
    assert ([x] + s)[1..] == s;
  }

  lemma {:induction false} FilterConcat<T>(a: seq<T>, b: seq<T>, keep: T -> bool)
    ensures Filter(a + b, keep) == Filter(a, keep) + Filter(b, keep)
    decreases |a|
  {
    if a == [] {
      assert a + b == b;
    } else {
      var x, rest := a[0], a[1..];
      FilterConcat(rest, b, keep);
      FilterCons(x, rest + b, keep);
      Associative([x], Filter(rest, keep), Filter(b, keep));
      assert a + b == [x] + (rest + b);
    }
  }

  lemma FilterOne<T>(x: T, keep: T -> bool)
    ensures Filter([x], keep) == if keep(x) then [x] else []
  {
    FilterCons(x, [], keep);
    assert [x] + [] == [x];
  }

  /** Exactly what is to be kept, in order, each element as often as it stands there. */
  lemma {:induction false} FilterExactly<T>(s: seq<T>, keep: T -> bool) returns (at: seq<nat>)
    ensures Picks(s, Filter(s, keep), at)
    ensures forall i: nat :: i < |s| ==> (i in at <==> keep(s[i]))
  {
    at := [];
    if s != [] {
      var n := |s| - 1;
      var front, x := s[..n], s[n];
      var before := FilterExactly(front, keep);
      PicksLonger(front, x, Filter(front, keep), before);
      FilterConcat(front, [x], keep);
      FilterOne(x, keep);
      assert s == front + [x];
      at := if keep(x) then before + [n] else before;
      forall i: nat | i < |s| ensures i in at <==> keep(s[i]) {
        assert i < n ==> front[i] == s[i];
      }
    }
  }
}
