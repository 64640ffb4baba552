/**
 Keeping the server's store equal to the client's lists. Collections and environments are
 synchronised by the same code, so the content of an entry is a parameter here.
 */
module Sync {
  import opened Prelude

  /** Entries and lists are replaced, never changed, so identity of reference means sameness. */
  class Entry<T> {
    const id: string
    const content: T

    constructor (id: string, content: T)
      ensures this.id == id && this.content == content
    {
      this.id, this.content := id, content;
    }
  }

  class List<T> {
    const entries: seq<Entry<T>>

    constructor (entries: seq<Entry<T>>)
      ensures this.entries == entries
    {
      this.entries := entries;
    }
  }

  datatype Call<T> =
    | Delete(id: string)
    | Create(id: string, content: T)
    | Update(id: string, content: T)

  type Store<T> = map<string, T>

  /** Creating and updating both save under the id; deleting a missing entry is no error. */
  function Serve<T>(store: Store<T>, call: Call<T>): Store<T> {
    match call
    case Delete(id) => store - {id}
    case Create(id, content) => store[id := content]
    case Update(id, content) => store[id := content]
  }

  function ServeAll<T>(store: Store<T>, calls: seq<Call<T>>): Store<T>
    decreases |calls|
  {
    if calls == [] then store else ServeAll(Serve(store, calls[0]), calls[1..])
  }

  /** The entries by id, later ones winning. */
  function Entries<T>(list: seq<Entry<T>>): map<string, Entry<T>> {
    if list == [] then map[]
    else Entries(list[..|list| - 1])[list[|list| - 1].id := list[|list| - 1]]
  }

  function ById<T>(list: seq<Entry<T>>): Store<T> {
    var entries := Entries(list);
    map id | id in entries :: entries[id].content
  }

  /** The ids in order of first occurrence: a `Map` keeps the place of a key that is set again. */
  function Keys<T>(list: seq<Entry<T>>): seq<string> {
    if list == [] then []
    else
      var before, id := Keys(list[..|list| - 1]), list[|list| - 1].id;
      if id in before then before else before + [id]
  }

  function IdsOf<T>(list: seq<Entry<T>>): set<string> {
    set e | e in list :: e.id
  }

  // ---------- the diff ----------

  function Removals<T>(keys: seq<string>, kept: set<string>): seq<Call<T>> {
    if keys == [] then []
    else
      Removals(keys[..|keys| - 1], kept)
      + if keys[|keys| - 1] in kept then [] else [Delete(keys[|keys| - 1])]
  }

  function CallFor<T>(e: Entry<T>, prev: map<string, Entry<T>>): seq<Call<T>> {
    if e.id !in prev then [Create(e.id, e.content)]
    else if prev[e.id] != e then [Update(e.id, e.content)]
    else []
  }

  function Changes<T>(curr: seq<Entry<T>>, prev: map<string, Entry<T>>): seq<Call<T>> {
    if curr == [] then []
    else Changes(curr[..|curr| - 1], prev) + CallFor(curr[|curr| - 1], prev)
  }

  function Diff<T>(curr: List<T>, prev: List<T>): seq<Call<T>> {
    if curr == prev then []
    else Removals(Keys(prev.entries), IdsOf(curr.entries)) + Changes(curr.entries, Entries(prev.entries))
  }

  method SyncDiff<T>(curr: List<T>, prev: List<T>) returns (calls: seq<Call<T>>)
    ensures calls == Diff(curr, prev)
  {
    calls := [];
    if curr == prev {
      return;
    }
    var prevMap: map<string, Entry<T>>, keys: seq<string> := map[], [];
    for i := 0 to |prev.entries|
      invariant prevMap == Entries(prev.entries[..i]) && keys == Keys(prev.entries[..i])
    {
      assert prev.entries[..i + 1][..i] == prev.entries[..i];
      var e := prev.entries[i];
      prevMap := prevMap[e.id := e];
      if e.id !in keys {
        keys := keys + [e.id];
      }
    }
    var currIds := set e | e in curr.entries :: e.id;
    for i := 0 to |keys|
      invariant calls == Removals(keys[..i], currIds)
    {
      assert keys[..i + 1][..i] == keys[..i];
      if keys[i] !in currIds {
        calls := calls + [Delete(keys[i])];
      }
    }
    assert keys[..|keys|] == keys && prev.entries[..|prev.entries|] == prev.entries;
    ghost var removals := calls;
    for i := 0 to |curr.entries|
      invariant calls == removals + Changes(curr.entries[..i], prevMap)
    {
      assert curr.entries[..i + 1][..i] == curr.entries[..i];
      var col := curr.entries[i];
      if col.id !in prevMap {
        calls := calls + [Create(col.id, col.content)];
      } else if prevMap[col.id] != col {
        calls := calls + [Update(col.id, col.content)];
      }
    }
    assert curr.entries[..|curr.entries|] == curr.entries;
  }

  // ---------- calls to distinct ids ----------

  predicate DistinctIds<T>(calls: seq<Call<T>>) {
    forall i, j :: 0 <= i < j < |calls| ==> calls[i].id != calls[j].id
  }

  predicate Touched<T(==)>(calls: seq<Call<T>>, id: string) {
    exists c :: c in calls && c.id == id
  }

  /** What a store holds under an id. */
  function Lookup<T>(store: Store<T>, id: string): Option<T> {
    if id in store then Some(store[id]) else None
  }

  function Effect<T>(c: Call<T>): Option<T> {
    if c.Delete? then None else Some(c.content)
  }

  /** Each call decides what its own id holds, and no call decides anything else. */
  lemma {:induction false} ServedPointwise<T>(store: Store<T>, calls: seq<Call<T>>)
    requires DistinctIds(calls)
    ensures forall c :: c in calls ==> Lookup(ServeAll(store, calls), c.id) == Effect(c)
    ensures forall id :: !Touched(calls, id) ==> Lookup(ServeAll(store, calls), id) == Lookup(store, id)
    decreases |calls|
  {
    if calls != [] {
      var rest, served := calls[1..], Serve(store, calls[0]);
      ServedPointwise(served, rest);
      assert !Touched(rest, calls[0].id);
      forall id | !Touched(calls, id) ensures Lookup(ServeAll(store, calls), id) == Lookup(store, id) {
        assert calls[0] in calls;
        assert !Touched(rest, id);
      }
    }
  }

  lemma {:induction false} TwiceInSeq<A>(s: seq<A>, x: A)
    requires multiset(s)[x] >= 2
    ensures exists i, j :: 0 <= i < j < |s| && s[i] == x && s[j] == x
  {
    assert s == [s[0]] + s[1..];
    if s[0] == x {
      assert x in multiset(s[1..]);
      var j :| 0 <= j < |s[1..]| && s[1..][j] == x;
      assert s[j + 1] == x;
    } else {
      TwiceInSeq(s[1..], x);
      var i, j :| 0 <= i < j < |s[1..]| && s[1..][i] == x && s[1..][j] == x;
      assert s[i + 1] == x && s[j + 1] == x;
    }
  }

  lemma {:induction false} TwiceCounted<A>(s: seq<A>, i: nat, j: nat)
    requires i < j < |s| && s[i] == s[j]
    ensures multiset(s)[s[i]] >= 2
  {
    assert s == s[..j] + s[j..];
    assert s[i] in s[..j] && s[j..][0] == s[j];
    assert s[j] in multiset(s[j..]);
  }

  lemma ReorderedDistinct<T>(calls: seq<Call<T>>, order: seq<Call<T>>)
    requires DistinctIds(calls) && multiset(order) == multiset(calls)
    ensures DistinctIds(order)
  {
    forall i, j | 0 <= i < j < |order| ensures order[i].id != order[j].id {
      assert order[i] in multiset(calls) && order[j] in multiset(calls);
      if order[i] == order[j] {
        TwiceCounted(order, i, j);
        TwiceInSeq(calls, order[i]);
      }
    }
  }

  /** Calls to distinct ids have the same effect in every order. */
  lemma OrderIsIrrelevant<T>(store: Store<T>, calls: seq<Call<T>>, order: seq<Call<T>>)
    requires DistinctIds(calls) && multiset(order) == multiset(calls)
    ensures ServeAll(store, order) == ServeAll(store, calls)
  {
    ReorderedDistinct(calls, order);
    ServedPointwise(store, calls);
    ServedPointwise(store, order);
    SameMembers(calls, order);
    var a, b := ServeAll(store, order), ServeAll(store, calls);
    forall id ensures Lookup(a, id) == Lookup(b, id) {
      if Touched(calls, id) {
        var c :| c in calls && c.id == id;
        assert c in order;
      } else {
        assert !Touched(order, id);
      }
    }
    LookupsDecide(a, b);
  }

  lemma SameMembers<A>(a: seq<A>, b: seq<A>)
    requires multiset(a) == multiset(b)
    ensures forall x :: x in a <==> x in b
  {
    forall x ensures x in a <==> x in b {
      assert x in a <==> x in multiset(a);
      assert x in b <==> x in multiset(b);
    }
  }

  lemma LookupsDecide<T>(a: Store<T>, b: Store<T>)
    requires forall id :: Lookup(a, id) == Lookup(b, id)
    ensures a == b
  {
    forall id ensures id in a <==> id in b {
      assert Lookup(a, id) == Lookup(b, id);
    }
    forall id | id in a ensures a[id] == b[id] {
      assert Lookup(a, id) == Lookup(b, id);
    }
  }

  // ---------- the calls of one diff ----------

  predicate UniqueEntries<T>(list: seq<Entry<T>>) {
    forall i, j :: 0 <= i < j < |list| ==> list[i].id != list[j].id
  }

  lemma {:induction false} RemovalsExactly<T>(keys: seq<string>, kept: set<string>, c: Call<T>)
    ensures c in Removals<T>(keys, kept) <==> c.Delete? && c.id in keys && c.id !in kept
  {
    if keys != [] {
      RemovalsExactly<T>(keys[..|keys| - 1], kept, c);
      assert keys == keys[..|keys| - 1] + [keys[|keys| - 1]];
    }
  }

  lemma DistinctConcat<T>(a: seq<Call<T>>, b: seq<Call<T>>)
    requires DistinctIds(a) && DistinctIds(b)
    requires forall c, d :: c in a && d in b ==> c.id != d.id
    ensures DistinctIds(a + b)
  {
    forall i, j | 0 <= i < j < |a + b| ensures (a + b)[i].id != (a + b)[j].id {
      if i < |a| <= j {
        assert a[i] in a && b[j - |a|] in b;
      }
    }
  }

  lemma {:induction false} RemovalsDistinct<T>(keys: seq<string>, kept: set<string>)
    requires forall i, j :: 0 <= i < j < |keys| ==> keys[i] != keys[j]
    ensures DistinctIds(Removals<T>(keys, kept))
  {
    if keys != [] {
      RemovalsDistinct<T>(keys[..|keys| - 1], kept);
      var last := keys[|keys| - 1];
      assert last !in keys[..|keys| - 1];
      var added: seq<Call<T>> := if last in kept then [] else [Delete(last)];
      var removals: seq<Call<T>> := Removals(keys[..|keys| - 1], kept);
      forall c, d | c in removals && d in added ensures c.id != d.id {
        RemovalsExactly(keys[..|keys| - 1], kept, c);
      }
      DistinctConcat(removals, added);
    }
  }

  lemma {:induction false} KeysDistinct<T>(list: seq<Entry<T>>)
    ensures forall i, j :: 0 <= i < j < |Keys(list)| ==> Keys(list)[i] != Keys(list)[j]
    ensures forall id :: id in Keys(list) <==> id in Entries(list)
  {
    if list != [] {
      KeysDistinct(list[..|list| - 1]);
    }
  }

  lemma {:induction false} ChangesExactly<T>(curr: seq<Entry<T>>, prev: map<string, Entry<T>>)
    ensures forall e :: e in curr ==> forall c :: c in CallFor(e, prev) ==> c in Changes(curr, prev)
    ensures forall c :: c in Changes(curr, prev) ==> exists e :: e in curr && c in CallFor(e, prev)
  {
    if curr != [] {
      ChangesExactly(curr[..|curr| - 1], prev);
      assert curr == curr[..|curr| - 1] + [curr[|curr| - 1]];
    }
  }

  lemma {:induction false} ChangesDistinct<T>(curr: seq<Entry<T>>, prev: map<string, Entry<T>>)
    requires UniqueEntries(curr)
    ensures DistinctIds(Changes(curr, prev))
  {
    if curr != [] {
      ChangesDistinct(curr[..|curr| - 1], prev);
      ChangesExactly(curr[..|curr| - 1], prev);
      DistinctConcat(Changes(curr[..|curr| - 1], prev), CallFor(curr[|curr| - 1], prev));
    }
  }

  lemma {:induction false} EntriesUnique<T>(list: seq<Entry<T>>)
    requires UniqueEntries(list)
    ensures forall e :: e in list ==> e.id in Entries(list) && Entries(list)[e.id] == e
  {
    if list != [] {
      EntriesUnique(list[..|list| - 1]);
      assert list == list[..|list| - 1] + [list[|list| - 1]];
    }
  }

  lemma {:induction false} EntriesIds<T>(list: seq<Entry<T>>)
    ensures forall id :: id in Entries(list) <==> id in IdsOf(list)
    ensures forall id :: id in Entries(list) ==> Entries(list)[id] in list && Entries(list)[id].id == id
  {
    if list != [] {
      EntriesIds(list[..|list| - 1]);
      assert list == list[..|list| - 1] + [list[|list| - 1]];
    }
  }

  /** The calls of one diff touch pairwise distinct ids. */
  lemma CallsAreDistinct<T>(curr: List<T>, prev: List<T>)
    requires UniqueEntries(curr.entries)
    ensures DistinctIds(Diff(curr, prev))
  {
    if curr != prev {
      KeysDistinct(prev.entries);
      RemovalsDistinct<T>(Keys(prev.entries), IdsOf(curr.entries));
      ChangesDistinct(curr.entries, Entries(prev.entries));
      ChangesExactly(curr.entries, Entries(prev.entries));
      var removals: seq<Call<T>> := Removals(Keys(prev.entries), IdsOf(curr.entries));
      var changes := Changes(curr.entries, Entries(prev.entries));
      forall a, b | a in removals && b in changes ensures a.id != b.id {
        var e :| e in curr.entries && b in CallFor(e, Entries(prev.entries));
        RemovalsExactly(Keys(prev.entries), IdsOf(curr.entries), a);
        assert e.id in IdsOf(curr.entries);
      }
      DistinctConcat(removals, changes);
    }
  }

  /** The last entry of the id in the list. */
  predicate LastAt<T>(list: seq<Entry<T>>, id: string, i: nat) {
    i < |list| && list[i].id == id && forall j :: i < j < |list| ==> list[j].id != id
  }

  predicate HasId<T>(list: seq<Entry<T>>, id: string) {
    exists i :: 0 <= i < |list| && list[i].id == id
  }

  lemma {:induction false} EntriesAreLast<T>(list: seq<Entry<T>>, id: string)
    ensures id in Entries(list) <==> HasId(list, id)
    ensures HasId(list, id) ==> exists i: nat :: LastAt(list, id, i)
    ensures forall i: nat :: LastAt(list, id, i) ==> id in Entries(list) && Entries(list)[id] == list[i]
  {
    if list != [] {
      var n, front := |list| - 1, list[..|list| - 1];
      EntriesAreLast(front, id);
      if list[n].id == id {
        assert LastAt(list, id, n);
      } else {
        forall i: nat ensures LastAt(list, id, i) <==> LastAt(front, id, i) {
          if LastAt(front, id, i) {
            assert list[i] == front[i] && forall j :: i < j < n ==> list[j] == front[j];
          }
        }
        if HasId(list, id) {
          var i :| 0 <= i < |list| && list[i].id == id;
          assert front[i] == list[i];
        }
      }
    }
  }

  /** An entry of the list that is new is created, and one that was there but is another object now is updated. */
  ghost predicate IsCalledFor<T>(c: Call<T>, curr: seq<Entry<T>>, prev: seq<Entry<T>>) {
    match c
    case Delete(id) => HasId(prev, id) && !HasId(curr, id)
    case Create(id, content) => !HasId(prev, id) && exists e :: e in curr && e.id == id && e.content == content
    case Update(id, content) =>
      exists e, i: nat :: e in curr && e.id == id && e.content == content && LastAt(prev, id, i) && prev[i] != e
  }

  /** Which calls a diff makes, whatever the lists: exactly those that an entry of either calls for. */
  lemma CallsExactly<T>(curr: List<T>, prev: List<T>, c: Call<T>)
    requires curr != prev
    ensures c in Diff(curr, prev) <==> IsCalledFor(c, curr.entries, prev.entries)
  {
    var was := Entries(prev.entries);
    KeysDistinct(prev.entries);
    EntriesIds(curr.entries);
    EntriesAreLast(prev.entries, c.id);
    EntriesAreLast(curr.entries, c.id);
    RemovalsExactly(Keys(prev.entries), IdsOf(curr.entries), c);
    ChangesExactly(curr.entries, was);
    if c in Changes(curr.entries, was) {
      var e :| e in curr.entries && c in CallFor(e, was);
      assert c.id == e.id;
    }
    if IsCalledFor(c, curr.entries, prev.entries) && !c.Delete? {
      ChangeIsMade(curr.entries, prev.entries, c);
    }
  }

  lemma ChangeIsMade<T>(curr: seq<Entry<T>>, prev: seq<Entry<T>>, c: Call<T>)
    requires IsCalledFor(c, curr, prev) && !c.Delete?
    ensures c in Changes(curr, Entries(prev))
  {
    EntriesAreLast(prev, c.id);
    ChangesExactly(curr, Entries(prev));
    if c.Create? {
      var e :| e in curr && e.id == c.id && e.content == c.content;
      assert c in CallFor(e, Entries(prev));
    } else {
      var e, i: nat :| e in curr && e.id == c.id && e.content == c.content && LastAt(prev, c.id, i) && prev[i] != e;
      assert c in CallFor(e, Entries(prev));
    }
  }

  /** With unique ids, by id: which call an id gets. */
  lemma CallsById<T>(curr: List<T>, prev: List<T>, c: Call<T>)
    requires UniqueEntries(curr.entries) && curr != prev
    ensures var was, now := Entries(prev.entries), Entries(curr.entries);
            c in Diff(curr, prev) <==>
              if c.id in now then c in CallFor(now[c.id], was) else c == Delete(c.id) && c.id in was
  {
    var was := Entries(prev.entries);
    KeysDistinct(prev.entries);
    EntriesIds(curr.entries);
    EntriesUnique(curr.entries);
    RemovalsExactly(Keys(prev.entries), IdsOf(curr.entries), c);
    ChangesExactly(curr.entries, was);
    if c in Changes(curr.entries, was) {
      var e :| e in curr.entries && c in CallFor(e, was);
      assert c.id == e.id;
    }
  }

  /** An entry that is the same reference in both lists gets no call. */
  lemma UnchangedGetsNoCall<T>(curr: List<T>, prev: List<T>, e: Entry<T>)
    requires UniqueEntries(curr.entries) && UniqueEntries(prev.entries)
    requires e in curr.entries && e in prev.entries
    ensures !Touched(Diff(curr, prev), e.id)
  {
    if curr != prev {
      EntriesUnique(curr.entries);
      EntriesUnique(prev.entries);
      Untouched(curr, prev, e.id);
    }
  }

  /** A server equal to the previous list becomes equal to the current one, whatever the order of the calls. */
  lemma DiffBringsUpToDate<T>(curr: List<T>, prev: List<T>, order: seq<Call<T>>)
    requires UniqueEntries(curr.entries) && multiset(order) == multiset(Diff(curr, prev))
    ensures ServeAll(ById(prev.entries), order) == ById(curr.entries)
  {
    var calls, store := Diff(curr, prev), ById(prev.entries);
    CallsAreDistinct(curr, prev);
    OrderIsIrrelevant(store, calls, order);
    if curr != prev {
      ServedPointwise(store, calls);
      forall id ensures Lookup(ServeAll(store, calls), id) == Lookup(ById(curr.entries), id) {
        DiffAt(curr, prev, id);
      }
      LookupsDecide(ServeAll(store, calls), ById(curr.entries));
    }
  }

  lemma DiffAt<T>(curr: List<T>, prev: List<T>, id: string)
    requires UniqueEntries(curr.entries) && curr != prev
    requires var calls, store := Diff(curr, prev), ById(prev.entries);
             && (forall c :: c in calls ==> Lookup(ServeAll(store, calls), c.id) == Effect(c))
             && (!Touched(calls, id) ==> Lookup(ServeAll(store, calls), id) == Lookup(store, id))
    ensures Lookup(ServeAll(ById(prev.entries), Diff(curr, prev)), id) == Lookup(ById(curr.entries), id)
  {
    var was, now := Entries(prev.entries), Entries(curr.entries);
    if id in now {
      EntriesIds(curr.entries);
      if CallFor(now[id], was) == [] {
        Untouched(curr, prev, id);
      } else {
        CallsById(curr, prev, CallFor(now[id], was)[0]);
      }
    } else if id in was {
      CallsById(curr, prev, Delete(id));
    } else {
      Untouched(curr, prev, id);
    }
  }

  lemma Untouched<T>(curr: List<T>, prev: List<T>, id: string)
    requires UniqueEntries(curr.entries) && curr != prev
    requires id in Entries(curr.entries) ==> CallFor(Entries(curr.entries)[id], Entries(prev.entries)) == []
    requires id !in Entries(curr.entries) ==> id !in Entries(prev.entries)
    ensures !Touched(Diff(curr, prev), id)
  {
    if Touched(Diff(curr, prev), id) {
      var c :| c in Diff(curr, prev) && c.id == id;
      CallsById(curr, prev, c);
    }
  }

  // ---------- runs ----------

  /** The server after a run of client states, each diff's calls arriving in some order. */
  function Track<T>(store: Store<T>, orders: seq<seq<Call<T>>>): Store<T>
    decreases |orders|
  {
    if orders == [] then store else Track(ServeAll(store, orders[0]), orders[1..])
  }

  /** The calls of one diff, in the order the server gets them. */
  ghost predicate Arrives<T>(prev: List<T>, curr: List<T>, order: seq<Call<T>>) {
    multiset(order) == multiset(Diff(curr, prev))
  }

  /** The store follows the client over every run. */
  lemma {:induction false} ServerTracksClient<T>(states: seq<List<T>>, orders: seq<seq<Call<T>>>)
    requires |states| == |orders| + 1
    requires forall i :: 0 <= i < |orders| ==> Arrives(states[i], states[i + 1], orders[i])
    requires forall i :: 0 < i < |states| ==> UniqueEntries(states[i].entries)
    ensures Track(ById(states[0].entries), orders) == ById(states[|states| - 1].entries)
    decreases |orders|
  {
    if orders != [] {
      DiffBringsUpToDate(states[1], states[0], orders[0]);
      ServerTracksClient(states[1..], orders[1..]);
    }
  }

  // ---------- calls of different diffs overtaking each other ----------

  /** The last call that touches the id. */
  function LastCall<T>(calls: seq<Call<T>>, id: string): (last: Option<Call<T>>)
    ensures last.Some? ==> last.value in calls && last.value.id == id
    ensures last.None? ==> forall c :: c in calls ==> c.id != id
    decreases |calls|
  {
    if calls == [] then None
    else
      var later := LastCall(calls[1..], id);
      if later.Some? then later else if calls[0].id == id then Some(calls[0]) else None
  }

  /** Whatever the calls, each id holds what the last call for it says. */
  lemma {:induction false} LastCallDecides<T>(store: Store<T>, calls: seq<Call<T>>, id: string)
    ensures Lookup(ServeAll(store, calls), id)
         == match LastCall(calls, id) case None => Lookup(store, id) case Some(c) => Effect(c)
    decreases |calls|
  {
    if calls != [] {
      LastCallDecides(Serve(store, calls[0]), calls[1..], id);
    }
  }

  lemma {:induction false} ServeConcat<T>(store: Store<T>, a: seq<Call<T>>, b: seq<Call<T>>)
    ensures ServeAll(store, a + b) == ServeAll(ServeAll(store, a), b)
    decreases |a|
  {
    if a == [] {
      assert a + b == b;
    } else {
      assert (a + b)[1..] == a[1..] + b;
      ServeConcat(Serve(store, a[0]), a[1..], b);
    }
  }

  /** All calls of a run of client states, as they are issued. */
  function Issued<T>(states: seq<List<T>>): seq<Call<T>>
    decreases |states|
  {
    if |states| < 2 then [] else Diff(states[1], states[0]) + Issued(states[1..])
  }

  lemma {:induction false} IssuedTracksClient<T>(states: seq<List<T>>)
    requires states != [] && forall i :: 0 < i < |states| ==> UniqueEntries(states[i].entries)
    ensures ServeAll(ById(states[0].entries), Issued(states)) == ById(states[|states| - 1].entries)
    decreases |states|
  {
    if |states| > 1 {
      DiffBringsUpToDate(states[1], states[0], Diff(states[1], states[0]));
      ServeConcat(ById(states[0].entries), Diff(states[1], states[0]), Issued(states[1..]));
      IssuedTracksClient(states[1..]);
    }
  }

  /** Every call issued arrives once, whenever that is. */
  ghost predicate AllArrive<T>(states: seq<List<T>>, arrived: seq<Call<T>>) {
    multiset(arrived) == multiset(Issued(states))
  }

  /** For every id touched, the call that arrives last says the same as the one issued last. */
  ghost predicate LastOnesAgree<T>(arrived: seq<Call<T>>, issued: seq<Call<T>>) {
    forall id :: LastCall(arrived, id).Some? && LastCall(issued, id).Some? ==>
      Effect(LastCall(arrived, id).value) == Effect(LastCall(issued, id).value)
  }

  /**
   Nothing awaits the calls, so those of one diff may overtake those of another. If every call
   arrives, in whatever order, the server ends with the client's state exactly when, id by id,
   the last call to arrive says what the last one issued said.
   */
  lemma {:induction false} OvertakingIff<T>(states: seq<List<T>>, arrived: seq<Call<T>>)
    requires states != [] && forall i :: 0 < i < |states| ==> UniqueEntries(states[i].entries)
    requires AllArrive(states, arrived)
    ensures ServeAll(ById(states[0].entries), arrived) == ById(states[|states| - 1].entries)
       <==> LastOnesAgree(arrived, Issued(states))
  {
    IssuedTracksClient(states);
    SameMembers(arrived, Issued(states));
    SameStoreIff(ById(states[0].entries), arrived, Issued(states));
  }

  lemma SameStoreIff<T>(store: Store<T>, a: seq<Call<T>>, b: seq<Call<T>>)
    requires forall c :: c in a <==> c in b
    ensures ServeAll(store, a) == ServeAll(store, b) <==> LastOnesAgree(a, b)
  {
    if LastOnesAgree(a, b) {
      forall id ensures Lookup(ServeAll(store, a), id) == Lookup(ServeAll(store, b), id) {
        LastCallDecides(store, a, id);
        LastCallDecides(store, b, id);
      }
      LookupsDecide(ServeAll(store, a), ServeAll(store, b));
    } else {
      var id :| LastCall(a, id).Some? && LastCall(b, id).Some?
                && Effect(LastCall(a, id).value) != Effect(LastCall(b, id).value);
      LastCallDecides(store, a, id);
      LastCallDecides(store, b, id);
      assert Lookup(ServeAll(store, a), id) != Lookup(ServeAll(store, b), id);
    }
  }

  /** The calls that touch the id, in order. */
  function For<T>(calls: seq<Call<T>>, id: string): seq<Call<T>>
    decreases |calls|
  {
    if calls == [] then [] else (if calls[0].id == id then [calls[0]] else []) + For(calls[1..], id)
  }

  lemma {:induction false} LastIsLastFor<T>(calls: seq<Call<T>>, id: string)
    ensures LastCall(calls, id)
         == if For(calls, id) == [] then None else Some(For(calls, id)[|For(calls, id)| - 1])
    decreases |calls|
  {
    if calls != [] {
      LastIsLastFor(calls[1..], id);
    }
  }

  /** So it is enough that the calls for one id do not overtake each other. */
  lemma {:induction false} OrderPerIdSuffices<T>(states: seq<List<T>>, arrived: seq<Call<T>>)
    requires states != [] && forall i :: 0 < i < |states| ==> UniqueEntries(states[i].entries)
    requires AllArrive(states, arrived)
    requires forall id :: For(arrived, id) == For(Issued(states), id)
    ensures ServeAll(ById(states[0].entries), arrived) == ById(states[|states| - 1].entries)
  {
    forall id ensures LastCall(arrived, id) == LastCall(Issued(states), id) {
      LastIsLastFor(arrived, id);
      LastIsLastFor(Issued(states), id);
    }
    OvertakingIff(states, arrived);
  }

  ghost predicate Loses<T>(states: seq<List<T>>, arrived: seq<Call<T>>)
    requires states != []
  {
    AllArrive(states, arrived) && ServeAll(ById(states[0].entries), arrived) != ById(states[|states| - 1].entries)
  }

  /** Two calls that say different things of one id. */
  predicate Conflict<T(==)>(calls: seq<Call<T>>, i: nat, j: nat) {
    i < |calls| && j < |calls| && calls[i].id == calls[j].id && Effect(calls[i]) != Effect(calls[j])
  }

  /** Some order of arrival loses an update exactly when two of the issued calls are in conflict. */
  lemma SomeOrderLosesIff<T>(states: seq<List<T>>)
    requires states != [] && forall i :: 0 < i < |states| ==> UniqueEntries(states[i].entries)
    ensures (exists arrived :: Loses(states, arrived)) <==> exists i, j :: Conflict(Issued(states), i, j)
  {
    if arrived :| Loses(states, arrived) {
      OvertakingIff(states, arrived);
      SameMembers(arrived, Issued(states));
      var i, j := FindConflict(arrived, Issued(states));
    }
    if i, j :| Conflict(Issued(states), i, j) {
      var arrived := LateCall(Issued(states), i, j);
      OvertakingIff(states, arrived);
      assert Loses(states, arrived);
    }
  }

  lemma FindConflict<T>(arrived: seq<Call<T>>, issued: seq<Call<T>>) returns (i: nat, j: nat)
    requires (forall c :: c in arrived <==> c in issued) && !LastOnesAgree(arrived, issued)
    ensures Conflict(issued, i, j)
  {
    var id :| LastCall(arrived, id).Some? && LastCall(issued, id).Some?
              && Effect(LastCall(arrived, id).value) != Effect(LastCall(issued, id).value);
    i :| 0 <= i < |issued| && issued[i] == LastCall(arrived, id).value;
    j :| 0 <= j < |issued| && issued[j] == LastCall(issued, id).value;
  }

  /** Of two calls in conflict one differs from the last for the id, and can be the one that arrives last. */
  lemma LateCall<T>(issued: seq<Call<T>>, i: nat, j: nat) returns (arrived: seq<Call<T>>)
    requires Conflict(issued, i, j)
    ensures multiset(arrived) == multiset(issued) && !LastOnesAgree(arrived, issued)
  {
    var id := issued[i].id;
    assert issued[i] in issued && LastCall(issued, id).Some?;
    var late := if Effect(issued[i]) != Effect(LastCall(issued, id).value) then i else j;
    arrived := MovedLast(issued, late);
  }

  lemma MovedLast<T>(issued: seq<Call<T>>, late: nat) returns (arrived: seq<Call<T>>)
    requires late < |issued|
    ensures multiset(arrived) == multiset(issued)
    ensures LastCall(arrived, issued[late].id) == Some(issued[late])
  {
    var before, call, after := issued[..late], issued[late], issued[late + 1..];
    arrived := before + after + [call];
    assert issued == before + [call] + after;
    LastCallConcat(before + after, [call], call.id);
    OnlyCall(call);
  }

  lemma OnlyCall<T>(call: Call<T>)
    ensures LastCall([call], call.id) == Some(call)
  {
    assert [call][1..] == [];
  }

  /** Three client states, and their two updates of one entry arriving in the other order: the server keeps the older. */
  lemma OvertakenUpdateIsLost<T>(states: seq<List<T>>, oldest: Entry<T>, older: Entry<T>, newer: Entry<T>)
    requires |states| == 3
    requires states[0].entries == [oldest] && states[1].entries == [older] && states[2].entries == [newer]
    requires oldest.id == older.id == newer.id && oldest != older && older.content != newer.content
    ensures var first, second := Update(newer.id, older.content), Update(newer.id, newer.content);
            && Issued(states) == [first, second] && AllArrive(states, [second, first])
            && ServeAll(ById(states[0].entries), [second, first]) == map[newer.id := older.content]
            && ById(states[2].entries) == map[newer.id := newer.content]
  {
    var first, second := Update(newer.id, older.content), Update(newer.id, newer.content);
    ReplacedEntry(states[1], states[0], older, oldest);
    ReplacedEntry(states[2], states[1], newer, older);
    IssuedByThree(states, first, second);
    Swapped(first, second);
    SecondUpdateStays(newer.id, oldest.content, newer.content, older.content);
  }

  lemma SecondUpdateStays<T>(id: string, was: T, first: T, second: T)
    ensures ServeAll(map[id := was], [Update(id, first), Update(id, second)]) == map[id := second]
  {
    TwoUpdates(map[id := was], id, first, second);
    assert map[id := was][id := second] == map[id := second];
  }

  lemma IssuedByThree<T>(states: seq<List<T>>, first: Call<T>, second: Call<T>)
    requires |states| == 3 && Diff(states[1], states[0]) == [first] && Diff(states[2], states[1]) == [second]
    ensures Issued(states) == [first, second]
  {
    IssuedFirst(states, states[1..]);
    IssuedFirst(states[1..], states[1..][1..]);
  }

  lemma IssuedFirst<T>(states: seq<List<T>>, rest: seq<List<T>>)
    requires |states| > 1 && states[1..] == rest
    ensures Issued(states) == Diff(states[1], states[0]) + if |rest| > 1 then Issued(rest) else []
  {
  }

  lemma Swapped<T>(first: T, second: T)
    ensures multiset([second, first]) == multiset([first, second])
  {
    assert [second, first] == [second] + [first] && [first, second] == [first] + [second];
  }

  lemma ReplacedEntry<T>(curr: List<T>, prev: List<T>, now: Entry<T>, was: Entry<T>)
    requires curr.entries == [now] && prev.entries == [was] && now != was && now.id == was.id
    ensures Diff(curr, prev) == [Update(now.id, now.content)]
    ensures ById(prev.entries) == map[was.id := was.content] && ById(curr.entries) == map[now.id := now.content]
  {
    PairOfEntries(was, now);
    PairOfEntries(now, was);
    assert [now][..0] == [] && Changes([], Entries([was])) == [];
    assert Changes([now], Entries([was])) == Changes([now][..0], Entries([was])) + CallFor(now, Entries([was]));
    assert IdsOf([now]) == {now.id};
  }

  lemma TwoUpdates<T>(store: Store<T>, id: string, first: T, second: T)
    ensures ServeAll(store, [Update(id, first), Update(id, second)]) == store[id := second]
  {
    var a: Call<T>, b: Call<T> := Update(id, first), Update(id, second);
    assert [a, b][1..] == [b] && [b][1..] == [];
    assert ServeAll(store, [a, b]) == ServeAll(Serve(store, a), [b]) == ServeAll(Serve(Serve(store, a), b), []);
    assert store[id := first][id := second] == store[id := second];
  }

  // ---------- repeated ids ----------

  /** The last entry with the id that gets a call. */
  function LastSent<T>(curr: seq<Entry<T>>, prev: map<string, Entry<T>>, id: string): Option<Entry<T>> {
    if curr == [] then None
    else
      var e := curr[|curr| - 1];
      if e.id == id && CallFor(e, prev) != [] then Some(e) else LastSent(curr[..|curr| - 1], prev, id)
  }

  lemma {:induction false} LastCallConcat<T>(a: seq<Call<T>>, b: seq<Call<T>>, id: string)
    ensures LastCall(a + b, id) == if LastCall(b, id).Some? then LastCall(b, id) else LastCall(a, id)
    decreases |a|
  {
    if a == [] {
      assert a + b == b;
    } else {
      assert (a + b)[1..] == a[1..] + b;
      LastCallConcat(a[1..], b, id);
    }
  }

  lemma {:induction false} LastChange<T>(curr: seq<Entry<T>>, prev: map<string, Entry<T>>, id: string)
    ensures var last, sent := LastCall(Changes(curr, prev), id), LastSent(curr, prev, id);
            && (last.Some? <==> sent.Some?)
            && (last.Some? ==> Effect(last.value) == Some(sent.value.content))
  {
    if curr != [] {
      var e := curr[|curr| - 1];
      LastChange(curr[..|curr| - 1], prev, id);
      LastCallConcat(Changes(curr[..|curr| - 1], prev), CallFor(e, prev), id);
      if CallFor(e, prev) != [] {
        assert CallFor(e, prev)[1..] == [];
      }
    }
  }

  /** If the last entry of an id gets a call, that is the last call for the id. */
  lemma {:induction false} LastSentIsNow<T>(curr: seq<Entry<T>>, prev: map<string, Entry<T>>, id: string)
    requires id in Entries(curr) && CallFor(Entries(curr)[id], prev) != []
    ensures LastSent(curr, prev, id) == Some(Entries(curr)[id])
  {
    if curr[|curr| - 1].id != id {
      LastSentIsNow(curr[..|curr| - 1], prev, id);
    }
  }

  /** Where the last entry of an id is the one the server has, no other entry of that id says otherwise. */
  ghost predicate RepeatsAgree<T>(curr: seq<Entry<T>>, prev: map<string, Entry<T>>) {
    forall id :: id in Entries(curr) && CallFor(Entries(curr)[id], prev) == [] && LastSent(curr, prev, id).Some? ==>
      LastSent(curr, prev, id).value.content == Entries(curr)[id].content
  }

  /** With repeated ids or without, a diff served in order brings the server up to date exactly then. */
  lemma DiffBringsUpToDateIff<T>(curr: List<T>, prev: List<T>)
    requires curr != prev
    ensures ServeAll(ById(prev.entries), Diff(curr, prev)) == ById(curr.entries)
       <==> RepeatsAgree(curr.entries, Entries(prev.entries))
  {
    var store, calls, was := ById(prev.entries), Diff(curr, prev), Entries(prev.entries);
    EntriesIds(curr.entries);
    if RepeatsAgree(curr.entries, was) {
      forall id ensures Lookup(ServeAll(store, calls), id) == Lookup(ById(curr.entries), id) {
        ServedAt(curr, prev, id);
      }
      LookupsDecide(ServeAll(store, calls), ById(curr.entries));
    } else {
      var id :| id in Entries(curr.entries) && CallFor(Entries(curr.entries)[id], was) == []
                && LastSent(curr.entries, was, id).Some?
                && LastSent(curr.entries, was, id).value.content != Entries(curr.entries)[id].content;
      ServedAt(curr, prev, id);
      assert Lookup(ServeAll(store, calls), id) != Lookup(ById(curr.entries), id);
    }
  }

  /** What the server holds under an id after a diff. */
  lemma ServedAt<T>(curr: List<T>, prev: List<T>, id: string)
    requires curr != prev
    ensures var was, now, sent := Entries(prev.entries), Entries(curr.entries), LastSent(curr.entries, Entries(prev.entries), id);
            Lookup(ServeAll(ById(prev.entries), Diff(curr, prev)), id)
            == if id !in now then None
               else if CallFor(now[id], was) != [] then Some(now[id].content)
               else if sent.Some? then Some(sent.value.content)
               else Some(now[id].content)
  {
    var was, now := Entries(prev.entries), Entries(curr.entries);
    var removals: seq<Call<T>> := Removals(Keys(prev.entries), IdsOf(curr.entries));
    var changes := Changes(curr.entries, was);
    LastCallDecides(ById(prev.entries), Diff(curr, prev), id);
    LastCallConcat(removals, changes, id);
    LastChange(curr.entries, was, id);
    EntriesIds(curr.entries);
    RemovedIff(curr, prev, id);
    if id in now {
      if CallFor(now[id], was) != [] {
        LastSentIsNow(curr.entries, was, id);
      }
    } else {
      NotSent(curr.entries, was, id);
    }
  }

  lemma RemovedIff<T>(curr: List<T>, prev: List<T>, id: string)
    ensures var last := LastCall<T>(Removals(Keys(prev.entries), IdsOf(curr.entries)), id);
            && (last.Some? ==> last.value == Delete(id) && id in Entries(prev.entries) && id !in Entries(curr.entries))
            && (last.None? && id in Entries(prev.entries) ==> id in Entries(curr.entries))
  {
    var removals: seq<Call<T>> := Removals(Keys(prev.entries), IdsOf(curr.entries));
    var last := LastCall(removals, id);
    var c: Call<T> := Delete(id);
    KeysDistinct(prev.entries);
    EntriesIds(curr.entries);
    RemovalsExactly(Keys(prev.entries), IdsOf(curr.entries), c);
    if last.Some? {
      RemovalsExactly(Keys(prev.entries), IdsOf(curr.entries), last.value);
    }
  }

  lemma {:induction false} NotSent<T>(curr: seq<Entry<T>>, prev: map<string, Entry<T>>, id: string)
    requires id !in Entries(curr)
    ensures LastSent(curr, prev, id).None?
  {
    if curr != [] {
      NotSent(curr[..|curr| - 1], prev, id);
    }
  }

  /** With a repeated id the diff can leave the earlier entry on the server: uniqueness is needed. */
  lemma RepeatedIdsBreakTheMirror<T>(curr: List<T>, prev: List<T>, old_: Entry<T>, new_: Entry<T>)
    requires curr != prev && old_.id == new_.id && old_.content != new_.content
    requires prev.entries == [new_] && curr.entries == [old_, new_]
    ensures ServeAll(ById(prev.entries), Diff(curr, prev)) != ById(curr.entries)
  {
    var id := new_.id;
    PairOfEntries(old_, new_);
    var changes: seq<Call<T>> := [Update(id, old_.content)];
    assert Diff(curr, prev) == [] + changes;
    assert [] + changes == changes && changes[1..] == [];
    var served := Serve(ById(prev.entries), changes[0]);
    assert ServeAll(ById(prev.entries), changes) == ServeAll(served, changes[1..]) == served;
    assert served[id] == old_.content && ById(curr.entries)[id] == new_.content;
  }

  lemma PairOfEntries<T>(a: Entry<T>, b: Entry<T>)
    requires a != b && a.id == b.id
    ensures Entries([b]) == map[b.id := b] && Keys([b]) == [b.id]
    ensures Entries([a, b]) == map[b.id := b] && IdsOf([a, b]) == {b.id}
    ensures Changes([a, b], map[b.id := b]) == [Update(b.id, a.content)]
    ensures Removals<T>([b.id], {b.id}) == []
  {
    assert [a, b][..1] == [a] && [a][..0] == [] && [b][..0] == [] && [b.id][..0] == [];
    var was := map[b.id := b];
    assert Changes([a], was) == Changes([], was) + CallFor(a, was) == [Update(b.id, a.content)];
    assert CallFor(b, was) == [];
    assert Changes([a, b], was) == Changes([a], was) + CallFor(b, was);
  }
}
