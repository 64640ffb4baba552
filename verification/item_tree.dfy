/**
 Editing the item tree of a collection: extracting, inserting, deleting, cloning and
 duplicating. Nodes are counted by a predicate on their heads (a node without its
 children), so that one induction covers both identity and contents.
 */
module ItemTree {
  import opened Prelude
  import opened Frontend

  /** A node without its children. */
  function Head(x: Item): Item {
    if x.Folder? then x.(items := []) else x
  }

  function Children(x: Item): seq<Item> {
    if x.Folder? then x.items else []
  }

  type Test = Item -> bool

  function HasId(id: string): Test {
    (x: Item) => x.id == id
  }

  function IsFolderNamed(id: string): Test {
    (x: Item) => x.Folder? && x.id == id
  }

  /** How many nodes anywhere in `items` have a head that passes the test. */
  function Count(items: seq<Item>, p: Test): nat {
    if items == [] then 0
    else CountOne(items[0], p) + Count(items[1..], p)
  }

  function CountOne(x: Item, p: Test): nat {
    (if p(Head(x)) then 1 else 0) + if x.Folder? then Count(x.items, p) else 0
  }

  function Size(items: seq<Item>): nat {
    if items == [] then 0 else SizeOf(items[0]) + Size(items[1..])
  }

  function SizeOf(x: Item): nat {
    1 + if x.Folder? then Size(x.items) else 0
  }

  /** `x`, with its whole subtree, occurs in `items`. */
  predicate InTree(items: seq<Item>, x: Item) {
    items != [] && (items[0] == x || (items[0].Folder? && InTree(items[0].items, x)) || InTree(items[1..], x))
  }

  lemma {:induction false} CountConcat(a: seq<Item>, b: seq<Item>, p: Test)
    ensures Count(a + b, p) == Count(a, p) + Count(b, p)
    decreases |a|
  {
    if a == [] {
      assert a + b == b;
    } else {
      CountConcat(a[1..], b, p);
      assert (a + b)[1..] == a[1..] + b;
    }
  }

  lemma CountSingle(x: Item, p: Test)
    ensures Count([x], p) == CountOne(x, p)
  {
    assert [x][1..] == [];
  }

  /** Folders named `id` are nodes with that id. */
  lemma {:induction false} FoldersAreNodes(items: seq<Item>, id: string)
    ensures Count(items, IsFolderNamed(id)) <= Count(items, HasId(id))
    decreases items
  {
    if items != [] {
      if items[0].Folder? { FoldersAreNodes(items[0].items, id); }
      FoldersAreNodes(items[1..], id);
    }
  }

  lemma {:induction false} InTreeCounted(items: seq<Item>, x: Item, p: Test)
    requires InTree(items, x)
    ensures CountOne(x, p) <= Count(items, p)
    decreases items
  {
    if items[0] == x {
    } else if items[0].Folder? && InTree(items[0].items, x) {
      InTreeCounted(items[0].items, x, p);
    } else {
      InTreeCounted(items[1..], x, p);
    }
  }

  lemma {:induction false} InTreeConcat(a: seq<Item>, b: seq<Item>, x: Item)
    ensures InTree(a + b, x) <==> InTree(a, x) || InTree(b, x)
    decreases |a|
  {
    if a == [] {
      assert a + b == b;
    } else {
      InTreeConcat(a[1..], b, x);
      assert (a + b)[1..] == a[1..] + b;
    }
  }

  lemma {:induction false} InTreeTransitive(items: seq<Item>, x: Item, y: Item)
    requires InTree(items, x) && InTree(Children(x), y)
    ensures InTree(items, y)
    decreases items
  {
    if items[0] == x {
    } else if items[0].Folder? && InTree(items[0].items, x) {
      InTreeTransitive(items[0].items, x, y);
    } else {
      InTreeTransitive(items[1..], x, y);
    }
  }

  // ---------- looking up ----------

  /** The first request with the id, depth first. */
  function FindRequest(items: seq<Item>, id: string): Option<Item> {
    if items == [] then None
    else
      var here := if items[0].Request? then (if items[0].id == id then Some(items[0]) else None)
                  else FindRequest(items[0].items, id);
      if here.Some? then here else FindRequest(items[1..], id)
  }

  lemma {:induction false} FindNothing(items: seq<Item>, id: string)
    requires Count(items, HasId(id)) == 0
    ensures FindRequest(items, id).None?
    decreases items
  {
    if items != [] {
      FindNothing(items[1..], id);
      if items[0].Folder? {
        FindNothing(items[0].items, id);
      }
    }
  }

  /** What is found is a request of the tree with the id; nothing is found only if there is none, folders not counting. */
  lemma {:induction false} FindsExactly(items: seq<Item>, id: string)
    ensures var found := FindRequest(items, id);
            && (found.Some? ==> found.value.Request? && found.value.id == id && InTree(items, found.value))
            && (found.None? ==> forall x :: InTree(items, x) && x.Request? ==> x.id != id)
    decreases items
  {
    if items != [] {
      FindsExactly(items[1..], id);
      if items[0].Folder? {
        FindsExactly(items[0].items, id);
      }
    }
  }

  /** A request whose id is unique is found as it is. */
  lemma {:induction false} FindUnique(items: seq<Item>, x: Item)
    requires InTree(items, x) && x.Request? && Count(items, HasId(x.id)) <= 1
    ensures FindRequest(items, x.id) == Some(x)
    decreases items
  {
    if items[0] == x {
    } else if items[0].Folder? && InTree(items[0].items, x) {
      InTreeCounted(items[0].items, x, HasId(x.id));
      FindUnique(items[0].items, x);
    } else {
      InTreeCounted(items[1..], x, HasId(x.id));
      assert CountOne(items[0], HasId(x.id)) == 0;
      if items[0].Folder? { FindNothing(items[0].items, x.id); }
      FindUnique(items[1..], x);
    }
  }

  // ---------- deleting and extracting ----------

  function Delete(items: seq<Item>, id: string): seq<Item> {
    if items == [] then []
    else
      (if items[0].id == id then []
       else if items[0].Folder? then [items[0].(items := Delete(items[0].items, id))]
       else [items[0]])
      + Delete(items[1..], id)
  }

  /** The last top-level item with the id. */
  function LastTop(items: seq<Item>, id: string): Option<Item> {
    if items == [] then None
    else
      var later := LastTop(items[1..], id);
      if later.Some? then later else if items[0].id == id then Some(items[0]) else None
  }

  /** What the last folder that yields something yields, among the folders that stay. */
  function LastInside(items: seq<Item>, id: string): Option<Item>
    decreases items, 0
  {
    if items == [] then None
    else
      var later := LastInside(items[1..], id);
      if later.Some? then later
      else if items[0].Folder? && items[0].id != id then Found(items[0].items, id)
      else None
  }

  /** The item extraction reports: every match overwrites the one before, top level first. */
  function Found(items: seq<Item>, id: string): Option<Item>
    decreases items, 1
  {
    if LastInside(items, id).Some? then LastInside(items, id) else LastTop(items, id)
  }

  /** What extraction leaves behind. */
  function Remaining(items: seq<Item>, id: string): seq<Item> {
    if items == [] then []
    else
      (if items[0].id == id then []
       else if items[0].Folder? && Found(items[0].items, id).Some? then
         [items[0].(items := Remaining(items[0].items, id))]
       else [items[0]])
      + Remaining(items[1..], id)
  }

  /** A filter that notes what it drops, then a map over the folders that are left. */
  method ExtractFromList(items: seq<Item>, id: string) returns (item: Option<Item>, remaining: seq<Item>)
    ensures item == Found(items, id) && remaining == Remaining(items, id)
    decreases items
  {
    var extracted, kept := DropMatches(items, id);
    WithoutSame(items, id);
    remaining := [];
    for i := 0 to |kept|
      invariant remaining == Remaining(kept[..i], id)
      invariant extracted == if LastInside(kept[..i], id).Some? then LastInside(kept[..i], id) else LastTop(items, id)
    {
      OneMoreKept(items, id, kept, i);
      var inner, left := ExtractFromFolder(kept[i], id);
      extracted := if inner.Some? then inner else extracted;
      remaining := remaining + [left];
    }
    assert kept[..|kept|] == kept;
    item := extracted;
  }

  /** What the map does to one item. */
  method ExtractFromFolder(x: Item, id: string) returns (inner: Option<Item>, left: Item)
    ensures inner == if x.Folder? then Found(x.items, id) else None
    ensures left == if inner.Some? then x.(items := Remaining(x.items, id)) else x
    decreases x
  {
    inner, left := None, x;
    if x.Folder? {
      var rest;
      inner, rest := ExtractFromList(x.items, id);
      if inner.Some? {
        left := x.(items := rest);
      }
    }
  }

  method DropMatches(items: seq<Item>, id: string) returns (extracted: Option<Item>, kept: seq<Item>)
    ensures extracted == LastTop(items, id) && kept == Without(items, id)
  {
    extracted, kept := None, [];
    for i := 0 to |items|
      invariant kept == Without(items[..i], id) && extracted == LastTop(items[..i], id)
    {
      WithoutSnoc(items[..i], items[i], id);
      assert items[..i + 1] == items[..i] + [items[i]];
      if items[i].id == id {
        extracted := Some(items[i]);
      } else {
        kept := kept + [items[i]];
      }
    }
    assert items[..|items|] == items;
  }

  function Without(items: seq<Item>, id: string): seq<Item> {
    if items == [] then [] else (if items[0].id == id then [] else [items[0]]) + Without(items[1..], id)
  }

  lemma {:induction false} WithoutSnoc(items: seq<Item>, x: Item, id: string)
    ensures Without(items + [x], id) == Without(items, id) + (if x.id == id then [] else [x])
    ensures LastTop(items + [x], id) == if x.id == id then Some(x) else LastTop(items, id)
  {
    if items == [] {
      assert items + [x] == [x] && [x][1..] == [];
    } else {
      WithoutSnoc(items[1..], x, id);
      assert (items + [x])[1..] == items[1..] + [x];
      Associative(if items[0].id == id then [] else [items[0]], Without(items[1..], id), if x.id == id then [] else [x]);
    }
  }

  lemma {:induction false} RemainingSnoc(items: seq<Item>, x: Item, id: string)
    requires x.id != id
    ensures Remaining(items + [x], id) == Remaining(items, id)
            + [if x.Folder? && Found(x.items, id).Some? then x.(items := Remaining(x.items, id)) else x]
    ensures LastInside(items + [x], id) ==
            if x.Folder? && Found(x.items, id).Some? then Found(x.items, id) else LastInside(items, id)
  {
    if items == [] {
      assert items + [x] == [x] && [x][1..] == [];
    } else {
      RemainingSnoc(items[1..], x, id);
      assert (items + [x])[1..] == items[1..] + [x];
      var y := if x.Folder? && Found(x.items, id).Some? then x.(items := Remaining(x.items, id)) else x;
      Associative(Remaining(items, id)[..|Remaining(items, id)| - |Remaining(items[1..], id)|], Remaining(items[1..], id), [y]);
    }
  }

  lemma OneMoreKept(items: seq<Item>, id: string, kept: seq<Item>, i: nat)
    requires kept == Without(items, id) && i < |kept|
    ensures var x := kept[i];
            var found := if x.Folder? then Found(x.items, id) else None;
            && x in items
            && Remaining(kept[..i + 1], id)
               == Remaining(kept[..i], id) + [if found.Some? then x.(items := Remaining(x.items, id)) else x]
            && LastInside(kept[..i + 1], id) == if found.Some? then found else LastInside(kept[..i], id)
  {
    WithoutMembers(items, id, i);
    assert kept[..i + 1] == kept[..i] + [kept[i]];
    RemainingSnoc(kept[..i], kept[i], id);
  }

  lemma {:induction false} WithoutMembers(items: seq<Item>, id: string, i: nat)
    requires i < |Without(items, id)|
    ensures Without(items, id)[i] in items && Without(items, id)[i].id != id
  {
    var more := Without(items[1..], id);
    if items[0].id == id {
      WithoutMembers(items[1..], id, i);
    } else if i > 0 {
      WithoutMembers(items[1..], id, i - 1);
    }
  }

  lemma {:induction false} WithoutSame(items: seq<Item>, id: string)
    ensures Remaining(Without(items, id), id) == Remaining(items, id)
    ensures LastInside(Without(items, id), id) == LastInside(items, id)
  {
    if items != [] {
      WithoutSame(items[1..], id);
      assert [] + Without(items[1..], id) == Without(items[1..], id);
      assert [] + Remaining(items[1..], id) == Remaining(items[1..], id);
      assert ([items[0]] + Without(items[1..], id))[1..] == Without(items[1..], id);
    }
  }

  lemma {:induction false} NothingFound(items: seq<Item>, id: string)
    requires Count(items, HasId(id)) == 0
    ensures Found(items, id).None? && Remaining(items, id) == items && Delete(items, id) == items
    decreases items
  {
    if items != [] {
      assert HasId(id)(Head(items[0])) == (items[0].id == id);
      NothingFound(items[1..], id);
      var x := items[0];
      if x.Folder? {
        NothingFound(x.items, id);
        assert x.(items := Delete(x.items, id)) == x;
      }
      assert Remaining(items, id) == [x] + Remaining(items[1..], id);
      assert Delete(items, id) == [x] + Delete(items[1..], id);
    }
  }

  /** `after` is `before` without one occurrence of the subtree `x`; everything else is where it was. */
  predicate RemovedFrom(before: seq<Item>, after: seq<Item>, x: Item) {
    before != [] &&
    if before[0] == x then after == before[1..]
    else
      && after != []
      && (|| (after[0] == before[0] && RemovedFrom(before[1..], after[1..], x))
          || (&& before[0].Folder? && after[0].Folder? && Head(after[0]) == Head(before[0])
              && RemovedFrom(before[0].items, after[0].items, x) && after[1..] == before[1..]))
  }

  lemma {:induction false} RemovedWasIn(before: seq<Item>, after: seq<Item>, x: Item)
    requires RemovedFrom(before, after, x)
    ensures InTree(before, x)
    decreases before
  {
    if before[0] != x {
      if after[0] == before[0] && RemovedFrom(before[1..], after[1..], x) {
        RemovedWasIn(before[1..], after[1..], x);
      } else {
        RemovedWasIn(before[0].items, after[0].items, x);
      }
    }
  }

  /** A subtree that does not hold `x` is still there as it was, or has gone with `x`. */
  lemma {:induction false} RemovalKeepsSubtree(before: seq<Item>, after: seq<Item>, x: Item, y: Item)
    requires RemovedFrom(before, after, x) && InTree(before, y) && CountOne(y, HasId(x.id)) == 0
    ensures InTree(after, y) || InTree(Children(x), y)
    decreases before
  {
    CountOneId(x, x.id);
    if before[0] == x {
    } else if after[0] == before[0] && RemovedFrom(before[1..], after[1..], x) {
      if InTree(before[1..], y) {
        RemovalKeepsSubtree(before[1..], after[1..], x, y);
      }
    } else {
      RemovedWasIn(before[0].items, after[0].items, x);
      InTreeCounted(before[0].items, x, HasId(x.id));
      CountOneId(before[0], x.id);
      if InTree(before[0].items, y) {
        RemovalKeepsSubtree(before[0].items, after[0].items, x, y);
      }
    }
  }

  /** Extraction removes what it finds and moves nothing else. */
  lemma {:induction false} ExtractRemoves(items: seq<Item>, id: string)
    requires Count(items, HasId(id)) == 1
    ensures Found(items, id).Some? && RemovedFrom(items, Remaining(items, id), Found(items, id).value)
    decreases items
  {
    ExtractCounts(items, id);
    var x, rest := items[0], items[1..];
    CountOneId(x, id);
    if x.id == id {
      NothingFound(rest, id);
      NotInsideAnother(items, id);
      assert [] + rest == rest;
    } else if x.Folder? && Count(x.items, HasId(id)) == 1 {
      NothingFound(rest, id);
      ExtractRemoves(x.items, id);
      var y := x.(items := Remaining(x.items, id));
      assert Remaining(items, id) == [y] + rest;
      assert Found(items, id) == Found(x.items, id) && Head(y) == Head(x);
      assert Remaining(items, id)[1..] == rest;
    } else {
      if x.Folder? { NothingFound(x.items, id); }
      ExtractRemoves(rest, id);
      assert Found(items, id) == Found(rest, id);
      assert Remaining(items, id) == [x] + Remaining(rest, id);
      assert Remaining(items, id)[1..] == Remaining(rest, id);
    }
  }

  /**
   With a unique id, extraction takes out exactly one subtree, whole, and leaves every other
   node in its place; deletion leaves the same items.
   */
  lemma ExtractSplits(items: seq<Item>, id: string)
    requires Count(items, HasId(id)) == 1
    ensures Found(items, id).Some? && Found(items, id).value.id == id
    ensures InTree(items, Found(items, id).value)
    ensures RemovedFrom(items, Remaining(items, id), Found(items, id).value)
    ensures forall p :: Count(items, p) == CountOne(Found(items, id).value, p) + Count(Remaining(items, id), p)
    ensures Delete(items, id) == Remaining(items, id)
  {
    ExtractCounts(items, id);
    ExtractRemoves(items, id);
  }

  lemma {:induction false} ExtractCounts(items: seq<Item>, id: string)
    requires Count(items, HasId(id)) == 1
    ensures Found(items, id).Some? && Found(items, id).value.id == id
    ensures InTree(items, Found(items, id).value)
    ensures forall p :: Count(items, p) == CountOne(Found(items, id).value, p) + Count(Remaining(items, id), p)
    ensures Delete(items, id) == Remaining(items, id)
    decreases items
  {
    var x, rest := items[0], items[1..];
    assert HasId(id)(Head(x)) == (x.id == id);
    if x.id == id {
      NothingFound(rest, id);
      NotInsideAnother(items, id);
      assert [] + rest == rest;
      assert Remaining(items, id) == rest;
    } else if x.Folder? && Count(x.items, HasId(id)) == 1 {
      NothingFound(rest, id);
      ExtractCounts(x.items, id);
      var y := x.(items := Remaining(x.items, id));
      assert Remaining(items, id) == [y] + rest;
      NothingFound(rest, id);
      assert Found(items, id) == Found(x.items, id);
      forall p ensures Count(items, p) == CountOne(Found(items, id).value, p) + Count(Remaining(items, id), p) {
        CountCons(y, rest, p);
      }
    } else {
      if x.Folder? { NothingFound(x.items, id); }
      ExtractCounts(rest, id);
      assert Found(items, id) == Found(rest, id);
      forall p ensures Count(items, p) == CountOne(Found(items, id).value, p) + Count(Remaining(items, id), p) {
        CountCons(x, Remaining(rest, id), p);
      }
    }
  }

  lemma CountCons(x: Item, rest: seq<Item>, p: Test)
    ensures Count([x] + rest, p) == CountOne(x, p) + Count(rest, p)
  {
    assert ([x] + rest)[1..] == rest;
  }

  lemma NotInsideAnother(items: seq<Item>, id: string)
    requires items != [] && items[0].id == id && Count(items[1..], HasId(id)) == 0
    ensures LastInside(items, id).None? && LastTop(items, id) == Some(items[0])
  {
    NothingFound(items[1..], id);
  }

  // ---------- inserting ----------

  /** At the end of the list, or at the end of every folder with the target id (not inside one). */
  function Insert(items: seq<Item>, target: Option<string>, x: Item): seq<Item> {
    if target.None? then items + [x] else InsertInto(items, target.value, x)
  }

  function InsertInto(items: seq<Item>, target: string, x: Item): (r: seq<Item>)
    ensures |r| == |items|
  {
    if items == [] then []
    else
      [if items[0].Request? then items[0]
       else if items[0].id == target then items[0].(items := items[0].items + [x])
       else items[0].(items := InsertInto(items[0].items, target, x))]
      + InsertInto(items[1..], target, x)
  }

  lemma {:induction false} InsertNowhere(items: seq<Item>, target: string, x: Item)
    requires Count(items, IsFolderNamed(target)) == 0
    ensures InsertInto(items, target, x) == items
    decreases items
  {
    if items != [] {
      assert IsFolderNamed(target)(Head(items[0])) == (items[0].Folder? && items[0].id == target);
      InsertNowhere(items[1..], target, x);
      if items[0].Folder? {
        InsertNowhere(items[0].items, target, x);
      }
      assert items == [items[0]] + items[1..];
    }
  }

  /** With one folder of that id, insertion adds exactly `x` and its subtree, unchanged. */
  lemma {:induction false} InsertOnce(items: seq<Item>, target: string, x: Item)
    requires Count(items, IsFolderNamed(target)) == 1
    ensures forall p :: Count(InsertInto(items, target, x), p) == Count(items, p) + CountOne(x, p)
    ensures InTree(InsertInto(items, target, x), x)
    decreases items
  {
    var head, rest := items[0], items[1..];
    var inserted := InsertInto(items, target, x);
    assert inserted == [inserted[0]] + InsertInto(rest, target, x);
    assert IsFolderNamed(target)(Head(head)) == (head.Folder? && head.id == target);
    if head.Folder? && head.id == target {
      InsertNowhere(rest, target, x);
      forall p ensures Count(inserted, p) == Count(items, p) + CountOne(x, p) {
        CountConcat(head.items, [x], p);
        CountSingle(x, p);
      }
      InTreeConcat(head.items, [x], x);
    } else if head.Folder? && Count(head.items, IsFolderNamed(target)) == 1 {
      InsertNowhere(rest, target, x);
      InsertOnce(head.items, target, x);
      forall p ensures Count(inserted, p) == Count(items, p) + CountOne(x, p) {
        assert Head(inserted[0]) == Head(head);
      }
    } else {
      if head.Folder? { InsertNowhere(head.items, target, x); }
      InsertOnce(rest, target, x);
      forall p ensures Count(inserted, p) == Count(items, p) + CountOne(x, p) {
        CountCons(inserted[0], InsertInto(rest, target, x), p);
      }
    }
  }

  /** `after` is `before` with `x` put at the end of one folder with the target id, and nothing else changed. */
  predicate AppendedTo(before: seq<Item>, after: seq<Item>, target: string, x: Item) {
    before != [] && after != [] &&
    if IsFolderNamed(target)(before[0]) then after == [before[0].(items := before[0].items + [x])] + before[1..]
    else
      || (after[0] == before[0] && AppendedTo(before[1..], after[1..], target, x))
      || (&& before[0].Folder? && after[0].Folder? && Head(after[0]) == Head(before[0])
          && AppendedTo(before[0].items, after[0].items, target, x) && after[1..] == before[1..])
  }

  lemma {:induction false} InsertAppends(items: seq<Item>, target: string, x: Item)
    requires Count(items, IsFolderNamed(target)) == 1
    ensures AppendedTo(items, InsertInto(items, target, x), target, x)
    decreases items
  {
    var head, rest := items[0], items[1..];
    var inserted := InsertInto(items, target, x);
    assert inserted[1..] == InsertInto(rest, target, x);
    assert IsFolderNamed(target)(Head(head)) == IsFolderNamed(target)(head);
    if IsFolderNamed(target)(head) {
      InsertNowhere(rest, target, x);
    } else if head.Folder? && Count(head.items, IsFolderNamed(target)) == 1 {
      InsertNowhere(rest, target, x);
      InsertAppends(head.items, target, x);
      assert Head(inserted[0]) == Head(head);
    } else {
      if head.Folder? { InsertNowhere(head.items, target, x); }
      InsertAppends(rest, target, x);
    }
  }

  /** A subtree that does not hold the target folder stays as it was. */
  lemma {:induction false} AppendingKeepsSubtree(before: seq<Item>, after: seq<Item>, target: string, x: Item, y: Item)
    requires AppendedTo(before, after, target, x) && InTree(before, y) && CountOne(y, IsFolderNamed(target)) == 0
    ensures InTree(after, y)
    decreases before
  {
    assert IsFolderNamed(target)(Head(before[0])) == IsFolderNamed(target)(before[0]);
    if IsFolderNamed(target)(before[0]) {
      assert InTree(before[0].items, y) || InTree(before[1..], y);
      InTreeConcat(before[0].items, [x], y);
    } else if after[0] == before[0] && AppendedTo(before[1..], after[1..], target, x) {
      if InTree(before[1..], y) {
        AppendingKeepsSubtree(before[1..], after[1..], target, x, y);
      }
    } else {
      AppendedHasTarget(before[0].items, after[0].items, target, x);
      if InTree(before[0].items, y) {
        AppendingKeepsSubtree(before[0].items, after[0].items, target, x, y);
      }
    }
  }

  lemma {:induction false} AppendedHasTarget(before: seq<Item>, after: seq<Item>, target: string, x: Item)
    requires AppendedTo(before, after, target, x)
    ensures Count(before, IsFolderNamed(target)) > 0
    decreases before
  {
    assert IsFolderNamed(target)(Head(before[0])) == IsFolderNamed(target)(before[0]);
    if !IsFolderNamed(target)(before[0]) {
      if after[0] == before[0] && AppendedTo(before[1..], after[1..], target, x) {
        AppendedHasTarget(before[1..], after[1..], target, x);
      } else {
        AppendedHasTarget(before[0].items, after[0].items, target, x);
      }
    }
  }

  /** Where insertion puts an item: at the end of the list, or of the target folder. */
  predicate Placed(before: seq<Item>, after: seq<Item>, target: Option<string>, x: Item) {
    if target.None? then after == before + [x] else AppendedTo(before, after, target.value, x)
  }

  lemma InsertPlaces(items: seq<Item>, target: Option<string>, x: Item)
    requires target.Some? ==> Count(items, IsFolderNamed(target.value)) == 1
    ensures Placed(items, Insert(items, target, x), target, x)
  {
    if target.Some? {
      InsertAppends(items, target.value, x);
    }
  }

  lemma PlacingKeepsSubtree(before: seq<Item>, after: seq<Item>, target: Option<string>, x: Item, y: Item)
    requires Placed(before, after, target, x) && InTree(before, y)
    requires target.Some? ==> CountOne(y, IsFolderNamed(target.value)) == 0
    ensures InTree(after, y)
  {
    if target.None? {
      InTreeConcat(before, [x], y);
    } else {
      AppendingKeepsSubtree(before, after, target.value, x, y);
    }
  }

  /** Whether insertion finds a place. */
  ghost predicate Accepts(items: seq<Item>, target: Option<string>) {
    target.None? || Count(items, IsFolderNamed(target.value)) > 0
  }

  lemma InsertCounts(items: seq<Item>, target: Option<string>, x: Item)
    requires target.Some? ==> Count(items, IsFolderNamed(target.value)) <= 1
    ensures forall p :: Count(Insert(items, target, x), p)
                        == Count(items, p) + if Accepts(items, target) then CountOne(x, p) else 0
    ensures Accepts(items, target) ==> InTree(Insert(items, target, x), x)
  {
    if target.None? {
      forall p ensures Count(items + [x], p) == Count(items, p) + CountOne(x, p) {
        CountConcat(items, [x], p);
        CountSingle(x, p);
      }
      InTreeConcat(items, [x], x);
    } else if Accepts(items, target) {
      InsertOnce(items, target.value, x);
    } else {
      InsertNowhere(items, target.value, x);
    }
  }

  // ---------- cloning ----------

  /** The successive results of `newId()`. */
  type Ids = nat -> string

  /** Every node gets the next fresh id, a folder before its children. */
  function Clone(items: seq<Item>, fresh_: Ids, n: nat): seq<Item> {
    if items == [] then []
    else [CloneOne(items[0], fresh_, n)] + Clone(items[1..], fresh_, n + SizeOf(items[0]))
  }

  function CloneOne(x: Item, fresh_: Ids, n: nat): Item {
    match x
    case Request(_, _, _, _, _, _, _, _, _) => x.(id := fresh_(n))
    case Folder(_, _, _, _, items) => x.(id := fresh_(n), items := Clone(items, fresh_, n + 1))
  }

  /** An item with every id blanked: what a clone must have in common with its original. */
  function StripIds(items: seq<Item>): seq<Item> {
    if items == [] then [] else [StripId(items[0])] + StripIds(items[1..])
  }

  function StripId(x: Item): Item {
    match x
    case Request(_, _, _, _, _, _, _, _, _) => x.(id := "")
    case Folder(_, _, _, _, items) => x.(id := "", items := StripIds(items))
  }

  /** A clone differs from its original in ids only. */
  lemma {:induction false} CloneIsomorphic(items: seq<Item>, fresh_: Ids, n: nat)
    ensures StripIds(Clone(items, fresh_, n)) == StripIds(items)
    decreases items
  {
    if items != [] {
      if items[0].Folder? {
        CloneIsomorphic(items[0].items, fresh_, n + 1);
      }
      CloneIsomorphic(items[1..], fresh_, n + SizeOf(items[0]));
      assert Clone(items, fresh_, n)[1..] == Clone(items[1..], fresh_, n + SizeOf(items[0]));
    }
  }

  /** The ids handed out from `n` on are distinct. */
  ghost predicate Distinct(fresh_: Ids, n: nat, k: nat) {
    forall i, j :: n <= i < j < n + k ==> fresh_(i) != fresh_(j)
  }

  predicate Among(fresh_: Ids, n: nat, k: nat, id: string) {
    exists i :: n <= i < n + k && fresh_(i) == id
  }

  lemma CountOneId(x: Item, id: string)
    ensures CountOne(x, HasId(id)) == (if x.id == id then 1 else 0) + if x.Folder? then Count(x.items, HasId(id)) else 0
  {
  }

  /** A clone uses each of its fresh ids once and no other id. */
  lemma {:induction false} CloneIds(items: seq<Item>, fresh_: Ids, n: nat, id: string)
    requires Distinct(fresh_, n, Size(items))
    ensures Count(Clone(items, fresh_, n), HasId(id)) == if Among(fresh_, n, Size(items), id) then 1 else 0
    decreases items, 1
  {
    if items != [] {
      var k := SizeOf(items[0]);
      CloneOneIds(items[0], fresh_, n, id);
      CloneIds(items[1..], fresh_, n + k, id);
      CountCons(CloneOne(items[0], fresh_, n), Clone(items[1..], fresh_, n + k), HasId(id));
      AmongSplit(fresh_, n, k, Size(items[1..]), id);
    }
  }

  lemma {:induction false} CloneOneIds(x: Item, fresh_: Ids, n: nat, id: string)
    requires Distinct(fresh_, n, SizeOf(x))
    ensures CountOne(CloneOne(x, fresh_, n), HasId(id)) == if Among(fresh_, n, SizeOf(x), id) then 1 else 0
    decreases x, 0
  {
    CountOneId(CloneOne(x, fresh_, n), id);
    AmongSplit(fresh_, n, 1, SizeOf(x) - 1, id);
    assert Among(fresh_, n, 1, id) <==> fresh_(n) == id;
    if x.Folder? {
      CloneIds(x.items, fresh_, n + 1, id);
    }
  }

  lemma AmongSplit(fresh_: Ids, n: nat, a: nat, b: nat, id: string)
    requires Distinct(fresh_, n, a + b)
    ensures Among(fresh_, n, a + b, id) <==> Among(fresh_, n, a, id) || Among(fresh_, n + a, b, id)
    ensures !(Among(fresh_, n, a, id) && Among(fresh_, n + a, b, id))
  {
  }

  // ---------- duplicating ----------

  function CopyOf(x: Item, fresh_: Ids, n: nat): Item {
    CloneOne(x, fresh_, n).(name := x.name + " Copy")
  }

  /** After every item with the id, not looking inside it, its copy; also the number of ids used up to then. */
  function Duplicate(items: seq<Item>, id: string, fresh_: Ids, n: nat): (seq<Item>, nat)
    decreases items
  {
    if items == [] then ([], n)
    else if items[0].id == id then
      var rest := Duplicate(items[1..], id, fresh_, n + SizeOf(items[0]));
      ([items[0], CopyOf(items[0], fresh_, n)] + rest.0, rest.1)
    else if items[0].Folder? then
      var inner := Duplicate(items[0].items, id, fresh_, n);
      var rest := Duplicate(items[1..], id, fresh_, inner.1);
      ([items[0].(items := inner.0)] + rest.0, rest.1)
    else
      var rest := Duplicate(items[1..], id, fresh_, n);
      ([items[0]] + rest.0, rest.1)
  }

  lemma DuplicateCons(items: seq<Item>, id: string, fresh_: Ids, n: nat)
    requires items != []
    ensures var first := Duplicate([items[0]], id, fresh_, n);
            var rest := Duplicate(items[1..], id, fresh_, first.1);
            Duplicate(items, id, fresh_, n) == (first.0 + rest.0, rest.1)
  {
    var x := items[0];
    assert [x][1..] == [];
    if x.id == id {
      assert [x, CopyOf(x, fresh_, n)] + [] == [x, CopyOf(x, fresh_, n)];
    } else if x.Folder? {
      var y := x.(items := Duplicate(x.items, id, fresh_, n).0);
      assert [y] + [] == [y];
    } else {
      assert [x] + [] == [x];
    }
  }

  method DuplicateInList(items: seq<Item>, id: string, fresh_: Ids, n: nat) returns (result: seq<Item>, n': nat)
    ensures (result, n') == Duplicate(items, id, fresh_, n)
    decreases items
  {
    result, n' := [], n;
    var i := 0;
    assert items[0..] == items && [] + Duplicate(items, id, fresh_, n).0 == Duplicate(items, id, fresh_, n).0;
    while i < |items|
      invariant i <= |items|
      invariant var rest := Duplicate(items[i..], id, fresh_, n');
                (result + rest.0, rest.1) == Duplicate(items, id, fresh_, n)
    {
      assert items[i..][0] == items[i] && items[i..][1..] == items[i + 1..];
      var item := items[i];
      ghost var before, first := result, Duplicate([item], id, fresh_, n');
      DuplicateCons(items[i..], id, fresh_, n');
      Associative(before, first.0, Duplicate(items[i + 1..], id, fresh_, first.1).0);
      assert [item][1..] == [];
      result := result + [item];
      if item.id == id {
        result := result + [CopyOf(item, fresh_, n')];
        n' := n' + SizeOf(item);
      } else if item.Folder? {
        var inner;
        inner, n' := DuplicateInList(item.items, id, fresh_, n');
        result := result[|result| - 1 := item.(items := inner)];
      }
      assert result == before + first.0 && n' == first.1;
      i := i + 1;
    }
    assert result + [] == result;
  }

  /** `after` is `before` with `copy` put right behind the item with the id, wherever that is. */
  predicate InsertedAfter(before: seq<Item>, after: seq<Item>, id: string, copy: Item) {
    before != [] && after != [] &&
    if before[0].id == id then after == [before[0], copy] + before[1..]
    else
      || (after[0] == before[0] && InsertedAfter(before[1..], after[1..], id, copy))
      || (&& before[0].Folder? && after[0].Folder? && Head(after[0]) == Head(before[0])
          && InsertedAfter(before[0].items, after[0].items, id, copy) && after[1..] == before[1..])
  }

  lemma {:induction false} DuplicateNothing(items: seq<Item>, id: string, fresh_: Ids, n: nat)
    requires Count(items, HasId(id)) == 0
    ensures Duplicate(items, id, fresh_, n) == (items, n)
    decreases items
  {
    if items != [] {
      CountOneId(items[0], id);
      if items[0].Folder? {
        DuplicateNothing(items[0].items, id, fresh_, n);
      }
      DuplicateNothing(items[1..], id, fresh_, n);
      assert items == [items[0]] + items[1..];
    }
  }

  /** A unique item gets one copy, right behind it; everything else stays as it was. */
  lemma {:induction false} DuplicateOnce(items: seq<Item>, id: string, fresh_: Ids, n: nat)
    requires Count(items, HasId(id)) == 1
    ensures Found(items, id).Some? && Duplicated(items, id, fresh_, n, Found(items, id).value)
    decreases items
  {
    ExtractSplits(items, id);
    var head, rest := items[0], items[1..];
    CountOneId(head, id);
    if head.id == id {
      NotInsideAnother(items, id);
      DuplicateHead(items, id, fresh_, n);
    } else if head.Folder? && Count(head.items, HasId(id)) == 1 {
      DuplicateOnce(head.items, id, fresh_, n);
      NothingFound(rest, id);
      assert Found(items, id) == Found(head.items, id);
      DuplicateInside(items, id, fresh_, n, Found(head.items, id).value);
    } else {
      if head.Folder? {
        NothingFound(head.items, id);
      }
      DuplicateOnce(rest, id, fresh_, n);
      assert Found(items, id) == Found(rest, id);
      DuplicateLater(items, id, fresh_, n, Found(rest, id).value);
    }
  }

  /** What one duplication of `x` does to the list. */
  ghost predicate Duplicated(items: seq<Item>, id: string, fresh_: Ids, n: nat, x: Item) {
    var (after, m) := Duplicate(items, id, fresh_, n);
    && m == n + SizeOf(x)
    && InsertedAfter(items, after, id, CopyOf(x, fresh_, n))
    && forall p :: Count(after, p) == Count(items, p) + CountOne(CopyOf(x, fresh_, n), p)
  }

  lemma CountTwo(x: Item, y: Item, rest: seq<Item>, p: Test)
    ensures Count([x, y] + rest, p) == CountOne(x, p) + CountOne(y, p) + Count(rest, p)
  {
    assert [x, y] + rest == [x] + ([y] + rest);
    CountCons(x, [y] + rest, p);
    CountCons(y, rest, p);
  }

  lemma DuplicateHead(items: seq<Item>, id: string, fresh_: Ids, n: nat)
    requires items != [] && items[0].id == id && Count(items[1..], HasId(id)) == 0
    ensures Duplicated(items, id, fresh_, n, items[0])
  {
    var head, rest := items[0], items[1..];
    DuplicateNothing(rest, id, fresh_, n + SizeOf(head));
    var copy := CopyOf(head, fresh_, n);
    var after := Duplicate(items, id, fresh_, n).0;
    forall p ensures Count(after, p) == Count(items, p) + CountOne(copy, p) {
      CountTwo(head, copy, rest, p);
    }
    assert InsertedAfter(items, after, id, copy);
  }

  lemma DuplicateInside(items: seq<Item>, id: string, fresh_: Ids, n: nat, x: Item)
    requires items != [] && items[0].id != id && items[0].Folder? && Count(items[1..], HasId(id)) == 0
    requires Duplicated(items[0].items, id, fresh_, n, x)
    ensures Duplicated(items, id, fresh_, n, x)
  {
    var head, rest := items[0], items[1..];
    var inner := Duplicate(head.items, id, fresh_, n);
    DuplicateNothing(rest, id, fresh_, inner.1);
    var changed := head.(items := inner.0);
    var after := Duplicate(items, id, fresh_, n).0;
    assert after == [changed] + rest && after[1..] == rest;
    forall p ensures Count(after, p) == Count(items, p) + CountOne(CopyOf(x, fresh_, n), p) {
      CountCons(changed, rest, p);
    }
  }

  lemma DuplicateLater(items: seq<Item>, id: string, fresh_: Ids, n: nat, x: Item)
    requires items != [] && items[0].id != id
    requires items[0].Folder? ==> Count(items[0].items, HasId(id)) == 0
    requires Duplicated(items[1..], id, fresh_, n, x)
    ensures Duplicated(items, id, fresh_, n, x)
  {
    var head, rest := items[0], items[1..];
    if head.Folder? {
      DuplicateNothing(head.items, id, fresh_, n);
    }
    var later := Duplicate(rest, id, fresh_, n).0;
    var after := Duplicate(items, id, fresh_, n).0;
    assert after == [head] + later && after[1..] == later;
    forall p ensures Count(after, p) == Count(items, p) + CountOne(CopyOf(x, fresh_, n), p) {
      CountCons(head, later, p);
    }
  }

  /** A copy is its original up to ids and the root's name. */
  lemma CopyIsomorphic(x: Item, fresh_: Ids, n: nat)
    ensures StripId(CopyOf(x, fresh_, n)) == StripId(x).(name := x.name + " Copy")
    ensures CopyOf(x, fresh_, n).id == fresh_(n)
  {
    if x.Folder? {
      CloneIsomorphic(x.items, fresh_, n + 1);
    }
  }

  lemma CopyIds(x: Item, fresh_: Ids, n: nat, id: string)
    requires Distinct(fresh_, n, SizeOf(x))
    ensures CountOne(CopyOf(x, fresh_, n), HasId(id)) == if Among(fresh_, n, SizeOf(x), id) then 1 else 0
  {
    CloneOneIds(x, fresh_, n, id);
    CountOneId(CopyOf(x, fresh_, n), id);
    CountOneId(CloneOne(x, fresh_, n), id);
  }
}
