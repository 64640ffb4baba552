/** The workspace store: collections of item trees, and the actions that edit them. */
module Workspace {
  import opened Prelude
  import opened Frontend
  import opened ItemTree

  // ---------- counting over the workspace ----------

  function CountAll(ws: seq<Collection>, p: Test): nat {
    if ws == [] then 0 else Count(ws[0].items, p) + CountAll(ws[1..], p)
  }

  function CountCollections(ws: seq<Collection>, id: string): nat {
    if ws == [] then 0 else (if ws[0].id == id then 1 else 0) + CountCollections(ws[1..], id)
  }

  /** No item id occurs twice anywhere, and no collection id occurs twice. */
  ghost predicate UniqueIds(ws: seq<Collection>) {
    && (forall id {:trigger HasId(id)} :: CountAll(ws, HasId(id)) <= 1)
    && (forall id :: CountCollections(ws, id) <= 1)
  }

  /** The position of the first collection with the id. */
  function IndexOf(ws: seq<Collection>, id: string): (r: Option<nat>)
    ensures r.Some? ==> r.value < |ws| && ws[r.value].id == id
    ensures r.None? <==> CountCollections(ws, id) == 0
  {
    if ws == [] then None
    else if ws[0].id == id then Some(0)
    else
      var later := IndexOf(ws[1..], id);
      if later.Some? then Some(later.value + 1) else None
  }

  lemma {:induction false} OnlyIndex(ws: seq<Collection>, i: nat)
    requires i < |ws| && CountCollections(ws, ws[i].id) <= 1
    ensures IndexOf(ws, ws[i].id) == Some(i)
    ensures forall j :: 0 <= j < |ws| && j != i ==> ws[j].id != ws[i].id
    decreases |ws|
  {
    if i == 0 {
      NoIndex(ws[1..], ws[0].id);
      forall j | 0 < j < |ws| ensures ws[j].id != ws[0].id { assert ws[j] == ws[1..][j - 1]; }
    } else {
      assert ws[1..][i - 1] == ws[i];
      CountedCollection(ws[1..], i - 1);
      OnlyIndex(ws[1..], i - 1);
      forall j | 0 <= j < |ws| && j != i ensures ws[j].id != ws[i].id {
        if j > 0 { assert ws[j] == ws[1..][j - 1]; }
      }
    }
  }

  lemma {:induction false} CountedCollection(ws: seq<Collection>, i: nat)
    requires i < |ws|
    ensures CountCollections(ws, ws[i].id) >= 1
  {
    if i > 0 {
      assert ws[1..][i - 1] == ws[i];
      CountedCollection(ws[1..], i - 1);
    }
  }

  lemma {:induction false} NoIndex(ws: seq<Collection>, id: string)
    requires CountCollections(ws, id) == 0
    ensures forall j :: 0 <= j < |ws| ==> ws[j].id != id
  {
    if ws != [] {
      NoIndex(ws[1..], id);
      forall j | 0 <= j < |ws| ensures ws[j].id != id {
        if j > 0 { assert ws[j] == ws[1..][j - 1]; }
      }
    }
  }

  lemma {:induction false} CountAt(ws: seq<Collection>, i: nat, p: Test)
    requires i < |ws|
    ensures Count(ws[i].items, p) <= CountAll(ws, p)
  {
    if i > 0 {
      assert ws[1..][i - 1] == ws[i];
      CountAt(ws[1..], i - 1, p);
    }
  }

  lemma {:induction false} CountAtTwo(ws: seq<Collection>, i: nat, j: nat, p: Test)
    requires i < j < |ws|
    ensures Count(ws[i].items, p) + Count(ws[j].items, p) <= CountAll(ws, p)
  {
    if i == 0 {
      assert ws[1..][j - 1] == ws[j];
      CountAt(ws[1..], j - 1, p);
    } else {
      assert ws[1..][j - 1] == ws[j] && ws[1..][i - 1] == ws[i];
      CountAtTwo(ws[1..], i - 1, j - 1, p);
    }
  }

  /** Replacing one collection's items changes the counts by the difference. */
  lemma {:induction false} CountUpdate(ws: seq<Collection>, i: nat, items: seq<Item>, p: Test)
    requires i < |ws|
    ensures CountAll(ws[i := ws[i].(items := items)], p) + Count(ws[i].items, p) == CountAll(ws, p) + Count(items, p)
  {
    var updated := ws[i := ws[i].(items := items)];
    if i == 0 {
      assert updated[1..] == ws[1..];
    } else {
      assert ws[1..][i - 1] == ws[i];
      assert updated[1..] == ws[1..][i - 1 := ws[i].(items := items)];
      CountUpdate(ws[1..], i - 1, items, p);
    }
  }

  lemma {:induction false} CollectionsUpdate(ws: seq<Collection>, i: nat, items: seq<Item>, id: string)
    requires i < |ws|
    ensures CountCollections(ws[i := ws[i].(items := items)], id) == CountCollections(ws, id)
  {
    var updated := ws[i := ws[i].(items := items)];
    if i == 0 {
      assert updated[1..] == ws[1..];
    } else {
      assert ws[1..][i - 1] == ws[i];
      assert updated[1..] == ws[1..][i - 1 := ws[i].(items := items)];
      CollectionsUpdate(ws[1..], i - 1, items, id);
    }
  }

  // ---------- looking up ----------

  /** The first request with the id, with the id of its collection. */
  function FindAnywhere(ws: seq<Collection>, id: string): Option<(Item, string)> {
    if ws == [] then None
    else
      var here := FindRequest(ws[0].items, id);
      if here.Some? then Some((here.value, ws[0].id)) else FindAnywhere(ws[1..], id)
  }

  lemma {:induction false} FindUniqueAnywhere(ws: seq<Collection>, i: nat, x: Item)
    requires i < |ws| && InTree(ws[i].items, x) && x.Request? && CountAll(ws, HasId(x.id)) <= 1
    ensures FindAnywhere(ws, x.id) == Some((x, ws[i].id))
  {
    InTreeCounted(ws[i].items, x, HasId(x.id));
    if i == 0 {
      FindUnique(ws[0].items, x);
    } else {
      assert ws[1..][i - 1] == ws[i];
      CountAt(ws[1..], i - 1, HasId(x.id));
      FindNothing(ws[0].items, x.id);
      FindUniqueAnywhere(ws[1..], i - 1, x);
    }
  }

  lemma {:induction false} FindNothingAnywhere(ws: seq<Collection>, id: string)
    requires CountAll(ws, HasId(id)) == 0
    ensures FindAnywhere(ws, id).None?
  {
    if ws != [] {
      FindNothing(ws[0].items, id);
      FindNothingAnywhere(ws[1..], id);
    }
  }

  // ---------- moving ----------

  /** The guards of `moveItem`: source found, not dropped on itself, item found. */
  predicate MovePasses(ws: seq<Collection>, source: string, item: string, folder: Option<string>) {
    && IndexOf(ws, source).Some?
    && !(folder.Some? && folder.value != "" && folder.value == item)
    && Found(ws[IndexOf(ws, source).value].items, item).Some?
  }

  /** A move happens unless the source or the item in it is missing or the item would go into itself; then nothing changes. */
  lemma MoveHappensIff(ws: seq<Collection>, source: string, item: string, target: string, folder: Option<string>)
    requires UniqueIds(ws)
    ensures MovePasses(ws, source, item, folder) <==>
              && (exists s :: 0 <= s < |ws| && ws[s].id == source && Count(ws[s].items, HasId(item)) > 0)
              && (folder == Some(item) ==> item == "")
    ensures !MovePasses(ws, source, item, folder) ==> Move(ws, source, item, target, folder) == ws
  {
    if s :| 0 <= s < |ws| && ws[s].id == source && Count(ws[s].items, HasId(item)) > 0 {
      OnlyIndex(ws, s);
      CountAt(ws, s, HasId(item));
      ExtractSplits(ws[s].items, item);
    }
    if IndexOf(ws, source).Some? {
      var s := IndexOf(ws, source).value;
      if Count(ws[s].items, HasId(item)) == 0 {
        NothingFound(ws[s].items, item);
      }
    }
  }

  function Moved(ws: seq<Collection>, source: string, item: string): Item
    requires IndexOf(ws, source).Some? && Found(ws[IndexOf(ws, source).value].items, item).Some?
  {
    Found(ws[IndexOf(ws, source).value].items, item).value
  }

  function MoveIn(c: Collection, source: string, target: string, folder: Option<string>,
                  remaining: seq<Item>, x: Item): Collection {
    if c.id == source && c.id == target then c.(items := Insert(remaining, folder, x))
    else if c.id == source then c.(items := remaining)
    else if c.id == target then c.(items := Insert(c.items, folder, x))
    else c
  }

  function Move(ws: seq<Collection>, source: string, item: string, target: string, folder: Option<string>)
    : seq<Collection>
  {
    if !MovePasses(ws, source, item, folder) then ws
    else
      var items := ws[IndexOf(ws, source).value].items;
      seq(|ws|, i requires 0 <= i < |ws| =>
        MoveIn(ws[i], source, target, folder, Remaining(items, item), Moved(ws, source, item)))
  }

  /** The target collection exists, and the target folder is none or one of its folders outside the moved subtree. */
  ghost predicate CanLand(ws: seq<Collection>, source: string, item: string, target: string, folder: Option<string>)
    requires MovePasses(ws, source, item, folder)
  {
    && IndexOf(ws, target).Some?
    && (folder.Some? ==>
          && Count(ws[IndexOf(ws, target).value].items, IsFolderNamed(folder.value)) > 0
          && CountOne(Moved(ws, source, item), HasId(folder.value)) == 0)
  }

  /** Every node, without regard to its place, is still there as often as it was before. */
  ghost predicate Conserves(before: seq<Collection>, after: seq<Collection>) {
    forall p :: CountAll(after, p) == CountAll(before, p)
  }

  /** The items the moved subtree is inserted into. */
  function Destination(ws: seq<Collection>, source: string, item: string, t: nat): seq<Item>
    requires t < |ws|
  {
    if ws[t].id == source then Remaining(ws[t].items, item) else ws[t].items
  }

  lemma MoveIsUpdate(ws: seq<Collection>, source: string, item: string, target: string, folder: Option<string>)
    requires UniqueIds(ws) && MovePasses(ws, source, item, folder)
    ensures var s := IndexOf(ws, source).value;
            var x := Moved(ws, source, item);
            var out := ws[s := ws[s].(items := Remaining(ws[s].items, item))];
            Move(ws, source, item, target, folder) ==
              if IndexOf(ws, target).None? then out
              else
                var t := IndexOf(ws, target).value;
                out[t := out[t].(items := Insert(Destination(ws, source, item, t), folder, x))]
  {
    var s := IndexOf(ws, source).value;
    OnlyIndex(ws, s);
    if IndexOf(ws, target).None? {
      NoIndex(ws, target);
    } else {
      OnlyIndex(ws, IndexOf(ws, target).value);
    }
  }

  lemma UniqueInCollection(ws: seq<Collection>, s: nat, item: string)
    requires UniqueIds(ws) && s < |ws| && Found(ws[s].items, item).Some?
    ensures Count(ws[s].items, HasId(item)) == 1
  {
    CountAt(ws, s, HasId(item));
    if Count(ws[s].items, HasId(item)) == 0 {
      NothingFound(ws[s].items, item);
    }
  }

  /** Insertion finds a place in what extraction leaves exactly when the move can land. */
  lemma LandsIffAccepts(ws: seq<Collection>, source: string, item: string, target: string, folder: Option<string>)
    requires UniqueIds(ws) && MovePasses(ws, source, item, folder) && IndexOf(ws, target).Some?
    ensures var d := Destination(ws, source, item, IndexOf(ws, target).value);
            && (CanLand(ws, source, item, target, folder) <==> Accepts(d, folder))
            && (folder.Some? ==> Count(d, IsFolderNamed(folder.value)) <= 1)
  {
    var s, t := IndexOf(ws, source).value, IndexOf(ws, target).value;
    var x := Moved(ws, source, item);
    UniqueInCollection(ws, s, item);
    ExtractSplits(ws[s].items, item);
    OnlyIndex(ws, s);
    if folder.Some? {
      var f := folder.value;
      var d := Destination(ws, source, item, t);
      CountAt(ws, t, HasId(f));
      FoldersAreNodes(ws[t].items, f);
      FoldersAreNodes(d, f);
      CountSingle(x, IsFolderNamed(f));
      CountSingle(x, HasId(f));
      FoldersAreNodes([x], f);
      if s != t {
        CountAtTwo(ws, if s < t then s else t, if s < t then t else s, HasId(f));
      }
    }
  }

  lemma MoveCounts(ws: seq<Collection>, source: string, item: string, target: string, folder: Option<string>, p: Test)
    requires UniqueIds(ws) && MovePasses(ws, source, item, folder)
    ensures CountAll(Move(ws, source, item, target, folder), p) + CountOne(Moved(ws, source, item), p)
            == CountAll(ws, p)
               + if CanLand(ws, source, item, target, folder) then CountOne(Moved(ws, source, item), p) else 0
  {
    var s := IndexOf(ws, source).value;
    var x := Moved(ws, source, item);
    UniqueInCollection(ws, s, item);
    ExtractSplits(ws[s].items, item);
    var rest := Remaining(ws[s].items, item);
    var out := ws[s := ws[s].(items := rest)];
    CountUpdate(ws, s, rest, p);
    MoveIsUpdate(ws, source, item, target, folder);
    OnlyIndex(ws, s);
    if IndexOf(ws, target).Some? {
      var t := IndexOf(ws, target).value;
      var d := Destination(ws, source, item, t);
      LandsIffAccepts(ws, source, item, target, folder);
      InsertCounts(d, folder, x);
      assert out[t].items == d;
      CountUpdate(out, t, Insert(d, folder, x), p);
    }
  }

  /**
   The structure of a move: the subtree `x` is taken out of the `s`-th collection, which is
   otherwise as it was, and put whole at the end of the target's list or of one folder of it;
   every other collection, folder and order is unchanged.
   */
  ghost predicate Relocated(ws: seq<Collection>, after: seq<Collection>, s: nat, x: Item,
                            target: string, folder: Option<string>)
    requires s < |ws|
  {
    exists t, mid :: 0 <= t < |ws| && ws[t].id == target && RelocatedTo(ws, after, s, x, t, folder, mid)
  }

  /** `mid` is what is left of the source's items. */
  ghost predicate RelocatedTo(ws: seq<Collection>, after: seq<Collection>, s: nat, x: Item,
                              t: nat, folder: Option<string>, mid: seq<Item>)
    requires s < |ws| && t < |ws|
  {
    var out := ws[s := ws[s].(items := mid)];
    && RemovedFrom(ws[s].items, mid, x)
    && |after| == |ws|
    && after == out[t := out[t].(items := after[t].items)]
    && Placed(out[t].items, after[t].items, folder, x)
    && InTree(after[t].items, x)
  }

  lemma MoveRelocates(ws: seq<Collection>, source: string, item: string, target: string, folder: Option<string>)
    requires UniqueIds(ws) && MovePasses(ws, source, item, folder) && CanLand(ws, source, item, target, folder)
    ensures RelocatedTo(ws, Move(ws, source, item, target, folder), IndexOf(ws, source).value,
                        Moved(ws, source, item), IndexOf(ws, target).value, folder,
                        Remaining(ws[IndexOf(ws, source).value].items, item))
  {
    var s, t := IndexOf(ws, source).value, IndexOf(ws, target).value;
    var x, d := Moved(ws, source, item), Destination(ws, source, item, t);
    UniqueInCollection(ws, s, item);
    ExtractSplits(ws[s].items, item);
    OnlyIndex(ws, s);
    MoveIsUpdate(ws, source, item, target, folder);
    LandsIffAccepts(ws, source, item, target, folder);
    InsertCounts(d, folder, x);
    InsertPlaces(d, folder, x);
  }

  /**
   A move that passes its guards keeps every node, each in its place but for the moved subtree,
   exactly when it can land; otherwise the subtree is lost.
   */
  lemma MoveConservesIff(ws: seq<Collection>, source: string, item: string, target: string, folder: Option<string>)
    requires UniqueIds(ws) && MovePasses(ws, source, item, folder)
    ensures Conserves(ws, Move(ws, source, item, target, folder)) <==> CanLand(ws, source, item, target, folder)
    ensures Relocated(ws, Move(ws, source, item, target, folder), IndexOf(ws, source).value,
                      Moved(ws, source, item), target, folder)
            <==> CanLand(ws, source, item, target, folder)
  {
    var after := Move(ws, source, item, target, folder);
    var x := Moved(ws, source, item);
    if CanLand(ws, source, item, target, folder) {
      forall p ensures CountAll(after, p) == CountAll(ws, p) {
        MoveCounts(ws, source, item, target, folder, p);
      }
      MoveRelocates(ws, source, item, target, folder);
    } else {
      LostWhenItCannotLand(ws, source, item, target, folder);
    }
  }

  lemma LostWhenItCannotLand(ws: seq<Collection>, source: string, item: string, target: string, folder: Option<string>)
    requires UniqueIds(ws) && MovePasses(ws, source, item, folder) && !CanLand(ws, source, item, target, folder)
    ensures !Conserves(ws, Move(ws, source, item, target, folder))
    ensures !Relocated(ws, Move(ws, source, item, target, folder), IndexOf(ws, source).value,
                       Moved(ws, source, item), target, folder)
  {
    var after := Move(ws, source, item, target, folder);
    var x := Moved(ws, source, item);
    MoveCounts(ws, source, item, target, folder, HasId(x.id));
    CountOneId(x, x.id);
    assert CountAll(after, HasId(x.id)) == 0 && CountAll(ws, HasId(x.id)) > 0;
    assert CountAll(after, HasId(x.id)) != CountAll(ws, HasId(x.id));
    forall t | 0 <= t < |after| ensures !InTree(after[t].items, x) {
      CountAt(after, t, HasId(x.id));
      if InTree(after[t].items, x) {
        InTreeCounted(after[t].items, x, HasId(x.id));
      }
    }
  }

  /**
   Subtrees keep their shape: one that holds neither the moved item nor the target folder is,
   with everything in it, still in its collection, or has gone along inside the moved item.
   */
  lemma MoveKeepsSubtree(ws: seq<Collection>, source: string, item: string, target: string, folder: Option<string>,
                         k: nat, y: Item)
    requires UniqueIds(ws) && MovePasses(ws, source, item, folder) && CanLand(ws, source, item, target, folder)
    requires k < |ws| && InTree(ws[k].items, y) && CountOne(y, HasId(Moved(ws, source, item).id)) == 0
    requires folder.Some? ==> CountOne(y, IsFolderNamed(folder.value)) == 0
    ensures var after := Move(ws, source, item, target, folder);
            && |after| == |ws|
            && (InTree(after[k].items, y)
                || (InTree(Children(Moved(ws, source, item)), y)
                    && InTree(after[IndexOf(ws, target).value].items, y)))
  {
    var after := Move(ws, source, item, target, folder);
    var s, t := IndexOf(ws, source).value, IndexOf(ws, target).value;
    var x, mid := Moved(ws, source, item), Remaining(ws[s].items, item);
    MoveRelocates(ws, source, item, target, folder);
    var out := ws[s := ws[s].(items := mid)];
    if k == s {
      RemovalKeepsSubtree(ws[s].items, mid, x, y);
    }
    if InTree(out[k].items, y) {
      if k == t {
        PlacingKeepsSubtree(out[t].items, after[t].items, folder, x, y);
      }
    } else {
      InTreeTransitive(after[t].items, x, y);
    }
  }

  /** After a move that lands, every request of the moved subtree is found, unchanged, in the target collection. */
  lemma MovedIsFound(ws: seq<Collection>, source: string, item: string, target: string, folder: Option<string>, y: Item)
    requires UniqueIds(ws) && MovePasses(ws, source, item, folder) && CanLand(ws, source, item, target, folder)
    requires y.Request? && (y == Moved(ws, source, item) || InTree(Children(Moved(ws, source, item)), y))
    ensures FindAnywhere(Move(ws, source, item, target, folder), y.id) == Some((y, target))
  {
    var x := Moved(ws, source, item);
    var after := Move(ws, source, item, target, folder);
    var t := IndexOf(ws, target).value;
    var d := Destination(ws, source, item, t);
    MoveIsUpdate(ws, source, item, target, folder);
    LandsIffAccepts(ws, source, item, target, folder);
    InsertCounts(d, folder, x);
    MoveCounts(ws, source, item, target, folder, HasId(y.id));
    if y != x {
      InTreeTransitive(after[t].items, x, y);
    }
    FindUniqueAnywhere(after, t, y);
  }

  /** A folder dropped into its own child is gone, with everything in it. */
  lemma DropIntoOwnChildLoses(c: Collection, f: Item, g: Item)
    requires f.Folder? && g.Folder? && c.items == [f] && f.items == [g] && g.items == []
    requires f.id != g.id && g.id != ""
    ensures MovePasses([c], c.id, f.id, Some(g.id))
    ensures Move([c], c.id, f.id, c.id, Some(g.id)) == [c.(items := [])]
  {
    assert [f][1..] == [];
    assert Count([], HasId(f.id)) == 0;
    NotInsideAnother([f], f.id);
    assert Remaining([f], f.id) == [] + Remaining([], f.id) == [];
    assert IndexOf([c], c.id) == Some(0);
    assert InsertInto([], g.id, f) == [];
  }
}
