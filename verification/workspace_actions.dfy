/** The actions of the workspace store, and what every run of them keeps. */
module WorkspaceActions {
  import opened Prelude
  import opened Frontend
  import opened ItemTree
  import opened Workspace

  datatype Action =
    | AddCollection(title: string)
    | DeleteCollection(col: string)
    | DuplicateCollection(col: string)
    | DeleteItem(col: string, item: string)
    | DuplicateItem(col: string, item: string)
    | AddRequest(col: string, parent: Option<string>)
    | AddFolder(col: string, parent: Option<string>)
    | MoveItem(source: string, item: string, target: string, folder: Option<string>)

  /** The collections, and how many ids have been handed out. */
  datatype State = State(collections: seq<Collection>, minted: nat)

  const EMPTY_SCRIPTS := Scripts("", "")

  function NewCollection(id: string, title: string): Collection {
    Collection(id, title, "", PlainAuth("none"), [], EMPTY_SCRIPTS, [])
  }

  function NewRequest(id: string): Item {
    Request(id, "New Request", "GET", "", [], [], Body("none", "", "application/json", [], [], "", ""), PlainAuth("inherit"), EMPTY_SCRIPTS)
  }

  function NewFolder(id: string): Item {
    Folder(id, "New Folder", PlainAuth("inherit"), EMPTY_SCRIPTS, [])
  }

  // ---------- what each action does ----------

  function DropCollections(ws: seq<Collection>, id: string): seq<Collection> {
    if ws == [] then []
    else (if ws[0].id == id then [] else [ws[0]]) + DropCollections(ws[1..], id)
  }

  /** The copy of a collection: a new id, then new ids for its items. */
  function CollectionCopy(c: Collection, ids: Ids, n: nat): Collection {
    c.(id := ids(n), name := c.name + " Copy", items := Clone(c.items, ids, n + 1))
  }

  /** Every collection with the id gets its items edited. */
  function EditItems(ws: seq<Collection>, col: string, edit: seq<Item> -> seq<Item>): seq<Collection> {
    seq(|ws|, i requires 0 <= i < |ws| =>
      if ws[i].id == col then ws[i].(items := edit(ws[i].items)) else ws[i])
  }

  function DuplicateIn(ws: seq<Collection>, col: string, item: string, ids: Ids, n: nat): (seq<Collection>, nat) {
    if ws == [] then ([], n)
    else if ws[0].id == col then
      var inner := Duplicate(ws[0].items, item, ids, n);
      var rest := DuplicateIn(ws[1..], col, item, ids, inner.1);
      ([ws[0].(items := inner.0)] + rest.0, rest.1)
    else
      var rest := DuplicateIn(ws[1..], col, item, ids, n);
      ([ws[0]] + rest.0, rest.1)
  }

  function Apply(st: State, a: Action, ids: Ids): State {
    var ws, n := st.collections, st.minted;
    match a
    case AddCollection(title) => State(ws + [NewCollection(ids(n), title)], n + 1)
    case DeleteCollection(col) => State(DropCollections(ws, col), n)
    case DuplicateCollection(col) =>
      if IndexOf(ws, col).None? then st
      else
        var i := IndexOf(ws, col).value;
        State(ws[..i + 1] + [CollectionCopy(ws[i], ids, n)] + ws[i + 1..], n + 1 + Size(ws[i].items))
    case DeleteItem(col, item) => State(EditItems(ws, col, items => Delete(items, item)), n)
    case DuplicateItem(col, item) =>
      var done := DuplicateIn(ws, col, item, ids, n);
      State(done.0, done.1)
    case AddRequest(col, parent) =>
      State(EditItems(ws, col, items => Insert(items, parent, NewRequest(ids(n)))), n + 1)
    case AddFolder(col, parent) =>
      State(EditItems(ws, col, items => Insert(items, parent, NewFolder(ids(n)))), n + 1)
    case MoveItem(source, item, target, folder) => State(Move(ws, source, item, target, folder), n)
  }

  function ApplyAll(st: State, actions: seq<Action>, ids: Ids): State
    decreases |actions|
  {
    if actions == [] then st else ApplyAll(Apply(st, actions[0], ids), actions[1..], ids)
  }

  // ---------- the store ----------

  /** The store as the program has it: a field that every action replaces. */
  class Store {
    var collections: seq<Collection>
    var minted: nat
    const ids: Ids

    constructor (collections: seq<Collection>, ids: Ids)
      ensures this.collections == collections && minted == 0 && this.ids == ids
    {
      this.collections, minted, this.ids := collections, 0, ids;
    }

    function Current(): State
      reads this
    {
      State(collections, minted)
    }

    method AddCollection(title: string) returns (col: Collection)
      modifies this
      ensures Current() == Apply(old(Current()), Action.AddCollection(title), ids)
      ensures col == collections[|collections| - 1]
    {
      col := NewCollection(ids(minted), title);
      minted := minted + 1;
      collections := collections + [col];
    }

    method DeleteCollection(id: string)
      modifies this`collections
      ensures Current() == Apply(old(Current()), Action.DeleteCollection(id), ids)
    {
      collections := DropCollections(collections, id);
    }

    method DeleteItem(col: string, item: string)
      modifies this`collections
      ensures Current() == Apply(old(Current()), Action.DeleteItem(col, item), ids)
    {
      collections := EditItems(collections, col, items => Delete(items, item));
    }

    method AddRequest(col: string, parent: Option<string>) returns (req: Item)
      modifies this
      ensures Current() == Apply(old(Current()), Action.AddRequest(col, parent), ids)
      ensures req == NewRequest(ids(old(minted)))
      ensures Good(old(Current()), ids) ==>
                forall i :: 0 <= i < |old(collections)| && old(collections)[i].id == col ==>
                  AddedTo(old(collections), collections, i, parent, req)
    {
      ghost var st := Current();
      req := NewRequest(ids(minted));
      minted := minted + 1;
      collections := EditItems(collections, col, items => Insert(items, parent, req));
      if Good(st, ids) {
        forall i | 0 <= i < |st.collections| && st.collections[i].id == col
          ensures AddedTo(st.collections, collections, i, parent, req)
        {
          AddsItem(st, i, parent, ids, req);
          assert collections == EditItems(st.collections, col, items => Insert(items, parent, req));
        }
      }
    }

    method AddFolder(col: string, parent: Option<string>) returns (folder: Item)
      modifies this
      ensures Current() == Apply(old(Current()), Action.AddFolder(col, parent), ids)
      ensures folder == NewFolder(ids(old(minted)))
      ensures Good(old(Current()), ids) ==>
                forall i :: 0 <= i < |old(collections)| && old(collections)[i].id == col ==>
                  AddedTo(old(collections), collections, i, parent, folder)
    {
      ghost var st := Current();
      folder := NewFolder(ids(minted));
      minted := minted + 1;
      collections := EditItems(collections, col, items => Insert(items, parent, folder));
      if Good(st, ids) {
        forall i | 0 <= i < |st.collections| && st.collections[i].id == col
          ensures AddedTo(st.collections, collections, i, parent, folder)
        {
          AddsItem(st, i, parent, ids, folder);
          assert collections == EditItems(st.collections, col, items => Insert(items, parent, folder));
        }
      }
    }

    method DuplicateCollection(id: string)
      modifies this
      ensures Current() == Apply(old(Current()), Action.DuplicateCollection(id), ids)
    {
      var found := IndexOf(collections, id);
      if found.None? {
        return;
      }
      var col := collections[found.value];
      var copy := CollectionCopy(col, ids, minted);
      minted := minted + 1 + Size(col.items);
      collections := collections[..found.value + 1] + [copy] + collections[found.value + 1..];
    }

    method DuplicateItem(col: string, item: string)
      modifies this
      ensures Current() == Apply(old(Current()), Action.DuplicateItem(col, item), ids)
    {
      var ws, next: seq<Collection>, i := collections, [], 0;
      assert ws[0..] == ws;
      assert [] + DuplicateIn(ws, col, item, ids, minted).0 == DuplicateIn(ws, col, item, ids, minted).0;
      while i < |ws|
        invariant i <= |ws| == |collections| && ws == collections == old(collections)
        invariant var rest := DuplicateIn(ws[i..], col, item, ids, minted);
                  (next + rest.0, rest.1) == DuplicateIn(ws, col, item, ids, old(minted))
      {
        assert ws[i..][0] == ws[i] && ws[i..][1..] == ws[i + 1..];
        ghost var before := next;
        if ws[i].id == col {
          var items;
          items, minted := DuplicateInList(ws[i].items, item, ids, minted);
          next := next + [ws[i].(items := items)];
        } else {
          next := next + [ws[i]];
        }
        Associative(before, [next[|before|]], DuplicateIn(ws[i + 1..], col, item, ids, minted).0);
        i := i + 1;
      }
      assert next + [] == next;
      collections := next;
    }

    method MoveItem(source: string, item: string, target: string, folder: Option<string>)
      modifies this
      ensures Current() == Apply(old(Current()), Action.MoveItem(source, item, target, folder), ids)
    {
      var src := IndexOf(collections, source);
      if src.None? || (folder.Some? && folder.value != "" && folder.value == item) {
        return;
      }
      var found, remaining := ExtractFromList(collections[src.value].items, item);
      if found.None? {
        return;
      }
      collections := seq(|collections|, i requires 0 <= i < |collections| reads this =>
        MoveIn(collections[i], source, target, folder, remaining, found.value));
    }
  }

  // ---------- one action ----------

  /** No id still to be handed out is in use. */
  ghost predicate Fresh(st: State, ids: Ids) {
    forall i {:trigger ids(i)} :: st.minted <= i ==>
      CountAll(st.collections, HasId(ids(i))) == 0 && CountCollections(st.collections, ids(i)) == 0
  }

  ghost predicate NeverRepeats(ids: Ids) {
    forall i: nat, j: nat :: i < j ==> ids(i) != ids(j)
  }

  ghost predicate Good(st: State, ids: Ids) {
    UniqueIds(st.collections) && Fresh(st, ids) && NeverRepeats(ids)
  }

  /** No id gains more than one use, and only a newly handed out id gains one. */
  ghost predicate Bounded(before: State, after: State, ids: Ids) {
    && before.minted <= after.minted
    && forall id {:trigger HasId(id)} ::
         var gain := if Among(ids, before.minted, after.minted - before.minted, id) then 1 else 0;
         && CountAll(after.collections, HasId(id)) <= CountAll(before.collections, HasId(id)) + gain
         && CountCollections(after.collections, id) <= CountCollections(before.collections, id) + gain
  }

  lemma BoundedKeeps(before: State, after: State, ids: Ids)
    requires Good(before, ids) && Bounded(before, after, ids)
    ensures Good(after, ids)
  {
    var n, k := before.minted, after.minted - before.minted;
    forall id
      ensures CountAll(after.collections, HasId(id)) <= 1 && CountCollections(after.collections, id) <= 1
    {
      assert HasId(id) == HasId(id);
      if Among(ids, n, k, id) {
        var i: nat :| n <= i < n + k && ids(i) == id;
        assert CountAll(before.collections, HasId(ids(i))) == 0;
      }
    }
    forall i: nat | after.minted <= i
      ensures CountAll(after.collections, HasId(ids(i))) == 0 && CountCollections(after.collections, ids(i)) == 0
    {
      assert HasId(ids(i)) == HasId(ids(i));
      assert !Among(ids, n, k, ids(i));
    }
  }

  /** The i-th collection has its items replaced; the counts follow those of its items. */
  lemma EditBounded(st: State, i: nat, items: seq<Item>, m: nat, ids: Ids)
    requires i < |st.collections| && st.minted <= m
    requires forall id {:trigger HasId(id)} ::
               Count(items, HasId(id)) <= Count(st.collections[i].items, HasId(id))
                                          + if Among(ids, st.minted, m - st.minted, id) then 1 else 0
    ensures Bounded(st, State(st.collections[i := st.collections[i].(items := items)], m), ids)
  {
    var ws := st.collections;
    var after := ws[i := ws[i].(items := items)];
    forall id
      ensures var gain := if Among(ids, st.minted, m - st.minted, id) then 1 else 0;
              && CountAll(after, HasId(id)) <= CountAll(ws, HasId(id)) + gain
              && CountCollections(after, id) <= CountCollections(ws, id) + gain
    {
      CountUpdate(ws, i, items, HasId(id));
      CollectionsUpdate(ws, i, items, id);
    }
  }

  /** An edit changes the one collection with the id, if there is one. */
  lemma EditsOne(ws: seq<Collection>, col: string, edit: seq<Item> -> seq<Item>)
    requires UniqueIds(ws)
    ensures EditItems(ws, col, edit) ==
              match IndexOf(ws, col)
              case None => ws
              case Some(i) => ws[i := ws[i].(items := edit(ws[i].items))]
  {
    if IndexOf(ws, col).Some? {
      OnlyIndex(ws, IndexOf(ws, col).value);
    } else {
      NoIndex(ws, col);
    }
  }

  lemma {:induction false} DuplicatesNowhere(ws: seq<Collection>, col: string, item: string, ids: Ids, n: nat)
    requires CountCollections(ws, col) == 0
    ensures DuplicateIn(ws, col, item, ids, n) == (ws, n)
  {
    if ws != [] {
      DuplicatesNowhere(ws[1..], col, item, ids, n);
      assert ws == [ws[0]] + ws[1..];
    }
  }

  lemma {:induction false} DuplicatesOne(ws: seq<Collection>, i: nat, item: string, ids: Ids, n: nat)
    requires i < |ws| && CountCollections(ws, ws[i].id) <= 1
    ensures var done := Duplicate(ws[i].items, item, ids, n);
            DuplicateIn(ws, ws[i].id, item, ids, n) == (ws[i := ws[i].(items := done.0)], done.1)
    decreases i
  {
    OnlyIndex(ws, i);
    if i == 0 {
      DuplicatesNowhere(ws[1..], ws[0].id, item, ids, Duplicate(ws[0].items, item, ids, n).1);
      var items := Duplicate(ws[0].items, item, ids, n).0;
      assert ws[0 := ws[0].(items := items)] == [ws[0].(items := items)] + ws[1..];
    } else {
      assert ws[1..][i - 1] == ws[i];
      CountedCollection(ws[1..], i - 1);
      DuplicatesOne(ws[1..], i - 1, item, ids, n);
      var items := Duplicate(ws[i].items, item, ids, n).0;
      assert ws[i := ws[i].(items := items)] == [ws[0]] + ws[1..][i - 1 := ws[i].(items := items)];
    }
  }

  lemma {:induction false} DropOnlyRemoves(ws: seq<Collection>, col: string, p: Test, id: string)
    ensures CountAll(DropCollections(ws, col), p) <= CountAll(ws, p)
    ensures CountCollections(DropCollections(ws, col), id) <= CountCollections(ws, id)
  {
    if ws != [] {
      DropOnlyRemoves(ws[1..], col, p, id);
      CountAllConcat(if ws[0].id == col then [] else [ws[0]], DropCollections(ws[1..], col), p, id);
      CountAllSingle(ws[0], p, id);
    }
  }

  lemma {:induction false} CountAllConcat(a: seq<Collection>, b: seq<Collection>, p: Test, id: string)
    ensures CountAll(a + b, p) == CountAll(a, p) + CountAll(b, p)
    ensures CountCollections(a + b, id) == CountCollections(a, id) + CountCollections(b, id)
  {
    if a == [] {
      assert a + b == b;
    } else {
      CountAllConcat(a[1..], b, p, id);
      assert (a + b)[1..] == a[1..] + b;
    }
  }

  lemma CountAllSingle(c: Collection, p: Test, id: string)
    ensures CountAll([c], p) == Count(c.items, p)
    ensures CountCollections([c], id) == if c.id == id then 1 else 0
  {
    assert [c][1..] == [];
  }

  /** Adding a collection with fresh ids. */
  lemma NewCollectionCounts(ws: seq<Collection>, i: nat, c: Collection, p: Test, id: string)
    requires i <= |ws|
    ensures CountAll(ws[..i] + [c] + ws[i..], p) == CountAll(ws, p) + Count(c.items, p)
    ensures CountCollections(ws[..i] + [c] + ws[i..], id) == CountCollections(ws, id) + if c.id == id then 1 else 0
  {
    CountAllConcat(ws[..i] + [c], ws[i..], p, id);
    CountAllConcat(ws[..i], [c], p, id);
    CountAllConcat(ws[..i], ws[i..], p, id);
    CountAllSingle(c, p, id);
    assert ws == ws[..i] + ws[i..];
  }

  lemma NewCollectionBounded(st: State, ids: Ids, i: nat, c: Collection, k: nat)
    requires i <= |st.collections| && c.id == ids(st.minted) && NeverRepeats(ids)
    requires forall id {:trigger HasId(id)} ::
               Count(c.items, HasId(id)) <= if Among(ids, st.minted + 1, k, id) then 1 else 0
    ensures Bounded(st, State(st.collections[..i] + [c] + st.collections[i..], st.minted + 1 + k), ids)
  {
    var ws, n := st.collections, st.minted;
    var after := ws[..i] + [c] + ws[i..];
    forall id
      ensures var gain := if Among(ids, n, 1 + k, id) then 1 else 0;
              && CountAll(after, HasId(id)) <= CountAll(ws, HasId(id)) + gain
              && CountCollections(after, id) <= CountCollections(ws, id) + gain
    {
      NewCollectionCounts(ws, i, c, HasId(id), id);
      AmongSplit(ids, n, 1, k, id);
      if c.id == id {
        assert Among(ids, n, 1, id);
      }
    }
  }

  lemma InsertBounded(st: State, col: string, parent: Option<string>, x: Item, ids: Ids)
    requires UniqueIds(st.collections) && x.id == ids(st.minted) && Children(x) == []
    ensures Bounded(st, State(EditItems(st.collections, col, items => Insert(items, parent, x)), st.minted + 1), ids)
  {
    var ws := st.collections;
    EditsOne(ws, col, items => Insert(items, parent, x));
    if IndexOf(ws, col).Some? {
      var i := IndexOf(ws, col).value;
      if parent.Some? {
        CountAt(ws, i, HasId(parent.value));
        FoldersAreNodes(ws[i].items, parent.value);
      }
      InsertCounts(ws[i].items, parent, x);
      forall id
        ensures Count(Insert(ws[i].items, parent, x), HasId(id))
                <= Count(ws[i].items, HasId(id)) + if Among(ids, st.minted, 1, id) then 1 else 0
      {
        CountOneId(x, id);
        if x.id == id {
          assert Among(ids, st.minted, 1, id);
        }
      }
      EditBounded(st, i, Insert(ws[i].items, parent, x), st.minted + 1, ids);
    }
  }

  lemma DeleteBounded(st: State, col: string, item: string, ids: Ids)
    requires UniqueIds(st.collections)
    ensures Bounded(st, Apply(st, DeleteItem(col, item), ids), ids)
  {
    var ws := st.collections;
    EditsOne(ws, col, items => Delete(items, item));
    if IndexOf(ws, col).Some? {
      var i := IndexOf(ws, col).value;
      CountAt(ws, i, HasId(item));
      if Count(ws[i].items, HasId(item)) == 0 {
        NothingFound(ws[i].items, item);
      } else {
        ExtractSplits(ws[i].items, item);
      }
      EditBounded(st, i, Delete(ws[i].items, item), st.minted, ids);
    }
  }

  lemma DuplicateBounded(st: State, col: string, item: string, ids: Ids)
    requires UniqueIds(st.collections) && NeverRepeats(ids)
    ensures Bounded(st, Apply(st, DuplicateItem(col, item), ids), ids)
  {
    var ws, n := st.collections, st.minted;
    if IndexOf(ws, col).None? {
      DuplicatesNowhere(ws, col, item, ids, n);
    } else {
      var i := IndexOf(ws, col).value;
      var (items, m) := Duplicate(ws[i].items, item, ids, n);
      DuplicatesOne(ws, i, item, ids, n);
      CountAt(ws, i, HasId(item));
      if Count(ws[i].items, HasId(item)) == 0 {
        DuplicateNothing(ws[i].items, item, ids, n);
      } else {
        DuplicateOnce(ws[i].items, item, ids, n);
        var x := Found(ws[i].items, item).value;
        forall id
          ensures Count(items, HasId(id)) <= Count(ws[i].items, HasId(id)) + if Among(ids, n, m - n, id) then 1 else 0
        {
          CopyIds(x, ids, n, id);
        }
      }
      EditBounded(st, i, items, m, ids);
    }
  }

  lemma MoveBounded(st: State, source: string, item: string, target: string, folder: Option<string>, ids: Ids)
    requires UniqueIds(st.collections)
    ensures Bounded(st, Apply(st, MoveItem(source, item, target, folder), ids), ids)
  {
    var ws := st.collections;
    if MovePasses(ws, source, item, folder) {
      MoveIsUpdate(ws, source, item, target, folder);
      forall id
        ensures CountAll(Move(ws, source, item, target, folder), HasId(id)) <= CountAll(ws, HasId(id))
        ensures CountCollections(Move(ws, source, item, target, folder), id) == CountCollections(ws, id)
      {
        MoveCounts(ws, source, item, target, folder, HasId(id));
        var s := IndexOf(ws, source).value;
        var out := ws[s := ws[s].(items := Remaining(ws[s].items, item))];
        CollectionsUpdate(ws, s, Remaining(ws[s].items, item), id);
        if IndexOf(ws, target).Some? {
          var t := IndexOf(ws, target).value;
          CollectionsUpdate(out, t, Insert(Destination(ws, source, item, t), folder, Moved(ws, source, item)), id);
        }
      }
    }
  }

  lemma DuplicateCollectionBounded(st: State, col: string, ids: Ids)
    requires NeverRepeats(ids)
    ensures Bounded(st, Apply(st, DuplicateCollection(col), ids), ids)
  {
    var ws, n := st.collections, st.minted;
    if IndexOf(ws, col).Some? {
      var i := IndexOf(ws, col).value;
      var copy := CollectionCopy(ws[i], ids, n);
      forall id
        ensures Count(copy.items, HasId(id)) <= if Among(ids, n + 1, Size(ws[i].items), id) then 1 else 0
      {
        CloneIds(ws[i].items, ids, n + 1, id);
      }
      NewCollectionBounded(st, ids, i + 1, copy, Size(ws[i].items));
    }
  }

  lemma ApplyBounded(st: State, a: Action, ids: Ids)
    requires UniqueIds(st.collections) && NeverRepeats(ids)
    ensures Bounded(st, Apply(st, a, ids), ids)
  {
    match a
    case AddCollection(title) =>
      var ws, c := st.collections, NewCollection(ids(st.minted), title);
      NewCollectionBounded(st, ids, |ws|, c, 0);
      assert ws[..|ws|] + [c] + ws[|ws|..] == ws + [c];
    case DeleteCollection(col) =>
      forall id
        ensures CountAll(DropCollections(st.collections, col), HasId(id)) <= CountAll(st.collections, HasId(id))
        ensures CountCollections(DropCollections(st.collections, col), id) <= CountCollections(st.collections, id)
      {
        DropOnlyRemoves(st.collections, col, HasId(id), id);
      }
    case DuplicateCollection(col) => DuplicateCollectionBounded(st, col, ids);
    case DeleteItem(col, item) => DeleteBounded(st, col, item, ids);
    case DuplicateItem(col, item) => DuplicateBounded(st, col, item, ids);
    case AddRequest(col, parent) => InsertBounded(st, col, parent, NewRequest(ids(st.minted)), ids);
    case AddFolder(col, parent) => InsertBounded(st, col, parent, NewFolder(ids(st.minted)), ids);
    case MoveItem(source, item, target, folder) => MoveBounded(st, source, item, target, folder, ids);
  }

  // ---------- runs ----------

  /** Over every run of actions no id is ever used twice, given ids that are fresh when handed out. */
  lemma {:induction false} IdsStayUnique(st: State, actions: seq<Action>, ids: Ids)
    requires Good(st, ids)
    ensures Good(ApplyAll(st, actions, ids), ids)
    decreases |actions|
  {
    if actions != [] {
      ApplyBounded(st, actions[0], ids);
      BoundedKeeps(st, Apply(st, actions[0], ids), ids);
      IdsStayUnique(Apply(st, actions[0], ids), actions[1..], ids);
    }
  }

  /** In every reachable state, a duplicate is its original up to ids and the root's name, right behind it. */
  lemma DuplicateSitsBehind(st: State, i: nat, item: string, ids: Ids)
    requires Good(st, ids) && i < |st.collections| && Found(st.collections[i].items, item).Some?
    ensures var ws := st.collections;
            var after := Apply(st, DuplicateItem(ws[i].id, item), ids);
            var x := Found(ws[i].items, item).value;
            && InTree(ws[i].items, x) && x.id == item
            && |after.collections| == |ws|
            && after.collections == ws[i := ws[i].(items := after.collections[i].items)]
            && InsertedAfter(ws[i].items, after.collections[i].items, item, CopyOf(x, ids, st.minted))
            && StripId(CopyOf(x, ids, st.minted)) == StripId(x).(name := x.name + " Copy")
  {
    var ws := st.collections;
    OnlyIndex(ws, i);
    DuplicatesOne(ws, i, item, ids, st.minted);
    UniqueInCollection(ws, i, item);
    ExtractSplits(ws[i].items, item);
    DuplicateOnce(ws[i].items, item, ids, st.minted);
    CopyIsomorphic(Found(ws[i].items, item).value, ids, st.minted);
  }

  lemma CollectionCopyIsomorphic(st: State, i: nat, ids: Ids)
    requires Good(st, ids) && i < |st.collections|
    ensures var ws := st.collections;
            var after := Apply(st, DuplicateCollection(ws[i].id), ids).collections;
            && |after| == |ws| + 1 && after[..i + 1] == ws[..i + 1] && after[i + 2..] == ws[i + 1..]
            && after[i + 1].id == ids(st.minted) && StripIds(after[i + 1].items) == StripIds(ws[i].items)
            && after[i + 1] == ws[i].(id := ids(st.minted), name := ws[i].name + " Copy", items := after[i + 1].items)
  {
    OnlyIndex(st.collections, i);
    CloneIsomorphic(st.collections[i].items, ids, st.minted + 1);
  }

  /** A new collection is the last one, empty, under a new id and the title given; the others stay as they are. */
  lemma NewCollectionIsLast(st: State, title: string, ids: Ids)
    ensures var after := Apply(st, AddCollection(title), ids).collections;
            var n := |st.collections|;
            && |after| == n + 1 && after[..n] == st.collections
            && after[n].id == ids(st.minted) && after[n].name == title && after[n].items == [] && after[n].variables == []
            && after[n].auth == PlainAuth("none") && after[n].scripts == Scripts("", "")
  {
  }

  /** What aims at a collection that is not there, or at an item that is not in it, changes nothing. */
  lemma MissingChangesNothing(st: State, col: string, item: string, parent: Option<string>, ids: Ids)
    requires Good(st, ids)
    requires forall i :: 0 <= i < |st.collections| ==>
               st.collections[i].id != col || Count(st.collections[i].items, HasId(item)) == 0
    ensures Apply(st, DeleteItem(col, item), ids) == st
    ensures Apply(st, DuplicateItem(col, item), ids) == st
    ensures (forall i :: 0 <= i < |st.collections| ==> st.collections[i].id != col) ==>
              && Apply(st, DeleteCollection(col), ids) == Apply(st, DuplicateCollection(col), ids) == st
              && Apply(st, AddRequest(col, parent), ids).collections == st.collections
              && Apply(st, AddFolder(col, parent), ids).collections == st.collections
  {
    var ws := st.collections;
    EditsOne(ws, col, items => Delete(items, item));
    if IndexOf(ws, col).None? {
      DuplicatesNowhere(ws, col, item, ids, st.minted);
      NoIndex(ws, col);
      DropsNothing(ws, col);
    } else {
      var i := IndexOf(ws, col).value;
      NothingFound(ws[i].items, item);
      DuplicatesOne(ws, i, item, ids, st.minted);
      DuplicateNothing(ws[i].items, item, ids, st.minted);
      assert ws[i := ws[i].(items := ws[i].items)] == ws;
    }
  }

  lemma {:induction false} DropsNothing(ws: seq<Collection>, col: string)
    requires forall i :: 0 <= i < |ws| ==> ws[i].id != col
    ensures DropCollections(ws, col) == ws
  {
    if ws != [] {
      DropsNothing(ws[1..], col);
    }
  }

  /** Those that stay keep their order. */
  lemma DroppedInOrder(st: State, col: string, ids: Ids) returns (at: seq<nat>)
    ensures Picks(st.collections, Apply(st, DeleteCollection(col), ids).collections, at)
    ensures forall i: nat :: i < |st.collections| ==> (i in at <==> st.collections[i].id != col)
  {
    var other := (c: Collection) => c.id != col;
    at := FilterExactly(st.collections, other);
    DropIsFilter(st.collections, col, other);
  }

  lemma {:induction false} DropIsFilter(ws: seq<Collection>, col: string, other: Collection -> bool)
    requires forall c :: other(c) <==> c.id != col
    ensures DropCollections(ws, col) == Filter(ws, other)
  {
    if ws != [] {
      DropIsFilter(ws[1..], col, other);
    }
  }

  /** Deleting a collection removes it, whole, and keeps every other one. */
  lemma DroppedExactly(st: State, col: string, c: Collection, ids: Ids)
    ensures multiset(Apply(st, DeleteCollection(col), ids).collections)[c]
            == if c.id == col then 0 else multiset(st.collections)[c]
  {
    DropsEach(st.collections, col, c);
  }

  lemma {:induction false} DropsEach(ws: seq<Collection>, col: string, c: Collection)
    ensures multiset(DropCollections(ws, col))[c] == if c.id == col then 0 else multiset(ws)[c]
  {
    if ws != [] {
      var x, rest := ws[0], ws[1..];
      DropsEach(rest, col, c);
      assert ws == [x] + rest;
      assert multiset(ws)[c] == (if x == c then 1 else 0) + multiset(rest)[c];
      if x.id == col {
        assert DropCollections(ws, col) == DropCollections(rest, col);
      } else {
        var dropped := DropCollections(rest, col);
        assert multiset([x] + dropped)[c] == (if x == c then 1 else 0) + multiset(dropped)[c];
      }
    }
  }

  /** The move action keeps every node, each in its place but for the moved subtree, exactly when it can land. */
  lemma MoveItemConservesIff(st: State, source: string, item: string, target: string, folder: Option<string>, ids: Ids)
    requires Good(st, ids)
    ensures var ws, after := st.collections, Apply(st, MoveItem(source, item, target, folder), ids).collections;
            if MovePasses(ws, source, item, folder) then
              Conserves(ws, after) && Relocated(ws, after, IndexOf(ws, source).value, Moved(ws, source, item), target, folder)
              <==> CanLand(ws, source, item, target, folder)
            else after == ws
  {
    if MovePasses(st.collections, source, item, folder) {
      MoveConservesIff(st.collections, source, item, target, folder);
    }
  }

  /** What adding `x` under `parent` to the i-th collection does to the workspace. */
  ghost predicate AddedTo(ws: seq<Collection>, after: seq<Collection>, i: nat, parent: Option<string>, x: Item)
    requires i < |ws|
  {
    if Accepts(ws[i].items, parent) then
      && |after| == |ws| && after == ws[i := ws[i].(items := after[i].items)]
      && Placed(ws[i].items, after[i].items, parent, x)
      && InTree(after[i].items, x)
      && forall p :: CountAll(after, p) == CountAll(ws, p) + CountOne(x, p)
    else after == ws
  }

  lemma AddsItem(st: State, i: nat, parent: Option<string>, ids: Ids, x: Item)
    requires Good(st, ids) && i < |st.collections|
    ensures var edit := (items: seq<Item>) => Insert(items, parent, x);
            AddedTo(st.collections, EditItems(st.collections, st.collections[i].id, edit), i, parent, x)
  {
    var ws := st.collections;
    var edit := (items: seq<Item>) => Insert(items, parent, x);
    OnlyIndex(ws, i);
    EditsOne(ws, ws[i].id, edit);
    var after := EditItems(ws, ws[i].id, edit);
    if parent.Some? {
      CountAt(ws, i, HasId(parent.value));
      FoldersAreNodes(ws[i].items, parent.value);
    }
    InsertCounts(ws[i].items, parent, x);
    if Accepts(ws[i].items, parent) {
      InsertPlaces(ws[i].items, parent, x);
      forall p ensures CountAll(after, p) == CountAll(ws, p) + CountOne(x, p) {
        CountUpdate(ws, i, Insert(ws[i].items, parent, x), p);
      }
    } else {
      InsertNowhere(ws[i].items, parent.value, x);
    }
  }

  /**
   A new request is found, as created, in the collection it was added to exactly when its parent
   is there; it is then the last of its list. Otherwise it is lost and nothing changes.
   */
  lemma AddedRequestIsFoundIff(st: State, i: nat, parent: Option<string>, ids: Ids)
    requires Good(st, ids) && i < |st.collections|
    ensures var after := Apply(st, AddRequest(st.collections[i].id, parent), ids).collections;
            var req := NewRequest(ids(st.minted));
            && AddedTo(st.collections, after, i, parent, req)
            && FindAnywhere(after, req.id)
               == if Accepts(st.collections[i].items, parent) then Some((req, st.collections[i].id)) else None
  {
    var ws, req := st.collections, NewRequest(ids(st.minted));
    var after := Apply(st, AddRequest(ws[i].id, parent), ids).collections;
    AddsItem(st, i, parent, ids, req);
    assert after == EditItems(ws, ws[i].id, items => Insert(items, parent, req));
    assert CountAll(ws, HasId(ids(st.minted))) == 0;
    if Accepts(ws[i].items, parent) {
      CountOneId(req, req.id);
      FindUniqueAnywhere(after, i, req);
    } else {
      FindNothingAnywhere(after, req.id);
    }
  }

  /**
   A new folder is there, empty and last of its list, exactly when its parent is; it then takes new
   requests itself, put behind its other items. Otherwise it is lost and nothing changes.
   */
  lemma AddedFolderIsThereIff(st: State, i: nat, parent: Option<string>, ids: Ids)
    requires Good(st, ids) && i < |st.collections|
    ensures var after := Apply(st, AddFolder(st.collections[i].id, parent), ids);
            var folder := NewFolder(ids(st.minted));
            && AddedTo(st.collections, after.collections, i, parent, folder)
            && |after.collections| == |st.collections|
            && (InTree(after.collections[i].items, folder) <==> Accepts(st.collections[i].items, parent))
            && (Accepts(after.collections[i].items, Some(folder.id)) <==> Accepts(st.collections[i].items, parent))
  {
    var ws, folder := st.collections, NewFolder(ids(st.minted));
    var after := Apply(st, AddFolder(ws[i].id, parent), ids).collections;
    AddsItem(st, i, parent, ids, folder);
    assert after == EditItems(ws, ws[i].id, items => Insert(items, parent, folder));
    assert CountAll(ws, HasId(ids(st.minted))) == 0;
    CountAt(ws, i, HasId(folder.id));
    if Accepts(ws[i].items, parent) {
      InTreeCounted(after[i].items, folder, IsFolderNamed(folder.id));
      assert CountOne(folder, IsFolderNamed(folder.id)) == 1;
    } else {
      FoldersAreNodes(ws[i].items, folder.id);
      if InTree(ws[i].items, folder) {
        InTreeCounted(ws[i].items, folder, HasId(folder.id));
        CountOneId(folder, folder.id);
      }
    }
  }

  function Is(x: Item): Test {
    (y: Item) => y == x
  }

  lemma {:induction false} CountedRequestInTree(items: seq<Item>, x: Item)
    requires x.Request? && Count(items, Is(x)) > 0
    ensures InTree(items, x)
    decreases items
  {
    assert Is(x)(Head(items[0])) == (Head(items[0]) == x);
    if items[0].Folder? && Count(items[0].items, Is(x)) > 0 {
      CountedRequestInTree(items[0].items, x);
    } else if items[0] != x {
      CountedRequestInTree(items[1..], x);
    }
  }

  /** `y` is `x` or lies below it. */
  ghost predicate Within(x: Item, y: Item) {
    y == x || InTree(Children(x), y)
  }

  lemma CountedWithin(x: Item, y: Item)
    requires y.Request? && CountOne(x, Is(y)) > 0
    ensures Within(x, y)
  {
    assert Is(y)(Head(x)) == (Head(x) == y);
    if x.Folder? {
      CountedRequestInTree(x.items, y);
    }
  }

  lemma {:induction false} WithinCounted(x: Item, y: Item, p: Test)
    requires Within(x, y)
    ensures CountOne(y, p) <= CountOne(x, p)
  {
    if y != x {
      InTreeCounted(Children(x), y, p);
    }
  }

  /** Deleting takes out one subtree, and leaves every other node in its place. */
  lemma DeleteTakesOut(st: State, i: nat, item: string, ids: Ids, p: Test)
    requires Good(st, ids) && i < |st.collections| && Found(st.collections[i].items, item).Some?
    ensures var ws := st.collections;
            var after := Apply(st, DeleteItem(ws[i].id, item), ids).collections;
            var x := Found(ws[i].items, item).value;
            && x.id == item && InTree(ws[i].items, x)
            && after == ws[i := ws[i].(items := Remaining(ws[i].items, item))]
            && RemovedFrom(ws[i].items, after[i].items, x)
            && Count(after[i].items, p) + CountOne(x, p) == Count(ws[i].items, p)
            && CountAll(after, p) + CountOne(x, p) == CountAll(ws, p)
  {
    var ws := st.collections;
    OnlyIndex(ws, i);
    EditsOne(ws, ws[i].id, items => Delete(items, item));
    UniqueInCollection(ws, i, item);
    ExtractSplits(ws[i].items, item);
    CountUpdate(ws, i, Remaining(ws[i].items, item), p);
  }

  /** After a delete no node of the deleted subtree can be found, */
  lemma DeletedIsGone(st: State, i: nat, item: string, ids: Ids, y: Item)
    requires Good(st, ids) && i < |st.collections| && Found(st.collections[i].items, item).Some?
    requires Within(Found(st.collections[i].items, item).value, y)
    ensures var after := Apply(st, DeleteItem(st.collections[i].id, item), ids).collections;
            && CountAll(after, HasId(y.id)) == 0
            && FindAnywhere(after, y.id).None?
  {
    DeleteTakesOut(st, i, item, ids, HasId(y.id));
    WithinCounted(Found(st.collections[i].items, item).value, y, HasId(y.id));
    CountOneId(y, y.id);
    FindNothingAnywhere(Apply(st, DeleteItem(st.collections[i].id, item), ids).collections, y.id);
  }

  /** and every other request is still found where it was. */
  lemma OthersAreKept(st: State, i: nat, item: string, ids: Ids, j: nat, y: Item)
    requires Good(st, ids) && i < |st.collections| && Found(st.collections[i].items, item).Some?
    requires j < |st.collections| && y.Request? && InTree(st.collections[j].items, y)
    requires !Within(Found(st.collections[i].items, item).value, y)
    ensures FindAnywhere(Apply(st, DeleteItem(st.collections[i].id, item), ids).collections, y.id)
            == Some((y, st.collections[j].id))
  {
    var ws := st.collections;
    var after := Apply(st, DeleteItem(ws[i].id, item), ids).collections;
    DeleteTakesOut(st, i, item, ids, Is(y));
    DeleteTakesOut(st, i, item, ids, HasId(y.id));
    var x := Found(ws[i].items, item).value;
    if i == j {
      InTreeCounted(ws[i].items, y, Is(y));
      assert Is(y)(Head(y));
      if CountOne(x, Is(y)) > 0 {
        CountedWithin(x, y);
      }
      CountedRequestInTree(after[i].items, y);
    }
    FindUniqueAnywhere(after, j, y);
  }
}
