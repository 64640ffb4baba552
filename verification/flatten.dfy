/** The item tree as an ordered list of requests, each with its ancestor folders. */
module Flatten {
  import opened Prelude
  import opened Postman

  datatype FlatRequest = FlatRequest(name: string, item: Item, folders: seq<Item>)

  /** Depth-first order; `folders` is outermost first. */
  function Flattened(items: seq<Item>, ancestors: seq<Item>): seq<FlatRequest> {
    if items == [] then []
    else FlattenedOne(items[0], ancestors) + Flattened(items[1..], ancestors)
  }

  function FlattenedOne(item: Item, ancestors: seq<Item>): seq<FlatRequest> {
    match item
    case Folder(_, children, _, _) => Flattened(children, ancestors + [item])
    case Leaf(name, _, _, _) => [FlatRequest(name, item, ancestors)]
  }

  // ---------- what the folders of a flat request are ----------

  /** `folders` leads from the top of `items` to `leaf`, each folder inside the one before. */
  predicate PathTo(items: seq<Item>, folders: seq<Item>, leaf: Item)
    decreases |folders|
  {
    if folders == [] then leaf in items && leaf.Leaf?
    else folders[0] in items && folders[0].Folder? && PathTo(folders[0].items, folders[1..], leaf)
  }

  lemma {:induction false} FlattenedIsPath(items: seq<Item>, ancestors: seq<Item>, k: nat)
    requires k < |Flattened(items, ancestors)|
    ensures var fr := Flattened(items, ancestors)[k];
            && ancestors <= fr.folders && fr.name == fr.item.name
            && PathTo(items, fr.folders[|ancestors|..], fr.item)
    decreases items
  {
    var head := match items[0]
      case Folder(_, children, _, _) => Flattened(children, ancestors + [items[0]])
      case Leaf(name, _, _, _) => [FlatRequest(name, items[0], ancestors)];
    var fr := Flattened(items, ancestors)[k];
    if k < |head| {
      if items[0].Folder? {
        FlattenedIsPath(items[0].items, ancestors + [items[0]], k);
        assert fr.folders[|ancestors|] == items[0];
        assert fr.folders[|ancestors|..][1..] == fr.folders[|ancestors| + 1..];
      }
    } else {
      FlattenedIsPath(items[1..], ancestors, k - |head|);
      assert PathTo(items[1..], fr.folders[|ancestors|..], fr.item);
    }
  }

  lemma {:induction false} PathIsFlattened(items: seq<Item>, ancestors: seq<Item>, folders: seq<Item>, leaf: Item)
    requires PathTo(items, folders, leaf)
    ensures FlatRequest(leaf.name, leaf, ancestors + folders) in Flattened(items, ancestors)
    decreases items
  {
    var first := if folders == [] then leaf else folders[0];
    if items[0] == first {
      if folders == [] {
        assert ancestors + folders == ancestors;
      } else {
        PathIsFlattened(items[0].items, ancestors + [items[0]], folders[1..], leaf);
        assert ancestors + [items[0]] + folders[1..] == ancestors + folders;
      }
    } else {
      assert first in items[1..];
      PathIsFlattened(items[1..], ancestors, folders, leaf);
    }
  }

  /** Flattening lists exactly the leaves of the tree, each with its own root-to-parent path. */
  lemma FlattenedExactly(items: seq<Item>, fr: FlatRequest)
    ensures fr in Flattened(items, []) <==> PathTo(items, fr.folders, fr.item) && fr.name == fr.item.name
  {
    if fr in Flattened(items, []) {
      var k :| 0 <= k < |Flattened(items, [])| && Flattened(items, [])[k] == fr;
      FlattenedIsPath(items, [], k);
      assert fr.folders[0..] == fr.folders;
    }
    if PathTo(items, fr.folders, fr.item) {
      PathIsFlattened(items, [], fr.folders, fr.item);
      assert [] + fr.folders == fr.folders;
    }
  }

  // ---------- Go slices ----------

  /** A slice header: it shows the first `len` cells of a backing array that others may share. */
  datatype Slice = Slice(buf: array<Item>, len: nat)

  ghost predicate ValidSlice(s: Slice) {
    s.len <= s.buf.Length
  }

  ghost function Shown(s: Slice): seq<Item>
    requires ValidSlice(s)
    reads s.buf
  {
    s.buf[..s.len]
  }

  /** `append`: in place while there is capacity, otherwise into a larger copy. */
  method Append(s: Slice, x: Item) returns (r: Slice)
    requires ValidSlice(s)
    modifies s.buf
    ensures ValidSlice(r) && r.len == s.len + 1
    ensures if s.len < s.buf.Length then r.buf == s.buf else fresh(r.buf)
    ensures Shown(r) == old(Shown(s)) + [x] && Shown(s) == old(Shown(s))
  {
    if s.len < s.buf.Length {
      s.buf[s.len] := x;
      r := Slice(s.buf, s.len + 1);
    } else {
      var capacity :| capacity > s.len;
      var bigger := new Item[capacity];
      for i := 0 to s.len
        invariant bigger[..i] == s.buf[..i] && s.buf[..] == old(s.buf[..])
        modifies bigger
      {
        bigger[i] := s.buf[i];
      }
      bigger[s.len] := x;
      r := Slice(bigger, s.len + 1);
    }
  }

  /** Two appends to one slice with spare capacity write the same cell: why `flatten` copies. */
  method SiblingsShareACell(s: Slice, a: Item, b: Item) returns (first: Slice, second: Slice)
    requires ValidSlice(s) && s.len < s.buf.Length
    modifies s.buf
    ensures ValidSlice(first) && ValidSlice(second)
    ensures Shown(first) == Shown(second) == old(Shown(s)) + [b]
  {
    first := Append(s, a);
    second := Append(s, b);
  }

  /**
   Sibling folders append to the same ancestors slice and may overwrite each other's cell;
   still the caller's view never changes and every leaf gets its own path.
   */
  method FlattenItems(items: seq<Item>, ancestors: Slice) returns (out: seq<FlatRequest>)
    requires ValidSlice(ancestors)
    modifies ancestors.buf
    ensures Shown(ancestors) == old(Shown(ancestors))
    ensures out == Flattened(items, old(Shown(ancestors)))
    decreases items
  {
    ghost var path := Shown(ancestors);
    out := [];
    var i := 0;
    while i < |items|
      invariant i <= |items| && Shown(ancestors) == path
      invariant out + Flattened(items[i..], path) == Flattened(items, path)
    {
      assert items[i..][0] == items[i] && items[i..][1..] == items[i + 1..];
      ghost var before := out;
      match items[i] {
        case Folder(_, children, _, _) =>
          var inner := Append(ancestors, items[i]);
          ghost var shown := Shown(inner);
          var found := FlattenItems(children, inner);
          assert Shown(inner) == shown;
          assert inner.buf == ancestors.buf ==> Shown(ancestors) == shown[..ancestors.len];
          assert found == FlattenedOne(items[i], path);
          out := out + found;
        case Leaf(name, _, _, _) =>
          var folders := ancestors.buf[..ancestors.len];
          assert FlattenedOne(items[i], path) == [FlatRequest(name, items[i], folders)];
          out := out + [FlatRequest(name, items[i], folders)];
      }
      Associative(before, FlattenedOne(items[i], path), Flattened(items[i + 1..], path));
      i := i + 1;
    }
  }

  /** What `Walk` hands its callback, recorded at the time of the call. */
  class Visitor {
    var visits: seq<FlatRequest>

    constructor ()
      ensures visits == []
    {
      visits := [];
    }
  }

  method WalkItems(items: seq<Item>, ancestors: Slice, visitor: Visitor)
    requires ValidSlice(ancestors)
    modifies ancestors.buf, visitor
    ensures Shown(ancestors) == old(Shown(ancestors))
    ensures visitor.visits == old(visitor.visits) + Flattened(items, old(Shown(ancestors)))
    decreases items
  {
    ghost var path := Shown(ancestors);
    ghost var all := visitor.visits + Flattened(items, path);
    var i := 0;
    while i < |items|
      invariant i <= |items| && Shown(ancestors) == path
      invariant visitor.visits + Flattened(items[i..], path) == all
    {
      assert items[i..][0] == items[i] && items[i..][1..] == items[i + 1..];
      if items[i].Folder? {
        var inner := Append(ancestors, items[i]);
        ghost var shown := Shown(inner);
        WalkItems(items[i].items, inner, visitor);
        assert inner.buf == ancestors.buf ==> Shown(ancestors) == shown[..ancestors.len];
      } else {
        visitor.visits := visitor.visits + [FlatRequest(items[i].name, items[i], ancestors.buf[..ancestors.len])];
      }
      i := i + 1;
    }
  }

  lemma {:induction false} FlattenedLength(items: seq<Item>, a: seq<Item>, b: seq<Item>)
    ensures |Flattened(items, a)| == |Flattened(items, b)|
    decreases items
  {
    if items != [] {
      FlattenedLength(items[1..], a, b);
      if items[0].Folder? {
        FlattenedLength(items[0].items, a + [items[0]], b + [items[0]]);
      }
    }
  }

  /** The count announced at the start of a run is the number of flattened requests. */
  method CountRequests(items: seq<Item>) returns (n: nat)
    ensures n == |Flattened(items, [])|
    decreases items
  {
    n := 0;
    var i := 0;
    while i < |items|
      invariant i <= |items| && n + |Flattened(items[i..], [])| == |Flattened(items, [])|
    {
      assert items[i..][0] == items[i] && items[i..][1..] == items[i + 1..];
      if items[i].Folder? {
        var m := CountRequests(items[i].items);
        FlattenedLength(items[i].items, [], [] + [items[i]]);
        n := n + m;
      } else {
        n := n + 1;
      }
      i := i + 1;
    }
  }

  // ---------- selecting ----------

  /** Requests whose immediate parent folder has the given name. */
  method FilterFolder(flat: seq<FlatRequest>, name: string) returns (out: seq<FlatRequest>)
    ensures out == InFolder(flat, name)
  {
    out := [];
    for i := 0 to |flat|
      invariant out == InFolder(flat[..i], name)
    {
      assert flat[..i + 1][..i] == flat[..i];
      if |flat[i].folders| > 0 && flat[i].folders[|flat[i].folders| - 1].name == name {
        out := out + [flat[i]];
      }
    }
    assert flat[..|flat|] == flat;
  }

  function InFolder(flat: seq<FlatRequest>, name: string): (out: seq<FlatRequest>)
    ensures |out| <= |flat|
  {
    if flat == [] then []
    else
      var fr := flat[|flat| - 1];
      InFolder(flat[..|flat| - 1], name)
      + if fr.folders != [] && fr.folders[|fr.folders| - 1].name == name then [fr] else []
  }

  /** The folder the request lies in directly has the name. */
  predicate DirectlyIn(fr: FlatRequest, name: string) {
    var n := |fr.folders|;
    n > 0 && fr.folders[n - 1].name == name
  }

  /** Exactly the requests with such a parent, in their order, each once. */
  lemma {:induction false} InFolderExactly(flat: seq<FlatRequest>, name: string) returns (at: seq<nat>)
    ensures Picks(flat, InFolder(flat, name), at)
    ensures forall i: nat :: i < |flat| ==> (i in at <==> DirectlyIn(flat[i], name))
  {
    at := [];
    if flat != [] {
      var n := |flat| - 1;
      var front, x := flat[..n], flat[n];
      var before := InFolderExactly(front, name);
      PicksLonger(front, x, InFolder(front, name), before);
      assert flat == front + [x];
      if DirectlyIn(x, name) {
        at := before + [n];
        assert InFolder(flat, name) == InFolder(front, name) + [x];
      } else {
        at := before;
        assert InFolder(flat, name) == InFolder(front, name) + [];
      }
      forall i: nat | i < |flat| ensures i in at <==> DirectlyIn(flat[i], name) {
        assert i < n ==> front[i] == flat[i];
      }
    }
  }
}
