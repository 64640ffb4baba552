/**
 What a request inherits from the folders around it: authentication (nearest wins) and
 scripts (all of them, outside in). The runner works bottom-up from each flat request's
 folder list; the reference definitions below work top-down over the tree.
 */
module Inheritance {
  import opened Prelude
  import opened Postman
  import opened Flatten
  import opened Splitting

  // ---------- authentication ----------

  /** The first auth present, the request's own first, then `folderAuths`, then the collection's. */
  function NearestAuth(own: Option<Auth>, folderAuths: seq<Option<Auth>>, collection: Option<Auth>): Option<Auth>
    decreases |folderAuths|
  {
    if own.Some? then own
    else if folderAuths == [] then collection
    else NearestAuth(folderAuths[0], folderAuths[1..], collection)
  }

  /** `auth.Resolve`: an early-return search over folder auths, innermost first. */
  method ResolveChain(own: Option<Auth>, folderAuths: seq<Option<Auth>>, collection: Option<Auth>)
    returns (r: Option<Auth>)
    ensures r == NearestAuth(own, folderAuths, collection)
  {
    if own.Some? {
      return own;
    }
    var i := 0;
    while i < |folderAuths|
      invariant i <= |folderAuths|
      invariant NearestAuth(None, folderAuths[i..], collection) == NearestAuth(own, folderAuths, collection)
    {
      assert folderAuths[i..][0] == folderAuths[i] && folderAuths[i..][1..] == folderAuths[i + 1..];
      if folderAuths[i].Some? {
        return folderAuths[i];
      }
      i := i + 1;
    }
    return collection;
  }

  function FolderAuths(folders: seq<Item>): seq<Option<Auth>> {
    seq(|folders|, i requires 0 <= i < |folders| => folders[|folders| - 1 - i].auth)
  }

  /** The auth in force for a flat request. */
  function EffectiveAuth(fr: FlatRequest, collection: Option<Auth>): Option<Auth>
    requires fr.item.Leaf?
  {
    NearestAuth(fr.item.request.auth, FolderAuths(fr.folders), collection)
  }

  /** The runner stores folders outermost first and reverses them into a buffer. */
  method ResolveAuth(fr: FlatRequest, collection: Option<Auth>) returns (r: Option<Auth>)
    requires fr.item.Leaf?
    ensures r == EffectiveAuth(fr, collection)
  {
    var n := |fr.folders|;
    var folderAuths := new Option<Auth>[n];
    for i := 0 to n
      invariant forall j :: 0 <= j < i ==> folderAuths[n - 1 - j] == fr.folders[j].auth
    {
      folderAuths[n - 1 - i] := fr.folders[i].auth;
    }
    assert folderAuths[..] == FolderAuths(fr.folders) by {
      forall k | 0 <= k < n ensures folderAuths[k] == FolderAuths(fr.folders)[k] {
        assert folderAuths[n - 1 - (n - 1 - k)] == fr.folders[n - 1 - k].auth;
      }
    }
    r := ResolveChain(fr.item.request.auth, folderAuths[..], collection);
  }

  /** Top-down: a folder's auth replaces what it inherits for everything inside it. */
  function InheritedAuths(items: seq<Item>, inherited: Option<Auth>): seq<Option<Auth>> {
    if items == [] then []
    else
      (match items[0]
       case Folder(_, children, _, auth) => InheritedAuths(children, Or(auth, inherited))
       case Leaf(_, request, _, _) => [Or(request.auth, inherited)])
      + InheritedAuths(items[1..], inherited)
  }

  function Or(a: Option<Auth>, b: Option<Auth>): Option<Auth> {
    if a.Some? then a else b
  }

  lemma NearestAuthCons(own: Option<Auth>, folders: seq<Item>, f: Item, collection: Option<Auth>)
    ensures NearestAuth(own, FolderAuths(folders + [f]), collection)
            == Or(own, Or(f.auth, NearestAuth(None, FolderAuths(folders), collection)))
  {
    assert FolderAuths(folders + [f]) == [f.auth] + FolderAuths(folders);
    assert ([f.auth] + FolderAuths(folders))[1..] == FolderAuths(folders);
  }

  /** The auths are those of the flat requests, one for one. */
  predicate Agree(flat: seq<FlatRequest>, auths: seq<Option<Auth>>, collection: Option<Auth>) {
    && |auths| == |flat|
    && forall k :: 0 <= k < |flat| ==> flat[k].item.Leaf? && auths[k] == EffectiveAuth(flat[k], collection)
  }

  lemma AgreeConcat(flat: seq<FlatRequest>, auths: seq<Option<Auth>>,
                    flat': seq<FlatRequest>, auths': seq<Option<Auth>>, collection: Option<Auth>)
    requires Agree(flat, auths, collection) && Agree(flat', auths', collection)
    ensures Agree(flat + flat', auths + auths', collection)
  {
  }

  lemma {:induction false} AuthsAgreeUnder(items: seq<Item>, ancestors: seq<Item>, collection: Option<Auth>)
    ensures var flat := Flattened(items, ancestors);
            var auths := InheritedAuths(items, NearestAuth(None, FolderAuths(ancestors), collection));
            Agree(flat, auths, collection)
    decreases items
  {
    if items != [] {
      var inherited := NearestAuth(None, FolderAuths(ancestors), collection);
      AuthsAgreeUnder(items[1..], ancestors, collection);
      match items[0] {
        case Folder(_, children, _, auth) =>
          NearestAuthCons(None, ancestors, items[0], collection);
          AuthsAgreeUnder(children, ancestors + [items[0]], collection);
          AgreeConcat(Flattened(children, ancestors + [items[0]]), InheritedAuths(children, Or(auth, inherited)),
                      Flattened(items[1..], ancestors), InheritedAuths(items[1..], inherited), collection);
        case Leaf(_, request, _, _) =>
          assert NearestAuth(request.auth, FolderAuths(ancestors), collection) == Or(request.auth, inherited);
          AgreeConcat([FlatRequest(items[0].name, items[0], ancestors)], [Or(request.auth, inherited)],
                      Flattened(items[1..], ancestors), InheritedAuths(items[1..], inherited), collection);
      }
    }
  }

  /** For every leaf of every tree, the runner's auth is the one inherited top-down. */
  lemma AuthsAgree(items: seq<Item>, collection: Option<Auth>)
    ensures Agree(Flattened(items, []), InheritedAuths(items, collection), collection)
  {
    AuthsAgreeUnder(items, [], collection);
    assert FolderAuths([]) == [];
  }

  // ---------- scripts ----------

  /** Bodies of the events of one kind, in order. */
  function Matching(events: seq<Event>, kind: string): seq<string> {
    if events == [] then []
    else
      var e := events[|events| - 1];
      Matching(events[..|events| - 1], kind) + if e.listen == kind then [Join('\n', e.script.exec)] else []
  }

  /** Exactly the events of the kind, in order, each with its lines joined. */
  lemma {:induction false} MatchingExactly(events: seq<Event>, kind: string) returns (at: seq<nat>)
    ensures var out := Matching(events, kind);
            |at| == |out| && forall k :: 0 <= k < |at| ==> at[k] < |events| && out[k] == Join('\n', events[at[k]].script.exec)
    ensures forall j, k :: 0 <= j < k < |at| ==> at[j] < at[k]
    ensures forall i :: 0 <= i < |events| ==> (i in at <==> events[i].listen == kind)
  {
    at := [];
    if events != [] {
      var n := |events| - 1;
      at := MatchingExactly(events[..n], kind);
      assert n !in at;
      if events[n].listen == kind {
        at := at + [n];
      }
    }
  }

  function FolderScripts(folders: seq<Item>, kind: string): seq<string> {
    if folders == [] then []
    else FolderScripts(folders[..|folders| - 1], kind) + Matching(folders[|folders| - 1].events, kind)
  }

  /** The scripts run for a flat request. */
  function ScriptsFor(collection: seq<Event>, fr: FlatRequest, kind: string): seq<string> {
    Matching(collection, kind) + FolderScripts(fr.folders, kind) + Matching(fr.item.events, kind)
  }

  method AppendMatching(scripts: seq<string>, events: seq<Event>, kind: string) returns (out: seq<string>)
    ensures out == scripts + Matching(events, kind)
  {
    out := scripts;
    for i := 0 to |events|
      invariant out == scripts + Matching(events[..i], kind)
    {
      assert events[..i + 1][..i] == events[..i];
      if events[i].listen == kind {
        out := out + [Join('\n', events[i].script.exec)];
      }
    }
    assert events[..|events|] == events;
  }

  method JoinScripts(collection: seq<Event>, folders: seq<Item>, own: seq<Event>, kind: string)
    returns (scripts: seq<string>)
    ensures scripts == Matching(collection, kind) + FolderScripts(folders, kind) + Matching(own, kind)
  {
    scripts := AppendMatching([], collection, kind);
    for i := 0 to |folders|
      invariant scripts == Matching(collection, kind) + FolderScripts(folders[..i], kind)
    {
      assert folders[..i + 1][..i] == folders[..i];
      scripts := AppendMatching(scripts, folders[i].events, kind);
    }
    assert folders[..|folders|] == folders;
    scripts := AppendMatching(scripts, own, kind);
  }

  /** Top-down: each level adds its matching events after those of the levels around it. */
  function InheritedScripts(items: seq<Item>, outer: seq<string>, kind: string): seq<seq<string>> {
    if items == [] then []
    else
      (match items[0]
       case Folder(_, children, events, _) => InheritedScripts(children, outer + Matching(events, kind), kind)
       case Leaf(_, _, events, _) => [outer + Matching(events, kind)])
      + InheritedScripts(items[1..], outer, kind)
  }

  /** The script lists are those of the flat requests, one for one. */
  predicate SameScripts(flat: seq<FlatRequest>, scripts: seq<seq<string>>, collection: seq<Event>, kind: string) {
    && |scripts| == |flat|
    && forall k :: 0 <= k < |flat| ==> scripts[k] == ScriptsFor(collection, flat[k], kind)
  }

  lemma SameScriptsConcat(flat: seq<FlatRequest>, scripts: seq<seq<string>>,
                          flat': seq<FlatRequest>, scripts': seq<seq<string>>, collection: seq<Event>, kind: string)
    requires SameScripts(flat, scripts, collection, kind) && SameScripts(flat', scripts', collection, kind)
    ensures SameScripts(flat + flat', scripts + scripts', collection, kind)
  {
  }

  lemma {:induction false} ScriptsAgreeUnder(items: seq<Item>, ancestors: seq<Item>, collection: seq<Event>, kind: string)
    ensures var outer := Matching(collection, kind) + FolderScripts(ancestors, kind);
            SameScripts(Flattened(items, ancestors), InheritedScripts(items, outer, kind), collection, kind)
    decreases items
  {
    if items != [] {
      var item, outer := items[0], Matching(collection, kind) + FolderScripts(ancestors, kind);
      var inner := outer + Matching(item.events, kind);
      ScriptsAgreeUnder(items[1..], ancestors, collection, kind);
      var flat, scripts := Flattened(items[1..], ancestors), InheritedScripts(items[1..], outer, kind);
      match item {
        case Folder(_, children, _, _) =>
          assert (ancestors + [item])[..|ancestors|] == ancestors;
          Associative(Matching(collection, kind), FolderScripts(ancestors, kind), Matching(item.events, kind));
          ScriptsAgreeUnder(children, ancestors + [item], collection, kind);
          SameScriptsConcat(Flattened(children, ancestors + [item]), InheritedScripts(children, inner, kind),
                            flat, scripts, collection, kind);
        case Leaf(name, _, _, _) =>
          SameScriptsConcat([FlatRequest(name, item, ancestors)], [inner], flat, scripts, collection, kind);
      }
    }
  }

  /** For every leaf of every tree, the scripts run are those met on the way down, outside in. */
  lemma {:induction false} ScriptsAgree(items: seq<Item>, collection: seq<Event>, kind: string)
    ensures SameScripts(Flattened(items, []), InheritedScripts(items, Matching(collection, kind), kind), collection, kind)
  {
    ScriptsAgreeUnder(items, [], collection, kind);
    assert Matching(collection, kind) + FolderScripts([], kind) == Matching(collection, kind);
  }
}
