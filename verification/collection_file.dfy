/**
 A collection as a file: what an export writes and an import accepts. Empty lists are left out
 when they are written, and what is read must be a request or a folder by the v2.1 schema.
 */
module CollectionFile {
  import opened Prelude
  import opened Frontend
  import opened AuthConversion
  import opened Convert
  import opened WorkspaceActions
  import P = Postman

  /** An item as it is written: either part may be missing. */
  datatype Entry = Entry(
    name: string, items: ItemList, request: Option<P.Request>, events: seq<P.Event>, auth: Option<P.Auth>)

  datatype ItemList = Missing | Listed(entries: seq<Entry>)

  /** The schema URL is always the one of v2.1, and is left out here. */
  datatype File = File(
    postmanId: string, name: string, description: string, items: seq<Entry>, auth: Option<P.Auth>,
    variables: seq<P.Variable>, events: seq<P.Event>)

  // ---------- writing ----------

  function Written(x: P.Item): Entry {
    match x
    case Folder(name, items, events, auth) =>
      Entry(name,
        if items == [] then Missing else Listed(seq(|items|, i requires 0 <= i < |items| => Written(items[i]))),
        None, events, auth)
    case Leaf(name, request, events, auth) => Entry(name, Missing, Some(request), events, auth)
  }

  function FileOf(c: P.Collection): File {
    File(c.postmanId, c.name, c.description, seq(|c.items|, i requires 0 <= i < |c.items| => Written(c.items[i])),
      c.auth, c.variables, c.events)
  }

  // ---------- reading ----------

  predicate ValidAuth(auth: Option<P.Auth>) {
    auth.Some? ==>
      auth.value.kind in {"apikey", "awsv4", "basic", "bearer", "digest", "edgegrid", "hawk", "noauth", "oauth1",
                          "oauth2", "ntlm"}
  }

  predicate ValidBody(body: Option<P.Body>) {
    body.Some? ==>
      && body.value.mode in {"raw", "urlencoded", "formdata", "file", "graphql"}
      && forall i :: 0 <= i < |body.value.formData| ==> body.value.formData[i].kind in {"text", "file"}
  }

  predicate ValidRequest(request: P.Request) {
    ValidAuth(request.auth) && ValidBody(request.body)
  }

  predicate IsRequest(x: Entry) {
    x.request.Some? && ValidRequest(x.request.value)
  }

  predicate IsGroup(x: Entry)
    decreases x, 0
  {
    x.items.Listed? && ValidAuth(x.auth) && forall i :: 0 <= i < |x.items.entries| ==> ValidInside(x.items.entries[i])
  }

  /** Inside a folder the schema asks for either, at the top level for exactly one. */
  predicate ValidInside(x: Entry)
    decreases x, 1
  {
    IsRequest(x) || IsGroup(x)
  }

  predicate ValidOnTop(x: Entry) {
    IsRequest(x) != IsGroup(x)
  }

  /** The item list decides: what has one is a folder. */
  function Read(x: Entry): P.Item
    requires ValidInside(x)
  {
    if IsGroup(x) then
      P.Folder(x.name, seq(|x.items.entries|, i requires 0 <= i < |x.items.entries| => Read(x.items.entries[i])),
        x.events, x.auth)
    else P.Leaf(x.name, x.request.value, x.events, x.auth)
  }

  function ParseCollection(f: File): Result<P.Collection> {
    if f.name == "" then Err("collection: missing info.name")
    else if !(ValidAuth(f.auth) && forall i :: 0 <= i < |f.items| ==> ValidOnTop(f.items[i])) then
      Err("schema validation")
    else
      Ok(P.Collection(f.postmanId, f.name, f.description,
        seq(|f.items|, i requires 0 <= i < |f.items| => Read(f.items[i])), f.auth, f.variables, f.events))
  }

  // ---------- what was written and can be read ----------

  /** No folder is empty, and every request is valid. */
  predicate Readable(x: P.Item) {
    match x
    case Folder(_, items, _, auth) =>
      items != [] && ValidAuth(auth) && forall i :: 0 <= i < |items| ==> Readable(items[i])
    case Leaf(_, request, _, _) => ValidRequest(request)
  }

  lemma {:induction false} WrittenIsReadIff(x: P.Item)
    ensures ValidInside(Written(x)) <==> Readable(x)
    ensures ValidOnTop(Written(x)) <==> Readable(x)
    ensures Readable(x) ==> Read(Written(x)) == x
    decreases x
  {
    match x
    case Folder(_, items, _, auth) =>
      forall i | 0 <= i < |items|
        ensures ValidInside(Written(items[i])) <==> Readable(items[i])
        ensures Readable(items[i]) ==> Read(Written(items[i])) == items[i]
      {
        WrittenIsReadIff(items[i]);
      }
      FolderIsReadIff(x);
    case Leaf(_, _, _, _) =>
  }

  lemma FolderIsReadIff(x: P.Item)
    requires x.Folder?
    requires forall i :: 0 <= i < |x.items| ==> (ValidInside(Written(x.items[i])) <==> Readable(x.items[i]))
    requires forall i :: 0 <= i < |x.items| ==> Readable(x.items[i]) ==> Read(Written(x.items[i])) == x.items[i]
    ensures IsGroup(Written(x)) <==> Readable(x)
    ensures Readable(x) ==> Read(Written(x)) == x
  {
    var entry := Written(x);
    if x.items != [] {
      var entries := entry.items.entries;
      assert |entries| == |x.items| && forall i :: 0 <= i < |entries| ==> entries[i] == Written(x.items[i]);
      if IsGroup(entry) {
        forall i | 0 <= i < |x.items| ensures Readable(x.items[i]) {
          assert ValidInside(entries[i]);
        }
      }
      if Readable(x) {
        assert forall i :: 0 <= i < |entries| ==> ValidInside(entries[i]) && Read(entries[i]) == x.items[i];
        assert Read(entry).items == x.items;
      }
    }
  }

  /** A written collection is read back as it was, or refused. */
  lemma ParseWrittenIff(c: P.Collection)
    ensures var ok := c.name != "" && ValidAuth(c.auth) && forall i :: 0 <= i < |c.items| ==> Readable(c.items[i]);
            if ok then ParseCollection(FileOf(c)) == Ok(c) else ParseCollection(FileOf(c)).Err?
  {
    var f := FileOf(c);
    forall i | 0 <= i < |c.items|
      ensures ValidOnTop(f.items[i]) <==> Readable(c.items[i])
      ensures Readable(c.items[i]) ==> ValidInside(f.items[i]) && Read(f.items[i]) == c.items[i]
    {
      WrittenIsReadIff(c.items[i]);
    }
    assert |f.items| == |c.items|;
    if forall i :: 0 <= i < |c.items| ==> Readable(c.items[i]) {
      assert forall i :: 0 <= i < |f.items| ==> ValidOnTop(f.items[i]);
      assert c.items == seq(|f.items|, i requires 0 <= i < |f.items| => Read(f.items[i]));
    } else {
      var i :| 0 <= i < |c.items| && !Readable(c.items[i]);
      assert !ValidOnTop(f.items[i]);
    }
  }

  // ---------- exporting and importing ----------

  function Export(c: Collection): File {
    FileOf(ParserCollectionOf(c))
  }

  function Import(f: File): Result<Collection> {
    match ParseCollection(f)
    case Err(e) => Err(e)
    case Ok(c) => Ok(CollectionOf(c))
  }

  /** No folder is empty, every request has a method, and form values are texts or files. */
  predicate Portable(x: Item) {
    match x
    case Request(_, _, method_, _, _, _, body, _, _) =>
      method_ != ""
      && (body.kind == "form-data" ==>
            forall i :: 0 <= i < |body.formData| ==> body.formData[i].valueType in {"text", "file"})
    case Folder(_, _, _, _, items) => items != [] && forall i :: 0 <= i < |items| ==> Portable(items[i])
  }

  predicate PortableCollection(c: Collection) {
    c.name != "" && forall i :: 0 <= i < |c.items| ==> Portable(c.items[i])
  }

  lemma ExportedAuthIsValid(a: Auth)
    ensures ValidAuth(ConvertAuthToParser(a))
  {
  }

  lemma ExportedBodyIsValidIff(b: Body)
    ensures ValidBody(ParserBodyOf(b))
       <==> (b.kind == "form-data" ==> forall i :: 0 <= i < |b.formData| ==> b.formData[i].valueType in {"text", "file"})
  {
    if b.kind == "form-data" {
      var params := FormParamsOf(b.formData);
      if ValidBody(ParserBodyOf(b)) {
        forall i | 0 <= i < |b.formData| ensures b.formData[i].valueType in {"text", "file"} {
          assert params[i].kind in {"text", "file"};
        }
      }
    }
  }

  lemma {:induction false} PortableIff(x: Item)
    ensures Readable(ParserItemOf(x)) <==> Portable(x)
    decreases x
  {
    ExportedAuthIsValid(x.auth);
    match x
    case Request(_, _, _, _, _, _, body, _, _) => ExportedBodyIsValidIff(body);
    case Folder(_, _, _, _, items) =>
      forall i | 0 <= i < |items| ensures Readable(ParserItemOf(items[i])) <==> Portable(items[i]) {
        PortableIff(items[i]);
      }
      var folder := ParserItemOf(x);
      assert |folder.items| == |items| && forall i :: 0 <= i < |items| ==> folder.items[i] == ParserItemOf(items[i]);
      if Readable(folder) {
        forall i | 0 <= i < |items| ensures Portable(items[i]) {
          assert Readable(folder.items[i]);
        }
      }
  }

  lemma PortableItemsIff(c: Collection)
    ensures var items := ParserCollectionOf(c).items;
            (forall i :: 0 <= i < |items| ==> Readable(items[i])) <==> forall i :: 0 <= i < |c.items| ==> Portable(c.items[i])
  {
    var items := ParserCollectionOf(c).items;
    forall i | 0 <= i < |c.items| ensures Readable(items[i]) <==> Portable(c.items[i]) {
      PortableIff(c.items[i]);
    }
    assert |items| == |c.items|;
  }

  /** The import accepts an exported file exactly when the collection is portable, and then sees it as in memory. */
  lemma ImportAcceptsIff(c: Collection)
    ensures if PortableCollection(c) then Import(Export(c)) == Ok(CollectionOf(ParserCollectionOf(c)))
            else Import(Export(c)).Err?
  {
    PortableItemsIff(c);
    ExportedAuthIsValid(c.auth);
    ParseWrittenIff(ParserCollectionOf(c));
  }

  /** A collection comes back from its file, up to what is stripped, exactly when it is portable and survives. */
  lemma ExportImportIff(c: Collection)
    ensures Import(Export(c)) == Ok(Strip(c)) <==> PortableCollection(c) && Survives(c)
  {
    ImportAcceptsIff(c);
    CollectionRoundTripIff(c);
  }

  /** Parsed items whose export can be imported: a form value without a type is exported as a text. */
  predicate Reimportable(x: P.Item) {
    match x
    case Folder(_, items, _, _) => items != [] && forall i :: 0 <= i < |items| ==> Reimportable(items[i])
    case Leaf(_, request, _, _) =>
      request.method_ != ""
      && (request.body.Some? && request.body.value.mode == "formdata" ==>
            forall i :: 0 <= i < |request.body.value.formData| ==>
              request.body.value.formData[i].kind in {"", "text", "file"})
  }

  lemma ImportedFormIff(body: Option<P.Body>)
    ensures var b := BodyOf(body);
            && var texts := (b.kind == "form-data" ==>
                               forall i :: 0 <= i < |b.formData| ==> b.formData[i].valueType in {"text", "file"});
            texts <==> (body.Some? && body.value.mode == "formdata" ==>
                          forall i :: 0 <= i < |body.value.formData| ==>
                            body.value.formData[i].kind in {"", "text", "file"})
  {
    if body.Some? && body.value.mode == "formdata" {
      var params, items := body.value.formData, BodyOf(body).formData;
      assert |items| == |params| && forall i :: 0 <= i < |params| ==> items[i] == FormItemOf(params[i]);
      if forall i :: 0 <= i < |items| ==> items[i].valueType in {"text", "file"} {
        forall i | 0 <= i < |params| ensures params[i].kind in {"", "text", "file"} {
          assert items[i].valueType in {"text", "file"};
        }
      }
    }
  }

  lemma {:induction false} ReimportableIff(x: P.Item)
    ensures Portable(ItemOf(x)) <==> Reimportable(x)
    ensures Reimportable(x) ==> HasMethods(x)
    decreases x
  {
    match x
    case Folder(_, items, _, _) =>
      forall i | 0 <= i < |items|
        ensures Portable(ItemOf(items[i])) <==> Reimportable(items[i])
        ensures Reimportable(items[i]) ==> HasMethods(items[i])
      {
        ReimportableIff(items[i]);
      }
      var folder := ItemOf(x);
      assert |folder.items| == |items| && forall i :: 0 <= i < |items| ==> folder.items[i] == ItemOf(items[i]);
      if Portable(folder) {
        forall i | 0 <= i < |items| ensures Reimportable(items[i]) {
          assert Portable(folder.items[i]);
        }
      }
    case Leaf(_, request, _, _) => ImportedFormIff(request.body);
  }

  /**
   What was imported can be exported and imported again, with nothing lost but the description,
   exactly when no folder is empty, every request has a method and forms hold texts and files.
   */
  lemma ReimportIff(c: P.Collection)
    ensures var imported := CollectionOf(c);
            if c.name != "" && (forall i :: 0 <= i < |c.items| ==> Reimportable(c.items[i]))
            then Import(Export(imported)) == Ok(imported.(description := ""))
            else Import(Export(imported)).Err?
  {
    var imported := CollectionOf(c);
    assert |imported.items| == |c.items|;
    forall i | 0 <= i < |c.items|
      ensures Portable(imported.items[i]) <==> Reimportable(c.items[i])
      ensures Reimportable(c.items[i]) ==> HasMethods(c.items[i])
    {
      ReimportableIff(c.items[i]);
    }
    ImportAcceptsIff(imported);
    if PortableCollection(imported) {
      forall i | 0 <= i < |c.items| ensures HasMethods(c.items[i]) {
        assert Portable(imported.items[i]);
      }
      ImportIsStable(c);
    }
  }

  /** One empty folder, or one request without a method, and the exported file of the whole collection is refused. */
  lemma EmptyFolderIsRefused(c: Collection, i: nat)
    requires i < |c.items|
    requires if c.items[i].Folder? then c.items[i].items == [] else c.items[i].method_ == ""
    ensures Import(Export(c)).Err?
  {
    assert !Portable(c.items[i]);
    ImportAcceptsIff(c);
  }

  /** A request as the editor creates it can go through a file, and comes back as it was; a new folder cannot. */
  lemma NewItemsInFiles(id: string)
    ensures Portable(NewRequest(id)) && ItemSurvives(NewRequest(id)) && !Portable(NewFolder(id))
    ensures NewRequest(id).method_ == "GET" && NewRequest(id).auth.kind == NewFolder(id).auth.kind == "inherit"
  {
  }
}
