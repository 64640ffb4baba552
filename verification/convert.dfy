/**
 Collections between the front end's form and the parser's. Ids minted on the way in are left
 blank here, so that equality below means equality up to regenerated ids.
 */
module Convert {
  import opened Prelude
  import opened Frontend
  import opened Splitting
  import opened AuthConversion
  import P = Postman

  // ---------- scripts ----------

  function ScriptEvent(listen: string, source: string): P.Event {
    P.Event(listen, P.Script("text/javascript", Split('\n', source)))
  }

  function BuildEvents(scripts: Scripts): seq<P.Event> {
    (if scripts.preRequest != "" then [ScriptEvent("prerequest", scripts.preRequest)] else [])
    + (if scripts.test != "" then [ScriptEvent("test", scripts.test)] else [])
  }

  /** The first script that listens to the event. */
  function ExtractScript(events: seq<P.Event>, listen: string): string {
    if events == [] then ""
    else if events[0].listen == listen then Join('\n', events[0].script.exec)
    else ExtractScript(events[1..], listen)
  }

  function ExtractScripts(events: seq<P.Event>): Scripts {
    Scripts(ExtractScript(events, "prerequest"), ExtractScript(events, "test"))
  }

  /** Scripts survive whatever they contain, empty lines and empty scripts included. */
  lemma ScriptsReturn(scripts: Scripts)
    ensures ExtractScripts(BuildEvents(scripts)) == scripts
  {
    JoinSplit('\n', scripts.preRequest);
    JoinSplit('\n', scripts.test);
    var pre, test := ScriptEvent("prerequest", scripts.preRequest), ScriptEvent("test", scripts.test);
    ExtractCons(pre, []);
    ExtractCons(test, []);
    ExtractCons(pre, [test]);
    assert [pre] + [] == [pre] && [test] + [] == [test];
    assert BuildEvents(scripts) ==
      if scripts.preRequest == "" then (if scripts.test == "" then [] else [test])
      else if scripts.test == "" then [pre] else [pre] + [test];
  }

  lemma ExtractCons(e: P.Event, rest: seq<P.Event>)
    ensures ExtractScripts([e] + rest) ==
              Scripts(if e.listen == "prerequest" then Join('\n', e.script.exec) else ExtractScript(rest, "prerequest"),
                      if e.listen == "test" then Join('\n', e.script.exec) else ExtractScript(rest, "test"))
  {
    assert ([e] + rest)[1..] == rest;
  }

  // ---------- bodies ----------

  function Language(contentType: string): string {
    if contentType == "application/xml" then "xml"
    else if contentType == "text/plain" then "text"
    else if contentType == "text/html" then "html"
    else if contentType == "application/javascript" then "javascript"
    else "json"
  }

  function RawContentType(language: Option<string>): string {
    if language == Some("xml") then "application/xml"
    else if language == Some("text") then "text/plain"
    else if language == Some("html") then "text/html"
    else if language == Some("javascript") then "application/javascript"
    else "application/json"
  }

  function FieldOf(kv: KeyValue): P.Field {
    P.Field(kv.key, kv.value, !kv.enabled)
  }

  function RowOf(f: P.Field): KeyValue {
    KeyValue("", !f.disabled, f.key, f.value, "")
  }

  function FieldsOf(rows: seq<KeyValue>): seq<P.Field> {
    seq(|rows|, i requires 0 <= i < |rows| => FieldOf(rows[i]))
  }

  function RowsOf(fields: seq<P.Field>): seq<KeyValue> {
    seq(|fields|, i requires 0 <= i < |fields| => RowOf(fields[i]))
  }

  function FormParamOf(p: FormDataItem): P.FormDataParam {
    P.FormDataParam(p.key, p.value, p.fileName, p.valueType, !p.enabled)
  }

  function FormItemOf(p: P.FormDataParam): FormDataItem {
    FormDataItem("", !p.disabled, p.key, if p.kind == "" then "text" else p.kind, p.value, p.src, "", "")
  }

  function FormParamsOf(items: seq<FormDataItem>): seq<P.FormDataParam> {
    seq(|items|, i requires 0 <= i < |items| => FormParamOf(items[i]))
  }

  function FormItemsOf(params: seq<P.FormDataParam>): seq<FormDataItem> {
    seq(|params|, i requires 0 <= i < |params| => FormItemOf(params[i]))
  }

  function EmptyBody(kind: string): Body {
    Body(kind, "", "application/json", [], [], "", "")
  }

  function BodyOf(b: Option<P.Body>): Body {
    if b.None? then EmptyBody("none")
    else if b.value.mode == "raw" then
      EmptyBody("raw").(raw := b.value.raw, rawContentType := RawContentType(b.value.language))
    else if b.value.mode == "formdata" then EmptyBody("form-data").(formData := FormItemsOf(b.value.formData))
    else if b.value.mode == "urlencoded" then
      EmptyBody("x-www-form-urlencoded").(urlencoded := RowsOf(b.value.urlencoded))
    else if b.value.mode == "graphql" then
      if b.value.graphql.None? then EmptyBody("graphql")
      else EmptyBody("graphql").(graphqlQuery := b.value.graphql.value.query,
                                 graphqlVariables := b.value.graphql.value.variables)
    else if b.value.mode == "file" then EmptyBody("binary")
    else EmptyBody("none")
  }

  function ParserBody(mode: string): P.Body {
    P.Body(mode, "", [], [], None, None)
  }

  function ParserBodyOf(b: Body): Option<P.Body> {
    if b.kind == "raw" then Some(ParserBody("raw").(raw := b.raw, language := Some(Language(b.rawContentType))))
    else if b.kind == "form-data" then Some(ParserBody("formdata").(formData := FormParamsOf(b.formData)))
    else if b.kind == "x-www-form-urlencoded" then
      Some(ParserBody("urlencoded").(urlencoded := FieldsOf(b.urlencoded)))
    else if b.kind == "graphql" then
      Some(ParserBody("graphql").(graphql := Some(P.GraphQL(b.graphqlQuery, b.graphqlVariables))))
    else if b.kind == "binary" then Some(ParserBody("file"))
    else None
  }

  method ConvertBodyToFrontend(b: Option<P.Body>) returns (fb: Body)
    ensures fb == BodyOf(b)
  {
    if b.None? {
      return EmptyBody("none");
    }
    if b.value.mode == "formdata" {
      var items: seq<FormDataItem> := [];
      for i := 0 to |b.value.formData|
        invariant items == FormItemsOf(b.value.formData[..i])
      {
        items := items + [FormItemOf(b.value.formData[i])];
      }
      assert b.value.formData[..|b.value.formData|] == b.value.formData;
      return EmptyBody("form-data").(formData := items);
    }
    if b.value.mode == "urlencoded" {
      var rows := ConvertFieldsToFrontend(b.value.urlencoded);
      return EmptyBody("x-www-form-urlencoded").(urlencoded := rows);
    }
    fb := BodyOf(b);
  }

  method ConvertBodyToParser(fb: Body) returns (b: Option<P.Body>)
    ensures b == ParserBodyOf(fb)
  {
    if fb.kind == "form-data" {
      var params: seq<P.FormDataParam> := [];
      for i := 0 to |fb.formData|
        invariant params == FormParamsOf(fb.formData[..i])
      {
        params := params + [FormParamOf(fb.formData[i])];
      }
      assert fb.formData[..|fb.formData|] == fb.formData;
      return Some(ParserBody("formdata").(formData := params));
    }
    if fb.kind == "x-www-form-urlencoded" {
      var fields := ConvertRowsToParser(fb.urlencoded);
      return Some(ParserBody("urlencoded").(urlencoded := fields));
    }
    b := ParserBodyOf(fb);
  }

  method ConvertRowsToParser(rows: seq<KeyValue>) returns (fields: seq<P.Field>)
    ensures fields == FieldsOf(rows)
  {
    fields := [];
    for i := 0 to |rows|
      invariant fields == FieldsOf(rows[..i])
    {
      fields := fields + [FieldOf(rows[i])];
    }
    assert rows[..|rows|] == rows;
  }

  method ConvertFieldsToFrontend(fields: seq<P.Field>) returns (rows: seq<KeyValue>)
    ensures rows == RowsOf(fields)
  {
    rows := [];
    for i := 0 to |fields|
      invariant rows == RowsOf(fields[..i])
    {
      rows := rows + [RowOf(fields[i])];
    }
    assert fields[..|fields|] == fields;
  }

  // ---------- items ----------

  /** Anything without a method is read as a folder; what has no item list has no children. */
  function ParserItemOf(x: Item): P.Item {
    if x.Request? && x.method_ != "" then
      P.Leaf(x.name,
        P.Request(x.method_, x.url, FieldsOf(x.params), FieldsOf(x.headers), ParserBodyOf(x.body),
                  ConvertAuthToParser(x.auth)),
        BuildEvents(x.scripts), ConvertAuthToParser(x.auth))
    else if x.Request? then
      P.Folder(x.name, [], BuildEvents(x.scripts), ConvertAuthToParser(x.auth))
    else
      P.Folder(x.name, seq(|x.items|, i requires 0 <= i < |x.items| => ParserItemOf(x.items[i])),
        BuildEvents(x.scripts), ConvertAuthToParser(x.auth))
  }

  function ItemOf(x: P.Item): Item {
    match x
    case Folder(name, items, events, auth) =>
      Folder("", name, ConvertAuthToFrontend(auth, false), ExtractScripts(events),
        seq(|items|, i requires 0 <= i < |items| => ItemOf(items[i])))
    case Leaf(name, request, events, auth) =>
      Request("", name, request.method_, request.rawUrl, RowsOf(request.query), RowsOf(request.headers),
        BodyOf(request.body), ConvertAuthToFrontend(request.auth, false), ExtractScripts(events))
  }

  function ParserItemsOf(items: seq<Item>): seq<P.Item> {
    seq(|items|, i requires 0 <= i < |items| => ParserItemOf(items[i]))
  }

  function ItemsOf(items: seq<P.Item>): seq<Item> {
    seq(|items|, i requires 0 <= i < |items| => ItemOf(items[i]))
  }

  method ConvertItemToParser(x: Item) returns (r: P.Item)
    ensures r == ParserItemOf(x)
    decreases x
  {
    if x.Request? && x.method_ != "" {
      var headers := ConvertRowsToParser(x.headers);
      var query := ConvertRowsToParser(x.params);
      var body := ConvertBodyToParser(x.body);
      var auth := ConvertAuthToParser(x.auth);
      return P.Leaf(x.name, P.Request(x.method_, x.url, query, headers, body, auth), BuildEvents(x.scripts), auth);
    }
    var children: seq<P.Item> := [];
    if x.Folder? {
      for i := 0 to |x.items|
        invariant children == ParserItemsOf(x.items[..i])
      {
        var child := ConvertItemToParser(x.items[i]);
        children := children + [child];
      }
      assert x.items[..|x.items|] == x.items;
    }
    r := P.Folder(x.name, children, BuildEvents(x.scripts), ConvertAuthToParser(x.auth));
  }

  method ConvertItemToFrontend(x: P.Item) returns (r: Item)
    ensures r == ItemOf(x)
    decreases x
  {
    match x
    case Folder(name, items, events, auth) =>
      var children: seq<Item> := [];
      for i := 0 to |items|
        invariant children == ItemsOf(items[..i])
      {
        var child := ConvertItemToFrontend(items[i]);
        children := children + [child];
      }
      assert items[..|items|] == items;
      r := Folder("", name, ConvertAuthToFrontend(auth, false), ExtractScripts(events), children);
    case Leaf(name, request, events, auth) =>
      var params := ConvertFieldsToFrontend(request.query);
      var headers := ConvertFieldsToFrontend(request.headers);
      var body := ConvertBodyToFrontend(request.body);
      r := Request("", name, request.method_, request.rawUrl, params, headers, body,
        ConvertAuthToFrontend(request.auth, false), ExtractScripts(events));
  }

  // ---------- collections ----------

  function ParserVariableOf(v: EnvVariable): P.Variable {
    P.Variable(v.key, v.initialValue, !v.enabled)
  }

  function VariableOf(v: P.Variable): EnvVariable {
    EnvVariable("", !v.disabled, v.key, v.value, v.value)
  }

  function ParserVariablesOf(vars: seq<EnvVariable>): seq<P.Variable> {
    seq(|vars|, i requires 0 <= i < |vars| => ParserVariableOf(vars[i]))
  }

  function VariablesOf(vars: seq<P.Variable>): seq<EnvVariable> {
    seq(|vars|, i requires 0 <= i < |vars| => VariableOf(vars[i]))
  }

  /** The description is not carried; the id is, and a missing one is minted on the way back. */
  function ParserCollectionOf(c: Collection): P.Collection {
    P.Collection(c.id, c.name, "", ParserItemsOf(c.items), ConvertAuthToParser(c.auth),
      ParserVariablesOf(c.variables), BuildEvents(c.scripts))
  }

  function CollectionOf(c: P.Collection): Collection {
    Collection(c.postmanId, c.name, c.description, ConvertAuthToFrontend(c.auth, true), VariablesOf(c.variables),
      ExtractScripts(c.events), ItemsOf(c.items))
  }

  method CollectionToParser(c: Collection) returns (r: P.Collection)
    ensures r == ParserCollectionOf(c)
  {
    var vars: seq<P.Variable> := [];
    for i := 0 to |c.variables|
      invariant vars == ParserVariablesOf(c.variables[..i])
    {
      vars := vars + [ParserVariableOf(c.variables[i])];
    }
    assert c.variables[..|c.variables|] == c.variables;
    var items: seq<P.Item> := [];
    for i := 0 to |c.items|
      invariant items == ParserItemsOf(c.items[..i])
    {
      var item := ConvertItemToParser(c.items[i]);
      items := items + [item];
    }
    assert c.items[..|c.items|] == c.items;
    r := P.Collection(c.id, c.name, "", items, ConvertAuthToParser(c.auth), vars, BuildEvents(c.scripts));
  }

  method CollectionToFrontend(c: P.Collection) returns (r: Collection)
    ensures r == CollectionOf(c)
  {
    var vars: seq<EnvVariable> := [];
    for i := 0 to |c.variables|
      invariant vars == VariablesOf(c.variables[..i])
    {
      vars := vars + [VariableOf(c.variables[i])];
    }
    assert c.variables[..|c.variables|] == c.variables;
    var items: seq<Item> := [];
    for i := 0 to |c.items|
      invariant items == ItemsOf(c.items[..i])
    {
      var item := ConvertItemToFrontend(c.items[i]);
      items := items + [item];
    }
    assert c.items[..|c.items|] == c.items;
    r := Collection(c.postmanId, c.name, c.description, ConvertAuthToFrontend(c.auth, true), vars,
      ExtractScripts(c.events), items);
  }

  // ---------- what the parser's form cannot hold ----------

  function StripRow(kv: KeyValue): KeyValue {
    kv.(id := "", description := "")
  }

  function StripRows(rows: seq<KeyValue>): seq<KeyValue> {
    seq(|rows|, i requires 0 <= i < |rows| => StripRow(rows[i]))
  }

  function StripFormItem(p: FormDataItem): FormDataItem {
    p.(id := "", description := "", fileContent := "")
  }

  function StripFormItems(items: seq<FormDataItem>): seq<FormDataItem> {
    seq(|items|, i requires 0 <= i < |items| => StripFormItem(items[i]))
  }

  function StripBody(b: Body): Body {
    b.(formData := StripFormItems(b.formData), urlencoded := StripRows(b.urlencoded))
  }

  /** An item without ids, descriptions and file contents. */
  function StripItem(x: Item): Item {
    match x
    case Request(_, _, _, _, params, headers, body, _, _) =>
      x.(id := "", params := StripRows(params), headers := StripRows(headers), body := StripBody(body))
    case Folder(_, _, _, _, items) =>
      x.(id := "", items := seq(|items|, i requires 0 <= i < |items| => StripItem(items[i])))
  }

  function StripItems(items: seq<Item>): seq<Item> {
    seq(|items|, i requires 0 <= i < |items| => StripItem(items[i]))
  }

  function StripVariable(v: EnvVariable): EnvVariable {
    v.(id := "", currentValue := v.initialValue)
  }

  function StripVariables(vars: seq<EnvVariable>): seq<EnvVariable> {
    seq(|vars|, i requires 0 <= i < |vars| => StripVariable(vars[i]))
  }

  function Strip(c: Collection): Collection {
    c.(description := "", variables := StripVariables(c.variables), items := StripItems(c.items))
  }

  // ---------- what comes back ----------

  /** The body has a known kind, nothing filled in that belongs to another kind, and a content type of its own. */
  predicate BodySurvives(b: Body) {
    && b.kind in {"none", "raw", "form-data", "x-www-form-urlencoded", "graphql", "binary"}
    && (b.kind != "raw" ==> b.raw == "" && b.rawContentType == "application/json")
    && b.rawContentType in {"application/json", "application/xml", "text/plain", "text/html", "application/javascript"}
    && (b.formData != [] ==> b.kind == "form-data")
    && (forall i :: 0 <= i < |b.formData| ==> b.formData[i].valueType != "")
    && (b.urlencoded != [] ==> b.kind == "x-www-form-urlencoded")
    && (b.graphqlQuery != "" || b.graphqlVariables != "" ==> b.kind == "graphql")
  }

  predicate ItemSurvives(x: Item) {
    match x
    case Request(_, _, method_, _, _, _, body, auth, _) =>
      method_ != "" && BodySurvives(body) && AuthSurvives(auth, false)
    case Folder(_, _, auth, _, items) =>
      AuthSurvives(auth, false) && forall i :: 0 <= i < |items| ==> ItemSurvives(items[i])
  }

  predicate Survives(c: Collection) {
    AuthSurvives(c.auth, true) && forall i :: 0 <= i < |c.items| ==> ItemSurvives(c.items[i])
  }

  lemma RowsReturn(rows: seq<KeyValue>)
    ensures RowsOf(FieldsOf(rows)) == StripRows(rows)
  {
  }

  lemma ContentTypeReturnsIff(contentType: string)
    ensures RawContentType(Some(Language(contentType))) == contentType
       <==> contentType in {"application/json", "application/xml", "text/plain", "text/html", "application/javascript"}
  {
  }

  lemma FormReturnsIff(items: seq<FormDataItem>)
    ensures FormItemsOf(FormParamsOf(items)) == StripFormItems(items)
       <==> forall i :: 0 <= i < |items| ==> items[i].valueType != ""
  {
    var back, stripped := FormItemsOf(FormParamsOf(items)), StripFormItems(items);
    if back == stripped {
      forall i | 0 <= i < |items| ensures items[i].valueType != "" {
        assert back[i] == stripped[i];
      }
    }
  }

  lemma BodyRoundTripIff(b: Body)
    ensures BodyOf(ParserBodyOf(b)) == StripBody(b) <==> BodySurvives(b)
  {
    RowsReturn(b.urlencoded);
    ContentTypeReturnsIff(b.rawContentType);
    FormReturnsIff(b.formData);
    assert StripFormItems([]) == [] && StripRows([]) == [];
    assert |StripFormItems(b.formData)| == |b.formData| && |StripRows(b.urlencoded)| == |b.urlencoded|;
  }

  /** The body without the contents that belong to other kinds. */
  function OwnContents(b: Body): Body {
    Body(
      b.kind,
      if b.kind == "raw" then b.raw else "",
      if b.kind == "raw" then b.rawContentType else "application/json",
      if b.kind == "form-data" then b.formData else [],
      if b.kind == "x-www-form-urlencoded" then b.urlencoded else [],
      if b.kind == "graphql" then b.graphqlQuery else "",
      if b.kind == "graphql" then b.graphqlVariables else "")
  }

  /** Changing the kind keeps what was typed for the old one in the editor; only the new one's contents come back. */
  lemma OtherContentsAreLost(b: Body)
    requires BodySurvives(OwnContents(b))
    ensures BodyOf(ParserBodyOf(b)) == StripBody(OwnContents(b))
  {
    assert ParserBodyOf(OwnContents(b)) == ParserBodyOf(b);
    BodyRoundTripIff(OwnContents(b));
  }

  /** A text typed in before the kind was changed to none is lost. */
  lemma SwitchedBodyForgets(text: string)
    requires text != ""
    ensures var b := Body("none", text, "application/json", [], [], "", "");
            BodyOf(ParserBodyOf(b)) == b.(raw := "") && BodyOf(ParserBodyOf(b)) != StripBody(b)
  {
    OtherContentsAreLost(Body("none", text, "application/json", [], [], "", ""));
  }

  /** An item comes back, up to ids, descriptions and file contents, exactly when it survives. */
  lemma {:induction false} ItemRoundTripIff(x: Item)
    ensures ItemOf(ParserItemOf(x)) == StripItem(x) <==> ItemSurvives(x)
    decreases x
  {
    ScriptsReturn(x.scripts);
    AuthRoundTripIff(x.auth, false);
    match x
    case Request(_, _, _, _, params, headers, body, _, _) =>
      RowsReturn(params);
      RowsReturn(headers);
      BodyRoundTripIff(body);
    case Folder(_, _, _, _, items) =>
      forall i | 0 <= i < |items|
        ensures ItemOf(ParserItemOf(items[i])) == StripItem(items[i]) <==> ItemSurvives(items[i])
      {
        ItemRoundTripIff(items[i]);
      }
      ItemwiseIff(items);
      assert ItemOf(ParserItemOf(x)).items == ItemsOf(ParserItemsOf(items));
      assert StripItem(x).items == StripItems(items);
  }

  lemma ItemwiseIff(items: seq<Item>)
    ensures ItemsOf(ParserItemsOf(items)) == StripItems(items)
       <==> forall i :: 0 <= i < |items| ==> ItemOf(ParserItemOf(items[i])) == StripItem(items[i])
  {
    var back, stripped := ItemsOf(ParserItemsOf(items)), StripItems(items);
    if back == stripped {
      forall i | 0 <= i < |items| ensures ItemOf(ParserItemOf(items[i])) == StripItem(items[i]) {
        assert back[i] == stripped[i];
      }
    }
  }

  /** The whole collection comes back, up to what is stripped, exactly when it survives. */
  lemma CollectionRoundTripIff(c: Collection)
    ensures CollectionOf(ParserCollectionOf(c)) == Strip(c) <==> Survives(c)
  {
    ScriptsReturn(c.scripts);
    AuthRoundTripIff(c.auth, true);
    ItemwiseIff(c.items);
    forall i | 0 <= i < |c.items|
      ensures ItemOf(ParserItemOf(c.items[i])) == StripItem(c.items[i]) <==> ItemSurvives(c.items[i])
    {
      ItemRoundTripIff(c.items[i]);
    }
    assert VariablesOf(ParserVariablesOf(c.variables)) == StripVariables(c.variables);
  }

  // ---------- what was imported ----------

  predicate HasMethods(x: P.Item) {
    match x
    case Folder(_, items, _, _) => forall i :: 0 <= i < |items| ==> HasMethods(items[i])
    case Leaf(_, request, _, _) => request.method_ != ""
  }

  lemma {:induction false} ImportedItemSurvivesIff(x: P.Item)
    ensures ItemSurvives(ItemOf(x)) <==> HasMethods(x)
    ensures StripItem(ItemOf(x)) == ItemOf(x)
    decreases x
  {
    match x
    case Folder(_, items, _, auth) =>
      ConvertedSurvives(auth, false);
      forall i | 0 <= i < |items|
        ensures ItemSurvives(ItemOf(items[i])) <==> HasMethods(items[i])
        ensures StripItem(ItemOf(items[i])) == ItemOf(items[i])
      {
        ImportedItemSurvivesIff(items[i]);
      }
      assert ItemOf(x).items == ItemsOf(items);
      assert StripItems(ItemsOf(items)) == ItemsOf(items);
      assert forall i :: 0 <= i < |items| ==> ItemsOf(items)[i] == ItemOf(items[i]);
    case Leaf(_, request, _, auth) =>
      ConvertedSurvives(request.auth, false);
      ImportedBodySurvives(request.body);
      ImportedRowsAreBare(request.query);
      ImportedRowsAreBare(request.headers);
  }

  lemma ImportedRowsAreBare(fields: seq<P.Field>)
    ensures StripRows(RowsOf(fields)) == RowsOf(fields)
  {
  }

  lemma ImportedBodySurvives(b: Option<P.Body>)
    ensures BodySurvives(BodyOf(b)) && StripBody(BodyOf(b)) == BodyOf(b)
  {
    if b.Some? {
      ImportedRowsAreBare(b.value.urlencoded);
      assert StripFormItems(FormItemsOf(b.value.formData)) == FormItemsOf(b.value.formData);
    }
    assert StripFormItems([]) == [] && StripRows([]) == [];
  }

  /** In memory, what was converted once can be converted there and back without further loss, but for its description. */
  lemma ImportIsStable(c: P.Collection)
    requires forall i :: 0 <= i < |c.items| ==> HasMethods(c.items[i])
    ensures var imported := CollectionOf(c);
            CollectionOf(ParserCollectionOf(imported)) == imported.(description := "")
  {
    var imported := CollectionOf(c);
    ConvertedSurvives(c.auth, true);
    forall i | 0 <= i < |c.items|
      ensures ItemSurvives(imported.items[i]) && StripItem(imported.items[i]) == imported.items[i]
    {
      ImportedItemSurvivesIff(c.items[i]);
    }
    CollectionRoundTripIff(imported);
    assert StripItems(imported.items) == imported.items;
    assert StripVariables(imported.variables) == imported.variables;
  }

  /** In memory, a request without a method is taken for an empty folder, whatever else it holds, and comes back as one. */
  lemma MethodlessBecomesFolder(x: Item)
    requires x.Request? && x.method_ == ""
    ensures ParserItemOf(x).Folder? && ParserItemOf(x).items == []
    ensures ItemOf(ParserItemOf(x)).Folder? && ItemOf(ParserItemOf(x)).items == []
  {
    var back := ItemOf(ParserItemOf(x));
    assert |back.items| == |ParserItemOf(x).items| == 0;
  }
}
