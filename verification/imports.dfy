/**
 What an import makes of any collection of the parser's, field by field, and what of it is not
 looked at: a request's own auth is that of its request part, whatever the item around it says.
 */
module Imports {
  import opened Prelude
  import opened Frontend
  import opened Splitting
  import opened AuthConversion
  import opened Convert
  import P = Postman

  // ---------- scripts and parameters: the first that fits ----------

  /** The text of the first event that listens, or nothing. */
  ghost predicate FirstScript(events: seq<P.Event>, listen: string, text: string) {
    || (text == "" && forall i :: 0 <= i < |events| ==> events[i].listen != listen)
    || exists i :: 0 <= i < |events| && events[i].listen == listen && text == Join('\n', events[i].script.exec)
         && forall j :: 0 <= j < i ==> events[j].listen != listen
  }

  lemma {:induction false} ScriptIsFirst(events: seq<P.Event>, listen: string)
    ensures FirstScript(events, listen, ExtractScript(events, listen))
    decreases |events|
  {
    if events != [] && events[0].listen != listen {
      var rest, text := events[1..], ExtractScript(events[1..], listen);
      ScriptIsFirst(rest, listen);
      if i :| 0 <= i < |rest| && rest[i].listen == listen && text == Join('\n', rest[i].script.exec)
              && forall j :: 0 <= j < i ==> rest[j].listen != listen {
        assert events[i + 1] == rest[i] && forall j :: 0 < j < i + 1 ==> events[j] == rest[j - 1];
      } else {
        assert forall j :: 0 < j < |events| ==> events[j] == rest[j - 1];
      }
    }
  }

  /** A parameter's value is a text, or any other value as it prints. */
  predicate Says(p: P.AuthParam, text: string) {
    p.value == P.Str(text) || p.value == P.Other(text)
  }

  /** The value of the first parameter with the key, or nothing. */
  ghost predicate FirstParam(params: seq<P.AuthParam>, key: string, text: string) {
    || (text == "" && forall i :: 0 <= i < |params| ==> params[i].key != key)
    || exists i :: 0 <= i < |params| && params[i].key == key && Says(params[i], text)
         && forall j :: 0 <= j < i ==> params[j].key != key
  }

  lemma {:induction false} ParamIsFirst(params: seq<P.AuthParam>, key: string)
    ensures FirstParam(params, key, AuthParamStr(params, key))
    decreases |params|
  {
    if params != [] {
      var rest, text := params[1..], AuthParamStr(params[1..], key);
      ParamIsFirst(rest, key);
      if params[0].key == key {
        assert Says(params[0], AuthParamStr(params, key));
      } else if i :| 0 <= i < |rest| && rest[i].key == key && Says(rest[i], text)
                     && forall j :: 0 <= j < i ==> rest[j].key != key {
        assert params[i + 1] == rest[i] && forall j :: 0 < j < i + 1 ==> params[j] == rest[j - 1];
      } else {
        assert forall j :: 0 < j < |params| ==> params[j] == rest[j - 1];
      }
    }
  }

  // ---------- auth ----------

  /** The texts are what the parameters say under the keys, one for one. */
  ghost predicate AllFirst(params: seq<P.AuthParam>, keys: seq<string>, texts: seq<string>) {
    |keys| == |texts| && forall i :: 0 <= i < |keys| ==> FirstParam(params, keys[i], texts[i])
  }

  /** The auth type is known, and the block of that type reads the parameters of that type. */
  ghost predicate ReadsAuth(a: Option<P.Auth>, isRoot: bool, fa: Auth) {
    if a.None? then fa == PlainAuth(if isRoot then "none" else "inherit")
    else
      var p := a.value;
      match fa.kind
      case "bearer" => p.kind == "bearer" && fa.bearer.Some? && AllFirst(p.bearer, ["token"], [fa.bearer.value.token])
      case "basic" => p.kind == "basic" && fa.basic.Some? && ReadsLogin(p.basic, fa.basic.value)
      case "digest" => p.kind == "digest" && fa.digest.Some? && ReadsLogin(p.digest, fa.digest.value)
      case "api-key" =>
        && p.kind == "apikey" && fa.apiKey.Some?
        && var k := fa.apiKey.value; AllFirst(p.apikey, ["key", "value", "in"], [k.key, k.value, k.addTo])
      case "oauth1" =>
        && p.kind == "oauth1" && fa.oauth1.Some?
        && var o := fa.oauth1.value;
           AllFirst(p.oauth1, ["consumerKey", "consumerSecret", "token", "tokenSecret", "signatureMethod"],
                    [o.consumerKey, o.consumerSecret, o.token, o.tokenSecret, o.signatureMethod])
      case "oauth2" =>
        && p.kind == "oauth2" && fa.oauth2.Some?
        && var o := fa.oauth2.value;
           AllFirst(p.oauth2, ["grant_type", "accessToken", "tokenType", "addTokenTo"],
                    [o.grantType, o.accessToken, o.tokenType, o.addTokenTo])
      case "hawk" =>
        && p.kind == "hawk" && fa.hawk.Some?
        && var h := fa.hawk.value; AllFirst(p.hawk, ["authId", "authKey", "algorithm"], [h.authId, h.authKey, h.algorithm])
      case "aws-signature" =>
        && p.kind == "awsv4" && fa.awsSignature.Some?
        && var s := fa.awsSignature.value;
           AllFirst(p.awsv4, ["accessKey", "secretKey", "region", "service", "sessionToken"],
                    [s.accessKey, s.secretKey, s.region, s.service, s.sessionToken])
      case "ntlm" =>
        && p.kind == "ntlm" && fa.ntlm.Some?
        && var n := fa.ntlm.value;
           AllFirst(p.ntlm, ["username", "password", "domain", "workstation"], [n.username, n.password, n.domain, n.workstation])
      case "none" =>
        p.kind !in {"bearer", "basic", "digest", "apikey", "oauth1", "oauth2", "hawk", "awsv4", "ntlm"}
      case _ => false
  }

  ghost predicate ReadsLogin(params: seq<P.AuthParam>, login: Login) {
    AllFirst(params, ["username", "password"], [login.username, login.password])
  }

  lemma {:induction false} AllAreFirst(params: seq<P.AuthParam>, keys: seq<string>, texts: seq<string>)
    requires |keys| == |texts| && forall i :: 0 <= i < |keys| ==> texts[i] == AuthParamStr(params, keys[i])
    ensures AllFirst(params, keys, texts)
  {
    forall i | 0 <= i < |keys| ensures FirstParam(params, keys[i], texts[i]) {
      ParamIsFirst(params, keys[i]);
    }
  }

  lemma TokenAuthIsRead(a: P.Auth, isRoot: bool)
    requires a.kind in {"bearer", "basic", "digest", "apikey"}
    ensures ReadsAuth(Some(a), isRoot, ConvertAuthToFrontend(Some(a), isRoot))
  {
    var fa := ConvertAuthToFrontend(Some(a), isRoot);
    match a.kind
    case "bearer" => AllAreFirst(a.bearer, ["token"], [fa.bearer.value.token]);
    case "basic" => AllAreFirst(a.basic, ["username", "password"], [fa.basic.value.username, fa.basic.value.password]);
    case "digest" => AllAreFirst(a.digest, ["username", "password"], [fa.digest.value.username, fa.digest.value.password]);
    case _ =>
      var k := fa.apiKey.value;
      AllAreFirst(a.apikey, ["key", "value", "in"], [k.key, k.value, k.addTo]);
  }

  lemma OAuthIsRead(a: P.Auth, isRoot: bool)
    requires a.kind in {"oauth1", "oauth2"}
    ensures ReadsAuth(Some(a), isRoot, ConvertAuthToFrontend(Some(a), isRoot))
  {
    var fa := ConvertAuthToFrontend(Some(a), isRoot);
    if a.kind == "oauth1" {
      var o := fa.oauth1.value;
      AllAreFirst(a.oauth1, ["consumerKey", "consumerSecret", "token", "tokenSecret", "signatureMethod"],
                  [o.consumerKey, o.consumerSecret, o.token, o.tokenSecret, o.signatureMethod]);
    } else {
      var o := fa.oauth2.value;
      AllAreFirst(a.oauth2, ["grant_type", "accessToken", "tokenType", "addTokenTo"],
                  [o.grantType, o.accessToken, o.tokenType, o.addTokenTo]);
    }
  }

  lemma SignedAuthIsRead(a: P.Auth, isRoot: bool)
    requires a.kind in {"hawk", "awsv4", "ntlm"}
    ensures ReadsAuth(Some(a), isRoot, ConvertAuthToFrontend(Some(a), isRoot))
  {
    var fa := ConvertAuthToFrontend(Some(a), isRoot);
    match a.kind
    case "hawk" =>
      var h := fa.hawk.value;
      AllAreFirst(a.hawk, ["authId", "authKey", "algorithm"], [h.authId, h.authKey, h.algorithm]);
    case "awsv4" =>
      var s := fa.awsSignature.value;
      AllAreFirst(a.awsv4, ["accessKey", "secretKey", "region", "service", "sessionToken"],
                  [s.accessKey, s.secretKey, s.region, s.service, s.sessionToken]);
    case _ =>
      var n := fa.ntlm.value;
      AllAreFirst(a.ntlm, ["username", "password", "domain", "workstation"],
                  [n.username, n.password, n.domain, n.workstation]);
  }

  lemma AuthIsRead(a: Option<P.Auth>, isRoot: bool)
    ensures ReadsAuth(a, isRoot, ConvertAuthToFrontend(a, isRoot))
  {
    if a.Some? {
      if a.value.kind in {"bearer", "basic", "digest", "apikey"} {
        TokenAuthIsRead(a.value, isRoot);
      } else if a.value.kind in {"oauth1", "oauth2"} {
        OAuthIsRead(a.value, isRoot);
      } else if a.value.kind in {"hawk", "awsv4", "ntlm"} {
        SignedAuthIsRead(a.value, isRoot);
      } else {
        assert ConvertAuthToFrontend(a, isRoot).kind == "none";
      }
    }
  }

  // ---------- rows and bodies ----------

  predicate ReadsRows(fields: seq<P.Field>, rows: seq<KeyValue>) {
    |rows| == |fields| && forall i :: 0 <= i < |fields| ==>
      rows[i].key == fields[i].key && rows[i].value == fields[i].value && rows[i].enabled == !fields[i].disabled
  }

  predicate ReadsForm(params: seq<P.FormDataParam>, items: seq<FormDataItem>) {
    |items| == |params| && forall i :: 0 <= i < |params| ==>
      && items[i].key == params[i].key && items[i].value == params[i].value && items[i].fileName == params[i].src
      && items[i].enabled == !params[i].disabled
      && items[i].valueType == (if params[i].kind == "" then "text" else params[i].kind)
  }

  /** The kind follows the mode, and only what belongs to it is read. */
  predicate ReadsBody(b: Option<P.Body>, fb: Body) {
    match (if b.Some? then b.value.mode else "")
    case "raw" =>
      && fb.kind == "raw" && fb.raw == b.value.raw
      && fb.rawContentType == (match b.value.language
                               case Some("xml") => "application/xml"
                               case Some("text") => "text/plain"
                               case Some("html") => "text/html"
                               case Some("javascript") => "application/javascript"
                               case _ => "application/json")
    case "formdata" => fb.kind == "form-data" && ReadsForm(b.value.formData, fb.formData)
    case "urlencoded" => fb.kind == "x-www-form-urlencoded" && ReadsRows(b.value.urlencoded, fb.urlencoded)
    case "graphql" =>
      && fb.kind == "graphql"
      && fb.graphqlQuery == (if b.value.graphql.Some? then b.value.graphql.value.query else "")
      && fb.graphqlVariables == (if b.value.graphql.Some? then b.value.graphql.value.variables else "")
    case "file" => fb.kind == "binary"
    case _ => fb.kind == "none"
  }

  lemma BodyIsRead(b: Option<P.Body>)
    ensures ReadsBody(b, BodyOf(b))
  {
  }

  // ---------- items and collections ----------

  ghost predicate ReadsScripts(events: seq<P.Event>, scripts: Scripts) {
    FirstScript(events, "prerequest", scripts.preRequest) && FirstScript(events, "test", scripts.test)
  }

  /** A folder keeps its name, auth, scripts and all its items in order; a request takes its auth from its request part. */
  ghost predicate ReadsItem(p: P.Item, x: Item)
    decreases p
  {
    && x.name == p.name && ReadsScripts(p.events, x.scripts)
    && match p
       case Folder(_, items, _, auth) =>
         && x.Folder? && ReadsAuth(auth, false, x.auth) && |x.items| == |items|
         && forall i :: 0 <= i < |items| ==> ReadsItem(items[i], x.items[i])
       case Leaf(_, request, _, _) =>
         && x.Request? && x.method_ == request.method_ && x.url == request.rawUrl
         && ReadsRows(request.query, x.params) && ReadsRows(request.headers, x.headers)
         && ReadsBody(request.body, x.body) && ReadsAuth(request.auth, false, x.auth)
  }

  predicate ReadsVariables(vars: seq<P.Variable>, read: seq<EnvVariable>) {
    |read| == |vars| && forall i :: 0 <= i < |vars| ==>
      && read[i].key == vars[i].key && read[i].enabled == !vars[i].disabled
      && read[i].initialValue == vars[i].value && read[i].currentValue == vars[i].value
  }

  ghost predicate ReadsCollection(c: P.Collection, read: Collection) {
    && read.id == c.postmanId && read.name == c.name && read.description == c.description
    && ReadsAuth(c.auth, true, read.auth) && ReadsScripts(c.events, read.scripts)
    && ReadsVariables(c.variables, read.variables)
    && |read.items| == |c.items| && forall i :: 0 <= i < |c.items| ==> ReadsItem(c.items[i], read.items[i])
  }

  lemma {:induction false} ItemIsRead(p: P.Item)
    ensures ReadsItem(p, ItemOf(p))
    decreases p
  {
    ScriptIsFirst(p.events, "prerequest");
    ScriptIsFirst(p.events, "test");
    match p
    case Folder(_, items, _, auth) =>
      AuthIsRead(auth, false);
      forall i | 0 <= i < |items| ensures ReadsItem(items[i], ItemOf(p).items[i]) {
        ItemIsRead(items[i]);
      }
    case Leaf(_, request, _, _) =>
      AuthIsRead(request.auth, false);
      BodyIsRead(request.body);
  }

  /** Every collection the parser can hold, exported by this program or not, is read like this. */
  lemma CollectionIsRead(c: P.Collection)
    ensures ReadsCollection(c, CollectionOf(c))
  {
    AuthIsRead(c.auth, true);
    ScriptIsFirst(c.events, "prerequest");
    ScriptIsFirst(c.events, "test");
    forall i | 0 <= i < |c.items| ensures ReadsItem(c.items[i], CollectionOf(c).items[i]) {
      ItemIsRead(c.items[i]);
    }
  }

  /** On the way out a request's auth stands twice, and the description is left behind. */
  lemma ExportWritesTwice(x: Item, c: Collection)
    ensures x.Request? && x.method_ != "" ==>
              ParserItemOf(x).Leaf? && ParserItemOf(x).auth == ParserItemOf(x).request.auth == ConvertAuthToParser(x.auth)
    ensures ParserCollectionOf(c).description == "" && ParserCollectionOf(c).postmanId == c.id
    ensures forall e :: e in ParserItemOf(x).events ==> e.script.kind == "text/javascript" && e.listen in {"prerequest", "test"}
  {
  }
}
