/** Authentication blocks between the front end's form and the parser's parameter lists. */
module AuthConversion {
  import opened Prelude
  import opened Frontend
  import P = Postman

  function Text(key: string, value: string): P.AuthParam {
    P.AuthParam(key, P.Str(value), "string")
  }

  /** An auth of the given type with no parameters. */
  function Typed(kind: string): P.Auth {
    P.Auth(kind, [], [], [], [], [], [], [], [], [])
  }

  function Printed(v: P.ParamValue): string {
    match v
    case Str(s) => s
    case Other(printed) => printed
  }

  /** The value of the first parameter with the key. */
  function AuthParamStr(params: seq<P.AuthParam>, key: string): string {
    if params == [] then ""
    else if params[0].key == key then Printed(params[0].value)
    else AuthParamStr(params[1..], key)
  }

  /** With distinct keys every parameter is found. */
  lemma {:induction false} ParamsFound(params: seq<P.AuthParam>)
    requires forall i, j :: 0 <= i < j < |params| ==> params[i].key != params[j].key
    ensures forall i :: 0 <= i < |params| ==> AuthParamStr(params, params[i].key) == Printed(params[i].value)
  {
    if params != [] {
      ParamsFound(params[1..]);
      forall i | 0 <= i < |params| ensures AuthParamStr(params, params[i].key) == Printed(params[i].value) {
        if i > 0 { assert params[i] == params[1..][i - 1]; }
      }
    }
  }

  // ---------- one block at a time ----------

  function BearerParams(b: Option<Bearer>): seq<P.AuthParam> {
    if b.None? then [] else [Text("token", b.value.token)]
  }

  function BearerBlock(ps: seq<P.AuthParam>): Bearer {
    Bearer(AuthParamStr(ps, "token"))
  }

  function LoginParams(b: Option<Login>): seq<P.AuthParam> {
    if b.None? then [] else [Text("username", b.value.username), Text("password", b.value.password)]
  }

  function LoginBlock(ps: seq<P.AuthParam>): Login {
    Login(AuthParamStr(ps, "username"), AuthParamStr(ps, "password"))
  }

  function ApiKeyParams(b: Option<ApiKey>): seq<P.AuthParam> {
    if b.None? then [] else [Text("key", b.value.key), Text("value", b.value.value), Text("in", b.value.addTo)]
  }

  function ApiKeyBlock(ps: seq<P.AuthParam>): ApiKey {
    ApiKey(AuthParamStr(ps, "key"), AuthParamStr(ps, "value"), AuthParamStr(ps, "in"))
  }

  function OAuth1Params(b: Option<OAuth1>): seq<P.AuthParam> {
    if b.None? then []
    else [Text("consumerKey", b.value.consumerKey), Text("consumerSecret", b.value.consumerSecret),
          Text("token", b.value.token), Text("tokenSecret", b.value.tokenSecret),
          Text("signatureMethod", b.value.signatureMethod)]
  }

  function OAuth1Block(ps: seq<P.AuthParam>): OAuth1 {
    OAuth1(AuthParamStr(ps, "consumerKey"), AuthParamStr(ps, "consumerSecret"), AuthParamStr(ps, "token"),
           AuthParamStr(ps, "tokenSecret"), AuthParamStr(ps, "signatureMethod"))
  }

  function OAuth2Params(b: Option<OAuth2>): seq<P.AuthParam> {
    if b.None? then []
    else [Text("grant_type", b.value.grantType), Text("accessToken", b.value.accessToken),
          Text("tokenType", b.value.tokenType), Text("addTokenTo", b.value.addTokenTo)]
  }

  function OAuth2Block(ps: seq<P.AuthParam>): OAuth2 {
    OAuth2(AuthParamStr(ps, "grant_type"), AuthParamStr(ps, "accessToken"), AuthParamStr(ps, "tokenType"),
           AuthParamStr(ps, "addTokenTo"))
  }

  function HawkParams(b: Option<Hawk>): seq<P.AuthParam> {
    if b.None? then []
    else [Text("authId", b.value.authId), Text("authKey", b.value.authKey), Text("algorithm", b.value.algorithm)]
  }

  function HawkBlock(ps: seq<P.AuthParam>): Hawk {
    Hawk(AuthParamStr(ps, "authId"), AuthParamStr(ps, "authKey"), AuthParamStr(ps, "algorithm"))
  }

  function AwsParams(b: Option<AwsSignature>): seq<P.AuthParam> {
    if b.None? then []
    else [Text("accessKey", b.value.accessKey), Text("secretKey", b.value.secretKey), Text("region", b.value.region),
          Text("service", b.value.service), Text("sessionToken", b.value.sessionToken)]
  }

  function AwsBlock(ps: seq<P.AuthParam>): AwsSignature {
    AwsSignature(AuthParamStr(ps, "accessKey"), AuthParamStr(ps, "secretKey"), AuthParamStr(ps, "region"),
                 AuthParamStr(ps, "service"), AuthParamStr(ps, "sessionToken"))
  }

  function NtlmParams(b: Option<Ntlm>): seq<P.AuthParam> {
    if b.None? then []
    else [Text("username", b.value.username), Text("password", b.value.password), Text("domain", b.value.domain),
          Text("workstation", b.value.workstation)]
  }

  function NtlmBlock(ps: seq<P.AuthParam>): Ntlm {
    Ntlm(AuthParamStr(ps, "username"), AuthParamStr(ps, "password"), AuthParamStr(ps, "domain"),
         AuthParamStr(ps, "workstation"))
  }

  // ---------- whole auths ----------

  function ConvertAuthToParser(fa: Auth): Option<P.Auth> {
    if fa.kind == "none" then Some(Typed("noauth"))
    else if fa.kind == "inherit" then None
    else if fa.kind == "bearer" then Some(Typed("bearer").(bearer := BearerParams(fa.bearer)))
    else if fa.kind == "basic" then Some(Typed("basic").(basic := LoginParams(fa.basic)))
    else if fa.kind == "api-key" then Some(Typed("apikey").(apikey := ApiKeyParams(fa.apiKey)))
    else if fa.kind == "digest" then Some(Typed("digest").(digest := LoginParams(fa.digest)))
    else if fa.kind == "oauth1" then Some(Typed("oauth1").(oauth1 := OAuth1Params(fa.oauth1)))
    else if fa.kind == "oauth2" then Some(Typed("oauth2").(oauth2 := OAuth2Params(fa.oauth2)))
    else if fa.kind == "hawk" then Some(Typed("hawk").(hawk := HawkParams(fa.hawk)))
    else if fa.kind == "aws-signature" then Some(Typed("awsv4").(awsv4 := AwsParams(fa.awsSignature)))
    else if fa.kind == "ntlm" then Some(Typed("ntlm").(ntlm := NtlmParams(fa.ntlm)))
    else None
  }

  function ConvertAuthToFrontend(a: Option<P.Auth>, isRoot: bool): Auth {
    if a.None? then PlainAuth(if isRoot then "none" else "inherit")
    else
      var kind := a.value.kind;
      if kind == "noauth" then PlainAuth("none")
      else if kind == "bearer" then PlainAuth("bearer").(bearer := Some(BearerBlock(a.value.bearer)))
      else if kind == "basic" then PlainAuth("basic").(basic := Some(LoginBlock(a.value.basic)))
      else if kind == "apikey" then PlainAuth("api-key").(apiKey := Some(ApiKeyBlock(a.value.apikey)))
      else if kind == "digest" then PlainAuth("digest").(digest := Some(LoginBlock(a.value.digest)))
      else if kind == "oauth1" then PlainAuth("oauth1").(oauth1 := Some(OAuth1Block(a.value.oauth1)))
      else if kind == "oauth2" then PlainAuth("oauth2").(oauth2 := Some(OAuth2Block(a.value.oauth2)))
      else if kind == "hawk" then PlainAuth("hawk").(hawk := Some(HawkBlock(a.value.hawk)))
      else if kind == "awsv4" then PlainAuth("aws-signature").(awsSignature := Some(AwsBlock(a.value.awsv4)))
      else if kind == "ntlm" then PlainAuth("ntlm").(ntlm := Some(NtlmBlock(a.value.ntlm)))
      else PlainAuth("none")
  }

  // ---------- what survives ----------

  /** No block at all is set, other than perhaps the one that belongs to the kind. */
  predicate OnlyOwnBlock(a: Auth) {
    && (a.bearer.Some? ==> a.kind == "bearer") && (a.basic.Some? ==> a.kind == "basic")
    && (a.apiKey.Some? ==> a.kind == "api-key") && (a.digest.Some? ==> a.kind == "digest")
    && (a.oauth1.Some? ==> a.kind == "oauth1") && (a.oauth2.Some? ==> a.kind == "oauth2")
    && (a.hawk.Some? ==> a.kind == "hawk") && (a.awsSignature.Some? ==> a.kind == "aws-signature")
    && (a.ntlm.Some? ==> a.kind == "ntlm")
  }

  /** The kind is a supported one, and its block is present if it has one. */
  predicate OwnBlockPresent(a: Auth) {
    if a.kind == "bearer" then a.bearer.Some?
    else if a.kind == "basic" then a.basic.Some?
    else if a.kind == "api-key" then a.apiKey.Some?
    else if a.kind == "digest" then a.digest.Some?
    else if a.kind == "oauth1" then a.oauth1.Some?
    else if a.kind == "oauth2" then a.oauth2.Some?
    else if a.kind == "hawk" then a.hawk.Some?
    else if a.kind == "aws-signature" then a.awsSignature.Some?
    else if a.kind == "ntlm" then a.ntlm.Some?
    else a.kind == "none" || a.kind == "inherit"
  }

  /** Only its own block, which is there; and a collection's own auth is not to inherit. */
  predicate AuthSurvives(a: Auth, isRoot: bool) {
    OnlyOwnBlock(a) && OwnBlockPresent(a) && (isRoot ==> a.kind != "inherit")
  }

  lemma SimpleAuthReturns(a: Auth, isRoot: bool)
    requires AuthSurvives(a, isRoot) && a.kind in {"none", "inherit", "bearer"}
    ensures ConvertAuthToFrontend(ConvertAuthToParser(a), isRoot) == a
  {
    if a.bearer.Some? {
      ParamsFound(BearerParams(a.bearer));
      assert BearerParams(a.bearer)[0].key == "token";
    }
  }

  lemma LoginAuthReturns(a: Auth, isRoot: bool)
    requires AuthSurvives(a, isRoot) && a.kind in {"basic", "api-key", "digest"}
    ensures ConvertAuthToFrontend(ConvertAuthToParser(a), isRoot) == a
  {
    var basic, digest, key := LoginParams(a.basic), LoginParams(a.digest), ApiKeyParams(a.apiKey);
    ParamsFound(basic);
    ParamsFound(digest);
    ParamsFound(key);
    assert a.basic.Some? ==> basic[0].key == "username" && basic[1].key == "password";
    assert a.digest.Some? ==> digest[0].key == "username" && digest[1].key == "password";
    assert a.apiKey.Some? ==> key[0].key == "key" && key[1].key == "value" && key[2].key == "in";
  }

  lemma SurvivingAuthReturns(a: Auth, isRoot: bool)
    requires AuthSurvives(a, isRoot)
    ensures ConvertAuthToFrontend(ConvertAuthToParser(a), isRoot) == a
  {
    if a.kind in {"oauth1", "hawk"} {
      OAuthReturns(a, isRoot);
    } else if a.kind in {"oauth2", "ntlm"} {
      TokenAuthReturns(a, isRoot);
    } else if a.kind == "aws-signature" {
      SignedAuthReturns(a, isRoot);
    } else if a.kind in {"basic", "api-key", "digest"} {
      LoginAuthReturns(a, isRoot);
    } else {
      SimpleAuthReturns(a, isRoot);
    }
  }

  lemma OAuthReturns(a: Auth, isRoot: bool)
    requires AuthSurvives(a, isRoot) && a.kind in {"oauth1", "hawk"}
    ensures ConvertAuthToFrontend(ConvertAuthToParser(a), isRoot) == a
  {
    if a.kind == "oauth1" {
      var ps := OAuth1Params(a.oauth1);
      ParamsFound(ps);
      assert ps[0].key == "consumerKey" && ps[1].key == "consumerSecret" && ps[2].key == "token";
      assert ps[3].key == "tokenSecret" && ps[4].key == "signatureMethod";
    } else {
      var ps := HawkParams(a.hawk);
      ParamsFound(ps);
      assert ps[0].key == "authId" && ps[1].key == "authKey" && ps[2].key == "algorithm";
    }
  }

  lemma TokenAuthReturns(a: Auth, isRoot: bool)
    requires AuthSurvives(a, isRoot) && a.kind in {"oauth2", "ntlm"}
    ensures ConvertAuthToFrontend(ConvertAuthToParser(a), isRoot) == a
  {
    if a.kind == "oauth2" {
      var ps := OAuth2Params(a.oauth2);
      ParamsFound(ps);
      assert ps[0].key == "grant_type" && ps[1].key == "accessToken";
      assert ps[2].key == "tokenType" && ps[3].key == "addTokenTo";
    } else {
      var ps := NtlmParams(a.ntlm);
      ParamsFound(ps);
      assert ps[0].key == "username" && ps[1].key == "password";
      assert ps[2].key == "domain" && ps[3].key == "workstation";
    }
  }

  lemma SignedAuthReturns(a: Auth, isRoot: bool)
    requires AuthSurvives(a, isRoot) && a.kind == "aws-signature"
    ensures ConvertAuthToFrontend(ConvertAuthToParser(a), isRoot) == a
  {
    var ps := AwsParams(a.awsSignature);
    ParamsFound(ps);
    assert ps[0].key == "accessKey" && ps[1].key == "secretKey" && ps[2].key == "region";
    assert ps[3].key == "service" && ps[4].key == "sessionToken";
  }

  lemma PlainKindsSurvive(a: P.Auth, isRoot: bool)
    requires a.kind in {"noauth", "bearer", "basic", "apikey", "digest"}
    ensures AuthSurvives(ConvertAuthToFrontend(Some(a), isRoot), isRoot)
  {
  }

  lemma SignedKindsSurvive(a: P.Auth, isRoot: bool)
    requires a.kind in {"oauth1", "oauth2", "hawk", "awsv4", "ntlm"}
    ensures AuthSurvives(ConvertAuthToFrontend(Some(a), isRoot), isRoot)
  {
  }

  /** Everything that comes in from the parser's side survives; a root never inherits. */
  lemma ConvertedSurvives(a: Option<P.Auth>, isRoot: bool)
    ensures AuthSurvives(ConvertAuthToFrontend(a, isRoot), isRoot)
  {
    if a.Some? {
      if a.value.kind in {"noauth", "bearer", "basic", "apikey", "digest"} {
        PlainKindsSurvive(a.value, isRoot);
      } else if a.value.kind in {"oauth1", "oauth2", "hawk", "awsv4", "ntlm"} {
        SignedKindsSurvive(a.value, isRoot);
      } else {
        assert ConvertAuthToFrontend(a, isRoot) == PlainAuth("none");
      }
    }
  }

  /** An auth comes back as it was exactly when it survives. */
  lemma {:induction false} AuthRoundTripIff(a: Auth, isRoot: bool)
    ensures ConvertAuthToFrontend(ConvertAuthToParser(a), isRoot) == a <==> AuthSurvives(a, isRoot)
  {
    ConvertedSurvives(ConvertAuthToParser(a), isRoot);
    if AuthSurvives(a, isRoot) {
      SurvivingAuthReturns(a, isRoot);
    }
  }

  /** The auth without the blocks of other kinds. */
  function OwnBlockOnly(a: Auth): Auth {
    Auth(
      a.kind,
      if a.kind == "bearer" then a.bearer else None,
      if a.kind == "basic" then a.basic else None,
      if a.kind == "api-key" then a.apiKey else None,
      if a.kind == "digest" then a.digest else None,
      if a.kind == "oauth1" then a.oauth1 else None,
      if a.kind == "oauth2" then a.oauth2 else None,
      if a.kind == "hawk" then a.hawk else None,
      if a.kind == "aws-signature" then a.awsSignature else None,
      if a.kind == "ntlm" then a.ntlm else None)
  }

  /** Changing the kind keeps the block of the old kind in the editor; only the block of the new one comes back. */
  lemma OtherBlocksAreLost(a: Auth, isRoot: bool)
    requires OwnBlockPresent(a) && (isRoot ==> a.kind != "inherit")
    ensures ConvertAuthToFrontend(ConvertAuthToParser(a), isRoot) == OwnBlockOnly(a)
  {
    OwnBlockConverts(a);
    SurvivingAuthReturns(OwnBlockOnly(a), isRoot);
  }

  lemma OwnBlockConverts(a: Auth)
    requires OwnBlockPresent(a)
    ensures ConvertAuthToParser(OwnBlockOnly(a)) == ConvertAuthToParser(a)
  {
  }

  /** A token typed in before the kind was changed to basic is such a block. */
  lemma SwitchedAuthForgets(isRoot: bool, token: string, login: Login)
    ensures var a := PlainAuth("basic").(bearer := Some(Bearer(token)), basic := Some(login));
            ConvertAuthToFrontend(ConvertAuthToParser(a), isRoot) == a.(bearer := None)
  {
    OtherBlocksAreLost(PlainAuth("basic").(bearer := Some(Bearer(token)), basic := Some(login)), isRoot);
  }
}
