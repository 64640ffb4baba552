/** The front end's own data: collections as the browser holds and the agent stores them. */
module Frontend {
  import opened Prelude

  datatype KeyValue = KeyValue(id: string, enabled: bool, key: string, value: string, description: string)

  datatype FormDataItem = FormDataItem(
    id: string, enabled: bool, key: string, valueType: string, value: string,
    fileName: string, fileContent: string, description: string)

  /** `kind` is the source's `type` field, kept as an open string as it is on the wire. */
  datatype Body = Body(
    kind: string, raw: string, rawContentType: string, formData: seq<FormDataItem>,
    urlencoded: seq<KeyValue>, graphqlQuery: string, graphqlVariables: string)

  datatype Bearer = Bearer(token: string)
  datatype Login = Login(username: string, password: string)
  datatype ApiKey = ApiKey(key: string, value: string, addTo: string)
  datatype OAuth1 = OAuth1(
    consumerKey: string, consumerSecret: string, token: string, tokenSecret: string, signatureMethod: string)
  datatype OAuth2 = OAuth2(grantType: string, accessToken: string, tokenType: string, addTokenTo: string)
  datatype Hawk = Hawk(authId: string, authKey: string, algorithm: string)
  datatype AwsSignature = AwsSignature(
    accessKey: string, secretKey: string, region: string, service: string, sessionToken: string)
  datatype Ntlm = Ntlm(username: string, password: string, domain: string, workstation: string)

  datatype Auth = Auth(
    kind: string, bearer: Option<Bearer>, basic: Option<Login>, apiKey: Option<ApiKey>,
    digest: Option<Login>, oauth1: Option<OAuth1>, oauth2: Option<OAuth2>, hawk: Option<Hawk>,
    awsSignature: Option<AwsSignature>, ntlm: Option<Ntlm>)

  /** An auth block of the given kind with no settings. */
  function PlainAuth(kind: string): Auth {
    Auth(kind, None, None, None, None, None, None, None, None, None)
  }

  datatype Scripts = Scripts(preRequest: string, test: string)

  /** A collection item: the source tells the two apart by the presence of `method`. */
  datatype Item =
    | Request(
        id: string, name: string, method_: string, url: string, params: seq<KeyValue>,
        headers: seq<KeyValue>, body: Body, auth: Auth, scripts: Scripts)
    | Folder(id: string, name: string, auth: Auth, scripts: Scripts, items: seq<Item>)

  datatype EnvVariable = EnvVariable(
    id: string, enabled: bool, key: string, initialValue: string, currentValue: string)

  datatype Collection = Collection(
    id: string, name: string, description: string, auth: Auth, variables: seq<EnvVariable>,
    scripts: Scripts, items: seq<Item>)
}
