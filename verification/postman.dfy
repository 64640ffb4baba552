/** The parser's data: collections as they are written to disk and run by the engine. */
module Postman {
  import opened Prelude

  datatype Script = Script(kind: string, exec: seq<string>)

  datatype Event = Event(listen: string, script: Script)

  /** Auth parameter values are strings, or other JSON values with their printed form. */
  datatype ParamValue = Str(s: string) | Other(printed: string)

  datatype AuthParam = AuthParam(key: string, value: ParamValue, kind: string)

  /** `kind` is the auth type; each type has its own parameter list. */
  datatype Auth = Auth(
    kind: string, basic: seq<AuthParam>, bearer: seq<AuthParam>, apikey: seq<AuthParam>,
    oauth2: seq<AuthParam>, digest: seq<AuthParam>, awsv4: seq<AuthParam>, ntlm: seq<AuthParam>,
    hawk: seq<AuthParam>, oauth1: seq<AuthParam>)

  datatype Field = Field(key: string, value: string, disabled: bool)

  datatype FormDataParam = FormDataParam(key: string, value: string, src: string, kind: string, disabled: bool)

  datatype GraphQL = GraphQL(query: string, variables: string)

  /** `language` is `options.raw.language`, when those options are present. */
  datatype Body = Body(
    mode: string, raw: string, formData: seq<FormDataParam>, urlencoded: seq<Field>,
    graphql: Option<GraphQL>, language: Option<string>)

  datatype Request = Request(
    method_: string, rawUrl: string, query: seq<Field>, headers: seq<Field>,
    body: Option<Body>, auth: Option<Auth>)

  /** A folder (a non-nil item list, possibly empty) or a request. */
  datatype Item =
    | Folder(name: string, items: seq<Item>, events: seq<Event>, auth: Option<Auth>)
    | Leaf(name: string, request: Request, events: seq<Event>, auth: Option<Auth>)

  datatype Variable = Variable(key: string, value: string, disabled: bool)

  datatype Collection = Collection(
    postmanId: string, name: string, description: string, items: seq<Item>, auth: Option<Auth>,
    variables: seq<Variable>, events: seq<Event>)

  datatype EnvironmentValue = EnvironmentValue(key: string, value: string, enabled: bool)

  datatype Environment = Environment(id: string, name: string, values: seq<EnvironmentValue>)
}
