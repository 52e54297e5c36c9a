/** The zod schemas of apps/server/types.ts as validators over a JSON request
    body. Like zod's `safeParse`, a validator never throws: it returns the
    parsed data or every issue it found, field by field in declaration order.
    Unknown keys are dropped from the parsed data. */
module Schemas {
  import opened Outcomes
  import opened Js

  /** One validation issue, identified by the offending field. */
  datatype Issue =
      /** The field is not a string; `received` is zod's name for what it is. */
    | InvalidType(path: string, received: string)
      /** The field is a string shorter than `minimum`. */
    | TooSmall(path: string, minimum: nat)

  /** The outcome of `safeParse`: `success: true` with data, or the issues. */
  datatype Parsed<+T> = Valid(data: T) | Invalid(issues: seq<Issue>)

  /** The data `CreateUserSchema` yields. */
  datatype NewUser = NewUser(username: string, password: string, name: Option<string>)

  /** The data `LoginUserSchema` yields. */
  datatype Credentials = Credentials(username: string, password: string)

  const MinUsernameLength: nat := 3
  const MinPasswordLength: nat := 6

  /** The field is a string of at least `min` characters (`z.string().min(min)`). */
  predicate StringOfLength(body: Body, key: string, min: nat) {
    key in body && body[key].Str? && |body[key].s| >= min
  }

  /** The field is absent or a string (`z.string().optional()`). */
  predicate OptionalString(body: Body, key: string) {
    key !in body || body[key].Str?
  }

  /** zod's name for the type of a received value. */
  function TypeName(v: Option<Value>): string {
    match v
    case None => "undefined"
    case Some(Str(_)) => "string"
    case Some(Num(_)) => "number"
    case Some(Bool(_)) => "boolean"
    case Some(Null) => "null"
    case Some(Arr(_)) => "array"
    case Some(Obj(_)) => "object"
  }

  /** The issues of a parse, empty when it succeeded. */
  function IssuesOf<T>(p: Parsed<T>): seq<Issue> {
    if p.Valid? then [] else p.issues
  }

  /** `z.string().min(min)` applied to `body[key]`. A non-string (including a
      missing field) is reported as a type issue and its length is not checked. */
  function StringField(body: Body, key: string, min: nat): (r: Parsed<string>)
    ensures r.Valid? <==> StringOfLength(body, key, min)
    ensures r.Valid? ==> r.data == body[key].s
    ensures r.Invalid? ==> |r.issues| == 1 && r.issues[0].path == key
  {
    match Get(body, key)
    case Some(Str(s)) => if |s| >= min then Valid(s) else Invalid([TooSmall(key, min)])
    case v => Invalid([InvalidType(key, TypeName(v))])
  }

  /** `z.string().optional()` applied to `body[key]`: `null` is not accepted. */
  function OptionalStringField(body: Body, key: string): (r: Parsed<Option<string>>)
    ensures r.Valid? <==> OptionalString(body, key)
    ensures r.Valid? ==> r.data == (if key in body then Some(body[key].s) else None)
    ensures r.Invalid? ==> |r.issues| == 1 && r.issues[0].path == key
  {
    match Get(body, key)
    case None => Valid(None)
    case Some(Str(s)) => Valid(Some(s))
    case v => Invalid([InvalidType(key, TypeName(v))])
  }

  /** `CreateUserSchema`: username of at least 3 characters, password of at
      least 6, optional name. */
  function CreateUserSchema(body: Body): (r: Parsed<NewUser>)
    ensures r.Valid? <==>
      && StringOfLength(body, "username", MinUsernameLength)
      && StringOfLength(body, "password", MinPasswordLength)
      && OptionalString(body, "name")
    ensures r.Valid? ==>
      && r.data.username == body["username"].s
      && r.data.password == body["password"].s
      && r.data.name == (if "name" in body then Some(body["name"].s) else None)
    ensures r.Invalid? ==> |r.issues| > 0
    ensures r.Invalid? ==> forall i :: 0 <= i < |r.issues| ==>
      r.issues[i].path in {"username", "password", "name"}
  {
    var username := StringField(body, "username", MinUsernameLength);
    var password := StringField(body, "password", MinPasswordLength);
    var name := OptionalStringField(body, "name");
    if username.Valid? && password.Valid? && name.Valid? then
      Valid(NewUser(username.data, password.data, name.data))
    else
      Invalid(IssuesOf(username) + IssuesOf(password) + IssuesOf(name))
  }

  /** `LoginUserSchema`: the same bounds as `CreateUserSchema`, no name. */
  function LoginUserSchema(body: Body): (r: Parsed<Credentials>)
    ensures r.Valid? <==>
      && StringOfLength(body, "username", MinUsernameLength)
      && StringOfLength(body, "password", MinPasswordLength)
    ensures r.Valid? ==>
      r.data == Credentials(body["username"].s, body["password"].s)
    ensures r.Invalid? ==> |r.issues| > 0
    ensures r.Invalid? ==> forall i :: 0 <= i < |r.issues| ==>
      r.issues[i].path in {"username", "password"}
  {
    var username := StringField(body, "username", MinUsernameLength);
    var password := StringField(body, "password", MinPasswordLength);
    if username.Valid? && password.Valid? then
      Valid(Credentials(username.data, password.data))
    else
      Invalid(IssuesOf(username) + IssuesOf(password))
  }

  /** `CreateWebsiteSchema`: `url` must be a string, any string. */
  function CreateWebsiteSchema(body: Body): (r: Parsed<string>)
    ensures r.Valid? <==> "url" in body && body["url"].Str?
    ensures r.Valid? ==> r.data == body["url"].s
  {
    StringField(body, "url", 0)
  }

  /** Adding or removing a string `name` never changes what `CreateUserSchema`
      decides or the credentials it yields. */
  lemma NameDoesNotAffectCredentials(body: Body, name: string)
    ensures CreateUserSchema(body - {"name"}).Valid?
        <==> CreateUserSchema(body["name" := Str(name)]).Valid?
    ensures CreateUserSchema(body - {"name"}).Valid? ==>
      var a := CreateUserSchema(body - {"name"}).data;
      var b := CreateUserSchema(body["name" := Str(name)]).data;
      a.username == b.username && a.password == b.password
  {
  }

  /** Both user schemas agree on every body whose `name` is absent or a string,
      and yield the same credentials. */
  lemma LoginAcceptsWhatSignupAccepts(body: Body)
    requires OptionalString(body, "name")
    ensures LoginUserSchema(body).Valid? <==> CreateUserSchema(body).Valid?
    ensures LoginUserSchema(body).Valid? ==>
      && LoginUserSchema(body).data.username == CreateUserSchema(body).data.username
      && LoginUserSchema(body).data.password == CreateUserSchema(body).data.password
  {
  }

  /** `CreateWebsiteSchema` accepts the empty string and has no URL syntax
      check: every string body passes. */
  lemma WebsiteSchemaAcceptsAnyString(url: string)
    ensures CreateWebsiteSchema(map["url" := Str(url)]) == Valid(url)
  {
  }
}
