/** The `/create_url` handler of apps/server/routes/v1/websites.ts as a
    guarded insert into the website table. As written, the route sits behind no
    authentication gate and takes the owner (`userId`) from the request body;
    it does not use `CreateWebsiteSchema`. */
module Websites {
  import opened Outcomes
  import opened Js
  import opened Db
  import opened Schemas
  import opened Http

  /** The handler has no `catch`: a throwing insert rejects its promise and no
      response is sent by the handler. */
  datatype Handled = Sent(step: Step<WebsiteTable>) | Unhandled(error: Thrown)

  /** `POST /website/create_url`: `newId` is the id the database assigns and
      `createFault` what `prisma.website.create` throws, if anything. */
  function CreateUrl(sites: WebsiteTable, body: Body, newId: string, createFault: Option<Thrown>): (o: Handled)
    // A missing or falsy url (`""`, `0`, `false`, `null`): 410, nothing inserted.
    ensures !Present(Get(body, "url")) ==>
      o == Sent(Step(sites, Response(410, Text("URL is required"))))
    ensures Present(Get(body, "url")) && createFault.Some? ==> o == Unhandled(createFault.value)
    ensures o.Sent? ==> o.step.response.status == 201 || o.step.response.status == 410
    ensures o.Sent? && o.step.response.status == 201 <==> Present(Get(body, "url")) && createFault.None?
    // The one inserted row copies `url` and `userId` verbatim and is sent back.
    ensures o.Sent? && o.step.response.status == 201 ==>
      var w := Website(newId, body["url"], Get(body, "userId"));
      && o.step.store == sites[newId := w]
      && o.step.response.payload == WebsiteRow(w)
  {
    var url := Get(body, "url");
    if !Present(url) then
      Sent(Step(sites, Response(410, Text("URL is required"))))
    else if createFault.Some? then
      Unhandled(createFault.value)
    else
      var website := Website(newId, url.value, Get(body, "userId"));
      Sent(Step(sites[newId := website], Response(201, WebsiteRow(website))))
  }

  /** With a fresh id, a successful create adds exactly one row, keeps every
      other row and keeps the table consistent. */
  lemma CreateUrlInsertsOne(sites: WebsiteTable, body: Body, newId: string, createFault: Option<Thrown>)
    requires WebsitesConsistent(sites) && newId !in sites
    requires CreateUrl(sites, body, newId, createFault).Sent?
    ensures var s := CreateUrl(sites, body, newId, createFault).step.store;
      && WebsitesConsistent(s)
      && (forall k :: k in sites ==> k in s && s[k] == sites[k])
      && |s| == |sites| + (if CreateUrl(sites, body, newId, createFault).step.response.status == 201 then 1 else 0)
  {
  }

  /** The stored owner is whatever the body says: two requests that differ only
      in `userId` store rows that differ only in `userId`. */
  lemma OwnerComesFromBody(sites: WebsiteTable, body: Body, owner: Value, newId: string)
    requires Present(Get(body, "url"))
    ensures var o := CreateUrl(sites, body["userId" := owner], newId, None);
      o.Sent? && o.step.response.payload.website.userId == Some(owner)
      && o.step.response.payload.website.url == body["url"]
  {
  }

  /** `CreateWebsiteSchema` would accept an empty url, but the handler, which
      does not consult it, answers 410 and inserts nothing. */
  lemma EmptyUrlPassesSchemaButNotHandler(sites: WebsiteTable, newId: string, createFault: Option<Thrown>)
    ensures CreateWebsiteSchema(map["url" := Str("")]).Valid?
    ensures CreateUrl(sites, map["url" := Str("")], newId, createFault)
         == Sent(Step(sites, Response(410, Text("URL is required"))))
  {
  }
}
