/** `POST /api/contact`. There is no authentication gate: the handler takes
    no session at all. The body is validated against the contact insert
    schema after the server's timestamp has been spread over it. */
module Routes {
  import opened Util
  import opened Schema
  import opened OrderedMap
  import opened Storage
  import opened Validation
  import opened Http

  const ContactErrorMessage: string := "An error occurred while processing your request"

  /** The fields the insert schema picks; any other key is stripped. */
  const ContactFields: set<string> := {"name", "email", "type", "message", "createdAt"}

  /** `insertContactRequestSchema.parse(data)`: each picked column is a
      required string; no length bound, so an empty string passes. */
  function ParseContactRequest(body: JsonObject): (r: Parsed<InsertContactRequest>)
    ensures r.Parsed? <==>
      && IsStringField(body, "name") && IsStringField(body, "email")
      && IsStringField(body, "type") && IsStringField(body, "message")
      && IsStringField(body, "createdAt")
    ensures r.Parsed? ==>
      r.value == InsertContactRequest(body["name"].str, body["email"].str, body["type"].str,
                                      body["message"].str, body["createdAt"].str)
    ensures r.Invalid? ==> |r.issues| > 0 && forall i :: 0 <= i < |r.issues| ==> !IsStringField(body, r.issues[i].path)
  {
    var issues :=
      StringField(body, "name") + StringField(body, "email") + StringField(body, "type")
      + StringField(body, "message") + StringField(body, "createdAt");
    if issues == [] then
      Parsed(InsertContactRequest(body["name"].str, body["email"].str, body["type"].str,
                                  body["message"].str, body["createdAt"].str))
    else Invalid(issues)
  }

  /** The contact handler. `now` is `new Date().toISOString()`;
      `storageFails` says whether `createContactRequest` throws. */
  function ContactRoute(s: MemStorage, body: JsonObject, now: string, storageFails: bool): (h: Handled)
    ensures var valid := IsStringField(body, "name") && IsStringField(body, "email")
                         && IsStringField(body, "type") && IsStringField(body, "message");
      && (!valid ==>
            h == Handled(s, Response(400, ValidationFailed(ParseContactRequest(body["createdAt" := JString(now)]).issues))))
      && (valid && storageFails ==> h == Handled(s, Response(500, Message(ContactErrorMessage))))
      && (valid && !storageFails ==>
            && h.response == Response(201, ContactCreated(true, s.currentContactRequestId))
            && h.store.currentContactRequestId == s.currentContactRequestId + 1
            && h.store.users == s.users && h.store.analyses == s.analyses
            && h.store.currentId == s.currentId && h.store.currentAnalysisId == s.currentAnalysisId
            && Get(h.store.contactRequests, s.currentContactRequestId)
               == Some(ContactRequest(s.currentContactRequestId, body["name"].str, body["email"].str,
                                      body["type"].str, body["message"].str, now, false)))
  {
    match ParseContactRequest(body["createdAt" := JString(now)])
    case Invalid(issues) => Handled(s, Response(400, ValidationFailed(issues)))
    case Parsed(data) =>
      if storageFails then Handled(s, Response(500, Message(ContactErrorMessage)))
      else
        var created := CreateContactRequest(s, data);
        Handled(created.store, Response(201, ContactCreated(true, created.record.id)))
  }

  /** A `createdAt` sent by the client is always overridden by the server's. */
  lemma ClientTimestampIgnored(s: MemStorage, body: JsonObject, v: JsonValue, now: string, storageFails: bool)
    ensures ContactRoute(s, body["createdAt" := v], now, storageFails) == ContactRoute(s, body, now, storageFails)
  {
    assert body["createdAt" := v]["createdAt" := JString(now)] == body["createdAt" := JString(now)];
  }

  /** Keys outside the schema, such as `id` or `resolved`, have no effect:
      the client can choose neither the id nor the flag. */
  lemma ExtraKeysIgnored(s: MemStorage, body: JsonObject, key: string, v: JsonValue, now: string, storageFails: bool)
    requires key !in ContactFields
    ensures ContactRoute(s, body[key := v], now, storageFails) == ContactRoute(s, body, now, storageFails)
  {
    var a := body[key := v]["createdAt" := JString(now)];
    var b := body["createdAt" := JString(now)];
    assert forall k :: k in ContactFields ==> (k in a <==> k in b) && (k in a ==> a[k] == b[k]);
    assert ParseContactRequest(a) == ParseContactRequest(b);
  }

  /** A 201 lists the new request last among all contact requests, under the
      id the response reports, unresolved. */
  lemma CreatedRequestIsListed(s: MemStorage, body: JsonObject, now: string)
    requires Valid(s)
    requires ContactRoute(s, body, now, false).response.status == 201
    ensures var h := ContactRoute(s, body, now, false);
      && Valid(h.store)
      && |GetContactRequests(h.store)| == |GetContactRequests(s)| + 1
      && GetContactRequests(h.store)[..|GetContactRequests(s)|] == GetContactRequests(s)
      && var c := GetContactRequests(h.store)[|GetContactRequests(s)|];
         c.id == h.response.body.id && !c.resolved && c.createdAt == now
  {
    var data := ParseContactRequest(body["createdAt" := JString(now)]).value;
    CreateContactRequestAppends(s, data);
  }
}
