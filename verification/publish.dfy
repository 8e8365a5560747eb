/**
  `Channel.publish`: the headers and payload of the single POST made to the
  channel's Source URL. The POST itself is not part of the model; its request
  is the result.
 */
module Publish {
  import opened Errors
  import opened Auth
  import opened Registry

  /** A JSON value, the shape of a payload before serialisation. */
  datatype Json =
    | JNull
    | JBool(b: bool)
    | JNumber(n: int)
    | JString(s: string)
    | JArray(items: seq<Json>)
    | JObject(fields: seq<(string, Json)>)

  /**
    An event as passed to `publish`. Each key may be absent; a typed event has
    both `type` and `data`, an untyped one carries `body`.
   */
  datatype PublishEvent = PublishEvent(
    headers: map<string, string>,
    eventType: Option<Json>,
    data: Option<Json>,
    body: Option<Json>)

  /** The request handed to the transport. An absent body stays absent. */
  datatype HttpRequest = HttpRequest(url: string, verb: string, headers: map<string, string>, body: Option<Json>)

  const ContentType := "Content-Type"
  const ApplicationJson := "application/json"

  /** The headers before authentication: `Content-Type` first, caller headers over it. */
  function BaseHeaders(caller: map<string, string>): (h: map<string, string>)
    ensures h.Keys == caller.Keys + {ContentType}
    ensures forall k :: k in caller ==> h[k] == caller[k]
    ensures ContentType !in caller ==> h[ContentType] == ApplicationJson
  {
    map[ContentType := ApplicationJson] + caller
  }

  /**
    The request headers: the base headers, then the auth header set last, so
    that it replaces a caller header of the same name. Fails where the auth
    header cannot be built.
   */
  function PublishHeaders(auth: Option<Verification>, caller: map<string, string>): (r: Result<map<string, string>>)
    ensures r.Ok? <==> AuthHeader(auth).Ok?
    // No header is added for no auth or a type other than exactly api_key / basic_auth.
    ensures AuthHeader(auth) == Ok(None) ==> r == Ok(BaseHeaders(caller))
    ensures r.Ok? && AuthHeader(auth).value.Some? ==>
      var h := AuthHeader(auth).value.value;
      && r.value.Keys == caller.Keys + {ContentType, h.name}
      // The auth header wins over any caller header with its name.
      && r.value[h.name] == h.value
      // Every other caller header reaches the request unchanged.
      && (forall k :: k in caller && k != h.name ==> r.value[k] == caller[k])
      // Content-Type stays JSON unless the caller or the auth header names it.
      && (ContentType !in caller && h.name != ContentType ==> r.value[ContentType] == ApplicationJson)
  {
    match AuthHeader(auth)
    case Err(e) => Err(e)
    case Ok(None) => Ok(BaseHeaders(caller))
    case Ok(Some(h)) => Ok(BaseHeaders(caller)[h.name := h.value])
  }

  /** A typed event has both keys `type` and `data`. */
  predicate IsTyped(e: PublishEvent) {
    e.eventType.Some? && e.data.Some?
  }

  /** The field names of a JSON object, in order. */
  function FieldNames(fields: seq<(string, Json)>): (r: seq<string>)
    ensures |r| == |fields|
    ensures forall i :: 0 <= i < |fields| ==> r[i] == fields[i].0
    decreases |fields|
  {
    if |fields| == 0 then [] else [fields[0].0] + FieldNames(fields[1..])
  }

  /** The value of the first field named `key`, if any. */
  function Field(fields: seq<(string, Json)>, key: string): Option<Json>
    decreases |fields|
  {
    if |fields| == 0 then None
    else if fields[0].0 == key then Some(fields[0].1)
    else Field(fields[1..], key)
  }

  /** The payload: `{type, data}` for a typed event, the event's body otherwise. */
  function Payload(e: PublishEvent): Option<Json> {
    if IsTyped(e) then Some(JObject([("type", e.eventType.value), ("data", e.data.value)]))
    else e.body
  }

  /**
    What the payload is. A typed event's payload is an object with exactly the
    fields `type` and `data`, holding the event's values, whatever else the
    event carries; an untyped event's payload is exactly its body.
   */
  lemma PayloadShape(e: PublishEvent)
    ensures IsTyped(e) ==>
      && Payload(e).Some? && Payload(e).value.JObject?
      && FieldNames(Payload(e).value.fields) == ["type", "data"]
      && Field(Payload(e).value.fields, "type") == e.eventType
      && Field(Payload(e).value.fields, "data") == e.data
    ensures !IsTyped(e) ==> Payload(e) == e.body
  {
  }

  /** Headers never reach the payload: changing them leaves it as it was. */
  lemma PayloadIgnoresHeaders(e: PublishEvent, h: map<string, string>)
    ensures Payload(e.(headers := h)) == Payload(e)
    ensures IsTyped(e) ==> Payload(e.(body := None)) == Payload(e)
  {
  }

  /** The publish auth adds a header named `k`. */
  predicate AuthHeaderNamed(auth: Verification, k: string) {
    AuthHeader(Some(auth)).Ok? && AuthHeader(Some(auth)).value.Some? && AuthHeader(Some(auth)).value.value.name == k
  }

  /**
    `publish`: one POST to the Source URL, with the merged headers and the
    payload. It fails only where the auth header cannot be built.
   */
  function PublishRequest(ch: Channel, e: PublishEvent): (r: Result<HttpRequest>)
    ensures r.Ok? <==> AuthHeader(Some(ch.publishAuth)).Ok?
    ensures r.Ok? ==> r.value.verb == "POST" && r.value.url == ch.source.url
    // A typed event sends exactly the fields `type` and `data`; any other event sends its body.
    ensures r.Ok? && IsTyped(e) ==>
      && r.value.body.Some? && r.value.body.value.JObject?
      && FieldNames(r.value.body.value.fields) == ["type", "data"]
      && Field(r.value.body.value.fields, "type") == e.eventType
      && Field(r.value.body.value.fields, "data") == e.data
    ensures r.Ok? && !IsTyped(e) ==> r.value.body == e.body
    // The auth header is sent as built, whatever the caller's headers say ...
    ensures r.Ok? && AuthHeader(Some(ch.publishAuth)).value.Some? ==>
      var h := AuthHeader(Some(ch.publishAuth)).value.value;
      h.name in r.value.headers && r.value.headers[h.name] == h.value
    // ... and every other caller header is sent unchanged.
    ensures r.Ok? ==> forall k :: k in e.headers && !AuthHeaderNamed(ch.publishAuth, k) ==>
      k in r.value.headers && r.value.headers[k] == e.headers[k]
  {
    var headers :- PublishHeaders(Some(ch.publishAuth), e.headers);
    PayloadShape(e);
    Ok(HttpRequest(ch.source.url, "POST", headers, Payload(e)))
  }

  /**
    Publishing on a channel with an API key policy sends the key under the
    configured header name, or under `Authorization` when none is configured,
    and the caller cannot override it.
   */
  lemma ApiKeyPublish(ch: Channel, e: PublishEvent)
    requires ch.publishAuth.kind == "api_key"
    ensures PublishRequest(ch, e).Ok?
    ensures var hs := PublishRequest(ch, e).value.headers;
      var name := ApiKeyHeaderName(ch.publishAuth.configs);
      name in hs && hs[name] == Show(ApiKeyField(ch.publishAuth.configs))
  {
  }

  /**
    Publishing on a channel with a Basic authentication policy sends an
    `Authorization` header whose encoded part decodes back to the credentials.
   */
  lemma BasicAuthPublish(ch: Channel, e: PublishEvent)
    requires ch.publishAuth.kind == "basic_auth"
    requires Base64.IsLatin1(BasicCredentials(ch.publishAuth.configs))
    ensures PublishRequest(ch, e).Ok?
    ensures var hs := PublishRequest(ch, e).value.headers;
      && "Authorization" in hs
      && |hs["Authorization"]| >= 6 && hs["Authorization"][..6] == "Basic "
      && Base64.Decode(hs["Authorization"][6..]) == Some(Base64.Latin1(BasicCredentials(ch.publishAuth.configs)).value)
  {
  }
}
