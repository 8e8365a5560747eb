/**
  Subscriptions: the upsert request `subscribe` builds from a (channel, URL)
  pair, its effect on the backend, `unsubscribe`, and the post-processing of
  the lists returned for subscriptions, events and delivery attempts.
 */
module Subscriptions {
  import opened Errors
  import opened Auth
  import opened Store
  import opened Identity
  import opened Registry
  import opened Base64

  /** The arguments of `subscribe`. */
  datatype SubscribeRequest = SubscribeRequest(channelName: string, url: string, auth: Option<DestinationAuth>)

  /** What `subscribe` and `getSubscriptions` return. */
  datatype Subscription = Subscription(id: nat, channelName: string, url: string, connection: Connection)

  /**
    The connection upsert `subscribe` sends. The connection and destination
    names are derived from the channel name and the URL; the source part
    names the channel only (no verification); the auth method is passed
    through and left out when not given. Fails where `btoa` throws on the URL.
   */
  function BuildUpsert(req: SubscribeRequest): (r: Result<UpsertRequest>)
    ensures r.Ok? <==> UrlToken(req.url).Ok?
    ensures r.Err? ==> r.error == InvalidCharacter
    ensures r.Ok? ==>
      var t := UrlToken(req.url).value;
      && r.value.name == Join("conn", req.channelName, t)
      && r.value.destination.name == Join("dst", req.channelName, t)
      && r.value.sourceName == req.channelName
      && r.value.destination.url == req.url
      && r.value.destination.authMethod == req.auth
    // The two names differ only in their prefix: `conn_` and `dst_` head the
    // same channel-and-token suffix, and the token part carries no `=`.
    ensures r.Ok? ==>
      var n := r.value.name;
      var d := r.value.destination.name;
      var k := |req.channelName| + 1;
      && |n| >= 5 + k && n[..5] == "conn_" && n[5..5 + k] == req.channelName + "_"
      && |d| >= 4 + k && d[..4] == "dst_"
      && n[5..] == d[4..]
      && '=' !in n[5 + k..]
  {
    match UrlToken(req.url)
    case Err(e) => Err(e)
    case Ok(t) =>
      JoinParts("conn", req.channelName, t);
      JoinParts("dst", req.channelName, t);
      Ok(UpsertRequest(Join("conn", req.channelName, t), req.channelName,
                       DestinationRequest(Join("dst", req.channelName, t), req.url, req.auth)))
  }

  /**
    Distinct non-empty URLs, or distinct channels, never share a connection
    name; for one channel, distinct URLs never do, empty or not.
   */
  lemma UpsertNamesDistinct(r1: SubscribeRequest, r2: SubscribeRequest)
    requires IsLatin1(r1.url) && IsLatin1(r2.url)
    requires (|r1.url| > 0 && |r2.url| > 0) || r1.channelName == r2.channelName
    ensures BuildUpsert(r1).value.name == BuildUpsert(r2).value.name ==>
      r1.channelName == r2.channelName && r1.url == r2.url
  {
    if BuildUpsert(r1).value.name != BuildUpsert(r2).value.name {
      return;
    }
    assert BuildUpsert(r1).value.name == ConnectionName(r1.channelName, r1.url).value;
    assert BuildUpsert(r2).value.name == ConnectionName(r2.channelName, r2.url).value;
    if |r1.url| > 0 && |r2.url| > 0 {
      DerivedNameInjective("conn", r1.channelName, r1.url, r2.channelName, r2.url);
    } else {
      SameChannelDistinctUrls("conn", r1.channelName, r1.url, r2.url);
    }
  }

  /**
    `subscribe`: builds the upsert, sends it, and returns the connection's id,
    source name and destination URL. `receiveUrl` is the URL the backend
    gives a Source the upsert creates, and `defaultAuth` the auth method it
    gives a destination requested without one.
   */
  function Subscribe(b: Backend, req: SubscribeRequest, receiveUrl: string, defaultAuth: DestinationAuth): (run: Run<Subscription>)
    ensures run.result.Err? ==> run == Run(Err(InvalidCharacter), [], b)
    ensures run.result.Ok? ==>
      && BuildUpsert(req).Ok?
      && run.calls == [UpsertConnection(BuildUpsert(req).value)]
      && run.result.value.channelName == req.channelName
      && run.result.value.url == req.url
      && run.result.value.connection in run.after.connections
      && run.result.value.id == run.result.value.connection.id
      && (req.auth.Some? ==> run.result.value.connection.destination.authMethod == req.auth)
      && (req.auth.None? ==> run.result.value.connection.destination.authMethod == Some(defaultAuth))
  {
    match BuildUpsert(req)
    case Err(e) => Run(Err(e), [], b)
    case Ok(upsert) =>
      var (c, b') := UpsertConnectionStep(b, upsert, receiveUrl, defaultAuth);
      Run(Ok(Subscription(c.id, c.source.name, c.destination.url.value, c)), [UpsertConnection(upsert)], b')
  }

  /**
    Subscribing twice with the same arguments is an upsert, not a duplicate:
    the second call returns the same subscription id and adds no Connection
    and no Source.
   */
  lemma SubscribeIdempotent(b: Backend, req: SubscribeRequest, url1: string, url2: string, defaultAuth: DestinationAuth)
    requires IsLatin1(req.url)
    ensures var run1 := Subscribe(b, req, url1, defaultAuth);
      var run2 := Subscribe(run1.after, req, url2, defaultAuth);
      && run1.result.Ok? && run2.result.Ok?
      && run2.result.value.id == run1.result.value.id
      && |run2.after.connections| == |run1.after.connections|
      && run2.after.sources == run1.after.sources
  {
    UpsertIdempotent(b, BuildUpsert(req).value, url1, url2, defaultAuth);
  }

  /**
    Subscribing to a channel that has no Source yet creates one named after
    the channel and without verification.
   */
  lemma SubscribeLeavesSourceUnverified(b: Backend, req: SubscribeRequest, receiveUrl: string, defaultAuth: DestinationAuth)
    requires FirstNamed(b.sources, req.channelName).None?
    requires IsLatin1(req.url)
    ensures var run := Subscribe(b, req, receiveUrl, defaultAuth);
      && run.result.Ok?
      && run.result.value.connection.source.verification.None?
      && run.after.sources == b.sources + [run.result.value.connection.source]
      && run.result.value.connection.source.name == req.channelName
  {
  }

  /**
    `unsubscribe`: deletes the Connection with the id. A missing one fails with
    NotFound, passed on; otherwise it alone is removed.
   */
  function Unsubscribe(b: Backend, id: nat): (run: Run<()>)
    ensures run.calls == [DeleteConnection(id)]
    ensures run.result.Ok? <==> HasConnection(b.connections, id)
    ensures run.result.Err? ==> run.result.error == NotFound(id) && run.after == b
    ensures run.result.Ok? ==>
      && !HasConnection(run.after.connections, id)
      && (forall c :: c in run.after.connections <==> c in b.connections && c.id != id)
      && run.after.sources == b.sources
  {
    match DeleteConnectionStep(b, id)
    case Err(e) => Run(Err(e), [DeleteConnection(id)], b)
    case Ok(b') => Run(Ok(()), [DeleteConnection(id)], b')
  }

  /** Unsubscribing twice: the second call fails with NotFound. */
  lemma UnsubscribeTwice(b: Backend, id: nat)
    requires Unsubscribe(b, id).result.Ok?
    ensures Unsubscribe(Unsubscribe(b, id).after, id).result == Err(NotFound(id))
  {
  }

  /** The subscription a listed Connection stands for. */
  function ToSubscription(c: Connection): Subscription
    requires c.destination.url.Some?
  {
    Subscription(c.id, c.source.name, c.destination.url.value, c)
  }

  /**
    `getSubscriptions` post-processing: the Connections whose destination URL
    is undefined are skipped, every other one becomes a Subscription, in the
    listed order. An absent model list gives no subscriptions.
   */
  function ListedSubscriptions(models: Option<seq<Connection>>): (r: seq<Subscription>)
    ensures models.None? ==> r == []
    ensures models.Some? ==> |r| <= |models.value|
    ensures models.Some? ==> forall c :: c in models.value && c.destination.url.Some? ==> ToSubscription(c) in r
    ensures forall s :: s in r ==>
      models.Some? && s.connection in models.value && s.connection.destination.url.Some? && s == ToSubscription(s.connection)
  {
    if models.None? then [] else Keep(models.value)
  }

  /** The filter-and-map over a list of Connections. */
  function Keep(cs: seq<Connection>): (r: seq<Subscription>)
    ensures |r| <= |cs|
    ensures forall c :: c in cs && c.destination.url.Some? ==> ToSubscription(c) in r
    ensures forall s :: s in r ==> s.connection in cs && s.connection.destination.url.Some? && s == ToSubscription(s.connection)
    decreases |cs|
  {
    if |cs| == 0 then []
    else if cs[0].destination.url.None? then Keep(cs[1..])
    else [ToSubscription(cs[0])] + Keep(cs[1..])
  }

  /** The filter keeps order: it distributes over concatenation. */
  lemma {:induction false} KeepConcat(a: seq<Connection>, c: seq<Connection>)
    ensures Keep(a + c) == Keep(a) + Keep(c)
    decreases |a|
  {
    if |a| > 0 {
      assert (a + c)[1..] == a[1..] + c;
      KeepConcat(a[1..], c);
    } else {
      assert a + c == c;
    }
  }

  /** Nothing is dropped exactly when every Connection has a destination URL. */
  lemma {:induction false} KeepAll(cs: seq<Connection>)
    ensures |Keep(cs)| == |cs| <==> forall k :: 0 <= k < |cs| ==> cs[k].destination.url.Some?
    decreases |cs|
  {
    if |cs| > 0 {
      KeepAll(cs[1..]);
      assert forall k :: 1 <= k < |cs| ==> cs[k] == cs[1..][k - 1];
    }
  }

  /** An event record; the body is present only once retrieved. */
  datatype Event = Event(id: nat, body: Option<string>)

  /** A delivery attempt record; the body is present only once retrieved. */
  datatype Attempt = Attempt(id: nat, body: Option<string>)

  /**
    `event.retrieve` over a record store: the full record of an id, NotFound
    when the store has none.
   */
  function Retrieve<T>(store: map<nat, T>, id: nat): Result<T> {
    if id in store then Ok(store[id]) else Err(NotFound(id))
  }

  /**
    `getEvents` post-processing: the listed events, each replaced by its
    retrieved record when `includeBody` is set. Fails on the first event the
    store cannot retrieve. An absent model list gives no events.
   */
  function Events(models: Option<seq<Event>>, includeBody: bool, store: map<nat, Event>): (r: Result<seq<Event>>)
    ensures models.None? ==> r == Ok([])
    ensures models.Some? && !includeBody ==> r == Ok(models.value)
    ensures models.Some? && includeBody ==>
      (r.Ok? <==> forall i :: 0 <= i < |models.value| ==> models.value[i].id in store)
    ensures r.Ok? && models.Some? && includeBody ==>
      && |r.value| == |models.value|
      && forall i :: 0 <= i < |models.value| ==> r.value[i] == store[models.value[i].id]
  {
    if models.None? then Ok([])
    else if !includeBody then Ok(models.value)
    else Hydrate(models.value, store)
  }

  /** Replaces every record by the store's record of its id, in order. */
  function Hydrate(es: seq<Event>, store: map<nat, Event>): (r: Result<seq<Event>>)
    ensures r.Ok? <==> forall i :: 0 <= i < |es| ==> es[i].id in store
    ensures r.Err? ==> exists i :: 0 <= i < |es| && r.error == NotFound(es[i].id) && es[i].id !in store
    ensures r.Ok? ==> |r.value| == |es| && forall i :: 0 <= i < |es| ==> r.value[i] == store[es[i].id]
    decreases |es|
  {
    if |es| == 0 then Ok([])
    else
      var head :- Retrieve(store, es[0].id);
      var rest :- Hydrate(es[1..], store);
      Ok([head] + rest)
  }

  /** A store that returns each record under its own id. */
  ghost predicate Faithful(store: map<nat, Event>) {
    forall id :: id in store ==> store[id].id == id
  }

  /**
    With a store that keeps ids, hydrating keeps every event's id and
    hydrating again changes nothing.
   */
  lemma HydrateIdempotent(es: seq<Event>, store: map<nat, Event>)
    requires Faithful(store)
    requires Hydrate(es, store).Ok?
    ensures forall i :: 0 <= i < |es| ==> Hydrate(es, store).value[i].id == es[i].id
    ensures Hydrate(Hydrate(es, store).value, store) == Hydrate(es, store)
  {
    var h := Hydrate(es, store).value;
    assert forall i :: 0 <= i < |h| ==> h[i].id == es[i].id && h[i].id in store;
    var h2 := Hydrate(h, store).value;
    assert |h2| == |h|;
    forall i | 0 <= i < |h| ensures h2[i] == h[i] {
      assert h2[i] == store[h[i].id];
    }
  }

  /**
    `getDeliveryAttempts` post-processing: visits the indices below `count`,
    skips the ones with no listed attempt, and hydrates each attempt it keeps
    when `includeBody` is set. When `count` or `models` is absent the result
    is empty.
   */
  method DeliveryAttempts(count: Option<int>, models: Option<seq<Attempt>>, includeBody: bool, store: map<nat, Attempt>)
    returns (r: Result<seq<Attempt>>)
    ensures count.None? || models.None? ==> r == Ok([])
    ensures count.Some? && models.Some? ==>
      var n := if count.value < 0 then 0 else if count.value < |models.value| then count.value else |models.value|;
      && (r.Ok? <==> !includeBody || forall i :: 0 <= i < n ==> models.value[i].id in store)
      && (r.Ok? ==> |r.value| == n <= |models.value|)
      && (r.Ok? ==> forall i :: 0 <= i < n ==>
            r.value[i] == if includeBody then store[models.value[i].id] else models.value[i])
      && (r.Err? ==> exists i :: 0 <= i < n && r.error == NotFound(models.value[i].id))
  {
    if count.None? || models.None? {
      return Ok([]);
    }
    var ms := models.value;
    var n := if count.value < 0 then 0 else if count.value < |ms| then count.value else |ms|;
    var attempts: seq<Attempt> := [];
    var i := 0;
    while i < count.value
      invariant 0 <= i
      invariant i <= (if count.value < 0 then 0 else count.value)
      invariant |attempts| == (if i < |ms| then i else |ms|)
      invariant includeBody ==> forall k :: 0 <= k < |attempts| ==> ms[k].id in store
      invariant forall k :: 0 <= k < |attempts| ==>
        attempts[k] == if includeBody then store[ms[k].id] else ms[k]
    {
      if i < |ms| {
        var attempt := ms[i];
        if includeBody {
          if attempt.id !in store {
            return Err(NotFound(attempt.id));
          }
          attempt := store[attempt.id];
        }
        attempts := attempts + [attempt];
      }
      i := i + 1;
    }
    return Ok(attempts);
  }
}
