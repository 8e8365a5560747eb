/**
  An abstract model of the webhook backend the layer drives: its Sources and
  Connections (each Connection owning its Destination), the SDK calls the layer
  issues, and the effect of each call on the stored records. Ids are handed
  out from a counter; receive URLs are chosen by the backend and passed in.
 */
module Store {
  import opened Errors
  import opened Auth

  /** How the backend authenticates its deliveries to a destination URL. */
  datatype DestinationAuth = DestinationAuth(kind: string, config: seq<Header>)

  /** An inbound endpoint: a channel's backing resource. */
  datatype Source = Source(id: nat, name: string, url: string, verification: Option<Verification>)

  /** An outbound endpoint. Its URL may be absent for some destination types. */
  datatype Destination = Destination(id: nat, name: string, url: Option<string>, authMethod: Option<DestinationAuth>)

  /** A routing rule from one Source to one Destination. */
  datatype Connection = Connection(id: nat, name: string, source: Source, destination: Destination)

  /** The destination part of a connection upsert. */
  datatype DestinationRequest = DestinationRequest(name: string, url: string, authMethod: Option<DestinationAuth>)

  /** A connection upsert: connection name, source by name, destination fields. */
  datatype UpsertRequest = UpsertRequest(name: string, sourceName: string, destination: DestinationRequest)

  /** The backend state. */
  datatype Backend = Backend(sources: seq<Source>, connections: seq<Connection>, nextId: nat)

  /** An SDK call issued by the layer. */
  datatype Call =
    | ListSources(name: string)
    | CreateSource(name: string, verification: Verification)
    | UpdateSource(id: nat, verification: Verification)
    | UpsertConnection(request: UpsertRequest)
    | DeleteConnection(id: nat)

  /** Whether a call writes to the backend. */
  predicate IsWrite(c: Call) {
    !c.ListSources?
  }

  /** The response to a source listing: `count` and `models` are both optional. */
  datatype SourceListing = SourceListing(count: Option<int>, models: Option<seq<Source>>)

  /** Ids are below the counter and no two records of a kind share one. */
  ghost predicate Valid(b: Backend) {
    && (forall i :: 0 <= i < |b.sources| ==> b.sources[i].id < b.nextId)
    && (forall i, j :: 0 <= i < j < |b.sources| ==> b.sources[i].id != b.sources[j].id)
    && (forall i :: 0 <= i < |b.connections| ==> b.connections[i].id < b.nextId)
    && (forall i, j :: 0 <= i < j < |b.connections| ==> b.connections[i].id != b.connections[j].id)
  }

  /** The Sources named exactly `name`, in stored order. */
  function Named(sources: seq<Source>, name: string): (r: seq<Source>)
    ensures |r| <= |sources|
    ensures forall s :: s in r <==> s in sources && s.name == name
    decreases |sources|
  {
    if |sources| == 0 then []
    else if sources[0].name == name then [sources[0]] + Named(sources[1..], name)
    else Named(sources[1..], name)
  }

  /** Index of the first element that satisfies `p`, if any. */
  function FirstWhere<T>(xs: seq<T>, p: T -> bool): (r: Option<nat>)
    ensures r.Some? ==> r.value < |xs| && p(xs[r.value])
    ensures r.Some? ==> forall k :: 0 <= k < r.value ==> !p(xs[k])
    ensures r.None? ==> forall k :: 0 <= k < |xs| ==> !p(xs[k])
    decreases |xs|
  {
    if |xs| == 0 then None
    else if p(xs[0]) then Some(0)
    else match FirstWhere(xs[1..], p)
      case None => None
      case Some(k) => Some(k + 1)
  }

  /** The first index whose element satisfies `p` is the one `FirstWhere` finds. */
  lemma FirstWhereAt<T>(xs: seq<T>, p: T -> bool, j: nat)
    requires j < |xs| && p(xs[j])
    requires forall k :: 0 <= k < j ==> !p(xs[k])
    ensures FirstWhere(xs, p) == Some(j)
  {
  }

  /** Index of the first Source named `name`, if any. */
  function FirstNamed(sources: seq<Source>, name: string): Option<nat> {
    FirstWhere(sources, (s: Source) => s.name == name)
  }

  /** The first Source named `name` heads the exact listing of that name. */
  lemma {:induction false} NamedHead(sources: seq<Source>, name: string)
    ensures FirstNamed(sources, name).Some? <==> |Named(sources, name)| > 0
    ensures FirstNamed(sources, name).Some? ==> Named(sources, name)[0] == sources[FirstNamed(sources, name).value]
    decreases |sources|
  {
    if |sources| > 0 && sources[0].name != name {
      NamedHead(sources[1..], name);
    }
  }

  /** An exact-name listing of the stored Sources, as a backend filtering by name returns it. */
  function ListByName(b: Backend, name: string): SourceListing {
    var m := Named(b.sources, name);
    SourceListing(Some(|m|), Some(m))
  }

  /** Index of the first Source with id `id`, if any. */
  function SourceIndex(sources: seq<Source>, id: nat): Option<nat> {
    FirstWhere(sources, (s: Source) => s.id == id)
  }

  /** Index of the first Connection named `name`, if any. */
  function ConnectionNamed(cs: seq<Connection>, name: string): Option<nat> {
    FirstWhere(cs, (c: Connection) => c.name == name)
  }

  /** `source.create`: a new Source with a fresh id, appended. */
  function CreateSourceStep(b: Backend, name: string, v: Option<Verification>, receiveUrl: string): (r: (Source, Backend))
    ensures r.0 == Source(b.nextId, name, receiveUrl, v)
    ensures r.1.sources == b.sources + [r.0] && r.1.connections == b.connections
    ensures r.1.nextId == b.nextId + 1
    ensures Valid(b) ==> Valid(r.1)
  {
    var s := Source(b.nextId, name, receiveUrl, v);
    (s, Backend(b.sources + [s], b.connections, b.nextId + 1))
  }

  /**
    `source.update(id, {verification})`: fails with NotFound when no Source has
    the id; otherwise sets the verification of the Sources with that id and
    returns the first of them. Nothing else changes.
   */
  function UpdateVerificationStep(b: Backend, id: nat, v: Verification): (r: Result<(Source, Backend)>)
    ensures r.Err? <==> SourceIndex(b.sources, id).None?
    ensures r.Err? ==> r.error == NotFound(id)
    ensures r.Ok? ==> var (s, b') := r.value;
      && |b'.sources| == |b.sources|
      && s.id == id && s.verification == Some(v)
      && s == b'.sources[SourceIndex(b.sources, id).value]
      && b'.connections == b.connections && b'.nextId == b.nextId
      && (forall k :: 0 <= k < |b.sources| ==>
            b'.sources[k] == (if b.sources[k].id == id then b.sources[k].(verification := Some(v)) else b.sources[k]))
    ensures r.Ok? && Valid(b) ==> Valid(r.value.1)
  {
    match SourceIndex(b.sources, id)
    case None => Err(NotFound(id))
    case Some(k) =>
      var updated := seq(|b.sources|, i requires 0 <= i < |b.sources| =>
        if b.sources[i].id == id then b.sources[i].(verification := Some(v)) else b.sources[i]);
      Ok((updated[k], Backend(updated, b.connections, b.nextId)))
  }

  /** The auth method a destination is stored with: the requested one, else the backend's default. */
  function StoredAuth(requested: Option<DestinationAuth>, defaultAuth: DestinationAuth): (r: Option<DestinationAuth>)
    ensures r.Some?
    ensures requested.Some? ==> r == requested
    ensures requested.None? ==> r == Some(defaultAuth)
  {
    if requested.Some? then requested else Some(defaultAuth)
  }

  /**
    `connection.upsert`: the Source is the first one with the requested name,
    created without verification when there is none. A Connection with the
    requested name is updated in place (its id and its destination's id are
    kept); otherwise a new Connection and Destination are appended. A
    destination without a requested auth method gets `defaultAuth`, the one
    the backend chooses.
   */
  function UpsertConnectionStep(b: Backend, req: UpsertRequest, receiveUrl: string, defaultAuth: DestinationAuth): (r: (Connection, Backend))
    ensures r.0.name == req.name && r.0.source.name == req.sourceName
    ensures r.0.destination.name == req.destination.name
    ensures r.0.destination.url == Some(req.destination.url)
    ensures req.destination.authMethod.Some? ==> r.0.destination.authMethod == req.destination.authMethod
    ensures req.destination.authMethod.None? ==> r.0.destination.authMethod == Some(defaultAuth)
    ensures r.0 in r.1.connections
    ensures ConnectionNamed(b.connections, req.name).Some? ==>
      var j := ConnectionNamed(b.connections, req.name).value;
      && r.0.id == b.connections[j].id
      && r.1.connections == b.connections[j := r.0]
    ensures ConnectionNamed(b.connections, req.name).None? ==>
      r.1.connections == b.connections + [r.0]
    ensures FirstNamed(b.sources, req.sourceName).Some? ==>
      r.0.source == b.sources[FirstNamed(b.sources, req.sourceName).value] && r.1.sources == b.sources
    ensures FirstNamed(b.sources, req.sourceName).None? ==>
      r.0.source.verification.None? && r.1.sources == b.sources + [r.0.source]
    ensures Valid(b) ==> Valid(r.1)
  {
    var auth := StoredAuth(req.destination.authMethod, defaultAuth);
    var (src, b1) :=
      match FirstNamed(b.sources, req.sourceName)
      case Some(k) => (b.sources[k], b)
      case None => CreateSourceStep(b, req.sourceName, None, receiveUrl);
    match ConnectionNamed(b1.connections, req.name)
    case Some(j) =>
      var prior := b1.connections[j];
      var c := Connection(prior.id, req.name, src,
        Destination(prior.destination.id, req.destination.name, Some(req.destination.url), auth));
      assert b1.connections[j := c][j] == c;
      ReplaceConnectionValid(b1, j, c);
      (c, b1.(connections := b1.connections[j := c]))
    case None =>
      var c := Connection(b1.nextId + 1, req.name, src,
        Destination(b1.nextId, req.destination.name, Some(req.destination.url), auth));
      AppendConnectionValid(b1, c);
      (c, Backend(b1.sources, b1.connections + [c], b1.nextId + 2))
  }

  /** Replacing a Connection by one with the same id keeps the backend valid. */
  lemma ReplaceConnectionValid(b: Backend, j: nat, c: Connection)
    requires j < |b.connections| && c.id == b.connections[j].id
    ensures Valid(b) ==> Valid(b.(connections := b.connections[j := c]))
  {
  }

  /** Appending a Connection with an id above every stored one keeps the backend valid. */
  lemma AppendConnectionValid(b: Backend, c: Connection)
    requires c.id == b.nextId + 1
    ensures Valid(b) ==> Valid(Backend(b.sources, b.connections + [c], b.nextId + 2))
  {
  }

  /**
    Upserting the same request twice updates in place the second time: the
    same Connection id comes back, and no Connection or Source is added.
   */
  lemma UpsertIdempotent(b: Backend, req: UpsertRequest, url1: string, url2: string, defaultAuth: DestinationAuth)
    ensures var (c1, b1) := UpsertConnectionStep(b, req, url1, defaultAuth);
      var (c2, b2) := UpsertConnectionStep(b1, req, url2, defaultAuth);
      && c2.id == c1.id
      && b2.connections == b1.connections[ConnectionNamed(b1.connections, req.name).value := c2]
      && b2.sources == b1.sources
  {
    var (c1, b1) := UpsertConnectionStep(b, req, url1, defaultAuth);
    var named := (c: Connection) => c.name == req.name;
    var j := if ConnectionNamed(b.connections, req.name).Some? then ConnectionNamed(b.connections, req.name).value
             else |b.connections|;
    assert j < |b1.connections| && b1.connections[j] == c1;
    assert forall k :: 0 <= k < j ==> b1.connections[k] == b.connections[k];
    FirstWhereAt(b1.connections, named, j);
    assert FirstNamed(b1.sources, req.sourceName).Some? by {
      if FirstNamed(b.sources, req.sourceName).None? {
        FirstWhereAt(b1.sources, (s: Source) => s.name == req.sourceName, |b.sources|);
      }
    }
  }

  /** Whether some Connection has this id. */
  predicate HasConnection(cs: seq<Connection>, id: nat) {
    exists k :: 0 <= k < |cs| && cs[k].id == id
  }

  /** The Connections without id `id`, in stored order. */
  function WithoutConnection(cs: seq<Connection>, id: nat): (r: seq<Connection>)
    ensures forall c :: c in r <==> c in cs && c.id != id
    ensures |r| <= |cs|
    ensures HasConnection(cs, id) ==> |r| < |cs|
    decreases |cs|
  {
    if |cs| == 0 then []
    else if cs[0].id == id then WithoutConnection(cs[1..], id)
    else
      assert HasConnection(cs, id) && cs[0].id != id ==> HasConnection(cs[1..], id) by {
        if HasConnection(cs, id) && cs[0].id != id {
          var k :| 0 <= k < |cs| && cs[k].id == id;
          assert cs[1..][k - 1].id == id;
        }
      }
      [cs[0]] + WithoutConnection(cs[1..], id)
  }

  /**
    `connection.delete(id)`: fails with NotFound when no Connection has the id,
    and otherwise removes it, keeping every other Connection.
   */
  function DeleteConnectionStep(b: Backend, id: nat): (r: Result<Backend>)
    ensures r.Err? <==> !HasConnection(b.connections, id)
    ensures r.Err? ==> r.error == NotFound(id)
    ensures r.Ok? ==> && !HasConnection(r.value.connections, id)
                      && r.value.sources == b.sources && r.value.nextId == b.nextId
                      && (forall c :: c in r.value.connections <==> c in b.connections && c.id != id)
                      && |r.value.connections| < |b.connections|
  {
    if !HasConnection(b.connections, id) then Err(NotFound(id))
    else
      var rest := WithoutConnection(b.connections, id);
      Ok(Backend(b.sources, rest, b.nextId))
  }
}
