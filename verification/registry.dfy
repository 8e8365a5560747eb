/**
  Channel reconciliation: get-or-create of the Source behind a named channel,
  with adoption of an unauthenticated Source and refusal of a Source whose
  verification type differs from the configured publish auth.
 */
module Registry {
  import opened Errors
  import opened Auth
  import opened Store

  /** The publish-capable handle: the backing Source and the publish auth. */
  datatype Channel = Channel(source: Source, publishAuth: Verification)

  /** One run of an operation: its result, the SDK calls it issued in order, the backend after it. */
  datatype Run<T> = Run(result: Result<T>, calls: seq<Call>, after: Backend)

  /** JavaScript truthiness of an optional count: absent and zero are falsy. */
  predicate Truthy(count: Option<int>) {
    count.Some? && count.value != 0
  }

  /** The listing says no Source matched: the create branch is taken. */
  predicate ListsNothing(listing: SourceListing) {
    !Truthy(listing.count) || listing.models.None?
  }

  /**
    The final check on the chosen Source: it must carry a verification whose
    type equals the configured one ignoring case.
   */
  function Accept(name: string, source: Source, auth: Verification): (r: Result<Channel>)
    ensures r.Ok? <==> source.verification.Some? && KindsMatch(source.verification.value, auth)
    ensures r.Ok? ==> r.value == Channel(source, auth)
    ensures r.Err? ==> r.error == AuthMismatch(name, if source.verification.Some? then Some(source.verification.value.kind) else None, auth.kind)
    // The refusal names the channel, the type found (`undefined` when there is none) and the type expected.
    ensures r.Err? ==>
      && IsInfix(name, Message(r.error))
      && IsInfix(Show(r.error.found), Message(r.error))
      && (source.verification.Some? ==> IsInfix(source.verification.value.kind, Message(r.error)))
      && IsInfix(auth.kind, Message(r.error))
      && IsInfix("does not match publishAuth", Message(r.error))
  {
    if source.verification.None? || !KindsMatch(source.verification.value, auth) then
      Err(AuthMismatch(name, if source.verification.Some? then Some(source.verification.value.kind) else None, auth.kind))
    else
      Ok(Channel(source, auth))
  }

  /**
    `channel({name})`. `listing` is the backend's answer to the name-filtered
    source listing and `receiveUrl` the URL the backend gives a Source it
    creates.
   */
  function GetChannel(publishAuth: Option<Verification>, name: string, b: Backend,
                      listing: SourceListing, receiveUrl: string): (run: Run<Channel>)
    // Without a publish auth, nothing is asked of the backend and nothing changes.
    ensures publishAuth.None? ==> run == Run(Err(ConfigurationError), [], b)
    // Otherwise the listing comes first, and at most one write follows it.
    ensures publishAuth.Some? ==> 1 <= |run.calls| <= 2 && run.calls[0] == ListSources(name)
    ensures forall k :: 1 <= k < |run.calls| ==> IsWrite(run.calls[k])
    // A channel is only ever issued over a Source whose type matches the policy.
    ensures run.result.Ok? ==>
      && publishAuth.Some?
      && run.result.value.publishAuth == publishAuth.value
      && run.result.value.source.verification.Some?
      && KindsMatch(run.result.value.source.verification.value, publishAuth.value)
      && (ListsNothing(listing) ==> run.result.value.source.name == name)
      && (!ListsNothing(listing) ==>
            |listing.models.value| > 0 && run.result.value.source.id == listing.models.value[0].id)
    // A type mismatch is reported without any write, naming both types.
    ensures run.result.Err? && run.result.error.AuthMismatch? ==>
      && run.calls == [ListSources(name)] && run.after == b
      && run.result.error.channel == name
      && run.result.error.expected == publishAuth.value.kind
      && IsInfix(name, Message(run.result.error))
      && IsInfix(Show(run.result.error.found), Message(run.result.error))
      && IsInfix(publishAuth.value.kind, Message(run.result.error))
      && IsInfix("does not match publishAuth", Message(run.result.error))
    // A failed run leaves the backend as it was.
    ensures run.result.Err? ==> run.after == b
  {
    if publishAuth.None? then
      Run(Err(ConfigurationError), [], b)
    else
      var auth := publishAuth.value;
      if ListsNothing(listing) then
        var (created, b') := CreateSourceStep(b, name, Some(auth), receiveUrl);
        Run(Ok(Channel(created, auth)), [ListSources(name), CreateSource(name, auth)], b')
      else if |listing.models.value| == 0 then
        // `models[0]` is undefined and reading its verification throws.
        Run(Err(TypeError), [ListSources(name)], b)
      else
        var found := listing.models.value[0];
        if found.verification.None? then
          match UpdateVerificationStep(b, found.id, auth)
          case Err(e) => Run(Err(e), [ListSources(name), UpdateSource(found.id, auth)], b)
          case Ok((updated, b')) =>
            Run(Accept(name, updated, auth), [ListSources(name), UpdateSource(found.id, auth)], b')
        else
          Run(Accept(name, found, auth), [ListSources(name)], b)
  }

  /**
    When the listing reports no match (count absent or zero, or models absent),
    exactly one Source is created, named after the channel and verified with
    the publish auth, and it is returned as is.
   */
  lemma ChannelCreates(auth: Verification, name: string, b: Backend, listing: SourceListing, receiveUrl: string)
    requires ListsNothing(listing)
    ensures var run := GetChannel(Some(auth), name, b, listing, receiveUrl);
      && run.calls == [ListSources(name), CreateSource(name, auth)]
      && run.result == Ok(Channel(Source(b.nextId, name, receiveUrl, Some(auth)), auth))
      && run.after.sources == b.sources + [run.result.value.source]
      && run.after.connections == b.connections
  {
  }

  /**
    When the first listed Source has no verification, only that Source is
    updated to the publish auth, and the updated Source is accepted; every
    other Source and every Connection is left as it was.
   */
  lemma ChannelAdopts(auth: Verification, name: string, b: Backend, listing: SourceListing, receiveUrl: string)
    requires !ListsNothing(listing) && |listing.models.value| > 0
    requires listing.models.value[0].verification.None?
    requires SourceIndex(b.sources, listing.models.value[0].id).Some?
    ensures var run := GetChannel(Some(auth), name, b, listing, receiveUrl);
      var id := listing.models.value[0].id;
      && run.calls == [ListSources(name), UpdateSource(id, auth)]
      && run.result.Ok?
      && run.result.value.source.id == id
      && run.result.value.source.verification == Some(auth)
      && |run.after.sources| == |b.sources|
      && (forall k :: 0 <= k < |b.sources| && b.sources[k].id != id ==> run.after.sources[k] == b.sources[k])
      && run.after.connections == b.connections
  {
  }

  /**
    When the first listed Source carries a verification of another type
    (compared ignoring case), the run fails with nothing written, and the
    message names the channel, the found type and the expected type.
   */
  lemma ChannelRejectsMismatch(auth: Verification, name: string, b: Backend, listing: SourceListing, receiveUrl: string)
    requires !ListsNothing(listing) && |listing.models.value| > 0
    requires listing.models.value[0].verification.Some?
    requires !KindsMatch(listing.models.value[0].verification.value, auth)
    ensures var run := GetChannel(Some(auth), name, b, listing, receiveUrl);
      var found := listing.models.value[0].verification.value.kind;
      && run == Run(Err(AuthMismatch(name, Some(found), auth.kind)), [ListSources(name)], b)
      && IsInfix(name, Message(run.result.error))
      && IsInfix(found, Message(run.result.error))
      && IsInfix(auth.kind, Message(run.result.error))
      && IsInfix("does not match publishAuth", Message(run.result.error))
  {
  }

  /** A first listed Source whose type matches is reused as is, with nothing written. */
  lemma ChannelReuses(auth: Verification, name: string, b: Backend, listing: SourceListing, receiveUrl: string)
    requires !ListsNothing(listing) && |listing.models.value| > 0
    requires listing.models.value[0].verification.Some?
    requires KindsMatch(listing.models.value[0].verification.value, auth)
    ensures GetChannel(Some(auth), name, b, listing, receiveUrl)
         == Run(Ok(Channel(listing.models.value[0], auth)), [ListSources(name)], b)
  {
  }

  /** Appending a Source extends the exact listing by it when it has the name. */
  lemma {:induction false} NamedAppend(a: seq<Source>, s: Source, name: string)
    ensures Named(a + [s], name) == Named(a, name) + (if s.name == name then [s] else [])
    decreases |a|
  {
    if |a| == 0 {
      assert a + [s] == [s];
      assert [s][1..] == [];
    } else {
      assert (a + [s])[1..] == a[1..] + [s];
      NamedAppend(a[1..], s, name);
    }
  }

  /** Changing anything but names leaves the first match by name where it was. */
  lemma {:induction false} FirstNamedSameNames(a: seq<Source>, c: seq<Source>, name: string)
    requires |a| == |c|
    requires forall k :: 0 <= k < |a| ==> a[k].name == c[k].name
    ensures FirstNamed(a, name) == FirstNamed(c, name)
    decreases |a|
  {
    if |a| > 0 {
      FirstNamedSameNames(a[1..], c[1..], name);
    }
  }

  /** In a valid backend, a Source's id finds that Source. */
  lemma SourceIndexOfValid(b: Backend, j: nat)
    requires Valid(b) && j < |b.sources|
    ensures SourceIndex(b.sources, b.sources[j].id) == Some(j)
  {
  }

  /**
    Against a valid backend listed exactly by name, `channel` is idempotent: a
    second call after a successful one returns the same channel, lists and
    writes nothing.
   */
  lemma ChannelIdempotent(auth: Verification, name: string, b: Backend, url1: string, url2: string)
    requires Valid(b)
    requires GetChannel(Some(auth), name, b, ListByName(b, name), url1).result.Ok?
    ensures var run1 := GetChannel(Some(auth), name, b, ListByName(b, name), url1);
      var run2 := GetChannel(Some(auth), name, run1.after, ListByName(run1.after, name), url2);
      && run1.result.value.source.name == name
      && run2.result == run1.result
      && run2.calls == [ListSources(name)]
      && run2.after == run1.after
  {
    var listing := ListByName(b, name);
    var run1 := GetChannel(Some(auth), name, b, listing, url1);
    var src := run1.result.value.source;
    NamedHead(b.sources, name);
    // The second listing leads with the Source the first call returned ...
    assert |Named(run1.after.sources, name)| > 0 && Named(run1.after.sources, name)[0] == src by {
      if ListsNothing(listing) {
        ChannelCreates(auth, name, b, listing, url1);
        NamedAppend(b.sources, src, name);
        assert Named(run1.after.sources, name) == [src];
      } else {
        var j := FirstNamed(b.sources, name).value;
        var found := listing.models.value[0];
        assert found == b.sources[j];
        if found.verification.None? {
          SourceIndexOfValid(b, j);
          var after := run1.after.sources;
          FirstNamedSameNames(b.sources, after, name);
          NamedHead(after, name);
          assert after[j] == src;
        } else {
          assert KindsMatch(found.verification.value, auth);
          ChannelReuses(auth, name, b, listing, url1);
        }
      }
    }
    assert src.name == name by {
      assert src in Named(run1.after.sources, name);
    }
    // ... which already matches the policy, so it is reused as is.
    assert run1.result == Ok(Channel(src, auth));
    ChannelReuses(auth, name, run1.after, ListByName(run1.after, name), url2);
  }
}
