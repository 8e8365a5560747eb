/**
  Sequences of operations across the layer: a subscription made before the
  channel is registered, two clients with different publish policies on one
  channel name, and publishing on a freshly created channel.
 */
module Scenarios {
  import opened Errors
  import opened Auth
  import opened Store
  import opened Registry
  import opened Subscriptions
  import opened Publish
  import opened Base64

  /**
    Subscribing to a channel name no Source has yet creates an unverified
    Source; registering the channel afterwards adopts that Source: it is
    updated to the publish auth and the channel is issued over it, without a
    second Source being created.
   */
  lemma SubscribeThenChannelAdopts(b: Backend, req: SubscribeRequest, auth: Verification, url1: string, url2: string, defaultAuth: DestinationAuth)
    requires Valid(b)
    requires FirstNamed(b.sources, req.channelName).None?
    requires IsLatin1(req.url)
    ensures var sub := Subscribe(b, req, url1, defaultAuth);
      var run := GetChannel(Some(auth), req.channelName, sub.after, ListByName(sub.after, req.channelName), url2);
      && sub.result.Ok?
      && var id := sub.result.value.connection.source.id;
      && run.calls == [ListSources(req.channelName), UpdateSource(id, auth)]
      && run.result.Ok?
      && run.result.value.source.id == id
      && run.result.value.source.verification == Some(auth)
      && |run.after.sources| == |b.sources| + 1
  {
    var sub := Subscribe(b, req, url1, defaultAuth);
    assert sub.result.Ok?;
    var src := sub.result.value.connection.source;
    var after := sub.after;
    assert after.sources == b.sources + [src] && src.verification.None? && src.name == req.channelName by {
      SubscribeLeavesSourceUnverified(b, req, url1, defaultAuth);
    }
    var listing := ListByName(after, req.channelName);
    assert listing.models.value == [src] by {
      NamedHead(b.sources, req.channelName);
      NamedAppend(b.sources, src, req.channelName);
    }
    assert SourceIndex(after.sources, src.id).Some? by {
      assert after.sources[|b.sources|].id == src.id;
    }
    ChannelAdopts(auth, req.channelName, after, listing, url2);
  }

  /**
    A channel registered with an API key policy and then requested by a client
    configured for Basic authentication is refused, without any write, with a
    message naming both types.
   */
  lemma AuthDrift(b: Backend, name: string, apiKey: Verification, basic: Verification, url1: string, url2: string)
    requires Valid(b)
    requires FirstNamed(b.sources, name).None?
    requires apiKey.kind == "api_key" && basic.kind == "basic_auth"
    ensures var first := GetChannel(Some(apiKey), name, b, ListByName(b, name), url1);
      var second := GetChannel(Some(basic), name, first.after, ListByName(first.after, name), url2);
      && first.result.Ok?
      && second == Run(Err(AuthMismatch(name, Some("api_key"), "basic_auth")), [ListSources(name)], first.after)
      && IsInfix("api_key", Message(second.result.error))
      && IsInfix("basic_auth", Message(second.result.error))
  {
    var first := GetChannel(Some(apiKey), name, b, ListByName(b, name), url1);
    NamedHead(b.sources, name);
    ChannelCreates(apiKey, name, b, ListByName(b, name), url1);
    var created := first.result.value.source;
    NamedAppend(b.sources, created, name);
    assert Named(first.after.sources, name) == [created];
    assert !KindsMatch(apiKey, basic) by {
      assert |Lower(apiKey.kind)| != |Lower(basic.kind)|;
    }
    ChannelRejectsMismatch(basic, name, first.after, ListByName(first.after, name), url2);
  }

  /**
    Publishing on a channel just created sends one POST to the receive URL the
    backend gave the new Source.
   */
  lemma CreateThenPublish(b: Backend, name: string, auth: Verification, listing: SourceListing, receiveUrl: string, e: PublishEvent)
    requires ListsNothing(listing)
    requires AuthHeader(Some(auth)).Ok?
    ensures var run := GetChannel(Some(auth), name, b, listing, receiveUrl);
      && run.result.Ok?
      && PublishRequest(run.result.value, e).Ok?
      && PublishRequest(run.result.value, e).value.url == receiveUrl
      && PublishRequest(run.result.value, e).value.verb == "POST"
  {
    ChannelCreates(auth, name, b, listing, receiveUrl);
  }
}
