# hookdeck-pubsub in Dafny

This project models the pub/sub layer that `HookdeckPubSub` builds over the
Hookdeck webhook backend, and proves properties of that model. A *channel* is
a backend Source. Publishing is one authenticated POST to the Source's URL. A
*subscription* is a Connection from that Source to a Destination URL. The
model covers these parts:

- channel reconciliation, `channel()`: get-or-create of the Source, adoption
  of an unauthenticated Source, and refusal when the auth type differs;
- the request `publish()` sends: header merge, auth header, payload shape;
- `subscribe()`, `unsubscribe()`, and the post-processing in
  `getSubscriptions()`, `getEvents()` and `getDeliveryAttempts()`;
- the bounded pollers `waitForEvents` and `waitForDeliveryAttempts` of the
  test helpers.

The backend is abstract state: a sequence of Sources, a sequence of
Connections and an id counter (`Store.Backend`). Every SDK write that
`channel()`, `subscribe()` and `unsubscribe()` make is a `Store.Call` recorded
in a trace, together with a pure step on that state. The name-filtered Source
listing is recorded in the trace too, but it has no step. So "nothing was written"
is a statement about the trace. A few answers are inputs rather than state:

- the answer to the name-filtered Source listing (`Store.SourceListing`);
- the receive URL the backend gives a new Source;
- the auth method the backend gives a destination requested without one
  (`HOOKDECK_SIGNATURE`, test/index.ts:163-174);
- the listings and records the three list operations post-process;
- the answers the pollers receive.

Lemmas that need a listing consistent with the state use the exact-name
listing `Store.ListByName`.

Modules, one per file:

- `Errors`: `Option`, `Result`, the error kinds, and the mismatch message.
- `Base64`: the encoding `btoa` applies (section 4 of RFC 4648), its decoder
  and the round trip, plus `btoa`'s Latin-1 check.
- `Identity`: the URL token, the `conn_`/`dst_` names, and their injectivity.
- `Auth`: verification configs, ASCII lower-casing, the type comparison, and
  the publish auth header (Basic authentication as in section 2 of RFC 7617).
- `Store`: the backend records and SDK steps.
- `Registry`: `channel()`.
- `Publish`: `publish()`.
- `Subscriptions`: `subscribe()`, `unsubscribe()` and the three list
  post-processors.
- `Polling`: the two pollers, as written and corrected.
- `Scenarios`: properties of sequences of operations.

In `src/index.ts:208-225` the auth header is assigned after the caller
headers are spread in, so the auth header wins over a caller header of the
same name (`Publish.PublishHeaders`).

`Scenarios.SubscribeThenChannelAdopts` shows something about the integration
test at `test/index.ts:116-142`. That test subscribes first, then expects
`channel()` to fail with "does not match publishAuth". In the model, the
subscription creates the Source without verification, and `channel()` then
adopts it and succeeds. Those tests, at `test/index.ts:121-124` and
`test/index.ts:148-151`, call `subscribe({ name: CHANNEL_NAME, … })`.
`subscribe()` reads `channelName` (`src/index.ts:355-358`), so as written the
call names a Source `"undefined"` (`src/index.ts:366-368`) and never touches
`CHANNEL_NAME`. The scenario is about the call the tests evidently meant,
with `channelName` set to the channel.

## Model

| member | source | states |
|---|---|---|
| Errors.MismatchMessage | src/index.ts:332-338 | the mismatch error message contains the channel name, the found type (`undefined` when none), the expected type, and the words "does not match publishAuth" |
| Base64.Encode | src/index.ts:220-222 | `btoa`'s output is empty exactly for empty input and uses the section 4 alphabet of RFC 4648, with `=` only in the last two places |
| Base64.EncodeLength | src/index.ts:220-222 | the encoding of n bytes has 4·⌈n/3⌉ characters, a multiple of 4 |
| Base64.EncodePadding | src/index.ts:220-222 | the encoding ends in `=` exactly when n is not a multiple of 3 |
| Base64.DecodeEncode | src/index.ts:220-222 | decoding the encoding of any byte string gives that byte string back |
| Base64.EncodeDecode | src/index.ts:220-222 | every text the decoder accepts, which means canonical Base 64 with zero pad bits as in section 3.5 of RFC 4648, is the encoding of what it decodes to |
| Base64.DecodeInjective | src/index.ts:220-222 | each byte string has exactly one accepted Base 64 text, so `btoa`'s output is pinned by what it decodes to |
| Base64.EncodeInjective | src/index.ts:362 | distinct byte strings never encode to the same text |
| Base64.Latin1 | src/index.ts:220-222 | `btoa` accepts a string exactly when every character is below 256, and reads each character as the byte of the same value |
| Base64.Btoa | src/index.ts:362 | `btoa` fails exactly on non-Latin-1 input, and otherwise its output decodes back to the input's bytes |
| Base64.BtoaInjective | src/index.ts:362 | distinct accepted strings give distinct `btoa` outputs |
| Identity.Underscore | src/index.ts:362 | replacing every `=` by `_` keeps the length and every other character, and leaves no `=` |
| Identity.RepadUnderscore | src/index.ts:362 | the `=`→`_` replacement can be undone on base 64 text, which has no `_` |
| Identity.UrlToken | src/index.ts:362 | the URL token exists exactly for Latin-1 URLs; it contains no `=`, its length is a multiple of 4 (at least 4 for a non-empty URL), and it uses the base 64 alphabet plus `_` only in its last two places |
| Identity.UrlTokenInjective | src/index.ts:362 | distinct URLs give distinct tokens |
| Identity.SameChannelDistinctUrls | src/index.ts:362-371 | within one channel, distinct URLs never share a connection or destination name |
| Identity.DerivedNameInjective | src/index.ts:362-371 | for non-empty URLs, the derived name determines both the channel name and the URL |
| Identity.EmptyUrlCollision | src/index.ts:362-371 | with an empty URL the name no longer determines the pair: channel `a` with URL `]` and channel `a_XQ_` with the empty URL share a name |
| Auth.Lower | src/index.ts:330 | lower-casing keeps the length and maps each ASCII upper-case letter to its lower-case letter |
| Auth.LowerIdempotent | src/index.ts:330 | lower-casing twice gives the same result as lower-casing once |
| Auth.KindsMatchIgnoresConfigs | src/index.ts:326-331 | the type comparison is an equivalence, ignores letter case, and never looks at the configs |
| Auth.ApiKeyHeaderName | src/index.ts:215-216 | the API key header name is `headerKey` when it is present and non-empty, and `Authorization` otherwise |
| Auth.AuthHeader | src/index.ts:212-225 | a header is added only for the exact types `api_key` and `basic_auth`. For `api_key` it is the key under its header name; for `basic_auth` it is `Authorization: Basic …`, whose encoded part decodes to `username:password`. The only failure is `btoa` rejecting the credentials |
| Auth.BasicAuthRoundTrip | src/index.ts:219-222 | for explicit credentials, the Basic header decodes back to exactly `username:password` |
| Store.CreateSourceStep | src/index.ts:310-313 | `source.create` appends one Source with a fresh id, the given name and the given verification, and keeps ids unique |
| Store.UpdateVerificationStep | src/index.ts:321-323 | `source.update` fails with NotFound exactly when no Source has the id; otherwise it changes only the verification of that Source |
| Store.UpsertConnectionStep | src/index.ts:381 | `connection.upsert` reuses the first Source with the name, creating an unverified one if there is none. It replaces a Connection of the same name in place, keeping its id, or else appends a new one. The destination keeps the requested auth method, or gets the backend's default when none is requested. Ids stay unique |
| Store.DeleteConnectionStep | src/index.ts:401 | `connection.delete` fails with NotFound exactly when no Connection has the id; otherwise it removes that Connection and keeps every other one |
| Store.UpsertIdempotent | src/index.ts:381 | upserting the same request twice returns the same Connection id the second time, replaces that Connection in place, and adds no Source |
| Store.NamedHead | src/index.ts:305-315 | in an exact-name listing, the first listed Source is the first stored Source with that name |
| Registry.Accept | src/index.ts:326-339 | the chosen Source is accepted exactly when it has a verification whose type matches ignoring case. Otherwise the error's message contains the channel name, the found type (`undefined` when there is none), the expected type and the phrase "does not match publishAuth" |
| Registry.GetChannel | src/index.ts:292-347 | with no publish auth, `channel()` fails before any call. Otherwise it lists first and makes at most one write. A channel is issued only over a Source whose type matches. A mismatch fails with nothing written, and its message contains the channel name, the found type and the expected type. A failure leaves the backend unchanged |
| Registry.ChannelCreates | src/index.ts:305-313 | when the listing reports no match (count absent or zero, or models absent), exactly one Source is created, with the channel name and the publish auth, and it is returned without a type check |
| Registry.ChannelAdopts | src/index.ts:315-324 | an unverified first match is updated to the publish auth and accepted; every other Source and every Connection stays as it was |
| Registry.ChannelRejectsMismatch | src/index.ts:326-339 | a first match with a different type fails with only the listing call made, and the message names the channel and both types |
| Registry.ChannelReuses | src/index.ts:314-346 | a first match with a matching type is returned as it is, after only the listing call |
| Registry.ChannelIdempotent | src/index.ts:292-347 | against a backend listed exactly by name, a successful `channel()` returns a Source with the channel's name, and a second call returns the same channel and writes nothing |
| Publish.BaseHeaders | src/index.ts:208-211 | `Content-Type: application/json` comes first, and caller headers override it |
| Publish.PublishHeaders | src/index.ts:208-225 | the auth header is set last and wins over a caller header of the same name. Every other caller header passes through unchanged. With no auth header, the headers are the base headers |
| Publish.PayloadShape | src/index.ts:227-237 | a typed event's payload is an object with exactly the fields `type` and `data`, holding the event's values; an untyped event's payload is exactly its body |
| Publish.PayloadIgnoresHeaders | src/index.ts:227-237 | headers never reach the payload, and a typed event's body is ignored |
| Publish.PublishRequest | src/index.ts:207-249 | `publish()` makes one POST to the Source URL and fails only where the auth header cannot be built. The request carries the built auth header whatever the caller's headers are, and every other caller header unchanged. A typed event sends an object with exactly the fields `type` and `data` holding the event's values; any other event sends its body |
| Publish.ApiKeyPublish | src/index.ts:213-218 | under an API key policy, the request carries the key under the configured header name, and a caller header cannot replace it |
| Publish.BasicAuthPublish | src/index.ts:219-223 | under a Basic policy, the request's `Authorization` header decodes to the credentials |
| Subscriptions.BuildUpsert | src/index.ts:362-379 | the connection and destination names differ only in their prefix: `conn_` and `dst_` head the same suffix, the channel name and `_` followed by a token with no `=`. The source part holds only the channel name, the destination holds the URL and the given auth method. It fails only where `btoa` rejects the URL |
| Subscriptions.UpsertNamesDistinct | src/index.ts:362-373 | two subscribe requests share a connection name only when they have the same channel and the same URL (for non-empty URLs, or within one channel) |
| Subscriptions.Subscribe | src/index.ts:355-390 | `subscribe()` makes one upsert call and returns the stored Connection's id, channel name and URL. The destination has the requested auth method when one is given, and otherwise the backend's default |
| Subscriptions.SubscribeIdempotent | src/index.ts:364-381 | subscribing twice with the same arguments returns the same id and adds no Connection and no Source |
| Subscriptions.SubscribeLeavesSourceUnverified | src/index.ts:366-368 | subscribing to a channel with no Source creates one named after the channel, without verification |
| Subscriptions.Unsubscribe | src/index.ts:398-402 | `unsubscribe()` makes one delete call. It fails with NotFound exactly when no Connection has the id; otherwise only that Connection goes |
| Subscriptions.UnsubscribeTwice | src/index.ts:398-402 | a second `unsubscribe()` of the same id fails with NotFound |
| Subscriptions.ListedSubscriptions | src/index.ts:409-436 | exactly the Connections with a destination URL become subscriptions (id, source name, URL), and absent models give none |
| Subscriptions.KeepConcat | src/index.ts:419-433 | the filter keeps the listed order |
| Subscriptions.KeepAll | src/index.ts:419-433 | nothing is dropped exactly when every Connection has a destination URL |
| Subscriptions.Events | src/index.ts:445-466 | `getEvents()` returns the listed events as they are, or, with `includeBody`, the same number of events, each replaced by its retrieved record. It fails exactly when some listed event cannot be retrieved |
| Subscriptions.Hydrate | src/index.ts:455-462 | hydration keeps length and order, and fails on an event the store lacks |
| Subscriptions.HydrateIdempotent | src/index.ts:455-462 | with a store that keeps ids, hydration keeps every id, and hydrating twice changes nothing |
| Subscriptions.DeliveryAttempts | src/index.ts:475-498 | `getDeliveryAttempts()` visits only indices below `count` and skips missing entries, so it returns the first min(count, listed) attempts, retrieved when `includeBody` is set; absent `count` or `models` give none |
| Polling.PollFrom | test/helpers.ts:15-44 | at most the allowed number of polls, numbered one by one with the same query. It resolves with the first non-empty answer and polls no more. A failed poll ends the run, unsettled or rejected with the failure |
| Polling.PollFromTimesOut | test/helpers.ts:19-41 | the run rejects for time exactly when every poll it made came back empty, and then it made every allowed poll |
| Polling.RejectedAfterEmpty | test/helpers.ts:19-41 | a run rejected for time saw only empty answers, its last poll included |
| Polling.RejectedAfterAll | test/helpers.ts:19-41 | a run rejected for time made all the polls it was allowed |
| Polling.WaitAsWritten | test/helpers.ts:4-92 | each helper as written polls at most `waitSeconds` times with the same query, rejects at once when `waitSeconds` ≤ 0, and stays unsettled when a poll fails |
| Polling.Wait | test/helpers.ts:4-92 | each corrected helper keeps the same bounds, always settles (rejecting with a poll's failure), and its timeout reason reports `waitSeconds` |
| Polling.AsWrittenHangsOnFailure | test/helpers.ts:22-35 | when the first poll fails, either helper as written neither resolves nor rejects |
| Polling.CorrectedRejectsOnFailure | test/helpers.ts:22-35 | the corrected poller makes the same polls as the as-written one; it rejects with the failure where the as-written one hangs, and otherwise ends the same way |
| Polling.Agree | test/helpers.ts:19-41 | the two variants make the same polls from any point on |
| Polling.AsWrittenReasonIgnoresWait | test/helpers.ts:36-40 | the as-written timeout reason is the same for every wait |
| Polling.ReasonInjective | test/helpers.ts:37-39 | the corrected reason tells every wait apart |
| Polling.DecimalRoundTrip | test/helpers.ts:37-39 | the decimal text of a wait reads back as that wait |
| Scenarios.SubscribeThenChannelAdopts | test/index.ts:144-161 | a subscription made before the channel leaves an unverified Source, and `channel()` then adopts it with one update and creates no second Source |
| Scenarios.AuthDrift | src/index.ts:326-339 | a channel created under an API key policy is refused to a Basic policy client, with nothing written and both types named |
| Scenarios.CreateThenPublish | src/index.ts:309-313 | publishing on a freshly created channel sends one POST to the receive URL of the new Source |

## Left out

- The SDK calls of `getSubscriptions()`, `getEvents()` and
  `getDeliveryAttempts()` (`connection.list`, `event.list`/`retrieve`,
  `attempt.list`/`retrieve`). They only read, so they have no trace. Their
  answers are inputs: the listings and a record store keyed by id.
- The Hookdeck SDK client and its transport, pagination and server-side name
  filter. SDK answers are state steps or inputs, and transport failures are
  not modelled. Server-side defaults, such as the `HOOKDECK_SIGNATURE`
  destination auth, are inputs chosen by the backend.
- The `fetch` that `publish()` makes. The model stops at the request; the
  response is not modelled.
- `src/custom-fetcher.ts`: HTTP plumbing that nothing calls.
- pino logging and the pollers' console output.
- Timing in the pollers. `setTimeout`'s one-second delay is not modelled; only
  the order and number of polls are.
- The byte-level output of `JSON.stringify`. Payloads are modelled as JSON
  values with integer numbers only. A `data` key that is present but `undefined` is treated like any
  other value, although JSON serialisation would drop it.
- Concurrent `channel()` calls racing between the listing and the create.
- `Auth.Lower`: models `toLowerCase` on ASCII letters only, because Unicode
  case mapping is outside the model.
- The header map is case-sensitive. `fetch`'s `Headers` object folds names to
  lower case, so `authorization` and `Authorization` would collide there.
- Default arguments: `waitSeconds = 15` (`test/helpers.ts:7`, 50) and
  `includeBody = false` (`src/index.ts:445-447`, 476-478, and
  `test/helpers.ts:8`, 51). Callers of
  `Polling.WaitAsWritten`, `Polling.Wait`, `Subscriptions.Events` and
  `Subscriptions.DeliveryAttempts` pass these values explicitly.
- A fractional `waitSeconds` or attempt `count`. These are modelled as
  integers.
- `Polling.WaitAsWritten`: `functionText` stands for the source text
  of the `waitForEvents` function, which the model does not reproduce.
- The `getSubscriptions()` filters by subscription id and channel name are
  applied by the backend. The listed Connections are an input.
- `Registry.GetChannel`: the returned Source's name is stated only for the
  create branch. In the other branches it is whatever the backend's listing
  returned. Against the exact-name listing, `Registry.ChannelIdempotent` proves
  that the returned Source has the channel's name.

## Findings

| source | as written | input that shows it | evidently intended | confidence | as-written member | corrected member |
|---|---|---|---|---|---|---|
| test/helpers.ts:22-35 | the awaited `getEvents`/`getDeliveryAttempts` call sits inside an `async` timer callback with no `try`/`catch`, so a rejected poll is an unhandled rejection and the helper's promise never settles | `waitSeconds = 15` and the first poll fails | the helper rejects with the poll's failure | high, not executed | Polling.AsWrittenHangsOnFailure | Polling.CorrectedRejectsOnFailure |
| test/helpers.ts:37-39, 84-86 | the timeout reason interpolates `${waitForEvents}`, which is the function's source text, not a number; `waitForDeliveryAttempts` interpolates the same function | any `waitSeconds`, e.g. 15: the reason reads "Max iterations/timeout of async function waitForEvents… exceeded" | the reason reports the number of seconds or iterations waited | high, not executed | Polling.AsWrittenReasonIgnoresWait | Polling.ReasonInjective |
