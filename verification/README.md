# snrub core in Dafny

A model of the three pieces of the snrub feed subscriber that hold its
logic:

- **Dedup** (`dedup.dfy`, `dedup_properties.dfy`) is the per-topic
  moving window of entry ids. `newEntries` reports the entries of a batch
  whose ids the window does not hold. It adds them, then evicts every
  item scored below the batch's earliest timestamp. `allEntries` lists
  the window in score order.
- **Listener** (`codec.dfy`, `listener.dfy`, `listener_properties.dfy`)
  covers the PubSubHubbub subscriber side:
  - the connect middleware answering hub verifications (GET) and content
    deliveries (POST) under the callback prefix;
  - the subscribe and unsubscribe forms posted to a hub, and how the hub's
    first answer is read;
  - the path and token providers, modelled as abstract sealing codecs.
- **Scheduler** (`scheduler.dfy`, `scheduler_properties.dfy`) is the
  polling state machine. It covers registration with the default policy,
  choosing the request (temporary redirect or conditional GET), the case
  analysis of a response, back-off and retry, stopping, permanent and
  temporary redirects, and resuming all records on `start`.

Everything is a pure function on immutable values. Each component has a
mutable object in the source, and in the model its state is passed in and
returned:
- the dedup topic table is a `map<string, Window>`;
- the scheduler's state table is a `map<string, PollState>`.

Events the source emits, and timers it would arm, are returned as values:
`Event`s from the middleware and `Effect`s from the scheduler. The clock
(`+new Date`), the random nonce of a token and the network are
parameters.

The encrypting providers are modelled as a `Cipher` pair of functions
`seal`/`open`. The predicate `Codec.Ideal` says that opening a sealed
value gives it back. Round-trip properties are stated under that
hypothesis, not assumed.

Where the protocol's usual reading and the code differ, the model
follows the code:
- A verification with a missing parameter is answered 404, not 400.
- A verification for an unknown path is answered without an `error`
  event.
- The lease is posted as `lease_seconds`, not `hub.lease_seconds`.
- The back-off ceiling compares the next interval with the *current*
  interval times the limit. With the default policy (multiplier 2,
  limit 8) a failing feed therefore backs off forever
  (`SchedulerProperties.DefaultPolicySurvivesFailures`, for any run of
  transient failures) instead of stopping after a few retries.
- With a positive interval, retrying never stops a record whose multiplier is within its limit
  (`SchedulerProperties.ExhaustedIffMultiplierExceedsLimit`).
- When retries run out, the `poll_error` event carries the
  "Retries exceeded" result, not the failure that caused it. The source
  reads the record after `_retryWithBackoff` has overwritten it.
- Dedup reports each id at most once only while the window still holds
  it. An id evicted by one batch is reported again by any next batch
  that carries it (`DedupProperties.EvictedIdReportedAgain`, with
  `DedupProperties.RepeatAfterEvictionReports` as an instance).

## Model

| member | source | states |
|---|---|---|
| Dedup.Add | lib/dedup.js:89-92 | the id maps to the new item; every other id keeps its presence and item |
| Dedup.RemoveLessThan | lib/dedup.js:98-105 | exactly the items scored at or above the bound remain, unchanged |
| Dedup.All | lib/dedup.js:107-118 | the data of every item, each once, in non-decreasing score order (some score-ordered enumeration of the keys) |
| Dedup.Includes | lib/dedup.js:94-96 | an id counts as held exactly when the window has an item for it (a stored item is an object, so always truthy) |
| Dedup.Visit | lib/dedup.js:44-52 | one step of the loop: the id joins the window, held items are untouched, the running minimum drops to the timestamp if lower, and the entry is pushed and stored with its timestamp exactly when its id was not held |
| Dedup.TopicSet | lib/dedup.js:63-72 | an existing topic's window is returned; a missing topic gets an empty window that is stored in the table |
| Dedup.Earliest | lib/dedup.js:42-47 | the minimum timestamp of the batch, or Number.MAX_VALUE for an empty batch |
| Dedup.AbsorbEarliest | lib/dedup.js:44-47 | the running minimum of the loop equals the batch minimum |
| Dedup.AbsorbKeys | lib/dedup.js:48-51 | after the loop the window holds the old ids plus the batch ids, and old items are untouched |
| Dedup.AbsorbNewer | lib/dedup.js:48-51 | the entries the loop pushes are exactly the first sightings of ids the window did not hold |
| Dedup.AbsorbItem | lib/dedup.js:48-50 | a first sighting is stored with its own timestamp as score |
| Dedup.AbsorbItems | lib/dedup.js:48-50 | every first sighting of the batch is stored with its own timestamp as score |
| Dedup.NewEntries | lib/dedup.js:40-55 | reports the first sightings in order; other topics unchanged; held ids survive iff scored at or above the batch minimum; new ids are stored with their timestamps; no item below the minimum remains |
| Dedup.AllEntries | lib/dedup.js:58-61 | the window's data in score order; an unknown topic gets an empty window and yields nothing |
| DedupProperties.FirstSightingsAreSightings | lib/dedup.js:44-51 | every reported entry is the first occurrence in the batch of an id the window lacked |
| DedupProperties.FirstSightingsDistinct | lib/dedup.js:48-51 | reported ids are pairwise distinct and none was already held |
| DedupProperties.DistinctBatchAllFirstSightings | lib/dedup.js:48-51 | against an empty window a batch of distinct ids is reported whole |
| DedupProperties.HeldBatchReportsNothing | lib/dedup.js:48-51 | a batch whose ids are all held reports nothing |
| DedupProperties.NewEntriesDistinct | lib/dedup.js:40-55 | one call never reports an id twice, nor an id the window held |
| DedupProperties.NewEntriesRetained | lib/dedup.js:48-53 | every reported entry is in the window afterwards, scored by its timestamp |
| DedupProperties.FreshTopicReturnsBatch | test/dedup.js:13-16 | a new topic reports a batch of distinct ids unchanged |
| DedupProperties.HeldBatchKeepsWindow | lib/dedup.js:48-53 | a batch of held ids, none older than the window, leaves the window as it was |
| DedupProperties.RepeatBatchReturnsNothing | test/dedup.js:13-18 | replaying the batch that created a topic reports nothing and changes nothing |
| DedupProperties.TopicsIsolated | test/dedup.js:20-25 | two topics keep separate windows: the same batch is new to both |
| DedupProperties.EmptyBatchEmptiesWindow | lib/dedup.js:42-53 | an empty batch reports nothing and, its minimum being Number.MAX_VALUE, empties the window |
| DedupProperties.ReappearingIdEvicted | lib/dedup.js:48-53 | a held id older than every timestamp of a batch that repeats it is not reported and is evicted |
| DedupProperties.EvictedIdReportedAgain | lib/dedup.js:48-53 | a held id scored below a batch's earliest timestamp is evicted by it, and any next batch carrying the id reports it |
| DedupProperties.RepeatAfterEvictionReports | lib/dedup.js:48-53 | an instance: `a`@0 held, the batch [`a`@5] reports nothing, and the same batch again reports `a`@5 |
| DedupProperties.FirstSightingReported | lib/dedup.js:48-51 | the first occurrence of an id the window does not hold is among the reported entries |
| DedupProperties.OverlappingBatches | test/dedup.js:27-34 | batches {1,2} then {2,3} report {1,2} then {3}, leaving ids 2 and 3 |
| DedupProperties.AllNewThenNothing | test/dedup.js:13-18 | the three-entry batch is new once, then reports nothing |
| Codec.PathCreate | lib/listener.js:267 | a callback path starts with a slash and, for an ideal cipher, looks up to the memo it sealed |
| Codec.PathLookup | lib/listener.js:268-273 | only a path starting with a slash can decode; such a path decodes to what its tail opens to |
| Codec.TokenCreate | lib/listener.js:251-263 | for an ideal cipher the token validates exactly for its own action and non-empty topic |
| Codec.TokenLookup | lib/listener.js:258-263 | a token validates only for a non-empty topic; one that opens to a grant for this action and topic validates whatever its nonce; a grant for another action or topic never validates |
| Listener.RespondError | lib/listener.js:209-212 | one `error` event carrying mode and topic, and a reply with the given status whose body is the event's reason |
| Listener.VerifyKnown | lib/listener.js:73-116 | a known memo: 200 with the challenge iff the mode is unsubscribe or an unexpired subscribe and the token was minted for that mode and topic, emitting subscribe/unsubscribe with the user data; otherwise 404 with an error event carrying the reply's reason |
| Listener.Verify | lib/listener.js:47-138 | (corrected; as written: Listener.MiddlewareAsWritten) a GET is always answered 200 or 404; missing parameters get 404 "Missing parameters" with an event; a 200 echoes the challenge; no event is emitted exactly when the parameters are complete and the path decodes to nothing |
| Listener.Deliver | lib/listener.js:139-160 | a POST is answered 200 iff its path decodes, then with an empty body and one update carrying the user data, the joined chunks and the headers; otherwise 404 "Unknown subscription" and no event |
| Listener.Concat | lib/listener.js:149-153 | a single chunk is the body itself |
| Listener.VerifyUnknown | lib/listener.js:117-136 | (corrected; as written: Listener.VerifyUnknownAsWritten) no memo: unsubscribe is agreed with the challenge, anything else is 404 "Unknown subscription", and no event is emitted |
| Listener.VerifyUnknownAsWritten | lib/listener.js:130-133 | the unsubscribe branch throws; otherwise as the corrected branch |
| Listener.Middleware | lib/listener.js:42-167 | (corrected; as written: Listener.MiddlewareAsWritten) requests outside the prefix go to the next handler; verbs other than GET and POST get no answer; answers are 200 or 404 with at most one event; a 200 to a GET echoes the challenge; a 200 to a POST has an empty body and one event |
| Listener.MiddlewareAsWritten | lib/listener.js:130-133 | the source's middleware throws exactly on an unsubscribe verification for an unknown path, and otherwise agrees with the corrected one |
| Listener.Subscription | lib/listener.js:277-283 | the memo carries the user data, with an expiry only for a non-zero lease without auto-renewal, set lease seconds after now |
| Listener.SubscribeRequest | lib/listener.js:181-196 | the form fields, lease and secret when given, callback = host + prefix + path, the path looks up to the memo, and the token validates only for subscribe on this topic |
| Listener.UnsubscribeRequest | lib/listener.js:198-207 | the unsubscribe form for a kept path, whose token validates only for unsubscribe on this topic |
| Listener.HubAnswer | lib/listener.js:221-228 | 202 and 204 hand back the path, anything else hands back the status |
| ListenerProperties.AcknowledgedPathVerifies | lib/listener.js:221-228 | when the hub acknowledges a subscribe form (202/204), the path handed to the callback is one the hub's verification then succeeds on, with the subscriber's data; any other status yields the status and no path |
| ListenerProperties.VerificationDecision | lib/listener.js:57-137 | (corrected; as written: Listener.MiddlewareAsWritten) a verification is answered 200 with the challenge iff the parameters are present and the memo/mode/expiry/token rules agree; otherwise 404, with an error event unless the path is unknown |
| ListenerProperties.MissingParametersRejected | lib/listener.js:57-60 | a missing or empty parameter is answered 404 "Missing parameters" with an error event |
| ListenerProperties.ExpiredSubscriptionRejected | lib/listener.js:82-86 | a subscribe verification past the memo's expiry (`Listener.Expired`: an expiry that is set, non-zero and earlier than now) is refused, whatever the token |
| ListenerProperties.KnownMemoRejections | lib/listener.js:94-115 | an unknown mode or a token not minted for this mode and topic is refused with the matching reason |
| ListenerProperties.UnknownPathAnswers | lib/listener.js:117-160 | (corrected; as written: Listener.MiddlewareAsWritten) an unknown path: POST gets 404, a complete GET gets 200 for unsubscribe and 404 otherwise, no event |
| ListenerProperties.ContentDelivered | lib/listener.js:139-157 | a POST to a known path emits one update with the user data, the joined body and the headers, answered 200 |
| ListenerProperties.ConcatSplits | lib/listener.js:149-153 | joining chunks distributes over concatenation |
| ListenerProperties.SubscribeThenVerify | test/subscriber.js:32-53 | the hub's verification of a subscription this listener requested succeeds before the deadline and emits the user data |
| ListenerProperties.NegativeLeaseExpires | test/subscriber.js:74-92 | a negative lease without auto-renewal makes the verification fail as expired |
| ListenerProperties.SubscribeTokenDoesNotUnsubscribe | lib/listener.js:258-263 | a subscribe token cannot confirm an unsubscribe |
| ListenerProperties.UnsubscribeThenVerify | lib/listener.js:198-207 | unsubscribing with the kept path is confirmed and emits the subscription's user data |
| ListenerProperties.MemoOfSubscribe | lib/listener.js:182-185 | the memo sealed into the path: user data (`Listener.UserData`) is the `data` option when truthy and the topic otherwise; expiry iff a lease without auto-renewal |
| ListenerProperties.UnknownUnsubscribeThrows | lib/listener.js:130-133 | on an unknown-path unsubscribe the source throws where the intended answer is 200 with the challenge |
| ListenerProperties.UnknownUnsubscribeWitness | lib/listener.js:130-133 | a concrete stale callback path on which the source throws |
| Scheduler.DefaultInitialState | lib/scheduler.js:298-314 | a running record polling the URL every 600 s, multiplier 2, limit 8, no validators and no result |
| Scheduler.Merge | lib/scheduler.js:38-40 | each of the ten fields is the option when given and the record's own value otherwise, no options change nothing, and a whole record passed as options over the default record yields that record |
| Scheduler.Register | lib/scheduler.js:26-46 | a known URL is left alone; a new one gets the default record overridden by each given option, interval reset to the base interval, and is polled at once; other records unchanged |
| Scheduler.SelectRequest | lib/scheduler.js:123-139 | (corrected; as written: Scheduler.SelectRequestAsWritten) a pending temporary redirect is used once and cleared; otherwise the stored request is sent with If-None-Match / If-Modified-Since from the validators and its other headers kept |
| Scheduler.SelectRequestAsWritten | lib/scheduler.js:127-138 | the source fails exactly when it must set a validator header on a request that has no headers object |
| Scheduler.Schedule | lib/scheduler.js:261-266 | a delay for the record's URL of its current interval in milliseconds |
| Scheduler.Ok | lib/scheduler.js:96-102 | the back-off is reset and the next poll is scheduled at the base interval |
| Scheduler.RetryWithBackoff | lib/scheduler.js:276-294 | when the multiplied interval exceeds interval × limit the record stops with "Retries exceeded" and an `error` event; otherwise the interval is multiplied and scheduled |
| Scheduler.Retry | lib/scheduler.js:104-112 | records the failure, backs off or stops, and emits `poll_error` with the record's result as it stands afterwards |
| Scheduler.Stop | lib/scheduler.js:114-121 | the record is stopped with the failure recorded and `poll_error` emitted, nothing scheduled |
| Scheduler.Complete | lib/scheduler.js:146-253 | a completion touches only the polled record and never changes its policy fields; a record for any other new URL appears only on a 301 |
| Scheduler.PollOnce | lib/scheduler.js:123-146 | (corrected; as written: Scheduler.SelectRequestAsWritten) an unknown URL does nothing; otherwise the chosen request is sent |
| Scheduler.Start | lib/scheduler.js:57-81 | (corrected; as written: Scheduler.StartAsWritten) every record not stopped is resumed: polled at once iff overdue, else after the remaining milliseconds |
| Scheduler.StartAsWritten | lib/scheduler.js:64-76 | as written, any record with a result gets a NaN delay |
| SchedulerProperties.Fetch200 | lib/scheduler.js:151-183 | a 200 is accepted iff its body is complete: then validators stored, interval reset and `update` emitted; otherwise retried |
| SchedulerProperties.NotModifiedLikeFetched | lib/scheduler.js:185-188 | a 304 does what a complete 200 without validators does, minus the `update` |
| SchedulerProperties.FatalStatuses | lib/scheduler.js:195-211 | every 4xx except 404 stops the record with its reason |
| SchedulerProperties.TransientOutcomesRetry | lib/scheduler.js:190-253 | 404, 5xx, a short body, a redirect without location and a connection error all retry |
| SchedulerProperties.OnlyTransientOutcomesRetry | lib/scheduler.js:151-253 | the converse: an outcome that takes the retry path is one of the transient ones |
| SchedulerProperties.UnmatchedStatusesInert | lib/scheduler.js:151-250 | a status below 400 that no branch matches leaves the record as it was and schedules nothing |
| SchedulerProperties.ExhaustedIffMultiplierExceedsLimit | lib/scheduler.js:279-280 | with a positive interval, retries run out iff the multiplier exceeds the limit, whatever the interval |
| SchedulerProperties.ServerErrorsBackOff | lib/scheduler.js:246-248 | with a positive interval and 1 ≤ multiplier ≤ limit, n responses in a row with the same status ≥ 500 leave the record running with interval × multiplier^n |
| SchedulerProperties.ServerErrorRetries | lib/scheduler.js:246-248 | every status from 500 up takes the retry path with a server-error reason carrying that status |
| SchedulerProperties.DefaultPolicyNeverGivesUp | lib/scheduler.js:303-307 | with the default policy, a fresh feed after n responses in a row with the same status ≥ 500 is still running, polled every 600·2^n s |
| SchedulerProperties.TransientBacksOff | lib/scheduler.js:276-293 | one transient outcome multiplies the interval of a running record whose multiplier is within its limit, keeping it running and its policy unchanged |
| SchedulerProperties.TransientFailuresBackOff | lib/scheduler.js:276-293 | with a positive interval and 1 ≤ multiplier ≤ limit, any run of n transient outcomes leaves the record running with interval × multiplier^n |
| SchedulerProperties.DefaultPolicySurvivesFailures | lib/scheduler.js:303-307 | with the default policy, a fresh feed after any run of n transient failures is still running, polled every 600·2^n s |
| SchedulerProperties.PermanentRedirect | lib/scheduler.js:213-227 | a 301 records the redirect and registers the new location with the moved record, unless it already has a record |
| SchedulerProperties.TemporaryRedirect | lib/scheduler.js:229-244 | a temporary redirect polls the location once, then the original request resumes |
| SchedulerProperties.PermanentRedirectLosesHeaders | lib/scheduler.js:213-222 | after a 301 from a record with validators, the source cannot build the next request while the corrected model sends a conditional GET |
| SchedulerProperties.PermanentRedirectLosesHeadersWitness | lib/scheduler.js:132-134 | a concrete record with an ETag and a 301 showing the failure |
| SchedulerProperties.StartIgnoresLastResultAsWritten | lib/scheduler.js:66-76 | an overdue record with a result is polled at once by the corrected `start` but gets a NaN delay as written |
| SchedulerProperties.StartIgnoresLastResultWitness | lib/scheduler.js:66-76 | a concrete registered record whose first fetch makes `start` misbehave |
| SchedulerProperties.DelayedRecordIsDue | lib/scheduler.js:96-112 | a completion that schedules the next poll after d ms leaves the record running and due exactly d ms after the completion |
| SchedulerProperties.StartHonoursScheduledDelay | lib/scheduler.js:57-81 | (corrected; as written: Scheduler.StartAsWritten) resumed at any moment of a scheduled wait, a record waits out exactly what is left of it |
| SchedulerProperties.StartSkipsStopped | lib/scheduler.js:65 | `start` resumes exactly the running records |

## Left out

- Cryptography, base64, `encodeURIComponent` and JSON are abstracted into `Codec.Cipher`. Round trips are proved for an ideal cipher.
- In the source, a malformed ciphertext makes `decipher.final` throw, because that call sits outside the `try`. The model's `open` returns `None` instead. Likewise, a path whose percent-escapes do not decode (such as `/%zz`) makes `decodeURIComponent` throw a URIError in `lookup` (lib/listener.js:270), an exception the middleware does not catch; the model folds the percent-decoding into the cipher's `open`, which answers `None` for such a path, so `PathLookup` returns `None` and the request is answered as an unknown subscription.
- The path and token providers share one secret, so in the source a token could be presented as a callback path. The model gives them separate ciphers.
- The nonce of a token is a parameter, not random bytes.
- HTTP transport is left out. That covers `url.parse`: in the source, a 301 or 302/303/307 whose `Location` is relative yields a request with no protocol, so the next poll throws on `PROTOCOLS[undefined].get` (lib/scheduler.js:146, 218, 235), while the model polls the location as given. It also covers querystring encoding and decoding, repeated query keys, `Content-Length` parsing, encodings and chunk boundaries.
- The request's byte count is given as `received`, and bodies are strings.
- The prefix is a regular expression built from a string and matched against the whole URL. The model treats it as a literal prefix of the path.
- Node's EventEmitter throws when `error` is emitted with no listener attached. The model assumes a listener is attached.
- Console logging is not modelled.
- `subscribeRequest` attaches no handler for a failed connection to the hub, so that path is not modelled.
- Timers and concurrency are left out. The source's `_pollAfterMillis` arms no timer; the model records a `Delay` effect instead.
- Object aliasing is not modelled: the request object shared between the old and the re-registered record after a 301, and mutation of the request by the HTTP agent.
- Only the default scheduling policy is modelled. A custom policy passed to `TimerScheduler` is not.
- Options are the record's own fields, not arbitrary keys.
- Intervals, multipliers and limits are integers, not floating-point numbers.
- User data is a string, not any JSON value.
- Failure reasons are a datatype, not rendered message strings.
- Dedup.Absorb: the loop's fold carries no contract of its own. Its properties are the lemmas `Dedup.AbsorbEarliest`, `Dedup.AbsorbKeys`, `Dedup.AbsorbNewer` and `Dedup.AbsorbItems`.
- Ids, topics and timestamps are plain values. In the source, the window and the topic table are plain objects:
  - An id that names an `Object.prototype` property (`constructor`, `toString`, ...) counts as already held, so its entry is never reported.
  - A topic with such a name makes `newEntries` throw.
  - Numeric ids are coerced to strings, so `1` and `"1"` collide.
  - A NaN timestamp never lowers the earliest timestamp and is never evicted.
  - The scheduler's record table is a plain object too, so `register` of a URL such as `constructor` finds an inherited property and treats the URL as already polled (lib/scheduler.js:85-88).

  The model takes ids, topics and URLs to be strings other than those property names, and timestamps to be integers.
- `index.js`, `mockserver.js` and `testapp.js` wire the pieces together, or serve mocks. They are not part of this model.
- Listener.Concat: its contract states only the single-chunk case. How joining distributes over concatenation is `ListenerProperties.ConcatSplits`.

## Findings

| source | as written | input that shows it | evidently intended | confidence | as-written member | corrected member |
|---|---|---|---|---|---|---|
| lib/listener.js:132 | the unknown-path unsubscribe branch calls `response(...)`, which is not defined anywhere, so a ReferenceError escapes the middleware | a complete GET with `hub.mode=unsubscribe` for a callback path that no longer decodes | `respond(res, 200, challenge)`: agree to the unsubscribe, as the comment above it says | high, not executed | Listener.MiddlewareAsWritten | Listener.Middleware |
| lib/scheduler.js:66-67 | `state.lastResult \|\| 0` is the result object whenever a poll has completed, so `due` is a string, `due < now` is false, and the record is rescheduled after NaN milliseconds | a running record whose first fetch succeeded, restarted long after it was due | take the completion time out of the last result | high, not executed | Scheduler.StartAsWritten | Scheduler.Start |
| lib/scheduler.js:218-221 | a 301 replaces `request` with a freshly parsed URL that has no `headers`, then re-registers the record as options, which overwrites the policy's request after the headers default was added; the next poll sets `request.headers['If-None-Match']` on undefined | a record holding an ETag that receives a 301 to a new URL | keep or recreate the headers object, as line 167 does for `Last-Modified` | medium, not executed | Scheduler.SelectRequestAsWritten | Scheduler.SelectRequest |
