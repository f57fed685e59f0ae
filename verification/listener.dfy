/** The hub-facing side of lib/listener.js: answering verification (GET)
    and content-delivery (POST) callbacks, and composing the outbound
    subscribe/unsubscribe requests.

    Events emitted on the listener are returned as a list, in emission
    order, beside the reply; the wall clock and the token nonce are
    parameters. */
module Listener {
  import opened Wrappers
  import opened Codec

  type Headers = map<string, string>

  /** A parsed query string */
  type Query = map<string, string>

  /** The memo sealed into a callback path: what to emit with events, and
      an optional verification deadline in milliseconds since the epoch */
  datatype Memo = Memo(userData: string, expiry: Option<int>)

  /** What `new Listener(host, prefix, paths, tokens)` holds */
  datatype Endpoint = Endpoint(host: string, prefix: string, paths: Cipher<Memo>, tokens: Cipher<Grant>)

  /** An inbound request as the middleware sees it, its URL already split
      into path and query and its body into the chunks that arrived */
  datatype Request = Request(verb: string, pathname: string, query: Query, chunks: seq<string>, headers: Headers)

  /** What the listener emits */
  datatype Event =
    | Subscribed(userData: string)
    | Unsubscribed(userData: string)
    | Updated(userData: string, body: string, headers: Headers)
    | ProtocolError(mode: Option<string>, topic: Option<string>, reason: string)

  datatype Reply = Reply(status: int, body: string)

  /** How the middleware disposes of a request */
  datatype Outcome =
    | Answered(reply: Reply, events: seq<Event>)  // replied, after emitting `events`
    | Passed                                      // not under the prefix: `next()`
    | Unanswered                                  // under the prefix, neither GET nor POST
    | Threw(error: string)                        // the handler raised an exception

  const Subscribe: string := "subscribe"
  const Unsubscribe: string := "unsubscribe"

  predicate IsPrefix(prefix: string, s: string) {
    |prefix| <= |s| && s[..|prefix|] == prefix
  }

  /** The chunks of a body joined together */
  function Concat(chunks: seq<string>): (body: string)
    ensures |chunks| == 1 ==> body == chunks[0]
    decreases |chunks|
  {
    if chunks == [] then "" else chunks[0] + Concat(chunks[1..])
  }

  /** `_respond_error`: emit an `error` event, then reply with its reason */
  function RespondError(status: int, mode: Option<string>, topic: Option<string>, reason: string): (o: Outcome)
    ensures o.Answered? && o.reply.status == status && |o.events| == 1
    ensures o.events[0].ProtocolError? && o.events[0].reason == o.reply.body
    ensures o.events[0].mode == mode && o.events[0].topic == topic
  {
    Answered(Reply(status, reason), [ProtocolError(mode, topic, reason)])
  }

  /** A memo's deadline has passed: the expiry is set, non-zero, and before `now` */
  predicate Expired(memo: Memo, now: int) {
    memo.expiry.Some? && memo.expiry.value != 0 && memo.expiry.value < now
  }

  /** The verification branch for a path that decoded to a memo */
  function VerifyKnown(e: Endpoint, memo: Memo, mode: string, topic: string,
                       challenge: string, token: string, now: int): (o: Outcome)
    ensures o.Answered? && |o.events| == 1
    ensures o.reply.status == 200 <==>
              (mode == Unsubscribe || (mode == Subscribe && !Expired(memo, now))) &&
              TokenLookup(e.tokens, token, mode, topic)
    ensures o.reply.status == 200 ==>
              o.reply.body == challenge &&
              o.events[0] == (if mode == Subscribe then Subscribed(memo.userData) else Unsubscribed(memo.userData))
    ensures o.reply.status != 200 ==>
              o.reply.status == 404 && o.events[0].ProtocolError? && o.events[0].reason == o.reply.body
  {
    if mode == Subscribe then
      if Expired(memo, now) then
        RespondError(404, Some(mode), Some(topic), "Expired subscription")
      else if TokenLookup(e.tokens, token, mode, topic) then
        Answered(Reply(200, challenge), [Subscribed(memo.userData)])
      else
        RespondError(404, Some(mode), Some(topic), "Invalid hub.verify_token")
    else if mode == Unsubscribe then
      if TokenLookup(e.tokens, token, mode, topic) then
        Answered(Reply(200, challenge), [Unsubscribed(memo.userData)])
      else
        RespondError(404, Some(mode), Some(topic), "Invalid hub.verify_token")
    else
      RespondError(404, Some(mode), Some(topic), "Invalid hub.mode")
  }

  /** The verification branch for a path that decoded to nothing. An
      unsubscribe is agreed to, so that the hub stops delivering; anything
      else is refused without an `error` event. */
  function VerifyUnknown(mode: string, challenge: string): (o: Outcome)
    ensures o.Answered? && o.events == []
    ensures o.reply.status == 200 <==> mode == Unsubscribe
    ensures o.reply.status != 200 ==> o.reply == Reply(404, "Unknown subscription")
    ensures o.reply.status == 200 ==> o.reply.body == challenge
  {
    if mode == Unsubscribe then Answered(Reply(200, challenge), [])
    else Answered(Reply(404, "Unknown subscription"), [])
  }

  /** The same branch as the source writes it: the unsubscribe case calls
      `response`, which is not defined, in place of `respond` */
  function VerifyUnknownAsWritten(mode: string, challenge: string): (o: Outcome)
    ensures o.Threw? <==> mode == Unsubscribe
    ensures !o.Threw? ==> o == VerifyUnknown(mode, challenge)
  {
    if mode == Unsubscribe then Threw("ReferenceError: response is not defined")
    else Answered(Reply(404, "Unknown subscription"), [])
  }

  /** The callback path of a request: what follows the prefix */
  function CallbackPath(e: Endpoint, req: Request): string
    requires IsPrefix(e.prefix, req.pathname)
  {
    req.pathname[|e.prefix|..]
  }

  /** The four parameters a verification request must carry, all non-empty */
  predicate HasVerificationParameters(q: Query) {
    && Truthy(Get(q, "hub.mode"))
    && Truthy(Get(q, "hub.topic"))
    && Truthy(Get(q, "hub.challenge"))
    && Truthy(Get(q, "hub.verify_token"))
  }

  /** A GET under the prefix: the hub verifying a (un)subscription */
  function Verify(e: Endpoint, req: Request, now: int): (o: Outcome)
    requires IsPrefix(e.prefix, req.pathname)
    ensures o.Answered? && (o.reply.status == 200 || o.reply.status == 404)
    ensures !HasVerificationParameters(req.query) ==> o.reply == Reply(404, "Missing parameters") && |o.events| == 1
    ensures o.reply.status == 200 ==> HasVerificationParameters(req.query) && o.reply.body == req.query["hub.challenge"]
    ensures o.events == [] <==>
              HasVerificationParameters(req.query) && PathLookup(e.paths, CallbackPath(e, req)).None?
  {
    var q := req.query;
    if !HasVerificationParameters(q) then
      RespondError(404, Get(q, "hub.mode"), Get(q, "hub.topic"), "Missing parameters")
    else
      var mode := q["hub.mode"];
      match PathLookup(e.paths, CallbackPath(e, req))
      case Some(memo) =>
        VerifyKnown(e, memo, mode, q["hub.topic"], q["hub.challenge"], q["hub.verify_token"], now)
      case None =>
        VerifyUnknown(mode, q["hub.challenge"])
  }

  /** A POST under the prefix: the hub delivering content. The `update`
      event is emitted once the body is complete, before the reply. */
  function Deliver(e: Endpoint, req: Request): (o: Outcome)
    requires IsPrefix(e.prefix, req.pathname)
    ensures o.Answered?
    ensures o.reply.status == 200 <==> PathLookup(e.paths, CallbackPath(e, req)).Some?
    ensures o.reply.status == 200 ==>
              o.reply.body == "" &&
              o.events == [Updated(PathLookup(e.paths, CallbackPath(e, req)).value.userData, Concat(req.chunks), req.headers)]
    ensures o.reply.status != 200 ==> o == Answered(Reply(404, "Unknown subscription"), [])
  {
    match PathLookup(e.paths, CallbackPath(e, req))
    case Some(memo) =>
      Answered(Reply(200, ""), [Updated(memo.userData, Concat(req.chunks), req.headers)])
    case None =>
      Answered(Reply(404, "Unknown subscription"), [])
  }

  /** The connect middleware */
  function Middleware(e: Endpoint, req: Request, now: int): (o: Outcome)
    ensures o == Passed <==> !IsPrefix(e.prefix, req.pathname)
    ensures o == Unanswered <==> IsPrefix(e.prefix, req.pathname) && req.verb != "GET" && req.verb != "POST"
    ensures !o.Threw?
    ensures o.Answered? ==> (o.reply.status == 200 || o.reply.status == 404) && |o.events| <= 1
    ensures o.Answered? && o.reply.status == 200 && req.verb == "GET" ==> HasVerificationParameters(req.query) && o.reply.body == req.query["hub.challenge"]
    ensures o.Answered? && o.reply.status == 200 && req.verb == "POST" ==> o.reply.body == "" && |o.events| == 1
  {
    if !IsPrefix(e.prefix, req.pathname) then Passed
    else if req.verb == "GET" then Verify(e, req, now)
    else if req.verb == "POST" then Deliver(e, req)
    else Unanswered
  }

  /** The GETs on which the source's unknown-path branch takes its
      unsubscribe case */
  predicate IsUnknownUnsubscribe(e: Endpoint, req: Request) {
    && IsPrefix(e.prefix, req.pathname)
    && req.verb == "GET"
    && HasVerificationParameters(req.query)
    && PathLookup(e.paths, CallbackPath(e, req)).None?
    && req.query["hub.mode"] == Unsubscribe
  }

  /** The middleware as the source writes it */
  function MiddlewareAsWritten(e: Endpoint, req: Request, now: int): (o: Outcome)
    ensures o.Threw? <==> IsUnknownUnsubscribe(e, req)
    ensures !o.Threw? ==> o == Middleware(e, req, now)
  {
    if IsUnknownUnsubscribe(e, req) then VerifyUnknownAsWritten(Unsubscribe, req.query["hub.challenge"])
    else Middleware(e, req, now)
  }

  // ---------------------------------------------------------------------
  // Outbound subscribe and unsubscribe

  /** The options of `subscribe`; `leaseSeconds` is 0 when not given, and
      `Options.None`-valued fields stand for absent ones */
  datatype SubscribeOptions = SubscribeOptions(data: Option<string>, noAuto: bool, leaseSeconds: int, signingKey: Option<string>)

  /** `opts || {}` */
  const NoOptions := SubscribeOptions(None, false, 0, None)

  /** The url-encoded form posted to the hub, field by field in the order
      the source writes them: `hub.mode`, `hub.topic`, `hub.verify`,
      `hub.verify_token`, `hub.callback`, then `lease_seconds` and `secret`
      when present */
  datatype HubForm = HubForm(mode: string, topic: string, verify: string, verifyToken: string,
                             callback: string, leaseSeconds: Option<int>, secret: Option<string>)

  /** The form posted to the hub, and the callback path the caller keeps */
  datatype HubRequest = HubRequest(hubUrl: string, form: HubForm, path: string)

  /** `subscription`: a memo carrying `userValue`, with a deadline `now +
      leaseSeconds` seconds only when a lease is given and renewal is off */
  function Subscription(userValue: string, noAuto: bool, leaseSeconds: int, now: int): (m: Memo)
    ensures m.userData == userValue
    ensures m.expiry.Some? <==> leaseSeconds != 0 && noAuto
    ensures m.expiry.Some? ==> m.expiry.value == now + leaseSeconds * 1000
  {
    if leaseSeconds != 0 && noAuto then Memo(userValue, Some(now + leaseSeconds * 1000))
    else Memo(userValue, None)
  }

  /** The data a subscription emits with its events: `opts.data || topic` */
  function UserData(topic: string, opts: SubscribeOptions): string {
    if Truthy(opts.data) then opts.data.value else topic
  }

  /** `subscribe`: seal a memo into a callback path and compose the form */
  function SubscribeRequest(e: Endpoint, hubUrl: string, topic: string, opts: SubscribeOptions,
                            now: int, nonce: string): (r: HubRequest)
    ensures r.hubUrl == hubUrl
    ensures r.form.mode == Subscribe && r.form.topic == topic && r.form.verify == "async"
    ensures r.form.callback == e.host + e.prefix + r.path
    ensures r.form.leaseSeconds.Some? <==> opts.leaseSeconds != 0
    ensures r.form.leaseSeconds.Some? ==> r.form.leaseSeconds.value == opts.leaseSeconds
    ensures r.form.secret.Some? <==> Truthy(opts.signingKey)
    ensures r.form.secret.Some? ==> r.form.secret == opts.signingKey
    ensures |r.path| > 0 && r.path[0] == '/'
    ensures Ideal(e.paths) ==>
              PathLookup(e.paths, r.path) == Some(Subscription(UserData(topic, opts), opts.noAuto, opts.leaseSeconds, now))
    ensures Ideal(e.tokens) ==> forall a, t ::
              TokenLookup(e.tokens, r.form.verifyToken, a, t) <==> a == Subscribe && t == topic && t != ""
  {
    var memo := Subscription(UserData(topic, opts), opts.noAuto, opts.leaseSeconds, now);
    var path := PathCreate(e.paths, memo);
    var form := HubForm(Subscribe, topic, "async", TokenCreate(e.tokens, Subscribe, topic, nonce),
                        e.host + e.prefix + path,
                        if opts.leaseSeconds != 0 then Some(opts.leaseSeconds) else None,
                        if Truthy(opts.signingKey) then opts.signingKey else None);
    HubRequest(hubUrl, form, path)
  }

  /** `unsubscribe`: compose the form for a callback path kept from `subscribe` */
  function UnsubscribeRequest(e: Endpoint, hubUrl: string, topic: string, path: string, nonce: string): (r: HubRequest)
    ensures r.hubUrl == hubUrl && r.path == path
    ensures r.form.mode == Unsubscribe && r.form.topic == topic && r.form.verify == "async"
    ensures r.form.callback == e.host + e.prefix + path
    ensures r.form.leaseSeconds.None? && r.form.secret.None?
    ensures Ideal(e.tokens) ==> forall a, t ::
              TokenLookup(e.tokens, r.form.verifyToken, a, t) <==> a == Unsubscribe && t == topic && t != ""
  {
    var form := HubForm(Unsubscribe, topic, "async", TokenCreate(e.tokens, Unsubscribe, topic, nonce),
                        e.host + e.prefix + path, None, None);
    HubRequest(hubUrl, form, path)
  }

  /** How `subscribeRequest` reports the hub's first answer */
  datatype Acknowledgement = Acknowledged(path: string) | Refused(status: int)

  /** 202 and 204 hand the callback path to the callback; any other status
      goes to the errback */
  function HubAnswer(status: int, path: string): (a: Acknowledgement)
    ensures a.Acknowledged? <==> status == 202 || status == 204
    ensures a.Acknowledged? ==> a.path == path
    ensures a.Refused? ==> a.status == status
  {
    if status == 202 || status == 204 then Acknowledged(path) else Refused(status)
  }
}
