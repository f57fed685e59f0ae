/** The decision table of the listener's callbacks, and the handshake that
    ties an outbound subscribe to the verification that follows it. */
module ListenerProperties {
  import opened Wrappers
  import opened Codec
  import opened Listener

  /** A verification GET carrying the four hub parameters */
  function VerificationGet(pathname: string, mode: string, topic: string, challenge: string, token: string): Request {
    Request("GET", pathname,
            map["hub.mode" := mode, "hub.topic" := topic, "hub.challenge" := challenge, "hub.verify_token" := token],
            [], map[])
  }

  /** When a verification is agreed to, stated from the protocol's side:
      the parameters are all there and either the memo is known, the mode
      is subscribe with the deadline not passed or unsubscribe, and the
      token was minted for that mode and topic; or the memo is unknown
      and the hub is unsubscribing */
  ghost predicate Agrees(e: Endpoint, req: Request, now: int)
    requires IsPrefix(e.prefix, req.pathname)
  {
    var q := req.query;
    && HasVerificationParameters(q)
    && match PathLookup(e.paths, req.pathname[|e.prefix|..])
       case Some(memo) =>
         && ((q["hub.mode"] == Subscribe && !Expired(memo, now)) || q["hub.mode"] == Unsubscribe)
         && TokenLookup(e.tokens, q["hub.verify_token"], q["hub.mode"], q["hub.topic"])
       case None => q["hub.mode"] == Unsubscribe
  }

  /** A verification GET is answered 200 with the challenge exactly when the
      protocol agrees, and 404 otherwise; an `error` event accompanies every
      refusal except the one for an unknown callback path */
  lemma VerificationDecision(e: Endpoint, req: Request, now: int)
    requires IsPrefix(e.prefix, req.pathname) && req.verb == "GET"
    ensures var o := Middleware(e, req, now);
      && o.Answered?
      && (o.reply.status == 200 <==> Agrees(e, req, now))
      && (o.reply.status != 200 ==> o.reply.status == 404)
      && (o.reply.status == 200 ==> o.reply.body == req.query["hub.challenge"])
      && (o.reply.status == 404 ==>
            (o.events == [] <==> HasVerificationParameters(req.query) &&
                                 PathLookup(e.paths, req.pathname[|e.prefix|..]).None?))
  {
  }

  /** Missing parameters are refused before the callback path is looked at:
      the answer does not depend on the path codec */
  lemma MissingParametersRejected(e: Endpoint, req: Request, now: int)
    requires IsPrefix(e.prefix, req.pathname) && req.verb == "GET"
    requires !HasVerificationParameters(req.query)
    ensures Middleware(e, req, now) ==
              Answered(Reply(404, "Missing parameters"),
                       [ProtocolError(Get(req.query, "hub.mode"), Get(req.query, "hub.topic"), "Missing parameters")])
  {
  }

  /** A subscribe verification past the memo's deadline is refused whatever
      the token, with an `error` event and no `subscribe` event */
  lemma ExpiredSubscriptionRejected(e: Endpoint, path: string, topic: string, challenge: string,
                                    token: string, memo: Memo, now: int)
    requires topic != "" && challenge != "" && token != ""
    requires PathLookup(e.paths, path) == Some(memo) && Expired(memo, now)
    ensures Middleware(e, VerificationGet(e.prefix + path, Subscribe, topic, challenge, token), now) ==
              Answered(Reply(404, "Expired subscription"),
                       [ProtocolError(Some(Subscribe), Some(topic), "Expired subscription")])
  {
    assert (e.prefix + path)[|e.prefix|..] == path;
  }

  /** Refusals for a known memo name their reason: a token not minted for
      this mode and topic, or a mode that is neither subscribe nor
      unsubscribe */
  lemma KnownMemoRejections(e: Endpoint, path: string, mode: string, topic: string, challenge: string,
                            token: string, memo: Memo, now: int)
    requires mode != "" && topic != "" && challenge != "" && token != ""
    requires PathLookup(e.paths, path) == Some(memo)
    ensures var o := Middleware(e, VerificationGet(e.prefix + path, mode, topic, challenge, token), now);
      && (mode != Subscribe && mode != Unsubscribe ==>
            o == Answered(Reply(404, "Invalid hub.mode"), [ProtocolError(Some(mode), Some(topic), "Invalid hub.mode")]))
      && ((mode == Unsubscribe || (mode == Subscribe && !Expired(memo, now))) &&
          !TokenLookup(e.tokens, token, mode, topic) ==>
            o == Answered(Reply(404, "Invalid hub.verify_token"),
                          [ProtocolError(Some(mode), Some(topic), "Invalid hub.verify_token")]))
  {
    assert (e.prefix + path)[|e.prefix|..] == path;
  }

  /** An unknown callback path: a GET unsubscribe is agreed to with no event
      (the corrected behaviour), any other GET and every POST are refused
      with "Unknown subscription" and no `error` event */
  lemma UnknownPathAnswers(e: Endpoint, req: Request, now: int)
    requires IsPrefix(e.prefix, req.pathname)
    requires PathLookup(e.paths, req.pathname[|e.prefix|..]).None?
    ensures req.verb == "POST" ==>
              Middleware(e, req, now) == Answered(Reply(404, "Unknown subscription"), [])
    ensures req.verb == "GET" && HasVerificationParameters(req.query) ==>
              Middleware(e, req, now) ==
                if req.query["hub.mode"] == Unsubscribe then Answered(Reply(200, req.query["hub.challenge"]), [])
                else Answered(Reply(404, "Unknown subscription"), [])
  {
  }

  /** A POST to a known path emits `update` with the memo's data, the whole
      body and the request headers, then answers 200 with an empty body */
  lemma ContentDelivered(e: Endpoint, req: Request, memo: Memo, now: int)
    requires IsPrefix(e.prefix, req.pathname) && req.verb == "POST"
    requires PathLookup(e.paths, req.pathname[|e.prefix|..]) == Some(memo)
    ensures Middleware(e, req, now) ==
              Answered(Reply(200, ""), [Updated(memo.userData, Concat(req.chunks), req.headers)])
  {
  }

  /** The delivered body does not depend on how it was chunked */
  lemma {:induction false} ConcatSplits(a: seq<string>, b: seq<string>)
    ensures Concat(a + b) == Concat(a) + Concat(b)
    decreases |a|
  {
    if a == [] {
      assert a + b == b;
    } else {
      assert (a + b)[1..] == a[1..] + b;
      ConcatSplits(a[1..], b);
    }
  }

  /** The handshake: a subscription the hub acknowledged is verified, when
      the hub echoes its topic and token to its callback path before any
      deadline, with a `subscribe` event carrying the subscriber's data and
      a 200 echoing the challenge */
  lemma SubscribeThenVerify(e: Endpoint, hubUrl: string, topic: string, opts: SubscribeOptions,
                            now: int, nonce: string, challenge: string, later: int)
    requires Ideal(e.paths) && Ideal(e.tokens)
    requires topic != "" && challenge != ""
    requires opts.leaseSeconds != 0 && opts.noAuto ==> later <= now + opts.leaseSeconds * 1000
    ensures var r := SubscribeRequest(e, hubUrl, topic, opts, now, nonce);
      r.form.verifyToken != "" ==>
      Middleware(e, VerificationGet(e.prefix + r.path, Subscribe, topic, challenge, r.form.verifyToken), later) ==
        Answered(Reply(200, challenge), [Subscribed(UserData(topic, opts))])
  {
    var r := SubscribeRequest(e, hubUrl, topic, opts, now, nonce);
    assert (e.prefix + r.path)[|e.prefix|..] == r.path;
  }

  /** The outbound half of the handshake: when the hub acknowledges the
      subscribe form (202 or 204), the path handed to the callback is one
      on which the hub's verification succeeds with the subscriber's data;
      any other status hands back the status and no path */
  lemma AcknowledgedPathVerifies(e: Endpoint, hubUrl: string, topic: string, opts: SubscribeOptions,
                                 now: int, nonce: string, challenge: string, later: int, status: int)
    requires Ideal(e.paths) && Ideal(e.tokens)
    requires topic != "" && challenge != ""
    requires opts.leaseSeconds != 0 && opts.noAuto ==> later <= now + opts.leaseSeconds * 1000
    ensures var r := SubscribeRequest(e, hubUrl, topic, opts, now, nonce);
      var a := HubAnswer(status, r.path);
      && (status != 202 && status != 204 ==> a == Refused(status))
      && (a.Acknowledged? && r.form.verifyToken != "" ==>
            Middleware(e, VerificationGet(e.prefix + a.path, Subscribe, topic, challenge, r.form.verifyToken), later) ==
              Answered(Reply(200, challenge), [Subscribed(UserData(topic, opts))]))
  {
    SubscribeThenVerify(e, hubUrl, topic, opts, now, nonce, challenge, later);
  }

  /** A negative lease with renewal off (the "lease expires" test) yields a
      memo whose deadline has passed, so the verification is refused even
      with the right token */
  lemma NegativeLeaseExpires(e: Endpoint, hubUrl: string, topic: string, opts: SubscribeOptions,
                             now: int, nonce: string, challenge: string, later: int)
    requires Ideal(e.paths)
    requires topic != "" && challenge != ""
    requires opts.leaseSeconds < 0 && opts.noAuto && now <= later
    requires now + opts.leaseSeconds * 1000 != 0
    ensures var r := SubscribeRequest(e, hubUrl, topic, opts, now, nonce);
      r.form.verifyToken != "" ==>
      Middleware(e, VerificationGet(e.prefix + r.path, Subscribe, topic, challenge, r.form.verifyToken), later) ==
        Answered(Reply(404, "Expired subscription"),
                 [ProtocolError(Some(Subscribe), Some(topic), "Expired subscription")])
  {
    var r := SubscribeRequest(e, hubUrl, topic, opts, now, nonce);
    assert (e.prefix + r.path)[|e.prefix|..] == r.path;
  }

  /** A token minted for subscribing does not verify an unsubscribe of the
      same callback path */
  lemma SubscribeTokenDoesNotUnsubscribe(e: Endpoint, hubUrl: string, topic: string, opts: SubscribeOptions,
                                         now: int, nonce: string, challenge: string, later: int)
    requires Ideal(e.paths) && Ideal(e.tokens)
    requires topic != "" && challenge != ""
    ensures var r := SubscribeRequest(e, hubUrl, topic, opts, now, nonce);
      r.form.verifyToken != "" ==>
      Middleware(e, VerificationGet(e.prefix + r.path, Unsubscribe, topic, challenge, r.form.verifyToken), later) ==
        Answered(Reply(404, "Invalid hub.verify_token"),
                 [ProtocolError(Some(Unsubscribe), Some(topic), "Invalid hub.verify_token")])
  {
    var r := SubscribeRequest(e, hubUrl, topic, opts, now, nonce);
    assert (e.prefix + r.path)[|e.prefix|..] == r.path;
  }

  /** Unsubscribing a kept callback path is verified with an `unsubscribe`
      event carrying the memo's data */
  lemma UnsubscribeThenVerify(e: Endpoint, hubUrl: string, topic: string, opts: SubscribeOptions,
                              now: int, nonce: string, nonce': string, challenge: string, later: int)
    requires Ideal(e.paths) && Ideal(e.tokens)
    requires topic != "" && challenge != ""
    ensures var path := SubscribeRequest(e, hubUrl, topic, opts, now, nonce).path;
      var u := UnsubscribeRequest(e, hubUrl, topic, path, nonce');
      u.form.verifyToken != "" ==>
      Middleware(e, VerificationGet(e.prefix + path, Unsubscribe, topic, challenge, u.form.verifyToken), later) ==
        Answered(Reply(200, challenge), [Unsubscribed(UserData(topic, opts))])
  {
    var path := SubscribeRequest(e, hubUrl, topic, opts, now, nonce).path;
    assert (e.prefix + path)[|e.prefix|..] == path;
  }

  /** The memo gets a deadline exactly when a lease is given and renewal is
      off; the data emitted defaults to the topic */
  lemma MemoOfSubscribe(e: Endpoint, hubUrl: string, topic: string, opts: SubscribeOptions, now: int, nonce: string)
    requires Ideal(e.paths)
    ensures var memo := PathLookup(e.paths, SubscribeRequest(e, hubUrl, topic, opts, now, nonce).path);
      && memo.Some?
      && (memo.value.expiry.Some? <==> opts.leaseSeconds != 0 && opts.noAuto)
      && (memo.value.expiry.Some? ==> memo.value.expiry.value == now + opts.leaseSeconds * 1000)
      && (!Truthy(opts.data) ==> memo.value.userData == topic)
      && (Truthy(opts.data) ==> memo.value.userData == opts.data.value)
  {
  }

  // ---------------------------------------------------------------------
  // The unknown-path unsubscribe as written

  /** As written, every GET unsubscribe for an unknown callback path throws
      (the source calls the undefined `response`), where the evidently
      intended answer is a 200 echoing the challenge */
  lemma UnknownUnsubscribeThrows(e: Endpoint, req: Request, now: int)
    requires IsUnknownUnsubscribe(e, req)
    ensures MiddlewareAsWritten(e, req, now).Threw?
    ensures Middleware(e, req, now) == Answered(Reply(200, req.query["hub.challenge"]), [])
  {
  }

  /** A concrete such request: a callback path that decodes to nothing */
  lemma UnknownUnsubscribeWitness()
    ensures var e := Endpoint("http://localhost:8001", "/snrub",
                              Cipher((m: Memo) => "sealed", (s: string) => None),
                              Cipher((g: Grant) => "token", (s: string) => None));
      var req := VerificationGet("/snrub/stale", Unsubscribe, "http://example.com/t", "c", "tok");
      && IsUnknownUnsubscribe(e, req)
      && MiddlewareAsWritten(e, req, 0) == Threw("ReferenceError: response is not defined")
      && Middleware(e, req, 0) == Answered(Reply(200, "c"), [])
  {
    var req := VerificationGet("/snrub/stale", Unsubscribe, "http://example.com/t", "c", "tok");
    assert IsPrefix("/snrub", req.pathname);
  }
}
