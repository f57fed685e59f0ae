/** Properties of the polling state machine: how each HTTP outcome moves a
    record, the backoff arithmetic, redirects, and resumption. */
module SchedulerProperties {
  import opened Wrappers
  import opened Scheduler

  /** Some effect emits an `update` */
  predicate Updates(effects: seq<Effect>) {
    exists i :: 0 <= i < |effects| && effects[i].EmitUpdate?
  }

  /** A 200 is accepted exactly when its body is complete. Accepted, it
      stores the validators it carries, resets the interval to the base
      interval, records a delay of that interval and emits `update`;
      otherwise it takes the retry path and emits no `update`. */
  lemma Fetch200(states: States, url: string, s: PollState, res: Response, now: int)
    requires res.status == 200
    ensures var r := Complete(states, url, s, Responded(res), now);
      && (Updates(r.effects) <==> BodyComplete(res))
      && (BodyComplete(res) ==>
            && r.states[url].interval == s.baseInterval
            && r.states[url].status == s.status
            && r.states[url].lastResult == Fetched(now, res.contentLength)
            && r.states[url].etag == (if Header(res.headers, "etag").Some? then Header(res.headers, "etag") else s.etag)
            && r.states[url].lastModified ==
                 (if Header(res.headers, "last-modified").Some? then Header(res.headers, "last-modified") else s.lastModified)
            && r.effects == [Delay(url, s.baseInterval * 1000), EmitUpdate(url, res.body, res.headers)])
      && (!BodyComplete(res) ==>
            r == Retry(states, url, s, ShortBody(res.received, res.contentLength.value), now))
  {
    var r := Complete(states, url, s, Responded(res), now);
    if BodyComplete(res) {
      assert r.effects[1].EmitUpdate?;
    } else {
      assert forall i :: 0 <= i < |r.effects| ==> !r.effects[i].EmitUpdate?;
    }
  }

  /** A 304 schedules exactly as an accepted 200 without validators would,
      and leaves the same interval, but emits no `update` */
  lemma NotModifiedLikeFetched(states: States, url: string, s: PollState, res: Response, now: int)
    requires res.status == 200 && BodyComplete(res)
    requires Header(res.headers, "etag").None? && Header(res.headers, "last-modified").None?
    ensures var ok := Complete(states, url, s, Responded(res), now);
      var nm := Complete(states, url, s, Responded(res.(status := 304)), now);
      && nm.states[url] == ok.states[url].(lastResult := NotModified(now))
      && nm.effects + [EmitUpdate(url, res.body, res.headers)] == ok.effects
      && !Updates(nm.effects)
  {
  }

  /** The reason a fatal status is recorded with */
  function FatalReason(status: int): Reason {
    if status == 401 then Unauthorised
    else if status == 403 then Forbidden
    else if status == 410 then DocumentGone
    else UnexpectedResponse(status)
  }

  /** Every 4xx but 404 stops the record and emits `poll_error` */
  lemma FatalStatuses(states: States, url: string, s: PollState, res: Response, now: int)
    requires 400 <= res.status < 500 && res.status != 404
    ensures var r := Complete(states, url, s, Responded(res), now);
      && r.states[url] == s.(status := Stopped, lastResult := Failed(now, FatalReason(res.status)))
      && r.effects == [EmitPollError(url, Failed(now, FatalReason(res.status)))]
  {
  }

  /** The outcomes the source treats as transient */
  predicate Transient(c: Completion) {
    match c
    case ConnectionFailed => true
    case Responded(res) =>
      || res.status == 404
      || res.status >= 500
      || (res.status == 200 && !BodyComplete(res))
      || ((res.status == 301 || IsTemporaryRedirect(res.status)) && Header(res.headers, "location").None?)
  }

  /** Transient outcomes take the retry path (`OnlyTransientOutcomesRetry`
      is the converse) */
  lemma TransientOutcomesRetry(states: States, url: string, s: PollState, c: Completion, now: int)
    requires Transient(c)
    ensures exists reason :: Complete(states, url, s, c, now) == Retry(states, url, s, reason, now)
  {
    match c
    case ConnectionFailed =>
      assert Complete(states, url, s, c, now) == Retry(states, url, s, ConnectionError, now);
    case Responded(res) =>
      if res.status == 404 {
        assert Complete(states, url, s, c, now) == Retry(states, url, s, NotFound, now);
      } else if res.status == 200 {
        assert Complete(states, url, s, c, now) ==
               Retry(states, url, s, ShortBody(res.received, res.contentLength.value), now);
      } else if res.status == 301 || IsTemporaryRedirect(res.status) {
        assert Complete(states, url, s, c, now) == Retry(states, url, s, RedirectWithoutLocation, now);
      } else {
        assert Complete(states, url, s, c, now) == Retry(states, url, s, ServerError(res.status), now);
      }
  }

  /** The converse: an outcome that takes the retry path is transient */
  lemma OnlyTransientOutcomesRetry(states: States, url: string, s: PollState, c: Completion, now: int, reason: Reason)
    requires Complete(states, url, s, c, now) == Retry(states, url, s, reason, now)
    ensures Transient(c)
  {
  }

  /** Statuses no branch matches (201, 300, 305, ...) leave the record as
      the request selection left it, with no effect */
  lemma UnmatchedStatusesInert(states: States, url: string, s: PollState, res: Response, now: int)
    requires res.status < 400 && res.status !in {200, 301, 302, 303, 304, 307}
    ensures Complete(states, url, s, Responded(res), now) == Step(states[url := s], [])
  {
  }

  // ---------------------------------------------------------------------
  // Backoff

  /** With a positive interval the limit scales away: retries are exhausted
      exactly when the multiplier exceeds the limit, whatever the interval */
  lemma ExhaustedIffMultiplierExceedsLimit(s: PollState)
    requires s.interval > 0
    ensures RetriesExhausted(s) <==> s.backoffMultiplier > s.backoffLimit
  {
    if s.backoffMultiplier > s.backoffLimit {
      MultiplyMonotone(s.backoffLimit, s.backoffMultiplier, s.interval);
    } else {
      MultiplyMonotone(s.backoffMultiplier, s.backoffLimit + 1, s.interval);
    }
  }

  lemma MultiplyMonotone(a: int, b: int, k: int)
    requires a < b && k > 0
    ensures a * k < b * k
  {
    assert b * k - a * k == (b - a) * k;
  }

  function Power(base: int, n: nat): int {
    if n == 0 then 1 else base * Power(base, n - 1)
  }

  /** `n` polls in a row, each meeting the same server error */
  function ServerErrors(states: States, url: string, n: nat, res: Response, now: int): States
    decreases n
  {
    if n == 0 then states
    else PollOnce(ServerErrors(states, url, n - 1, res, now), url, Responded(res), now).step.states
  }

  /** Repeated server errors never stop a record whose multiplier is within
      its limit: each multiplies the interval, so after `n` of them it is
      `multiplier^n` times what it was. With the defaults (2 and 8) the
      interval doubles forever. */
  lemma {:induction false} ServerErrorsBackOff(states: States, url: string, n: nat, res: Response, now: int)
    requires url in states && states[url].status == Running && states[url].interval > 0
    requires 1 <= states[url].backoffMultiplier <= states[url].backoffLimit
    requires res.status >= 500
    ensures var s := ServerErrors(states, url, n, res, now);
      && url in s
      && s[url].status == Running
      && s[url].interval == states[url].interval * Power(states[url].backoffMultiplier, n)
      && s[url].baseInterval == states[url].baseInterval
      && s[url].backoffMultiplier == states[url].backoffMultiplier
      && s[url].backoffLimit == states[url].backoffLimit
    decreases n
  {
    if n > 0 {
      ServerErrorsBackOff(states, url, n - 1, res, now);
      var prev := ServerErrors(states, url, n - 1, res, now);
      var m := states[url].backoffMultiplier;
      var i := prev[url].interval;
      var sel := SelectRequest(prev[url]);
      ServerErrorRetries(prev[url := sel.state], url, sel.state, res, now);
      assert i == states[url].interval * Power(m, n - 1);
      PowerPositive(m, n - 1);
      MultiplyMonotone(0, states[url].interval, Power(m, n - 1));
      ExhaustedIffMultiplierExceedsLimit(sel.state);
      assert m * i == states[url].interval * Power(m, n) by {
        assert Power(m, n) == m * Power(m, n - 1);
      }
    }
  }

  /** Every status from 500 up takes the retry-with-backoff path, with the
      status as the reason */
  lemma ServerErrorRetries(states: States, url: string, s: PollState, res: Response, now: int)
    requires res.status >= 500
    ensures Complete(states, url, s, Responded(res), now) == Retry(states, url, s, ServerError(res.status), now)
  {
    assert !IsTemporaryRedirect(res.status);
  }

  /** One more factor of the base */
  lemma PowerStep(a: int, base: int, n: nat)
    requires n > 0
    ensures base * (a * Power(base, n - 1)) == a * Power(base, n)
  {
    assert Power(base, n) == base * Power(base, n - 1);
  }

  lemma {:induction false} PowerPositive(base: int, n: nat)
    requires base >= 1
    ensures Power(base, n) >= 1
    decreases n
  {
    if n > 0 {
      PowerPositive(base, n - 1);
      MultiplyMonotone(0, base, Power(base, n - 1));
    }
  }

  /** A freshly registered URL under the default policy doubles its
      interval on every server error and is never stopped by backoff */
  lemma DefaultPolicyNeverGivesUp(states: States, url: string, n: nat, res: Response, now: int)
    requires url !in states && res.status >= 500
    ensures var s := ServerErrors(Register(states, url, NoOptions).states, url, n, res, now);
      url in s && s[url].status == Running && s[url].interval == 600 * Power(2, n)
  {
    ServerErrorsBackOff(Register(states, url, NoOptions).states, url, n, res, now);
  }

  /** Polls of `url` meeting the completions `cs`, one after another */
  function Failures(states: States, url: string, cs: seq<Completion>, now: int): States
    decreases |cs|
  {
    if cs == [] then states
    else PollOnce(Failures(states, url, cs[..|cs| - 1], now), url, cs[|cs| - 1], now).step.states
  }

  /** Any run of transient outcomes (connection errors, 404s, server errors,
      short bodies, redirects without a location) backs off like a run of
      server errors: the record stays running with `multiplier^n` times its
      interval */
  lemma {:induction false} TransientFailuresBackOff(states: States, url: string, cs: seq<Completion>, now: int)
    requires url in states && states[url].status == Running && states[url].interval > 0
    requires 1 <= states[url].backoffMultiplier <= states[url].backoffLimit
    requires forall i :: 0 <= i < |cs| ==> Transient(cs[i])
    ensures var s := Failures(states, url, cs, now);
      && url in s
      && s[url].status == Running
      && s[url].interval == states[url].interval * Power(states[url].backoffMultiplier, |cs|)
      && s[url].baseInterval == states[url].baseInterval
      && s[url].backoffMultiplier == states[url].backoffMultiplier
      && s[url].backoffLimit == states[url].backoffLimit
    decreases |cs|
  {
    if cs != [] {
      var n := |cs|;
      var rest := cs[..n - 1];
      assert forall i :: 0 <= i < |rest| ==> Transient(rest[i]) by {
        forall i | 0 <= i < |rest| ensures Transient(rest[i]) { assert rest[i] == cs[i]; }
      }
      TransientFailuresBackOff(states, url, rest, now);
      var prev := Failures(states, url, rest, now);
      var m := states[url].backoffMultiplier;
      PowerPositive(m, n - 1);
      MultiplyMonotone(0, states[url].interval, Power(m, n - 1));
      TransientBacksOff(prev, url, cs[n - 1], now);
      assert Failures(states, url, cs, now) == PollOnce(prev, url, cs[n - 1], now).step.states;
      PowerStep(states[url].interval, m, n);
    }
  }

  /** One transient outcome multiplies the interval of a running record
      whose multiplier is within its limit, and changes nothing else that
      governs polling */
  lemma TransientBacksOff(states: States, url: string, c: Completion, now: int)
    requires url in states && states[url].status == Running && states[url].interval > 0
    requires 1 <= states[url].backoffMultiplier <= states[url].backoffLimit
    requires Transient(c)
    ensures var s := PollOnce(states, url, c, now).step.states;
      && url in s
      && s[url].status == Running
      && s[url].interval == states[url].backoffMultiplier * states[url].interval
      && s[url].baseInterval == states[url].baseInterval
      && s[url].backoffMultiplier == states[url].backoffMultiplier
      && s[url].backoffLimit == states[url].backoffLimit
  {
    var sel := SelectRequest(states[url]);
    TransientOutcomesRetry(states[url := sel.state], url, sel.state, c, now);
    ExhaustedIffMultiplierExceedsLimit(sel.state);
  }

  /** Under the default policy a freshly registered feed survives any run of
      transient failures, its interval doubling each time */
  lemma DefaultPolicySurvivesFailures(states: States, url: string, cs: seq<Completion>, now: int)
    requires url !in states
    requires forall i :: 0 <= i < |cs| ==> Transient(cs[i])
    ensures var s := Failures(Register(states, url, NoOptions).states, url, cs, now);
      url in s && s[url].status == Running && s[url].interval == 600 * Power(2, |cs|)
  {
    TransientFailuresBackOff(Register(states, url, NoOptions).states, url, cs, now);
  }

  // ---------------------------------------------------------------------
  // Redirects

  /** A 301 with a Location replaces the canonical request and registers
      the location with the record as options: a no-op when the location
      already has a record, otherwise a copy of the record (interval reset)
      that is polled at once */
  lemma PermanentRedirect(states: States, url: string, s: PollState, res: Response, now: int)
    requires res.status == 301 && Header(res.headers, "location").Some?
    ensures var location := Header(res.headers, "location").value;
      var moved := s.(lastResult := Redirected(location, now), request := Request(location, None));
      var r := Complete(states, url, s, Responded(res), now);
      && (location in states || location == url ==> r == Step(states[url := moved], []))
      && (location !in states && location != url ==>
            && r.states == states[url := moved][location := moved.(interval := moved.baseInterval)]
            && r.effects == [PollNow(location)])
  {
    var location := Header(res.headers, "location").value;
    var moved := s.(lastResult := Redirected(location, now), request := Request(location, None));
    if location !in states && location != url {
      var r := Register(states[url := moved], location, AsOptions(moved));
      assert r.states[location] == moved.(interval := moved.baseInterval);
    }
  }

  /** A 302, 303 or 307 with a Location sets a one-shot request and polls
      again at once, leaving the canonical request and the interval alone;
      the next poll sends the one-shot request and clears it */
  lemma TemporaryRedirect(states: States, url: string, s: PollState, res: Response, now: int, c: Completion)
    requires IsTemporaryRedirect(res.status) && Header(res.headers, "location").Some?
    ensures var location := Header(res.headers, "location").value;
      var r := Complete(states, url, s, Responded(res), now);
      && r.effects == [PollNow(url)]
      && r.states[url].request == s.request
      && r.states[url].interval == s.interval
      && r.states[url].nextRequest == Some(Request(location, None))
      && PollOnce(r.states, url, c, now).sent == Some(Request(location, None))
      && SelectRequest(r.states[url]).state.nextRequest.None?
      && SelectRequest(r.states[url]).state.request == s.request
  {
  }

  // ---------------------------------------------------------------------
  // The headers object lost on a permanent redirect

  /** After a 301 to a URL without a record, the new record's request is the
      freshly parsed location, with no headers object, while the validators
      are carried over; the poll that registration starts then sets a
      conditional header on a missing object, and the source throws */
  lemma PermanentRedirectLosesHeaders(states: States, url: string, s: PollState, res: Response, now: int)
    requires res.status == 301 && Header(res.headers, "location").Some?
    requires Header(res.headers, "location").value !in states && Header(res.headers, "location").value != url
    requires s.nextRequest.None? && (Truthy(s.etag) || Truthy(s.lastModified))
    ensures var location := Header(res.headers, "location").value;
      var r := Complete(states, url, s, Responded(res), now);
      && r.effects == [PollNow(location)]
      && r.states[location].request == Request(location, None)
      && r.states[location].etag == s.etag && r.states[location].lastModified == s.lastModified
      && SelectRequestAsWritten(r.states[location]).None?
      && SelectRequest(r.states[location]).request.headers.Some?
  {
    PermanentRedirect(states, url, s, res, now);
  }

  /** A concrete instance: a feed fetched with an ETag moves permanently */
  lemma PermanentRedirectLosesHeadersWitness()
    ensures var s := Register(map[], "http://a.example/feed", NoOptions).states["http://a.example/feed"]
                       .(etag := Some("v1"));
      var res := Response(301, map["location" := "http://b.example/feed"], None, 0, "");
      var r := Complete(map["http://a.example/feed" := s], "http://a.example/feed", s, Responded(res), 5);
      && r.effects == [PollNow("http://b.example/feed")]
      && SelectRequestAsWritten(r.states["http://b.example/feed"]).None?
      && SelectRequest(r.states["http://b.example/feed"]).request ==
           Request("http://b.example/feed", Some(map["If-None-Match" := "v1"]))
  {
    var s := Register(map[], "http://a.example/feed", NoOptions).states["http://a.example/feed"].(etag := Some("v1"));
    var res := Response(301, map["location" := "http://b.example/feed"], None, 0, "");
    assert Header(res.headers, "location") == Some("http://b.example/feed");
    PermanentRedirectLosesHeaders(map["http://a.example/feed" := s], "http://a.example/feed", s, res, 5);
  }

  // ---------------------------------------------------------------------
  // Resumption

  /** As written, `start` never polls a record that has a result, however
      overdue; with the completion time as intended it polls at once */
  lemma StartIgnoresLastResultAsWritten(url: string, s: PollState, now: int)
    requires s.status == Running && s.lastResult != NoResult
    requires Due(s) < now
    ensures StartAsWritten(map[url := s], now)[url] == WaitNaN
    ensures Start(map[url := s], now)[url] == PollImmediately
  {
  }

  /** A concrete instance: fetched at time 0 with the default interval, and
      resumed much later */
  lemma StartIgnoresLastResultWitness()
    ensures var s := Register(map[], "http://a.example/feed", NoOptions).states["http://a.example/feed"]
                       .(lastResult := Fetched(0, None));
      && StartAsWritten(map["http://a.example/feed" := s], 1000000000)["http://a.example/feed"] == WaitNaN
      && Start(map["http://a.example/feed" := s], 1000000000)["http://a.example/feed"] == PollImmediately
  {
  }

  /** `start` leaves stopped records alone and plans every other one */
  lemma StartSkipsStopped(states: States, now: int, url: string)
    requires url in states
    ensures url in Start(states, now) <==> states[url].status == Running
  {
  }

  // ---------------------------------------------------------------------
  // Resuming after a completion

  /** A completion that schedules the next poll `d` milliseconds later is
      honoured by `start`: resumed at any moment of that wait, the record
      waits out exactly what is left of it */
  lemma StartHonoursScheduledDelay(states: States, url: string, s: PollState, c: Completion,
                                   t: int, now: int, d: int)
    requires s.status == Running
    requires var r := Complete(states, url, s, c, t); |r.effects| > 0 && r.effects[0] == Delay(url, d)
    requires t <= now <= t + d
    ensures Start(Complete(states, url, s, c, t).states, now)[url] == Wait(d - (now - t))
  {
    var r := Complete(states, url, s, c, t);
    assert r.states[url].status == Running && Due(r.states[url]) == t + d by {
      DelayedRecordIsDue(states, url, s, c, t, d);
    }
  }

  /** The record a delaying completion leaves is running and due exactly
      when the delay ends */
  lemma DelayedRecordIsDue(states: States, url: string, s: PollState, c: Completion, t: int, d: int)
    requires s.status == Running
    requires var r := Complete(states, url, s, c, t); |r.effects| > 0 && r.effects[0] == Delay(url, d)
    ensures var r := Complete(states, url, s, c, t);
      r.states[url].status == Running && Due(r.states[url]) == t + d
  {
    match c
    case ConnectionFailed =>
    case Responded(res) =>
      if res.status == 200 && BodyComplete(res) {
      } else if res.status == 304 {
      } else if Transient(c) {
        TransientOutcomesRetry(states, url, s, c, t);
      }
  }
}
