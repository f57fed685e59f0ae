/** The polling state machine of lib/scheduler.js.

    One record per URL. A poll picks a request, and the HTTP outcome moves
    the record on and yields effects: events to emit, an immediate re-poll,
    or a recorded delay (the source stores the state where it would arm a
    timer, and never arms one). The wall clock is a parameter. */
module Scheduler {
  import opened Wrappers

  type Headers = map<string, string>

  datatype Status = Running | Stopped

  /** A request descriptor: its target and its headers object, which a
      freshly parsed URL lacks */
  datatype Request = Request(target: string, headers: Option<Headers>)

  /** Why a poll failed */
  datatype Reason =
    | NotFound
    | Unauthorised
    | Forbidden
    | DocumentGone
    | UnexpectedResponse(status: int)
    | ServerError(status: int)
    | ShortBody(received: nat, declared: int)
    | RedirectWithoutLocation
    | ConnectionError

  /** The `lastResult` of a record; `completed` is the wall-clock time */
  datatype LastResult =
    | NoResult
    | Fetched(completed: int, sizeInBytes: Option<int>)
    | NotModified(completed: int)
    | Redirected(location: string, completed: int)
    | Failed(completed: int, reason: Reason)
    | RetriesExceeded

  /** One URL's record; intervals are in seconds */
  datatype PollState = PollState(
    status: Status,
    baseInterval: int,
    interval: int,
    backoffMultiplier: int,
    backoffLimit: int,
    request: Request,
    nextRequest: Option<Request>,
    etag: Option<string>,
    lastModified: Option<string>,
    lastResult: LastResult)

  type States = map<string, PollState>

  /** What a step asks of the outside world, in order */
  datatype Effect =
    | EmitUpdate(url: string, body: string, headers: Headers)
    | EmitPollError(url: string, result: LastResult)
    | EmitError(url: string, result: LastResult)
    | PollNow(url: string)
    | Delay(url: string, millis: int)

  datatype Step = Step(states: States, effects: seq<Effect>)

  /** An HTTP response. `contentLength` is what `parseInt` reads from the
      Content-Length header: `None` when it is missing or not a number */
  datatype Response = Response(status: int, headers: Headers, contentLength: Option<int>, received: nat, body: string)

  /** A completed request: a response, or a connection-level failure */
  datatype Completion = Responded(response: Response) | ConnectionFailed

  /** A truthy header value */
  function Header(h: Headers, name: string): Option<string> {
    if name in h && h[name] != "" then Some(h[name]) else None
  }

  // ---------------------------------------------------------------------
  // Policy and registration

  const DefaultBaseInterval: int := 10 * 60
  const DefaultBackoffMultiplier: int := 2
  const DefaultBackoffLimit: int := 8

  /** `defaultPolicy().for(url).initialState`, with the status and the
      headers object `register` adds before merging options */
  function DefaultInitialState(url: string): (s: PollState)
    ensures s.status == Running && s.request == Request(url, Some(map[]))
    ensures s.baseInterval == s.interval == 600
    ensures s.backoffMultiplier == 2 && s.backoffLimit == 8
    ensures s.nextRequest.None? && s.etag.None? && s.lastModified.None? && s.lastResult == NoResult
  {
    PollState(Running, DefaultBaseInterval, DefaultBaseInterval, DefaultBackoffMultiplier, DefaultBackoffLimit,
              Request(url, Some(map[])), None, None, None, NoResult)
  }

  /** Caller options: each present field overrides the policy's */
  datatype Options = Options(
    status: Option<Status>,
    baseInterval: Option<int>,
    interval: Option<int>,
    backoffMultiplier: Option<int>,
    backoffLimit: Option<int>,
    request: Option<Request>,
    nextRequest: Option<Request>,
    etag: Option<string>,
    lastModified: Option<string>,
    lastResult: Option<LastResult>)

  const NoOptions := Options(None, None, None, None, None, None, None, None, None, None)

  /** A record passed as options: the fields its object carries, which
      are all but an absent `nextRequest`, `etag` or `lastModified` */
  function AsOptions(s: PollState): Options {
    Options(Some(s.status), Some(s.baseInterval), Some(s.interval), Some(s.backoffMultiplier),
            Some(s.backoffLimit), Some(s.request), s.nextRequest, s.etag, s.lastModified, Some(s.lastResult))
  }

  /** `for (k in options) state[k] = options[k]` */
  function Merge(s: PollState, o: Options): (r: PollState)
    ensures o == NoOptions ==> r == s
    ensures r.status == (if o.status.Some? then o.status.value else s.status)
    ensures r.baseInterval == (if o.baseInterval.Some? then o.baseInterval.value else s.baseInterval)
    ensures r.interval == (if o.interval.Some? then o.interval.value else s.interval)
    ensures r.backoffMultiplier == (if o.backoffMultiplier.Some? then o.backoffMultiplier.value else s.backoffMultiplier)
    ensures r.backoffLimit == (if o.backoffLimit.Some? then o.backoffLimit.value else s.backoffLimit)
    ensures r.request == (if o.request.Some? then o.request.value else s.request)
    ensures r.nextRequest == (if o.nextRequest.Some? then o.nextRequest else s.nextRequest)
    ensures r.etag == (if o.etag.Some? then o.etag else s.etag)
    ensures r.lastModified == (if o.lastModified.Some? then o.lastModified else s.lastModified)
    ensures r.lastResult == (if o.lastResult.Some? then o.lastResult.value else s.lastResult)
    ensures forall t :: o == AsOptions(t) && s.nextRequest.None? && s.etag.None? && s.lastModified.None? ==> r == t
  {
    PollState(
      o.status.GetOr(s.status),
      o.baseInterval.GetOr(s.baseInterval),
      o.interval.GetOr(s.interval),
      o.backoffMultiplier.GetOr(s.backoffMultiplier),
      o.backoffLimit.GetOr(s.backoffLimit),
      o.request.GetOr(s.request),
      if o.nextRequest.Some? then o.nextRequest else s.nextRequest,
      if o.etag.Some? then o.etag else s.etag,
      if o.lastModified.Some? then o.lastModified else s.lastModified,
      o.lastResult.GetOr(s.lastResult))
  }

  /** `register`: a URL that has a record is left alone; otherwise it gets
      the policy's record with the options merged in and the interval reset
      to the base interval, and is polled at once */
  function Register(states: States, url: string, opts: Options): (r: Step)
    ensures url in states ==> r == Step(states, [])
    ensures url !in states ==>
      && r.effects == [PollNow(url)]
      && r.states.Keys == states.Keys + {url}
      && (forall u :: u in states ==> r.states[u] == states[u])
      && var s := r.states[url];
         && s.status == opts.status.GetOr(Running)
         && s.baseInterval == opts.baseInterval.GetOr(DefaultBaseInterval)
         && s.interval == s.baseInterval
         && s.backoffMultiplier == opts.backoffMultiplier.GetOr(DefaultBackoffMultiplier)
         && s.backoffLimit == opts.backoffLimit.GetOr(DefaultBackoffLimit)
         && s.request == opts.request.GetOr(Request(url, Some(map[])))
         && s.nextRequest == opts.nextRequest
         && s.etag == opts.etag
         && s.lastModified == opts.lastModified
         && s.lastResult == opts.lastResult.GetOr(NoResult)
  {
    if url in states then Step(states, [])
    else
      var merged := Merge(DefaultInitialState(url), opts);
      Step(states[url := merged.(interval := merged.baseInterval)], [PollNow(url)])
  }

  // ---------------------------------------------------------------------
  // Request selection

  /** The request a poll sends, and the record as the selection leaves it */
  datatype Selection = Selection(request: Request, state: PollState)

  /** A pending one-shot redirect target is sent and cleared. Otherwise the
      canonical request is sent with If-None-Match and If-Modified-Since set
      from the stored validators; the source sets them on the stored
      request object itself, so they persist in the record. A headers
      object is created when one is needed and missing. */
  function SelectRequest(s: PollState): (sel: Selection)
    ensures sel.state.nextRequest.None?
    ensures sel.state == s.(request := sel.state.request, nextRequest := None)
    ensures s.nextRequest.Some? ==> sel.request == s.nextRequest.value && sel.state.request == s.request
    ensures s.nextRequest.None? ==>
      && sel.request == sel.state.request
      && sel.request.target == s.request.target
      && (Truthy(s.etag) || Truthy(s.lastModified) ==> sel.request.headers.Some?)
      && (sel.request.headers.Some? ==>
            var h := sel.request.headers.value;
            && (Truthy(s.etag) ==> "If-None-Match" in h && h["If-None-Match"] == s.etag.value)
            && (Truthy(s.lastModified) ==> "If-Modified-Since" in h && h["If-Modified-Since"] == s.lastModified.value)
            && (forall k :: k in h && k != "If-None-Match" && k != "If-Modified-Since" ==>
                  s.request.headers.Some? && k in s.request.headers.value && h[k] == s.request.headers.value[k]))
  {
    if s.nextRequest.Some? then Selection(s.nextRequest.value, s.(nextRequest := None))
    else if !Truthy(s.etag) && !Truthy(s.lastModified) then Selection(s.request, s.(nextRequest := None))
    else
      var h0 := s.request.headers.GetOr(map[]);
      var h1 := if Truthy(s.etag) then h0["If-None-Match" := s.etag.value] else h0;
      var h2 := if Truthy(s.lastModified) then h1["If-Modified-Since" := s.lastModified.value] else h1;
      var req := s.request.(headers := Some(h2));
      Selection(req, s.(request := req, nextRequest := None))
  }

  /** Request selection as the source writes it: setting a conditional
      header on a request without a headers object throws a TypeError,
      shown here as `None` */
  function SelectRequestAsWritten(s: PollState): (sel: Option<Selection>)
    ensures sel.None? <==> s.nextRequest.None? && s.request.headers.None? && (Truthy(s.etag) || Truthy(s.lastModified))
    ensures sel.Some? ==> sel.value == SelectRequest(s)
  {
    if s.nextRequest.None? && s.request.headers.None? && (Truthy(s.etag) || Truthy(s.lastModified)) then None
    else Some(SelectRequest(s))
  }

  // ---------------------------------------------------------------------
  // Outcomes

  /** `_schedule`: record a delay of the current interval */
  function Schedule(url: string, s: PollState): (e: Effect)
    ensures e.Delay? && e.url == url
    ensures e.millis == s.interval * 1000 && e.millis / 1000 == s.interval
  {
    Delay(url, s.interval * 1000)
  }

  /** `ok`: reset any backoff and schedule at the base interval */
  function Ok(states: States, url: string, s: PollState): (r: Step)
    ensures url in r.states && r.states[url] == s.(interval := s.baseInterval)
    ensures r.effects == [Delay(url, s.baseInterval * 1000)]
  {
    var s' := s.(interval := s.baseInterval);
    Step(states[url := s'], [Schedule(url, s')])
  }

  /** The backoff decision: the multiplied interval against the current
      interval scaled by the limit (not the base interval) */
  predicate RetriesExhausted(s: PollState) {
    s.backoffMultiplier * s.interval > s.interval * s.backoffLimit
  }

  /** `_retryWithBackoff`: stop with "Retries exceeded" and an `error`
      event, or multiply the interval and schedule at it */
  function RetryWithBackoff(url: string, s: PollState): (r: (PollState, seq<Effect>))
    ensures RetriesExhausted(s) ==>
      r == (s.(status := Stopped, lastResult := RetriesExceeded), [EmitError(url, RetriesExceeded)])
    ensures !RetriesExhausted(s) ==>
      && r.0 == s.(interval := s.backoffMultiplier * s.interval)
      && r.1 == [Delay(url, s.backoffMultiplier * s.interval * 1000)]
  {
    if RetriesExhausted(s) then
      (s.(status := Stopped, lastResult := RetriesExceeded), [EmitError(url, RetriesExceeded)])
    else
      var s' := s.(interval := s.backoffMultiplier * s.interval);
      (s', [Schedule(url, s')])
  }

  /** `retry`: record the failure, back off, then emit `poll_error` with
      the record's `lastResult` as the backoff left it (the two share one
      object, so after "Retries exceeded" that is what `poll_error` carries) */
  function Retry(states: States, url: string, s: PollState, reason: Reason, now: int): (r: Step)
    ensures url in r.states
    ensures RetriesExhausted(s) ==>
      && r.states[url] == s.(status := Stopped, lastResult := RetriesExceeded)
      && r.effects == [EmitError(url, RetriesExceeded), EmitPollError(url, RetriesExceeded)]
    ensures !RetriesExhausted(s) ==>
      && r.states[url] == s.(interval := s.backoffMultiplier * s.interval, lastResult := Failed(now, reason))
      && r.effects == [Delay(url, s.backoffMultiplier * s.interval * 1000), EmitPollError(url, Failed(now, reason))]
  {
    var (s', effects) := RetryWithBackoff(url, s.(lastResult := Failed(now, reason)));
    Step(states[url := s'], effects + [EmitPollError(url, s'.lastResult)])
  }

  /** `stop`: a fatal outcome */
  function Stop(states: States, url: string, s: PollState, reason: Reason, now: int): (r: Step)
    ensures url in r.states && r.states[url] == s.(status := Stopped, lastResult := Failed(now, reason))
    ensures r.effects == [EmitPollError(url, Failed(now, reason))]
  {
    var s' := s.(status := Stopped, lastResult := Failed(now, reason));
    Step(states[url := s'], [EmitPollError(url, s'.lastResult)])
  }

  /** A 200 is accepted when no Content-Length (or 0, or not a number) was
      given, or when it matches the bytes received */
  predicate BodyComplete(res: Response) {
    res.contentLength.None? || res.contentLength.value == 0 || res.received == res.contentLength.value
  }

  predicate IsTemporaryRedirect(status: int) {
    status == 302 || status == 303 || status == 307
  }

  /** What a completed request does to the record `s` of `url` */
  function Complete(states: States, url: string, s: PollState, c: Completion, now: int): (r: Step)
    ensures url in r.states
    ensures forall u :: u in states && u != url ==> u in r.states && r.states[u] == states[u]
    ensures r.states[url].baseInterval == s.baseInterval
    ensures r.states[url].backoffMultiplier == s.backoffMultiplier && r.states[url].backoffLimit == s.backoffLimit
    ensures forall u :: u in r.states && u !in states && u != url ==> c.Responded? && c.response.status == 301
  {
    match c
    case ConnectionFailed => Retry(states, url, s, ConnectionError, now)
    case Responded(res) =>
      var status := res.status;
      if status == 200 then
        if BodyComplete(res) then
          var etag := Header(res.headers, "etag");
          var lastModified := Header(res.headers, "last-modified");
          var s1 := s.(lastResult := Fetched(now, res.contentLength),
                       etag := if etag.Some? then etag else s.etag,
                       lastModified := if lastModified.Some? then lastModified else s.lastModified,
                       request := if lastModified.Some? then s.request.(headers := Some(s.request.headers.GetOr(map[])))
                                  else s.request);
          var step := Ok(states, url, s1);
          Step(step.states, step.effects + [EmitUpdate(url, res.body, res.headers)])
        else
          Retry(states, url, s, ShortBody(res.received, res.contentLength.value), now)
      else if status == 304 then
        Ok(states, url, s.(lastResult := NotModified(now)))
      else if status == 404 then
        Retry(states, url, s, NotFound, now)
      else if status == 401 then
        Stop(states, url, s, Unauthorised, now)
      else if status == 403 then
        Stop(states, url, s, Forbidden, now)
      else if status == 410 then
        Stop(states, url, s, DocumentGone, now)
      else if 400 <= status < 500 then
        Stop(states, url, s, UnexpectedResponse(status), now)
      else if status == 301 then
        match Header(res.headers, "location")
        case Some(location) =>
          var s1 := s.(lastResult := Redirected(location, now), request := Request(location, None));
          Register(states[url := s1], location, AsOptions(s1))
        case None => Retry(states, url, s, RedirectWithoutLocation, now)
      else if IsTemporaryRedirect(status) then
        match Header(res.headers, "location")
        case Some(location) =>
          var s1 := s.(lastResult := Redirected(location, now), nextRequest := Some(Request(location, None)));
          Step(states[url := s1], [PollNow(url)])
        case None => Retry(states, url, s, RedirectWithoutLocation, now)
      else if status >= 500 then
        Retry(states, url, s, ServerError(status), now)
      else
        Step(states[url := s], [])
  }

  /** The result of `_poll`: the request sent, if any, and the step */
  datatype Poll = Poll(sent: Option<Request>, step: Step)

  /** `_poll`: a URL without a record is not polled; otherwise select the
      request and apply the completion it met */
  function PollOnce(states: States, url: string, c: Completion, now: int): (p: Poll)
    ensures url !in states ==> p == Poll(None, Step(states, []))
    ensures url in states ==> p.sent == Some(SelectRequest(states[url]).request)
  {
    if url !in states then Poll(None, Step(states, []))
    else
      var sel := SelectRequest(states[url]);
      Poll(Some(sel.request), Complete(states[url := sel.state], url, sel.state, c, now))
  }

  // ---------------------------------------------------------------------
  // Resumption

  /** What `start` does for one URL */
  datatype Resume = PollImmediately | Wait(millis: int) | WaitNaN

  /** When a result completed; 0 when it has no time */
  function CompletedAt(r: LastResult): int {
    match r
    case Fetched(t, _) => t
    case NotModified(t) => t
    case Redirected(_, t) => t
    case Failed(t, _) => t
    case NoResult => 0
    case RetriesExceeded => 0
  }

  /** When a record is next due, in milliseconds */
  function Due(s: PollState): int {
    CompletedAt(s.lastResult) + s.interval * 1000
  }

  /** `start`, for every record not stopped: poll at once when overdue,
      otherwise wait out the rest of the interval */
  function Start(states: States, now: int): (plan: map<string, Resume>)
    ensures forall u :: u in plan <==> u in states && states[u].status != Stopped
    ensures forall u :: u in plan ==> (plan[u] == PollImmediately <==> Due(states[u]) < now)
    ensures forall u :: u in plan && plan[u] != PollImmediately ==>
              plan[u] == Wait(Due(states[u]) - now) && plan[u].millis >= 0
  {
    map u | u in states && states[u].status != Stopped ::
      if Due(states[u]) < now then PollImmediately else Wait(Due(states[u]) - now)
  }

  /** `start` as the source writes it: `lastResult || 0` is the result
      object itself when there is one, and adding a number to an object
      concatenates strings, so `due` is not a number, `due < now` is false,
      and the delay `due - now` is NaN */
  function StartAsWritten(states: States, now: int): (plan: map<string, Resume>)
    ensures forall u :: u in plan <==> u in states && states[u].status != Stopped
    ensures forall u :: u in plan && states[u].lastResult != NoResult ==> plan[u] == WaitNaN
    ensures forall u :: u in plan && states[u].lastResult == NoResult ==> plan[u] == Start(states, now)[u]
  {
    map u | u in states && states[u].status != Stopped ::
      if states[u].lastResult != NoResult then WaitNaN
      else if states[u].interval * 1000 < now then PollImmediately
      else Wait(states[u].interval * 1000 - now)
  }
}
