/**
 * The authenticated HTTP client: a request interceptor that attaches the stored access token,
 * a response interceptor that normalises responses and errors by status, and the 401 handler
 * that coordinates a single token refresh through an `isRefreshing` flag and a FIFO queue of
 * requests waiting for the new token.
 *
 * The transport is abstract: a request leaving the client is recorded in `sent`, a refresh call
 * in `refreshCalls`, and the outcome of the refresh call arrives as a separate event. Token
 * storage is two optional strings (what `getItem` returns for the access and refresh keys), and
 * the session-end hook is counted in `logouts`.
 */
module AxiosService {
  import opened Wrappers
  import opened Text
  import opened Seqs

  // ---------------------------------------------------------------------------
  // Requests, responses and the two normalised shapes

  datatype HttpMethod = Get | Post | Put | Patch | Delete

  /** The part of an axios request config the client reads or writes. */
  datatype RequestConfig = RequestConfig(verb: HttpMethod, url: string, authorization: Option<string>)

  /** The response body fields the client reads: `success`, `message` and, on refresh, `accessToken`. */
  datatype Body = Body(success: bool, message: Option<string>, accessToken: Option<string>)

  datatype Response = Response(status: int, data: Body)

  /** An axios error: the config of the failed request (if any) and the server's response (if any). */
  datatype HttpError = HttpError(config: Option<RequestConfig>, response: Option<Response>)

  /** What a caller's promise settles with. */
  datatype Payload =
    | SuccessResponse(message: string, data: Body)
    | FailureResponse(code: string, message: string, success: bool)
    | RawResponse(response: Response)
    | RawError(error: HttpError)

  datatype Settled = Resolved(value: Payload) | Rejected(reason: Payload)

  function PayloadOf(s: Settled): Payload {
    match s
    case Resolved(p) => p
    case Rejected(p) => p
  }

  // ---------------------------------------------------------------------------
  // The request interceptor (section 2.1 of RFC 6750: the Bearer authorization header)

  const BearerPrefix: string := "Bearer "

  function Bearer(token: string): (h: string)
    ensures |h| == |BearerPrefix| + |token| && h[..|BearerPrefix|] == BearerPrefix && h[|BearerPrefix|..] == token
  {
    BearerPrefix + token
  }

  /** Reads the token back out of an `Authorization` header written by the client. */
  function BearerToken(h: string): (r: Option<string>)
    ensures r.Some? ==> Bearer(r.value) == h
  {
    if |h| >= |BearerPrefix| && h[..|BearerPrefix|] == BearerPrefix then
      assert h == h[..|BearerPrefix|] + h[|BearerPrefix|..];
      Some(h[|BearerPrefix|..])
    else None
  }

  lemma BearerRoundTrip(token: string)
    ensures BearerToken(Bearer(token)) == Some(token)
  {
  }

  /**
   * The request interceptor: with a truthy stored token the header becomes `Bearer <token>`;
   * with none (or the empty string) the config leaves unchanged.
   */
  function InterceptRequest(stored: Option<string>, config: RequestConfig): (r: RequestConfig)
    ensures r.verb == config.verb && r.url == config.url
    ensures Truthy(stored) ==> r.authorization.Some? && BearerToken(r.authorization.value) == stored
    ensures !Truthy(stored) ==> r == config
  {
    if Truthy(stored) then config.(authorization := Some(Bearer(stored.value))) else config
  }

  // ---------------------------------------------------------------------------
  // The success path

  /** `handleResponse`: how a response that axios resolved is passed on. */
  function HandleResponse(resp: Response): (r: Settled)
    ensures resp.status == 200 ==> PayloadOf(r) == SuccessResponse("Success", resp.data)
    ensures resp.status == 200 ==> (r.Resolved? <==> resp.data.success)
    ensures resp.status == 400 ==>
              r == Rejected(FailureResponse("400", OrElse(resp.data.message, "Request failed."), false))
    ensures resp.status != 200 && resp.status != 400 ==> r == Resolved(RawResponse(resp))
  {
    if resp.status == 200 then
      var s := SuccessResponse("Success", resp.data);
      if !s.data.success then Rejected(s) else Resolved(s)
    else if resp.status == 400 then
      assert IntToDecimal(400) == "400" by {
        assert NatToDecimal(40) == "40" by { assert NatToDecimal(4) == "4"; }
      }
      Rejected(FailureResponse(IntToDecimal(resp.status), OrElse(resp.data.message, "Request failed."), false))
    else
      Resolved(RawResponse(resp))
  }

  // ---------------------------------------------------------------------------
  // The error path

  predicate Is401(err: HttpError) {
    err.response.Some? && err.response.value.status == 401
  }

  /** The error interceptor for every error other than a 401. */
  function RejectError(err: HttpError): (r: Settled)
    requires !Is401(err)
    ensures r.Rejected?
    ensures err.response.Some? && err.response.value.status >= 500 ==>
              r.reason == FailureResponse(IntToDecimal(err.response.value.status),
                                          OrElse(err.response.value.data.message, "Internal Server Error"), false)
    ensures !(err.response.Some? && err.response.value.status >= 500) ==> r.reason == RawError(err)
  {
    if err.response.Some? then
      var resp := err.response.value;
      if resp.status >= 500 then
        Rejected(FailureResponse(IntToDecimal(resp.status), OrElse(resp.data.message, "Internal Server Error"), false))
      else
        Rejected(RawError(err))
    else
      Rejected(RawError(err))
  }

  /** A server failure's `code` is the decimal form of the status: reading it gives the status back. */
  lemma ServerFailureCode(err: HttpError)
    requires err.response.Some? && err.response.value.status >= 500
    ensures var code := RejectError(err).reason.code;
            (forall i :: 0 <= i < |code| ==> IsDigit(code[i])) && ParseDecimal(code) == err.response.value.status
  {
    ParseNatToDecimal(err.response.value.status);
  }

  // ---------------------------------------------------------------------------
  // Client state and its events, as functions

  /** The refresh endpoint, below the configured base address. */
  const RefreshUrl: string := "/auth/refresh"

  datatype ClientState = ClientState(
    accessToken: Option<string>,    // getItem(API_TOKEN_KEY)
    refreshToken: Option<string>,   // getItem(API_REFRESH_TOKEN_KEY)
    isRefreshing: bool,
    queue: seq<RequestConfig>,      // refreshQueue: the request each continuation retries
    awaiting: Option<RequestConfig>, // the original request of the 401 handler suspended on the refresh call
    sent: seq<RequestConfig>,       // requests that left the client, after the request interceptor
    refreshCalls: seq<string>,      // refresh tokens posted to the refresh endpoint
    logouts: nat)                   // calls of the session-end hook

  /** A fresh client over the given storage. */
  function Initial(accessToken: Option<string>, refreshToken: Option<string>): ClientState {
    ClientState(accessToken, refreshToken, false, [], None, [], [], 0)
  }

  /** A handler suspended on the refresh call exists only while the flag is set. */
  ghost predicate Consistent(st: ClientState) {
    st.awaiting.Some? ==> st.isRefreshing
  }

  /** What the 401 handler leaves the caller's promise with. */
  datatype Outcome =
    | Settle(settled: Settled)        // settled now
    | Enqueued                        // pending until a later refresh succeeds
    | AwaitingRefresh                 // pending on the refresh call this handler issued
    | Retried(request: RequestConfig) // follows the retried request

  datatype Step = Step(state: ClientState, outcome: Outcome)

  /** A request leaving the client passes through the request interceptor. */
  function Send(st: ClientState, config: RequestConfig): (r: ClientState)
    ensures r.(sent := st.sent) == st
    ensures |r.sent| == |st.sent| + 1 && r.sent[..|st.sent|] == st.sent
    ensures r.sent[|st.sent|].verb == config.verb && r.sent[|st.sent|].url == config.url
  {
    st.(sent := st.sent + [InterceptRequest(st.accessToken, config)])
  }

  /** `handle401Error`. */
  function Handle401(st: ClientState, err: HttpError): (r: Step)
    ensures r.state.sent == st.sent && r.state.accessToken == st.accessToken
    ensures r.outcome == AwaitingRefresh <==> err.config.Some? && !st.isRefreshing && Truthy(st.refreshToken)
    ensures r.outcome == Enqueued <==> err.config.Some? && st.isRefreshing
    ensures |r.state.refreshCalls| == |st.refreshCalls| + (if r.outcome == AwaitingRefresh then 1 else 0)
    ensures err.config.Some? ==> r.state.isRefreshing
  {
    match err.config
    case None => Step(st, Settle(Rejected(RawError(err))))
    case Some(original) =>
      if st.isRefreshing then
        Step(st.(queue := st.queue + [original]), Enqueued)
      else
        var flagged := st.(isRefreshing := true);
        if !Truthy(st.refreshToken) then
          Step(flagged.(logouts := st.logouts + 1), Settle(Rejected(RawError(err))))
        else
          Step(flagged.(awaiting := Some(original), refreshCalls := st.refreshCalls + [st.refreshToken.value]),
               AwaitingRefresh)
  }

  /** The error interceptor. */
  function OnError(st: ClientState, err: HttpError): (r: Step)
    ensures !Is401(err) ==> r.state == st && r.outcome.Settle? && r.outcome.settled.Rejected?
    ensures r.state.sent == st.sent
  {
    if Is401(err) then Handle401(st, err) else Step(st, Settle(RejectError(err)))
  }

  /** What `setItem` stores for `data.accessToken`: a missing value is stored as the string "undefined". */
  function StoredToken(accessToken: Option<string>): string {
    accessToken.GetOr("undefined")
  }

  /** A continuation (or the final retry) run with `token`: it sets the header and sends the request. */
  function Replay(token: string, config: RequestConfig): (r: RequestConfig)
    ensures r.verb == config.verb && r.url == config.url
    ensures r.authorization.Some? && BearerToken(r.authorization.value) == Some(token)
  {
    InterceptRequest(Some(token), config.(authorization := Some(Bearer(token))))
  }

  /** Whichever way the interceptor goes, a replayed request carries exactly `Bearer <token>`. */
  lemma ReplayCarriesToken(token: string, config: RequestConfig)
    ensures Replay(token, config) == config.(authorization := Some(Bearer(token)))
  {
  }

  /** The refresh call resolved with body `data`: store the token, replay the queue, retry the original. */
  function RefreshSucceeded(st: ClientState, data: Body): (r: Step)
    requires st.awaiting.Some?
    ensures !r.state.isRefreshing && r.state.awaiting.None? && r.state.queue == []
    ensures |r.state.sent| == |st.sent| + |st.queue| + 1 && r.state.sent[..|st.sent|] == st.sent
    ensures r.outcome.Retried? && r.outcome.request == r.state.sent[|r.state.sent| - 1]
    ensures r.state.refreshCalls == st.refreshCalls && r.state.logouts == st.logouts
  {
    var token := StoredToken(data.accessToken);
    var replays := Map(st.queue, (c: RequestConfig) => Replay(token, c));
    var retry := Replay(token, st.awaiting.value);
    Step(st.(accessToken := Some(token), queue := [], sent := st.sent + replays + [retry],
             isRefreshing := false, awaiting := None),
         Retried(retry))
  }

  /** The refresh call was rejected with `refreshError`. */
  function RefreshFailed(st: ClientState, refreshError: Payload): (r: Step)
    requires st.awaiting.Some?
    ensures !r.state.isRefreshing && r.state.awaiting.None?
    ensures r.state.sent == st.sent && r.state.accessToken == st.accessToken
    ensures r.outcome == Settle(Rejected(refreshError))
  {
    Step(st.(logouts := st.logouts + 1, isRefreshing := false, awaiting := None),
         Settle(Rejected(refreshError)))
  }

  /**
   * How the refresh call's own outcome decides between the two events: the call goes through the
   * response interceptor, and `data` is the body whether the response was a 200 (wrapped in a
   * `SuccessResponse`) or another resolved status. `None` is the rejected case.
   */
  function RefreshData(s: Settled): (r: Option<Body>)
    ensures s.Rejected? ==> r.None?
  {
    match s
    case Resolved(SuccessResponse(_, data)) => Some(data)
    case Resolved(RawResponse(resp)) => Some(resp.data)
    case _ => None
  }

  /** A refresh answered 200 succeeds iff its body says `success`; a 400 always fails. */
  lemma RefreshResponseDecides(resp: Response)
    ensures resp.status == 200 ==> (RefreshData(HandleResponse(resp)).Some? <==> resp.data.success)
    ensures resp.status == 400 ==> RefreshData(HandleResponse(resp)).None?
    ensures resp.status != 200 && resp.status != 400 ==> RefreshData(HandleResponse(resp)) == Some(resp.data)
  {
  }

  // ---------------------------------------------------------------------------
  // Properties of single events

  lemma EventsKeepConsistent(st: ClientState, config: RequestConfig, err: HttpError, data: Body, e: Payload)
    requires Consistent(st)
    ensures Consistent(Send(st, config)) && Consistent(OnError(st, err).state)
    ensures st.awaiting.Some? ==> Consistent(RefreshSucceeded(st, data).state) && Consistent(RefreshFailed(st, e).state)
  {
  }

  /** A 401 while a refresh is underway queues exactly its request and issues no refresh call. */
  lemma QueuedWhileRefreshing(st: ClientState, err: HttpError)
    requires st.isRefreshing && Is401(err) && err.config.Some?
    ensures OnError(st, err) == Step(st.(queue := st.queue + [err.config.value]), Enqueued)
  {
  }

  /** A 401 without a request config is rejected as it came and touches nothing. */
  lemma NoConfigRejected(st: ClientState, err: HttpError)
    requires Is401(err) && err.config.None?
    ensures OnError(st, err) == Step(st, Settle(Rejected(RawError(err))))
  {
  }

  /** The first 401 with a refresh token sets the flag and posts exactly one refresh call with that token. */
  lemma FirstUnauthorizedStartsRefresh(st: ClientState, err: HttpError)
    requires !st.isRefreshing && Is401(err) && err.config.Some? && Truthy(st.refreshToken)
    ensures var s := OnError(st, err);
            s.outcome == AwaitingRefresh && s.state.isRefreshing && s.state.awaiting == err.config &&
            s.state.refreshCalls == st.refreshCalls + [st.refreshToken.value] &&
            s.state.queue == st.queue && s.state.sent == st.sent && s.state.logouts == st.logouts
  {
  }

  /**
   * With no refresh token the handler logs out and rejects with the original error; the `return`
   * comes before the `finally`, so the flag stays set and no refresh call is made.
   */
  lemma MissingRefreshTokenLeavesFlagSet(st: ClientState, err: HttpError)
    requires !st.isRefreshing && Is401(err) && err.config.Some? && !Truthy(st.refreshToken)
    ensures var s := OnError(st, err);
            s.outcome == Settle(Rejected(RawError(err))) &&
            s.state == st.(isRefreshing := true, logouts := st.logouts + 1)
  {
  }

  /** Refresh success: token stored, queue replayed in order with it, then the original retried; flag cleared. */
  lemma RefreshSuccessReplaysInOrder(st: ClientState, data: Body)
    requires st.awaiting.Some?
    ensures var s := RefreshSucceeded(st, data).state;
            var token := StoredToken(data.accessToken);
            s.accessToken == Some(token) && s.queue == [] && !s.isRefreshing && s.awaiting.None? &&
            |s.sent| == |st.sent| + |st.queue| + 1 && s.sent[..|st.sent|] == st.sent &&
            (forall i :: 0 <= i < |st.queue| ==>
               s.sent[|st.sent| + i] == st.queue[i].(authorization := Some(Bearer(token)))) &&
            s.sent[|s.sent| - 1] == st.awaiting.value.(authorization := Some(Bearer(token))) &&
            s.refreshCalls == st.refreshCalls && s.logouts == st.logouts
    ensures RefreshSucceeded(st, data).outcome == Retried(st.awaiting.value.(authorization := Some(Bearer(StoredToken(data.accessToken)))))
  {
    var s := RefreshSucceeded(st, data).state;
    var token := StoredToken(data.accessToken);
    forall i | 0 <= i < |st.queue|
      ensures s.sent[|st.sent| + i] == st.queue[i].(authorization := Some(Bearer(token)))
    {
      ReplayCarriesToken(token, st.queue[i]);
    }
    ReplayCarriesToken(token, st.awaiting.value);
  }

  /** Refresh failure: logout and the flag is cleared, but the queued requests stay where they are. */
  lemma RefreshFailureKeepsQueue(st: ClientState, e: Payload)
    requires st.awaiting.Some?
    ensures var s := RefreshFailed(st, e);
            s.outcome == Settle(Rejected(e)) && s.state.queue == st.queue && !s.state.isRefreshing &&
            s.state.logouts == st.logouts + 1 && s.state.sent == st.sent && s.state.refreshCalls == st.refreshCalls
  {
  }

  // ---------------------------------------------------------------------------
  // Event sequences

  datatype Event =
    | Request(config: RequestConfig)
    | Error(err: HttpError)
    | RefreshOk(data: Body)
    | RefreshError(e: Payload)

  /** One event; a refresh outcome with no refresh call in flight cannot occur and changes nothing. */
  function Apply(st: ClientState, ev: Event): (r: ClientState)
    ensures |r.sent| >= |st.sent| && r.sent[..|st.sent|] == st.sent
    ensures |st.refreshCalls| <= |r.refreshCalls| <= |st.refreshCalls| + 1 && r.refreshCalls[..|st.refreshCalls|] == st.refreshCalls
    ensures r.logouts <= st.logouts + 1
  {
    match ev
    case Request(c) => Send(st, c)
    case Error(err) => OnError(st, err).state
    case RefreshOk(data) => if st.awaiting.Some? then RefreshSucceeded(st, data).state else st
    case RefreshError(e) => if st.awaiting.Some? then RefreshFailed(st, e).state else st
  }

  function Run(st: ClientState, evs: seq<Event>): (r: ClientState)
    ensures |r.sent| >= |st.sent| && r.sent[..|st.sent|] == st.sent
    ensures |st.refreshCalls| <= |r.refreshCalls| <= |st.refreshCalls| + |evs| && r.refreshCalls[..|st.refreshCalls|] == st.refreshCalls
    ensures r.logouts <= st.logouts + |evs|
    decreases |evs|
  {
    if evs == [] then st
    else
      var next := Apply(st, evs[0]);
      var r := Run(next, evs[1..]);
      assert r.sent[..|st.sent|] == r.sent[..|next.sent|][..|st.sent|];
      assert r.refreshCalls[..|st.refreshCalls|] == r.refreshCalls[..|next.refreshCalls|][..|st.refreshCalls|];
      r
  }

  /** Every reachable state keeps the suspended handler under the flag. */
  lemma {:induction false} RunKeepsConsistent(st: ClientState, evs: seq<Event>)
    requires Consistent(st)
    ensures Consistent(Run(st, evs))
    decreases |evs|
  {
    if evs != [] {
      var ev := evs[0];
      match ev {
        case Request(c) => EventsKeepConsistent(st, c, HttpError(None, None), Body(false, None, None), RawError(HttpError(None, None)));
        case Error(err) => EventsKeepConsistent(st, RequestConfig(Get, "", None), err, Body(false, None, None), RawError(err));
        case RefreshOk(data) => EventsKeepConsistent(st, RequestConfig(Get, "", None), HttpError(None, None), data, RawError(HttpError(None, None)));
        case RefreshError(e) => EventsKeepConsistent(st, RequestConfig(Get, "", None), HttpError(None, None), Body(false, None, None), e);
      }
      RunKeepsConsistent(Apply(st, ev), evs[1..]);
    }
  }

  /**
   * Once the flag is set with no refresh call in flight (the missing-refresh-token exit), the client
   * is stuck for good: whatever happens next, the flag stays set, no refresh call is ever made,
   * no queued request is replayed, and the queue only grows.
   */
  lemma {:induction false} StuckAfterMissingRefreshToken(st: ClientState, evs: seq<Event>)
    requires st.isRefreshing && st.awaiting.None?
    ensures var s := Run(st, evs);
            s.isRefreshing && s.awaiting.None? && s.refreshCalls == st.refreshCalls &&
            |s.queue| >= |st.queue| && s.queue[..|st.queue|] == st.queue
    decreases |evs|
  {
    if evs != [] {
      var next := Apply(st, evs[0]);
      StuckAfterMissingRefreshToken(next, evs[1..]);
    }
  }

  /** A wave of 401s: every error is a 401 that carries its request config. */
  ghost predicate UnauthorizedWave(evs: seq<Event>) {
    forall i :: 0 <= i < |evs| ==> evs[i].Error? && Is401(evs[i].err) && evs[i].err.config.Some?
  }

  function WaveConfigs(evs: seq<Event>): (r: seq<RequestConfig>)
    requires UnauthorizedWave(evs)
    ensures |r| == |evs|
    ensures forall i :: 0 <= i < |evs| ==> r[i] == evs[i].err.config.value
  {
    if evs == [] then [] else [evs[0].err.config.value] + WaveConfigs(evs[1..])
  }

  /** During a refresh, a wave of 401s only queues its requests, in arrival order. */
  lemma {:induction false} WaveWhileRefreshing(st: ClientState, evs: seq<Event>)
    requires st.isRefreshing && UnauthorizedWave(evs)
    ensures Run(st, evs) == st.(queue := st.queue + WaveConfigs(evs))
    decreases |evs|
  {
    if evs != [] {
      var next := Apply(st, evs[0]);
      assert next == st.(queue := st.queue + [evs[0].err.config.value]);
      WaveWhileRefreshing(next, evs[1..]);
      assert st.queue + [evs[0].err.config.value] + WaveConfigs(evs[1..]) == st.queue + WaveConfigs(evs);
    }
  }

  /**
   * Concurrent 401s with no refresh underway make exactly one refresh call: the first request
   * waits on it and the others are queued behind whatever the queue already held.
   */
  lemma OneRefreshPerWave(st: ClientState, evs: seq<Event>)
    requires !st.isRefreshing && Truthy(st.refreshToken) && |evs| > 0 && UnauthorizedWave(evs)
    ensures var s := Run(st, evs);
            s.refreshCalls == st.refreshCalls + [st.refreshToken.value] &&
            s.awaiting == Some(evs[0].err.config.value) &&
            s.queue == st.queue + WaveConfigs(evs)[1..] && s.isRefreshing && s.sent == st.sent
  {
    var next := Apply(st, evs[0]);
    assert UnauthorizedWave(evs[1..]);
    WaveWhileRefreshing(next, evs[1..]);
    assert WaveConfigs(evs[1..]) == WaveConfigs(evs)[1..];
  }

  /**
   * A failed refresh leaves its queued requests behind; the next successful refresh replays those
   * stale requests first, then the new wave's queued requests, then the new original request.
   */
  lemma StaleRequestsReplayedByNextRefresh(st: ClientState, e: Payload, err: HttpError, data: Body)
    requires st.awaiting.Some?
    requires Is401(err) && err.config.Some? && Truthy(st.refreshToken)
    ensures var failed := RefreshFailed(st, e).state;
            var started := OnError(failed, err).state;
            var done := RefreshSucceeded(started, data).state;
            var token := StoredToken(data.accessToken);
            failed.queue == st.queue &&
            done.sent == st.sent + Map(st.queue, (c: RequestConfig) => Replay(token, c)) + [Replay(token, err.config.value)]
  {
  }

  /** A request that gets a 401 and is then refreshed is retried with the new token; only that retry is sent. */
  lemma UnauthorizedThenRefreshed(st: ClientState, err: HttpError, data: Body)
    requires !st.isRefreshing && st.queue == [] && Is401(err) && err.config.Some? && Truthy(st.refreshToken)
    ensures var started := OnError(st, err).state;
            var done := RefreshSucceeded(started, data);
            var retry := err.config.value.(authorization := Some(Bearer(StoredToken(data.accessToken))));
            done.outcome == Retried(retry) && done.state.sent == st.sent + [retry] &&
            |done.state.refreshCalls| == |st.refreshCalls| + 1 && !done.state.isRefreshing
  {
    ReplayCarriesToken(StoredToken(data.accessToken), err.config.value);
  }

  /** Two simultaneous 401s: one refresh call; the queued second request is sent before the first one's retry. */
  lemma TwoConcurrentUnauthorized(st: ClientState, err1: HttpError, err2: HttpError, data: Body)
    requires !st.isRefreshing && st.queue == [] && Truthy(st.refreshToken)
    requires Is401(err1) && err1.config.Some? && Is401(err2) && err2.config.Some?
    ensures var s1 := OnError(st, err1).state;
            var s2 := OnError(s1, err2).state;
            var done := RefreshSucceeded(s2, data).state;
            var token := StoredToken(data.accessToken);
            done.refreshCalls == st.refreshCalls + [st.refreshToken.value] &&
            done.sent == st.sent + [err2.config.value.(authorization := Some(Bearer(token))),
                                    err1.config.value.(authorization := Some(Bearer(token)))]
  {
    var token := StoredToken(data.accessToken);
    ReplayCarriesToken(token, err1.config.value);
    ReplayCarriesToken(token, err2.config.value);
  }

  // ---------------------------------------------------------------------------
  // The client object

  class Client {
    var accessToken: Option<string>
    var refreshToken: Option<string>
    var isRefreshing: bool
    var refreshQueue: seq<RequestConfig>
    var awaiting: Option<RequestConfig>
    var sent: seq<RequestConfig>
    var refreshCalls: seq<string>
    var logouts: nat

    function State(): ClientState
      reads this
    {
      ClientState(accessToken, refreshToken, isRefreshing, refreshQueue, awaiting, sent, refreshCalls, logouts)
    }

    ghost predicate Valid()
      reads this
    {
      Consistent(State())
    }

    constructor (storedAccess: Option<string>, storedRefresh: Option<string>)
      ensures Valid() && State() == Initial(storedAccess, storedRefresh)
    {
      accessToken := storedAccess;
      refreshToken := storedRefresh;
      isRefreshing := false;
      refreshQueue := [];
      awaiting := None;
      sent := [];
      refreshCalls := [];
      logouts := 0;
    }

    /** The request interceptor, then the transport. */
    method Request(config: RequestConfig) returns (out: RequestConfig)
      requires Valid()
      modifies this
      ensures Valid() && State() == Send(old(State()), config)
      ensures out == InterceptRequest(old(accessToken), config)
    {
      out := config;
      if accessToken.Some? && accessToken.value != "" {
        out := out.(authorization := Some(Bearer(accessToken.value)));
      }
      sent := sent + [out];
    }

    /** `handleLogout`. */
    method HandleLogout()
      modifies this
      ensures State() == old(State()).(logouts := old(logouts) + 1)
    {
      logouts := logouts + 1;
    }

    /** The error interceptor. */
    method InterceptError(err: HttpError) returns (o: Outcome)
      requires Valid()
      modifies this
      ensures Valid() && Step(State(), o) == OnError(old(State()), err)
    {
      if err.response.Some? && err.response.value.status == 401 {
        o := Handle401Error(err);
        return;
      }
      o := Settle(RejectError(err));
    }

    /** `handle401Error`, up to the refresh call it issues. */
    method Handle401Error(err: HttpError) returns (o: Outcome)
      requires Valid()
      modifies this
      ensures Valid() && Step(State(), o) == Handle401(old(State()), err)
    {
      if err.config.None? {
        return Settle(Rejected(RawError(err)));
      }
      var original := err.config.value;
      if isRefreshing {
        refreshQueue := refreshQueue + [original];
        return Enqueued;
      }
      isRefreshing := true;
      var token := refreshToken;
      if !(token.Some? && token.value != "") {
        HandleLogout();
        return Settle(Rejected(RawError(err)));
      }
      refreshCalls := refreshCalls + [token.value];
      awaiting := Some(original);
      o := AwaitingRefresh;
    }

    /** The refresh call resolved: store the token, run every continuation in order, retry the original. */
    method OnRefreshSucceeded(data: Body) returns (o: Outcome)
      requires Valid() && awaiting.Some?
      modifies this
      ensures Valid() && Step(State(), o) == RefreshSucceeded(old(State()), data)
    {
      ghost var expected := RefreshSucceeded(State(), data);
      var newToken := StoredToken(data.accessToken);
      accessToken := Some(newToken);
      ghost var sent0 := sent;
      var i := 0;
      while i < |refreshQueue|
        invariant 0 <= i <= |refreshQueue|
        invariant refreshQueue == old(refreshQueue) && accessToken == Some(newToken)
        invariant sent == sent0 + Map(refreshQueue[..i], (c: RequestConfig) => Replay(newToken, c))
        invariant isRefreshing == old(isRefreshing) && awaiting == old(awaiting)
        invariant refreshToken == old(refreshToken) && refreshCalls == old(refreshCalls) && logouts == old(logouts)
      {
        var request := refreshQueue[i].(authorization := Some(Bearer(newToken)));
        var out := Request(request);
        assert refreshQueue[..i + 1] == refreshQueue[..i] + [refreshQueue[i]];
        MapAppend(refreshQueue[..i], [refreshQueue[i]], (c: RequestConfig) => Replay(newToken, c));
        i := i + 1;
      }
      assert refreshQueue[..i] == refreshQueue;
      refreshQueue := [];
      ghost var original0 := awaiting.value;
      var original := awaiting.value.(authorization := Some(Bearer(newToken)));
      ReplayCarriesToken(newToken, original0);
      var retry := Request(original);
      isRefreshing := false;
      awaiting := None;
      o := Retried(retry);
      assert State() == expected.state;
    }

    /** The refresh call was rejected: log out, reject with the refresh error; the queue is left as it is. */
    method OnRefreshFailed(refreshError: Payload) returns (o: Outcome)
      requires Valid() && awaiting.Some?
      modifies this
      ensures Valid() && Step(State(), o) == RefreshFailed(old(State()), refreshError)
    {
      HandleLogout();
      o := Settle(Rejected(refreshError));
      isRefreshing := false;
      awaiting := None;
    }
  }
}
