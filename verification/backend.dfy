/**
 The backend's process-wide credential state and the two helpers that act on
 it: `refreshAccessToken` and the retry-once-on-401 wrapper `spotifyRequest`.
 Requests are handled one after another; each provider exchange is an input.
 */
module Backend {
  import opened Values
  import opened Provider

  /** The three module-level variables; all start out `null`. */
  datatype State = State(
    accessToken: Option<string>,
    refreshToken: Option<string>,
    deviceToken: Option<string>)

  const Initial: State := State(None, None, None)

  /** The state after an async helper, what it returned or threw, and the
      upstream calls it made, in order. */
  datatype Step<+T> = Step(state: State, result: Result<T>, calls: seq<Call>)

  /** How a route handler ends: a JSON body with its status, the redirect to
      the frontend carrying a pairing token, or its promise rejected with the
      given error (what the client then sees is left to the framework). */
  datatype Reply =
    | Json(status: int, body: Value)
    | RedirectWithToken(pairingToken: string)
    | Unanswered(error: Failure)

  /** The state after a route handler, its reply and its upstream calls. */
  datatype Handled = Handled(state: State, reply: Reply, calls: seq<Call>)

  /** Neither the refresh token nor the pairing token differs. */
  predicate SameGrantAndPairing(s: State, s': State) {
    s'.refreshToken == s.refreshToken && s'.deviceToken == s.deviceToken
  }

  /**
   `refreshAccessToken`: one `refresh_token` grant carrying the stored
   refresh token. On success only the access token is overwritten, with
   whatever `access_token` the response held; on failure the error
   propagates and nothing changes.
   */
  function RefreshAccessToken(s: State, grant: Response<TokenGrant>): (r: Step<()>)
    ensures r.calls == [RefreshGrant(s.refreshToken)]
    ensures SameGrantAndPairing(s, r.state)
    ensures r.result.Success? <==> grant.Ok?
    ensures grant.Ok? ==> r.state.accessToken == grant.data.accessToken
    ensures !grant.Ok? ==> r.state == s && r.result == Thrown(Rejection(grant))
  {
    var call := RefreshGrant(s.refreshToken);
    match grant
    case Ok(data) => Step(s.(accessToken := data.accessToken), Success(()), [call])
    case _ => Step(s, Thrown(Rejection(grant)), [call])
  }

  /**
   `spotifyRequest`: one API request with the current access token. A 401
   triggers exactly one refresh and, if that succeeds, exactly one retry with
   the refreshed token; whatever the retry yields, a second 401 included, is
   final. Any other failure of the first request, and a failed refresh,
   propagate unchanged.

   `first`, `grant` and `retry` are what the provider would answer to the
   first request, the refresh grant and the retry; an input that the run
   never reaches is not consumed.
   */
  function SpotifyRequest(
    s: State, ep: Endpoint,
    first: Response<Value>, grant: Response<TokenGrant>, retry: Response<Value>
  ): (r: Step<Value>)
    // the first call always goes out, with the access token held at entry
    ensures |r.calls| >= 1 && r.calls[0] == Api(ep, s.accessToken)
    // at most two API calls and at most one refresh; never a code grant
    ensures Count(r.calls, ApiKind) <= 2
    ensures Count(r.calls, RefreshKind) <= 1
    ensures Count(r.calls, CodeKind) == 0
    // a refresh happens exactly when the first request came back 401
    ensures Count(r.calls, RefreshKind) == 1 <==> IsUnauthorized(first)
    // a second API call happens exactly after a 401 and a successful refresh
    ensures Count(r.calls, ApiKind) == 2 <==> IsUnauthorized(first) && grant.Ok?
    ensures SameGrantAndPairing(s, r.state)
    // the access token changes only through a successful refresh
    ensures r.state.accessToken != s.accessToken ==> IsUnauthorized(first) && grant.Ok?
    // a value returned is the body of the last call, made with the token now held
    ensures r.result.Success? ==>
              r.calls[|r.calls| - 1] == Api(ep, r.state.accessToken)
              && (first == Ok(r.result.value) || retry == Ok(r.result.value))
    ensures first.Ok? ==> r == Step(s, Success(first.data), [Api(ep, s.accessToken)])
    ensures !first.Ok? && !IsUnauthorized(first) ==>
              r == Step(s, Thrown(Rejection(first)), [Api(ep, s.accessToken)])
    ensures IsUnauthorized(first) && !grant.Ok? ==>
              r == Step(s, Thrown(Rejection(grant)), [Api(ep, s.accessToken), RefreshGrant(s.refreshToken)])
    ensures IsUnauthorized(first) && grant.Ok? ==>
              r.state == s.(accessToken := grant.data.accessToken)
              && r.calls == [Api(ep, s.accessToken), RefreshGrant(s.refreshToken), Api(ep, grant.data.accessToken)]
              && r.result == Settle(retry)
  {
    var firstCall := Api(ep, s.accessToken);
    if !IsUnauthorized(first) then
      Step(s, Settle(first), [firstCall])
    else
      var refreshed := RefreshAccessToken(s, grant);
      if refreshed.result.Thrown? then
        Step(refreshed.state, Thrown(refreshed.result.error), [firstCall] + refreshed.calls)
      else
        var retryCall := Api(ep, refreshed.state.accessToken);
        var calls := [firstCall] + refreshed.calls + [retryCall];
        assert calls == [firstCall, RefreshGrant(s.refreshToken), retryCall];
        assert calls[1..] == [RefreshGrant(s.refreshToken), retryCall];
        assert calls[2..] == [retryCall];
        assert Count(calls[2..], ApiKind) == 1 && Count(calls[2..], RefreshKind) == 0 && Count(calls[2..], CodeKind) == 0;
        Step(refreshed.state, Settle(retry), calls)
  }
}
