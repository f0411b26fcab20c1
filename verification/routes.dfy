/**
 The HTTP routes that read or drive playback: `/api/current`, which is not
 gated and degrades to `{ item: null }`, and the five playback commands,
 which run behind `checkDeviceToken`.
 */
module Routes {
  import opened Values
  import opened Provider
  import opened Backend
  import opened Pairing

  /** The mutating playback routes; `SetVolume` carries the raw `percent`
      query value (`None` when the query has none). */
  datatype Command = Play | Pause | Next | Previous | SetVolume(percent: Option<string>)

  /** `req.query.percent || 50`: the query value, or the number 50 when it is
      absent or empty. */
  function VolumePercent(query: Option<string>): (p: Value)
    ensures query.None? || query == Some("") ==> p == Num(50)
    ensures query.Some? && query.value != "" ==> p == Str(query.value)
    ensures Truthy(p)
  {
    Or(OfString(query), Num(50))
  }

  /** The provider resource each command targets. */
  function EndpointOf(cmd: Command): Endpoint {
    match cmd
    case Play => Provider.Play
    case Pause => Provider.Pause
    case Next => Provider.Next
    case Previous => Provider.Previous
    case SetVolume(q) => Volume(VolumePercent(q))
  }

  const Forbidden: Reply := Json(403, ForbiddenBody)

  /**
   A playback route: the gate first; only on `Allow` one `spotifyRequest`
   to the command's resource, answered with `{ ok: true }`. A request that
   throws leaves the handler's promise rejected with its error, but any
   refresh it performed stays in effect.
   */
  function Control(
    s: State, cmd: Command, header: Option<string>,
    first: Response<Value>, grant: Response<TokenGrant>, retry: Response<Value>
  ): (h: Handled)
    // a refused request is answered 403, makes no upstream call and changes nothing
    ensures CheckDeviceToken(s, header) == Deny ==> h == Handled(s, Forbidden, [])
    // an admitted request reaches the provider, first with the held access token
    ensures CheckDeviceToken(s, header) == Allow ==>
              |h.calls| >= 1 && h.calls[0] == Api(EndpointOf(cmd), s.accessToken)
    ensures Count(h.calls, ApiKind) <= 2 && Count(h.calls, RefreshKind) <= 1
    ensures SameGrantAndPairing(s, h.state)
    ensures h.reply == Json(200, OkBody) <==>
              CheckDeviceToken(s, header) == Allow && SpotifyRequest(s, EndpointOf(cmd), first, grant, retry).result.Success?
    ensures h.reply.Unanswered? ==> CheckDeviceToken(s, header) == Allow
    // an admitted request's state and calls are those of its `spotifyRequest`,
    // so a refresh it forced stays in effect; if that request throws, the handler rejects with its error
    ensures CheckDeviceToken(s, header) == Allow ==>
              var step := SpotifyRequest(s, EndpointOf(cmd), first, grant, retry);
              && h.state == step.state
              && h.calls == step.calls
              && (step.result.Thrown? ==> h.reply == Unanswered(step.result.error))
  {
    if CheckDeviceToken(s, header) == Deny then
      Handled(s, Forbidden, [])
    else
      var step := SpotifyRequest(s, EndpointOf(cmd), first, grant, retry);
      match step.result
      case Success(_) => Handled(step.state, Json(200, OkBody), step.calls)
      case Thrown(e) => Handled(step.state, Unanswered(e), step.calls)
  }

  /**
   `/api/current`: with no usable access token reply `{ item: null }` without
   calling the provider; otherwise relay the now-playing body, or
   `{ item: null }` when that body is falsy or the request throws.
   */
  function Current(s: State, first: Response<Value>, grant: Response<TokenGrant>, retry: Response<Value>): (h: Handled)
    // always answered, always 200
    ensures h.reply.Json? && h.reply.status == 200
    ensures !Truthy(OfString(s.accessToken)) ==> h == Handled(s, Json(200, ItemNull), [])
    ensures Truthy(OfString(s.accessToken)) ==> |h.calls| >= 1 && h.calls[0] == Api(CurrentlyPlaying, s.accessToken)
    ensures Count(h.calls, ApiKind) <= 2 && Count(h.calls, RefreshKind) <= 1
    ensures SameGrantAndPairing(s, h.state)
    // the body is the fallback or a truthy now-playing body the provider sent
    ensures h.reply.body == ItemNull
              || (Truthy(h.reply.body) && (first == Ok(h.reply.body) || retry == Ok(h.reply.body)))
    // with a usable access token: the state and calls are those of the
    // `spotifyRequest` (a refresh it forced is kept), a truthy body is relayed
    // as is, and a falsy body or any thrown failure reads as "nothing is playing"
    ensures Truthy(OfString(s.accessToken)) ==>
              var step := SpotifyRequest(s, CurrentlyPlaying, first, grant, retry);
              && h.state == step.state
              && h.calls == step.calls
              && (step.result.Success? && Truthy(step.result.value) ==> h.reply.body == step.result.value)
              && (step.result.Success? && !Truthy(step.result.value) ==> h.reply.body == ItemNull)
              && (step.result.Thrown? ==> h.reply.body == ItemNull)
  {
    if !Truthy(OfString(s.accessToken)) then
      Handled(s, Json(200, ItemNull), [])
    else
      var step := SpotifyRequest(s, CurrentlyPlaying, first, grant, retry);
      match step.result
      case Success(data) => Handled(step.state, Json(200, Or(data, ItemNull)), step.calls)
      case Thrown(_) => Handled(step.state, Json(200, ItemNull), step.calls)
  }
}
