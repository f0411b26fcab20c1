/**
 The streaming provider as the backend sees it: every outbound HTTP exchange
 is an abstract outcome supplied from outside, and every exchange the backend
 starts is recorded as a `Call`, so that the number and kind of upstream
 calls can be stated.
 */
module Provider {
  import opened Values

  /** How an outbound request settles: a 2xx response with its body, an
      error response with its status (axios rejects, `err.response` set), or
      no response at all (axios rejects, `err.response` unset). */
  datatype Response<+D> = Ok(data: D) | HttpError(status: int) | NoResponse

  /** The body fields of a token-endpoint response that the backend reads
      (`access_token`, `refresh_token`); `None` when a field is missing. */
  datatype TokenGrant = TokenGrant(accessToken: Option<string>, refreshToken: Option<string>)

  /** The error an awaited request throws. */
  datatype Failure = Status(code: int) | Network

  /** A completed async step: its value, or the error it throws. */
  datatype Result<+T> = Success(value: T) | Thrown(error: Failure)

  /** The test `err.response && err.response.status === 401`. */
  predicate IsUnauthorized<D>(r: Response<D>) {
    r.HttpError? && r.status == 401
  }

  /** The error thrown by a request that did not succeed. */
  function Rejection<D>(r: Response<D>): (f: Failure)
    requires !r.Ok?
    ensures f.Status? <==> r.HttpError?
    ensures IsUnauthorized(r) <==> f == Status(401)
  {
    match r
    case HttpError(status) => Status(status)
    case NoResponse => Network
  }

  /** Awaiting a request: its body on success, otherwise its error thrown. */
  function Settle<D>(r: Response<D>): (res: Result<D>)
    ensures res.Success? <==> r.Ok?
    ensures r.Ok? ==> res.value == r.data
    ensures !r.Ok? ==> res.error == Rejection(r)
  {
    match r
    case Ok(data) => Success(data)
    case _ => Thrown(Rejection(r))
  }

  /** The playback API resources the backend uses. `Volume` carries the
      value interpolated as `volume_percent`. */
  datatype Endpoint =
    | CurrentlyPlaying
    | Play
    | Pause
    | Next
    | Previous
    | Volume(percent: Value)

  /** One outbound exchange: a playback API request with the bearer token it
      carried, a `refresh_token` grant with the refresh token it carried, or
      an `authorization_code` grant with the code it carried. */
  datatype Call =
    | Api(endpoint: Endpoint, bearer: Option<string>)
    | RefreshGrant(refreshToken: Option<string>)
    | CodeGrant(code: Option<string>)

  datatype Kind = ApiKind | RefreshKind | CodeKind

  function KindOf(c: Call): Kind {
    match c
    case Api(_, _) => ApiKind
    case RefreshGrant(_) => RefreshKind
    case CodeGrant(_) => CodeKind
  }

  /** How many calls of the given kind a trace holds. */
  function Count(calls: seq<Call>, k: Kind): (n: nat)
    ensures n <= |calls|
  {
    if calls == [] then 0
    else (if KindOf(calls[0]) == k then 1 else 0) + Count(calls[1..], k)
  }

  /** Counting distributes over concatenated traces. */
  lemma {:induction false} CountAppend(a: seq<Call>, b: seq<Call>, k: Kind)
    ensures Count(a + b, k) == Count(a, k) + Count(b, k)
  {
    if a == [] {
      assert a + b == b;
    } else {
      assert (a + b)[1..] == a[1..] + b;
      CountAppend(a[1..], b, k);
    }
  }
}
