# MusaFrame backend: credentials, refresh and device pairing

A Dafny model of the credential and pairing state machine in MusaFrame's
Express backend (`index.js`). The backend keeps three process-wide
variables, `accessToken`, `refreshToken` and `deviceToken`, all `null` at
start-up. Four pieces of logic act on them:

- `spotifyRequest`, which calls the Spotify API with the current access
  token and, on a 401, refreshes once and retries once;
- `refreshAccessToken`, which runs a `refresh_token` grant and overwrites
  only the access token;
- the `/callback` route, the second leg of the authorization-code grant
  (section 4.1 of RFC 6749). It stores both provider tokens and mints a
  fresh pairing token: the lower-case hex text of 32 random bytes;
- `checkDeviceToken`, the gate in front of the five playback routes
  (play, pause, next, previous, volume). The read route `/api/current` is
  not gated and falls back to `{ item: null }`.

The model is functional. `Backend.State` is an immutable record of the
three variables, and every route is a pure function from a state to a
`Handled` record: the new state, the reply and the upstream calls made, in
order. Each outbound HTTP exchange is an input `Response` (`Ok(body)`,
`HttpError(status)` or `NoResponse`) supplied by the caller. The random
bytes behind a pairing token are an input too. Recording each `Call` lets
the contracts count upstream requests and refreshes and name the token
each request carried. `Session.Run` threads the state through any sequence
of requests handled one after another.

Modules:

- `Values`: JavaScript values and truthiness (`!x`, `x || y`).
- `Hex`: `Buffer.toString("hex")` and its inverse.
- `Provider`: provider outcomes, thrown errors and the call record.
- `Backend`: the state, `RefreshAccessToken` and `SpotifyRequest`.
- `Pairing`: `Callback` and `CheckDeviceToken`.
- `Routes`: `/api/current`, the playback commands and the volume default.
- `Session`: properties of whole request histories.

Several things a fuller OAuth client would do are absent from `index.js`.
The model follows the code and does not add them:

- The code keeps no expiry instant and no safety margin. It refreshes only
  after a 401.
- It has no lock or single-flight guard.
- It never rotates the refresh token on refresh.
- It persists nothing.
- It sends and checks no OAuth `state` parameter.
- A successful playback command replies `200 { ok: true }`.
- In a playback command or the code exchange, a failed upstream call is not
  caught, so the route handler's promise rejects with that error. The model
  records this outcome as `Reply.Unanswered(error)`. This is an
  abstraction: what the client then sees depends on the Express version,
  which `index.js` does not fix.

## Model

| member | source | states |
|---|---|---|
| Backend.SpotifyRequest | index.js:25-47 | The first API call always goes out, carrying the access token held at entry. A run makes at most two API calls, at most one refresh grant and never a code grant. It refreshes iff the first answer is a 401, and it retries iff the refresh succeeded. The retry carries the refreshed token, and its outcome is final even if it is another 401. A non-401 failure and a failed refresh propagate with the state unchanged. The refresh and pairing tokens never change. A returned value is the body of the last call, which was made with the token the state now holds. |
| Backend.RefreshAccessToken | index.js:50-73 | Exactly one refresh grant is made, carrying the stored refresh token. On success only the access token is replaced, by the response's `access_token`. On failure the state is unchanged and the error is thrown. |
| Pairing.CheckDeviceToken | index.js:130-136 | An absent or empty header is denied in every state. Nothing is admitted while no pairing token exists. A request is admitted iff the header is non-empty and equals the current pairing token. |
| Pairing.GateAdmitsExactlyPairingToken | index.js:130-136 | In every state reachable by the model, the gate admits a header iff it equals the current pairing token. The empty-header case is subsumed because a pairing token has 64 characters. |
| Pairing.Callback | index.js:94-127 | Exactly one code grant is made, carrying the query's code. On success the access and refresh tokens come from the response. The pairing token becomes the hex text of the fresh random draw, and the reply redirects with that token. On failure the state is unchanged and the handler rejects with the exchange's error (`Unanswered`). A valid state stays valid. |
| Pairing.CallbackRepairs | index.js:118-135 | After a successful callback the gate admits exactly the newly minted token. |
| Pairing.RepairingRevokesPreviousToken | index.js:118-135 | A token that passed the gate before re-pairing fails it afterwards, whenever the two random draws differ. |
| Hex.Encode | index.js:122 | The hex text of n bytes has 2n characters, all lower-case hex digits. |
| Hex.DecodeEncode | index.js:122 | Decoding the hex text of a byte string gives that byte string back. |
| Hex.EncodeInjective | index.js:122 | Distinct random draws give distinct pairing tokens. |
| Hex.EncodeRandomIsPairingToken | index.js:122 | The token minted from 32 random bytes is 64 hex digits. |
| Provider.Rejection | index.js:35 | The thrown error carries a status iff the provider answered. It is `Status(401)` iff the answer was a 401, which is the retry test `err.response && err.response.status === 401`. |
| Routes.Control | index.js:155-183 | A denied request is answered 403 with `{ error: "Forbidden" }`, makes no upstream call and changes no state. An admitted request first calls the command's resource (`EndpointOf`) with the held access token; the volume command's resource carries `VolumePercent(q)` of its `percent` query. Its state and its calls are exactly those of its `spotifyRequest`, so a refresh it forced is kept. It is answered `{ ok: true }` iff that request succeeds. Otherwise the handler rejects with that request's error (`Unanswered`). The refresh and pairing tokens are never changed. |
| Routes.Current | index.js:139-152 | The route always answers 200. With a falsy access token it answers `{ item: null }` and makes no upstream call. Otherwise its state and its calls are exactly those of its `spotifyRequest` on the now-playing resource, so a refreshed access token is kept even when the reply is the fallback. A truthy body returned by that request is relayed unchanged. A falsy body or any thrown failure reads as `{ item: null }`. |
| Routes.VolumePercent | index.js:177 | An absent or empty `percent` query defaults to the number 50. Any other value is passed through unchanged. The result is always truthy. |
| Session.Run | index.js:20-22 | Handling a sequence of requests gives exactly one reply per request. The first reply is the first request's reply in the starting state. |
| Session.RunAppend | index.js:20-22 | Handling two histories back to back is the same as handling the second from the state the first leaves. The module variables carry over, and replies and calls concatenate. |
| Session.RunStepwise | index.js:20-22 | The i-th reply of a history is what the i-th request gets in the state left by the requests before it. That request's resulting state is the state after the first i + 1 requests. |
| Session.RunKeepsValid | index.js:122 | In every request history the pairing token stays either unset or 64 hex digits. |
| Session.OnlyCallbackWritesGrantAndPairing | index.js:118-122 | In a history without a successful callback, the refresh token and the pairing token never change. |
| Session.GateFixedBetweenPairings | index.js:130-136 | Between pairings, every playback command is refused iff its header fails the gate of the starting state, whatever refreshes happen in between. |
| Session.NothingAdmittedBeforePairing | index.js:20-22 | From start-up, until a callback succeeds, every playback command is refused with 403 and no pairing token exists. |
| Session.UpstreamBudget | index.js:25-47 | Any history of n requests makes at most 2n API calls, n refresh grants and n code grants. |

## Left out

- The `/login` redirect (index.js:76-91): it reads and writes no state. It only builds the authorization URL.
- Express wiring, CORS, dotenv and `app.listen` (index.js:1-18, 186-187): framework plumbing.
- URLs, headers and bodies of outbound requests: each exchange is an abstract `Response`. `Call` records only the resource and the token it carried. The frontend redirect is `RedirectWithToken(token)`, without its fixed URL.
- `qs.stringify` form encoding and the Base64 `Basic` header (index.js:51-58, 97-105): library encodings with no effect on the state.
- `crypto.randomBytes(32)`: the 32 random bytes are an input (`Hex.Random32`). Only their hex encoding is modelled.
- Concurrency: overlapping requests (two refreshes in flight at once) are not modelled. Requests are handled one after another, since the code has no synchronisation.
- Console logging (index.js:72, 123).
- What Express and Node do with a rejected handler promise. Express 5 passes the error to its default error handler, which answers 500 unless the error carries its own 4xx/5xx status. Under Express 4 the rejection is unhandled, and a recent Node would stop the process, which resets all three variables. The `Session` history lemmas assume the process survives a rejected handler and keeps its state.
- JavaScript numbers are integers here: non-integer numbers, NaN and -0 are not represented.
- A repeated query parameter (`percent` or `code`) is delivered by Express as an array; this is not modelled, and both queries are optional strings. The `x-device-token` header is an optional string. Node joins repeated copies of it into one comma-separated value, which then simply fails the gate.
- `null` and `undefined` are one value (`None`) in the state. No test in the code tells them apart.
- The browser scripts `script.js` and `fullscreen.js` are presentation code and are not part of this model.
