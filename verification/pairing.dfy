/**
 Device pairing: the `/callback` leg of the authorization-code grant
 (section 4.1 of RFC 6749), which stores both provider tokens and mints a
 fresh pairing token, and the `checkDeviceToken` gate that admits only the
 holder of the current pairing token.
 */
module Pairing {
  import opened Values
  import opened Hex
  import opened Provider
  import opened Backend

  /** The pairing token is either unset or has the shape a 32-byte draw
      encodes to. */
  predicate Valid(s: State) {
    s.deviceToken.None? || IsPairingToken(s.deviceToken.value)
  }

  datatype Decision = Allow | Deny

  /**
   `checkDeviceToken`: refuse when the `x-device-token` header is missing or
   empty, or differs from the pairing token; otherwise pass the request on.
   */
  function CheckDeviceToken(s: State, header: Option<string>): (d: Decision)
    // an absent or empty header is refused whatever the state
    ensures header.None? || header == Some("") ==> d == Deny
    // before any pairing nothing is admitted
    ensures s.deviceToken.None? ==> d == Deny
    // what is admitted is exactly the current pairing token, presented non-empty
    ensures d == Allow <==> header.Some? && header.value != "" && header == s.deviceToken
  {
    if !Truthy(OfString(header)) || header != s.deviceToken then Deny else Allow
  }

  /** In every valid state the gate admits a header exactly when it equals
      the current pairing token. */
  lemma GateAdmitsExactlyPairingToken(s: State, header: Option<string>)
    requires Valid(s)
    ensures CheckDeviceToken(s, header) == Allow <==> header.Some? && header == s.deviceToken
  {
    if header.Some? && header == s.deviceToken {
      assert |header.value| == 64;
    }
  }

  /**
   The `/callback` route: exchange the authorization code once. On success
   both provider tokens are overwritten from the response body and the
   pairing token becomes the hex text of the fresh random draw, which the
   browser is redirected with. If the exchange fails the handler rejects
   before touching any state.
   */
  function Callback(s: State, code: Option<string>, exchange: Response<TokenGrant>, random: Random32): (h: Handled)
    ensures h.calls == [CodeGrant(code)]
    ensures exchange.Ok? ==>
              && h.state.accessToken == exchange.data.accessToken
              && h.state.refreshToken == exchange.data.refreshToken
              && h.state.deviceToken == Some(Encode(random))
              && h.reply == RedirectWithToken(Encode(random))
    ensures !exchange.Ok? ==> h.state == s && h.reply == Unanswered(Rejection(exchange))
    // a pairing token it installs is 64 lower-case hex digits
    ensures Valid(s) ==> Valid(h.state)
  {
    var call := CodeGrant(code);
    match exchange
    case Ok(data) =>
      var token := Encode(random);
      EncodeRandomIsPairingToken(random);
      Handled(State(data.accessToken, data.refreshToken, Some(token)), RedirectWithToken(token), [call])
    case _ => Handled(s, Unanswered(Rejection(exchange)), [call])
  }

  /** After a successful callback the gate admits the new token and only it. */
  lemma CallbackRepairs(s: State, code: Option<string>, exchange: Response<TokenGrant>, random: Random32, header: Option<string>)
    requires exchange.Ok?
    ensures var after := Callback(s, code, exchange, random).state;
            CheckDeviceToken(after, header) == Allow <==> header == Some(Encode(random))
  {
    EncodeRandomIsPairingToken(random);
  }

  /** Re-pairing revokes the token of the previous pairing: a token minted
      from an earlier, different draw no longer passes the gate. */
  lemma RepairingRevokesPreviousToken(s: State, code: Option<string>, exchange: Response<TokenGrant>, earlier: Random32, random: Random32)
    requires s.deviceToken == Some(Encode(earlier))
    requires exchange.Ok? && earlier != random
    ensures CheckDeviceToken(s, Some(Encode(earlier))) == Allow
    ensures CheckDeviceToken(Callback(s, code, exchange, random).state, Some(Encode(earlier))) == Deny
  {
    EncodeInjective(earlier, random);
  }
}
