// Origin trust rules of the server: which client addresses count as local,
// how the address is resolved, and the GET /api/token gate built on them.

module Origin {
  import opened Protocol

  predicate StartsWith(s: string, prefix: string) {
    |prefix| <= |s| && s[..|prefix|] == prefix
  }

  /** The address the token endpoint judges: `x-forwarded-for`, else `x-real-ip`,
      else the loopback literal. */
  function TokenClientIp(forwardedFor: Option<string>, realIp: Option<string>): (ip: string)
    ensures Truthy(forwardedFor) ==> ip == forwardedFor.value
    ensures !Truthy(forwardedFor) && Truthy(realIp) ==> ip == realIp.value
    ensures !Truthy(forwardedFor) && !Truthy(realIp) ==> ip == "127.0.0.1"
    ensures ip != ""
  {
    if Truthy(forwardedFor) then forwardedFor.value
    else if Truthy(realIp) then realIp.value
    else "127.0.0.1"
  }

  /** The address a new socket is judged by: its remote address, or loopback when empty. */
  function WsClientIp(remoteAddress: string): (ip: string)
    ensures remoteAddress != "" ==> ip == remoteAddress
    ensures remoteAddress == "" ==> ip == "127.0.0.1"
    ensures ip != ""
  {
    if remoteAddress != "" then remoteAddress else "127.0.0.1"
  }

  /** Loopback origins allowed to read the token. */
  predicate IsLocalForToken(ip: string) {
    ip == "127.0.0.1" || ip == "::1" || StartsWith(ip, "127.")
  }

  /** Origins auto-authenticated on the real-time channel: loopback, plus the
      `172.` prefix accepted for container networks. */
  predicate IsLocalForWs(ip: string) {
    ip == "127.0.0.1" || ip == "::1" || StartsWith(ip, "127.") || StartsWith(ip, "172.")
  }

  /** GET /api/token: 200 with the token, or 403. */
  datatype TokenResponse = Token(token: string) | Forbidden

  function TokenEndpoint(authToken: string, forwardedFor: Option<string>, realIp: Option<string>): (r: TokenResponse)
    ensures r.Token? ==> r.token == authToken
    ensures r.Token? <==> IsLocalForToken(TokenClientIp(forwardedFor, realIp))
  {
    var ip := TokenClientIp(forwardedFor, realIp);
    if ip != "127.0.0.1" && ip != "::1" && !StartsWith(ip, "127.") then Forbidden
    else Token(authToken)
  }

  /** The explicit `127.0.0.1` test is subsumed by the `127.` prefix test: the
      token is granted exactly for `::1` and addresses starting with `127.`. */
  lemma LoopbackIsPrefixOrV6(ip: string)
    ensures IsLocalForToken(ip) <==> ip == "::1" || StartsWith(ip, "127.")
  {
    if ip == "127.0.0.1" {
      assert ip[..4] == "127.";
    }
  }

  /** The token endpoint's decision, in terms of the two headers. */
  lemma TokenGrantedExactlyForLoopback(authToken: string, forwardedFor: Option<string>, realIp: Option<string>)
    ensures var ip := TokenClientIp(forwardedFor, realIp);
      TokenEndpoint(authToken, forwardedFor, realIp) ==
        (if ip == "::1" || StartsWith(ip, "127.") then Token(authToken) else Forbidden)
  {
    LoopbackIsPrefixOrV6(TokenClientIp(forwardedFor, realIp));
  }

  /** A request carrying neither header is treated as coming from 127.0.0.1 and
      is always given the token. */
  lemma TokenGrantedWithoutHeaders(authToken: string, forwardedFor: Option<string>, realIp: Option<string>)
    requires !Truthy(forwardedFor) && !Truthy(realIp)
    ensures TokenEndpoint(authToken, forwardedFor, realIp) == Token(authToken)
  {
  }

  /** Any `x-forwarded-for` value other than `::1` or a `127.` address gets 403,
      whatever `x-real-ip` says. The decision rests on that header alone, which
      the caller supplies. */
  lemma TokenForbiddenForOtherAddress(authToken: string, forwardedFor: Option<string>, realIp: Option<string>)
    requires Truthy(forwardedFor) && forwardedFor.value != "::1" && !StartsWith(forwardedFor.value, "127.")
    ensures TokenEndpoint(authToken, forwardedFor, realIp) == Forbidden
  {
    LoopbackIsPrefixOrV6(forwardedFor.value);
  }

  /** Every origin trusted for the token is trusted on the real-time channel, and
      the real-time channel additionally trusts exactly the `172.` addresses. */
  lemma WsTrustExtendsTokenTrust(ip: string)
    ensures IsLocalForToken(ip) ==> IsLocalForWs(ip)
    ensures IsLocalForWs(ip) <==> IsLocalForToken(ip) || StartsWith(ip, "172.")
    ensures StartsWith(ip, "172.") ==> !IsLocalForToken(ip)
  {
    if StartsWith(ip, "172.") {
      assert ip[1] == '7';
    }
  }
}
