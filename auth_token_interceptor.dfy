/**
  The authentication interceptor (AuthTokenInterceptor.kt): it adds a Bearer
  token (section 2.1 of RFC 6750) to each request and, on a 401 Unauthorized
  response (section 15.5.2 of RFC 9110), asks the token provider for a
  refresh once and re-issues the request once with the new token.
 */
module AuthTokenInterceptor {
  import opened Http
  import opened Config

  const AuthorizationHeader: string := "Authorization"

  function BearerCredentials(token: string): string {
    "Bearer " + token
  }

  /** `requestWithToken`: the Bearer header is added only for a non-null, non-empty token. */
  function RequestWithToken(request: Request, token: Option<string>): Request {
    if token.Some? && token.value != "" then
      AddHeaderIfAbsent(request, AuthorizationHeader, BearerCredentials(token.value))
    else request
  }

  /**
    A missing or empty token leaves the request as it is. A non-empty one
    gives the request an Authorization header carrying `Bearer <token>`
    unless one is present already, which is never overwritten; the method,
    URL, body and the other headers are kept.
   */
  lemma RequestWithTokenSpec(request: Request, token: Option<string>)
    ensures var r := RequestWithToken(request, token);
      && (token.None? || token.value == "" ==> r == request)
      && (HeaderValue(request.headers, AuthorizationHeader).Some? ==> r == request)
      && (token.Some? && token.value != "" && HeaderValue(request.headers, AuthorizationHeader).None? ==>
            && HeaderValue(r.headers, AuthorizationHeader) == Some(BearerCredentials(token.value))
            && r == request.(headers := request.headers + [Header(AuthorizationHeader, BearerCredentials(token.value))]))
  {
    if token.Some? && token.value != "" && HeaderValue(request.headers, AuthorizationHeader).None? {
      var hs := request.headers + [Header(AuthorizationHeader, BearerCredentials(token.value))];
      assert SameName(hs[|hs| - 1].name, AuthorizationHeader);
    }
  }

  /**
    What the token provider's `refreshToken` does: when its callback runs, in
    milliseconds after the wait begins (0: before it; None: never), and the
    token it hands over.
   */
  datatype Refresh = Refresh(callbackAfterMillis: Option<nat>, token: Option<string>)

  /**
    `latch.await(refreshTokenTimeoutInSecs, SECONDS)`: true when the callback
    has run by the deadline; one that ran before the wait counts even for a
    timeout of zero or less.
   */
  predicate Awaited(refresh: Refresh, timeoutSecs: int) {
    && refresh.callbackAfterMillis.Some?
    && (refresh.callbackAfterMillis.value == 0 || refresh.callbackAfterMillis.value <= timeoutSecs * 1000)
  }

  /** With the default configuration the wait lasts 30 seconds: a callback at 30 s is in time, one later is not. */
  lemma DefaultRefreshWaitIsThirtySeconds(homeServerUrl: string, token: Option<string>, late: nat)
    requires late > 30_000
    ensures var timeout := DefaultConfiguration(homeServerUrl).refreshTokenTimeoutInSecs;
      && Awaited(Refresh(Some(30_000), token), timeout)
      && !Awaited(Refresh(Some(late), token), timeout)
      && !Awaited(Refresh(None, token), timeout)
  {
  }

  predicate IsUnauthorized(o: Outcome) {
    o.Responded? && o.response.code == Unauthorized
  }

  /** The requests sent to the chain, the number of `refreshToken` calls, and what `intercept` returns or throws. */
  datatype AuthTrace = AuthTrace(sent: seq<Request>, refreshCalls: nat, result: Outcome)

  /**
    `AuthTokenInterceptor.intercept`, with the current token from
    `tokenProvider.getToken()` and the refresh behaviour given as inputs.
   */
  method Intercept(networkConfiguration: NetworkConfiguration, currentToken: Option<string>,
                   refresh: Refresh, request: Request, d: Downstream)
    returns (trace: AuthTrace)
    ensures 1 <= |trace.sent| <= 2
    ensures trace.sent[0] == RequestWithToken(request, currentToken)
    ensures !IsUnauthorized(d(0)) ==> trace.sent == [trace.sent[0]] && trace.refreshCalls == 0 && trace.result == d(0)
    ensures IsUnauthorized(d(0)) ==> trace.refreshCalls == 1
    ensures IsUnauthorized(d(0)) && Awaited(refresh, networkConfiguration.refreshTokenTimeoutInSecs) && refresh.token.Some? ==>
              && trace.sent == [trace.sent[0], RequestWithToken(request, refresh.token)]
              && trace.result == d(1)
    ensures IsUnauthorized(d(0)) && !(Awaited(refresh, networkConfiguration.refreshTokenTimeoutInSecs) && refresh.token.Some?) ==>
              && trace.sent == [trace.sent[0]]
              && trace.result == Responded(d(0).response.(closed := true))
  {
    var req := request;
    var sent := [RequestWithToken(req, currentToken)];
    var response := d(0);
    var refreshCalls := 0;
    if response.Responded? && response.response.code == Unauthorized {
      response := Responded(response.response.(closed := true));
      var newToken: Option<string> := None;
      refreshCalls := refreshCalls + 1;
      if refresh.callbackAfterMillis.Some? {
        // the callback: newToken = token; latch.countDown()
        newToken := refresh.token;
      }
      var tokenRefreshed := Awaited(refresh, networkConfiguration.refreshTokenTimeoutInSecs);
      if tokenRefreshed && newToken.Some? {
        req := RequestWithToken(req, newToken);
        sent := sent + [req];
        response := d(1);
      } else {
        return AuthTrace(sent, refreshCalls, response);
      }
    }
    return AuthTrace(sent, refreshCalls, response);
  }

  /**
    The re-issued request is built from the chain's original request, not from
    the first attempt: when that request had no Authorization header, it
    carries the new token even though the first attempt carried the old one,
    and an empty new token re-issues it with no Authorization header at all.
   */
  lemma ReissuedRequestUsesNewToken(request: Request, oldToken: string, newToken: string)
    requires HeaderValue(request.headers, AuthorizationHeader).None?
    requires oldToken != ""
    ensures HeaderValue(RequestWithToken(request, Some(oldToken)).headers, AuthorizationHeader)
            == Some(BearerCredentials(oldToken))
    ensures newToken != "" ==>
              HeaderValue(RequestWithToken(request, Some(newToken)).headers, AuthorizationHeader)
              == Some(BearerCredentials(newToken))
    ensures newToken == "" ==>
              HeaderValue(RequestWithToken(request, Some(newToken)).headers, AuthorizationHeader).None?
  {
    RequestWithTokenSpec(request, Some(oldToken));
    RequestWithTokenSpec(request, Some(newToken));
  }
}
