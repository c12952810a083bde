/** The edge gate in front of every page and API route (middleware.ts):
    public paths pass (with signed-in visitors sent from the login and
    register pages to the dashboard), gated paths need an access token that
    verifies, and an expired access token is renewed by calling the refresh
    route and forwarding the cookies it sets. The refresh call is an
    environment parameter: it maps the request headers the gate sends to
    the route's reply. */
module Middleware {
  import opened Wrappers
  import opened Strings
  import opened RateLimit
  import opened Auth
  import opened ApiUtils
  import opened RefreshRoute

  const PublicPaths: seq<string> := ["/", "/login", "/register"]

  /** The paths the gate lets through without a token: the public pages,
      framework assets, the auth API and anything that looks like a file. */
  predicate IsPublic(pathname: string)
    ensures IsAuthPage(pathname) ==> IsPublic(pathname)
    ensures '.' in pathname ==> IsPublic(pathname)
  {
    pathname in PublicPaths || StartsWith(pathname, "/_next") ||
    StartsWith(pathname, "/api/auth") || '.' in pathname
  }

  /** The pages a signed-in visitor is sent away from. */
  predicate IsAuthPage(pathname: string)
  {
    pathname == "/login" || pathname == "/register"
  }

  /** What the refresh route answered: whether the status was 2xx, and its
      `set-cookie` headers in order. */
  datatype RefreshReply = RefreshReply(ok: bool, setCookies: seq<string>)

  /** The gate's answer: let the request through, or redirect to a path
      (the query string is not kept) with the given `set-cookie` headers. */
  datatype Decision = Next | Redirect(location: string, setCookies: seq<string>)

  /** An access token that is present, non-empty and verifies under the
      access secret at `now`. */
  predicate ValidAccess(cookies: map<string, Cookie>, c: Crypto, now: int)
  {
    var access := GetTokensFromCookies(cookies).accessToken;
    Presented(access) && c.verify(Access, access.value, now).Some?
  }

  /** The headers of the gate's own `POST /api/auth/refresh`, as written:
      the refresh cookie and nothing else. */
  function RefreshRequestAsWritten(refreshToken: string): (h: map<string, string>)
    ensures h.Keys == {"cookie"}
  {
    map["cookie" := "refresh_token=" + refreshToken]
  }

  /** The headers of the refresh call with the visitor's `x-forwarded-for`
      passed on, so the route counts the attempt against the visitor's
      own address. */
  function RefreshRequest(refreshToken: string, forwardedFor: Option<string>): (h: map<string, string>)
    ensures "cookie" in h && h["cookie"] == RefreshRequestAsWritten(refreshToken)["cookie"]
    ensures "x-forwarded-for" in h <==> forwardedFor.Some?
    ensures forwardedFor.Some? ==> h["x-forwarded-for"] == forwardedFor.value
  {
    var h := RefreshRequestAsWritten(refreshToken);
    if forwardedFor.Some? then h["x-forwarded-for" := forwardedFor.value] else h
  }

  /** The `x-forwarded-for` the refresh route reads from a request carrying
      `headers`: the header itself, or, when there is none, whatever the
      network in front of the server supplies for a request without one
      (`hop`: nothing on a direct call, the server's own address behind a
      proxy). */
  function ReceivedForwardedFor(headers: map<string, string>, hop: Option<string>): Option<string>
  {
    if "x-forwarded-for" in headers then Some(headers["x-forwarded-for"]) else hop
  }

  /** The refresh call the gate makes: only for a gated path whose access
      token is present but does not verify, when a refresh token is
      present. */
  predicate RefreshAttempted(pathname: string, cookies: map<string, Cookie>, c: Crypto, now: int)
  {
    !IsPublic(pathname) && Presented(GetTokensFromCookies(cookies).accessToken) &&
    !ValidAccess(cookies, c, now) && Presented(GetTokensFromCookies(cookies).refreshToken)
  }

  /** The gate's decision for a request to `pathname` with `cookies`, where
      `send` makes the refresh call for a refresh token and returns the
      route's reply. */
  function DecideWith(pathname: string, cookies: map<string, Cookie>, c: Crypto, now: int,
                      send: string -> RefreshReply): (d: Decision)
    ensures d.Redirect? ==> d.location == "/dashboard" || d.location == "/login" || d.location == pathname
    ensures IsPublic(pathname) ==> d == Next || d == Redirect("/dashboard", [])
    ensures d.Redirect? && d.setCookies != [] ==>
      RefreshAttempted(pathname, cookies, c, now) && d.location == pathname &&
      var reply := send(GetTokensFromCookies(cookies).refreshToken.value);
      reply.ok && d.setCookies == reply.setCookies
  {
    var tokens := GetTokensFromCookies(cookies);
    if IsPublic(pathname) then
      if IsAuthPage(pathname) && ValidAccess(cookies, c, now) then Redirect("/dashboard", []) else Next
    else if !Presented(tokens.accessToken) then Redirect("/login", [])
    else if ValidAccess(cookies, c, now) then Next
    else if Presented(tokens.refreshToken) then
      var reply := send(tokens.refreshToken.value);
      if reply.ok then Redirect(pathname, reply.setCookies) else Redirect("/login", [])
    else Redirect("/login", [])
  }

  /** The gate as written: the refresh call carries only the cookie. */
  function Decide(pathname: string, cookies: map<string, Cookie>, c: Crypto, now: int,
                  refresh: map<string, string> -> RefreshReply): (d: Decision)
    ensures d.Redirect? && d.setCookies != [] ==>
      RefreshAttempted(pathname, cookies, c, now) &&
      var reply := refresh(RefreshRequestAsWritten(GetTokensFromCookies(cookies).refreshToken.value));
      reply.ok && d.setCookies == reply.setCookies
  {
    DecideWith(pathname, cookies, c, now, t => refresh(RefreshRequestAsWritten(t)))
  }

  /** The corrected gate: the refresh call passes on the visitor's
      `x-forwarded-for`. */
  function DecideForwarding(pathname: string, cookies: map<string, Cookie>, forwardedFor: Option<string>,
                            c: Crypto, now: int, refresh: map<string, string> -> RefreshReply): (d: Decision)
    ensures d.Redirect? && d.setCookies != [] ==>
      RefreshAttempted(pathname, cookies, c, now) &&
      var reply := refresh(RefreshRequest(GetTokensFromCookies(cookies).refreshToken.value, forwardedFor));
      reply.ok && d.setCookies == reply.setCookies
  {
    DecideWith(pathname, cookies, c, now, t => refresh(RefreshRequest(t, forwardedFor)))
  }

  /** `middleware(request)`: the decision, and how many refresh calls were
      made; a successful refresh's `set-cookie` headers are appended to
      the redirect one by one, in order. */
  method Gate(pathname: string, cookies: map<string, Cookie>, c: Crypto, now: int,
              refresh: map<string, string> -> RefreshReply)
    returns (d: Decision, refreshCalls: nat)
    ensures d == Decide(pathname, cookies, c, now, refresh)
    ensures refreshCalls <= 1
    ensures refreshCalls == 1 <==> RefreshAttempted(pathname, cookies, c, now)
  {
    refreshCalls := 0;
    var tokens := GetTokensFromCookies(cookies);
    if IsPublic(pathname) {
      if IsAuthPage(pathname) && Presented(tokens.accessToken) && c.verify(Access, tokens.accessToken.value, now).Some? {
        return Redirect("/dashboard", []), 0;
      }
      return Next, 0;
    }
    if !Presented(tokens.accessToken) {
      return Redirect("/login", []), 0;
    }
    if c.verify(Access, tokens.accessToken.value, now).Some? {
      return Next, 0;
    }
    if Presented(tokens.refreshToken) {
      var reply := refresh(RefreshRequestAsWritten(tokens.refreshToken.value));
      refreshCalls := 1;
      if reply.ok {
        var headers: seq<string> := [];
        for i := 0 to |reply.setCookies|
          invariant headers == reply.setCookies[..i]
        {
          headers := headers + [reply.setCookies[i]];
        }
        return Redirect(pathname, headers), 1;
      }
    }
    d := Redirect("/login", []);
  }

  /** A gated path is let through exactly when its access token verifies. */
  lemma GatedNeedsValidAccess(pathname: string, cookies: map<string, Cookie>,
                              c: Crypto, now: int, refresh: map<string, string> -> RefreshReply)
    requires !IsPublic(pathname)
    ensures Decide(pathname, cookies, c, now, refresh) == Next <==> ValidAccess(cookies, c, now)
  {
  }

  /** A public path is never refused: it is let through, except that a
      visitor with a valid access token asking for the login or register
      page is sent to the dashboard. */
  lemma PublicPathsPass(pathname: string, cookies: map<string, Cookie>,
                        c: Crypto, now: int, refresh: map<string, string> -> RefreshReply)
    requires IsPublic(pathname)
    ensures var d := Decide(pathname, cookies, c, now, refresh);
      (d == Redirect("/dashboard", []) <==> IsAuthPage(pathname) && ValidAccess(cookies, c, now)) &&
      (d != Redirect("/dashboard", []) <==> d == Next)
  {
  }

  /** Anything containing a dot is public, whatever its prefix, so the gate
      never asks it for a token. */
  lemma DottedPathsBypassTheGate(pathname: string, cookies: map<string, Cookie>,
                                 c: Crypto, now: int, refresh: map<string, string> -> RefreshReply)
    requires '.' in pathname
    ensures Decide(pathname, cookies, c, now, refresh) == Next
  {
  }

  /** Every redirect goes to the dashboard, the login page or back to the
      requested path; only the last carries cookies, and only after a
      refresh call that succeeded. */
  lemma RedirectTargets(pathname: string, cookies: map<string, Cookie>,
                        c: Crypto, now: int, refresh: map<string, string> -> RefreshReply)
    ensures var d := Decide(pathname, cookies, c, now, refresh);
      d.Redirect? ==> d.location == "/dashboard" || d.location == "/login" || d.location == pathname
    ensures var d := Decide(pathname, cookies, c, now, refresh);
      d.Redirect? && d.setCookies != [] ==>
        d.location == pathname && RefreshAttempted(pathname, cookies, c, now)
  {
  }

  /** An expired session with a refresh token is renewed in place: the
      visitor is sent back to the same path with exactly the cookies the
      refresh route set, and to the login page when the route refused. */
  lemma RefreshOutcome(pathname: string, cookies: map<string, Cookie>,
                       c: Crypto, now: int, refresh: map<string, string> -> RefreshReply)
    requires RefreshAttempted(pathname, cookies, c, now)
    ensures var reply := refresh(RefreshRequestAsWritten(GetTokensFromCookies(cookies).refreshToken.value));
      Decide(pathname, cookies, c, now, refresh) ==
        if reply.ok then Redirect(pathname, reply.setCookies) else Redirect("/login", [])
  {
  }

  /** A gated request without a usable token and without a refresh token,
      or with an empty access cookie, goes to the login page. */
  lemma MissingTokensGoToLogin(pathname: string, cookies: map<string, Cookie>,
                               c: Crypto, now: int, refresh: map<string, string> -> RefreshReply)
    requires !IsPublic(pathname) && !ValidAccess(cookies, c, now) && !RefreshAttempted(pathname, cookies, c, now)
    ensures Decide(pathname, cookies, c, now, refresh) == Redirect("/login", [])
  {
  }

  /** The corrected gate decides as the gate as written does, except that
      its refresh call also carries the visitor's `x-forwarded-for`. */
  lemma ForwardingChangesOnlyTheRefreshCall(pathname: string, cookies: map<string, Cookie>,
                                            forwardedFor: Option<string>, c: Crypto, now: int,
                                            refresh: map<string, string> -> RefreshReply)
    ensures !RefreshAttempted(pathname, cookies, c, now) ==>
      DecideForwarding(pathname, cookies, forwardedFor, c, now, refresh) == Decide(pathname, cookies, c, now, refresh)
    ensures RefreshAttempted(pathname, cookies, c, now) ==>
      var reply := refresh(RefreshRequest(GetTokensFromCookies(cookies).refreshToken.value, forwardedFor));
      DecideForwarding(pathname, cookies, forwardedFor, c, now, refresh) ==
        if reply.ok then Redirect(pathname, reply.setCookies) else Redirect("/login", [])
  {
  }

  // ─── The refresh call's rate-limit bucket ─────────────

  /** As written, the gate's refresh call carries no client address, so the
      refresh route files every such call, whoever's session it renews,
      under one key, and the sixth of them inside one window is refused
      (and that visitor is sent to the login page) even when each comes
      from a different visitor. */
  lemma AsWrittenRefreshesShareOneBucket(tokens: seq<string>, hop: Option<string>,
                                         entries: map<string, Entry>, times: seq<int>)
    requires |tokens| == |times| == 6
    requires RefreshKey(hop) !in entries || times[0] > entries[RefreshKey(hop)].resetAt
    requires forall i :: 0 <= i < |times| ==> times[i] <= times[0] + AuthRateLimit.windowMs
    ensures forall i :: 0 <= i < |tokens| ==>
      RefreshKey(ReceivedForwardedFor(RefreshRequestAsWritten(tokens[i]), hop)) == RefreshKey(hop)
    ensures !Run(entries, RefreshKey(hop), AuthRateLimit, times)[5].success
  {
    Countdown(entries, RefreshKey(hop), AuthRateLimit, times);
  }

  /** With the visitor's `x-forwarded-for` passed on, the gate's refresh
      call is counted in the same bucket as the visitor's own call to the
      refresh route, and visitors whose first hops differ never share a
      bucket, so one visitor's refreshes leave another's count alone. */
  lemma ForwardedRefreshesKeepClientBuckets(t1: string, t2: string, f1: string, f2: string,
                                            hop: Option<string>, entries: map<string, Entry>, now: int)
    requires GetClientIp(Some(f1)) != GetClientIp(Some(f2))
    ensures RefreshKey(ReceivedForwardedFor(RefreshRequest(t1, Some(f1)), hop)) == RefreshKey(Some(f1))
    ensures RefreshKey(Some(f1)) != RefreshKey(Some(f2))
    ensures var after := Step(entries, RefreshKey(Some(f1)), AuthRateLimit, now).0;
      var k2 := RefreshKey(Some(f2));
      (k2 in after <==> k2 in entries) && (k2 in entries ==> after[k2] == entries[k2])
  {
    var p := "refresh:";
    assert RefreshKey(Some(f1)) == p + GetClientIp(Some(f1));
    assert RefreshKey(Some(f2)) == p + GetClientIp(Some(f2));
    assert (p + GetClientIp(Some(f1)))[|p|..] == GetClientIp(Some(f1));
    assert (p + GetClientIp(Some(f2)))[|p|..] == GetClientIp(Some(f2));
    StepIsolation(entries, RefreshKey(Some(f1)), AuthRateLimit, now, RefreshKey(Some(f2)));
  }
}
