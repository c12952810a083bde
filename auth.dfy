/** The authentication library: token signing and verification, the two
    session cookies, and the current-user lookup. Signing, verification and
    salted hashing are cryptographic primitives and stay uninterpreted: a
    `Crypto` value supplies them. */
module Auth {
  import opened Wrappers
  import opened Store

  /** How long a stored refresh record lives, in milliseconds (7 days). */
  const RefreshRecordLifetimeMs: int := 7 * 24 * 60 * 60 * 1000

  const AccessCookieName: string := "access_token"
  const RefreshCookieName: string := "refresh_token"

  /** Cookie lifetimes in seconds: 15 minutes and 7 days, the token lifetimes. */
  const AccessCookieMaxAge: nat := 15 * 60
  const RefreshCookieMaxAge: nat := 7 * 24 * 60 * 60

  /** The claims a token carries. */
  datatype Claims = Claims(userId: string, email: string)

  /** Access and refresh tokens are signed and verified under different secrets. */
  datatype TokenKind = Access | Refresh

  /** The primitives: `sign(kind, claims, iat)` is the HS256 token issued at
      second `iat` under the kind's secret; `verify(kind, token, now)` is the
      payload of a token that verifies under the kind's secret and has not
      expired at `now`, and nothing on any failure; `matches(raw, hash)` is
      `bcrypt.compare`. */
  datatype Crypto = Crypto(
    sign: (TokenKind, Claims, int) -> string,
    verify: (TokenKind, string, int) -> Option<Claims>,
    matches: Matcher)

  /** A token issued at `now` (milliseconds): JWTs carry whole seconds. */
  function SignToken(c: Crypto, kind: TokenKind, claims: Claims, now: int): string
  {
    c.sign(kind, claims, now / 1000)
  }

  // ─── Cookies ──────────────────────────────────────────

  datatype CookieOptions = CookieOptions(httpOnly: bool, secure: bool, sameSite: string, path: string, maxAge: nat)

  datatype Cookie = Cookie(value: string, options: CookieOptions)

  /** The options both session cookies are set with; `secure` only in production. */
  function AuthCookieOptions(maxAge: nat, production: bool): (o: CookieOptions)
    ensures o.httpOnly && o.sameSite == "lax" && o.path == "/"
    ensures o.secure == production && o.maxAge == maxAge
  {
    CookieOptions(true, production, "lax", "/", maxAge)
  }

  /** The cookies after `setAuthCookies(access, refresh)`. */
  function WithAuthCookies(cookies: map<string, Cookie>, access: string, refresh: string, production: bool): (r: map<string, Cookie>)
    ensures AccessCookieName in r && r[AccessCookieName] == Cookie(access, AuthCookieOptions(AccessCookieMaxAge, production))
    ensures RefreshCookieName in r && r[RefreshCookieName] == Cookie(refresh, AuthCookieOptions(RefreshCookieMaxAge, production))
    ensures forall n :: n != AccessCookieName && n != RefreshCookieName ==>
      (n in r <==> n in cookies) && (n in r ==> r[n] == cookies[n])
  {
    cookies[AccessCookieName := Cookie(access, AuthCookieOptions(AccessCookieMaxAge, production))]
           [RefreshCookieName := Cookie(refresh, AuthCookieOptions(RefreshCookieMaxAge, production))]
  }

  /** The cookies after `clearAuthCookies()`: exactly the two names are gone. */
  function WithoutAuthCookies(cookies: map<string, Cookie>): (r: map<string, Cookie>)
    ensures AccessCookieName !in r && RefreshCookieName !in r
    ensures forall n :: n != AccessCookieName && n != RefreshCookieName ==>
      (n in r <==> n in cookies) && (n in r ==> r[n] == cookies[n])
  {
    cookies - {AccessCookieName, RefreshCookieName}
  }

  datatype TokenPair = TokenPair(accessToken: Option<string>, refreshToken: Option<string>)

  /** `getTokensFromCookies()`: each cookie's value, or null when it is absent. */
  function GetTokensFromCookies(cookies: map<string, Cookie>): (t: TokenPair)
    ensures t.accessToken.Some? <==> AccessCookieName in cookies
    ensures t.refreshToken.Some? <==> RefreshCookieName in cookies
    ensures t.accessToken.Some? ==> t.accessToken.value == cookies[AccessCookieName].value
    ensures t.refreshToken.Some? ==> t.refreshToken.value == cookies[RefreshCookieName].value
  {
    TokenPair(
      if AccessCookieName in cookies then Some(cookies[AccessCookieName].value) else None,
      if RefreshCookieName in cookies then Some(cookies[RefreshCookieName].value) else None)
  }

  /** Setting the session cookies and reading them back gives the same tokens. */
  lemma SetThenGet(cookies: map<string, Cookie>, access: string, refresh: string, production: bool)
    ensures GetTokensFromCookies(WithAuthCookies(cookies, access, refresh, production)) == TokenPair(Some(access), Some(refresh))
  {
  }

  /** After clearing, neither token is found. */
  lemma ClearThenGet(cookies: map<string, Cookie>)
    ensures GetTokensFromCookies(WithoutAuthCookies(cookies)) == TokenPair(None, None)
  {
  }

  /** Clearing undoes setting on every cookie name. */
  lemma ClearUndoesSet(cookies: map<string, Cookie>, access: string, refresh: string, production: bool)
    ensures WithoutAuthCookies(WithAuthCookies(cookies, access, refresh, production)) == WithoutAuthCookies(cookies)
  {
  }

  /** The request's cookie store, changed in place by `set` and `delete`. */
  class CookieJar {
    var cookies: map<string, Cookie>

    constructor (initial: map<string, Cookie>)
      ensures cookies == initial
    {
      cookies := initial;
    }

    method Set(name: string, value: string, options: CookieOptions)
      modifies this
      ensures cookies == old(cookies)[name := Cookie(value, options)]
    {
      cookies := cookies[name := Cookie(value, options)];
    }

    method Delete(name: string)
      modifies this
      ensures cookies == old(cookies) - {name}
    {
      cookies := cookies - {name};
    }

    /** `setAuthCookies(access, refresh)`. */
    method SetAuthCookies(access: string, refresh: string, production: bool)
      modifies this
      ensures cookies == WithAuthCookies(old(cookies), access, refresh, production)
    {
      Set(AccessCookieName, access, AuthCookieOptions(AccessCookieMaxAge, production));
      Set(RefreshCookieName, refresh, AuthCookieOptions(RefreshCookieMaxAge, production));
    }

    /** `clearAuthCookies()`. */
    method ClearAuthCookies()
      modifies this
      ensures cookies == WithoutAuthCookies(old(cookies))
    {
      Delete(AccessCookieName);
      Delete(RefreshCookieName);
    }
  }

  // ─── The current user ─────────────────────────────────

  datatype AuthUser = AuthUser(id: string, email: string, name: string)

  function ToAuthUser(u: User): AuthUser
  {
    AuthUser(u.id, u.email, u.name)
  }

  /** `getCurrentUser()`: nothing without a non-empty access cookie or when
      the token does not verify; otherwise the user named by the token,
      which is nothing when that user no longer exists. */
  function GetCurrentUser(cookies: map<string, Cookie>, users: seq<User>, c: Crypto, now: int): (r: Option<AuthUser>)
    ensures r.Some? ==> exists u :: u in users && r.value == ToAuthUser(u)
  {
    var token := GetTokensFromCookies(cookies).accessToken;
    if token.None? || token.value == "" then None
    else
      match c.verify(Access, token.value, now)
      case None => None
      case Some(claims) =>
        match FindUserById(users, claims.userId)
        case None => None
        case Some(u) => Some(ToAuthUser(u))
  }

  /** There is a current user exactly when the access cookie holds a
      non-empty token that verifies as an access token and names an
      existing user; that user is the one named. */
  lemma CurrentUserCases(cookies: map<string, Cookie>, users: seq<User>, c: Crypto, now: int)
    ensures var r := GetCurrentUser(cookies, users, c, now);
      r.Some? <==>
        AccessCookieName in cookies && cookies[AccessCookieName].value != "" &&
        c.verify(Access, cookies[AccessCookieName].value, now).Some? &&
        exists u :: u in users && u.id == c.verify(Access, cookies[AccessCookieName].value, now).value.userId
    ensures var r := GetCurrentUser(cookies, users, c, now);
      r.Some? ==> r.value.id == c.verify(Access, cookies[AccessCookieName].value, now).value.userId
  {
  }
}
