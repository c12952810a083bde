/** `POST /api/auth/register`. Checks run in order (rate limit, body
    validation, e-mail not taken); a success adds exactly one user and one
    refresh record. */
module RegisterRoute {
  import opened Wrappers
  import opened Json
  import opened ApiUtils
  import opened RateLimit
  import opened Store
  import opened Auth
  import opened ValidationErrors
  import opened Validations
  import RefreshRoute
  import LoginRoute

  function RegisterKey(forwardedFor: Option<string>): string
  {
    "register:" + GetClientIp(forwardedFor)
  }

  /** Whether the limiter lets this registration through. */
  predicate RegisterAllowed(entries: map<string, Entry>, forwardedFor: Option<string>, now: int)
  {
    Step(entries, RegisterKey(forwardedFor), AuthRateLimit, now).1.success
  }

  const TooManyRegistrations: Response := ApiError("Too many registration attempts. Please try again later.", 429)
  const EmailTaken: Response := ApiError("An account with this email already exists", 409)

  function Registered(u: User): Response
  {
    ApiSuccess(JObj(map["user" := LoginRoute.UserJson(u), "message" := JStr("Registration successful")]), 201)
  }

  /** The user a valid registration creates. The database chooses `newId`;
      `passwordHash` is the salted bcrypt hash of the password. */
  function NewUser(input: RegisterInput, newId: string, passwordHash: string): (u: User)
    ensures u.email == input.email && u.name == input.name && u.id == newId && u.passwordHash == passwordHash
  {
    User(newId, input.email, input.name, passwordHash)
  }

  method Post(limiter: RateLimiter, db: Db, jar: CookieJar, c: Crypto, f: Formats, forwardedFor: Option<string>,
              body: Option<Json>, now: int, newId: string, passwordHash: string, newHash: string, production: bool)
    returns (resp: Response)
    modifies limiter, db, jar
    ensures limiter.entries == Step(old(limiter.entries), RegisterKey(forwardedFor), AuthRateLimit, now).0
    ensures db.transcripts == old(db.transcripts) && db.tasks == old(db.tasks)
    ensures !RegisterAllowed(old(limiter.entries), forwardedFor, now) ==> resp == TooManyRegistrations
    ensures RegisterAllowed(old(limiter.entries), forwardedFor, now) && body.None? ==> resp == LoginRoute.Unexpected
    ensures RegisterAllowed(old(limiter.entries), forwardedFor, now) && body.Some? && RegisterSchema(body.value, f).Invalid? ==>
      resp == ApiError("Validation failed", 400, Some(Grouped(RegisterSchema(body.value, f).issues)))
    ensures RegisterAllowed(old(limiter.entries), forwardedFor, now) && body.Some? && RegisterSchema(body.value, f).Valid? ==>
      var input := RegisterSchema(body.value, f).value;
      if FindUserByEmail(old(db.users), input.email).Some? then resp == EmailTaken
      else
        var u := NewUser(input, newId, passwordHash);
        var claims := Claims(u.id, u.email);
        resp == Registered(u) &&
        db.users == old(db.users) + [u] &&
        db.refreshTokens == old(db.refreshTokens) + [RefreshRoute.NewRecord(u.id, newHash, now)] &&
        jar.cookies == WithAuthCookies(old(jar.cookies), SignToken(c, Access, claims, now), SignToken(c, Refresh, claims, now), production)
    ensures resp.status != 201 ==>
      db.users == old(db.users) && db.refreshTokens == old(db.refreshTokens) && jar.cookies == old(jar.cookies)
    ensures UniqueEmails(old(db.users)) ==> UniqueEmails(db.users)
  {
    var limit := limiter.Check(RegisterKey(forwardedFor), AuthRateLimit, now);
    if !limit.success {
      return TooManyRegistrations;
    }
    if body.None? {
      return LoginRoute.Unexpected;
    }
    var parsed := RegisterSchema(body.value, f);
    if parsed.Invalid? {
      var errors := GroupIssues(parsed.issues);
      return ApiError("Validation failed", 400, Some(errors));
    }
    var input := parsed.value;
    var existingUser := FindUserByEmail(db.users, input.email);
    if existingUser.Some? {
      return EmailTaken;
    }
    ghost var before := db.users;
    var u := NewUser(input, newId, passwordHash);
    db.CreateUser(u);
    NewEmailKeepsUnique(before, u);
    var accessToken := SignToken(c, Access, Claims(u.id, u.email), now);
    var refreshToken := SignToken(c, Refresh, Claims(u.id, u.email), now);
    db.CreateRefreshToken(RefreshRoute.NewRecord(u.id, newHash, now));
    jar.SetAuthCookies(accessToken, refreshToken, production);
    resp := Registered(u);
  }

  /** The duplicate check keeps e-mail addresses unique: a user whose address
      no one has can be added. */
  lemma NewEmailKeepsUnique(users: seq<User>, u: User)
    requires FindUserByEmail(users, u.email).None?
    ensures UniqueEmails(users) ==> UniqueEmails(users + [u])
  {
    var after := users + [u];
    if UniqueEmails(users) {
      forall i, j | 0 <= i < j < |after| ensures after[i].email != after[j].email {
        if j == |users| {
          assert after[i] == users[i] && users[i] in users;
        } else {
          assert after[i] == users[i] && after[j] == users[j];
        }
      }
    }
  }

  /** Once registered, the address finds the new user, and that user is
      the one a login with the same password authenticates. */
  lemma RegisteredUserCanLogIn(users: seq<User>, u: User, password: string, c: Crypto)
    requires FindUserByEmail(users, u.email).None?
    requires c.matches(password, u.passwordHash)
    ensures FindUserByEmail(users + [u], u.email) == Some(u)
    ensures LoginRoute.Authenticates(users + [u], LoginInput(u.email, password), c)
  {
    FindAppended(users, u);
  }

  lemma {:induction false} FindAppended(users: seq<User>, u: User)
    requires FindUserByEmail(users, u.email).None?
    ensures FindUserByEmail(users + [u], u.email) == Some(u)
    decreases |users|
  {
    if users == [] {
      assert users + [u] == [u];
    } else {
      assert (users + [u])[1..] == users[1..] + [u];
      assert users[0] in users;
      FindAppended(users[1..], u);
    }
  }
}
