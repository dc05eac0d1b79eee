/**
 * The session lifecycle of handlers/handler_auth.go: sign-in issues a token,
 * stores a session record in Redis under a fresh session id and hands the id
 * to the client in a cookie; the middleware admits a request whose cookie
 * names a live record with a valid token; logout deletes the record.
 *
 * Each request is one sequential transition. Responses are recorded, in the
 * order the handler emits them, in the request context's event log.
 */
module Auth {
  import opened Wrappers
  import opened Uuids
  import opened Validation
  import opened Tokens
  import opened Json
  import opened Redis

  const STATUS_OK := 200
  const STATUS_BAD_REQUEST := 400
  const STATUS_UNAUTHORIZED := 401
  const STATUS_NOT_FOUND := 404
  const STATUS_INTERNAL_SERVER_ERROR := 500

  /** `10 * time.Minute`, in nanoseconds like every `time.Duration`. */
  const TOKEN_LIFETIME: int := 10 * MINUTE

  const SESSION_COOKIE := "session_id"
  const USER_ID_KEY := "userId"

  const USER_NOT_FOUND := "User not found"
  const INCORRECT_PASSWORD := "Incorrect Password"
  const MARSHAL_FAILED := "failed to marshal session data into sessionDataJSON"
  const LOGGED_IN := "Logged in successfully"
  const UNAUTHORIZED_REQUEST := "Unauthorized request"
  const END_SESSION_FAILED := "failed to end Session from Redis"
  const SESSION_REMOVED := "Redis Session Removed successfully"
  const NO_SESSION := "Unauthorized - no session"
  const INVALID_SESSION := "invalid or expired Session from Redis"
  const DECODE_FAILED := "Failed to decode/unmarshal session data"
  const INVALID_TOKEN := "Invalid token"

  /** A row of the user table, as `FindUserByEmail` returns it. */
  datatype User = User(id: Uuid, name: string, username: string, email: string, password: string)

  /** What a session record holds (the handler's `SessionData`). */
  datatype SessionData = SessionData(token: Token, userId: Uuid)

  // ---------------------------------------------------------------------
  // The session record as JSON
  // ---------------------------------------------------------------------

  /**
   * The map the sign-in handler marshals: the keys are the JSON tags of
   * `SessionData`, and the user id is written as its text.
   */
  function SessionFields(token: Token, userId: Uuid): map<string, Value> {
    map["token" := JString(token), "userId" := JString(Plain(UuidString(userId)))]
  }

  /**
   * `UUID.UnmarshalText` of a JSON string: `uuid.Parse` of its text. The
   * text of a signed HS256 token is far longer than the 45 bytes of the
   * longest form `uuid.Parse` takes, so it never parses.
   */
  function UuidOfText(t: Token): Option<Uuid> {
    match t
    case Signed(_, _) => None
    case Plain(text) => ParseUuid(text)
  }

  /** The string field `Token` as `json.Unmarshal` fills it. */
  function TokenField(fields: map<string, Value>): Option<Token> {
    match Field(fields, "token")
    case JString(t) => Some(t)
    case JNull => Some(Plain(""))
    case JOther => None
  }

  /** The `uuid.UUID` field `UserId` as `json.Unmarshal` fills it. */
  function UserIdField(fields: map<string, Value>): Option<Uuid> {
    match Field(fields, "userId")
    case JString(t) => UuidOfText(t)
    case JNull => Some(NIL_UUID)
    case JOther => None
  }

  /**
   * `json.Unmarshal` of a stored document into a `SessionData`. Keys other
   * than the two tags are ignored. A field whose key is absent or `null`
   * keeps its zero value ("" and `uuid.Nil`); a string fills `Token` as it
   * is and fills `UserId` when it parses as a UUID. Text that does not
   * parse, a value of another kind in either field, or a `userId` string
   * that is not a UUID makes the whole call fail.
   */
  function UnmarshalSessionData(d: Document): (r: Option<SessionData>)
    ensures d.Malformed? ==> r == None
    ensures d.Object? ==>
              var token := Field(d.fields, "token");
              var userId := Field(d.fields, "userId");
              && (r.Some? <==> !token.JOther? && !userId.JOther? && (userId.JString? ==> UuidOfText(userId.s).Some?))
              && (r.Some? ==> r.value.token == if token.JString? then token.s else Plain(""))
              && (r.Some? ==> r.value.userId == if userId.JString? then UuidOfText(userId.s).value else NIL_UUID)
  {
    match d
    case Malformed(_) => None
    case Object(fields) =>
      match (TokenField(fields), UserIdField(fields))
      case (Some(t), Some(u)) => Some(SessionData(t, u))
      case _ => None
  }

  /** What sign-in writes decodes to the token and user id it wrote. */
  lemma UnmarshalMarshal(token: Token, userId: Uuid)
    ensures UnmarshalSessionData(Marshal(SessionFields(token, userId))) == Some(SessionData(token, userId))
  {
    ParseUuidString(userId);
  }

  /** Under any other key than the tag `userId`, the id is lost without an error: it decodes as `uuid.Nil`. */
  lemma UnmarshalMisnamedUserId(token: Token, userId: Uuid)
    ensures UnmarshalSessionData(Marshal(map["token" := JString(token), "user_id" := JString(Plain(UuidString(userId)))]))
         == Some(SessionData(token, NIL_UUID))
  {
  }

  /** A `null` field is no error: it leaves the zero value, as an absent key does. */
  lemma UnmarshalNullFields(token: Token, userId: Uuid)
    ensures UnmarshalSessionData(Object(map["token" := JString(token), "userId" := JNull]))
         == Some(SessionData(token, NIL_UUID))
    ensures UnmarshalSessionData(Object(map["token" := JNull, "userId" := JString(Plain(UuidString(userId)))]))
         == Some(SessionData(Plain(""), userId))
  {
    ParseUuidString(userId);
  }

  /**
   * The failing decodes: a number, boolean, array or object in either
   * field, and a `userId` string that is not a UUID, such as a token or "".
   */
  lemma UnmarshalTypeErrors(token: Token, userId: Uuid, claims: Claims, key: Key)
    ensures UnmarshalSessionData(Object(map["token" := JOther, "userId" := JString(Plain(UuidString(userId)))])) == None
    ensures UnmarshalSessionData(Object(map["token" := JString(token), "userId" := JOther])) == None
    ensures UnmarshalSessionData(Object(map["token" := JString(token), "userId" := JString(Sign(claims, key))])) == None
    ensures UnmarshalSessionData(Object(map["token" := JString(token), "userId" := JString(Plain(""))])) == None
  {
  }

  // ---------------------------------------------------------------------
  // The claims sign-in issues
  // ---------------------------------------------------------------------

  /**
   * The claims of lines 67-75 for a request at `now`: the request's e-mail,
   * no user id, `iat` and `nbf` at `now` and `exp` ten minutes later, each
   * truncated to a whole second.
   */
  function IssuedClaims(email: string, now: int): (c: Claims)
    ensures c.email == email && c.userId == NIL_UUID
    ensures c.notBefore.Some? && c.issuedAt == c.notBefore
    ensures now - SECOND < c.notBefore.value <= now && c.notBefore.value % SECOND == 0
    ensures c.expiresAt == Some(c.notBefore.value + TOKEN_LIFETIME)
  {
    NumericDateShift(now, 600);
    Claims(email, NIL_UUID, Some(NumericDate(now + TOKEN_LIFETIME)), Some(NumericDate(now)), Some(NumericDate(now)))
  }

  /** An issued token verifies exactly from its (truncated) issue second up to ten minutes later. */
  lemma IssuedTokenWindow(email: string, key: Key, now: int, t: int)
    ensures var nbf := IssuedClaims(email, now).notBefore.value;
            Verify(Sign(IssuedClaims(email, now), key), key, t).Some? <==> nbf <= t < nbf + TOKEN_LIFETIME
  {
  }

  /** A token issued at `now` is still valid 9m59s later and no longer valid at ten minutes, nor after. */
  lemma IssuedTokenBoundary(email: string, key: Key, now: int, t: int)
    ensures Verify(Sign(IssuedClaims(email, now), key), key, now + TOKEN_LIFETIME - SECOND).Some?
    ensures t >= now + TOKEN_LIFETIME ==> Verify(Sign(IssuedClaims(email, now), key), key, t) == None
  {
    IssuedTokenWindow(email, key, now, now + TOKEN_LIFETIME - SECOND);
    IssuedTokenWindow(email, key, now, t);
  }

  /** The record sign-in stores for `user` at `now`: its token and id, expiring with the TTL `time.Until(expirationTime)`. */
  function SessionEntry(user: User, email: string, secret: Key, now: int): Entry {
    Entry(Marshal(SessionFields(Sign(IssuedClaims(email, now), secret), user.id)), ExpiryFor(TOKEN_LIFETIME, now))
  }

  /** The number of values of Go's `int` on a 64-bit target (amd64, arm64), which the model assumes. */
  const INT64_MODULUS: int := 0x1_0000_0000_0000_0000
  /** The number of values of Go's `int` on a 32-bit target (386, arm). */
  const INT32_MODULUS: int := 0x1_0000_0000

  /**
   * The conversion `int(x)` of a wider integer to Go's `int` with
   * `modulus` values: the low bits, read in two's complement.
   */
  function GoInt(modulus: int, x: int): (r: int)
    requires modulus > 0 && modulus % 2 == 0
    ensures -modulus / 2 <= r < modulus / 2
    ensures -modulus / 2 <= x < modulus / 2 ==> r == x
    ensures r % modulus == x % modulus
  {
    var m := x % modulus;
    ModOfSmall(x, modulus);
    var r := if m >= modulus / 2 then m - modulus else m;
    ModOfSmall(r, modulus);
    r
  }

  /** Within one modulus either side of zero, the Euclidean remainder adds the modulus to a negative number. */
  lemma ModOfSmall(x: int, m: int)
    requires m > 0
    ensures -m <= x < m ==> x % m == if x >= 0 then x else x + m
  {
    var q := x / m;
    assert x == q * m + x % m;
    if q >= 1 {
      assert (q - 1) * m >= 0;
    } else if q <= -2 {
      assert (-2 - q) * m >= 0;
    }
  }

  /** The cookie of line 113: the session id, max-age `int(time.Until(expirationTime))`, path "/", not Secure, HttpOnly. */
  function SessionCookie(sessionId: string): Cookie {
    Cookie(SESSION_COOKIE, sessionId, GoInt(INT64_MODULUS, TOKEN_LIFETIME), "/", "", false, true)
  }

  /** The cookie of line 139 that clears the session cookie. */
  function ClearedCookie(): Cookie {
    Cookie(SESSION_COOKIE, "", -1, "/", "", false, true)
  }

  /**
   * The cookie's max-age and the record's time to live are one duration,
   * ten minutes in nanoseconds; read as the seconds a Max-Age attribute
   * counts (section 5.2.2 of RFC 6265), it is six hundred thousand million
   * seconds.
   */
  lemma CookieLifetimeMatchesStore(sessionId: string, user: User, email: string, secret: Key, now: int)
    ensures SessionEntry(user, email, secret, now).expiresAt == Some(now + SessionCookie(sessionId).maxAge)
    ensures SessionCookie(sessionId).maxAge == 600_000_000_000
  {
  }

  /**
   * On a 32-bit target the same conversion wraps: ten minutes in
   * nanoseconds becomes a negative max-age, which `net/http` sends as
   * `Max-Age=0`, so the browser drops the cookie at once.
   */
  lemma CookieLifetimeOn32BitTarget()
    ensures GoInt(INT32_MODULUS, TOKEN_LIFETIME) == -1_295_421_440
  {
  }

  // ---------------------------------------------------------------------
  // Responses and the request context
  // ---------------------------------------------------------------------

  /** The value of a `Set-Cookie` the handlers request (the arguments of `c.SetCookie`). */
  datatype Cookie = Cookie(
    name: string,
    value: string,
    maxAge: int,
    path: string,
    domain: string,
    secure: bool,
    httpOnly: bool)

  /** The JSON bodies the handlers emit (`gin.H` maps). */
  datatype Body =
    | ErrorMessage(error: string)
    | ErrorMessages(errors: seq<string>)
    | Message(message: string)
    | LoggedIn(message: string, expires: int)

  /** One action on the response: a JSON body with a status, or a cookie. */
  datatype Event = Respond(status: int, body: Body) | SetCookie(cookie: Cookie)

  /** The outcome of `c.ShouldBindJSON(&userToAuth)`: the credentials, or the binding error's text. */
  datatype Bind = Bound(user: UserToAuth) | BindError(text: string)

  /** The part of `*gin.Context` the handlers read and change. */
  class Context {
    /** The request's `session_id` cookie, if it sent one. */
    const cookie: Option<string>
    /** The request body, as binding reads it. */
    const body: Bind
    /** The responses and cookies emitted so far, in order. */
    var events: seq<Event>
    /** Whether `Abort` was called. */
    var aborted: bool
    /** The values stored with `c.Set`. */
    var keys: map<string, Uuid>
    /** Whether `c.Next()` passed the request on to the protected handler. */
    var nextCalled: bool

    constructor (cookie: Option<string>, body: Bind)
      ensures this.cookie == cookie && this.body == body
      ensures events == [] && !aborted && keys == map[] && !nextCalled
    {
      this.cookie := cookie;
      this.body := body;
      events := [];
      aborted := false;
      keys := map[];
      nextCalled := false;
    }
  }

  /** The failures of sign-in's foreign calls: signing, marshalling and the Redis write. */
  datatype SignInFaults = SignInFaults(sign: Option<string>, marshal: bool, store: Option<string>)

  // ---------------------------------------------------------------------
  // The middleware's decision
  // ---------------------------------------------------------------------

  datatype Verdict = Reject(reason: string) | Admit(userId: Uuid)

  /**
   * The decision `AuthMiddleware` reaches on a request with `cookie` at
   * `now`, the first failing check giving the reason: no cookie, no live
   * record (or a failing `GET`), a record that does not decode, a token that
   * does not verify. Otherwise the request is admitted with the stored id.
   */
  function Authorize(entries: map<string, Entry>, secret: Key, cookie: Option<string>, now: int, getFails: bool): (v: Verdict)
    ensures v.Admit? ==> cookie.Some? && !getFails && cookie.value in entries && Live(entries[cookie.value], now)
    ensures v.Admit? ==> exists t :: UnmarshalSessionData(entries[cookie.value].value) == Some(SessionData(t, v.userId))
                                     && Verify(t, secret, now).Some?
    ensures cookie.None? ==> v == Reject(NO_SESSION)
    ensures cookie.Some? && (getFails || Lookup(entries, cookie.value, now).None?) ==> v == Reject(INVALID_SESSION)
  {
    match cookie
    case None => Reject(NO_SESSION)
    case Some(sessionId) =>
      var found := if getFails then None else Lookup(entries, sessionId, now);
      match found
      case None => Reject(INVALID_SESSION)
      case Some(json) =>
        match UnmarshalSessionData(json)
        case None => Reject(DECODE_FAILED)
        case Some(sessionData) =>
          if Verify(sessionData.token, secret, now).None? then Reject(INVALID_TOKEN)
          else Admit(sessionData.userId)
  }

  /**
   * A record sign-in just wrote under `sessionId` admits its user exactly
   * inside the token's window; before it or after it the token fails, and
   * once the record's expiry instant is past the record is gone. The token
   * expires up to a second before the record, since its `exp` is truncated.
   */
  lemma AuthorizeFreshSession(entries: map<string, Entry>, user: User, email: string, secret: Key,
                              sessionId: string, now: int, t: int)
    ensures var nbf := IssuedClaims(email, now).notBefore.value;
            Authorize(entries[sessionId := SessionEntry(user, email, secret, now)], secret, Some(sessionId), t, false)
            == if nbf <= t < nbf + TOKEN_LIFETIME then Admit(user.id)
               else if t <= now + TOKEN_LIFETIME then Reject(INVALID_TOKEN)
               else Reject(INVALID_SESSION)
  {
    var e := SessionEntry(user, email, secret, now);
    LookupAfterSet(entries, sessionId, e, sessionId, t);
    UnmarshalMarshal(Sign(IssuedClaims(email, now), secret), user.id);
    IssuedTokenWindow(email, secret, now, t);
  }

  /** Once its record is deleted, a session id is refused as an invalid or expired session. */
  lemma AuthorizeAfterDelete(entries: map<string, Entry>, secret: Key, sessionId: string, now: int, getFails: bool)
    ensures Authorize(entries - {sessionId}, secret, Some(sessionId), now, getFails) == Reject(INVALID_SESSION)
  {
    LookupAfterDel(entries, sessionId, sessionId, now);
  }

  /** Writing or deleting another session's record does not change the decision for this one. */
  lemma AuthorizeIgnoresOtherKeys(entries: map<string, Entry>, secret: Key, sessionId: string, other: string,
                                  e: Entry, now: int, getFails: bool)
    requires other != sessionId
    ensures Authorize(entries[other := e], secret, Some(sessionId), now, getFails)
         == Authorize(entries, secret, Some(sessionId), now, getFails)
    ensures Authorize(entries - {other}, secret, Some(sessionId), now, getFails)
         == Authorize(entries, secret, Some(sessionId), now, getFails)
  {
    LookupAfterSet(entries, other, e, sessionId, now);
    LookupAfterDel(entries, other, sessionId, now);
  }

  /**
   * A live record whose `userId` is `null` and whose token verifies admits
   * the request, with `uuid.Nil` as the user id.
   */
  lemma AuthorizeNullUserId(entries: map<string, Entry>, secret: Key, sessionId: string, claims: Claims,
                            expiresAt: Option<int>, now: int)
    requires InValidityWindow(claims, now)
    requires expiresAt.None? || now < expiresAt.value
    ensures Authorize(entries[sessionId := Entry(Object(map["token" := JString(Sign(claims, secret)), "userId" := JNull]), expiresAt)],
                      secret, Some(sessionId), now, false)
         == Admit(NIL_UUID)
  {
    UnmarshalNullFields(Sign(claims, secret), NIL_UUID);
  }

  // ---------------------------------------------------------------------
  // The store invariant
  // ---------------------------------------------------------------------

  /**
   * `e` is a session record as sign-in writes it: it decodes, its token is
   * signed with `secret` for the e-mail of an account whose id it records,
   * and the token expires no later than the record.
   */
  predicate IsSessionRecord(e: Entry, db: map<string, User>, secret: Key) {
    match UnmarshalSessionData(e.value)
    case None => false
    case Some(sessionData) =>
      && sessionData.token.Signed?
      && sessionData.token.key == secret
      && sessionData.token.claims.email in db
      && db[sessionData.token.claims.email].id == sessionData.userId
      && sessionData.token.claims.expiresAt.Some?
      && e.expiresAt.Some?
      && sessionData.token.claims.expiresAt.value <= e.expiresAt.value
  }

  /** Every record in the store is a session record. */
  predicate SessionsBound(entries: map<string, Entry>, db: map<string, User>, secret: Key) {
    forall k :: k in entries ==> IsSessionRecord(entries[k], db, secret)
  }

  /** Sign-in's write keeps the store bound: the record is for the account found under the request's e-mail. */
  lemma SignInKeepsSessionsBound(entries: map<string, Entry>, db: map<string, User>, secret: Key,
                                 email: string, sessionId: string, now: int)
    requires SessionsBound(entries, db, secret) && email in db
    ensures SessionsBound(entries[sessionId := SessionEntry(db[email], email, secret, now)], db, secret)
  {
    UnmarshalMarshal(Sign(IssuedClaims(email, now), secret), db[email].id);
  }

  /**
   * On a bound store the middleware never meets a record it cannot decode,
   * and the id it admits is that of the account whose e-mail the token names.
   */
  lemma AuthorizeOnBoundStore(entries: map<string, Entry>, db: map<string, User>, secret: Key,
                              cookie: Option<string>, now: int, getFails: bool)
    requires SessionsBound(entries, db, secret)
    ensures Authorize(entries, secret, cookie, now, getFails) != Reject(DECODE_FAILED)
    ensures Authorize(entries, secret, cookie, now, getFails).Admit? ==>
              exists email :: email in db && db[email].id == Authorize(entries, secret, cookie, now, getFails).userId
  {
    if cookie.Some? && !getFails && Lookup(entries, cookie.value, now).Some? {
      assert IsSessionRecord(entries[cookie.value], db, secret);
      var sessionData := UnmarshalSessionData(entries[cookie.value].value).value;
      assert db[sessionData.token.claims.email].id == sessionData.userId;
    }
  }

  // ---------------------------------------------------------------------
  // The handlers
  // ---------------------------------------------------------------------

  /** `LocalApiConfig`: the user table, the Redis client and the signing secret the handlers share. */
  class LocalApiConfig {
    /** `DB.FindUserByEmail`, read only: the user stored under each e-mail. */
    const db: map<string, User>
    const redis: RedisClient
    const secret: Key

    constructor (db: map<string, User>, redis: RedisClient, secret: Key)
      ensures this.db == db && this.redis == redis && this.secret == secret
      ensures redis.entries == map[] ==> Valid()
    {
      this.db := db;
      this.redis := redis;
      this.secret := secret;
    }

    /** Every record in Redis is a session record for an account of `db`. */
    ghost predicate Valid()
      reads redis
    {
      SessionsBound(redis.entries, db, secret)
    }

    /** The request body binds, passes validation and names a stored user. */
    predicate FindsUser(body: Bind) {
      body.Bound? && ValidateEmail(body.user.email).isValid && body.user.email in db
    }

    /** The 401 the password check emits without returning (lines 60-64). */
    function MismatchResponse(userToAuth: UserToAuth): seq<Event>
      requires userToAuth.email in db
    {
      if db[userToAuth.email].password != userToAuth.password
      then [Respond(STATUS_UNAUTHORIZED, ErrorMessage(INCORRECT_PASSWORD))]
      else []
    }

    /**
     * `SignInHandler` on a request at `now`; `sessionId` is what
     * `uuid.New().String()` returns, `faults` the foreign calls that fail.
     */
    method SignInHandler(c: Context, now: int, sessionId: string, faults: SignInFaults)
      modifies redis, c`events
      ensures old(Valid()) ==> Valid()
      // The early returns before the token, in order.
      ensures c.body.BindError? ==>
                && redis.entries == old(redis.entries)
                && c.events == old(c.events) + [Respond(STATUS_BAD_REQUEST, ErrorMessage(c.body.text))]
      ensures c.body.Bound? && !ValidateEmail(c.body.user.email).isValid ==>
                && redis.entries == old(redis.entries)
                && c.events == old(c.events) + [Respond(STATUS_BAD_REQUEST, ErrorMessages([ErrorText(ValidateEmail(c.body.user.email))]))]
      ensures c.body.Bound? && ValidateEmail(c.body.user.email).isValid && c.body.user.email !in db ==>
                && redis.entries == old(redis.entries)
                && c.events == old(c.events) + [Respond(STATUS_NOT_FOUND, ErrorMessage(USER_NOT_FOUND))]
      // Past the lookup, a wrong password only adds a 401 in front of what follows.
      ensures FindsUser(c.body) && faults.sign.Some? ==>
                && redis.entries == old(redis.entries)
                && c.events == old(c.events) + MismatchResponse(c.body.user)
                               + [Respond(STATUS_INTERNAL_SERVER_ERROR, ErrorMessage(faults.sign.value))]
      ensures FindsUser(c.body) && faults.sign.None? && faults.marshal ==>
                && redis.entries == old(redis.entries)
                && c.events == old(c.events) + MismatchResponse(c.body.user)
                               + [Respond(STATUS_INTERNAL_SERVER_ERROR, ErrorMessage(MARSHAL_FAILED))]
      ensures FindsUser(c.body) && faults.sign.None? && !faults.marshal && faults.store.Some? ==>
                && redis.entries == old(redis.entries)
                && c.events == old(c.events) + MismatchResponse(c.body.user)
                               + [Respond(STATUS_INTERNAL_SERVER_ERROR, ErrorMessage(faults.store.value))]
      // The write, then the cookie, then 200.
      ensures FindsUser(c.body) && faults == SignInFaults(None, false, None) ==>
                && redis.entries == old(redis.entries)[sessionId := SessionEntry(db[c.body.user.email], c.body.user.email, secret, now)]
                && c.events == old(c.events) + MismatchResponse(c.body.user)
                               + [SetCookie(SessionCookie(sessionId)),
                                  Respond(STATUS_OK, LoggedIn(LOGGED_IN, now + TOKEN_LIFETIME))]
    {
      if c.body.BindError? {
        c.events := c.events + [Respond(STATUS_BAD_REQUEST, ErrorMessage(c.body.text))];
        return;
      }
      var userToAuth := c.body.user;

      var validationError := ValidateUserToAuth(userToAuth);
      if |validationError| > 0 {
        c.events := c.events + [Respond(STATUS_BAD_REQUEST, ErrorMessages(validationError))];
        return;
      }

      if userToAuth.email !in db {
        c.events := c.events + [Respond(STATUS_NOT_FOUND, ErrorMessage(USER_NOT_FOUND))];
        return;
      }
      var foundUser := db[userToAuth.email];

      if foundUser.password != userToAuth.password {
        c.events := c.events + [Respond(STATUS_UNAUTHORIZED, ErrorMessage(INCORRECT_PASSWORD))];
        // As in the source, there is no return here.
      }

      var expirationTime := now + TOKEN_LIFETIME;
      var claims := IssuedClaims(userToAuth.email, now);
      if faults.sign.Some? {
        c.events := c.events + [Respond(STATUS_INTERNAL_SERVER_ERROR, ErrorMessage(faults.sign.value))];
        return;
      }
      var tokenString := Sign(claims, secret);

      var sessionData := SessionFields(tokenString, foundUser.id);
      if faults.marshal {
        c.events := c.events + [Respond(STATUS_INTERNAL_SERVER_ERROR, ErrorMessage(MARSHAL_FAILED))];
        return;
      }
      var sessionDataJson := Marshal(sessionData);

      var err := redis.Set(sessionId, sessionDataJson, expirationTime - now, now, faults.store);
      if err.Some? {
        c.events := c.events + [Respond(STATUS_INTERNAL_SERVER_ERROR, ErrorMessage(err.value))];
        return;
      }
      if old(Valid()) {
        SignInKeepsSessionsBound(old(redis.entries), db, secret, userToAuth.email, sessionId, now);
      }

      c.events := c.events + [SetCookie(Cookie(SESSION_COOKIE, sessionId, GoInt(INT64_MODULUS, expirationTime - now), "/", "", false, true))];
      c.events := c.events + [Respond(STATUS_OK, LoggedIn(LOGGED_IN, expirationTime))];
    }

    /** `LogOutHandler`; `fault` is the error `DEL` returns, if any. */
    method LogOutHandler(c: Context, fault: Option<string>)
      modifies redis, c`events, c`aborted
      ensures old(Valid()) ==> Valid()
      ensures c.cookie.None? ==>
                && redis.entries == old(redis.entries) && c.aborted
                && c.events == old(c.events) + [Respond(STATUS_UNAUTHORIZED, ErrorMessage(UNAUTHORIZED_REQUEST))]
      ensures c.cookie.Some? && fault.Some? ==>
                && redis.entries == old(redis.entries) && c.aborted
                && c.events == old(c.events) + [Respond(STATUS_INTERNAL_SERVER_ERROR, ErrorMessage(END_SESSION_FAILED))]
      ensures c.cookie.Some? && fault.None? ==>
                && redis.entries == old(redis.entries) - {c.cookie.value}
                && c.aborted == old(c.aborted)
                && c.events == old(c.events) + [SetCookie(ClearedCookie()), Respond(STATUS_OK, Message(SESSION_REMOVED))]
    {
      if c.cookie.None? {
        c.aborted := true;
        c.events := c.events + [Respond(STATUS_UNAUTHORIZED, ErrorMessage(UNAUTHORIZED_REQUEST))];
        return;
      }
      var sessionId := c.cookie.value;

      var err := redis.Del(sessionId, fault);
      if err.Some? {
        c.aborted := true;
        c.events := c.events + [Respond(STATUS_INTERNAL_SERVER_ERROR, ErrorMessage(END_SESSION_FAILED))];
        return;
      }
      c.events := c.events + [SetCookie(ClearedCookie())];
      c.events := c.events + [Respond(STATUS_OK, Message(SESSION_REMOVED))];
    }

    /**
     * The handler `AuthMiddleware()` returns, run on a request at `now`;
     * `getFails` is a failing `GET`. It only reads Redis.
     */
    method AuthMiddleware(c: Context, now: int, getFails: bool)
      modifies c`events, c`aborted, c`keys, c`nextCalled
      ensures redis.entries == old(redis.entries)
      ensures Authorize(redis.entries, secret, c.cookie, now, getFails).Reject? ==>
                && c.aborted && c.keys == old(c.keys) && c.nextCalled == old(c.nextCalled)
                && c.events == old(c.events)
                               + [Respond(STATUS_UNAUTHORIZED, ErrorMessage(Authorize(redis.entries, secret, c.cookie, now, getFails).reason))]
      ensures Authorize(redis.entries, secret, c.cookie, now, getFails).Admit? ==>
                && c.nextCalled && c.aborted == old(c.aborted) && c.events == old(c.events)
                && c.keys == old(c.keys)[USER_ID_KEY := Authorize(redis.entries, secret, c.cookie, now, getFails).userId]
      // On a store of sign-in records, decoding never fails and the admitted id is an account's.
      ensures Valid() ==> Authorize(redis.entries, secret, c.cookie, now, getFails) != Reject(DECODE_FAILED)
      ensures Valid() && Authorize(redis.entries, secret, c.cookie, now, getFails).Admit? ==>
                exists email :: email in db && db[email].id == c.keys[USER_ID_KEY]
    {
      if Valid() {
        AuthorizeOnBoundStore(redis.entries, db, secret, c.cookie, now, getFails);
      }
      if c.cookie.None? {
        c.aborted := true;
        c.events := c.events + [Respond(STATUS_UNAUTHORIZED, ErrorMessage(NO_SESSION))];
        return;
      }
      var sessionId := c.cookie.value;

      var sessionDataJson := redis.Get(sessionId, now, getFails);
      if sessionDataJson.None? {
        c.aborted := true;
        c.events := c.events + [Respond(STATUS_UNAUTHORIZED, ErrorMessage(INVALID_SESSION))];
        return;
      }

      var sessionData := UnmarshalSessionData(sessionDataJson.value);
      if sessionData.None? {
        c.aborted := true;
        c.events := c.events + [Respond(STATUS_UNAUTHORIZED, ErrorMessage(DECODE_FAILED))];
        return;
      }

      var token := Verify(sessionData.value.token, secret, now);
      if token.None? {
        c.aborted := true;
        c.events := c.events + [Respond(STATUS_UNAUTHORIZED, ErrorMessage(INVALID_TOKEN))];
        return;
      }
      c.keys := c.keys[USER_ID_KEY := sessionData.value.userId];
      c.nextCalled := true;
    }
  }
}
