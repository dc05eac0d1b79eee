/**
 * Request sequences run against the handlers of handlers/handler_auth.go on
 * a fresh Redis store, stated for every user, credential, session id and
 * clock reading.
 */
module Scenarios {
  import opened Wrappers
  import opened Uuids
  import opened Json
  import opened Validation
  import opened Tokens
  import opened Redis
  import opened Auth

  /**
   * The client's three commands on one key, on any store: after a
   * successful `SET` with time to live `ttl` at `now`, a `GET` at `t`
   * finds the value exactly while the TTL has not run out (for ever when
   * `ttl` is not positive); a `GET` of another key finds what it found
   * before; after a `DEL`, a `GET` finds nothing.
   */
  method StoreWriteReadDelete(redis: RedisClient, key: string, other: string, value: Document,
                              ttl: int, now: int, t: int)
    returns (afterSet: Option<Document>, otherBefore: Option<Document>, otherAfter: Option<Document>,
             afterDel: Option<Document>)
    modifies redis
    ensures afterSet == if ttl <= 0 || t <= now + ttl then Some(value) else None
    ensures other != key ==> otherAfter == otherBefore
    ensures afterDel == None
  {
    otherBefore := redis.Get(other, t, false);
    var _ := redis.Set(key, value, ttl, now, None);
    afterSet := redis.Get(key, t, false);
    otherAfter := redis.Get(other, t, false);
    var _ := redis.Del(key, None);
    afterDel := redis.Get(key, t, false);
  }

  /** The body a request without one binds to (`ShouldBindJSON` reports "EOF"). */
  const NO_BODY := BindError("EOF")

  /**
   * Sign in with the right password at `now`, call a protected route at
   * `later` with the cookie, log out, and call the route again: the cookie
   * is the session id, the route admits the account's id exactly inside the
   * token's window, and after logout the same cookie gets 401.
   */
  method SessionRoundTrip(db: map<string, User>, secret: Key, userToAuth: UserToAuth,
                          sessionId: string, now: int, later: int)
    returns (signInStatus: int, cookie: Option<string>, admitted: Option<Uuid>,
             logoutStatus: int, afterLogoutStatus: int)
    requires ValidateEmail(userToAuth.email).isValid && userToAuth.email in db
    requires db[userToAuth.email].password == userToAuth.password
    ensures signInStatus == STATUS_OK && cookie == Some(sessionId)
    ensures admitted == if NumericDate(now) <= later < NumericDate(now) + TOKEN_LIFETIME
                        then Some(db[userToAuth.email].id) else None
    ensures logoutStatus == STATUS_OK
    ensures afterLogoutStatus == STATUS_UNAUTHORIZED
  {
    var redis := new RedisClient();
    var lac := new LocalApiConfig(db, redis, secret);

    var signIn := new Context(None, Bound(userToAuth));
    lac.SignInHandler(signIn, now, sessionId, SignInFaults(None, false, None));
    signInStatus := signIn.events[1].status;
    cookie := Some(signIn.events[0].cookie.value);

    var route := new Context(cookie, NO_BODY);
    AuthorizeFreshSession(map[], db[userToAuth.email], userToAuth.email, secret, sessionId, now, later);
    lac.AuthMiddleware(route, later, false);
    admitted := if route.nextCalled then Some(route.keys[USER_ID_KEY]) else None;

    var logout := new Context(cookie, NO_BODY);
    AuthorizeAfterDelete(redis.entries, secret, sessionId, later, false);
    lac.LogOutHandler(logout, None);
    logoutStatus := logout.events[1].status;

    var again := new Context(cookie, NO_BODY);
    lac.AuthMiddleware(again, later, false);
    afterLogoutStatus := again.events[0].status;
  }

  /**
   * The missing return after the password check: a wrong password gets a
   * 401, yet the handler goes on, writes a session record for the account,
   * sets the cookie and adds a 200; a request bearing that session id is
   * admitted as the account.
   */
  method WrongPasswordSignIn(db: map<string, User>, secret: Key, userToAuth: UserToAuth,
                             sessionId: string, now: int)
    returns (statuses: seq<int>, cookieSet: bool, admitted: Option<Uuid>)
    requires ValidateEmail(userToAuth.email).isValid && userToAuth.email in db
    requires db[userToAuth.email].password != userToAuth.password
    ensures statuses == [STATUS_UNAUTHORIZED, STATUS_OK]
    ensures cookieSet
    ensures admitted == Some(db[userToAuth.email].id)
  {
    var redis := new RedisClient();
    var lac := new LocalApiConfig(db, redis, secret);

    var signIn := new Context(None, Bound(userToAuth));
    lac.SignInHandler(signIn, now, sessionId, SignInFaults(None, false, None));
    statuses := [signIn.events[0].status, signIn.events[2].status];
    cookieSet := signIn.events[1].SetCookie?;

    var route := new Context(Some(sessionId), NO_BODY);
    AuthorizeFreshSession(map[], db[userToAuth.email], userToAuth.email, secret, sessionId, now, now);
    lac.AuthMiddleware(route, now, false);
    admitted := if route.nextCalled then Some(route.keys[USER_ID_KEY]) else None;
  }

  /**
   * A failing Redis write ends sign-in with 500 and no cookie, and the
   * session id it would have used is refused as an invalid session.
   */
  method FailedStoreWrite(db: map<string, User>, secret: Key, userToAuth: UserToAuth,
                          sessionId: string, now: int, failure: string)
    returns (lastStatus: int, cookieSet: bool, reason: Option<string>)
    requires ValidateEmail(userToAuth.email).isValid && userToAuth.email in db
    ensures lastStatus == STATUS_INTERNAL_SERVER_ERROR
    ensures !cookieSet
    ensures reason == Some(INVALID_SESSION)
  {
    var redis := new RedisClient();
    var lac := new LocalApiConfig(db, redis, secret);

    var signIn := new Context(None, Bound(userToAuth));
    lac.SignInHandler(signIn, now, sessionId, SignInFaults(None, false, Some(failure)));
    lastStatus := signIn.events[|signIn.events| - 1].status;
    cookieSet := exists i :: 0 <= i < |signIn.events| && signIn.events[i].SetCookie?;

    var route := new Context(Some(sessionId), NO_BODY);
    lac.AuthMiddleware(route, now, false);
    reason := if route.aborted then Some(route.events[0].body.error) else None;
  }

  /**
   * Logging out again with the same cookie value still succeeds (deleting
   * an absent key is no error); only a request whose cookie is gone gets 401.
   */
  method LogOutTwice(db: map<string, User>, secret: Key, sessionId: string)
    returns (first: int, replayed: int, withoutCookie: int)
    ensures first == STATUS_OK && replayed == STATUS_OK
    ensures withoutCookie == STATUS_UNAUTHORIZED
  {
    var redis := new RedisClient();
    var lac := new LocalApiConfig(db, redis, secret);

    var logout := new Context(Some(sessionId), NO_BODY);
    lac.LogOutHandler(logout, None);
    first := logout.events[1].status;

    var replay := new Context(Some(sessionId), NO_BODY);
    lac.LogOutHandler(replay, None);
    replayed := replay.events[1].status;

    var cleared := new Context(None, NO_BODY);
    lac.LogOutHandler(cleared, None);
    withoutCookie := cleared.events[0].status;
  }
}
