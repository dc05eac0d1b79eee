# auth-golang-cookies: a Dafny model of credential validation and the session lifecycle

This project models the two parts of the Go backend that carry logic:

- **The credential validator** (`utils/validation.go`): the e-mail check with its
  regular expression, the password length check and the list of validation errors a
  sign-in request collects.
- **The session lifecycle** (`handlers/handler_auth.go`): sign-in, which checks the
  credentials, issues a JWT, writes a session record to Redis under a fresh session id
  and sets the `session_id` cookie; logout, which deletes the record and clears the
  cookie; and the auth middleware, which admits a request whose cookie names a live
  record holding a valid token.

Modules, leaves first:

| file | module | models |
|---|---|---|
| `wrappers.dfy` | `Wrappers` | `Option`, for Go's nil-able values and `(value, error)` pairs |
| `uuid.dfy` | `Uuids` | `uuid.UUID`: the 128-bit value, its text form and `uuid.Parse` |
| `validation.dfy` | `Validation` | `utils/validation.go` |
| `tokens.dfy` | `Tokens` | the JWT claims, `jwt.NewNumericDate`, signing and `jwt.ParseWithClaims`, with the MAC abstract |
| `json.dfy` | `Json` | the JSON document a session record is stored as: strings, `null` and other values |
| `redis.dfy` | `Redis` | the Redis client: a map from key to value and expiry, with `Set`, `Del`, `Get` |
| `auth.dfy` | `Auth` | `handlers/handler_auth.go`: `SessionData`, the cookies, the request context, `LocalApiConfig` and its three handlers |
| `scenarios.dfy` | `Scenarios` | request sequences run through the handlers |

How the model is built:

- Strings are sequences of Unicode characters. Go's `len` counts bytes, so the
  password check uses `Utf8Length`, the length of the UTF-8 encoding.
- The e-mail pattern `[a-zA-Z0-9._%+-]+@[a-zA-Z0-9.-]+\.[a-zA-Z]{2,}$` has an end
  anchor and no start anchor, and `MatchString` looks for a match anywhere. So the
  pattern holds exactly when some suffix of the input is a whole match.
  `EmailPatternMatches` says this directly, as an existential over the suffix and the
  positions of `@` and `.`. `MatchesEmailPattern` decides it by reading character
  runs back from the end. `MatchesEmailPatternCorrect` proves the two agree.
- Times are integers in nanoseconds, like Go's `time.Time` and `time.Duration`. Each
  request reads one instant `now`, so every `time.Now()` and `time.Until` of one
  request sees the same clock. `jwt.NewNumericDate` truncates to whole seconds, and
  the model does the same.
- A token is abstract: `Signed(claims, key)` for a string HS256 produced (section 3.2
  of RFC 7518), `Plain(text)` for anything else. `Verify` accepts a signed token
  only under its own key. It checks `exp` and `nbf` as sections 4.1.4 and 4.1.5 of
  RFC 7519 define them, with no leeway. Like the library's default, it does not
  check `iat`.
- The request context (`Context`) records the handler's responses and cookies in an
  event log, in the order the handler emits them. It also holds the `Abort` flag,
  the values stored with `c.Set`, and whether `c.Next()` was called.
- `LocalApiConfig` holds the user table (read only), the Redis client and the signing
  secret. The handlers are its methods. Each one takes the request's clock reading,
  and the outcome of every foreign call that can fail is a parameter: signing,
  marshalling, and the Redis `SET`, `DEL` and `GET`. `uuid.New().String()` is the
  parameter `sessionId`.
- A JSON document is an object from keys to values, or text that does not parse. A
  value is a string, `null`, or anything else. Decoding follows `encoding/json`: an
  absent key and `null` both leave the field at its zero value, a string fills the
  `Token` field as it is and the `uuid.UUID` field when `uuid.Parse` accepts it, and
  any other value is a type error. The user id is stored as its text, as
  `UUID.MarshalText` writes it.
- `int(...)` converts to Go's `int`, whose width depends on the target. `GoInt`
  models the conversion, and the model takes the 64-bit width.
- `Authorize` is the middleware's decision as a function of the store. It checks in
  the source's order and names the reason for the first failure. `AuthMiddleware` is
  proved to act on exactly that decision. It has no write access to the Redis client.
- `LocalApiConfig.Valid` is the store invariant. Every record decodes. Its token is
  signed with the secret for the e-mail of an account whose id the record holds. The
  token expires no later than the record. Sign-in and logout preserve it.

Where the intended protocol and the code differ, the model follows the code:

- `ValidatePassword` returns `IsValid = true` even for a short password. Only the
  error is set (utils/validation.go:37). So `ValidateUserToAuth` never reports a
  password error. The length is counted in bytes, not characters. For example,
  `"ééé"` (three characters, six bytes) gets no error.
- The password-mismatch branch emits its 401 and does not return
  (handlers/handler_auth.go:60-64). Sign-in then signs a token, writes a session
  record for the account and sets the cookie, and a 200 follows the 401.
  `SignInHandler`'s contract states this, and `WrongPasswordSignIn` shows that the
  record it writes admits requests as the account. In Gin, headers go out with the
  first body written, and `net/http` ignores header changes after that. So the cookie
  set after the 401 body is not delivered, but the record stays in Redis. The model records the order only.
- The cookie's max-age is `int(time.Until(expirationTime))`, a `Duration`. That is
  600,000,000,000 nanoseconds, where the Max-Age attribute counts seconds (section
  5.2.2 of RFC 6265). On a 32-bit target the conversion wraps to -1,295,421,440
  (`CookieLifetimeOn32BitTarget`), and `net/http` sends a negative max-age as
  `Max-Age=0`, which deletes the cookie at once.
- A stored record whose `userId` is `null` or missing decodes without error, and the
  middleware admits the request with `uuid.Nil` (`AuthorizeNullUserId`).
- The token's `exp` is truncated to a whole second, but the Redis record expires at
  exactly `now` plus ten minutes. So for up to one second at the end of a session the
  record is still live while its token is already rejected (`AuthorizeFreshSession`).
- `Claims.UserId` is never set, so it stays `uuid.Nil`. The token carries the e-mail
  from the request.
- Logging out twice with the same cookie value returns 200 both times, because
  deleting an absent key is not an error. Only a request without the cookie gets 401
  (`LogOutTwice`).
- The cookie is not `Secure`.

## Model

| member | source | states |
|---|---|---|
| `Validation.TrailingRun` | utils/validation.go:14 | the length of the longest suffix whose characters lie in a class: the suffix is all in the class, and the character before it is not |
| `Validation.MatchesEmailPatternSound` | utils/validation.go:14 | when the character-run reading accepts, some suffix of the input is a whole match of `L+ '@' D+ '.' A{2,}` |
| `Validation.MatchesEmailPatternComplete` | utils/validation.go:14 | every suffix that is a whole match makes the character-run reading accept |
| `Validation.MatchesEmailPatternCorrect` | utils/validation.go:14 | `MatchesEmailPattern`, the character-run reading of `emailRegex.MatchString`, accepts exactly the inputs the unanchored-at-start pattern matches |
| `Validation.Utf8LengthBounds` | utils/validation.go:36 | `Utf8Length`, Go's byte length of a string, is between one and four bytes per character, and equals the character count for ASCII |
| `Validation.ValidateEmail` | utils/validation.go:23-33 | invalid exactly when the error is set; valid iff non-empty and the pattern matches; "email is required" for "" without consulting the pattern; "email is not valid" for a non-empty non-match |
| `Validation.ValidatePassword` | utils/validation.go:35-41 | always valid; the error "password must be at least 6 characters" is set iff the UTF-8 byte length is below 6 |
| `Validation.ValidateUserToAuth` | utils/validation.go:43-54 | the list is empty iff the e-mail is valid; otherwise it is exactly the e-mail check's error text |
| `Validation.ValidationErrorsInOrder` | utils/validation.go:46-53 | the list holds the `Error()` texts of the failing checks, the e-mail check first; every failing verdict carries an error, so `Error()` never meets nil |
| `Validation.ValidateUserToAuthCollectsFailures` | utils/validation.go:43-54 | what `ValidateUserToAuth` returns is exactly the list of the `Error()` texts of its failing checks, e-mail first |
| `Validation.PasswordNeverFailsValidation` | utils/validation.go:50-52 | the password check never contributes an entry, whatever the password |
| `Validation.PasswordByteLength` | utils/validation.go:36 | six or more characters never get the length error; one character never escapes it |
| `Validation.ShortPasswordOfWideCharacters` | utils/validation.go:36-37 | "ééé" (six bytes) gets no error; "abc" is still valid but gets the error |
| `Validation.NotAnEmailRejected` | utils/validation.go:24-30 | "not-an-email" is invalid with "email is not valid"; "" is invalid with "email is required" |
| `Validation.JunkBeforeAddressAccepted` | utils/validation.go:14 | any text placed before "a@b.com" is accepted, as the pattern has no start anchor |
| `Tokens.NumericDate` | handlers/handler_auth.go:71-73 | a NumericDate is the time rounded down to a whole second |
| `Tokens.NumericDateShift` | handlers/handler_auth.go:67-71 | truncating `now + 10 minutes` gives the truncated `now` plus 10 minutes |
| `Tokens.Verify` | handlers/handler_auth.go:171-175 | accepted claims are those of a token signed with the given key |
| `Tokens.VerifySignedToken` | handlers/handler_auth.go:171-175 | a token made by `Sign` (`SignedString`) verifies under its own key iff `nbf <= now < exp`, and yields its claims |
| `Tokens.VerifyRejectsOtherKey` | handlers/handler_auth.go:171-175 | a token never verifies under a key other than its signing key |
| `Uuids.ParseUuidString` | handlers/handler_auth.go:89-95 | the text `json.Marshal` writes for a UUID parses back to the same UUID |
| `Uuids.ParseUuidIgnoresWrapper` | handlers/handler_auth.go:163 | `uuid.Parse` takes the 38-character form with any two ASCII characters around the 36-character text, not only braces |
| `Uuids.HexValueOfDigits` | handlers/handler_auth.go:91 | reading back the hex digits `UUID.String` writes gives the number |
| `Redis.LookupAfterSet` | handlers/handler_auth.go:104 | after a write the written key reads the new entry; every other key reads as before |
| `Redis.LookupAfterDel` | handlers/handler_auth.go:131 | after a delete the key is absent; every other key reads as before |
| `Redis.RedisClient.constructor` | cmd/main.go:20-24 | a new client's store is empty: the model assumes the server it connects to holds no keys |
| `Redis.RedisClient.Set` | handlers/handler_auth.go:104 | on success the store is the old one with the key mapped to the value and its expiry; on a failure it is unchanged and the error is returned |
| `Redis.RedisClient.Del` | handlers/handler_auth.go:131 | on success exactly the key is removed, whether or not it was present; on a failure nothing changes |
| `Auth.UnmarshalSessionData` | handlers/handler_auth.go:162-163 | text that does not parse never decodes; an absent or `null` field keeps its zero value ("" or `uuid.Nil`); a string fills `Token` as it is and fills `UserId` with the UUID it parses to; decoding fails exactly when either field holds a value of another kind or `userId` is a string `uuid.Parse` refuses |
| `Auth.UnmarshalMarshal` | handlers/handler_auth.go:89-95 | the map sign-in marshals (`SessionFields`: the token, and the id as its text) decodes to the same token and user id, since the keys are the `SessionData` tags |
| `Auth.UnmarshalMisnamedUserId` | handlers/handler_auth.go:26-29 | a record whose id sits under another key than the tag `userId` decodes without error, with the id lost as `uuid.Nil` |
| `Auth.UnmarshalNullFields` | handlers/handler_auth.go:162-163 | a `null` `userId` decodes as `uuid.Nil` and a `null` `token` as "", without error |
| `Auth.UnmarshalTypeErrors` | handlers/handler_auth.go:162-169 | a non-string in either field, or a `userId` string that is a token or empty, fails to decode |
| `Auth.IssuedClaims` | handlers/handler_auth.go:67-75 | the issued claims carry the request e-mail and no user id; `iat = nbf` is a whole second within the second up to `now`, that is `now` truncated; `exp = nbf + 10 minutes` |
| `Auth.IssuedTokenWindow` | handlers/handler_auth.go:67-79 | an issued token verifies exactly from its truncated issue second up to ten minutes later |
| `Auth.IssuedTokenBoundary` | handlers/handler_auth.go:67-79 | a token issued at T verifies at T+9m59s, and is rejected at T+10m and later |
| `Auth.CookieLifetimeMatchesStore` | handlers/handler_auth.go:104-113 | the cookie's max-age and the record's TTL are the same duration, 600,000,000,000 nanoseconds, which `int(...)` keeps on a 64-bit target |
| `Auth.GoInt` | handlers/handler_auth.go:113 | `int(x)` is the value in the range of Go's `int` that is congruent to `x` modulo the number of its values (two's-complement truncation), so a value already in range is unchanged |
| `Auth.CookieLifetimeOn32BitTarget` | handlers/handler_auth.go:113 | on a 32-bit target the cookie's max-age wraps to -1,295,421,440 |
| `Auth.Context.constructor` | handlers/handler_auth.go:146 | a request starts with no responses, not aborted, no context values and `Next` not called |
| `Auth.Authorize` | handlers/handler_auth.go:147-182 | a missing cookie is "no session"; an absent, expired or unreadable key is "invalid or expired"; an admitted request names a live record that decodes to a token valid under the secret, and the admitted id is the stored one |
| `Auth.AuthorizeFreshSession` | handlers/handler_auth.go:88-182 | the record sign-in wrote admits its user exactly inside the token's window; before or after it the reason is "Invalid token" while the record lives (up to and including its expiry instant), and "invalid or expired" once that instant is past |
| `Auth.AuthorizeAfterDelete` | handlers/handler_auth.go:131-160 | after logout deletes the key, the same cookie is refused as an invalid or expired session |
| `Auth.AuthorizeIgnoresOtherKeys` | handlers/handler_auth.go:154 | writing or deleting another session's record does not change the decision for this cookie |
| `Auth.AuthorizeNullUserId` | handlers/handler_auth.go:162-182 | a live record with a valid token and a `null` `userId` admits the request as `uuid.Nil` |
| `Auth.SignInKeepsSessionsBound` | handlers/handler_auth.go:88-104 | sign-in's write keeps every record bound to the account found under the request's e-mail |
| `Auth.AuthorizeOnBoundStore` | handlers/handler_auth.go:162-182 | on a store of sign-in records, decoding never fails, and an admitted id belongs to an account |
| `Auth.LocalApiConfig.constructor` | cmd/main.go:70-78 | the configuration holds the given user table, Redis client and secret, and meets the store invariant when the store is empty |
| `Auth.LocalApiConfig.SignInHandler` | handlers/handler_auth.go:31-118 | the early returns in order: a bad body or failed validation gives 400, an unknown e-mail 404, a signing, marshalling or store failure 500, each with the store unchanged and no cookie; a wrong password adds a 401 and carries on; otherwise the store gains exactly the session record under `sessionId` with the token's TTL, then the cookie is set, then 200 with the expiry |
| `Auth.LocalApiConfig.LogOutHandler` | handlers/handler_auth.go:120-143 | no cookie gives 401 with the store unchanged; a `DEL` failure gives 500 without clearing the cookie; otherwise exactly the cookie's key is removed, the cookie is cleared with max-age -1, and 200 follows |
| `Auth.LocalApiConfig.AuthMiddleware` | handlers/handler_auth.go:145-184 | the store is unchanged; a rejected request aborts with one 401 carrying the reason, and `Next` is not called; an admitted request gets `userId` and `Next` is called; on a store that meets the invariant, decoding never fails and the admitted id is an account's |
| `Scenarios.SessionRoundTrip` | handlers/handler_auth.go:88-182 | sign-in returns 200 with the session id as the cookie; a request with it is admitted as the account exactly inside the token's window; logout returns 200; then the same cookie gets 401 |
| `Scenarios.WrongPasswordSignIn` | handlers/handler_auth.go:60-117 | a wrong password gets 401 then 200, the cookie is set, and the session id is admitted as the account |
| `Scenarios.FailedStoreWrite` | handlers/handler_auth.go:104-113 | a failing Redis write ends sign-in with 500 and no cookie, and the session id is refused as an invalid session |
| `Scenarios.LogOutTwice` | handlers/handler_auth.go:122-142 | logging out twice with the same cookie gives 200 both times; without the cookie it gives 401 |
| `Scenarios.StoreWriteReadDelete` | handlers/handler_auth.go:104-154 | on any store: after a successful `SET` with TTL `ttl` at `now`, a `GET` at `t` finds the value exactly when `ttl` is not positive or `t <= now + ttl`; another key reads as before; after `DEL` the key reads as absent |

## Left out

- Gin's plumbing: rendering JSON, the order in which headers and bodies reach the
  wire, and what `AbortWithStatusJSON` does inside. The model keeps an ordered log of
  responses and cookie requests. The cookie value's URL escaping is also left out; it
  does not change a UUID.
- `HandlerAuthRoute` (handlers/handler_auth.go:186-191) returns a constant response
  and is not modelled.
- HMAC-SHA256 and the JWT byte encoding are foreign library code, abstracted as
  `Signed(claims, key)`. The algorithm check inside `jwt.ParseWithClaims` is not
  modelled. Signing failures are a parameter.
- JSON bytes are abstracted as documents. `encoding/json` matches keys without regard
  to case, and the model compares them exactly. Numbers, booleans, arrays and objects
  are one kind of value, since each is a type error in both fields. `json.Marshal`
  cannot fail on these values; its error branch is a parameter.
- `uuid.Parse` is modelled from the library's documented forms. The library's source
  is not part of this model.
- `SessionCookie`: the model assumes a 64-bit target, where `int(...)` keeps 600,000,000,000.
  A 32-bit build is covered only by `CookieLifetimeOn32BitTarget`.
- `RedisClient.constructor`: the client starts from an empty store, not from whatever
  the server already holds. The scenarios build on that.
- Redis I/O: a failed `SET` or `DEL` is assumed to change nothing. The client's
  millisecond rounding of TTLs that are not whole seconds, `KeepTTL`, and lazy
  expiry are left out.
- `Live`: an expiry is compared with the clock in nanoseconds. Redis compares
  milliseconds, so a key stays readable up to the end of its expiry millisecond,
  which the model cuts off at the expiry instant itself.
- `uuid.New()` randomness: the session id is a parameter. `Set` overwrites, so a
  colliding id replaces the old record.
- The wall clock: one instant per request, with no clock drift within a request.
- `os.Getenv("JWT_SECRET")` is read on each request; the model fixes the secret
  when the configuration is built.
- `FindUserByEmail`: every lookup error, including a database failure, gives the 404.
  The model has only the "absent" case.
- `ShouldBindJSON`: the binding rules of `models.UserToAuth` are not part of this
  model. A bind is either the credentials or an error text.
- `c.Next()` is a flag; the protected handler it runs is not modelled.
- `cmd/main.go` (wiring, environment, database, Redis and Pusher construction,
  routing), `handlers/handler_user.go`, `handlers/handler_pusher.go` and
  `handlers/hander_health.go` are out of scope.
- Concurrency between requests: each request is one sequential transition.
