/**
 * The JSON Web Tokens that handlers/handler_auth.go issues and checks
 * (RFC 7519, signed with HS256 as section 3.2 of RFC 7518 defines it), with
 * the MAC left abstract: a token records the claims and the key it was
 * signed with, and verification recomputes nothing but compares keys.
 * Times are Go `time.Time` values in nanoseconds.
 */
module Tokens {
  import opened Wrappers
  import opened Uuids

  const SECOND: int := 1_000_000_000
  const MINUTE: int := 60 * SECOND

  /** The HMAC secret, `[]byte(os.Getenv("JWT_SECRET"))`. */
  type Key = string

  /**
   * `jwt.NewNumericDate`: the time truncated to a whole second (the
   * library's default `TimePrecision`), as an RFC 7519 NumericDate holds it.
   */
  function NumericDate(t: int): (d: int)
    ensures d <= t < d + SECOND
    ensures d % SECOND == 0
  {
    t / SECOND * SECOND
  }

  /** Truncation commutes with adding a whole number of seconds. */
  lemma NumericDateShift(t: int, k: int)
    ensures NumericDate(t + k * SECOND) == NumericDate(t) + k * SECOND
  {
    var d := NumericDate(t) + k * SECOND;
    var e := NumericDate(t + k * SECOND);
    assert e % SECOND == 0 && d % SECOND == 0;
    assert d <= t + k * SECOND < d + SECOND;
    assert e == e / SECOND * SECOND && d == d / SECOND * SECOND;
  }

  /**
   * The handler's `Claims`: the e-mail, the user id and the registered
   * claims `exp`, `iat` and `nbf` (each possibly absent).
   */
  datatype Claims = Claims(
    email: string,
    userId: Uuid,
    expiresAt: Option<int>,
    issuedAt: Option<int>,
    notBefore: Option<int>)

  /**
   * A token string: `Signed` stands for the compact serialisation HS256
   * produces for `claims` under `key` (three base64url segments joined by
   * '.'); `Plain` for any other text.
   */
  datatype Token = Signed(claims: Claims, key: Key) | Plain(text: string)

  /** `token.SignedString(key)` for a token made of `claims`. */
  function Sign(claims: Claims, key: Key): Token {
    Signed(claims, key)
  }

  /**
   * The time checks of `jwt.ParseWithClaims` with no leeway: `exp`, when
   * present, must lie after `now` (section 4.1.4 of RFC 7519) and `nbf`,
   * when present, not after `now` (section 4.1.5). `iat` is not checked.
   */
  predicate InValidityWindow(claims: Claims, now: int) {
    && (claims.expiresAt.Some? ==> now < claims.expiresAt.value)
    && (claims.notBefore.Some? ==> claims.notBefore.value <= now)
  }

  /**
   * `jwt.ParseWithClaims(token, &Claims{}, keyFunc)` followed by the check
   * of `token.Valid`: the claims when the signature matches `key` and the
   * time checks pass, nothing otherwise.
   */
  function Verify(token: Token, key: Key, now: int): (r: Option<Claims>)
    ensures r.Some? ==> token.Signed? && token.key == key && r.value == token.claims
  {
    match token
    case Plain(_) => None
    case Signed(claims, signedWith) =>
      if signedWith == key && InValidityWindow(claims, now) then Some(claims) else None
  }

  /** A token verifies under its own key exactly inside its window, yielding the signed claims. */
  lemma VerifySignedToken(claims: Claims, key: Key, now: int)
    ensures Verify(Sign(claims, key), key, now) == if InValidityWindow(claims, now) then Some(claims) else None
  {
  }

  /** A token never verifies under a key other than the one it was signed with. */
  lemma VerifyRejectsOtherKey(claims: Claims, key: Key, other: Key, now: int)
    requires other != key
    ensures Verify(Sign(claims, key), other, now) == None
  {
  }
}
