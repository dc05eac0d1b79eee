/**
 * The credential validator of utils/validation.go: checks on the shape of a
 * sign-in request's e-mail address and password.
 */
module Validation {
  import opened Wrappers

  /** The credentials of a sign-in request (the e-mail and password of `models.UserToAuth`). */
  datatype UserToAuth = UserToAuth(email: string, password: string)

  /**
   * The verdict of one check. `err` is `Some(text)` when the check returned a
   * non-nil `error` whose `Error()` text is `text`. The constructor is the
   * source's `NewValidationResult`.
   */
  datatype ValidationResult = NewValidationResult(isValid: bool, err: Option<string>)

  const EMAIL_REQUIRED := "email is required"
  const EMAIL_NOT_VALID := "email is not valid"
  const PASSWORD_TOO_SHORT := "password must be at least 6 characters"

  /** The least byte length, as Go's `len` counts it, of a password without an error. */
  const MIN_PASSWORD_BYTES := 6

  // ---------------------------------------------------------------------
  // The e-mail pattern `[a-zA-Z0-9._%+-]+@[a-zA-Z0-9.-]+\.[a-zA-Z]{2,}$`
  // ---------------------------------------------------------------------

  predicate IsLetter(ch: char) {
    'a' <= ch <= 'z' || 'A' <= ch <= 'Z'
  }

  predicate IsDigit(ch: char) {
    '0' <= ch <= '9'
  }

  /** The class `[a-zA-Z0-9._%+-]` of the local part. */
  predicate IsLocalChar(ch: char) {
    IsLetter(ch) || IsDigit(ch) || ch == '.' || ch == '_' || ch == '%' || ch == '+' || ch == '-'
  }

  /** The class `[a-zA-Z0-9.-]` of the domain part. */
  predicate IsDomainChar(ch: char) {
    IsLetter(ch) || IsDigit(ch) || ch == '.' || ch == '-'
  }

  predicate AllChars(s: string, p: char -> bool) {
    forall i :: 0 <= i < |s| ==> p(s[i])
  }

  /**
   * `t` is a whole match of `L+ '@' D+ '.' A{2,}` with its '@' at index `at`
   * and the '.' before the top-level domain at index `dot`.
   */
  ghost predicate SplitsAt(t: string, at: int, dot: int) {
    && 0 < at && at + 1 < dot && dot + 2 < |t|
    && t[at] == '@' && t[dot] == '.'
    && AllChars(t[..at], IsLocalChar)
    && AllChars(t[at + 1..dot], IsDomainChar)
    && AllChars(t[dot + 1..], IsLetter)
  }

  /**
   * What `emailRegex.MatchString(s)` decides. The pattern has `$` (end of
   * text) but no `^`, and MatchString looks for a match anywhere, so the
   * pattern accepts `s` exactly when some suffix of `s` is a whole match.
   */
  ghost predicate EmailPatternMatches(s: string) {
    exists i, at, dot :: 0 <= i <= |s| && SplitsAt(s[i..], at, dot)
  }

  /** The length of the longest suffix of `s` whose characters all satisfy `p`. */
  function TrailingRun(s: string, p: char -> bool): (n: nat)
    ensures n <= |s|
    ensures AllChars(s[|s| - n..], p)
    ensures n < |s| ==> !p(s[|s| - n - 1])
  {
    if s == [] || !p(s[|s| - 1]) then 0
    else
      var n := TrailingRun(s[..|s| - 1], p) + 1;
      assert s[..|s| - 1][|s| - n..] == s[|s| - n..|s| - 1];
      assert s[|s| - n..] == s[|s| - n..|s| - 1] + [s[|s| - 1]];
      n
  }

  /** A suffix of exactly `n` characters satisfying `p`, preceded by one that does not, is the longest. */
  lemma TrailingRunIs(s: string, p: char -> bool, n: nat)
    requires n <= |s| && AllChars(s[|s| - n..], p)
    requires n < |s| ==> !p(s[|s| - n - 1])
    ensures TrailingRun(s, p) == n
  {
  }

  /**
   * The pattern read as character classes over the end of the input: the
   * trailing letters are the top-level domain (at least two), a '.' comes
   * before them, before that the longest run of domain characters (at least
   * one), then '@' and one local-part character.
   */
  predicate MatchesEmailPattern(s: string) {
    var tld := TrailingRun(s, IsLetter);
    && 2 <= tld < |s| && s[|s| - tld - 1] == '.'
    && var head := s[..|s| - tld - 1];
       var dom := TrailingRun(head, IsDomainChar);
       && 1 <= dom && dom + 2 <= |head|
       && head[|head| - dom - 1] == '@'
       && IsLocalChar(head[|head| - dom - 2])
  }

  /** A character-class match yields a suffix that the regular expression matches whole. */
  lemma MatchesEmailPatternSound(s: string)
    requires MatchesEmailPattern(s)
    ensures EmailPatternMatches(s)
  {
    var tld := TrailingRun(s, IsLetter);
    var head := s[..|s| - tld - 1];
    var dom := TrailingRun(head, IsDomainChar);
    var i := |head| - dom - 2;
    var t := s[i..];
    assert |t| == dom + 3 + tld;
    assert t[0] == head[i] && t[1] == '@' && t[dom + 2] == '.';
    assert AllChars(t[..1], IsLocalChar) by {
      assert t[..1] == [head[i]];
    }
    assert AllChars(t[2..dom + 2], IsDomainChar) by {
      assert t[2..dom + 2] == head[|head| - dom..];
    }
    assert AllChars(t[dom + 3..], IsLetter) by {
      assert t[dom + 3..] == s[|s| - tld..];
    }
    assert SplitsAt(t, 1, dom + 2);
  }

  /** Every suffix the regular expression matches whole is found by the character-class reading. */
  lemma MatchesEmailPatternComplete(s: string, i: int, at: int, dot: int)
    requires 0 <= i <= |s| && SplitsAt(s[i..], at, dot)
    ensures MatchesEmailPattern(s)
  {
    var t := s[i..];
    var tld := |t| - dot - 1;
    assert s[|s| - tld..] == t[dot + 1..];
    assert s[|s| - tld - 1] == t[dot];
    TrailingRunIs(s, IsLetter, tld);
    var head := s[..|s| - tld - 1];
    assert head == s[..i + dot];
    var dom := dot - at - 1;
    assert head[|head| - dom..] == t[at + 1..dot];
    assert head[|head| - dom - 1] == t[at];
    TrailingRunIs(head, IsDomainChar, dom);
    assert head[|head| - dom - 2] == t[..at][at - 1];
  }

  /** The character-class reading decides exactly the language of the regular expression. */
  lemma MatchesEmailPatternCorrect(s: string)
    ensures MatchesEmailPattern(s) <==> EmailPatternMatches(s)
  {
    if MatchesEmailPattern(s) {
      MatchesEmailPatternSound(s);
    }
    if EmailPatternMatches(s) {
      var i, at, dot :| 0 <= i <= |s| && SplitsAt(s[i..], at, dot);
      MatchesEmailPatternComplete(s, i, at, dot);
    }
  }

  // ---------------------------------------------------------------------
  // Byte length of a Go string
  // ---------------------------------------------------------------------

  /** The number of bytes UTF-8 uses for `ch`. */
  function Utf8Width(ch: char): nat {
    if ch as int < 0x80 then 1
    else if ch as int < 0x800 then 2
    else if ch as int < 0x1_0000 then 3
    else 4
  }

  /** Go's `len` of a string: the length of its UTF-8 encoding in bytes. */
  function Utf8Length(s: string): nat {
    if s == [] then 0 else Utf8Length(s[..|s| - 1]) + Utf8Width(s[|s| - 1])
  }

  /** A string has at least one and at most four bytes per character, and exactly one when it is ASCII. */
  lemma {:induction false} Utf8LengthBounds(s: string)
    ensures |s| <= Utf8Length(s) <= 4 * |s|
    ensures (forall i :: 0 <= i < |s| ==> s[i] as int < 0x80) ==> Utf8Length(s) == |s|
  {
    if s != [] {
      Utf8LengthBounds(s[..|s| - 1]);
    }
  }

  // ---------------------------------------------------------------------
  // The checks
  // ---------------------------------------------------------------------

  /** utils/validation.go `ValidateEmail`. */
  function ValidateEmail(email: string): (r: ValidationResult)
    ensures r.isValid <==> r.err.None?
    ensures r.isValid <==> email != "" && EmailPatternMatches(email)
    ensures email == "" ==> r.err == Some(EMAIL_REQUIRED)
    ensures email != "" && !EmailPatternMatches(email) ==> r.err == Some(EMAIL_NOT_VALID)
  {
    MatchesEmailPatternCorrect(email);
    if email == "" then NewValidationResult(false, Some(EMAIL_REQUIRED))
    else if !MatchesEmailPattern(email) then NewValidationResult(false, Some(EMAIL_NOT_VALID))
    else NewValidationResult(true, None)
  }

  /**
   * utils/validation.go `ValidatePassword`. As written, the verdict is valid
   * even for a short password; only the error is set.
   */
  function ValidatePassword(password: string): (r: ValidationResult)
    ensures r.isValid
    ensures r.err.Some? <==> Utf8Length(password) < MIN_PASSWORD_BYTES
    ensures r.err.Some? ==> r.err.value == PASSWORD_TOO_SHORT
  {
    if Utf8Length(password) < MIN_PASSWORD_BYTES then NewValidationResult(true, Some(PASSWORD_TOO_SHORT))
    else NewValidationResult(true, None)
  }

  /**
   * `v.Error.Error()`: the text of the verdict's error. It is read only from
   * failing verdicts, which always carry an error; a nil error (a panic in
   * Go) never arises there.
   */
  function ErrorText(r: ValidationResult): string {
    match r.err
    case Some(text) => text
    case None => ""
  }

  /** Every failing verdict in `rs` carries an error (calling `Error()` on it does not panic). */
  predicate FailuresCarryErrors(rs: seq<ValidationResult>) {
    forall i :: 0 <= i < |rs| && !rs[i].isValid ==> rs[i].err.Some?
  }

  /** The `Error()` texts of the failing verdicts of `rs`, in the order of `rs`. */
  function FailureTexts(rs: seq<ValidationResult>): (texts: seq<string>)
    ensures |texts| <= |rs|
  {
    if rs == [] then []
    else (if rs[0].isValid then [] else [ErrorText(rs[0])]) + FailureTexts(rs[1..])
  }

  /**
   * utils/validation.go `ValidateUserToAuth`: the texts of the failing
   * checks, e-mail first. The password check never fails, because its
   * verdict is always valid.
   */
  method ValidateUserToAuth(userToAuth: UserToAuth) returns (errors: seq<string>)
    ensures errors == [] <==> ValidateEmail(userToAuth.email).isValid
    ensures errors != [] ==> errors == [ValidateEmail(userToAuth.email).err.value]
  {
    errors := [];
    var v := ValidateEmail(userToAuth.email);
    if !v.isValid {
      errors := errors + [ErrorText(v)];
    }
    var w := ValidatePassword(userToAuth.password);
    if !w.isValid {
      errors := errors + [ErrorText(w)];
    }
  }

  /**
   * What `ValidateUserToAuth` returns is the list of the `Error()` texts of
   * its two checks that fail, the e-mail check first; calling `Error()` is
   * safe, as every failing verdict carries an error.
   */
  lemma ValidationErrorsInOrder(userToAuth: UserToAuth)
    ensures var checks := [ValidateEmail(userToAuth.email), ValidatePassword(userToAuth.password)];
            && FailuresCarryErrors(checks)
            && FailureTexts(checks) == if checks[0].isValid then [] else [ErrorText(checks[0])]
  {
    var checks := [ValidateEmail(userToAuth.email), ValidatePassword(userToAuth.password)];
    assert checks[1..] == [checks[1]];
    assert FailureTexts([checks[1]]) == [];
  }

  /**
   * Whatever meets `ValidateUserToAuth`'s postcondition is exactly the list
   * of the `Error()` texts of the failing checks, in the source's order.
   */
  lemma ValidateUserToAuthCollectsFailures(userToAuth: UserToAuth, errors: seq<string>)
    requires errors == [] <==> ValidateEmail(userToAuth.email).isValid
    requires errors != [] ==> errors == [ValidateEmail(userToAuth.email).err.value]
    ensures errors == FailureTexts([ValidateEmail(userToAuth.email), ValidatePassword(userToAuth.password)])
  {
    ValidationErrorsInOrder(userToAuth);
  }

  // ---------------------------------------------------------------------
  // Consequences and examples
  // ---------------------------------------------------------------------

  /** Whatever the password, it contributes nothing to the validation errors. */
  lemma PasswordNeverFailsValidation(password: string)
    ensures FailureTexts([ValidatePassword(password)]) == []
  {
  }

  /** A password of six or more characters never gets the length error; a single character (at most four bytes) always gets it. */
  lemma PasswordByteLength(password: string)
    ensures |password| >= MIN_PASSWORD_BYTES ==> ValidatePassword(password).err.None?
    ensures 4 * |password| < MIN_PASSWORD_BYTES ==> ValidatePassword(password).err.Some?
  {
    Utf8LengthBounds(password);
  }

  /** Three two-byte characters reach six bytes: no error, although the password has three characters. */
  lemma ShortPasswordOfWideCharacters()
    ensures ValidatePassword("ééé") == NewValidationResult(true, None)
    ensures ValidatePassword("abc") == NewValidationResult(true, Some(PASSWORD_TOO_SHORT))
  {
    assert "ééé"[..2] == "éé" && "éé"[..1] == "é" && "é"[..0] == "";
    assert "abc"[..2] == "ab" && "ab"[..1] == "a" && "a"[..0] == "";
  }

  /** "not-an-email" ends in letters preceded by '-', not '.', so it fails the pattern. */
  lemma NotAnEmailRejected()
    ensures ValidateEmail("not-an-email") == NewValidationResult(false, Some(EMAIL_NOT_VALID))
    ensures ValidateEmail("") == NewValidationResult(false, Some(EMAIL_REQUIRED))
  {
    var s := "not-an-email";
    TrailingRunIs(s, IsLetter, 5);
  }

  /** Without a start anchor, any text before a well-formed address is accepted. */
  lemma JunkBeforeAddressAccepted(prefix: string)
    ensures ValidateEmail(prefix + "a@b.com").isValid
  {
    var s := prefix + "a@b.com";
    var t := s[|prefix|..];
    assert t == "a@b.com";
    assert SplitsAt(t, 1, 3);
  }
}
