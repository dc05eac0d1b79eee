/**
 * The `uuid.UUID` of github.com/google/uuid, as far as the session record
 * needs it: the 128-bit value, its text form (`String`, which `MarshalText`
 * and so `json.Marshal` use) and `Parse` (which `UnmarshalText` and so
 * `json.Unmarshal` use).
 */
module Uuids {
  import opened Wrappers

  /** `uuid.UUID`: sixteen bytes, read as one 128-bit number, most significant byte first. */
  newtype Uuid = n: int | 0 <= n < 0x1_0000_0000_0000_0000_0000_0000_0000_0000

  /** `uuid.Nil`, the zero value of a `uuid.UUID` field left unset. */
  const NIL_UUID: Uuid := 0

  function Pow16(k: nat): nat {
    if k == 0 then 1 else 16 * Pow16(k - 1)
  }

  lemma {:induction false} Pow16Add(a: nat, b: nat)
    ensures Pow16(a + b) == Pow16(a) * Pow16(b)
  {
    if a > 0 {
      Pow16Add(a - 1, b);
    }
  }

  /** Thirty-two hex digits span exactly the 128 bits of a UUID. */
  lemma Pow16Uuid()
    ensures Pow16(32) == 0x1_0000_0000_0000_0000_0000_0000_0000_0000
  {
    assert Pow16(4) == 0x1_0000 by {
      assert Pow16(1) == 16;
      assert Pow16(2) == 256;
      assert Pow16(3) == 4096;
    }
    Pow16Add(4, 4);
    Pow16Add(8, 8);
    Pow16Add(16, 16);
  }

  // ---------------------------------------------------------------------
  // Hex digits
  // ---------------------------------------------------------------------

  /** A character the library's `xvalues` table maps to a digit: 0-9, a-f, A-F. */
  predicate IsHexDigit(c: char) {
    ('0' <= c <= '9') || ('a' <= c <= 'f') || ('A' <= c <= 'F')
  }

  predicate AllHex(s: string) {
    forall i :: 0 <= i < |s| ==> IsHexDigit(s[i])
  }

  function HexDigitValue(c: char): (d: nat)
    requires IsHexDigit(c)
    ensures d < 16
  {
    if c <= '9' then c as int - '0' as int
    else if c <= 'F' then c as int - 'A' as int + 10
    else c as int - 'a' as int + 10
  }

  /** The lower-case digit `String` writes for `d`. */
  function HexChar(d: nat): (c: char)
    requires d < 16
    ensures IsHexDigit(c) && HexDigitValue(c) == d
  {
    if d < 10 then ('0' as int + d) as char else ('a' as int + d - 10) as char
  }

  /** The number a string of hex digits spells, most significant digit first. */
  function HexValue(s: string): nat
    requires AllHex(s)
  {
    if s == [] then 0 else HexValue(s[..|s| - 1]) * 16 + HexDigitValue(s[|s| - 1])
  }

  /** The `k` lowest hex digits of `n`, most significant first, as `hex.Encode` writes them. */
  function HexDigits(n: nat, k: nat): (s: string)
    ensures |s| == k && AllHex(s)
  {
    if k == 0 then [] else HexDigits(n / 16, k - 1) + [HexChar(n % 16)]
  }

  /** `k` hex digits spell a number below `16^k`. */
  lemma {:induction false} HexValueBound(s: string)
    requires AllHex(s)
    ensures HexValue(s) < Pow16(|s|)
  {
    if s != [] {
      HexValueBound(s[..|s| - 1]);
    }
  }

  /** Reading back the `k` digits of a number below `16^k` gives the number. */
  lemma {:induction false} HexValueOfDigits(n: nat, k: nat)
    requires n < Pow16(k)
    ensures HexValue(HexDigits(n, k)) == n
  {
    if k > 0 {
      var s := HexDigits(n, k);
      assert s[..|s| - 1] == HexDigits(n / 16, k - 1);
      HexValueOfDigits(n / 16, k - 1);
    }
  }

  // ---------------------------------------------------------------------
  // Text form and parsing
  // ---------------------------------------------------------------------

  /** Thirty-two digits in groups of 8-4-4-4-12, joined by dashes. */
  function Hyphenate(h: string): string
    requires |h| == 32
  {
    h[..8] + "-" + h[8..12] + "-" + h[12..16] + "-" + h[16..20] + "-" + h[20..]
  }

  /** The dashes stand at 8, 13, 18 and 23, and dropping them gives back the digits. */
  lemma HyphenateShape(h: string)
    requires |h| == 32
    ensures var s := Hyphenate(h);
            && |s| == 36 && s[8] == '-' && s[13] == '-' && s[18] == '-' && s[23] == '-'
            && s[..8] + s[9..13] + s[14..18] + s[19..23] + s[24..] == h
  {
    var s := Hyphenate(h);
    assert s[..8] == h[..8];
    assert s[9..13] == h[8..12];
    assert s[14..18] == h[12..16];
    assert s[19..23] == h[16..20];
    assert s[24..] == h[20..];
    assert h[..8] + h[8..12] + h[12..16] + h[16..20] + h[20..] == h;
  }

  /** `UUID.String`: 32 lower-case hex digits in groups of 8-4-4-4-12. */
  function UuidString(u: Uuid): string {
    Hyphenate(HexDigits(u as nat, 32))
  }

  predicate IsAscii(s: string) {
    forall i :: 0 <= i < |s| ==> s[i] as int < 0x80
  }

  function ToLowerAscii(c: char): char {
    if 'A' <= c <= 'Z' then (c as int + 32) as char else c
  }

  /** `strings.EqualFold` on ASCII text: equal up to the case of letters. */
  predicate EqualFoldAscii(a: string, b: string) {
    |a| == |b| && forall i :: 0 <= i < |a| ==> ToLowerAscii(a[i]) == ToLowerAscii(b[i])
  }

  /** Thirty-two hex digits as a UUID. */
  function ParseHex(s: string): (r: Option<Uuid>)
    requires |s| == 32
    ensures r.Some? <==> AllHex(s)
  {
    if AllHex(s) then
      HexValueBound(s);
      Pow16Uuid();
      Some(HexValue(s) as Uuid)
    else None
  }

  /** The 8-4-4-4-12 form: dashes at 8, 13, 18 and 23, hex digits everywhere else. */
  function ParseHyphenated(s: string): Option<Uuid>
    requires |s| == 36
  {
    if s[8] == '-' && s[13] == '-' && s[18] == '-' && s[23] == '-'
    then ParseHex(s[..8] + s[9..13] + s[14..18] + s[19..23] + s[24..])
    else None
  }

  /**
   * `uuid.Parse`, which by the length of the text in bytes takes the
   * 8-4-4-4-12 form, that form behind a "urn:uuid:" prefix in any case,
   * that form between two characters (which are not examined), or 32 bare
   * hex digits.
   *
   * Every accepted text is ASCII: each of its bytes is checked to be a hex
   * digit, a dash or a prefix letter, except the first and last byte of the
   * 38-byte form, and a multi-byte character there would place one of its
   * bytes at a checked position. So a text that is not ASCII is refused, and
   * for the rest the byte length is the character count.
   */
  function ParseUuid(s: string): Option<Uuid> {
    if !IsAscii(s) then None
    else if |s| == 36 then ParseHyphenated(s)
    else if |s| == 36 + 9 then
      if EqualFoldAscii(s[..9], "urn:uuid:") then ParseHyphenated(s[9..]) else None
    else if |s| == 36 + 2 then ParseHyphenated(s[1..37])
    else if |s| == 32 then ParseHex(s)
    else None
  }

  /** The hyphenated text of a UUID parses in the 8-4-4-4-12 form to the UUID itself. */
  lemma ParseHyphenatedString(u: Uuid)
    ensures |UuidString(u)| == 36 && IsAscii(UuidString(u))
    ensures ParseHyphenated(UuidString(u)) == Some(u)
  {
    var h := HexDigits(u as nat, 32);
    HyphenateShape(h);
    assert IsAscii(UuidString(u)) by {
      var s := UuidString(u);
      forall i | 0 <= i < |s|
        ensures s[i] as int < 0x80
      {
        assert s[i] == '-' || s[i] in h;
      }
    }
    Pow16Uuid();
    HexValueOfDigits(u as nat, 32);
  }

  /** What `json.Marshal` writes for a UUID, `json.Unmarshal` reads back as the same UUID. */
  lemma ParseUuidString(u: Uuid)
    ensures ParseUuid(UuidString(u)) == Some(u)
  {
    ParseHyphenatedString(u);
  }

  /** The 38-byte form does not examine its first and last character: any two ASCII characters will do, not only braces. */
  lemma ParseUuidIgnoresWrapper(u: Uuid, open: char, close: char)
    requires open as int < 0x80 && close as int < 0x80
    ensures ParseUuid([open] + UuidString(u) + [close]) == Some(u)
  {
    ParseHyphenatedString(u);
    var s := [open] + UuidString(u) + [close];
    assert s[1..37] == UuidString(u);
  }
}
