/** UUIDs as the repository stores and prints them: sixteen bytes, and their hyphenated text. */
module Uuid {
  import opened Prelude

  type Byte = x: int | 0 <= x < 256

  type Uuid = b: seq<Byte> | |b| == 16 witness seq(16, i => 0)

  // ---- encoding/hex ----

  function HexDigit(n: int): char
    requires 0 <= n < 16
  {
    if n < 10 then ('0' as int + n) as char else ('a' as int + (n - 10)) as char
  }

  /** The value of a hexadecimal digit; the decoder takes either case. */
  function HexValue(c: char): Option<int> {
    if '0' <= c <= '9' then Some(c as int - '0' as int)
    else if 'a' <= c <= 'f' then Some(c as int - 'a' as int + 10)
    else if 'A' <= c <= 'F' then Some(c as int - 'A' as int + 10)
    else None
  }

  function EncodeHex(b: seq<Byte>): (h: string)
    ensures |h| == 2 * |b|
  {
    if b == [] then ""
    else [HexDigit(b[0] / 16), HexDigit(b[0] % 16)] + EncodeHex(b[1..])
  }

  function DecodeHex(h: string): (r: Option<seq<Byte>>)
    ensures r.Some? ==> |h| == 2 * |r.value|
  {
    if h == "" then Some([])
    else if |h| == 1 then None
    else
      var hi, lo, rest := HexValue(h[0]), HexValue(h[1]), DecodeHex(h[2..]);
      if hi.Some? && lo.Some? && rest.Some? then Some([HexByte(hi.value, lo.value)] + rest.value) else None
  }

  function HexByte(hi: int, lo: int): Byte {
    if 0 <= hi < 16 && 0 <= lo < 16 then 16 * hi + lo else 0
  }

  lemma {:induction false} DecodeEncode(b: seq<Byte>)
    ensures DecodeHex(EncodeHex(b)) == Some(b)
  {
    if b != [] {
      var h := EncodeHex(b);
      assert h[0] == HexDigit(b[0] / 16) && h[1] == HexDigit(b[0] % 16) && h[2..] == EncodeHex(b[1..]);
      DecodeEncode(b[1..]);
      assert b == [b[0]] + b[1..];
    }
  }

  predicate LowerHex(h: string) {
    forall i :: 0 <= i < |h| ==> '0' <= h[i] <= '9' || 'a' <= h[i] <= 'f'
  }

  lemma DigitsOfByte(hi: char, lo: char)
    requires LowerHex([hi, lo])
    ensures HexValue(hi).Some? && HexValue(lo).Some?
    ensures var b := HexByte(HexValue(hi).value, HexValue(lo).value);
            HexDigit(b / 16) == hi && HexDigit(b % 16) == lo
  {
    assert [hi, lo][0] == hi && [hi, lo][1] == lo;
  }

  lemma {:induction false} EncodeDecode(h: string)
    requires LowerHex(h) && |h| % 2 == 0
    ensures DecodeHex(h).Some? && EncodeHex(DecodeHex(h).value) == h
  {
    hide HexValue, HexDigit, HexByte;
    if h != "" {
      EncodeDecode(h[2..]);
      DigitsOfByte(h[0], h[1]);
      assert h == [h[0], h[1]] + h[2..];
      var bytes, rest := DecodeHex(h).value, DecodeHex(h[2..]).value;
      assert bytes[1..] == rest;
    }
  }

  lemma {:induction false} EncodeIsLower(b: seq<Byte>)
    ensures LowerHex(EncodeHex(b))
  {
    if b != [] {
      EncodeIsLower(b[1..]);
    }
  }

  const HEX_DIGITS := "0123456789abcdef"

  /** Each byte is two digits, the high half first. */
  lemma {:induction false} HexText(b: seq<Byte>, i: nat)
    requires i < |b|
    ensures EncodeHex(b)[2 * i] == HEX_DIGITS[b[i] / 16] && EncodeHex(b)[2 * i + 1] == HEX_DIGITS[b[i] % 16]
  {
    DigitNamed(b[0] / 16);
    DigitNamed(b[0] % 16);
    if i > 0 {
      HexText(b[1..], i - 1);
    }
  }

  lemma DigitNamed(n: int)
    requires 0 <= n < 16
    ensures |HEX_DIGITS| == 16 && HexDigit(n) == HEX_DIGITS[n]
  {
  }

  function UpperHex(c: char): char {
    if 'a' <= c <= 'f' then (c as int - 32) as char else c
  }

  /** The decoder takes upper-case digits as well. */
  lemma {:induction false} DecodeIgnoresCase(h: string)
    ensures DecodeHex(seq(|h|, i requires 0 <= i < |h| => UpperHex(h[i]))) == DecodeHex(h)
  {
    var u := seq(|h|, i requires 0 <= i < |h| => UpperHex(h[i]));
    if |h| >= 2 {
      var rest := h[2..];
      assert u[2..] == seq(|rest|, i requires 0 <= i < |rest| => UpperHex(rest[i]));
      DecodeIgnoresCase(rest);
      assert HexValue(u[0]) == HexValue(h[0]) && HexValue(u[1]) == HexValue(h[1]);
    }
  }

  // ---- the hyphenated text ----

  function UuidToString(b: Uuid): (s: string)
    ensures |s| == 36
  {
    var h := EncodeHex(b);
    h[0..8] + "-" + h[8..12] + "-" + h[12..16] + "-" + h[16..20] + "-" + h[20..32]
  }

  /** The scanner accepts 32 digits, or 36 characters whose hyphen positions it does not look at. */
  function ParseUuid(s: string): Option<Uuid> {
    if |s| == 36 then Bytes16(s[0..8] + s[9..13] + s[14..18] + s[19..23] + s[24..])
    else if |s| == 32 then Bytes16(s)
    else None
  }

  function Bytes16(h: string): Option<Uuid>
    requires |h| == 32
  {
    match DecodeHex(h)
    case None => None
    case Some(b) => Some(b)
  }

  /** The text form of section 4 of RFC 9562: five groups of lower-case digits, hyphens between. */
  predicate Canonical(s: string) {
    && |s| == 36
    && s[8] == '-' && s[13] == '-' && s[18] == '-' && s[23] == '-'
    && LowerHex(s[0..8] + s[9..13] + s[14..18] + s[19..23] + s[24..])
  }

  lemma DigitsOfText(b: Uuid)
    ensures var s := UuidToString(b);
            && s[0..8] + s[9..13] + s[14..18] + s[19..23] + s[24..] == EncodeHex(b)
            && s[8] == '-' && s[13] == '-' && s[18] == '-' && s[23] == '-'
  {
    var h, s := EncodeHex(b), UuidToString(b);
    assert s[0..8] == h[0..8];
    assert s[9..13] == h[8..12];
    assert s[14..18] == h[12..16];
    assert s[19..23] == h[16..20];
    assert s[24..] == h[20..32];
  }

  /** Printing then parsing gives the UUID back. */
  lemma ParsePrint(b: Uuid)
    ensures ParseUuid(UuidToString(b)) == Some(b)
    ensures Canonical(UuidToString(b))
  {
    DigitsOfText(b);
    DecodeEncode(b);
    EncodeIsLower(b);
  }

  /** Among canonical texts parsing then printing gives the text back. */
  lemma PrintParse(s: string)
    requires Canonical(s)
    ensures ParseUuid(s).Some? && UuidToString(ParseUuid(s).value) == s
  {
    var h := s[0..8] + s[9..13] + s[14..18] + s[19..23] + s[24..];
    EncodeDecode(h);
    assert h[0..8] == s[0..8];
    assert h[8..12] == s[9..13];
    assert h[12..16] == s[14..18];
    assert h[16..20] == s[19..23];
    assert h[20..32] == s[24..];
  }

  /** The scanner also takes the 32 digits alone, does not look at what stands for the hyphens, and takes no other length. */
  lemma ParseForms(b: Uuid, a1: char, a2: char, a3: char, a4: char, s: string)
    ensures var h := EncodeHex(b);
            && ParseUuid(h) == Some(b)
            && ParseUuid(h[0..8] + [a1] + h[8..12] + [a2] + h[12..16] + [a3] + h[16..20] + [a4] + h[20..32]) == Some(b)
    ensures |s| != 36 && |s| != 32 ==> ParseUuid(s) == None
  {
    var h := EncodeHex(b);
    DecodeEncode(b);
    var t := h[0..8] + [a1] + h[8..12] + [a2] + h[12..16] + [a3] + h[16..20] + [a4] + h[20..32];
    assert t[0..8] == h[0..8] && t[9..13] == h[8..12] && t[14..18] == h[12..16] && t[19..23] == h[16..20] && t[24..] == h[20..32];
    assert t[0..8] + t[9..13] + t[14..18] + t[19..23] + t[24..] == h;
  }

  lemma UuidToStringInjective(a: Uuid, b: Uuid)
    requires UuidToString(a) == UuidToString(b)
    ensures a == b
  {
    ParsePrint(a);
    ParsePrint(b);
  }
}
