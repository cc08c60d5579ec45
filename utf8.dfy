/**
 * UTF-8 as `unescape(encodeURIComponent(s))` produces it and
 * `decodeURIComponent(escape(b))` checks it (RFC 3629): overlong forms,
 * surrogates and code points above U+10FFFF are rejected.
 */
module Utf8 {
  import opened Wrappers

  type Byte = x: int | 0 <= x < 256

  predicate IsContinuation(b: Byte) {
    0x80 <= b < 0xC0
  }

  /** The bytes of one scalar value: 1 to 4 bytes by range. */
  function EncodeChar(c: char): (bytes: seq<Byte>)
    ensures 1 <= |bytes| <= 4
  {
    var cp := c as int;
    var q1 := cp / 64;
    var q2 := q1 / 64;
    var q3 := q2 / 64;
    if cp < 0x80 then [cp]
    else if cp < 0x800 then [0xC0 + q1, 0x80 + cp % 64]
    else if cp < 0x10000 then [0xE0 + q2, 0x80 + q1 % 64, 0x80 + cp % 64]
    else [0xF0 + q3, 0x80 + q2 % 64, 0x80 + q1 % 64, 0x80 + cp % 64]
  }

  function Encode(s: string): seq<Byte>
    decreases |s|
  {
    if |s| == 0 then [] else EncodeChar(s[0]) + Encode(s[1..])
  }

  /** The scalar value the leading bytes encode and how many bytes it took, or None for ill-formed UTF-8. */
  function DecodeFirst(bytes: seq<Byte>): (r: Option<(char, nat)>)
    requires |bytes| > 0
    ensures r.Some? ==> 1 <= r.value.1 <= |bytes|
  {
    var b0 := bytes[0] as int;
    if b0 < 0x80 then Some((b0 as char, 1))
    else if 0xC2 <= b0 <= 0xDF then
      if |bytes| >= 2 && IsContinuation(bytes[1]) then
        Some((((b0 - 0xC0) * 64 + (bytes[1] as int - 0x80)) as char, 2))
      else None
    else if 0xE0 <= b0 <= 0xEF then
      if |bytes| >= 3 && IsContinuation(bytes[1]) && IsContinuation(bytes[2]) then
        var cp := (b0 - 0xE0) * 4096 + (bytes[1] as int - 0x80) * 64 + (bytes[2] as int - 0x80);
        if cp < 0x800 || (0xD800 <= cp <= 0xDFFF) then None else Some((cp as char, 3))
      else None
    else if 0xF0 <= b0 <= 0xF4 then
      if |bytes| >= 4 && IsContinuation(bytes[1]) && IsContinuation(bytes[2]) && IsContinuation(bytes[3]) then
        var cp := (b0 - 0xF0) * 262144 + (bytes[1] as int - 0x80) * 4096 + (bytes[2] as int - 0x80) * 64 + (bytes[3] as int - 0x80);
        if cp < 0x10000 || cp > 0x10FFFF then None else Some((cp as char, 4))
      else None
    else None
  }

  function Decode(bytes: seq<Byte>): Option<string>
    decreases |bytes|
  {
    if |bytes| == 0 then Some([])
    else match DecodeFirst(bytes)
      case None => None
      case Some((c, n)) =>
        match Decode(bytes[n..])
        case None => None
        case Some(rest) => Some([c] + rest)
  }

  /** The first scalar value of an encoding decodes back, whatever follows it. */
  lemma DecodeFirstEncodeChar(c: char, rest: seq<Byte>)
    ensures DecodeFirst(EncodeChar(c) + rest) == Some((c, |EncodeChar(c)|))
  {
    var cp := c as int;
    if cp < 0x80 {
    } else if cp < 0x800 {
      DecodeTwo(c, rest);
    } else if cp < 0x10000 {
      DecodeThree(c, rest);
    } else {
      DecodeFour(c, rest);
    }
  }

  lemma DecodeTwo(c: char, rest: seq<Byte>)
    requires 0x80 <= c as int < 0x800
    ensures DecodeFirst(EncodeChar(c) + rest) == Some((c, 2))
  {
    var cp := c as int;
    var b := EncodeChar(c) + rest;
    assert b[0] as int == 0xC0 + cp / 64 && b[1] as int == 0x80 + cp % 64;
    assert (b[0] as int - 0xC0) * 64 + (b[1] as int - 0x80) == cp;
  }

  lemma DecodeThree(c: char, rest: seq<Byte>)
    requires 0x800 <= c as int < 0x10000
    ensures DecodeFirst(EncodeChar(c) + rest) == Some((c, 3))
  {
    var cp := c as int;
    var q1 := cp / 64;
    var q2 := q1 / 64;
    assert cp == q1 * 64 + cp % 64;
    assert q1 == q2 * 64 + q1 % 64;
    var b := EncodeChar(c) + rest;
    assert b[0] as int == 0xE0 + q2 && b[1] as int == 0x80 + q1 % 64 && b[2] as int == 0x80 + cp % 64;
    assert (b[0] as int - 0xE0) * 4096 + (b[1] as int - 0x80) * 64 + (b[2] as int - 0x80) == cp;
  }

  lemma DecodeFour(c: char, rest: seq<Byte>)
    requires 0x10000 <= c as int
    ensures DecodeFirst(EncodeChar(c) + rest) == Some((c, 4))
  {
    var cp := c as int;
    var q1 := cp / 64;
    var q2 := q1 / 64;
    var q3 := q2 / 64;
    assert cp == q1 * 64 + cp % 64;
    assert q1 == q2 * 64 + q1 % 64;
    assert q2 == q3 * 64 + q2 % 64;
    var b := EncodeChar(c) + rest;
    assert b[0] as int == 0xF0 + q3 && b[1] as int == 0x80 + q2 % 64;
    assert b[2] as int == 0x80 + q1 % 64 && b[3] as int == 0x80 + cp % 64;
    assert (b[0] as int - 0xF0) * 262144 + (b[1] as int - 0x80) * 4096 + (b[2] as int - 0x80) * 64 + (b[3] as int - 0x80) == cp;
  }

  /** Decoding the encoding of any string gives the string back. */
  lemma {:induction false} DecodeEncode(s: string)
    ensures Decode(Encode(s)) == Some(s)
    decreases |s|
  {
    if |s| > 0 {
      var head := EncodeChar(s[0]);
      DecodeFirstEncodeChar(s[0], Encode(s[1..]));
      assert Encode(s)[|head|..] == Encode(s[1..]);
      DecodeEncode(s[1..]);
      assert [s[0]] + s[1..] == s;
    }
  }

  /** A lone continuation byte is not UTF-8. */
  lemma RejectsStrayContinuation(b: Byte, rest: seq<Byte>)
    requires IsContinuation(b)
    ensures Decode([b] + rest) == None
  {
  }

  /** The overlong two-byte form of '/' (0xC0 0xAF) is not UTF-8. */
  lemma RejectsOverlong()
    ensures Decode([0xC0, 0xAF]) == None
  {
  }

  /** An encoded surrogate (0xED 0xA0 0x80, U+D800) is not UTF-8. */
  lemma RejectsSurrogate()
    ensures Decode([0xED, 0xA0, 0x80]) == None
  {
  }
}
