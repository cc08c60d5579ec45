/**
 * `btoa` over a byte string (the padded alphabet of section 4 of RFC 4648)
 * and `atob`, which follows the forgiving-base64 decode of the WHATWG
 * Infra standard: ASCII whitespace is dropped, one or two trailing '=' are
 * dropped when the length is a multiple of 4, a remaining length of 1 modulo
 * 4 or a character outside the alphabet fails, and leftover bits are
 * discarded.
 */
module Base64 {
  import opened Wrappers
  import opened Utf8

  /** The alphabet character for a 6-bit value. */
  function SextetChar(v: int): (c: char)
    requires 0 <= v < 64
  {
    if v < 26 then ('A' as int + v) as char
    else if v < 52 then ('a' as int + v - 26) as char
    else if v < 62 then ('0' as int + v - 52) as char
    else if v == 62 then '+'
    else '/'
  }

  predicate InAlphabet(c: char) {
    'A' <= c <= 'Z' || 'a' <= c <= 'z' || '0' <= c <= '9' || c == '+' || c == '/'
  }

  predicate AllInAlphabet(s: string) {
    forall i :: 0 <= i < |s| ==> InAlphabet(s[i])
  }

  /** The 6-bit value of an alphabet character. */
  function SextetValue(c: char): (v: int)
    requires InAlphabet(c)
    ensures 0 <= v < 64
  {
    if 'A' <= c <= 'Z' then c as int - 'A' as int
    else if 'a' <= c <= 'z' then c as int - 'a' as int + 26
    else if '0' <= c <= '9' then c as int - '0' as int + 52
    else if c == '+' then 62
    else 63
  }

  lemma SextetRoundTrip(v: int)
    requires 0 <= v < 64
    ensures InAlphabet(SextetChar(v)) && SextetValue(SextetChar(v)) == v
  {
  }

  /** The four characters for the bytes x, y, z. */
  function Quad(x: Byte, y: Byte, z: Byte): (s: string)
    ensures |s| == 4 && AllInAlphabet(s)
  {
    SextetRoundTrip(x / 4);
    SextetRoundTrip((x % 4) * 16 + y / 16);
    SextetRoundTrip((y % 16) * 4 + z / 64);
    SextetRoundTrip(z % 64);
    [SextetChar(x / 4), SextetChar((x % 4) * 16 + y / 16),
     SextetChar((y % 16) * 4 + z / 64), SextetChar(z % 64)]
  }

  /** The characters for a final group of one or two bytes. */
  function Tail(b: seq<Byte>): (s: string)
    requires 1 <= |b| <= 2
    ensures |s| == |b| + 1 && AllInAlphabet(s)
  {
    SextetRoundTrip(b[0] / 4);
    if |b| == 1 then
      SextetRoundTrip((b[0] % 4) * 16);
      [SextetChar(b[0] / 4), SextetChar((b[0] % 4) * 16)]
    else
      SextetRoundTrip((b[0] % 4) * 16 + b[1] / 16);
      SextetRoundTrip((b[1] % 16) * 4);
      [SextetChar(b[0] / 4), SextetChar((b[0] % 4) * 16 + b[1] / 16), SextetChar((b[1] % 16) * 4)]
  }

  /** The characters of the encoding without the '=' padding. */
  function EncodeCore(b: seq<Byte>): (s: string)
    ensures |s| % 4 == (if |b| % 3 == 0 then 0 else |b| % 3 + 1)
    ensures |s| == 0 <==> |b| == 0
    ensures AllInAlphabet(s)
    decreases |b|
  {
    if |b| == 0 then ""
    else if |b| <= 2 then Tail(b)
    else
      var q, rest := Quad(b[0], b[1], b[2]), EncodeCore(b[3..]);
      AlphabetConcat(q, rest);
      GroupLength(|b|, |rest|);
      q + rest
  }

  /** One more group of three bytes adds four characters and keeps the remainder. */
  lemma GroupLength(n: nat, m: nat)
    requires n >= 3 && m % 4 == (if (n - 3) % 3 == 0 then 0 else (n - 3) % 3 + 1)
    ensures (4 + m) % 4 == (if n % 3 == 0 then 0 else n % 3 + 1)
  {
  }

  lemma AlphabetConcat(a: string, b: string)
    requires AllInAlphabet(a) && AllInAlphabet(b)
    ensures AllInAlphabet(a + b)
  {
    forall i | 0 <= i < |a + b|
      ensures InAlphabet((a + b)[i])
    {
      if i < |a| {
        assert (a + b)[i] == a[i];
      } else {
        assert (a + b)[i] == b[i - |a|];
      }
    }
  }

  function Padding(n: nat): string {
    if n % 3 == 1 then "==" else if n % 3 == 2 then "=" else ""
  }

  /** `btoa` of the byte string `b`. */
  function Encode(b: seq<Byte>): (s: string)
    ensures |s| % 4 == 0
  {
    PaddedLength(|EncodeCore(b)|, |b|);
    EncodeCore(b) + Padding(|b|)
  }

  /** The padding completes the last group of four characters. */
  lemma PaddedLength(c: nat, n: nat)
    requires c % 4 == (if n % 3 == 0 then 0 else n % 3 + 1)
    ensures (c + |Padding(n)|) % 4 == 0
  {
    var q := c / 4;
    assert c == 4 * q + c % 4;
    if n % 3 == 1 {
      assert c + 2 == 4 * (q + 1);
    } else if n % 3 == 2 {
      assert c + 1 == 4 * (q + 1);
    }
  }

  /** TAB, LF, FF, CR and SPACE */
  predicate IsAsciiWhitespace(c: char) {
    c == '\t' || c == '\n' || c == '\U{000C}' || c == '\r' || c == ' '
  }

  function RemoveWhitespace(s: string): string
    decreases |s|
  {
    if |s| == 0 then ""
    else if IsAsciiWhitespace(s[0]) then RemoveWhitespace(s[1..])
    else [s[0]] + RemoveWhitespace(s[1..])
  }

  function StripPadding(s: string): string {
    if |s| >= 2 && s[|s| - 2..] == "==" then s[..|s| - 2]
    else if |s| >= 1 && s[|s| - 1] == '=' then s[..|s| - 1]
    else s
  }

  /** The three bytes of a group of four alphabet characters. */
  function Triple(q: string): seq<Byte>
    requires |q| == 4 && AllInAlphabet(q)
  {
    var a, b, c, d := SextetValue(q[0]), SextetValue(q[1]), SextetValue(q[2]), SextetValue(q[3]);
    [a * 4 + b / 16, (b % 16) * 16 + c / 4, (c % 4) * 64 + d]
  }

  /** The one or two bytes of a final group of two or three characters; the leftover bits are dropped. */
  function Partial(t: string): seq<Byte>
    requires 2 <= |t| <= 3 && AllInAlphabet(t)
  {
    var a, b := SextetValue(t[0]), SextetValue(t[1]);
    if |t| == 2 then [a * 4 + b / 16]
    else [a * 4 + b / 16, (b % 16) * 16 + SextetValue(t[2]) / 4]
  }

  /** Decodes groups of four alphabet characters into three bytes each. */
  function DecodeCore(s: string): seq<Byte>
    requires AllInAlphabet(s) && |s| % 4 != 1
    decreases |s|
  {
    if |s| == 0 then []
    else if |s| <= 3 then Partial(s)
    else Triple(s[..4]) + DecodeCore(s[4..])
  }

  /** The characters `atob` decodes: whitespace dropped, then the padding when the length is a multiple of 4. */
  function Unpadded(s: string): string {
    var t := RemoveWhitespace(s);
    if |t| % 4 == 0 then StripPadding(t) else t
  }

  /** `atob(s)`, None where it throws. */
  function Decode(s: string): Option<seq<Byte>> {
    var u := Unpadded(s);
    if |u| % 4 == 1 || !AllInAlphabet(u) then None
    else Some(DecodeCore(u))
  }

  lemma QuadValues(x: Byte, y: Byte, z: Byte)
    ensures var q := Quad(x, y, z);
      var a, b, c, d := SextetValue(q[0]), SextetValue(q[1]), SextetValue(q[2]), SextetValue(q[3]);
      a * 4 + b / 16 == x && (b % 16) * 16 + c / 4 == y && (c % 4) * 64 + d == z
  {
    var q := Quad(x, y, z);
    var v0, v1, v2, v3 := x / 4, (x % 4) * 16 + y / 16, (y % 16) * 4 + z / 64, z % 64;
    assert q == [SextetChar(v0), SextetChar(v1), SextetChar(v2), SextetChar(v3)];
    SextetRoundTrip(v0);
    SextetRoundTrip(v1);
    SextetRoundTrip(v2);
    SextetRoundTrip(v3);
    SplitSixteen(x % 4, y / 16);
    SplitFour(y % 16, z / 64);
  }

  lemma SplitSixteen(hi: int, lo: int)
    requires 0 <= lo < 16
    ensures (hi * 16 + lo) / 16 == hi && (hi * 16 + lo) % 16 == lo
  {
  }

  lemma SplitFour(hi: int, lo: int)
    requires 0 <= lo < 4
    ensures (hi * 4 + lo) / 4 == hi && (hi * 4 + lo) % 4 == lo
  {
  }

  /** A group encoded from three bytes decodes to those bytes. */
  lemma TripleQuad(x: Byte, y: Byte, z: Byte)
    ensures Triple(Quad(x, y, z)) == [x, y, z]
  {
    QuadValues(x, y, z);
  }

  /** Decoding splits off a leading group of four characters. */
  lemma DecodeGroup(q: string, rest: string)
    requires |q| == 4 && AllInAlphabet(q) && AllInAlphabet(rest) && |rest| % 4 != 1
    ensures AllInAlphabet(q + rest) && |q + rest| % 4 != 1
    ensures DecodeCore(q + rest) == Triple(q) + DecodeCore(rest)
  {
    var s := q + rest;
    AlphabetConcat(q, rest);
    assert s[..4] == q;
    assert s[4..] == rest;
  }

  lemma DecodeQuad(x: Byte, y: Byte, z: Byte, rest: string)
    requires AllInAlphabet(rest) && |rest| % 4 != 1
    ensures DecodeCore(Quad(x, y, z) + rest) == [x, y, z] + DecodeCore(rest)
  {
    DecodeGroup(Quad(x, y, z), rest);
    TripleQuad(x, y, z);
  }

  lemma DecodeTail(b: seq<Byte>)
    requires 1 <= |b| <= 2
    ensures DecodeCore(Tail(b)) == b
  {
    SextetRoundTrip(b[0] / 4);
    if |b| == 1 {
      SextetRoundTrip((b[0] % 4) * 16);
    } else {
      SextetRoundTrip((b[0] % 4) * 16 + b[1] / 16);
      SextetRoundTrip((b[1] % 16) * 4);
    }
  }

  lemma {:induction false} DecodeEncodeCore(b: seq<Byte>)
    ensures DecodeCore(EncodeCore(b)) == b
    decreases |b|
  {
    if 1 <= |b| <= 2 {
      DecodeTail(b);
    } else if |b| >= 3 {
      DecodeQuad(b[0], b[1], b[2], EncodeCore(b[3..]));
      DecodeEncodeCore(b[3..]);
      assert b == [b[0], b[1], b[2]] + b[3..];
    }
  }

  lemma {:induction false} NoWhitespaceUnchanged(s: string)
    requires forall i :: 0 <= i < |s| ==> !IsAsciiWhitespace(s[i])
    ensures RemoveWhitespace(s) == s
    decreases |s|
  {
    if |s| > 0 {
      NoWhitespaceUnchanged(s[1..]);
    }
  }

  lemma EncodeHasNoWhitespace(b: seq<Byte>)
    ensures forall i :: 0 <= i < |Encode(b)| ==> !IsAsciiWhitespace(Encode(b)[i])
  {
    var core := EncodeCore(b);
    var s := Encode(b);
    forall i | 0 <= i < |s|
      ensures !IsAsciiWhitespace(s[i])
    {
      if i < |core| {
        assert s[i] == core[i];
      }
    }
  }

  lemma {:induction false} StripEncode(b: seq<Byte>)
    ensures StripPadding(Encode(b)) == EncodeCore(b)
  {
    var core := EncodeCore(b);
    var s := Encode(b);
    if |b| % 3 == 1 {
      assert s[|s| - 2..] == "==";
      assert s[..|s| - 2] == core;
    } else if |b| % 3 == 2 {
      assert s[|s| - 2] == core[|core| - 1];
      assert s[|s| - 2..] != "==";
      assert s[..|s| - 1] == core;
    } else {
      assert s == core;
      if |s| >= 1 {
        assert InAlphabet(core[|core| - 1]);
        assert s[|s| - 1] != '=';
      }
      if |s| >= 2 {
        assert s[|s| - 2..][1] == s[|s| - 1];
      }
    }
  }

  /** `atob(btoa(b)) == b` for every byte string. */
  lemma {:induction false} DecodeEncode(b: seq<Byte>)
    ensures Decode(Encode(b)) == Some(b)
  {
    var s := Encode(b);
    EncodeHasNoWhitespace(b);
    NoWhitespaceUnchanged(s);
    StripEncode(b);
    var core := EncodeCore(b);
    assert Unpadded(s) == core;
    assert AllInAlphabet(core);
    DecodeEncodeCore(b);
  }

  /** A character outside the alphabet makes `atob` throw. */
  lemma RejectsForeignCharacter()
    ensures Decode("ab!d") == None
  {
    NoWhitespaceUnchanged("ab!d");
    assert StripPadding("ab!d") == "ab!d";
    assert Unpadded("ab!d") == "ab!d";
    assert !InAlphabet("ab!d"[2]);
  }

  /** A length of 1 modulo 4 after the whitespace and padding are dropped makes `atob` throw. */
  lemma RejectsDanglingCharacter()
    ensures Decode("abcde") == None
  {
    NoWhitespaceUnchanged("abcde");
    assert Unpadded("abcde") == "abcde";
  }
}
