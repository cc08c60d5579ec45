/**
 * The snapshot codec of the sync manager: JSON text, then its UTF-8 bytes,
 * then Base64, then the version tag `island-v1:`. `JSON.stringify` and
 * `JSON.parse` are parameters; the round trip assumes only that parsing the
 * text `stringify` produced gives the value back.
 */
module SnapshotCodec {
  import opened Wrappers
  import opened Strings
  import opened JsonModel
  import Utf8
  import Base64

  const Prefix: string := "island-v1:"

  /** The one message every decoding failure is reported with. */
  const DecryptFailed: string := "数据解密失败"

  /** `encryptData(data)` */
  function EncryptData(d: Json, stringify: Json -> string): (s: string)
    ensures StartsWith(s, Prefix)
    ensures Base64.Decode(s[|Prefix|..]) == Some(Utf8.Encode(stringify(d)))
  {
    var bytes := Utf8.Encode(stringify(d));
    var s := Prefix + Base64.Encode(bytes);
    assert s[|Prefix|..] == Base64.Encode(bytes);
    Base64.DecodeEncode(bytes);
    s
  }

  /** `decryptData(encrypted)`; every thrown error becomes `数据解密失败`. */
  function DecryptData(s: string, parse: string -> Option<Json>): (r: Result<Json, string>)
    ensures r.Err? ==> r.error == DecryptFailed
  {
    if !StartsWith(s, Prefix) then Err(DecryptFailed)
    else
      match Base64.Decode(s[|Prefix|..])
      case None => Err(DecryptFailed)
      case Some(bytes) =>
        match Utf8.Decode(bytes)
        case None => Err(DecryptFailed)
        case Some(text) =>
          match parse(text)
          case None => Err(DecryptFailed)
          case Some(d) => Ok(d)
  }

  /** Decoding inverts encoding for every JSON value, whatever characters its strings hold. */
  lemma DecryptEncrypt(d: Json, stringify: Json -> string, parse: string -> Option<Json>)
    requires parse(stringify(d)) == Some(d)
    ensures DecryptData(EncryptData(d, stringify), parse) == Ok(d)
  {
    Utf8.DecodeEncode(stringify(d));
  }

  /**
   * Decoding succeeds exactly when the tag is there, the rest is Base64 of
   * valid UTF-8, and that text parses; the value is what the text parses to.
   */
  lemma DecryptAccepts(s: string, parse: string -> Option<Json>)
    ensures DecryptData(s, parse).Ok? <==>
      StartsWith(s, Prefix) &&
      Base64.Decode(s[|Prefix|..]).Some? &&
      Utf8.Decode(Base64.Decode(s[|Prefix|..]).value).Some? &&
      parse(Utf8.Decode(Base64.Decode(s[|Prefix|..]).value).value).Some?
    ensures DecryptData(s, parse).Ok? ==>
      DecryptData(s, parse).value == parse(Utf8.Decode(Base64.Decode(s[|Prefix|..]).value).value).value
  {
  }

  /** A payload under another version tag is refused, whatever its remainder. */
  lemma DecryptRejectsOtherVersion(parse: string -> Option<Json>)
    ensures DecryptData("island-v2:e30=", parse) == Err(DecryptFailed)
  {
    assert "island-v2:e30="[..|Prefix|][8] != Prefix[8];
  }

  /** A tagged payload whose remainder is not Base64 is refused. */
  lemma DecryptRejectsBadBase64(parse: string -> Option<Json>)
    ensures DecryptData(Prefix + "e30*", parse) == Err(DecryptFailed)
  {
    var s := Prefix + "e30*";
    assert s[..|Prefix|] == Prefix;
    assert s[|Prefix|..] == "e30*";
    Base64.NoWhitespaceUnchanged("e30*");
    assert Base64.Unpadded("e30*") == "e30*";
    assert !Base64.InAlphabet("e30*"[3]);
  }
}

/**
 * The backup codec of the page script, which stores `btoa(JSON.stringify(x))`
 * and reads back `JSON.parse(atob(content))` with no tag and no UTF-8 step.
 * `btoa` throws on a character above U+00FF, so the as-written pair is
 * defined only on Latin-1 text; the corrected pair inserts the UTF-8 step.
 */
module PageCodec {
  import opened Wrappers
  import opened JsonModel
  import Utf8
  import Base64

  predicate IsLatin1(t: string) {
    forall i :: 0 <= i < |t| ==> t[i] as int < 256
  }

  /** The character codes of a Latin-1 text. */
  function Latin1Bytes(t: string): (b: seq<Utf8.Byte>)
    requires IsLatin1(t)
    ensures |b| == |t| && forall i :: 0 <= i < |t| ==> b[i] == t[i] as int
  {
    if |t| == 0 then [] else [t[0] as int] + Latin1Bytes(t[1..])
  }

  /** The Latin-1 text of a byte string, as `atob` returns it. */
  function Latin1Text(b: seq<Utf8.Byte>): (t: string)
    ensures |t| == |b| && forall i :: 0 <= i < |b| ==> t[i] as int == b[i]
  {
    if |b| == 0 then [] else [b[0] as char] + Latin1Text(b[1..])
  }

  /** `btoa(t)`; None where it throws. */
  function Btoa(t: string): (r: Option<string>)
    ensures r.Some? <==> IsLatin1(t)
  {
    if IsLatin1(t) then Some(Base64.Encode(Latin1Bytes(t))) else None
  }

  /** `atob(s)`; None where it throws. */
  function Atob(s: string): (r: Option<string>)
    ensures r.Some? <==> Base64.Decode(s).Some?
  {
    match Base64.Decode(s)
    case None => None
    case Some(b) => Some(Latin1Text(b))
  }

  lemma AtobBtoa(t: string)
    requires IsLatin1(t)
    ensures Atob(Btoa(t).value) == Some(t)
  {
    var b := Latin1Bytes(t);
    Base64.DecodeEncode(b);
    assert Latin1Text(b) == t;
  }

  /** The upload encoding as written: `btoa(JSON.stringify(allData))`. */
  function EncodeAsWritten(d: Json, stringify: Json -> string): (r: Option<string>)
    ensures r.Some? <==> IsLatin1(stringify(d))
  {
    Btoa(stringify(d))
  }

  /** The download decoding as written: `JSON.parse(atob(content))`. */
  function DecodeAsWritten(s: string, parse: string -> Option<Json>): (r: Result<Json, string>)
    ensures r.Ok? <==> Atob(s).Some? && parse(Atob(s).value).Some?
  {
    match Atob(s)
    case None => Err("数据解密失败")
    case Some(t) =>
      match parse(t)
      case None => Err("数据解密失败")
      case Some(d) => Ok(d)
  }

  /** As written, the pair round-trips data whose JSON text is Latin-1. */
  lemma AsWrittenRoundTripOnLatin1(d: Json, stringify: Json -> string, parse: string -> Option<Json>)
    requires parse(stringify(d)) == Some(d) && IsLatin1(stringify(d))
    ensures EncodeAsWritten(d, stringify).Some?
    ensures DecodeAsWritten(EncodeAsWritten(d, stringify).value, parse) == Ok(d)
  {
    AtobBtoa(stringify(d));
  }

  /**
   * As written, a backup whose JSON text holds a CJK character (here a
   * record string containing U+597D) cannot be encoded: `btoa` throws.
   */
  lemma AsWrittenRejectsCjkText(d: Json, stringify: Json -> string)
    requires stringify(d) == "{\"note\":\"好\"}"
    ensures EncodeAsWritten(d, stringify) == None
  {
    assert stringify(d)[9] == '好';
  }

  /**
   * As written, the page's download reads each decoded byte as a character:
   * content carrying the UTF-8 bytes of "é" comes back as the two
   * characters "Ã©".
   */
  lemma AsWrittenMisreadsUtf8()
    ensures Atob(Base64.Encode(Utf8.Encode("\U{E9}"))) == Some("\U{C3}\U{A9}")
  {
    var b := Utf8.Encode("\U{E9}");
    assert b == [0xC3, 0xA9];
    Base64.DecodeEncode(b);
    var t := Latin1Text(b);
    assert t[0] == '\U{C3}' && t[1] == '\U{A9}';
    assert t == "\U{C3}\U{A9}";
  }

  /** The corrected upload encoding: Base64 of the UTF-8 bytes of the JSON text. */
  function Encode(d: Json, stringify: Json -> string): (s: string)
    ensures Base64.Decode(s) == Some(Utf8.Encode(stringify(d)))
  {
    Base64.DecodeEncode(Utf8.Encode(stringify(d)));
    Base64.Encode(Utf8.Encode(stringify(d)))
  }

  /** The corrected download decoding: Base64, then UTF-8, then JSON. */
  function Decode(s: string, parse: string -> Option<Json>): (r: Result<Json, string>)
    ensures r.Ok? <==>
      Base64.Decode(s).Some? && Utf8.Decode(Base64.Decode(s).value).Some? &&
      parse(Utf8.Decode(Base64.Decode(s).value).value).Some?
  {
    match Base64.Decode(s)
    case None => Err("数据解密失败")
    case Some(b) =>
      match Utf8.Decode(b)
      case None => Err("数据解密失败")
      case Some(t) =>
        match parse(t)
        case None => Err("数据解密失败")
        case Some(d) => Ok(d)
  }

  /** The corrected pair round-trips every JSON value. */
  lemma DecodeEncode(d: Json, stringify: Json -> string, parse: string -> Option<Json>)
    requires parse(stringify(d)) == Some(d)
    ensures Decode(Encode(d, stringify), parse) == Ok(d)
  {
    Utf8.DecodeEncode(stringify(d));
  }
}
