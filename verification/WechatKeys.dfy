/** Recovering a media key from whatever text form it arrives in
    (backend/app/channels/wechat.py, _parse_aes_key_candidate and _decode_base64_aes_key). */
module WechatKeys {
  import opened Options
  import opened TextCodecs

  const KEY_SIZE: nat := 16

  /** The values found under a key field of a payload. */
  datatype Value = Raw(bytes: seq<Byte>) | Text(text: string) | Other

  function IfKey(bytes: Option<seq<Byte>>): Option<seq<Byte>> {
    if bytes.Some? && |bytes.value| == KEY_SIZE then bytes else None
  }

  /** Decoded bytes are the key, or hexadecimal text of the key, possibly quoted. */
  function NormalizeDecoded(decoded: seq<Byte>): Option<seq<Byte>> {
    if |decoded| == KEY_SIZE then Some(decoded)
    else
      match FromUtf8(decoded)
      case None => None
      case Some(text) =>
        var bare := StripBy(StripBy(Strip(text), c => c == '"'), c => c == '\'');
        if bare == "" then None else IfKey(FromHex(bare))
  }

  function Pad(candidate: string): string {
    candidate + seq((4 - |candidate| % 4) % 4, i => '=')
  }

  /** The URL-safe alphabet of RFC 4648 section 5, mapped to the standard one. */
  function FromUrlSafe(s: string): (r: string)
    ensures |r| == |s|
    ensures forall i :: 0 <= i < |s| ==> r[i] == if s[i] == '-' then '+' else if s[i] == '_' then '/' else s[i]
  {
    seq(|s|, i requires 0 <= i < |s| => if s[i] == '-' then '+' else if s[i] == '_' then '/' else s[i])
  }

  function TryStrict(padded: string): Option<seq<Byte>> {
    match FromBase64(padded, true)
    case Some(decoded) => NormalizeDecoded(decoded)
    case None => None
  }

  /** Non-ASCII text is refused before decoding. */
  function TryUrlSafe(padded: string): Option<seq<Byte>> {
    if !IsAscii(padded) then None
    else
      match FromBase64(FromUrlSafe(padded), false)
      case Some(decoded) => NormalizeDecoded(decoded)
      case None => None
  }

  function DecodeBase64Key(value: string): Option<seq<Byte>> {
    var candidate := Strip(value);
    if candidate == "" then None
    else
      var padded := Pad(candidate);
      var key := TryStrict(padded);
      if key.Some? then key else TryUrlSafe(padded)
  }

  function ParseKey(value: Value, preferHex: bool): Option<seq<Byte>> {
    match value
    case Raw(bytes) => IfKey(Some(bytes))
    case Text(text) =>
      var raw := Strip(text);
      if raw == "" then None
      else
        var hex, base64 := IfKey(FromHex(raw)), DecodeBase64Key(raw);
        if preferHex then (if hex.Some? then hex else base64)
        else (if base64.Some? then base64 else hex)
    case Other => None
  }

  function EncodeOutboundKey(key: seq<Byte>): string {
    var hex := ToHex(key);
    HexRoundTrip(key);
    HexIsAscii(hex);
    ToBase64(ToAscii(hex))
  }

  lemma HexIsAscii(s: string)
    requires forall c <- s :: IsHex(c)
    ensures IsAscii(s)
  {
    assert forall i :: 0 <= i < |s| ==> s[i] in s;
  }

  /** Whatever is parsed is a 16-byte key. */
  lemma ParsedKeySize(value: Value, preferHex: bool)
    ensures ParseKey(value, preferHex).Some? ==> |ParseKey(value, preferHex).value| == KEY_SIZE
  {
  }

  // ------------------------------------------------------------------ hexadecimal never reads as base64

  lemma {:induction false} DigitsOfHex(s: string)
    requires forall c <- s :: IsHex(c) || IsAsciiSpace(c)
    ensures Digits(s) == HexDigits(s)
  {
    if s != "" {
      assert s == [s[0]] + s[1..];
      DigitsOfHex(s[1..]);
    }
  }

  /** Bytes too few to spell out 32 hexadecimal digits are no key. */
  lemma ShortIsNoKey(decoded: seq<Byte>)
    requires |decoded| < 2 * KEY_SIZE && |decoded| != KEY_SIZE
    ensures NormalizeDecoded(decoded) == None
  {
    Utf8Shorter(decoded);
    if FromUtf8(decoded).Some? {
      var bare := StripBy(StripBy(Strip(FromUtf8(decoded).value), c => c == '"'), c => c == '\'');
      if FromHex(bare).Some? {
        FromHexShape(bare);
        HexDigitsBound(bare);
      }
    }
  }

  lemma HexIsNotStrictBase64(raw: string, pad: string)
    requires FromHex(raw).Some? && |FromHex(raw).value| == KEY_SIZE && Pad(raw) == raw + pad
    requires |pad| == (4 - |raw| % 4) % 4
    ensures TryStrict(Pad(raw)) == None
  {
    FromHexShape(raw);
    DigitsOfHex(raw);
    HexDigitsBound(raw);
    if at :| 0 <= at < |raw| && !IsDigit(raw[at]) {
      StrictRefuses(raw, pad, at, 0, 0);
    } else {
      forall c <- raw ensures IsHex(c) {
        var i :| 0 <= i < |raw| && raw[i] == c;
        assert IsDigit(raw[i]);
      }
      QuadsLength(raw, "", true, 0, 0);
      assert Pad(raw) == raw + "";
      ShortIsNoKey(FromBase64(Pad(raw), true).value);
    }
  }

  lemma HexIsNotUrlSafeBase64(raw: string, pad: string)
    requires FromHex(raw).Some? && |FromHex(raw).value| == KEY_SIZE && Pad(raw) == raw + pad
    requires forall c <- pad :: c == '='
    ensures TryUrlSafe(Pad(raw)) == None
  {
    FromHexShape(raw);
    DigitsOfHex(raw);
    forall i | 0 <= i < |raw + pad| ensures FromUrlSafe(raw + pad)[i] == (raw + pad)[i] {
      if i < |raw| { assert raw[i] in raw; } else { assert pad[i - |raw|] in pad; }
    }
    assert FromUrlSafe(raw + pad) == raw + pad;
    QuadsLength(raw, pad, false, 0, 0);
    ShortIsNoKey(FromBase64(raw + pad, false).value);
  }

  /** A text that is a key in hexadecimal never yields a key as base64. */
  lemma HexIsNotBase64(raw: string)
    requires FromHex(raw).Some? && |FromHex(raw).value| == KEY_SIZE && Strip(raw) == raw
    ensures DecodeBase64Key(raw) == None
  {
    var pad := seq((4 - |raw| % 4) % 4, i => '=');
    assert forall c <- pad :: c == '=';
    HexIsNotStrictBase64(raw, pad);
    HexIsNotUrlSafeBase64(raw, pad);
  }

  /** The preference between the two readings never matters, for any value whatsoever. */
  lemma PreferenceIrrelevant(value: Value)
    ensures ParseKey(value, true) == ParseKey(value, false)
  {
    if value.Text? {
      var raw := Strip(value.text);
      StripTwice(value.text);
      if IfKey(FromHex(raw)).Some? { HexIsNotBase64(raw); }
    }
  }

  // ------------------------------------------------------------------ every form of a key is recovered

  lemma UnstrippedText(s: string)
    requires s != "" && !IsSpace(s[0]) && !IsSpace(s[|s| - 1])
    ensures Strip(s) == s
  {
  }

  /** The hexadecimal form, in either case and with white space between the byte pairs. */
  lemma HexFormParses(text: string, key: seq<Byte>, preferHex: bool)
    requires |key| == KEY_SIZE && FromHex(Strip(text)) == Some(key)
    ensures ParseKey(Text(text), preferHex) == Some(key)
  {
    PreferenceIrrelevant(Text(text));
    assert Strip(text) != "";
  }

  lemma Base64Ends(bs: seq<Byte>)
    requires bs != []
    ensures var s := ToBase64(bs); s != "" && !IsSpace(s[0]) && !IsSpace(s[|s| - 1]) && |s| % 4 == 0
  {
    ToBase64Shape(bs);
    var s := ToBase64(bs);
    assert s[0] in s && s[|s| - 1] in s;
  }

  lemma Base64Decodes(bs: seq<Byte>, key: seq<Byte>)
    requires bs != [] && NormalizeDecoded(bs) == Some(key)
    ensures DecodeBase64Key(ToBase64(bs)) == Some(key)
  {
    var s := ToBase64(bs);
    Base64Ends(bs);
    UnstrippedText(s);
    assert Pad(s) == s;
    Base64RoundTrip(bs, true);
  }

  lemma Base64TextParses(bs: seq<Byte>, key: seq<Byte>, preferHex: bool)
    requires bs != [] && NormalizeDecoded(bs) == Some(key)
    ensures ParseKey(Text(ToBase64(bs)), preferHex) == Some(key)
  {
    PreferenceIrrelevant(Text(ToBase64(bs)));
    Base64Ends(bs);
    UnstrippedText(ToBase64(bs));
    Base64Decodes(bs, key);
  }

  lemma HexTextNormalizes(hex: string, key: seq<Byte>)
    requires |key| == KEY_SIZE && FromHex(hex) == Some(key) && forall c <- hex :: IsHex(c)
    ensures IsAscii(hex) && |ToAscii(hex)| == 2 * KEY_SIZE && NormalizeDecoded(ToAscii(hex)) == Some(key)
  {
    HexIsAscii(hex);
    FromHexShape(hex);
    HexDigitsBound(hex);
    AsciiRoundTrip(hex);
    assert hex[0] in hex && hex[|hex| - 1] in hex;
    UnstrippedText(hex);
  }

  /** Every 16-byte key is recovered, whichever reading is preferred, from its hexadecimal form,
      its base64 form, and the base64 of its hexadecimal form that outbound uploads use. */
  lemma KeyFormsParseBack(key: seq<Byte>, preferHex: bool)
    requires |key| == KEY_SIZE
    ensures ParseKey(Text(ToHex(key)), preferHex) == Some(key)
    ensures ParseKey(Text(ToBase64(key)), preferHex) == Some(key)
    ensures ParseKey(Text(EncodeOutboundKey(key)), preferHex) == Some(key)
    ensures ParseKey(Raw(key), preferHex) == Some(key)
  {
    var hex := ToHex(key);
    HexRoundTrip(key);
    assert hex[0] in hex && hex[|hex| - 1] in hex;
    UnstrippedText(hex);
    HexFormParses(hex, key, preferHex);
    Base64TextParses(key, key, preferHex);
    HexTextNormalizes(hex, key);
    Base64TextParses(ToAscii(hex), key, preferHex);
  }

  /** The URL-safe base64 form. */
  function ToUrlSafe(s: string): (r: string)
    ensures |r| == |s|
    ensures forall i :: 0 <= i < |s| ==> r[i] == if s[i] == '+' then '-' else if s[i] == '/' then '_' else s[i]
  {
    seq(|s|, i requires 0 <= i < |s| => if s[i] == '+' then '-' else if s[i] == '/' then '_' else s[i])
  }

  lemma UrlSafeInverse(s: string)
    requires forall i :: 0 <= i < |s| ==> IsDigit(s[i]) || s[i] == '='
    ensures FromUrlSafe(ToUrlSafe(s)) == s && IsAscii(ToUrlSafe(s))
    ensures forall i :: 0 <= i < |s| ==> !IsSpace(ToUrlSafe(s)[i])
  {
    assert |FromUrlSafe(ToUrlSafe(s))| == |s|;
  }

  /** If strict reading accepts the URL-safe form, that form is the standard one. */
  lemma StrictReadsStandard(key: seq<Byte>, u: string)
    requires |key| == KEY_SIZE && u == ToUrlSafe(ToBase64(key)) && FromBase64(u, true).Some?
    ensures u == ToBase64(key)
  {
    var s := ToBase64(key);
    OneOverShape(key);
    var n := |s| - 2;
    assert u == u[..n] + u[n..];
    assert forall j :: 0 <= j < n ==> u[..n][j] != '=';
    forall i | 0 <= i < |s| ensures u[i] == s[i] {
      if i < n {
        if !IsDigit(u[i]) { StrictRefuses(u[..n], u[n..], i, 0, 0); }
      } else {
        assert s[i] == s[n..][i - n];
      }
    }
  }

  lemma UrlSafeShape(key: seq<Byte>)
    requires |key| == KEY_SIZE
    ensures var u := ToUrlSafe(ToBase64(key));
            && FromUrlSafe(u) == ToBase64(key) && IsAscii(u) && u != "" && |u| % 4 == 0
            && !IsSpace(u[0]) && !IsSpace(u[|u| - 1])
  {
    ToBase64Shape(key);
    assert forall i :: 0 <= i < |ToBase64(key)| ==> ToBase64(key)[i] in ToBase64(key);
    UrlSafeInverse(ToBase64(key));
  }

  lemma StrictOrNone(key: seq<Byte>)
    requires |key| == KEY_SIZE
    ensures TryStrict(ToUrlSafe(ToBase64(key))) in {None, Some(key)}
  {
    var u := ToUrlSafe(ToBase64(key));
    if FromBase64(u, true).Some? {
      StrictReadsStandard(key, u);
      Base64RoundTrip(key, true);
    }
  }

  lemma UrlSafeDecodes(key: seq<Byte>)
    requires |key| == KEY_SIZE
    ensures DecodeBase64Key(ToUrlSafe(ToBase64(key))) == Some(key)
  {
    var u := ToUrlSafe(ToBase64(key));
    UrlSafeShape(key);
    UnstrippedText(u);
    assert Pad(u) == u;
    Base64RoundTrip(key, false);
    assert TryUrlSafe(u) == Some(key);
    StrictOrNone(key);
  }

  /** So is the URL-safe base64 form. */
  lemma UrlSafeFormParses(key: seq<Byte>, preferHex: bool)
    requires |key| == KEY_SIZE
    ensures ParseKey(Text(ToUrlSafe(ToBase64(key))), preferHex) == Some(key)
  {
    var u := ToUrlSafe(ToBase64(key));
    PreferenceIrrelevant(Text(u));
    UrlSafeShape(key);
    UnstrippedText(u);
    UrlSafeDecodes(key);
  }
}
