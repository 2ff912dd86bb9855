/** The text codecs behind media keys: hexadecimal and base64 as in RFC 4648 (sections 4, 5
    and 8), in the strict and lenient readings of the Python library, and UTF-8. */
module TextCodecs {
  import opened Options

  type Byte = b: int | 0 <= b < 256

  // ------------------------------------------------------------------ stripping

  /** Unicode white space as `str.strip` sees it. */
  predicate IsSpace(c: char) {
    var n := c as int;
    9 <= n <= 13 || 28 <= n <= 32 || n == 0x85 || n == 0xA0 || n == 0x1680 || 0x2000 <= n <= 0x200A
    || n == 0x2028 || n == 0x2029 || n == 0x202F || n == 0x205F || n == 0x3000
  }

  predicate IsAsciiSpace(c: char) {
    9 <= c as int <= 13 || c == ' '
  }

  function StripLeft(s: string, gone: char -> bool): (r: string)
    ensures |r| <= |s|
    ensures r != "" ==> !gone(r[0])
    ensures s != "" && !gone(s[0]) ==> r == s
  {
    if s != "" && gone(s[0]) then StripLeft(s[1..], gone) else s
  }

  function StripRight(s: string, gone: char -> bool): (r: string)
    ensures r <= s
    ensures r != "" ==> !gone(r[|r| - 1])
    ensures s != "" && !gone(s[|s| - 1]) ==> r == s
  {
    if s != "" && gone(s[|s| - 1]) then StripRight(s[..|s| - 1], gone) else s
  }

  function StripBy(s: string, gone: char -> bool): (r: string)
    ensures |r| <= |s|
    ensures r != "" ==> !gone(r[0]) && !gone(r[|r| - 1])
    ensures s != "" && !gone(s[0]) && !gone(s[|s| - 1]) ==> r == s
  {
    StripRight(StripLeft(s, gone), gone)
  }

  function Strip(s: string): string {
    StripBy(s, IsSpace)
  }

  lemma StripTwice(s: string)
    ensures Strip(Strip(s)) == Strip(s)
  {
  }

  // ------------------------------------------------------------------ hexadecimal

  function HexValue(c: char): (v: int)
    ensures 0 <= v <= 16
  {
    if '0' <= c <= '9' then c as int - '0' as int
    else if 'a' <= c <= 'f' then c as int - 'a' as int + 10
    else if 'A' <= c <= 'F' then c as int - 'A' as int + 10
    else 16
  }

  predicate IsHex(c: char) {
    HexValue(c) < 16
  }

  /** `bytes.fromhex`: digit pairs, with ASCII white space allowed between them. */
  function FromHex(s: string): Option<seq<Byte>> {
    if s == "" then Some([])
    else if IsAsciiSpace(s[0]) then FromHex(s[1..])
    else if |s| >= 2 && IsHex(s[0]) && IsHex(s[1]) then
      match FromHex(s[2..])
      case Some(rest) => Some([16 * HexValue(s[0]) + HexValue(s[1])] + rest)
      case None => None
    else None
  }

  function HexChar(v: int): (c: char)
    requires 0 <= v < 16
    ensures HexValue(c) == v && !IsAsciiSpace(c) && !IsSpace(c) && c != '"' && c != '\''
  {
    if v < 10 then (v + '0' as int) as char else (v - 10 + 'a' as int) as char
  }

  /** `bytes.hex` */
  function ToHex(bs: seq<Byte>): string {
    if bs == [] then "" else [HexChar(bs[0] / 16), HexChar(bs[0] % 16)] + ToHex(bs[1..])
  }

  lemma HexPair(b: Byte, rest: string)
    requires FromHex(rest).Some?
    ensures FromHex([HexChar(b / 16), HexChar(b % 16)] + rest) == Some([b] + FromHex(rest).value)
  {
    var s := [HexChar(b / 16), HexChar(b % 16)] + rest;
    assert s[2..] == rest && s[0] == HexChar(b / 16) && s[1] == HexChar(b % 16);
    assert 16 * (b / 16) + b % 16 == b;
  }

  lemma {:induction false} HexRoundTrip(bs: seq<Byte>)
    ensures FromHex(ToHex(bs)) == Some(bs)
    ensures |ToHex(bs)| == 2 * |bs| && forall c <- ToHex(bs) :: IsHex(c)
  {
    if bs != [] {
      HexRoundTrip(bs[1..]);
      HexPair(bs[0], ToHex(bs[1..]));
      assert bs == [bs[0]] + bs[1..];
    }
  }

  function HexDigits(s: string): nat {
    if s == "" then 0 else (if IsHex(s[0]) then 1 else 0) + HexDigits(s[1..])
  }

  /** A string that reads as hexadecimal is made of digits and white space, two digits a byte. */
  lemma {:induction false} FromHexShape(s: string)
    requires FromHex(s).Some?
    ensures forall c <- s :: IsHex(c) || IsAsciiSpace(c)
    ensures HexDigits(s) == 2 * |FromHex(s).value|
  {
    if s != "" {
      if IsAsciiSpace(s[0]) {
        FromHexShape(s[1..]);
        assert s == [s[0]] + s[1..];
      } else {
        FromHexShape(s[2..]);
        assert s == [s[0]] + [s[1]] + s[2..];
        assert s[1..][1..] == s[2..];
        assert HexDigits(s[1..]) == 1 + HexDigits(s[2..]);
      }
    }
  }

  lemma {:induction false} HexDigitsBound(s: string)
    ensures HexDigits(s) <= |s|
    ensures (forall c <- s :: IsHex(c)) ==> HexDigits(s) == |s|
  {
    if s != "" {
      assert s == [s[0]] + s[1..];
      HexDigitsBound(s[1..]);
    }
  }

  // ------------------------------------------------------------------ base64

  /** The value of a base64 digit, or 64. */
  function DigitValue(c: char): (v: int)
    ensures 0 <= v <= 64
  {
    if 'A' <= c <= 'Z' then c as int - 'A' as int
    else if 'a' <= c <= 'z' then c as int - 'a' as int + 26
    else if '0' <= c <= '9' then c as int - '0' as int + 52
    else if c == '+' then 62
    else if c == '/' then 63
    else 64
  }

  predicate IsDigit(c: char) {
    DigitValue(c) < 64
  }

  function DigitChar(v: int): (c: char)
    requires 0 <= v < 64
    ensures DigitValue(c) == v && c != '='
  {
    if v < 26 then (v + 'A' as int) as char
    else if v < 52 then (v - 26 + 'a' as int) as char
    else if v < 62 then (v - 52 + '0' as int) as char
    else if v == 62 then '+'
    else '/'
  }

  function Prepend(b: Byte, rest: Option<seq<Byte>>): Option<seq<Byte>> {
    match rest
    case Some(bs) => Some([b] + bs)
    case None => None
  }

  /** The decoding loop: `quad` digits of the current quad are read, `left` holds their unused
      bits, `pads` counts the padding just seen. Strict reading refuses foreign characters, data
      after padding, and padding where no quad is open; lenient reading skips what it can. */
  function Decode(s: string, strict: bool, quad: int, left: int, pads: nat, padded: bool): Option<seq<Byte>>
    requires 0 <= quad < 4
    requires 0 <= left && (quad == 1 ==> left < 64) && (quad == 2 ==> left < 16) && (quad == 3 ==> left < 4)
  {
    if s == "" then (if quad == 0 then Some([]) else None)
    else
      var c, rest := s[0], s[1..];
      var v := DigitValue(c);
      if c == '=' then
        if strict && quad == 0 then None
        else if quad >= 2 && quad + pads + 1 >= 4 then (if strict && rest != "" then None else Some([]))
        else Decode(rest, strict, quad, left, if quad >= 2 then pads + 1 else pads, true)
      else if v == 64 then
        if strict then None else Decode(rest, strict, quad, left, pads, padded)
      else if strict && padded then None
      else if quad == 0 then Decode(rest, strict, 1, v, 0, padded)
      else if quad == 1 then Prepend(4 * left + v / 16, Decode(rest, strict, 2, v % 16, 0, padded))
      else if quad == 2 then Prepend(16 * left + v / 4, Decode(rest, strict, 3, v % 4, 0, padded))
      else Prepend(64 * left + v, Decode(rest, strict, 0, 0, 0, padded))
  }

  function FromBase64(s: string, strict: bool): Option<seq<Byte>> {
    Decode(s, strict, 0, 0, 0, false)
  }

  function ToBase64(bs: seq<Byte>): string {
    if bs == [] then ""
    else if |bs| == 1 then [DigitChar(bs[0] / 4), DigitChar(bs[0] % 4 * 16)] + "=="
    else if |bs| == 2 then
      [DigitChar(bs[0] / 4), DigitChar(bs[0] % 4 * 16 + bs[1] / 16), DigitChar(bs[1] % 16 * 4)] + "="
    else
      [DigitChar(bs[0] / 4), DigitChar(bs[0] % 4 * 16 + bs[1] / 16),
       DigitChar(bs[1] % 16 * 4 + bs[2] / 64), DigitChar(bs[2] % 64)] + ToBase64(bs[3..])
  }

  lemma DecodeDigit(v: int, rest: string, strict: bool, quad: int, left: int)
    requires 0 <= v < 64 && 0 <= quad < 4
    requires 0 <= left && (quad == 1 ==> left < 64) && (quad == 2 ==> left < 16) && (quad == 3 ==> left < 4)
    ensures Decode([DigitChar(v)] + rest, strict, quad, left, 0, false) ==
            if quad == 0 then Decode(rest, strict, 1, v, 0, false)
            else if quad == 1 then Prepend(4 * left + v / 16, Decode(rest, strict, 2, v % 16, 0, false))
            else if quad == 2 then Prepend(16 * left + v / 4, Decode(rest, strict, 3, v % 4, 0, false))
            else Prepend(64 * left + v, Decode(rest, strict, 0, 0, 0, false))
  {
    var s := [DigitChar(v)] + rest;
    assert s[0] == DigitChar(v) && s[1..] == rest;
  }

  lemma DecodeQuad(a: Byte, b: Byte, c: Byte, rest: string, strict: bool)
    ensures Decode([DigitChar(a / 4), DigitChar(a % 4 * 16 + b / 16), DigitChar(b % 16 * 4 + c / 64),
        DigitChar(c % 64)] + rest,
                   strict, 0, 0, 0, false)
            == Prepend(a, Prepend(b, Prepend(c, Decode(rest, strict, 0, 0, 0, false))))
  {
    DecodeFour(a / 4, a % 4 * 16 + b / 16, b % 16 * 4 + c / 64, c % 64, rest, strict);
  }

  lemma DecodeFour(w: int, x: int, y: int, z: int, rest: string, strict: bool)
    requires 0 <= w < 64 && 0 <= x < 64 && 0 <= y < 64 && 0 <= z < 64
    ensures Decode([DigitChar(w), DigitChar(x), DigitChar(y), DigitChar(z)] + rest, strict, 0, 0, 0, false)
            == Prepend(4 * w + x / 16, Prepend(16 * (x % 16) + y / 4,
                Prepend(64 * (y % 4) + z, Decode(rest, strict, 0, 0, 0, false))))
  {
    var tail := [DigitChar(y), DigitChar(z)] + rest;
    DecodeDigit(x, tail, strict, 1, w);
    DecodeDigit(w, [DigitChar(x)] + tail, strict, 0, 0);
    assert [DigitChar(w), DigitChar(x), DigitChar(y), DigitChar(z)] + rest == [DigitChar(w)] + ([DigitChar(x)] + tail);
  }

  lemma DecodeOne(a: Byte, strict: bool)
    ensures FromBase64([DigitChar(a / 4), DigitChar(a % 4 * 16)] + "==", strict) == Some([a])
  {
    var w, x := a / 4, a % 4 * 16;
    DecodeDigit(x, "==", strict, 1, w);
    DecodeDigit(w, [DigitChar(x)] + "==", strict, 0, 0);
    assert [DigitChar(w), DigitChar(x)] + "==" == [DigitChar(w)] + ([DigitChar(x)] + "==");
    assert 4 * w + x / 16 == a;
    assert [a] + [] == [a];
  }

  lemma DecodeTwo(a: Byte, b: Byte, strict: bool)
    ensures FromBase64([DigitChar(a / 4), DigitChar(a % 4 * 16 + b / 16), DigitChar(b % 16 * 4)] + "=", strict)
        == Some([a, b])
  {
    var w, y, z := a / 4, a % 4 * 16 + b / 16, b % 16 * 4;
    DecodeDigit(z, "=", strict, 2, y % 16);
    DecodeDigit(y, [DigitChar(z)] + "=", strict, 1, w);
    DecodeDigit(w, [DigitChar(y)] + ([DigitChar(z)] + "="), strict, 0, 0);
    assert [DigitChar(w), DigitChar(y), DigitChar(z)] + "="
        == [DigitChar(w)] + ([DigitChar(y)] + ([DigitChar(z)] + "="));
    assert 4 * w + y / 16 == a && 16 * (y % 16) + z / 4 == b;
    assert [b] + [] == [b] && [a] + [b] == [a, b];
  }

  /** Decoding inverts encoding for every byte string, strictly and leniently. */
  lemma {:induction false} Base64RoundTrip(bs: seq<Byte>, strict: bool)
    ensures FromBase64(ToBase64(bs), strict) == Some(bs)
  {
    if |bs| == 1 {
      DecodeOne(bs[0], strict);
      assert bs == [bs[0]];
    } else if |bs| == 2 {
      DecodeTwo(bs[0], bs[1], strict);
      assert bs == [bs[0], bs[1]];
    } else if |bs| > 2 {
      Base64RoundTrip(bs[3..], strict);
      DecodeQuad(bs[0], bs[1], bs[2], ToBase64(bs[3..]), strict);
      assert bs == [bs[0]] + ([bs[1]] + ([bs[2]] + bs[3..]));
    }
  }

  lemma {:induction false} ToBase64Shape(bs: seq<Byte>)
    ensures |ToBase64(bs)| == (|bs| + 2) / 3 * 4
    ensures forall c <- ToBase64(bs) :: IsDigit(c) || c == '='
  {
    if |bs| > 2 {
      ToBase64Shape(bs[3..]);
    }
  }

  /** One byte over whole triples: two padding characters at the end and none before. */
  lemma {:induction false} OneOverShape(bs: seq<Byte>)
    requires |bs| % 3 == 1
    ensures var s := ToBase64(bs);
            |s| >= 2 && s[|s| - 2..] == "==" && forall i :: 0 <= i < |s| - 2 ==> IsDigit(s[i])
  {
    if |bs| > 3 {
      var rest := ToBase64(bs[3..]);
      OneOverShape(bs[3..]);
      var s := ToBase64(bs);
      assert s == s[..4] + rest;
      assert s[|s| - 2..] == rest[|rest| - 2..];
      forall i | 4 <= i < |s| - 2 ensures IsDigit(s[i]) { assert s[i] == rest[i - 4]; }
    }
  }

  lemma {:induction false} PadsIgnored(pad: string, left: int, padded: bool)
    requires left >= 0 && forall c <- pad :: c == '='
    ensures Decode(pad, false, 0, left, 0, padded) == Some([])
  {
    if pad != "" {
      assert pad[0] in pad && forall c <- pad[1..] :: c in pad;
      PadsIgnored(pad[1..], left, true);
    }
  }

  function Digits(s: string): nat {
    if s == "" then 0 else (if IsDigit(s[0]) then 1 else 0) + Digits(s[1..])
  }

  function Emitted(quad: int): int {
    if quad == 0 then 0 else quad - 1
  }

  /** Full quads decode to three bytes each, whatever lenient reading skips in between and after. */
  lemma {:induction false} QuadsLength(s: string, pad: string, strict: bool, quad: int, left: int)
    requires 0 <= quad < 4
    requires 0 <= left && (quad == 1 ==> left < 64) && (quad == 2 ==> left < 16) && (quad == 3 ==> left < 4)
    requires forall c <- s :: IsDigit(c) || (!strict && c != '=')
    requires (forall c <- pad :: c == '=') && (strict ==> pad == "")
    requires (quad + Digits(s)) % 4 == 0
    ensures var r := Decode(s + pad, strict, quad, left, 0, false);
            r.Some? && 4 * (|r.value| + Emitted(quad)) == 3 * (quad + Digits(s))
  {
    if s == "" {
      assert s + pad == pad;
      if !strict { PadsIgnored(pad, left, false); }
    } else {
      var v := DigitValue(s[0]);
      assert s[0] in s && s == [s[0]] + s[1..];
      assert (s + pad)[0] == s[0] && (s + pad)[1..] == s[1..] + pad;
      if v == 64 {
        QuadsLength(s[1..], pad, strict, quad, left);
      } else if quad == 0 {
        QuadsLength(s[1..], pad, strict, 1, v);
      } else if quad == 1 {
        QuadsLength(s[1..], pad, strict, 2, v % 16);
      } else if quad == 2 {
        QuadsLength(s[1..], pad, strict, 3, v % 4);
      } else {
        QuadsLength(s[1..], pad, strict, 0, 0);
      }
    }
  }

  /** Strict reading refuses a text with a foreign character before any padding. */
  lemma {:induction false} StrictRefuses(s: string, pad: string, at: nat, quad: int, left: int)
    requires 0 <= quad < 4
    requires 0 <= left && (quad == 1 ==> left < 64) && (quad == 2 ==> left < 16) && (quad == 3 ==> left < 4)
    requires '=' !in s && at < |s| && !IsDigit(s[at])
    ensures Decode(s + pad, true, quad, left, 0, false) == None
  {
    var v := DigitValue(s[0]);
    assert s[0] in s && s == [s[0]] + s[1..];
    assert (s + pad)[0] == s[0] && (s + pad)[1..] == s[1..] + pad;
    if at > 0 && v < 64 {
      var next := (quad + 1) % 4;
      var kept := if quad == 0 then v else if quad == 1 then v % 16 else if quad == 2 then v % 4 else 0;
      StrictRefuses(s[1..], pad, at - 1, next, kept);
    }
  }

  // ------------------------------------------------------------------ UTF-8

  predicate Tail(b: Byte) {
    0x80 <= b < 0xC0
  }

  /** Strict UTF-8 decoding: no overlong forms, no surrogates, nothing above U+10FFFF. */
  function FromUtf8(bs: seq<Byte>): Option<string> {
    if bs == [] then Some("")
    else
      var a: int := bs[0];
      if a < 0x80 then After(a as char, FromUtf8(bs[1..]))
      else if |bs| < 2 || !Tail(bs[1]) then None
      else
        var b: int := bs[1];
        if 0xC2 <= a < 0xE0 then After((64 * (a - 0xC0) + (b - 0x80)) as char, FromUtf8(bs[2..]))
        else if |bs| < 3 || !Tail(bs[2]) then None
        else
          var c: int := bs[2];
          if 0xE0 <= a < 0xF0 && (a == 0xE0 ==> b >= 0xA0) && (a == 0xED ==> b < 0xA0) then
            After((4096 * (a - 0xE0) + 64 * (b - 0x80) + (c - 0x80)) as char, FromUtf8(bs[3..]))
          else if |bs| < 4 || !Tail(bs[3]) then None
          else
            var d: int := bs[3];
            if 0xF0 <= a < 0xF5 && (a == 0xF0 ==> b >= 0x90) && (a == 0xF4 ==> b < 0x90) then
              After((262144 * (a - 0xF0) + 4096 * (b - 0x80) + 64 * (c - 0x80) + (d - 0x80)) as char, FromUtf8(bs[4..]))
            else None
  }

  function After(c: char, rest: Option<string>): Option<string> {
    match rest
    case Some(s) => Some([c] + s)
    case None => None
  }

  lemma {:induction false} Utf8Shorter(bs: seq<Byte>)
    ensures FromUtf8(bs).Some? ==> |FromUtf8(bs).value| <= |bs|
  {
    if bs != [] {
      Utf8Shorter(bs[1..]);
      if |bs| >= 2 { Utf8Shorter(bs[2..]); }
      if |bs| >= 3 { Utf8Shorter(bs[3..]); }
      if |bs| >= 4 { Utf8Shorter(bs[4..]); }
    }
  }

  predicate IsAscii(s: string) {
    forall i :: 0 <= i < |s| ==> s[i] as int < 0x80
  }

  /** `str.encode` of ASCII text */
  function ToAscii(s: string): (bs: seq<Byte>)
    requires IsAscii(s)
    ensures |bs| == |s|
  {
    if s == "" then [] else [s[0] as int] + ToAscii(s[1..])
  }

  lemma {:induction false} AsciiRoundTrip(s: string)
    requires IsAscii(s)
    ensures FromUtf8(ToAscii(s)) == Some(s)
  {
    if s != "" {
      AsciiRoundTrip(s[1..]);
      assert s == [s[0]] + s[1..];
    }
  }
}
