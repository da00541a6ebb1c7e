/** `urlBase64ToUint8Array` of `src/lib/push.ts`: the application-server key
    arrives in the URL-safe base64 alphabet of section 5 of RFC 4648, usually
    without padding. The function pads it to a multiple of four, translates
    it to the standard alphabet of section 4 of RFC 4648, decodes it with the
    browser's `atob`, and copies the character codes of the decoded string
    into a byte array.

    `atob` is modelled by the forgiving-base64 decode of the WHATWG Infra
    Standard, which is what browsers implement. The partner of the whole
    operation is a base64url encoder: decoding what it produces gives back
    the bytes it was given. */
module PushKey {
  import opened Base

  type Byte = x: int | 0 <= x < 256
  type Sextet = x: int | 0 <= x < 64

  datatype Alphabet = Standard | UrlSafe

  /** The character that encodes the 6-bit value `v`: A-Z, a-z, 0-9, then
      '+' and '/' (standard) or '-' and '_' (URL-safe). */
  function AlphabetChar(v: Sextet, a: Alphabet): char {
    if v < 26 then ('A' as int + v) as char
    else if v < 52 then ('a' as int + (v - 26)) as char
    else if v < 62 then ('0' as int + (v - 52)) as char
    else if v == 62 then (if a == Standard then '+' else '-')
    else (if a == Standard then '/' else '_')
  }

  predicate InStandardAlphabet(c: char) {
    'A' <= c <= 'Z' || 'a' <= c <= 'z' || '0' <= c <= '9' || c == '+' || c == '/'
  }

  /** The 6-bit value a standard-alphabet character stands for. */
  function StandardValue(c: char): Sextet
    requires InStandardAlphabet(c)
  {
    if 'A' <= c <= 'Z' then c as int - 'A' as int
    else if 'a' <= c <= 'z' then c as int - 'a' as int + 26
    else if '0' <= c <= '9' then c as int - '0' as int + 52
    else if c == '+' then 62
    else 63
  }

  /** Reading a standard-alphabet character gives back its value. */
  lemma StandardValueOfChar(v: Sextet)
    ensures InStandardAlphabet(AlphabetChar(v, Standard))
    ensures StandardValue(AlphabetChar(v, Standard)) == v
  {
  }

  // ---------------------------------------------------------------------------
  // Padding and alphabet translation

  /** `(4 - (length % 4)) % 4`: the number of '=' appended. */
  function PaddingLength(n: nat): (p: nat)
    ensures p < 4
    ensures (n + p) % 4 == 0
    ensures n % 4 == 0 <==> p == 0
  {
    (4 - n % 4) % 4
  }

  /** The input followed by its padding. */
  function Pad(s: string): (r: string)
    ensures |s| <= |r| && |r| % 4 == 0 && |r| - |s| < 4
    ensures r[..|s|] == s
    ensures forall i :: |s| <= i < |r| ==> r[i] == '='
    ensures |s| % 4 == 0 ==> r == s
  {
    s + Repeat('=', PaddingLength(|s|))
  }

  /** `s.replace(/from/g, to)` for a single character: every occurrence. */
  function ReplaceAll(s: string, from: char, to: char): (r: string)
    ensures |r| == |s|
    ensures forall i :: 0 <= i < |s| ==> r[i] == (if s[i] == from then to else s[i])
  {
    seq(|s|, i requires 0 <= i < |s| => if s[i] == from then to else s[i])
  }

  /** `.replace(/-/g, '+').replace(/_/g, '/')`. */
  function ToStandardAlphabet(s: string): (r: string)
    ensures |r| == |s|
    ensures forall i :: 0 <= i < |s| ==>
      r[i] == (if s[i] == '-' then '+' else if s[i] == '_' then '/' else s[i])
    ensures '-' !in r && '_' !in r
  {
    ReplaceAll(ReplaceAll(s, '-', '+'), '_', '/')
  }

  /** The string handed to `atob`. */
  function Normalise(s: string): (r: string)
    ensures |r| % 4 == 0 && |r| - |s| < 4
    ensures '-' !in r && '_' !in r
  {
    ToStandardAlphabet(Pad(s))
  }

  /** A string that is already padded and in the standard alphabet passes
      through unchanged. */
  lemma NormaliseNormalised(s: string)
    requires |s| % 4 == 0
    requires '-' !in s && '_' !in s
    ensures Normalise(s) == s
  {
    var r := Normalise(s);
    assert Pad(s) == s;
    forall i | 0 <= i < |s|
      ensures r[i] == s[i]
    {
      assert s[i] != '-' && s[i] != '_';
    }
  }

  // ---------------------------------------------------------------------------
  // atob: forgiving-base64 decode

  /** ASCII whitespace: TAB, LF, FF, CR and SPACE. */
  predicate IsAsciiWhitespace(c: char) {
    c == '\t' || c == '\n' || c == '\U{000C}' || c == '\r' || c == ' '
  }

  function StripWhitespace(s: string): (r: string)
    ensures forall i :: 0 <= i < |r| ==> !IsAsciiWhitespace(r[i])
    decreases |s|
  {
    if |s| == 0 then ""
    else if IsAsciiWhitespace(s[0]) then StripWhitespace(s[1..])
    else [s[0]] + StripWhitespace(s[1..])
  }

  /** When the length is a multiple of four, one or two trailing '=' go. */
  function StripPadding(d: string): (r: string)
    ensures |r| <= |d| && |d| - |r| <= 2 && r == d[..|r|]
  {
    if |d| % 4 == 0 && EndsWith(d, "==") then d[..|d| - 2]
    else if |d| % 4 == 0 && EndsWith(d, "=") then d[..|d| - 1]
    else d
  }

  /** The 6-bit values of a string, or None when a character lies outside
      the standard alphabet. */
  function Sextets(d: string): (r: Option<seq<Sextet>>)
    ensures r.Some? <==> forall i :: 0 <= i < |d| ==> InStandardAlphabet(d[i])
    ensures r.Some? ==> |r.value| == |d|
    ensures r.Some? ==> forall i :: 0 <= i < |d| ==> AlphabetChar(r.value[i], Standard) == d[i]
  {
    if forall i :: 0 <= i < |d| ==> InStandardAlphabet(d[i]) then
      var v := seq(|d|, i requires 0 <= i < |d| => StandardValue(d[i]));
      assert forall i :: 0 <= i < |d| ==> AlphabetChar(v[i], Standard) == d[i] by {
        forall i | 0 <= i < |d| ensures AlphabetChar(v[i], Standard) == d[i] {
          var c := d[i];
          if 'A' <= c <= 'Z' {
          } else if 'a' <= c <= 'z' {
          } else if '0' <= c <= '9' {
          }
        }
      }
      Some(v)
    else None
  }

  /** Groups of four values become three bytes; a final group of three or
      two values becomes two or one byte, the leftover low bits discarded. */
  function DecodeSextets(v: seq<Sextet>): (r: seq<Byte>)
    requires |v| % 4 != 1
    ensures |r| == |v| * 3 / 4
    decreases |v|
  {
    if |v| >= 4 then
      [HighByte(v[0], v[1]), MiddleByte(v[1], v[2]), LowByte(v[2], v[3])] + DecodeSextets(v[4..])
    else if |v| == 3 then [HighByte(v[0], v[1]), MiddleByte(v[1], v[2])]
    else if |v| == 2 then [HighByte(v[0], v[1])]
    else []
  }

  /** The 8 bits made of all of `a` and the top two bits of `b`. */
  function HighByte(a: Sextet, b: Sextet): Byte {
    assert b / 16 < 4;
    a * 4 + b / 16
  }

  /** The 8 bits made of the low four bits of `b` and the top four of `c`. */
  function MiddleByte(b: Sextet, c: Sextet): Byte {
    assert b % 16 < 16 && c / 4 < 16;
    (b % 16) * 16 + c / 4
  }

  /** The 8 bits made of the low two bits of `c` and all of `d`. */
  function LowByte(c: Sextet, d: Sextet): Byte {
    assert c % 4 < 4;
    (c % 4) * 64 + d
  }

  /** A byte sequence as a string of characters U+0000..U+00FF. */
  function BytesAsChars(b: seq<Byte>): (r: string)
    ensures |r| == |b|
    ensures forall i :: 0 <= i < |b| ==> r[i] as int == b[i]
  {
    seq(|b|, i requires 0 <= i < |b| => b[i] as char)
  }

  /** `window.atob`: None where the browser throws. */
  function Atob(s: string): (r: Option<string>)
    ensures r.Some? ==> forall i :: 0 <= i < |r.value| ==> r.value[i] as int < 256
    ensures r.Some? ==> |r.value| == |StripPadding(StripWhitespace(s))| * 3 / 4
    ensures r.None? <==>
              var d := StripPadding(StripWhitespace(s));
              |d| % 4 == 1 || exists i :: 0 <= i < |d| && !InStandardAlphabet(d[i])
  {
    var d := StripPadding(StripWhitespace(s));
    if |d| % 4 == 1 then None
    else
      match Sextets(d)
      case None => None
      case Some(v) => Some(BytesAsChars(DecodeSextets(v)))
  }

  // ---------------------------------------------------------------------------
  // The operation

  /** `urlBase64ToUint8Array` as a value: None where `atob` throws. */
  function UrlBase64ToBytes(s: string): Option<seq<Byte>> {
    match Atob(Normalise(s))
    case None => None
    case Some(raw) => Some(CharCodes(raw))
  }

  /** Storing character codes into a `Uint8Array`: each is taken modulo 256. */
  function CharCodes(raw: string): (r: seq<Byte>)
    ensures |r| == |raw|
    ensures forall i :: 0 <= i < |raw| ==> r[i] == (raw[i] as int) % 256
  {
    seq(|raw|, i requires 0 <= i < |raw| => (raw[i] as int) % 256)
  }

  /** Characters made from bytes give those bytes back. */
  lemma CharCodesOfBytes(b: seq<Byte>)
    ensures CharCodes(BytesAsChars(b)) == b
  {
    var r := CharCodes(BytesAsChars(b));
    assert forall i :: 0 <= i < |b| ==> r[i] == b[i];
  }

  /** The copying loop: element `i` of a `Uint8Array` receives
      `charCodeAt(i)` converted modulo 256. */
  method CharCodesToUint8Array(raw: string) returns (out: seq<Byte>)
    ensures |out| == |raw|
    ensures forall i :: 0 <= i < |raw| ==> out[i] == (raw[i] as int) % 256
    ensures (forall i :: 0 <= i < |raw| ==> raw[i] as int < 256) ==>
      forall i :: 0 <= i < |raw| ==> out[i] == raw[i] as int
  {
    var a := new Byte[|raw|];
    var i := 0;
    while i < |raw|
      invariant 0 <= i <= |raw|
      invariant forall j :: 0 <= j < i ==> a[j] == (raw[j] as int) % 256
    {
      a[i] := (raw[i] as int) % 256;
      i := i + 1;
    }
    out := a[..];
  }

  /** `urlBase64ToUint8Array(base64String)`: None where `atob` throws;
      otherwise one byte per decoded character, equal to its code. Whatever
      bytes a base64url encoder turned into `base64String` come back. */
  method UrlBase64ToUint8Array(base64String: string) returns (r: Option<seq<Byte>>)
    ensures r.None? <==> Atob(Normalise(base64String)).None?
    ensures r.Some? ==>
      var raw := Atob(Normalise(base64String)).value;
      |r.value| == |raw| && forall i :: 0 <= i < |raw| ==> r.value[i] == raw[i] as int
    ensures forall b :: base64String == Encode(b, UrlSafe) ==> r == Some(b)
  {
    var rawData := Atob(Normalise(base64String));
    if rawData.None? {
      r := None;
    } else {
      var bytes := CharCodesToUint8Array(rawData.value);
      r := Some(bytes);
    }
    forall b | base64String == Encode(b, UrlSafe)
      ensures r == Some(b)
    {
      AtobOfUrlEncoding(b);
      assert r.value == b;
    }
  }

  // ---------------------------------------------------------------------------
  // The partner: base64 encoding (section 4 and section 5 of RFC 4648)

  /** Three bytes become four 6-bit values; a final one or two bytes become
      two or three values, zero-filled. */
  function EncodeSextets(b: seq<Byte>): (v: seq<Sextet>)
    ensures |v| % 4 != 1
    ensures |b| % 3 == 0 ==> |v| % 4 == 0
    ensures |b| % 3 == 1 ==> |v| % 4 == 2
    ensures |b| % 3 == 2 ==> |v| % 4 == 3
    decreases |b|
  {
    if |b| >= 3 then
      [b[0] / 4, (b[0] % 4) * 16 + b[1] / 16, (b[1] % 16) * 4 + b[2] / 64, b[2] % 64]
        + EncodeSextets(b[3..])
    else if |b| == 2 then [b[0] / 4, (b[0] % 4) * 16 + b[1] / 16, (b[1] % 16) * 4]
    else if |b| == 1 then [b[0] / 4, (b[0] % 4) * 16]
    else []
  }

  /** Base64 text without padding, in the given alphabet. */
  function Encode(b: seq<Byte>, a: Alphabet): (r: string)
    ensures |r| == |EncodeSextets(b)|
  {
    var v := EncodeSextets(b);
    seq(|v|, i requires 0 <= i < |v| => AlphabetChar(v[i], a))
  }

  /** The arithmetic of one full group. */
  lemma GroupRoundTrip(x: Byte, y: Byte, z: Byte)
    ensures
      var a, b, c, d := x / 4, (x % 4) * 16 + y / 16, (y % 16) * 4 + z / 64, z % 64;
      HighByte(a, b) == x && MiddleByte(b, c) == y && LowByte(c, d) == z
  {
    var b := (x % 4) * 16 + y / 16;
    var c := (y % 16) * 4 + z / 64;
    assert b / 16 == x % 4 && b % 16 == y / 16;
    assert c / 4 == y % 16 && c % 4 == z / 64;
  }

  /** Decoding undoes encoding. */
  lemma {:induction false} DecodeEncode(b: seq<Byte>)
    ensures DecodeSextets(EncodeSextets(b)) == b
    decreases |b|
  {
    var v := EncodeSextets(b);
    if |b| >= 3 {
      GroupRoundTrip(b[0], b[1], b[2]);
      DecodeEncode(b[3..]);
      assert v[4..] == EncodeSextets(b[3..]);
      assert b == b[..3] + b[3..];
    } else if |b| == 2 {
      GroupRoundTrip(b[0], b[1], 0);
    } else if |b| == 1 {
      GroupRoundTrip(b[0], 0, 0);
    }
  }

  /** Translating URL-safe text (with padding) gives standard text. */
  lemma TranslateEncoding(b: seq<Byte>, p: nat)
    ensures ToStandardAlphabet(Encode(b, UrlSafe) + Repeat('=', p)) == Encode(b, Standard) + Repeat('=', p)
  {
    var u := Encode(b, UrlSafe) + Repeat('=', p);
    var s := Encode(b, Standard) + Repeat('=', p);
    var e := Encode(b, UrlSafe);
    forall i | 0 <= i < |u|
      ensures ToStandardAlphabet(u)[i] == s[i]
    {
      if i < |e| {
        assert u[i] == e[i];
      }
    }
  }

  lemma {:induction false} StripWhitespaceNone(s: string)
    requires forall i :: 0 <= i < |s| ==> !IsAsciiWhitespace(s[i])
    ensures StripWhitespace(s) == s
    decreases |s|
  {
    if |s| > 0 {
      StripWhitespaceNone(s[1..]);
      assert s == [s[0]] + s[1..];
    }
  }

  /** A standard encoding contains only alphabet characters. */
  lemma EncodingInAlphabet(b: seq<Byte>)
    ensures forall i :: 0 <= i < |Encode(b, Standard)| ==> InStandardAlphabet(Encode(b, Standard)[i])
  {
    var v := EncodeSextets(b);
    forall i | 0 <= i < |v|
      ensures InStandardAlphabet(Encode(b, Standard)[i])
    {
      StandardValueOfChar(v[i]);
    }
  }

  /** Padding that `Pad` appended to text not ending in '=' is exactly what
      `atob` strips again. */
  lemma StripPaddingOfPadded(e: string)
    requires |e| % 4 != 1
    requires |e| > 0 ==> e[|e| - 1] != '='
    ensures StripPadding(e + Repeat('=', PaddingLength(|e|))) == e
  {
    var t := e + Repeat('=', PaddingLength(|e|));
    if |e| % 4 == 0 {
      assert t == e;
      if |e| > 0 {
        assert t[|t| - 1..] != "=";
        assert t[|t| - 2..] != "==" by {
          if |t| >= 2 {
            assert t[|t| - 2..][1] == t[|t| - 1];
          }
        }
      }
    } else if |e| % 4 == 2 {
      assert |t| == |e| + 2;
      assert t[|t| - 2..] == "==";
      assert t[..|t| - 2] == e;
    } else {
      assert |t| == |e| + 1;
      assert t[|t| - 2..] != "==" by {
        assert t[|t| - 2..][0] == e[|e| - 1];
      }
      assert t[|t| - 1..] == "=";
      assert t[..|t| - 1] == e;
    }
  }

  /** `atob` removes exactly the padding that `Pad` appended to an encoding. */
  lemma StripPaddingOfEncoding(b: seq<Byte>)
    ensures var e := Encode(b, Standard);
      StripPadding(StripWhitespace(e + Repeat('=', PaddingLength(|e|)))) == e
  {
    var e := Encode(b, Standard);
    var t := e + Repeat('=', PaddingLength(|e|));
    EncodingInAlphabet(b);
    forall i | 0 <= i < |t|
      ensures !IsAsciiWhitespace(t[i])
    {
      if i < |e| {
        assert InStandardAlphabet(e[i]);
      }
    }
    StripWhitespaceNone(t);
    if |e| > 0 {
      assert InStandardAlphabet(e[|e| - 1]);
    }
    StripPaddingOfPadded(e);
  }

  /** Reading the characters of a standard encoding gives its 6-bit values. */
  lemma SextetsOfEncoding(b: seq<Byte>)
    ensures Sextets(Encode(b, Standard)) == Some(EncodeSextets(b))
  {
    var e := Encode(b, Standard);
    var v := EncodeSextets(b);
    EncodingInAlphabet(b);
    var w := Sextets(e).value;
    forall i | 0 <= i < |e|
      ensures w[i] == v[i]
    {
      StandardValueOfChar(v[i]);
      StandardValueOfChar(w[i]);
    }
    assert w == v;
  }

  /** `atob` of a standard encoding padded to a multiple of four gives back
      the encoded bytes as characters. */
  lemma AtobOfEncoding(b: seq<Byte>)
    ensures
      var e := Encode(b, Standard);
      Atob(e + Repeat('=', PaddingLength(|e|))) == Some(BytesAsChars(b))
  {
    StripPaddingOfEncoding(b);
    SextetsOfEncoding(b);
    DecodeEncode(b);
  }

  /** The whole `atob` input prepared from a base64url encoding decodes to
      the encoded bytes. */
  lemma AtobOfUrlEncoding(b: seq<Byte>)
    ensures Atob(Normalise(Encode(b, UrlSafe))) == Some(BytesAsChars(b))
  {
    var u := Encode(b, UrlSafe);
    var p := PaddingLength(|u|);
    assert Pad(u) == u + Repeat('=', p);
    TranslateEncoding(b, p);
    AtobOfEncoding(b);
  }

  /** Round trip: the key a base64url encoder produced decodes to its bytes. */
  lemma RoundTrip(b: seq<Byte>)
    ensures UrlBase64ToBytes(Encode(b, UrlSafe)) == Some(b)
  {
    AtobOfUrlEncoding(b);
    CharCodesOfBytes(b);
  }

  /** Padding the key first, as some servers do, changes nothing. */
  lemma PaddedRoundTrip(b: seq<Byte>)
    ensures var u := Encode(b, UrlSafe);
      UrlBase64ToBytes(u + Repeat('=', PaddingLength(|u|))) == Some(b)
  {
    var u := Encode(b, UrlSafe);
    var t := u + Repeat('=', PaddingLength(|u|));
    assert Pad(t) == t;
    assert Pad(u) == t;
    RoundTrip(b);
  }
}
