/** `encodeURIComponent` as ECMAScript defines it: characters outside the unreserved set
    are written as the `%XX` escapes (upper-case hex) of their UTF-8 bytes. A Dafny
    `char` is a Unicode scalar value, so the lone surrogates for which the JavaScript
    function throws cannot occur. */
module UriEncoding {
  import opened Wrappers

  type Byte = b: int | 0 <= b < 256

  /** The characters `encodeURIComponent` leaves alone. */
  predicate IsUnescaped(c: char)
  {
    || ('A' <= c <= 'Z') || ('a' <= c <= 'z') || ('0' <= c <= '9')
    || c in "-_.!~*'()"
  }

  /** The UTF-8 encoding of one scalar value. */
  function Utf8Bytes(c: char): (bytes: seq<Byte>)
    ensures var cp := c as int;
      && (cp < 0x80 ==> bytes == [cp])
      && (0x80 <= cp < 0x800 ==> |bytes| == 2 && 0xC0 <= bytes[0] < 0xE0)
      && (0x800 <= cp < 0x1_0000 ==> |bytes| == 3 && 0xE0 <= bytes[0] < 0xF0)
      && (0x1_0000 <= cp ==> |bytes| == 4 && 0xF0 <= bytes[0] < 0xF8)
      && (forall k :: 1 <= k < |bytes| ==> 0x80 <= bytes[k] < 0xC0)
  {
    var cp := c as int;
    if cp < 0x80 then [cp]
    else if cp < 0x800 then [0xC0 + cp / 64, 0x80 + cp % 64]
    else if cp < 0x1_0000 then [0xE0 + cp / 4096, 0x80 + (cp / 64) % 64, 0x80 + cp % 64]
    else [0xF0 + cp / 262144, 0x80 + (cp / 4096) % 64, 0x80 + (cp / 64) % 64, 0x80 + cp % 64]
  }

  /** The scalar value a well-formed UTF-8 sequence of one to four bytes stands for. */
  function Utf8Value(bytes: seq<Byte>): int
    requires 1 <= |bytes| <= 4
  {
    var b0: int := bytes[0];
    if |bytes| == 1 then b0
    else
      var b1: int := bytes[1];
      if |bytes| == 2 then (b0 - 0xC0) * 64 + (b1 - 0x80)
      else
        var b2: int := bytes[2];
        if |bytes| == 3 then ((b0 - 0xE0) * 64 + (b1 - 0x80)) * 64 + (b2 - 0x80)
        else
          var b3: int := bytes[3];
          (((b0 - 0xF0) * 64 + (b1 - 0x80)) * 64 + (b2 - 0x80)) * 64 + (b3 - 0x80)
  }

  /** The UTF-8 bytes of a character give its scalar value back. */
  lemma Utf8BytesDecode(c: char)
    ensures 1 <= |Utf8Bytes(c)| <= 4
    ensures Utf8Value(Utf8Bytes(c)) == c as int
  {
    var cp := c as int;
    if 0x1_0000 <= cp {
      assert (cp / 262144) * 64 + (cp / 4096) % 64 == cp / 4096;
      assert (cp / 4096) * 64 + (cp / 64) % 64 == cp / 64;
    } else if 0x800 <= cp {
      assert (cp / 4096) * 64 + (cp / 64) % 64 == cp / 64;
    }
  }

  function Utf8(s: string): seq<Byte>
  {
    if s == [] then [] else Utf8Bytes(s[0]) + Utf8(s[1..])
  }

  predicate IsHexDigit(c: char)
  {
    '0' <= c <= '9' || 'A' <= c <= 'F'
  }

  /** The upper-case hex digit for a value below 16. */
  function HexDigit(d: int): (c: char)
    requires 0 <= d < 16
    ensures IsHexDigit(c)
  {
    if d < 10 then ('0' as int + d) as char else ('A' as int + d - 10) as char
  }

  function HexValue(c: char): (r: Option<int>)
    ensures r.Some? <==> IsHexDigit(c)
    ensures r.Some? ==> 0 <= r.value < 16 && HexDigit(r.value) == c
  {
    if '0' <= c <= '9' then Some(c as int - '0' as int)
    else if 'A' <= c <= 'F' then Some(c as int - 'A' as int + 10)
    else None
  }

  /** Each hex digit reads back as its value. */
  lemma HexDigitValue(d: int)
    requires 0 <= d < 16
    ensures HexValue(HexDigit(d)) == Some(d)
  {
  }

  /** `%XX` for one byte. */
  function PercentByte(b: Byte): (t: string)
    ensures |t| == 3 && t[0] == '%' && IsHexDigit(t[1]) && IsHexDigit(t[2])
  {
    ['%', HexDigit(b / 16), HexDigit(b % 16)]
  }

  function PercentBytes(bytes: seq<Byte>): (t: string)
    ensures |t| == 3 * |bytes| && Escaped(t)
  {
    if bytes == [] then []
    else
      var p := PercentByte(bytes[0]);
      assert forall c :: c in p ==> c == '%' || IsHexDigit(c);
      p + PercentBytes(bytes[1..])
  }

  function EncodeChar(c: char): (t: string)
    ensures |t| >= 1 && Escaped(t)
  {
    if IsUnescaped(c) then [c] else PercentBytes(Utf8Bytes(c))
  }

  /** `encodeURIComponent`. */
  function EncodeUriComponent(s: string): (e: string)
    ensures |e| >= |s| && Escaped(e)
  {
    if s == [] then [] else EncodeChar(s[0]) + EncodeUriComponent(s[1..])
  }

  /** Reads an escaped text back into bytes: `%XX` is a byte, any other character below
      U+0080 stands for itself, anything else is malformed. */
  function PercentDecode(t: string): (r: Option<seq<Byte>>)
    ensures r.Some? ==> |r.value| <= |t|
    decreases |t|
  {
    if t == [] then Some([])
    else if t[0] == '%' then
      if |t| < 3 then None
      else match (HexValue(t[1]), HexValue(t[2]))
        case (Some(hi), Some(lo)) =>
          (match PercentDecode(t[3..])
           case None => None
           case Some(rest) => Some([hi * 16 + lo] + rest))
        case _ => None
    else if (t[0] as int) < 0x80 then
      match PercentDecode(t[1..])
      case None => None
      case Some(rest) => Some([t[0] as int] + rest)
    else None
  }

  function Prepend(bytes: seq<Byte>, r: Option<seq<Byte>>): Option<seq<Byte>>
  {
    match r
    case None => None
    case Some(rest) => Some(bytes + rest)
  }

  lemma PercentByteDecode(b: Byte, t: string)
    ensures PercentDecode(PercentByte(b) + t) == Prepend([b], PercentDecode(t))
  {
    var u := PercentByte(b) + t;
    assert u[0] == '%' && u[1] == HexDigit(b / 16) && u[2] == HexDigit(b % 16);
    assert u[3..] == t;
    HexDigitValue(b / 16);
    HexDigitValue(b % 16);
  }

  lemma PrependTwice(b: Byte, bytes: seq<Byte>, r: Option<seq<Byte>>)
    ensures Prepend([b], Prepend(bytes, r)) == Prepend([b] + bytes, r)
  {
    match r
    case None =>
    case Some(rest) => assert [b] + (bytes + rest) == ([b] + bytes) + rest;
  }

  lemma PercentBytesCons(bytes: seq<Byte>, t: string)
    requires bytes != []
    ensures PercentBytes(bytes) + t == PercentByte(bytes[0]) + (PercentBytes(bytes[1..]) + t)
  {
  }

  lemma {:induction false} PercentBytesDecode(bytes: seq<Byte>, t: string)
    ensures PercentDecode(PercentBytes(bytes) + t) == Prepend(bytes, PercentDecode(t))
    decreases |bytes|
  {
    if bytes == [] {
      assert PercentBytes(bytes) + t == t;
      match PercentDecode(t)
      case None =>
      case Some(rest) => assert bytes + rest == rest;
    } else {
      var tail := PercentBytes(bytes[1..]);
      PercentBytesCons(bytes, t);
      PercentByteDecode(bytes[0], tail + t);
      PercentBytesDecode(bytes[1..], t);
      PrependTwice(bytes[0], bytes[1..], PercentDecode(t));
      assert [bytes[0]] + bytes[1..] == bytes;
    }
  }

  lemma EncodeCharDecode(c: char, t: string)
    ensures PercentDecode(EncodeChar(c) + t) == Prepend(Utf8Bytes(c), PercentDecode(t))
  {
    if IsUnescaped(c) {
      var u := [c] + t;
      assert u[1..] == t;
    } else {
      PercentBytesDecode(Utf8Bytes(c), t);
    }
  }

  /** Decoding the escaped text gives back exactly the UTF-8 bytes of the input. */
  lemma {:induction false} EncodeDecodeRoundTrip(s: string)
    ensures PercentDecode(EncodeUriComponent(s)) == Some(Utf8(s))
    decreases |s|
  {
    if s != [] {
      EncodeDecodeRoundTrip(s[1..]);
      EncodeCharDecode(s[0], EncodeUriComponent(s[1..]));
    }
  }

  /** A text made of unreserved characters and `%` signs only. */
  predicate Escaped(e: string)
  {
    forall c :: c in e ==> IsUnescaped(c) || c == '%'
  }

  lemma EscapedHasNoDelimiters(e: string)
    requires Escaped(e)
    ensures '&' !in e && '=' !in e && '#' !in e && '?' !in e && ' ' !in e
  {
  }

  /** The separators of a query string and a URL never survive encoding. */
  lemma EncodedHasNoDelimiters(s: string)
    ensures var e := EncodeUriComponent(s);
      '&' !in e && '=' !in e && '#' !in e && '?' !in e && ' ' !in e
  {
    EscapedHasNoDelimiters(EncodeUriComponent(s));
  }

  /** A text made only of unreserved characters is left as it is. */
  lemma {:induction false} UnescapedUnchanged(s: string)
    requires forall c :: c in s ==> IsUnescaped(c)
    ensures EncodeUriComponent(s) == s
    decreases |s|
  {
    if s != [] {
      assert s[0] in s;
      assert forall c :: c in s[1..] ==> c in s;
      UnescapedUnchanged(s[1..]);
    }
  }

  /** A space becomes `%20`. */
  lemma EncodeSpace()
    ensures EncodeUriComponent("a b") == "a%20b"
  {
    assert EncodeChar(' ') == PercentByte(32) == "%20";
    assert EncodeUriComponent("b") == "b";
    assert EncodeUriComponent(" b") == "%20" + "b";
  }

  /** A character outside ASCII becomes the escapes of its two UTF-8 bytes. */
  lemma EncodeAccent()
    ensures EncodeUriComponent("\U{E9}") == "%C3%A9"
  {
    assert Utf8Bytes('\U{E9}') == [0xC3, 0xA9];
    assert PercentByte(0xC3) == "%C3";
    assert PercentByte(0xA9) == "%A9";
    assert PercentBytes([0xA9]) == "%A9";
    assert PercentBytes([0xC3, 0xA9]) == "%C3" + PercentBytes([0xA9]);
  }
}
