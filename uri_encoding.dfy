/**
 * ECMAScript's `encodeURIComponent` (section 19.2.6.5 of ECMA-262): every
 * character outside the unreserved set `A-Z a-z 0-9 - _ . ! ~ * ' ( )` is
 * replaced by the `%XY` escapes of its UTF-8 bytes, with upper-case hex
 * digits (the percent-encoding of section 2.1 of RFC 3986). Dafny characters
 * are Unicode scalar values, so the lone-surrogate error case cannot arise.
 */
module UriEncoding {
  import opened Wrappers

  predicate IsUnreserved(c: char)
  {
    || ('A' <= c <= 'Z') || ('a' <= c <= 'z') || ('0' <= c <= '9')
    || c == '-' || c == '_' || c == '.' || c == '!' || c == '~'
    || c == '*' || c == '\'' || c == '(' || c == ')'
  }

  predicate IsUpperHex(c: char)
  {
    ('0' <= c <= '9') || ('A' <= c <= 'F')
  }

  /** What an encoded string may contain: unreserved characters, `%`
      and upper-case hex digits. */
  predicate IsEncodedChar(c: char)
  {
    IsUnreserved(c) || c == '%' || IsUpperHex(c)
  }

  predicate IsByte(b: nat) { b < 256 }

  predicate AllBytes(bs: seq<nat>)
  {
    forall k :: 0 <= k < |bs| ==> IsByte(bs[k])
  }

  function HexDigit(d: nat): (c: char)
    requires d < 16
    ensures IsUpperHex(c)
  {
    if d < 10 then ('0' as int + d) as char else ('A' as int + d - 10) as char
  }

  /** The value of a hex digit of either case. */
  function HexValue(c: char): (v: Option<nat>)
    ensures v.Some? ==> v.value < 16
  {
    if '0' <= c <= '9' then Some(c as int - '0' as int)
    else if 'A' <= c <= 'F' then Some(c as int - 'A' as int + 10)
    else if 'a' <= c <= 'f' then Some(c as int - 'a' as int + 10)
    else None
  }

  /** The UTF-8 bytes of a Unicode scalar value. */
  function Utf8(cp: nat): (bs: seq<nat>)
    requires cp <= 0x10FFFF
    ensures 1 <= |bs| <= 4 && AllBytes(bs)
  {
    if cp < 0x80 then [cp]
    else if cp < 0x800 then [0xC0 + cp / 64, 0x80 + cp % 64]
    else if cp < 0x10000 then [0xE0 + cp / 4096, 0x80 + (cp / 64) % 64, 0x80 + cp % 64]
    else [0xF0 + cp / 262144, 0x80 + (cp / 4096) % 64, 0x80 + (cp / 64) % 64, 0x80 + cp % 64]
  }

  /** `%XY` for one byte. */
  function PercentByte(b: nat): (t: string)
    requires IsByte(b)
    ensures |t| == 3 && t[0] == '%' && IsUpperHex(t[1]) && IsUpperHex(t[2])
  {
    ['%', HexDigit(b / 16), HexDigit(b % 16)]
  }

  function PercentBytes(bs: seq<nat>): (t: string)
    requires AllBytes(bs)
    ensures |t| == 3 * |bs|
    ensures forall k :: 0 <= k < |t| ==> IsEncodedChar(t[k])
  {
    if bs == [] then [] else PercentByte(bs[0]) + PercentBytes(bs[1..])
  }

  function EncodeChar(c: char): (t: string)
    ensures |t| >= 1
    ensures forall k :: 0 <= k < |t| ==> IsEncodedChar(t[k])
    ensures IsUnreserved(c) ==> t == [c]
    ensures !IsUnreserved(c) ==> t[0] == '%'
  {
    if IsUnreserved(c) then [c] else PercentBytes(Utf8(c as int))
  }

  /** `encodeURIComponent(s)`. */
  function Encode(s: string): (t: string)
    ensures |t| >= |s|
    ensures forall k :: 0 <= k < |t| ==> IsEncodedChar(t[k])
  {
    if s == [] then [] else EncodeChar(s[0]) + Encode(s[1..])
  }

  /** An encoded string never contains a path separator or white space, so
      it always stays within one path segment. */
  lemma EncodedIsOneSegment(s: string, k: nat)
    requires k < |Encode(s)|
    ensures Encode(s)[k] != '/' && Encode(s)[k] != ' '
  {
  }

  /** Strings made of unreserved characters pass through unchanged. */
  lemma {:induction false} EncodeKeepsUnreserved(s: string)
    requires forall k :: 0 <= k < |s| ==> IsUnreserved(s[k])
    ensures Encode(s) == s
  {
    if s != [] {
      EncodeKeepsUnreserved(s[1..]);
    }
  }

  // ---- A left inverse of Encode, used to show that Encode is injective ----

  /** The number of bytes announced by a UTF-8 lead byte. */
  function Utf8Length(b0: nat): nat
  {
    if b0 < 0x80 then 1 else if b0 < 0xE0 then 2 else if b0 < 0xF0 then 3 else 4
  }

  /** Reassembles a code point from its UTF-8 bytes. */
  function Utf8Value(bs: seq<nat>): int
    requires 1 <= |bs| <= 4
  {
    var b := seq(|bs|, k requires 0 <= k < |bs| => bs[k] as int);
    if |b| == 1 then b[0]
    else if |b| == 2 then (b[0] - 0xC0) * 64 + (b[1] - 0x80)
    else if |b| == 3 then (b[0] - 0xE0) * 4096 + (b[1] - 0x80) * 64 + (b[2] - 0x80)
    else (b[0] - 0xF0) * 262144 + (b[1] - 0x80) * 4096 + (b[2] - 0x80) * 64 + (b[3] - 0x80)
  }

  predicate IsScalar(v: int)
  {
    (0 <= v < 0xD800) || (0xE000 <= v <= 0x10FFFF)
  }

  lemma Utf8RoundTrip(cp: nat)
    requires IsScalar(cp)
    ensures Utf8Length(Utf8(cp)[0]) == |Utf8(cp)|
    ensures Utf8Value(Utf8(cp)) == cp
  {
    var q1 := cp / 64;
    var q2 := q1 / 64;
    var q3 := q2 / 64;
    assert cp == q1 * 64 + cp % 64;
    assert q1 == q2 * 64 + q1 % 64;
    assert q2 == q3 * 64 + q2 % 64;
    assert cp / 4096 == q2 by { Div4096(cp); }
    assert cp / 262144 == q3 by { Div262144(cp); Div4096(cp); }
  }

  lemma Div4096(x: nat)
    ensures x / 4096 == (x / 64) / 64
  {
    var q := (x / 64) / 64;
    assert x == 64 * (x / 64) + x % 64;
    assert x / 64 == 64 * q + (x / 64) % 64;
    assert x == 4096 * q + 64 * ((x / 64) % 64) + x % 64;
  }

  lemma Div262144(x: nat)
    ensures x / 262144 == (x / 4096) / 64
  {
    var q := (x / 4096) / 64;
    assert x == 4096 * (x / 4096) + x % 4096;
    assert x / 4096 == 64 * q + (x / 4096) % 64;
    assert x == 262144 * q + 4096 * ((x / 4096) % 64) + x % 4096;
  }

  /** Reads `n` `%XY` groups from the front of `t`. */
  function ParseBytes(t: string, n: nat): (r: Option<seq<nat>>)
    ensures r.Some? ==> |r.value| == n && 3 * n <= |t|
  {
    if n == 0 then Some([])
    else if |t| < 3 || t[0] != '%' then None
    else match (HexValue(t[1]), HexValue(t[2]))
      case (Some(hi), Some(lo)) =>
        (match ParseBytes(t[3..], n - 1)
         case Some(rest) => Some([hi * 16 + lo] + rest)
         case None => None)
      case _ => None
  }

  lemma {:induction false} ParseBytesOfPercentBytes(bs: seq<nat>, rest: string)
    requires AllBytes(bs)
    ensures ParseBytes(PercentBytes(bs) + rest, |bs|) == Some(bs)
  {
    if bs != [] {
      var t := PercentBytes(bs) + rest;
      assert t[3..] == PercentBytes(bs[1..]) + rest;
      var b := bs[0];
      assert HexValue(HexDigit(b / 16)) == Some(b / 16);
      assert HexValue(HexDigit(b % 16)) == Some(b % 16);
      ParseBytesOfPercentBytes(bs[1..], rest);
      assert [b] + bs[1..] == bs;
    }
  }

  /** Undoes the percent-encoding; None on text Encode never produces. */
  function Decode(t: string): Option<string>
    decreases |t|
  {
    if t == [] then Some([])
    else if t[0] != '%' then
      (match Decode(t[1..])
       case Some(rest) => Some([t[0]] + rest)
       case None => None)
    else if |t| < 3 then None
    else match (HexValue(t[1]), HexValue(t[2]))
      case (Some(hi), Some(lo)) =>
        var n := Utf8Length(hi * 16 + lo);
        (match ParseBytes(t, n)
         case Some(bs) =>
           var v := Utf8Value(bs);
           if !IsScalar(v) then None
           else
             (match Decode(t[3 * n..])
              case Some(rest) => Some([v as char] + rest)
              case None => None)
         case None => None)
      case _ => None
  }

  lemma DecodeEncodeChar(c: char, rest: string)
    ensures Decode(EncodeChar(c) + rest) ==
      match Decode(rest)
      case Some(r) => Some([c] + r)
      case None => None
  {
    var t := EncodeChar(c) + rest;
    if IsUnreserved(c) {
      assert t[0] == c && t[1..] == rest;
    } else {
      var bs := Utf8(c as int);
      Utf8RoundTrip(c as int);
      ParseBytesOfPercentBytes(bs, rest);
      var b := bs[0];
      assert t[1] == HexDigit(b / 16) && t[2] == HexDigit(b % 16);
      assert HexValue(HexDigit(b / 16)) == Some(b / 16);
      assert HexValue(HexDigit(b % 16)) == Some(b % 16);
      assert t[3 * |bs|..] == rest;
    }
  }

  /** Decoding recovers the original text. */
  lemma {:induction false} DecodeEncode(s: string)
    ensures Decode(Encode(s)) == Some(s)
  {
    if s != [] {
      DecodeEncode(s[1..]);
      DecodeEncodeChar(s[0], Encode(s[1..]));
      assert [s[0]] + s[1..] == s;
    }
  }

  /** Different texts have different encodings. */
  lemma EncodeInjective(s: string, u: string)
    requires Encode(s) == Encode(u)
    ensures s == u
  {
    DecodeEncode(s);
    DecodeEncode(u);
  }
}
