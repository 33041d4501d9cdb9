/** UTF-8 as Python's str.encode and bytes.decode(errors="replace") use it. */
module Utf8 {
  import opened Common

  const REPLACEMENT := '\U{FFFD}'

  function EncodeChar(c: char): (bytes: seq<Byte>)
    ensures 1 <= |bytes| <= 4
  {
    var n := c as int;
    if n < 0x80 then [n]
    else if n < 0x800 then [0xC0 + n / 64, 0x80 + n % 64]
    else if n < 0x1_0000 then [0xE0 + n / 4096, 0x80 + n / 64 % 64, 0x80 + n % 64]
    else [0xF0 + n / 26_2144, 0x80 + n / 4096 % 64, 0x80 + n / 64 % 64, 0x80 + n % 64]
  }

  /** One character of each length. */
  lemma OneOfEachLength()
    ensures EncodeChar('A') == [0x41]
    ensures EncodeChar('\U{E9}') == [0xC3, 0xA9]
    ensures EncodeChar('\U{20AC}') == [0xE2, 0x82, 0xAC]
    ensures EncodeChar('\U{10348}') == [0xF0, 0x90, 0x8D, 0x88]
  {}

  function Encode(s: string): seq<Byte> {
    if s == "" then [] else EncodeChar(s[0]) + Encode(s[1..])
  }

  predicate Continuation(b: Byte) {
    0x80 <= b < 0xC0
  }

  /** The number the first n bytes carry, when they have the form of an n-byte sequence. */
  function Payload(bytes: seq<Byte>, n: nat): Option<int>
    requires 1 <= n <= 4
  {
    if |bytes| < n || exists i | 1 <= i < n :: !Continuation(bytes[i]) then None
    else
      var b := bytes[0];
      if n == 1 && b < 0x80 then Some(b as int)
      else if n == 2 && 0xC0 <= b < 0xE0 then Some((b as int - 0xC0) * 64 + (bytes[1] as int - 0x80))
      else if n == 3 && 0xE0 <= b < 0xF0 then
        Some((b as int - 0xE0) * 4096 + (bytes[1] as int - 0x80) * 64 + (bytes[2] as int - 0x80))
      else if n == 4 && 0xF0 <= b < 0xF8 then
        Some((b as int - 0xF0) * 26_2144 + (bytes[1] as int - 0x80) * 4096
             + (bytes[2] as int - 0x80) * 64 + (bytes[3] as int - 0x80))
      else None
  }

  /** Shortest form only, no surrogates, nothing past the last code point. */
  predicate Proper(value: int, n: nat) {
    match n
    case 1 => 0 <= value < 0x80
    case 2 => 0x80 <= value < 0x800
    case 3 => 0x800 <= value < 0xD800 || 0xE000 <= value < 0x1_0000
    case 4 => 0x1_0000 <= value < 0x11_0000
    case _ => false
  }

  function TryDecode(bytes: seq<Byte>, n: nat): Option<char>
    requires 1 <= n <= 4
  {
    var v := Payload(bytes, n);
    if v.Some? && Proper(v.value, n) then Some(v.value as char) else None
  }

  /** The length of the well-formed sequence at the front, 0 when there is none. */
  function FrontLength(bytes: seq<Byte>): (n: nat)
    ensures n <= |bytes| && n <= 4
    ensures n > 0 ==> TryDecode(bytes, n).Some?
  {
    if TryDecode(bytes, 1).Some? then 1
    else if TryDecode(bytes, 2).Some? then 2
    else if TryDecode(bytes, 3).Some? then 3
    else if TryDecode(bytes, 4).Some? then 4
    else 0
  }

  /** Bytes that start no well-formed sequence become one replacement character each. */
  function Decode(bytes: seq<Byte>): string {
    if |bytes| == 0 then ""
    else
      var n := FrontLength(bytes);
      if n == 0 then [REPLACEMENT] + Decode(bytes[1..])
      else [TryDecode(bytes, n).value] + Decode(bytes[n..])
  }

  /** A byte that can start no sequence is replaced, and decoding goes on behind it. */
  lemma StrayByteReplaced(b: Byte, rest: seq<Byte>)
    requires 0x80 <= b < 0xC2 || b >= 0xF5
    ensures Decode([b] + rest) == ['\U{FFFD}'] + Decode(rest)
  {
    assert ([b] + rest)[1..] == rest;
  }

  lemma SixBitGroups(n: nat)
    ensures n == n / 64 * 64 + n % 64 && 0 <= n % 64 < 64
    ensures n == n / 4096 * 4096 + n / 64 % 64 * 64 + n % 64
    ensures n == n / 26_2144 * 26_2144 + n / 4096 % 64 * 4096 + n / 64 % 64 * 64 + n % 64
  {
    assert n / 64 / 64 == n / 4096 && n / 4096 / 64 == n / 26_2144;
  }

  lemma TwoBytes(c: char, rest: seq<Byte>)
    requires 0x80 <= c as int < 0x800
    ensures Payload(EncodeChar(c) + rest, 1).None? && Payload(EncodeChar(c) + rest, 2) == Some(c as int)
  {
    SixBitGroups(c as int);
  }

  lemma ThreeBytes(c: char, rest: seq<Byte>)
    requires 0x800 <= c as int < 0x1_0000
    ensures Payload(EncodeChar(c) + rest, 1).None? && Payload(EncodeChar(c) + rest, 2).None?
    ensures Payload(EncodeChar(c) + rest, 3) == Some(c as int)
  {
    SixBitGroups(c as int);
  }

  lemma FourBytes(c: char, rest: seq<Byte>)
    requires 0x1_0000 <= c as int
    ensures Payload(EncodeChar(c) + rest, 1).None? && Payload(EncodeChar(c) + rest, 2).None?
    ensures Payload(EncodeChar(c) + rest, 3).None? && Payload(EncodeChar(c) + rest, 4) == Some(c as int)
  {
    SixBitGroups(c as int);
  }

  lemma CharRoundTrip(c: char, rest: seq<Byte>)
    ensures var bytes := EncodeChar(c) + rest;
      FrontLength(bytes) == |EncodeChar(c)| && TryDecode(bytes, |EncodeChar(c)|) == Some(c)
  {
    var n := c as int;
    if n >= 0x1_0000 {
      FourBytes(c, rest);
    } else if n >= 0x800 {
      ThreeBytes(c, rest);
    } else if n >= 0x80 {
      TwoBytes(c, rest);
    }
  }

  lemma {:induction false} RoundTrip(s: string)
    ensures Decode(Encode(s)) == s
  {
    if s != "" {
      RoundTrip(s[1..]);
      CharRoundTrip(s[0], Encode(s[1..]));
      var n := |EncodeChar(s[0])|;
      assert Encode(s)[n..] == Encode(s[1..]);
    }
  }
}
