/**
  base64 (sections 4 and 5 of RFC 4648) and the tolerant decoding of _loose_b64:
  either alphabet, padding supplied, foreign characters skipped.
 */
module Base64 {
  import opened Common

  datatype Error = NotAscii | LeftoverDigits

  type Decoded = Result<seq<Byte>, Error>

  /** The digit for a six-bit value in the standard or in the URL-safe alphabet. */
  function Digit(v: nat, urlSafe: bool): char
    requires v < 64
  {
    if v < 26 then ('A' as int + v) as char
    else if v < 52 then ('a' as int + (v - 26)) as char
    else if v < 62 then ('0' as int + (v - 52)) as char
    else if v == 62 then (if urlSafe then '-' else '+')
    else (if urlSafe then '_' else '/')
  }

  /** The value of a digit; the URL-safe decoder reads its own two extra digits besides the standard ones. */
  function Value(c: char, urlSafe: bool): (v: Option<nat>)
    ensures v.Some? ==> v.value < 64
  {
    if 'A' <= c <= 'Z' then Some(c as int - 'A' as int)
    else if 'a' <= c <= 'z' then Some(c as int - 'a' as int + 26)
    else if '0' <= c <= '9' then Some(c as int - '0' as int + 52)
    else if c == '+' || (urlSafe && c == '-') then Some(62)
    else if c == '/' || (urlSafe && c == '_') then Some(63)
    else None
  }

  /** Tables 1 and 2 of RFC 4648: A to Z, a to z, 0 to 9, and the two that differ. */
  lemma AlphabetIs(v: nat, urlSafe: bool)
    requires v < 64
    ensures Digit(0, urlSafe) == 'A' && Digit(26, urlSafe) == 'a' && Digit(52, urlSafe) == '0'
    ensures v !in {25, 51} && v < 61 ==> Digit(v + 1, urlSafe) as int == Digit(v, urlSafe) as int + 1
    ensures Digit(62, false) == '+' && Digit(63, false) == '/' && Digit(62, true) == '-' && Digit(63, true) == '_'
  {}

  lemma ValueOfDigit(v: nat, urlSafe: bool)
    requires v < 64
    ensures Value(Digit(v, urlSafe), true) == Some(v)
    ensures !urlSafe ==> Value(Digit(v, urlSafe), false) == Some(v)
  {}

  /** The six-bit values of up to three bytes. */
  function Sextet0(b0: Byte): (v: nat)
    ensures v < 64
  {
    b0 / 4
  }

  function Sextet1(b0: Byte, b1: Byte): (v: nat)
    ensures v < 64
  {
    b0 % 4 * 16 + b1 / 16
  }

  function Sextet2(b1: Byte, b2: Byte): (v: nat)
    ensures v < 64
  {
    b1 % 16 * 4 + b2 / 64
  }

  function Sextet3(b2: Byte): (v: nat)
    ensures v < 64
  {
    b2 % 64
  }

  function OneByte(b0: Byte, urlSafe: bool): string {
    [Digit(Sextet0(b0), urlSafe), Digit(Sextet1(b0, 0), urlSafe)]
  }

  function TwoBytes(b0: Byte, b1: Byte, urlSafe: bool): string {
    [Digit(Sextet0(b0), urlSafe), Digit(Sextet1(b0, b1), urlSafe), Digit(Sextet2(b1, 0), urlSafe)]
  }

  function ThreeBytes(b0: Byte, b1: Byte, b2: Byte, urlSafe: bool): string {
    [Digit(Sextet0(b0), urlSafe), Digit(Sextet1(b0, b1), urlSafe),
     Digit(Sextet2(b1, b2), urlSafe), Digit(Sextet3(b2), urlSafe)]
  }

  /** Encoding without padding. */
  function Encode(bytes: seq<Byte>, urlSafe: bool): string {
    if |bytes| == 0 then ""
    else if |bytes| == 1 then OneByte(bytes[0], urlSafe)
    else if |bytes| == 2 then TwoBytes(bytes[0], bytes[1], urlSafe)
    else ThreeBytes(bytes[0], bytes[1], bytes[2], urlSafe) + Encode(bytes[3..], urlSafe)
  }

  /** Some of the test vectors in section 10 of RFC 4648: unused bits are zero. */
  lemma Vectors(urlSafe: bool)
    ensures Encode([0x66], urlSafe) == "Zg" && Encode([0x66, 0x6F], urlSafe) == "Zm8"
    ensures Encode([0x66, 0x6F, 0x6F], urlSafe) == "Zm9v"
  {
    assert [0x66, 0x6F, 0x6F][3..] == [] && Encode([], urlSafe) == "";
  }

  function Padding(length: nat): (p: string)
    ensures |p| < 4 && (length + |p|) % 4 == 0
    ensures forall c <- p :: c == '='
  {
    match length % 4
    case 0 => ""
    case 1 => "==="
    case 2 => "=="
    case 3 => "="
  }

  function Padded(text: string): string {
    text + Padding(|text|)
  }

  function Prepend(b: Byte, d: Decoded): Decoded {
    match d
    case Ok(bytes) => Ok([b] + bytes)
    case Err(e) => Err(e)
  }

  /** `left` holds the bits read but not yet written after `quad` digits of a group of four. */
  predicate Pending(quad: nat, left: nat) {
    match quad
    case 0 => left == 0
    case 1 => left < 64
    case 2 => left < 16
    case 3 => left < 4
    case _ => false
  }

  /**
    The decoder of binascii, not strict: padding ends the text once it completes
    a group, and is otherwise ignored like any character that is no digit.
   */
  function Scan(s: string, urlSafe: bool, quad: nat, left: nat, pads: nat): Decoded
    requires Pending(quad, left)
  {
    if s == "" then (if quad == 0 then Ok([]) else Err(LeftoverDigits))
    else if s[0] == '=' then
      if quad >= 2 && quad + pads + 1 >= 4 then Ok([])
      else Scan(s[1..], urlSafe, quad, left, if quad >= 2 then pads + 1 else pads)
    else
      match Value(s[0], urlSafe)
      case None => Scan(s[1..], urlSafe, quad, left, pads)
      case Some(v) =>
        if quad == 0 then Scan(s[1..], urlSafe, 1, v, 0)
        else if quad == 1 then Prepend(left * 4 + v / 16, Scan(s[1..], urlSafe, 2, v % 16, 0))
        else if quad == 2 then Prepend(left * 16 + v / 4, Scan(s[1..], urlSafe, 3, v % 4, 0))
        else Prepend(left * 64 + v, Scan(s[1..], urlSafe, 0, 0, 0))
  }

  /** Characters outside the alphabet are passed over, wherever they stand. */
  lemma {:induction false} ForeignSkipped(a: string, c: char, b: string, urlSafe: bool, quad: nat, left: nat, pads: nat)
    requires Pending(quad, left) && c != '=' && c !in {'+', '/'} && (urlSafe ==> c !in {'-', '_'})
    requires !('A' <= c <= 'Z') && !('a' <= c <= 'z') && !('0' <= c <= '9')
    ensures Scan(a + [c] + b, urlSafe, quad, left, pads) == Scan(a + b, urlSafe, quad, left, pads)
    decreases |a|
  {
    var s, t := a + [c] + b, a + b;
    if a == "" {
      assert s[1..] == b && t == b;
    } else {
      assert s[0] == a[0] && t[0] == a[0] && s[1..] == a[1..] + [c] + b && t[1..] == a[1..] + b;
      if a[0] == '=' {
        ForeignSkipped(a[1..], c, b, urlSafe, quad, left, if quad >= 2 then pads + 1 else pads);
      } else {
        match Value(a[0], urlSafe)
        case None => ForeignSkipped(a[1..], c, b, urlSafe, quad, left, pads);
        case Some(v) =>
          if quad == 0 { ForeignSkipped(a[1..], c, b, urlSafe, 1, v, 0); }
          else if quad == 1 { ForeignSkipped(a[1..], c, b, urlSafe, 2, v % 16, 0); }
          else if quad == 2 { ForeignSkipped(a[1..], c, b, urlSafe, 3, v % 4, 0); }
          else { ForeignSkipped(a[1..], c, b, urlSafe, 0, 0, 0); }
      }
    }
  }

  predicate Ascii(s: string) {
    forall i | 0 <= i < |s| :: s[i] as int < 128
  }

  /** _loose_b64: the URL-safe reading, and the standard one when that fails. */
  function LooseDecode(text: string): Decoded {
    var padded := Padded(text);
    if !Ascii(padded) then Err(NotAscii)
    else
      var r := Scan(padded, true, 0, 0, 0);
      if r.Ok? then r else Scan(padded, false, 0, 0, 0)
  }

  predicate IsDigitOf(c: char, urlSafe: bool) {
    exists v: nat :: v < 64 && c == Digit(v, urlSafe)
  }

  lemma {:induction false} EncodeUsesDigits(bytes: seq<Byte>, urlSafe: bool)
    ensures forall i | 0 <= i < |Encode(bytes, urlSafe)| :: IsDigitOf(Encode(bytes, urlSafe)[i], urlSafe)
  {
    if |bytes| >= 3 {
      EncodeUsesDigits(bytes[3..], urlSafe);
    }
  }

  /** One digit at the front of the text. */
  lemma ScanDigit(c: char, v: nat, rest: string, quad: nat, left: nat)
    requires Value(c, true) == Some(v) && Pending(quad, left)
    ensures Scan([c] + rest, true, quad, left, 0)
         == if quad == 0 then Scan(rest, true, 1, v, 0)
            else if quad == 1 then Prepend(left * 4 + v / 16, Scan(rest, true, 2, v % 16, 0))
            else if quad == 2 then Prepend(left * 16 + v / 4, Scan(rest, true, 3, v % 4, 0))
            else Prepend(left * 64 + v, Scan(rest, true, 0, 0, 0))
  {
    assert ([c] + rest)[1..] == rest;
  }

  lemma ScanTwo(c0: char, c1: char, v0: nat, v1: nat, rest: string)
    requires Value(c0, true) == Some(v0) && Value(c1, true) == Some(v1)
    ensures Scan([c0, c1] + rest, true, 0, 0, 0) == Prepend(v0 * 4 + v1 / 16, Scan(rest, true, 2, v1 % 16, 0))
  {
    assert [c0, c1] + rest == [c0] + ([c1] + rest);
    ScanDigit(c0, v0, [c1] + rest, 0, 0);
    ScanDigit(c1, v1, rest, 1, v0);
  }

  lemma ScanThree(c0: char, c1: char, c2: char, v0: nat, v1: nat, v2: nat, rest: string)
    requires Value(c0, true) == Some(v0) && Value(c1, true) == Some(v1) && Value(c2, true) == Some(v2)
    ensures Scan([c0, c1, c2] + rest, true, 0, 0, 0)
         == Prepend(v0 * 4 + v1 / 16, Prepend(v1 % 16 * 16 + v2 / 4, Scan(rest, true, 3, v2 % 4, 0)))
  {
    assert [c0, c1, c2] + rest == [c0, c1] + ([c2] + rest);
    ScanTwo(c0, c1, v0, v1, [c2] + rest);
    ScanDigit(c2, v2, rest, 2, v1 % 16);
  }

  lemma ScanFour(c0: char, c1: char, c2: char, c3: char, v0: nat, v1: nat, v2: nat, v3: nat, rest: string)
    requires Value(c0, true) == Some(v0) && Value(c1, true) == Some(v1)
    requires Value(c2, true) == Some(v2) && Value(c3, true) == Some(v3)
    ensures Scan([c0, c1, c2, c3] + rest, true, 0, 0, 0)
         == Prepend(v0 * 4 + v1 / 16,
              Prepend(v1 % 16 * 16 + v2 / 4,
                Prepend(v2 % 4 * 64 + v3, Scan(rest, true, 0, 0, 0))))
  {
    assert [c0, c1, c2, c3] + rest == [c0, c1, c2] + ([c3] + rest);
    ScanThree(c0, c1, c2, v0, v1, v2, [c3] + rest);
    ScanDigit(c3, v3, rest, 3, v2 % 4);
  }

  lemma SextetsHoldBytes(b0: Byte, b1: Byte, b2: Byte)
    ensures Sextet0(b0) * 4 + Sextet1(b0, b1) / 16 == b0
    ensures Sextet1(b0, b1) % 16 * 16 + Sextet2(b1, b2) / 4 == b1
    ensures Sextet2(b1, b2) % 4 * 64 + Sextet3(b2) == b2
  {}

  lemma ScanOfThreeBytes(b0: Byte, b1: Byte, b2: Byte, alphabet: bool, rest: string)
    ensures Scan(ThreeBytes(b0, b1, b2, alphabet) + rest, true, 0, 0, 0)
         == Prepend(b0, Prepend(b1, Prepend(b2, Scan(rest, true, 0, 0, 0))))
  {
    SextetsHoldBytes(b0, b1, b2);
    var v0, v1, v2, v3 := Sextet0(b0), Sextet1(b0, b1), Sextet2(b1, b2), Sextet3(b2);
    ValueOfDigit(v0, alphabet);
    ValueOfDigit(v1, alphabet);
    ValueOfDigit(v2, alphabet);
    ValueOfDigit(v3, alphabet);
    ScanFour(Digit(v0, alphabet), Digit(v1, alphabet), Digit(v2, alphabet), Digit(v3, alphabet), v0, v1, v2, v3, rest);
  }

  /** The padding that ends a text. */
  lemma ScanPadding(quad: nat, left: nat)
    requires (quad == 2 || quad == 3) && Pending(quad, left)
    ensures Scan(if quad == 2 then "==" else "=", true, quad, left, 0) == Ok([])
  {
    assert "=="[1..] == "=";
  }

  lemma ScanLastTwoDigits(c0: char, c1: char, v0: nat, v1: nat, b0: Byte)
    requires Value(c0, true) == Some(v0) && Value(c1, true) == Some(v1) && v0 * 4 + v1 / 16 == b0
    ensures Scan([c0, c1] + "==", true, 0, 0, 0) == Prepend(b0, Ok([]))
  {
    ScanTwo(c0, c1, v0, v1, "==");
    ScanPadding(2, v1 % 16);
  }

  lemma ScanLastThreeDigits(c0: char, c1: char, c2: char, v0: nat, v1: nat, v2: nat, b0: Byte, b1: Byte)
    requires Value(c0, true) == Some(v0) && Value(c1, true) == Some(v1) && Value(c2, true) == Some(v2)
    requires v0 * 4 + v1 / 16 == b0 && v1 % 16 * 16 + v2 / 4 == b1
    ensures Scan([c0, c1, c2] + "=", true, 0, 0, 0) == Prepend(b0, Prepend(b1, Ok([])))
  {
    ScanThree(c0, c1, c2, v0, v1, v2, "=");
    ScanPadding(3, v2 % 4);
  }

  lemma ScanLastOne(b0: Byte, alphabet: bool)
    ensures Scan(OneByte(b0, alphabet) + "==", true, 0, 0, 0) == Prepend(b0, Ok([]))
  {
    SextetsHoldBytes(b0, 0, 0);
    var v0, v1 := Sextet0(b0), Sextet1(b0, 0);
    ValueOfDigit(v0, alphabet);
    ValueOfDigit(v1, alphabet);
    ScanLastTwoDigits(Digit(v0, alphabet), Digit(v1, alphabet), v0, v1, b0);
  }

  lemma ScanLastTwo(b0: Byte, b1: Byte, alphabet: bool)
    ensures Scan(TwoBytes(b0, b1, alphabet) + "=", true, 0, 0, 0) == Prepend(b0, Prepend(b1, Ok([])))
  {
    SextetsHoldBytes(b0, b1, 0);
    var v0, v1, v2 := Sextet0(b0), Sextet1(b0, b1), Sextet2(b1, 0);
    ValueOfDigit(v0, alphabet);
    ValueOfDigit(v1, alphabet);
    ValueOfDigit(v2, alphabet);
    ScanLastThreeDigits(Digit(v0, alphabet), Digit(v1, alphabet), Digit(v2, alphabet), v0, v1, v2, b0, b1);
  }

  /** Decoding inverts encoding in either alphabet, once the missing padding is there. */
  lemma {:induction false} ScanEncoded(bytes: seq<Byte>, alphabet: bool)
    ensures Scan(Padded(Encode(bytes, alphabet)), true, 0, 0, 0) == Ok(bytes)
  {
    if |bytes| == 1 {
      ScanLastOne(bytes[0], alphabet);
      assert [bytes[0]] + [] == bytes;
    } else if |bytes| == 2 {
      ScanLastTwo(bytes[0], bytes[1], alphabet);
      assert [bytes[0]] + ([bytes[1]] + []) == bytes;
    } else if |bytes| >= 3 {
      ScanEncoded(bytes[3..], alphabet);
      ScanGroupThen(bytes, alphabet);
    }
  }

  lemma ScanGroupThen(bytes: seq<Byte>, alphabet: bool)
    requires |bytes| >= 3
    requires Scan(Padded(Encode(bytes[3..], alphabet)), true, 0, 0, 0) == Ok(bytes[3..])
    ensures Scan(Padded(Encode(bytes, alphabet)), true, 0, 0, 0) == Ok(bytes)
  {
    var b0, b1, b2, rest := bytes[0], bytes[1], bytes[2], Encode(bytes[3..], alphabet);
    PaddedGroup(ThreeBytes(b0, b1, b2, alphabet), rest);
    ScanOfThreeBytes(b0, b1, b2, alphabet, Padded(rest));
    ThreeInFront(b0, b1, b2, bytes[3..], bytes);
  }

  lemma PaddedGroup(group: string, rest: string)
    requires |group| == 4
    ensures Padded(group + rest) == group + Padded(rest)
  {
    assert Padding(|group + rest|) == Padding(|rest|);
  }

  lemma ThreeInFront(b0: Byte, b1: Byte, b2: Byte, tail: seq<Byte>, bytes: seq<Byte>)
    requires |bytes| >= 3 && bytes[..3] == [b0, b1, b2] && tail == bytes[3..]
    ensures Prepend(b0, Prepend(b1, Prepend(b2, Ok(tail)))) == Ok(bytes)
  {
    assert bytes == bytes[..3] + bytes[3..];
    assert [b0] + ([b1] + ([b2] + tail)) == [b0, b1, b2] + tail;
  }

  lemma EncodedIsAscii(bytes: seq<Byte>, alphabet: bool)
    ensures Ascii(Padded(Encode(bytes, alphabet)))
  {
    var text := Encode(bytes, alphabet);
    EncodeUsesDigits(bytes, alphabet);
    forall i | 0 <= i < |Padded(text)| ensures Padded(text)[i] as int < 128 {
      if i < |text| {
        assert IsDigitOf(text[i], alphabet);
      } else {
        assert Padded(text)[i] in Padding(|text|);
      }
    }
  }

  lemma PaddedIsPadded(text: string)
    ensures Padded(Padded(text)) == Padded(text)
  {
    assert Padding(|Padded(text)|) == "";
  }

  /** _loose_b64 inverts both encoders, whether they left the padding out or wrote it. */
  lemma LooseInvertsEncode(bytes: seq<Byte>, alphabet: bool)
    ensures LooseDecode(Encode(bytes, alphabet)) == Ok(bytes)
    ensures LooseDecode(Padded(Encode(bytes, alphabet))) == Ok(bytes)
  {
    EncodedIsAscii(bytes, alphabet);
    ScanEncoded(bytes, alphabet);
    PaddedIsPadded(Encode(bytes, alphabet));
  }

  /** Without foreign characters the one thing that can be wrong is a single leftover digit. */
  lemma {:induction false} ScanDigitsIff(s: string, quad: nat, left: nat)
    requires forall i | 0 <= i < |s| :: Value(s[i], true).Some?
    requires Pending(quad, left)
    ensures Scan(s + Padding(quad + |s|), true, quad, left, 0).Ok? <==> (quad + |s|) % 4 != 1
  {
    var pad := Padding(quad + |s|);
    if s == "" {
      assert s + pad == pad;
      PaddingAlone(pad, quad, left, 0);
    } else {
      assert (s + pad)[1..] == s[1..] + pad;
      var v := Value(s[0], true).value;
      if quad == 3 {
        assert Padding(|s| - 1) == pad;
        ScanDigitsIff(s[1..], 0, 0);
      } else {
        ScanDigitsIff(s[1..], quad + 1, if quad == 0 then v else if quad == 1 then v % 16 else v % 4);
      }
    }
  }

  lemma PaddingAlone(pad: string, quad: nat, left: nat, pads: nat)
    requires Pending(quad, left) && pads == 0 && pad == Padding(quad)
    ensures Scan(pad, true, quad, left, pads).Ok? <==> quad != 1
  {
    if quad == 1 {
      assert "==="[1..] == "==" && "=="[1..] == "=" && "="[1..] == "";
      assert Scan("", true, 1, left, 0).Err?;
      assert Scan("=", true, 1, left, 0).Err?;
      assert Scan("==", true, 1, left, 0).Err?;
    } else if quad == 2 {
      assert "=="[1..] == "=";
    }
  }

  /** A text of digits decodes exactly when its length is not one more than a multiple of four. */
  lemma DigitsDecodeIff(text: string)
    requires forall i | 0 <= i < |text| :: Value(text[i], false).Some?
    ensures LooseDecode(text).Ok? <==> |text| % 4 != 1
  {
    var padded := Padded(text);
    ScanDigitsIff(text, 0, 0);
    assert Ascii(padded);
    SameReading(padded, 0, 0, 0);
  }

  /** Without '-' and '_' the two decoders read the same. */
  lemma {:induction false} SameReading(s: string, quad: nat, left: nat, pads: nat)
    requires forall i | 0 <= i < |s| :: s[i] != '-' && s[i] != '_'
    requires Pending(quad, left)
    ensures Scan(s, true, quad, left, pads) == Scan(s, false, quad, left, pads)
    decreases |s|
  {
    if s != "" {
      if s[0] == '=' {
        SameReading(s[1..], quad, left, if quad >= 2 then pads + 1 else pads);
      } else {
        match Value(s[0], true)
        case None => SameReading(s[1..], quad, left, pads);
        case Some(v) =>
          if quad == 0 { SameReading(s[1..], 1, v, 0); }
          else if quad == 1 { SameReading(s[1..], 2, v % 16, 0); }
          else if quad == 2 { SameReading(s[1..], 3, v % 4, 0); }
          else { SameReading(s[1..], 0, 0, 0); }
      }
    }
  }
}
