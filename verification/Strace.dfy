/**
  decode_strace_string of the capture tool, and the length check that accepts a
  decoded read as one whole frame.
 */
module Strace {
  import opened Common
  import Framing
  import Utf8

  predicate IsOctal(c: char) {
    '0' <= c <= '7'
  }

  predicate AllOctal(s: string) {
    forall i | 0 <= i < |s| :: IsOctal(s[i])
  }

  /** The C shorthands. */
  function Shorthand(c: char): Option<Byte> {
    match c
    case 'n' => Some(10)
    case 't' => Some(9)
    case 'r' => Some(13)
    case 'f' => Some(12)
    case 'v' => Some(11)
    case 'a' => Some(7)
    case 'b' => Some(8)
    case _ => None
  }

  /** How many of the first `most` characters are octal digits, counted up to the first that is not. */
  function OctalRun(s: string, most: nat): (n: nat)
    ensures n <= |s| && n <= most && AllOctal(s[..n])
    ensures n < most ==> n == |s| || !IsOctal(s[n])
  {
    if most == 0 || s == "" || !IsOctal(s[0]) then 0 else 1 + OctalRun(s[1..], most - 1)
  }

  function OctalValue(digits: string): nat
    requires AllOctal(digits)
  {
    if digits == "" then 0
    else 8 * OctalValue(digits[..|digits| - 1]) + DigitValue(digits[|digits| - 1])
  }

  /** ValueError: an escape above \377, or a backslash with nothing behind it. */
  datatype Error = OctalTooLarge | LoneBackslash

  type Decoded = Result<seq<Byte>, Error>

  function Prepend(front: seq<Byte>, d: Decoded): Decoded {
    match d
    case Ok(bytes) => Ok(front + bytes)
    case Err(e) => Err(e)
  }

  /** One escape or one character: the bytes it stands for and the length of its text. */
  function Token(raw: string): Result<(seq<Byte>, nat), Error>
    requires raw != ""
  {
    if raw[0] != '\\' then Ok((Utf8.EncodeChar(raw[0]), 1))
    else if |raw| == 1 then Err(LoneBackslash)
    else if IsOctal(raw[1]) then
      var n := OctalRun(raw[1..], 3);
      var value := OctalValue(raw[1..][..n]);
      if value > 255 then Err(OctalTooLarge) else Ok(([value], 1 + n))
    else if Shorthand(raw[1]).Some? then Ok(([Shorthand(raw[1]).value], 2))
    else Ok((Utf8.EncodeChar(raw[1]), 2))
  }

  /** Every token has a length, so the cursor always advances. */
  lemma TokenAdvances(raw: string)
    requires raw != "" && Token(raw).Ok?
    ensures 1 <= Token(raw).value.1 <= |raw|
  {}

  function Meaning(raw: string): Decoded
    decreases |raw|
  {
    if raw == "" then Ok([])
    else
      match Token(raw)
      case Err(e) => Err(e)
      case Ok((bytes, n)) =>
        TokenAdvances(raw);
        Prepend(bytes, Meaning(raw[n..]))
  }

  /** What an escape with a letter or any other character but an octal digit stands for. */
  lemma LetterEscapeMeans(c: char, rest: string)
    requires !('0' <= c <= '7')
    ensures Meaning(['\\', c] + rest) == Prepend(
      match c
      case 'n' => [0x0A]
      case 't' => [0x09]
      case 'r' => [0x0D]
      case 'f' => [0x0C]
      case 'v' => [0x0B]
      case 'a' => [0x07]
      case 'b' => [0x08]
      case _ => Utf8.EncodeChar(c), Meaning(rest))
  {
    var raw := ['\\', c] + rest;
    assert raw[2..] == rest && raw[0] == '\\' && raw[1] == c;
  }

  lemma PrependTwice(a: seq<Byte>, b: seq<Byte>, d: Decoded)
    ensures Prepend(a, Prepend(b, d)) == Prepend(a + b, d)
  {
    if d.Ok? {
      assert a + (b + d.value) == a + b + d.value;
    }
  }

  lemma MeaningStep(text: string, token: Result<(seq<Byte>, nat), Error>)
    requires text != "" && token == Token(text)
    ensures token.Err? ==> Meaning(text) == Err(token.error)
    ensures token.Ok? ==> 1 <= token.value.1 <= |text|
    ensures token.Ok? ==> Meaning(text) == Prepend(token.value.0, Meaning(text[token.value.1..]))
  {
    if token.Ok? {
      TokenAdvances(text);
    }
  }

  /** Up to three octal digits are one byte, and more than 255 is an error. */
  lemma OctalEscapeMeans(t: string, rest: string)
    requires 1 <= |t| <= 3 && AllOctal(t) && (|t| == 3 || rest == "" || !IsOctal(rest[0]))
    ensures
      var d0, d1, d2 := DigitAt(t, 0), DigitAt(t, 1), DigitAt(t, 2);
      var value := if |t| == 1 then d0 else if |t| == 2 then 8 * d0 + d1 else 64 * d0 + 8 * d1 + d2;
      Meaning("\\" + t + rest) == if value > 0xFF then Err(OctalTooLarge) else Prepend([value], Meaning(rest))
  {
    var raw := "\\" + t + rest;
    OctalValueIs(t);
    Behind(t, rest);
    OctalToken(raw, t + rest, t);
    MeaningStep(raw, Token(raw));
  }

  /** So is a backslash at the end. */
  lemma LoneBackslashRefused()
    ensures Meaning("\\") == Err(LoneBackslash)
  {}

  lemma Behind(t: string, rest: string)
    requires t != ""
    ensures var raw := "\\" + t + rest; raw[0] == '\\' && raw[1..] == t + rest && raw[1 + |t|..] == rest
    ensures var tail := t + rest; tail[..|t|] == t && tail[0] == t[0] && (|t| < |tail| ==> tail[|t|] == rest[0])
  {}

  lemma OctalToken(raw: string, tail: string, t: string)
    requires raw != "" && raw[0] == '\\' && raw[1..] == tail && t != "" && tail != "" && IsOctal(tail[0])
    requires |t| <= |tail| && |t| <= 3 && tail[..|t|] == t && AllOctal(t)
    requires |t| == 3 || |t| == |tail| || !IsOctal(tail[|t|])
    ensures Token(raw) == if OctalValue(t) > 255 then Err(OctalTooLarge) else Ok(([OctalValue(t)], 1 + |t|))
  {
    OctalRunIs(tail, 3, |t|);
    assert raw[1] == tail[0];
  }

  lemma OctalValueIs(t: string)
    requires 1 <= |t| <= 3 && AllOctal(t)
    ensures
      var d0, d1, d2 := DigitAt(t, 0), DigitAt(t, 1), DigitAt(t, 2);
      OctalValue(t) == if |t| == 1 then d0 else if |t| == 2 then 8 * d0 + d1 else 64 * d0 + 8 * d1 + d2
  {
    assert OctalValue(t[..1]) == DigitAt(t, 0) by {
      assert t[..1][..0] == "";
    }
    if |t| == 1 {
      assert t[..1] == t;
    } else {
      assert OctalValue(t[..2]) == 8 * DigitAt(t, 0) + DigitAt(t, 1) by {
        assert t[..2][..1] == t[..1];
      }
      assert |t| == 2 ==> t[..2] == t;
    }
  }

  function DigitAt(t: string, i: nat): nat
    requires AllOctal(t)
  {
    if i < |t| then t[i] as int - '0' as int else 0
  }

  lemma {:induction false} OctalRunIs(s: string, most: nat, n: nat)
    requires n <= |s| && n <= most && AllOctal(s[..n])
    requires n == most || n == |s| || !IsOctal(s[n])
    ensures OctalRun(s, most) == n
  {
    if n > 0 {
      assert s[..n][0] == s[0] && s[1..][..n - 1] == s[..n][1..];
      OctalRunIs(s[1..], most - 1, n - 1);
    }
  }

  /** The digit loop: from position i up to three octal digits. */
  method ReadDigits(raw: string, i: nat) returns (digits: string, j: nat)
    requires i <= |raw|
    ensures i <= j <= |raw| && j == i + OctalRun(raw[i..], 3) && digits == raw[i..][..j - i]
    ensures AllOctal(digits)
  {
    digits, j := "", i;
    while j < |raw| && IsOctal(raw[j]) && |digits| < 3
      invariant i <= j <= |raw| && |digits| == j - i <= 3
      invariant digits == raw[i..][..j - i] && AllOctal(digits)
      decreases |raw| - j
    {
      digits := digits + [raw[j]];
      j := j + 1;
    }
    OctalRunIs(raw[i..], 3, j - i);
  }

  /** The bytes so far and the meaning of the text from position i on make up the whole. */
  ghost predicate Progress(raw: string, i: nat, out: seq<Byte>, whole: Decoded) {
    i <= |raw| && whole == Prepend(out, Meaning(raw[i..]))
  }

  lemma TokenProgresses(text: string, out: seq<Byte>, token: Result<(seq<Byte>, nat), Error>, whole: Decoded)
    requires text != "" && token == Token(text) && whole == Prepend(out, Meaning(text))
    ensures token.Err? ==> whole == Err(token.error)
    ensures token.Ok? ==> 1 <= token.value.1 <= |text|
    ensures token.Ok? ==> whole == Prepend(out + token.value.0, Meaning(text[token.value.1..]))
  {
    MeaningStep(text, token);
    if token.Ok? {
      PrependTwice(out, token.value.0, Meaning(text[token.value.1..]));
    }
  }

  lemma StepProgresses(raw: string, i: nat, out: seq<Byte>, token: Result<(seq<Byte>, nat), Error>, whole: Decoded)
    requires i < |raw| && token == Token(raw[i..]) && Progress(raw, i, out, whole)
    ensures token.Err? ==> whole == Err(token.error)
    ensures token.Ok? ==> token.value.1 >= 1 && Progress(raw, i + token.value.1, out + token.value.0, whole)
  {
    TokenProgresses(raw[i..], out, token, whole);
    if token.Ok? {
      assert raw[i..][token.value.1..] == raw[i + token.value.1..];
    }
  }

  /** The body of the decoding loop: what stands at position i, and its length. */
  method NextToken(raw: string, i: nat) returns (r: Result<(seq<Byte>, nat), Error>)
    requires i < |raw|
    ensures r == Token(raw[i..])
  {
    var ch := raw[i];
    if ch != '\\' { return Ok((Utf8.EncodeChar(ch), 1)); }
    if i + 1 == |raw| { return Err(LoneBackslash); }
    var next := raw[i + 1];
    assert raw[i..][1..] == raw[i + 1..];
    if IsOctal(next) {
      var digits, j := ReadDigits(raw, i + 1);
      var value := OctalValue(digits);
      if value > 255 { return Err(OctalTooLarge); }
      return Ok(([value], j - i));
    } else if Shorthand(next).Some? {
      return Ok(([Shorthand(next).value], 2));
    } else {
      return Ok((Utf8.EncodeChar(next), 2));
    }
  }

  /** One turn of the decoding loop. */
  method Advance(raw: string, i: nat, out: seq<Byte>, ghost whole: Decoded)
    returns (r: Result<(seq<Byte>, nat), Error>)
    requires i < |raw| && Progress(raw, i, out, whole)
    ensures r.Err? ==> whole == Err(r.error)
    ensures r.Ok? ==> i < r.value.1 && Progress(raw, r.value.1, r.value.0, whole)
  {
    var token := NextToken(raw, i);
    StepProgresses(raw, i, out, token, whole);
    if token.Err? { return Err(token.error); }
    return Ok((out + token.value.0, i + token.value.1));
  }

  lemma ProgressStarts(raw: string)
    ensures Progress(raw, 0, [], Meaning(raw))
  {
    assert raw[0..] == raw;
    PrependNothing(Meaning(raw));
  }

  lemma ProgressEnds(raw: string, out: seq<Byte>, whole: Decoded)
    requires Progress(raw, |raw|, out, whole)
    ensures whole == Ok(out)
  {
    assert raw[|raw|..] == "" && out + [] == out;
  }

  /** decode_strace_string */
  method Decode(raw: string) returns (r: Decoded)
    ensures r == Meaning(raw)
  {
    var out: seq<Byte>, i := [], 0;
    ghost var whole := Meaning(raw);
    ProgressStarts(raw);
    while i < |raw|
      invariant i <= |raw| && Progress(raw, i, out, whole)
      decreases |raw| - i
    {
      var next := Advance(raw, i, out, whole);
      if next.Err? { return Err(next.error); }
      out, i := next.value.0, next.value.1;
    }
    ProgressEnds(raw, out, whole);
    return Ok(out);
  }

  lemma PrependNothing(d: Decoded)
    ensures Prepend([], d) == d
  {
    if d.Ok? {
      assert [] + d.value == d.value;
    }
  }

  // ── Quoting ────────────────────────────────────────────────────────────────

  /** t is a way to print byte b when the text `rest` follows it. */
  predicate Prints(b: Byte, t: string, rest: string) {
    || (t == [b as char] && 0x20 <= b < 0x7F && t[0] != '\\' && t[0] != '"')
    || (|t| == 2 && t[0] == '\\' && Shorthand(t[1]) == Some(b))
    || (|t| == 2 && t[0] == '\\' && t[1] as int == b < 0x80 && !IsOctal(t[1]) && Shorthand(t[1]).None?)
    || (2 <= |t| <= 4 && t[0] == '\\' && AllOctal(t[1..]) && OctalValue(t[1..]) == b
        && (|t| == 4 || rest == "" || !IsOctal(rest[0])))
  }

  /** The text prints the bytes one after the other, each in any of its ways. */
  ghost predicate IsQuoting(bytes: seq<Byte>, text: string) {
    if |bytes| == 0 then text == ""
    else exists n ::
      && 0 < n <= |text| && Prints(bytes[0], text[..n], text[n..]) && IsQuoting(bytes[1..], text[n..])
  }

  lemma TokenOfPrint(b: Byte, t: string, rest: string)
    requires t != "" && Prints(b, t, rest)
    ensures Token(t + rest) == Ok(([b], |t|))
  {
    var raw := t + rest;
    if t[0] == '\\' && IsOctal(t[1]) {
      assert raw[1..][..|t| - 1] == t[1..];
      assert |t| < 4 && rest != "" ==> raw[1..][|t| - 1] == rest[0];
      OctalRunIs(raw[1..], 3, |t| - 1);
    }
  }

  lemma PrintedInFront(bytes: seq<Byte>, text: string, n: nat)
    requires |bytes| > 0 && 0 < n <= |text| && Prints(bytes[0], text[..n], text[n..])
    requires Meaning(text[n..]) == Ok(bytes[1..])
    ensures Meaning(text) == Ok(bytes)
  {
    assert text == text[..n] + text[n..];
    TokenOfPrint(bytes[0], text[..n], text[n..]);
    assert [bytes[0]] + bytes[1..] == bytes;
  }

  /** Decoding inverts every quoting. */
  lemma {:induction false} DecodeInvertsQuoting(bytes: seq<Byte>, text: string)
    requires IsQuoting(bytes, text)
    ensures Meaning(text) == Ok(bytes)
  {
    if |bytes| > 0 {
      var n :| 0 < n <= |text| && Prints(bytes[0], text[..n], text[n..]) && IsQuoting(bytes[1..], text[n..]);
      DecodeInvertsQuoting(bytes[1..], text[n..]);
      PrintedInFront(bytes, text, n);
    }
  }

  function OctalDigit(d: nat): char
    requires d < 8
  {
    DigitChar(d)
  }

  /** Octal with the fewest digits, or with three when a digit follows. */
  function OctalEscape(b: Byte, digitFollows: bool): string {
    if digitFollows || b >= 64 then ['\\', OctalDigit(b / 64), OctalDigit(b / 8 % 8), OctalDigit(b % 8)]
    else if b >= 8 then ['\\', OctalDigit(b / 8), OctalDigit(b % 8)]
    else ['\\', OctalDigit(b)]
  }

  /** strace's own choice for a byte. */
  function PrintByte(b: Byte, rest: string): string {
    if b == 10 then "\\n" else if b == 9 then "\\t" else if b == 13 then "\\r"
    else if b == 12 then "\\f" else if b == 11 then "\\v"
    else if b == '"' as int || b == '\\' as int then ['\\', b as char]
    else if 0x20 <= b < 0x7F then [b as char]
    else OctalEscape(b, rest != "" && IsOctal(rest[0]))
  }

  /** How strace writes the bytes it escapes, in front of a text that begins with a digit and of one that does not. */
  lemma StraceWrites(rest: string)
    requires rest == "" || !IsOctal(rest[0])
    ensures PrintByte(0x0A, rest) == "\\n" && PrintByte(0x09, rest) == "\\t" && PrintByte(0x0D, rest) == "\\r"
    ensures PrintByte(0x0C, rest) == "\\f" && PrintByte(0x0B, rest) == "\\v"
    ensures PrintByte(0x22, rest) == "\\\"" && PrintByte(0x5C, rest) == "\\\\"
    ensures PrintByte(0x20, rest) == " " && PrintByte(0x7E, rest) == "~" && PrintByte(0x7F, rest) == "\\177"
    ensures PrintByte(0x00, rest) == "\\0" && PrintByte(0x07, rest) == "\\7" && PrintByte(0x08, rest) == "\\10"
    ensures PrintByte(0x00, "7") == "\\000" && PrintByte(0x1F, "0") == "\\037" && PrintByte(0xC8, rest) == "\\310"
  {}

  function Quote(bytes: seq<Byte>): string {
    if |bytes| == 0 then ""
    else
      var rest := Quote(bytes[1..]);
      PrintByte(bytes[0], rest) + rest
  }

  lemma OctalEscapeValue(b: Byte, digitFollows: bool)
    ensures var t := OctalEscape(b, digitFollows);
      2 <= |t| <= 4 && t[0] == '\\' && AllOctal(t[1..]) && OctalValue(t[1..]) == b && (digitFollows ==> |t| == 4)
  {
    var t := OctalEscape(b, digitFollows);
    var d := t[1..];
    assert d[..|d| - 1] == t[1..|t| - 1];
    if |d| >= 2 {
      assert d[..|d| - 1][..|d| - 2] == t[1..|t| - 2];
      assert OctalValue(d[..|d| - 1]) == b / 8 by {
        if |d| == 3 {
          assert OctalValue(t[1..2]) == b / 64 by {
            assert t[1..2][..0] == "";
          }
        } else {
          assert t[1..2][..0] == "";
        }
      }
    }
  }

  lemma PrintBytePrints(b: Byte, rest: string)
    ensures PrintByte(b, rest) != "" && Prints(b, PrintByte(b, rest), rest)
  {
    OctalEscapeValue(b, rest != "" && IsOctal(rest[0]));
  }

  /** strace's quoting is one of them, so decoding gives every byte sequence back. */
  lemma {:induction false} DecodeInvertsStrace(bytes: seq<Byte>)
    ensures IsQuoting(bytes, Quote(bytes)) && Meaning(Quote(bytes)) == Ok(bytes)
  {
    if |bytes| > 0 {
      var rest := Quote(bytes[1..]);
      var front := PrintByte(bytes[0], rest);
      DecodeInvertsStrace(bytes[1..]);
      PrintBytePrints(bytes[0], rest);
      assert Quote(bytes)[..|front|] == front && Quote(bytes)[|front|..] == rest;
    }
    DecodeInvertsQuoting(bytes, Quote(bytes));
  }

  // ── Frames in a capture ────────────────────────────────────────────────────

  predicate AnnouncesOwnLength(payload: seq<Byte>) {
    |payload| >= 4 && Framing.FromBigEndian(payload[..4]) == |payload| - 4
  }

  /** Passing the length check means being one whole frame, of exactly the bytes after the header. */
  lemma WholeFrameIff(payload: seq<Byte>, p: seq<Byte>)
    requires |p| < Framing.MAX_LENGTH
    ensures payload == Framing.Frame(p) <==> AnnouncesOwnLength(payload) && payload[4..] == p
  {
    if payload == Framing.Frame(p) {
      Framing.BigEndianRoundTrip(|p|);
      assert payload[..4] == Framing.BigEndian(|p|);
    } else if |payload| >= 4 {
      Framing.BigEndianUnique(payload[..4]);
      assert payload == payload[..4] + payload[4..];
    }
  }

  /**
    The check of extract_start_frames on one read of the capture: the body, when
    the decoded bytes are one whole frame; a bad escape stops the tool.
   */
  method ExtractBody(raw: string) returns (r: Result<Option<seq<Byte>>, Error>)
    ensures r.Err? <==> Meaning(raw).Err?
    ensures r.Ok? ==> (r.value.Some? <==> AnnouncesOwnLength(Meaning(raw).value))
    ensures r.Ok? && r.value.Some? ==> |r.value.value| < Framing.MAX_LENGTH
    ensures r.Ok? && r.value.Some? ==> Meaning(raw).value == Framing.Frame(r.value.value)
  {
    var decoded := Decode(raw);
    if decoded.Err? { return Err(decoded.error); }
    var payload := decoded.value;
    if |payload| < 4 { return Ok(None); }
    var length := Framing.FromBigEndian(payload[..4]);
    var body := payload[4..];
    if |body| != length { return Ok(None); }
    Framing.BigEndianUnique(payload[..4]);
    WholeFrameIff(payload, body);
    return Ok(Some(body));
  }
}
