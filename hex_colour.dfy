/**
 * parseHexColor: a colour from 8, 6, 4 or 3 hexadecimal digits, with the digit
 * groups read by fmt.Sscanf's %02x or %1x verbs into the channels of a color.RGBA.
 */
module HexColour {
  import opened Wrappers
  import opened Colours

  predicate IsHexDigit(c: char) { '0' <= c <= '9' || 'a' <= c <= 'f' || 'A' <= c <= 'F' }

  predicate AllHex(s: string) { forall i :: 0 <= i < |s| ==> IsHexDigit(s[i]) }

  function HexDigitValue(c: char): (d: nat)
    requires IsHexDigit(c)
    ensures d < 16
  {
    if c <= '9' then c as int - '0' as int
    else if c <= 'F' then c as int - 'A' as int + 10
    else c as int - 'a' as int + 10
  }

  /** The lower-case hex digit of a nibble, as Go's %x prints it. */
  function HexDigitChar(d: nat): (c: char)
    requires d < 16
    ensures IsHexDigit(c) && HexDigitValue(c) == d
  {
    if d < 10 then ('0' as int + d) as char else ('a' as int + d - 10) as char
  }

  /** Go's len(s): the number of bytes of the UTF-8 encoding of s. */
  function Utf8Length(s: string): nat
  {
    if |s| == 0 then 0
    else
      var c := s[0] as int;
      (if c < 0x80 then 1 else if c < 0x800 then 2 else if c < 0x10000 then 3 else 4) + Utf8Length(s[1..])
  }

  predicate AllAscii(s: string) { forall i :: 0 <= i < |s| ==> s[i] < 128 as char }

  /** A byte count is never less than the character count, and equals it exactly on ASCII text. */
  lemma {:induction false} Utf8LengthBounds(s: string)
    ensures Utf8Length(s) >= |s|
    ensures Utf8Length(s) == |s| <==> AllAscii(s)
  {
    if |s| > 0 {
      Utf8LengthBounds(s[1..]);
      if AllAscii(s[1..]) && s[0] < 128 as char {
        assert forall i :: 0 <= i < |s| ==> s[i] < 128 as char by {
          forall i | 0 < i < |s| ensures s[i] < 128 as char { assert s[i] == s[1..][i - 1]; }
        }
      }
      if AllAscii(s) {
        assert forall i :: 0 <= i < |s| - 1 ==> s[1..][i] < 128 as char by {
          forall i | 0 <= i < |s| - 1 ensures s[1..][i] < 128 as char { assert s[1..][i] == s[i + 1]; }
        }
      }
    }
  }

  // ---------------------------------------------------------------------------
  // fmt.Sscanf with %<width>x into uint8 operands

  /** How many hex digits a %<width>x verb takes from the front of s: all leading ones, at most width. */
  function HexRun(s: string, width: nat): (n: nat)
    ensures n <= width && n <= |s|
    ensures forall i :: 0 <= i < n ==> IsHexDigit(s[i])
    ensures n < width && n < |s| ==> !IsHexDigit(s[n])
  {
    if width == 0 || |s| == 0 || !IsHexDigit(s[0]) then 0
    else 1 + HexRun(s[1..], width - 1)
  }

  /** The value of a hex digit string, most significant digit first. */
  function HexValue(s: string): nat
    requires AllHex(s)
  {
    if |s| == 0 then 0 else HexValue(s[..|s| - 1]) * 16 + HexDigitValue(s[|s| - 1])
  }

  /**
   * One %<width>x verb scanning into a uint8: the token it reads and how many characters it
   * used; None when no hex digit is there or the token overflows 8 bits.
   */
  function ScanUint8(s: string, width: nat): (r: Option<(uint8, nat)>)
    ensures r.Some? ==> 1 <= r.value.1 <= width && r.value.1 <= |s|
    ensures r.None? && width > 0 && |s| > 0 && width <= 2 ==> !IsHexDigit(s[0])
  {
    var n := HexRun(s, width);
    if n == 0 then None
    else
      var v := HexValue(s[..n]);
      assert n <= 2 ==> v < 256 by { if n <= 2 { HexValueBound(s[..n]); } }
      if v < 256 then Some((v, n)) else None
  }

  lemma HexValueBound(s: string)
    requires AllHex(s) && |s| <= 2
    ensures HexValue(s) < 256
  {
  }

  /** What Sscanf assigned: the operands filled, in order, before it stopped. */
  datatype Scanned = Scanned(values: seq<uint8>, complete: bool)

  /**
   * fmt.Sscanf(s, "%Nx%Nx...", ...) with `count` verbs of width N: each verb starts where the
   * previous one stopped, the first failure ends the scan, and input after the last verb is ignored.
   */
  function Sscanf(s: string, count: nat, width: nat): (r: Scanned)
    ensures |r.values| <= count
    ensures r.complete <==> |r.values| == count
  {
    if count == 0 then Scanned([], true)
    else
      match ScanUint8(s, width)
      case None => Scanned([], false)
      case Some((v, n)) =>
        var rest := Sscanf(s[n..], count - 1, width);
        Scanned([v] + rest.values, rest.complete)
  }

  /** The color.RGBA whose R, G, B, A operands received the scanned values, zero where none did. */
  function FromOperands(vs: seq<uint8>): (c: RGBA)
    ensures |vs| == 0 ==> c == Transparent
    ensures |vs| == 1 ==> c == RGBA(vs[0], 0, 0, 0)
    ensures |vs| == 2 ==> c == RGBA(vs[0], vs[1], 0, 0)
    ensures |vs| == 3 ==> c == RGBA(vs[0], vs[1], vs[2], 0)
    ensures |vs| >= 4 ==> c == RGBA(vs[0], vs[1], vs[2], vs[3])
  {
    RGBA(if |vs| > 0 then vs[0] else 0, if |vs| > 1 then vs[1] else 0,
         if |vs| > 2 then vs[2] else 0, if |vs| > 3 then vs[3] else 0)
  }

  // ---------------------------------------------------------------------------
  // parseHexColor

  /**
   * The error of parseHexColor together with the colour Go returns beside it: the partially
   * scanned colour for 8 and 6 characters, color.RGBA{} for 4 and 3, and for any other length an
   * error that carries the length.
   */
  datatype HexError = ScanFailed(returned: RGBA) | BadLength(length: nat)

  function ParseHexColor(s: string): (r: Result<RGBA, HexError>)
    ensures r.Success? ==> Utf8Length(s) in {3, 4, 6, 8}
    ensures Utf8Length(s) !in {3, 4, 6, 8} ==> r == Failure(BadLength(Utf8Length(s)))
    ensures Utf8Length(s) in {3, 4} && r.Failure? ==> r.error == ScanFailed(Transparent)
    ensures Utf8Length(s) in {3, 6} && r.Success? ==> r.value.a == 255
  {
    var n := Utf8Length(s);
    if n == 8 then
      var sc := Sscanf(s, 4, 2);
      var c := FromOperands(sc.values);
      if sc.complete then Success(c) else Failure(ScanFailed(c))
    else if n == 6 then
      var sc := Sscanf(s, 3, 2);
      var c := FromOperands(sc.values).(a := 255);
      if sc.complete then Success(c) else Failure(ScanFailed(c))
    else if n == 4 then
      var sc := Sscanf(s, 4, 1);
      if !sc.complete then Failure(ScanFailed(Transparent))
      else
        var c := FromOperands(sc.values);
        Success(RGBA(Mul17(c.r), Mul17(c.g), Mul17(c.b), Mul17(c.a)))
    else if n == 3 then
      var sc := Sscanf(s, 3, 1);
      if !sc.complete then Failure(ScanFailed(Transparent))
      else
        var c := FromOperands(sc.values);
        Success(RGBA(Mul17(c.r), Mul17(c.g), Mul17(c.b), 255))
    else Failure(BadLength(n))
  }

  // ---------------------------------------------------------------------------
  // What the scanner reads from all-hex text

  /** The byte written by the two hex digits hi, lo. */
  function Byte(hi: char, lo: char): (b: uint8)
    requires IsHexDigit(hi) && IsHexDigit(lo)
  {
    16 * HexDigitValue(hi) + HexDigitValue(lo)
  }

  lemma ScanOneDigit(s: string)
    requires |s| > 0 && IsHexDigit(s[0])
    ensures ScanUint8(s, 1) == Some((HexDigitValue(s[0]), 1))
  {
    assert HexRun(s, 1) == 1;
    HexValueOne(s[..1]);
  }

  lemma ScanTwoDigits(s: string)
    requires |s| > 1 && IsHexDigit(s[0]) && IsHexDigit(s[1])
    ensures ScanUint8(s, 2) == Some((Byte(s[0], s[1]), 2))
  {
    assert HexRun(s, 2) == 2;
    var t := s[..2];
    assert t[..1] == s[..1];
    HexValueOne(s[..1]);
    assert HexValue(t) == HexValue(t[..1]) * 16 + HexDigitValue(t[1]);
  }

  lemma ScanShortToken(s: string)
    requires |s| > 0 && IsHexDigit(s[0]) && (|s| == 1 || !IsHexDigit(s[1]))
    ensures ScanUint8(s, 2) == Some((HexDigitValue(s[0]), 1))
  {
    assert HexRun(s, 2) == 1;
    HexValueOne(s[..1]);
  }

  lemma HexValueOne(s: string)
    requires |s| == 1 && IsHexDigit(s[0])
    ensures HexValue(s) == HexDigitValue(s[0])
  {
  }

  /** %1x verbs: the scan completes exactly when the first `count` characters are hex digits, one per operand. */
  lemma {:induction false} SscanfSingleDigits(s: string, count: nat)
    ensures Sscanf(s, count, 1).complete <==> count <= |s| && forall i :: 0 <= i < count ==> IsHexDigit(s[i])
    ensures Sscanf(s, count, 1).complete ==>
      forall k :: 0 <= k < count ==> Sscanf(s, count, 1).values[k] == HexDigitValue(s[k])
  {
    if count > 0 {
      if |s| > 0 && IsHexDigit(s[0]) {
        ScanOneDigit(s);
        SscanfSingleDigits(s[1..], count - 1);
        forall i | 0 < i < count && i < |s| ensures s[1..][i - 1] == s[i] { }
      }
    }
  }

  /**
   * %02x verbs: the scan completes exactly when the first 2*count - 1 characters are hex digits;
   * the last operand may take a single digit, followed by anything, which is then ignored.
   */
  lemma {:induction false} SscanfPairsComplete(s: string, count: nat)
    requires count > 0
    ensures Sscanf(s, count, 2).complete <==>
      2 * count - 1 <= |s| && forall i :: 0 <= i < 2 * count - 1 ==> IsHexDigit(s[i])
  {
    if |s| == 0 || !IsHexDigit(s[0]) {
    } else if |s| == 1 || !IsHexDigit(s[1]) {
      ScanShortToken(s);
      if count > 1 {
        assert Sscanf(s[1..], count - 1, 2).values == [] by {
          assert |s[1..]| == 0 || !IsHexDigit(s[1..][0]);
        }
      }
    } else {
      ScanTwoDigits(s);
      if count > 1 {
        SscanfPairsComplete(s[2..], count - 1);
        forall i | 2 <= i < |s| ensures s[2..][i - 2] == s[i] { }
      }
    }
  }

  /** %02x verbs on all-hex text: operand k receives the byte of characters 2k and 2k+1. */
  lemma {:induction false} SscanfPairs(s: string, count: nat)
    requires 2 * count <= |s| && forall i :: 0 <= i < 2 * count ==> IsHexDigit(s[i])
    ensures Sscanf(s, count, 2).complete
    ensures forall k :: 0 <= k < count ==> Sscanf(s, count, 2).values[k] == Byte(s[2 * k], s[2 * k + 1])
  {
    if count > 0 {
      ScanTwoDigits(s);
      forall i | 2 <= i < |s| ensures s[2..][i - 2] == s[i] { }
      SscanfPairs(s[2..], count - 1);
    }
  }

  lemma AllHexIsAscii(s: string)
    requires AllHex(s)
    ensures Utf8Length(s) == |s|
  {
  }

  // ---------------------------------------------------------------------------
  // The four accepted forms

  /** RRGGBBAA: the four two-digit bytes, in order, are R, G, B and A. */
  lemma ParseEightDigits(s: string)
    requires |s| == 8 && AllHex(s)
    ensures ParseHexColor(s) == Success(RGBA(Byte(s[0], s[1]), Byte(s[2], s[3]), Byte(s[4], s[5]), Byte(s[6], s[7])))
  {
    AllHexIsAscii(s);
    SscanfPairs(s, 4);
  }

  /** RRGGBB: the three two-digit bytes are R, G and B, and alpha is forced to 255. */
  lemma ParseSixDigits(s: string)
    requires |s| == 6 && AllHex(s)
    ensures ParseHexColor(s) == Success(RGBA(Byte(s[0], s[1]), Byte(s[2], s[3]), Byte(s[4], s[5]), 255))
  {
    AllHexIsAscii(s);
    SscanfPairs(s, 3);
  }

  /** RGBA shorthand: every digit d becomes the channel 17 * d, which never overflows. */
  lemma ParseFourDigits(s: string)
    requires |s| == 4 && AllHex(s)
    ensures ParseHexColor(s) == Success(RGBA(17 * HexDigitValue(s[0]), 17 * HexDigitValue(s[1]),
                                             17 * HexDigitValue(s[2]), 17 * HexDigitValue(s[3])))
  {
    AllHexIsAscii(s);
    SscanfSingleDigits(s, 4);
    var vs := Sscanf(s, 4, 1).values;
    Mul17Nibble(vs[0]);
    Mul17Nibble(vs[1]);
    Mul17Nibble(vs[2]);
    Mul17Nibble(vs[3]);
  }

  /** RGB shorthand: R, G, B are 17 times their digit and alpha is 255. */
  lemma ParseThreeDigits(s: string)
    requires |s| == 3 && AllHex(s)
    ensures ParseHexColor(s) == Success(RGBA(17 * HexDigitValue(s[0]), 17 * HexDigitValue(s[1]),
                                             17 * HexDigitValue(s[2]), 255))
  {
    AllHexIsAscii(s);
    SscanfSingleDigits(s, 3);
    var vs := Sscanf(s, 3, 1).values;
    Mul17Nibble(vs[0]);
    Mul17Nibble(vs[1]);
    Mul17Nibble(vs[2]);
  }

  /** The shorthand forms are strict: they succeed exactly on all-hex ASCII text. */
  lemma ShortFormsAreStrict(s: string)
    requires Utf8Length(s) in {3, 4}
    ensures ParseHexColor(s).Success? <==> |s| == Utf8Length(s) && AllHex(s)
  {
    Utf8LengthBounds(s);
    SscanfSingleDigits(s, Utf8Length(s));
  }

  /**
   * The long forms accept any final character after 5 (or 7) hex digits: the last %02x verb stops
   * at the first non-hex character and Sscanf ignores what is left.
   */
  lemma LongFormsIgnoreLastCharacter(s: string)
    requires Utf8Length(s) in {6, 8}
    ensures ParseHexColor(s).Success? <==>
      Utf8Length(s) - 1 <= |s| && forall i :: 0 <= i < Utf8Length(s) - 1 ==> IsHexDigit(s[i])
  {
    if Utf8Length(s) == 6 {
      SscanfPairsComplete(s, 3);
    } else {
      SscanfPairsComplete(s, 4);
    }
  }

  // ---------------------------------------------------------------------------
  // Formatting, the inverse direction

  function HexByte(x: uint8): (s: string)
    ensures |s| == 2 && AllHex(s) && Byte(s[0], s[1]) == x
  {
    [HexDigitChar(x / 16), HexDigitChar(x % 16)]
  }

  /** The colour as Go prints it with %02x%02x%02x%02x. */
  function FormatHex8(c: RGBA): string
  {
    HexByte(c.r) + HexByte(c.g) + HexByte(c.b) + HexByte(c.a)
  }

  /** The colour without its alpha, as %02x%02x%02x. */
  function FormatHex6(c: RGBA): string
  {
    HexByte(c.r) + HexByte(c.g) + HexByte(c.b)
  }

  lemma ParseFormatHex8(c: RGBA)
    ensures ParseHexColor(FormatHex8(c)) == Success(c)
  {
    var s := FormatHex8(c);
    assert s[0..2] == HexByte(c.r) && s[2..4] == HexByte(c.g) && s[4..6] == HexByte(c.b) && s[6..8] == HexByte(c.a);
    ParseEightDigits(s);
  }

  lemma ParseFormatHex6(c: RGBA)
    ensures ParseHexColor(FormatHex6(c)) == Success(c.(a := 255))
  {
    var s := FormatHex6(c);
    assert s[0..2] == HexByte(c.r) && s[2..4] == HexByte(c.g) && s[4..6] == HexByte(c.b);
    ParseSixDigits(s);
  }

  /** Worked examples of the four forms. */
  lemma ParseHexExampleFour()
    ensures ParseHexColor("f0a1") == Success(RGBA(255, 0, 170, 17))
  {
    var four := "f0a1";
    assert AllHex(four) by { assert four == ['f', '0', 'a', '1']; }
    ParseFourDigits(four);
  }

  lemma ParseHexExampleSix()
    ensures ParseHexColor("ff0000") == Success(RGBA(255, 0, 0, 255))
  {
    var six := "ff0000";
    assert AllHex(six) by { assert six == ['f', 'f', '0', '0', '0', '0']; }
    ParseSixDigits(six);
  }

  lemma ParseHexExampleEight()
    ensures ParseHexColor("ff0000ff") == Success(RGBA(255, 0, 0, 255))
  {
    var eight := "ff0000ff";
    assert AllHex(eight) by { assert eight == ['f', 'f', '0', '0', '0', '0', 'f', 'f']; }
    ParseEightDigits(eight);
  }

  lemma ParseHexExampleThree()
    ensures ParseHexColor("fff") == Success(RGBA(255, 255, 255, 255))
  {
    var three := "fff";
    assert AllHex(three) by { assert three == ['f', 'f', 'f']; }
    ParseThreeDigits(three);
  }

  /** A wrong length is reported with the length; a bad first digit returns the alpha already forced to 255. */
  lemma ParseHexErrorExamples()
    ensures ParseHexColor("abcde") == Failure(BadLength(5))
    ensures ParseHexColor("zz0000") == Failure(ScanFailed(RGBA(0, 0, 0, 255)))
  {
    assert Utf8Length("abcde") == 5 by { AllAsciiLength("abcde"); }
    var z := "zz0000";
    assert Utf8Length(z) == 6 by { AllAsciiLength(z); }
    assert !IsHexDigit(z[0]);
    assert ScanUint8(z, 2) == None;
  }

  /** A six-character string whose last character is not a hex digit is still accepted. */
  lemma ParseHexLenientExample()
    ensures ParseHexColor("ffff0z") == Success(RGBA(255, 255, 0, 255))
  {
    var q := "ffff0z";
    assert Utf8Length(q) == 6 by { AllAsciiLength(q); }
    ScanTwoDigits(q);
    assert q[2..] == "ff0z";
    ScanTwoDigits(q[2..]);
    assert q[2..][2..] == "0z";
    ScanShortToken("0z");
    assert "0z"[1..] == "z";
  }

  lemma AllAsciiLength(s: string)
    requires AllAscii(s)
    ensures Utf8Length(s) == |s|
  {
  }
}
