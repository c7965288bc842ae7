/**
 * strconv.Atoi as the handlers use it: an optional sign, then one or more ASCII
 * decimal digits, whose value must fit Go's 64-bit int.
 */
module Decimal {
  import opened Wrappers

  const MinInt64: int := -0x8000_0000_0000_0000
  const MaxInt64: int := 0x7fff_ffff_ffff_ffff

  predicate IsDigit(c: char) { '0' <= c <= '9' }

  predicate AllDigits(s: string) { forall i :: 0 <= i < |s| ==> IsDigit(s[i]) }

  /** The value of a digit string, read most significant digit first. */
  function DigitsValue(s: string): nat
    requires AllDigits(s)
  {
    if |s| == 0 then 0 else DigitsValue(s[..|s| - 1]) * 10 + (s[|s| - 1] as int - '0' as int)
  }

  predicate HasSign(s: string) { |s| > 0 && (s[0] == '+' || s[0] == '-') }

  /** strconv.Atoi: None for a syntax error and for a value outside the 64-bit range. */
  function Atoi(s: string): (r: Option<int>)
    ensures r.Some? ==> MinInt64 <= r.value <= MaxInt64
    ensures r.Some? ==> |s| > 0 && IsDigit(s[|s| - 1])
    ensures !HasSign(s) && r.Some? ==> r.value >= 0
    ensures r.Some? ==> AllDigits(if HasSign(s) then s[1..] else s)
  {
    var digits := if HasSign(s) then s[1..] else s;
    if |digits| == 0 || !AllDigits(digits) then None
    else
      var v: int := if HasSign(s) && s[0] == '-' then -(DigitsValue(digits) as int) else DigitsValue(digits);
      if MinInt64 <= v <= MaxInt64 then Some(v) else None
  }

  /** The shortest decimal rendering of a natural number (strconv.Itoa on v >= 0). */
  function Digits(n: nat): (s: string)
    ensures |s| > 0 && AllDigits(s)
  {
    if n < 10 then [('0' as int + n) as char]
    else Digits(n / 10) + [('0' as int + n % 10) as char]
  }

  /** strconv.Itoa: the decimal rendering of an integer, with '-' for negatives. */
  function Itoa(v: int): string
  {
    if v < 0 then "-" + Digits(-v) else Digits(v)
  }

  lemma {:induction false} DigitsValueOfDigits(n: nat)
    ensures DigitsValue(Digits(n)) == n
  {
    if n >= 10 {
      var s := Digits(n);
      assert s[..|s| - 1] == Digits(n / 10);
      DigitsValueOfDigits(n / 10);
    }
  }

  /** Atoi inverts Itoa on the whole 64-bit range. */
  lemma AtoiItoa(v: int)
    requires MinInt64 <= v <= MaxInt64
    ensures Atoi(Itoa(v)) == Some(v)
  {
    var s := Itoa(v);
    if v < 0 {
      DigitsValueOfDigits(-v);
      assert s[1..] == Digits(-v);
    } else {
      DigitsValueOfDigits(v);
    }
  }

  /** Leading zeros and an explicit '+' are accepted; a lone sign and the empty string are not. */
  lemma AtoiExamples()
    ensures Atoi("0") == Some(0)
    ensures Atoi("+007") == Some(7)
    ensures Atoi("-5") == Some(-5)
    ensures Atoi("300") == Some(300) && Atoi("256") == Some(256) && Atoi("-1") == Some(-1)
    ensures Atoi("") == None && Atoi("+") == None && Atoi("-") == None
    ensures Atoi("abc") == None && Atoi("1.5") == None && Atoi(" 1") == None
  {
    assert AllDigits("0") && AllDigits("007") && AllDigits("5") && AllDigits("300");
    assert "+007"[1..] == "007" && "007"[..2] == "00" && "00"[..1] == "0";
    assert "-5"[1..] == "5";
    assert "300"[..2] == "30" && "30"[..1] == "3";
    assert "256"[..2] == "25" && "25"[..1] == "2";
    assert "-1"[1..] == "1" && AllDigits("1");
    assert !IsDigit("abc"[0]) && !IsDigit("1.5"[1]) && !IsDigit(" 1"[0]);
  }

  /** One past either end of the 64-bit range is a range error. */
  lemma AtoiOutOfRange()
    ensures Atoi(Itoa(MaxInt64 + 1)) == None
    ensures Atoi(Itoa(MinInt64 - 1)) == None
  {
    DigitsValueOfDigits(MaxInt64 + 1);
    DigitsValueOfDigits(-(MinInt64 - 1));
    var s := Itoa(MinInt64 - 1);
    assert s[1..] == Digits(-(MinInt64 - 1));
  }

  // ---------------------------------------------------------------------------
  // Every text Atoi accepts: a sign, leading zeros, then the digits of the value

  /** k zero digits. */
  function Zeros(k: nat): (s: string)
    ensures |s| == k && AllDigits(s)
  {
    if k == 0 then "" else Zeros(k - 1) + "0"
  }

  /** Leading zeros do not change the value of a digit string. */
  lemma {:induction false} DigitsValueLeadingZeros(k: nat, t: string)
    requires AllDigits(t)
    ensures AllDigits(Zeros(k) + t) && DigitsValue(Zeros(k) + t) == DigitsValue(t)
  {
    var zt := Zeros(k) + t;
    assert AllDigits(zt);
    if |t| == 0 {
      assert zt == Zeros(k);
      DigitsValueZeros(k);
    } else {
      var t' := t[..|t| - 1];
      assert zt[..|zt| - 1] == Zeros(k) + t';
      assert zt[|zt| - 1] == t[|t| - 1];
      DigitsValueLeadingZeros(k, t');
    }
  }

  lemma {:induction false} DigitsValueZeros(k: nat)
    ensures DigitsValue(Zeros(k)) == 0
  {
    if k > 0 {
      assert Zeros(k)[..k - 1] == Zeros(k - 1);
      DigitsValueZeros(k - 1);
    }
  }

  /** Atoi on a sign followed by a non-empty digit string. */
  lemma AtoiSignDigits(sign: string, t: string)
    requires sign in {"", "+", "-"} && |t| > 0 && AllDigits(t)
    ensures var v := if sign == "-" then -(DigitsValue(t) as int) else DigitsValue(t);
      Atoi(sign + t) == if MinInt64 <= v <= MaxInt64 then Some(v) else None
  {
    var s := sign + t;
    if sign == "" {
      assert s == t;
      AtoiUnsigned(t);
    } else {
      assert s[1..] == t && s[0] == sign[0];
      AtoiSigned(s);
    }
  }

  /** Without a sign the whole text is the digit string. */
  lemma AtoiUnsigned(t: string)
    requires |t| > 0 && AllDigits(t)
    ensures Atoi(t) == if DigitsValue(t) <= MaxInt64 then Some(DigitsValue(t)) else None
  {
    assert !HasSign(t) by { assert IsDigit(t[0]); }
  }

  /** With a sign the digits follow it, negated after '-'. */
  lemma AtoiSigned(s: string)
    requires HasSign(s) && |s| > 1 && AllDigits(s[1..])
    ensures var v := if s[0] == '-' then -(DigitsValue(s[1..]) as int) else DigitsValue(s[1..]);
      Atoi(s) == if MinInt64 <= v <= MaxInt64 then Some(v) else None
  {
  }

  /**
   * An optional sign, k leading zeros and the digits of n: Atoi gives n, negated after '-', when
   * that fits 64 bits, and a range error otherwise.
   */
  lemma AtoiSignedDecimal(sign: string, k: nat, n: nat)
    requires sign in {"", "+", "-"}
    ensures var v := if sign == "-" then -(n as int) else n;
      Atoi(sign + (Zeros(k) + Digits(n))) == if MinInt64 <= v <= MaxInt64 then Some(v) else None
  {
    var t := Zeros(k) + Digits(n);
    DigitsValueLeadingZeros(k, Digits(n));
    DigitsValueOfDigits(n);
    AtoiSignDigits(sign, t);
  }

  /** A digit string that does not start with '0' has a value of at least 1. */
  lemma {:induction false} DigitsValuePositive(t: string)
    requires |t| > 0 && AllDigits(t) && t[0] != '0'
    ensures DigitsValue(t) >= 1
  {
    if |t| > 1 {
      DigitsValuePositive(t[..|t| - 1]);
    }
  }

  /** Every non-empty digit string is some zeros followed by the shortest rendering of its value. */
  lemma {:induction false} DigitStringForm(t: string) returns (k: nat)
    requires |t| > 0 && AllDigits(t)
    ensures t == Zeros(k) + Digits(DigitsValue(t))
    decreases |t|
  {
    if |t| == 1 {
      k := 0;
      assert t[..0] == [];
      assert t == Digits(DigitsValue(t));
    } else if t[0] == '0' {
      var rest := t[1..];
      var k' := DigitStringForm(rest);
      assert DigitsValue(t) == DigitsValue(rest) by {
        DigitsValueLeadingZeros(1, rest);
        assert Zeros(1) + rest == t;
      }
      k := k' + 1;
      ZerosCons(k');
      assert t == "0" + rest;
    } else {
      k := 0;
      NoLeadingZeroIsDigits(t);
    }
  }

  lemma {:induction false} ZerosCons(k: nat)
    ensures Zeros(k + 1) == "0" + Zeros(k)
  {
    if k > 0 {
      ZerosCons(k - 1);
    }
  }

  lemma {:induction false} NoLeadingZeroIsDigits(t: string)
    requires |t| > 0 && AllDigits(t) && t[0] != '0'
    ensures Digits(DigitsValue(t)) == t
    decreases |t|
  {
    if |t| > 1 {
      var t' := t[..|t| - 1];
      DigitsValuePositive(t');
      NoLeadingZeroIsDigits(t');
      assert t == t' + [t[|t| - 1]];
    }
  }

  /** Conversely, everything Atoi accepts has that form, with n the magnitude of the result. */
  lemma AtoiAcceptedForm(s: string) returns (sign: string, k: nat)
    requires Atoi(s).Some?
    ensures sign in {"", "+", "-"}
    ensures var v := Atoi(s).value; var n := if v < 0 then -v else v;
      s == sign + (Zeros(k) + Digits(n)) && v == (if sign == "-" then -n else n)
  {
    var t := if HasSign(s) then s[1..] else s;
    sign := if !HasSign(s) then "" else if s[0] == '-' then "-" else "+";
    k := DigitStringForm(t);
    assert s == sign + t by {
      if HasSign(s) { assert s == [s[0]] + s[1..]; }
    }
  }
}
