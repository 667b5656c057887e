/** Exact decimal numbers as the text Python's `str` gives them, and back. */
module Decimals {
  import opened Wrappers
  import opened Canonical

  /** A coefficient without leading zeros, scaled by a power of ten. */
  datatype Parts = Parts(negative: bool, digits: string, exponent: int)

  predicate AllDigits(s: string) { forall c | c in s :: IsDigit(c) }

  predicate Trimmed(s: string) { s != "" && AllDigits(s) && (s[0] == '0' ==> |s| == 1) }

  type DecimalNumber = d: Parts | Trimmed(d.digits) witness Parts(false, "0", 0)

  predicate IsZero(d: DecimalNumber) { d.digits == "0" }

  predicate IsPositive(d: DecimalNumber) { !d.negative && d.digits != "0" }

  function Zeros(n: nat): (s: string)
    ensures |s| == n && forall c | c in s :: c == '0'
  {
    if n == 0 then "" else "0" + Zeros(n - 1)
  }

  function ExponentText(e: int): (s: string)
    ensures s != ""
  {
    "E" + (if e < 0 then "-" + Decimal(-e) else "+" + Decimal(e))
  }

  /** Plain notation where that is short enough, scientific notation otherwise. */
  function UnsignedText(digits: string, exponent: int): string
    requires digits != ""
  {
    var left := exponent + |digits|;
    if exponent <= 0 && left > -6 then
      if left <= 0 then "0." + Zeros(-left) + digits
      else if exponent == 0 then digits
      else digits[..left] + "." + digits[left..]
    else (if |digits| == 1 then digits else digits[..1] + "." + digits[1..]) + ExponentText(left - 1)
  }

  function DecimalText(d: DecimalNumber): string {
    (if d.negative then "-" else "") + UnsignedText(d.digits, d.exponent)
  }

  // ----- reading

  function Stripped(s: string): (r: string)
    requires s != "" && AllDigits(s)
    ensures Trimmed(r)
  {
    if |s| > 1 && s[0] == '0' then
      assert forall c | c in s[1..] :: c in s;
      Stripped(s[1..])
    else
      assert s[0] in s;
      s
  }

  function ReadExponent(s: string): Option<int> {
    if s == "" then Some(0)
    else if |s| < 3 || s[0] != 'E' || (s[1] != '+' && s[1] != '-') then None
    else
      match ParseNat(s[2..])
      case None => None
      case Some((n, rest)) => if rest != "" then None else Some(if s[1] == '-' then 0 - n as int else n)
  }

  function Fraction(s: string): nat {
    if s != "" && s[0] == '.' then 1 + DigitRun(s[1..]) else 0
  }

  /** Digits, perhaps a point and more digits, perhaps an exponent. */
  function ReadUnsigned(negative: bool, s: string): Option<DecimalNumber> {
    var k := DigitRun(s);
    var f := Fraction(s[k..]);
    var tail := ReadExponent(s[k + f..]);
    if k == 0 || f == 1 || tail.None? then None
    else
      DigitRunIsDigits(s);
      DigitRunIsDigits(if f > 0 then s[k + 1..] else "");
      var digits := s[..k] + if f > 0 then s[k + 1..k + f] else "";
      assert f > 0 ==> s[k + 1..k + f] == s[k + 1..][..f - 1];
      Some(Parts(negative, Stripped(digits), tail.value - if f > 0 then f - 1 else 0))
  }

  /** Of the forms written above, and no others. */
  function ReadDecimal(t: string): Option<DecimalNumber> {
    if "-" <= t then ReadUnsigned(true, t[1..]) else ReadUnsigned(false, t)
  }

  // ----- round trip

  lemma {:induction false} ExponentReads(e: int)
    ensures ReadExponent(ExponentText(e)) == Some(e) && ExponentText(e)[0] == 'E'
  {
    var n := if e < 0 then -e else e;
    DecimalDigits(n);
    NatRoundTrip(n, "");
    assert Decimal(n) + "" == Decimal(n) && ExponentText(e)[2..] == Decimal(n);
  }

  lemma {:induction false} ReadsWhole(negative: bool, whole: string, tail: string, e: int)
    requires whole != "" && AllDigits(whole) && ReadExponent(tail) == Some(e) && (tail != "" ==> tail[0] == 'E')
    ensures ReadUnsigned(negative, whole + tail) == Some(Parts(negative, Stripped(whole), e))
  {
    hide ReadExponent, Stripped, DigitRun;
    var s := whole + tail;
    DigitRunOf(whole, tail);
    assert s[|whole|..] == tail && s[..|whole|] + "" == whole;
    assert s[|whole| + 0..] == tail;
  }

  lemma {:induction false} ReadsParts(negative: bool, whole: string, fraction: string, tail: string, e: int)
    requires whole != "" && AllDigits(whole) && fraction != "" && AllDigits(fraction)
    requires ReadExponent(tail) == Some(e) && (tail != "" ==> tail[0] == 'E')
    ensures ReadUnsigned(negative, whole + "." + fraction + tail)
            == Some(Parts(negative, Stripped(whole + fraction), e - |fraction|))
  {
    hide ReadExponent, Stripped, DigitRun;
    var s, rest := whole + "." + fraction + tail, "." + fraction + tail;
    var k, f := |whole|, |fraction| + 1;
    assert s == whole + rest && rest[1..] == fraction + tail;
    DigitRunOf(whole, rest);
    DigitRunOf(fraction, tail);
    assert s[k..] == rest && s[..k] == whole && s[k + 1..k + f] == fraction && s[k + f..] == tail;
  }

  lemma {:induction false} StripZeros(zeros: string, digits: string)
    requires (forall c | c in zeros :: c == '0') && Trimmed(digits)
    ensures AllDigits(zeros + digits) && Stripped(zeros + digits) == digits
  {
    if zeros == "" {
      assert zeros + digits == digits;
    } else {
      assert zeros[0] in zeros && (zeros + digits)[0] == '0' && (zeros + digits)[1..] == zeros[1..] + digits;
      assert forall c | c in zeros[1..] :: c in zeros;
      StripZeros(zeros[1..], digits);
    }
  }

  lemma {:induction false} PlainReads(d: DecimalNumber)
    requires d.exponent <= 0 && d.exponent + |d.digits| > -6
    ensures ReadUnsigned(d.negative, UnsignedText(d.digits, d.exponent)) == Some(d)
    ensures IsDigit(UnsignedText(d.digits, d.exponent)[0])
  {
    hide ReadUnsigned, ReadExponent, ExponentText, Stripped;
    var s, left := UnsignedText(d.digits, d.exponent), d.exponent + |d.digits|;
    assert d.digits[0] in d.digits;
    NoExponent();
    if left <= 0 {
      assert s == "0" + "." + (Zeros(-left) + d.digits) + "";
      StripZeros("0" + Zeros(-left), d.digits);
      assert "0" + (Zeros(-left) + d.digits) == "0" + Zeros(-left) + d.digits;
      ReadsParts(d.negative, "0", Zeros(-left) + d.digits, "", 0);
    } else if d.exponent == 0 {
      assert s == d.digits + "" && "" + d.digits == d.digits;
      StripZeros("", d.digits);
      ReadsWhole(d.negative, d.digits, "", 0);
    } else {
      assert s == d.digits[..left] + "." + d.digits[left..] + "";
      SplitDigits(d.digits, left);
      ReadsParts(d.negative, d.digits[..left], d.digits[left..], "", 0);
    }
  }

  lemma {:induction false} ScientificReads(d: DecimalNumber)
    requires !(d.exponent <= 0 && d.exponent + |d.digits| > -6)
    ensures ReadUnsigned(d.negative, UnsignedText(d.digits, d.exponent)) == Some(d)
    ensures IsDigit(UnsignedText(d.digits, d.exponent)[0])
  {
    hide ReadUnsigned, ReadExponent, ExponentText, Stripped;
    var s, e := UnsignedText(d.digits, d.exponent), d.exponent + |d.digits| - 1;
    assert d.digits[0] in d.digits;
    ExponentReads(e);
    if |d.digits| == 1 {
      assert s == d.digits + ExponentText(e) && "" + d.digits == d.digits;
      StripZeros("", d.digits);
      ReadsWhole(d.negative, d.digits, ExponentText(e), e);
    } else {
      assert s == d.digits[..1] + "." + d.digits[1..] + ExponentText(e);
      SplitDigits(d.digits, 1);
      ReadsParts(d.negative, d.digits[..1], d.digits[1..], ExponentText(e), e);
    }
  }

  lemma {:induction false} NoExponent()
    ensures ReadExponent("") == Some(0)
  {
  }

  lemma {:induction false} SplitDigits(digits: string, k: nat)
    requires Trimmed(digits) && 0 < k < |digits|
    ensures AllDigits(digits[..k]) && AllDigits(digits[k..]) && digits[..k] + digits[k..] == digits
    ensures Stripped(digits) == digits && IsDigit(digits[..k][0])
  {
    assert digits[0] in digits;
  }

  /** Main result: every number is read back from its text. */
  lemma {:induction false} DecimalRoundTrip(d: DecimalNumber)
    ensures ReadDecimal(DecimalText(d)) == Some(d)
  {
    hide ReadUnsigned, UnsignedText;
    var s := UnsignedText(d.digits, d.exponent);
    if d.exponent <= 0 && d.exponent + |d.digits| > -6 { PlainReads(d); } else { ScientificReads(d); }
    assert "" + s == s && ("-" + s)[1..] == s;
    assert !("-" <= s);
  }
}
