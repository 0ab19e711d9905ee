/**
 Integers as text: `std::stoi` as the settings reader uses it, and the decimal
 rendering `std::ostream << int` produces when the settings are written.
 */
module IntText {
  import opened Wrappers
  import opened Text

  const MinInt32: int := -0x8000_0000
  const MaxInt32: int := 0x7fff_ffff

  /** A C++ `int` on the platforms the frontend targets. */
  type Int32 = x: int | MinInt32 <= x <= MaxInt32

  /** The two exceptions `std::stoi` throws. */
  datatype StoiError =
    | InvalidArgument  // no digits where a number should start
    | OutOfRange       // the digits name a value outside `int`

  function DigitChar(d: nat): (c: char)
    requires d < 10
    ensures IsDigit(c)
  {
    ('0' as int + d) as char
  }

  function DigitValue(c: char): (d: nat)
    requires IsDigit(c)
    ensures d < 10 && DigitChar(d) == c
  {
    c as int - '0' as int
  }

  /** The value of a run of decimal digits, most significant first. */
  function DigitsValue(s: string): nat
    requires AllDigits(s)
  {
    if |s| == 0 then 0 else DigitsValue(s[..|s| - 1]) * 10 + DigitValue(s[|s| - 1])
  }

  /** Decimal digits of `n` without leading zeros ("0" for zero). */
  function NatToString(n: nat): (s: string)
    ensures |s| > 0 && AllDigits(s)
    ensures |s| > 1 ==> s[0] != '0'
  {
    if n < 10 then [DigitChar(n)] else NatToString(n / 10) + [DigitChar(n % 10)]
  }

  /** What `os << v` writes for an `int`: a minus sign for negatives, then the digits. */
  function IntToString(v: int): (s: string)
    ensures |s| > 0 && Trimmed(s)
    ensures OneLine(s)
    ensures forall i :: 0 <= i < |s| ==> s[i] != '='
  {
    if v < 0 then "-" + NatToString(-v) else NatToString(v)
  }

  /** The longest prefix of `s` made of decimal digits. */
  function LeadingDigits(s: string): (r: string)
    ensures AllDigits(r) && r <= s
    ensures |r| < |s| ==> !IsDigit(s[|r|])
  {
    if |s| > 0 && IsDigit(s[0]) then [s[0]] + LeadingDigits(s[1..]) else []
  }

  /**
   `std::stoi(s)` in base 10: leading white space is skipped, one optional
   sign is taken, then the longest run of digits; whatever follows the digits
   is ignored. No digits at all is `InvalidArgument`; a value outside `int`
   is `OutOfRange`.
   */
  function StoI(s: string): (r: Result<Int32, StoiError>)
    ensures r.Success? ==> exists i :: 0 <= i < |s| && IsDigit(s[i])
  {
    ParseSigned(TrimLeft(s))
  }

  /** `t` opens with a digit, or with one sign and then a digit. */
  predicate StartsNumber(t: string) {
    |t| > 0 && (IsDigit(t[0]) || ((t[0] == '+' || t[0] == '-') && |t| > 1 && IsDigit(t[1])))
  }

  /** What `std::stoi` makes of a magnitude once it has been read: the value, or `OutOfRange`. */
  function RangeChecked(v: int): (r: Result<Int32, StoiError>)
    ensures r.Success? <==> MinInt32 <= v <= MaxInt32
    ensures r.Success? ==> r.value == v
  {
    if MinInt32 <= v <= MaxInt32 then Success(v) else Failure(OutOfRange)
  }

  /** The part of `std::stoi` after the white space: sign, digits, range check. */
  function ParseSigned(t: string): (r: Result<Int32, StoiError>)
    ensures r.Success? ==> exists i :: 0 <= i < |t| && IsDigit(t[i])
  {
    var negative := |t| > 0 && t[0] == '-';
    var body := if |t| > 0 && (t[0] == '-' || t[0] == '+') then t[1..] else t;
    var digits := LeadingDigits(body);
    if |digits| == 0 then Failure(InvalidArgument)
    else
      assert IsDigit(t[|t| - |body|]);
      var magnitude: int := DigitsValue(digits);
      RangeChecked(if negative then -magnitude else magnitude)
  }

  lemma {:induction false} DigitsValueOfNatToString(n: nat)
    ensures DigitsValue(NatToString(n)) == n
    decreases n
  {
    var s := NatToString(n);
    if n >= 10 {
      assert s[..|s| - 1] == NatToString(n / 10);
      DigitsValueOfNatToString(n / 10);
    }
  }

  /** Reading back what `os << v` wrote gives `v` again. */
  lemma StoIOfIntToString(v: Int32)
    ensures StoI(IntToString(v)) == Success(v)
  {
    assert IntToString(v) + "" == IntToString(v);
    StoIIgnoresTrailingText(v, "");
  }

  /** A run made only of digits is its own longest digit prefix. */
  lemma {:induction false} LeadingDigitsOfDigits(digits: string)
    requires AllDigits(digits)
    ensures LeadingDigits(digits) == digits
    decreases |digits|
  {
    if |digits| > 0 {
      LeadingDigitsOfDigits(digits[1..]);
    }
  }

  /** A run of digits is read whole. */
  lemma ParseDigits(digits: string)
    requires |digits| > 0 && AllDigits(digits)
    ensures ParseSigned(digits) == RangeChecked(DigitsValue(digits))
  {
    LeadingDigitsOfDigits(digits);
    assert IsDigit(digits[0]);
  }

  /** After a minus, a run of digits is read whole and negated. */
  lemma ParseMinusDigits(digits: string, minus: string)
    requires |digits| > 0 && AllDigits(digits)
    requires |minus| > 0 && minus[0] == '-' && minus[1..] == digits
    ensures ParseSigned(minus) == RangeChecked(-(DigitsValue(digits) as int))
  {
    LeadingDigitsOfDigits(digits);
  }

  /** `std::stoi` of a run of digits, with or without a minus in front. */
  lemma StoIOfDigits(digits: string)
    requires |digits| > 0 && AllDigits(digits)
    ensures StoI(digits) == RangeChecked(DigitsValue(digits))
    ensures StoI("-" + digits) == RangeChecked(-(DigitsValue(digits) as int))
  {
    TrimLeftKeeps(digits);
    ParseDigits(digits);
    var minus := "-" + digits;
    assert minus[0] == '-' && minus[1..] == digits;
    TrimLeftKeeps(minus);
    ParseMinusDigits(digits, minus);
  }

  /**
   A number too large for `int` is `OutOfRange`, in either sign: a magnitude
   above 2147483647 without a sign, or above 2147483648 after a minus.
   */
  lemma StoIOutOfRange(n: nat)
    requires n > MaxInt32
    ensures StoI(NatToString(n)) == Failure(OutOfRange)
    ensures n > -MinInt32 ==> StoI("-" + NatToString(n)) == Failure(OutOfRange)
  {
    StoIOfDigits(NatToString(n));
    DigitsValueOfNatToString(n);
  }

  /**
   `std::stoi` throws `invalid_argument` exactly when, after the white space,
   the text neither starts with a digit nor with a sign followed by a digit.
   */
  lemma StoIRejects(s: string)
    ensures StoI(s) == Failure(InvalidArgument) <==> !StartsNumber(TrimLeft(s))
  {
  }

  /** White space in front of a number does not change what `std::stoi` reads. */
  lemma StoISkipsLeadingSpace(c: char, s: string)
    requires IsSpace(c)
    ensures StoI([c] + s) == StoI(s)
  {
    assert ([c] + s)[1..] == s;
    assert TrimLeft([c] + s) == TrimLeft(s);
  }

  /** Text after the digits does not change what `std::stoi` reads. */
  lemma StoIIgnoresTrailingText(v: Int32, rest: string)
    requires |rest| > 0 ==> !IsDigit(rest[0])
    ensures StoI(IntToString(v) + rest) == Success(v)
  {
    var s := IntToString(v) + rest;
    assert TrimLeft(s) == s;
    var w: int := v;
    var n: nat := if w < 0 then -w else w;
    var digits := NatToString(n);
    var body := digits + rest;
    if v < 0 {
      assert s[1..] == body;
    }
    LeadingDigitsOfDigitsThen(digits, rest);
    DigitsValueOfNatToString(n);
  }

  lemma {:induction false} LeadingDigitsOfDigitsThen(digits: string, rest: string)
    requires AllDigits(digits)
    requires |rest| > 0 ==> !IsDigit(rest[0])
    ensures LeadingDigits(digits + rest) == digits
    decreases |digits|
  {
    if |digits| > 0 {
      assert (digits + rest)[1..] == digits[1..] + rest;
      LeadingDigitsOfDigitsThen(digits[1..], rest);
    } else {
      assert digits + rest == rest;
    }
  }
}
