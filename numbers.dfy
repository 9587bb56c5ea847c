/**
 * The two JavaScript number conversions the storefront relies on when it
 * reads and writes query parameters: `Number(s)` on a string and
 * `n.toString()` on a whole number. A missing value (`undefined`) and a
 * string `Number` cannot read both become NaN, written `None` here.
 */
module Numbers {
  import opened Wrappers

  predicate IsDigit(c: char) {
    '0' <= c <= '9'
  }

  /** Every character is an ASCII digit (true of the empty string). */
  predicate AllDigits(s: string) {
    forall i :: 0 <= i < |s| ==> IsDigit(s[i])
  }

  /** `/^\d+$/.test(s)`: one or more ASCII digits and nothing else. */
  predicate IsDigitString(s: string) {
    |s| > 0 && AllDigits(s)
  }

  function DigitValue(c: char): (d: nat)
    requires IsDigit(c)
    ensures d < 10
  {
    (c as int) - ('0' as int)
  }

  function DigitChar(d: nat): (c: char)
    requires d < 10
    ensures IsDigit(c) && DigitValue(c) == d
  {
    (('0' as int) + d) as char
  }

  /** The decimal value of a digit string, read left to right. */
  function DecimalValue(s: string): nat
    requires AllDigits(s)
  {
    if s == [] then 0 else DecimalValue(s[..|s| - 1]) * 10 + DigitValue(s[|s| - 1])
  }

  /** A sign followed by one or more digits. */
  predicate IsSignedDigits(s: string, sign: char) {
    |s| >= 2 && s[0] == sign && AllDigits(s[1..])
  }

  /**
   * `Number(s)` for a string: "" is 0, a digit string its value, a digit
   * string behind a `-` or `+` its signed value, anything else NaN.
   */
  function NumberOf(s: string): (r: Option<int>)
    ensures s == "" ==> r == Some(0)
    ensures r.Some? <==> AllDigits(s) || IsSignedDigits(s, '-') || IsSignedDigits(s, '+')
    ensures AllDigits(s) ==> r.Some? && r.value >= 0
  {
    if AllDigits(s) then Some(DecimalValue(s))
    else if IsSignedDigits(s, '-') then Some(0 - (DecimalValue(s[1..]) as int))
    else if IsSignedDigits(s, '+') then Some(DecimalValue(s[1..]))
    else None
  }

  /** `x > y` on numbers: false whenever either side is NaN. */
  predicate Greater(x: Option<int>, y: Option<int>)
    ensures x.None? || y.None? ==> !Greater(x, y)
    ensures Greater(x, y) ==> x != y
  {
    x.Some? && y.Some? && x.value > y.value
  }

  /** `Number(x)` where x may be `undefined`: NaN for a missing value. */
  function NumberOfOptional(s: Option<string>): (r: Option<int>)
    ensures s.None? ==> r.None?
    ensures s.Some? ==> r == NumberOf(s.value)
  {
    match s
    case None => None
    case Some(t) => NumberOf(t)
  }

  /** `n.toString()` for a natural number: its shortest decimal spelling. */
  function NatToString(n: nat): (s: string)
    ensures IsDigitString(s)
    ensures n < 10 <==> |s| == 1
  {
    if n < 10 then [DigitChar(n)] else NatToString(n / 10) + [DigitChar(n % 10)]
  }

  /** `i.toString()` for a whole number, with a leading minus sign when negative. */
  function IntToString(i: int): (s: string)
    ensures i >= 0 ==> s == NatToString(i)
    ensures i < 0 ==> |s| > 1 && s[0] == '-' && s[1..] == NatToString(-i)
  {
    if i < 0 then "-" + NatToString(-i) else NatToString(i)
  }

  /** `String(x)` for a value that may be NaN. */
  function NumberText(x: Option<int>): (t: string)
    ensures x.None? ==> t == "NaN" && !IsDigit(t[0])
    ensures x.Some? && x.value >= 0 ==> IsDigitString(t)
    ensures x.Some? && x.value < 0 ==> |t| > 1 && t[0] == '-' && IsDigitString(t[1..])
  {
    match x
    case None => "NaN"
    case Some(i) => IntToString(i)
  }

  /** Reading back what `toString` wrote gives the number again. */
  lemma {:induction false} NumberOfNatToString(n: nat)
    ensures NumberOf(NatToString(n)) == Some(n)
  {
    var s := NatToString(n);
    if n < 10 {
      assert s[..0] == [];
    } else {
      NumberOfNatToString(n / 10);
      assert s[..|s| - 1] == NatToString(n / 10);
      assert DecimalValue(s) == DecimalValue(NatToString(n / 10)) * 10 + n % 10;
    }
  }

  /** Reading back what `toString` wrote gives the number again, negative or not. */
  lemma NumberOfIntToString(i: int)
    ensures NumberOf(IntToString(i)) == Some(i)
  {
    var s := IntToString(i);
    if i < 0 {
      NumberOfNatToString(-i);
      assert !IsDigit(s[0]);
    } else {
      NumberOfNatToString(i);
    }
  }

  /** `Number(String(x))` is x again, NaN included. */
  lemma NumberOfNumberText(x: Option<int>)
    ensures NumberOf(NumberText(x)) == x
  {
    match x
    case None =>
      assert !IsDigit(NumberText(x)[0]);
    case Some(i) =>
      NumberOfIntToString(i);
  }
}
