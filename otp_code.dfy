/** The passcodes that send-otp issues. The source draws a float in [0, 1)
    and renders floor(100000 + r * 900000) as a decimal string; this module
    takes the value of that code minus 100000 as the draw, an integer in
    [0, 900000), and models the rendering exactly. */
module OtpCode {

  /** Number of digits of a passcode. */
  const OtpLength: nat := 6

  predicate IsDigit(c: char) {
    '0' <= c <= '9'
  }

  function DigitChar(d: nat): (c: char)
    requires d < 10
    ensures IsDigit(c) && DigitValue(c) == d
  {
    ('0' as int + d) as char
  }

  function DigitValue(c: char): nat
    requires IsDigit(c)
  {
    c as int - '0' as int
  }

  predicate AllDigits(s: string) {
    forall i :: 0 <= i < |s| ==> IsDigit(s[i])
  }

  function Pow10(k: nat): (p: nat)
    ensures p >= 1
  {
    if k == 0 then 1 else 10 * Pow10(k - 1)
  }

  /** The decimal rendering of a non-negative integer, as JavaScript's
      `Number.prototype.toString` produces it: no sign, no leading zero. */
  function Decimal(n: nat): (s: string)
    ensures |s| >= 1 && AllDigits(s)
    ensures n > 0 ==> s[0] != '0'
  {
    if n < 10 then [DigitChar(n)] else Decimal(n / 10) + [DigitChar(n % 10)]
  }

  /** The number a string of decimal digits denotes. */
  function ValueOf(s: string): nat
    requires AllDigits(s)
  {
    if s == [] then 0 else 10 * ValueOf(s[..|s| - 1]) + DigitValue(s[|s| - 1])
  }

  /** Reading back a rendered number gives the number. */
  lemma {:induction false} ValueOfDecimal(n: nat)
    ensures ValueOf(Decimal(n)) == n
  {
    var s := Decimal(n);
    if n >= 10 {
      var prefix := Decimal(n / 10);
      assert s[..|s| - 1] == prefix;
      ValueOfDecimal(n / 10);
    }
  }

  /** A number with k + 1 digits renders as k + 1 characters. */
  lemma {:induction false} DecimalLength(n: nat, k: nat)
    requires Pow10(k) <= n < Pow10(k + 1)
    ensures |Decimal(n)| == k + 1
  {
    if k > 0 {
      DecimalLength(n / 10, k - 1);
    }
  }

  /** A well-formed passcode: six decimal digits, the first not zero. */
  predicate IsOtpCode(s: string) {
    |s| == OtpLength && AllDigits(s) && s[0] != '0'
  }

  /** generateOtp: the passcode for a draw in [0, 900000). Its value lies
      in [100000, 999999] and determines the draw. */
  function GenerateOtp(draw: nat): (code: string)
    requires draw < 900000
    ensures IsOtpCode(code)
    ensures ValueOf(code) == 100000 + draw
  {
    DecimalLength(100000 + draw, 5);
    ValueOfDecimal(100000 + draw);
    Decimal(100000 + draw)
  }

  /** Different draws give different passcodes. */
  lemma GenerateOtpInjective(d1: nat, d2: nat)
    requires d1 < 900000 && d2 < 900000 && d1 != d2
    ensures GenerateOtp(d1) != GenerateOtp(d2)
  {
  }
}
