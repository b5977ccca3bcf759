/**
  Decimal text: the digits `Serial.println` prints for an unsigned number,
  and `atoi` restricted to text that starts with plain decimal digits.
 */
module Decimal {

  predicate IsDigit(c: char) {
    '0' <= c <= '9'
  }

  predicate AllDigits(s: seq<char>) {
    forall i :: 0 <= i < |s| ==> IsDigit(s[i])
  }

  function DigitChar(d: nat): (c: char)
    requires d < 10
    ensures IsDigit(c) && c as int - '0' as int == d
  {
    ('0' as int + d) as char
  }

  /** The number a run of decimal digits denotes. */
  function Value(ds: seq<char>): nat
    requires AllDigits(ds)
  {
    if |ds| == 0 then 0
    else Value(ds[..|ds| - 1]) * 10 + (ds[|ds| - 1] as int - '0' as int)
  }

  /** The digits printed for `n`: no sign and no leading zero. */
  function ToDecimal(n: nat): (s: string)
    ensures 1 <= |s| && AllDigits(s)
    ensures s[0] == '0' ==> n == 0
    ensures Value(s) == n
    decreases n
  {
    if n < 10 then [DigitChar(n)]
    else
      var p := ToDecimal(n / 10);
      var s := p + [DigitChar(n % 10)];
      assert s[..|s| - 1] == p;
      s
  }

  /** The longest prefix of `s` made of decimal digits. */
  function LeadingDigits(s: seq<char>): (ds: seq<char>)
    ensures AllDigits(ds) && ds <= s
    ensures |ds| < |s| ==> !IsDigit(s[|ds|])
  {
    if |s| == 0 || !IsDigit(s[0]) then []
    else [s[0]] + LeadingDigits(s[1..])
  }

  /** `atoi` on text without leading blanks or sign: 0 when no digit leads. */
  function Atoi(s: seq<char>): nat
  {
    Value(LeadingDigits(s))
  }

  /** Any text that continues a digit run with a non-digit ends the run. */
  lemma {:induction false} LeadingDigitsOf(ds: seq<char>, rest: seq<char>)
    requires AllDigits(ds)
    requires |rest| == 0 || !IsDigit(rest[0])
    ensures LeadingDigits(ds + rest) == ds
    decreases |ds|
  {
    if |ds| > 0 {
      assert (ds + rest)[1..] == ds[1..] + rest;
      LeadingDigitsOf(ds[1..], rest);
    } else {
      assert ds + rest == rest;
    }
  }

  /** `atoi` reads back the number `Serial.print` wrote, whatever non-digit follows. */
  lemma AtoiToDecimal(n: nat, rest: seq<char>)
    requires |rest| == 0 || !IsDigit(rest[0])
    ensures Atoi(ToDecimal(n) + rest) == n
  {
    LeadingDigitsOf(ToDecimal(n), rest);
  }
}
