/** Decimal printing of integers, shared by the JSON encoder and the indexed form keys. */
module Decimal {
  predicate IsDigit(c: char) {
    '0' <= c <= '9'
  }

  predicate AllDigits(s: string) {
    forall i :: 0 <= i < |s| ==> IsDigit(s[i])
  }

  function Digit(d: nat): (c: char)
    requires d < 10
    ensures IsDigit(c) && DigitValue(c) == d
  {
    ('0' as int + d) as char
  }

  function DigitValue(c: char): int {
    c as int - '0' as int
  }

  function Natural(n: nat): string {
    if n < 10 then [Digit(n)] else Natural(n / 10) + [Digit(n % 10)]
  }

  function Integer(n: int): string {
    if n < 0 then "-" + Natural(-n) else Natural(n)
  }

  /** The number that a string of digits denotes. */
  function ValueOf(s: string): nat
    requires AllDigits(s)
  {
    if s == "" then 0 else ValueOf(s[..|s| - 1]) * 10 + DigitValue(s[|s| - 1])
  }

  /** The number that an optional minus sign and digits denote. */
  function IntegerOf(s: string): int
    requires IsInteger(s)
  {
    if s[0] == '-' then 0 - ValueOf(s[1..]) else ValueOf(s)
  }

  predicate IsInteger(s: string) {
    s != "" && if s[0] == '-' then |s| > 1 && AllDigits(s[1..]) else AllDigits(s)
  }

  /** Natural prints digits only, no leading zero, and can be read back; so it is injective. */
  lemma {:induction false} NaturalReads(n: nat)
    ensures Natural(n) != "" && AllDigits(Natural(n)) && ValueOf(Natural(n)) == n
    ensures Natural(n)[0] == '0' ==> n == 0
    ensures |Natural(n)| > 1 ==> n >= 10
  {
    if n < 10 {
      assert ValueOf([Digit(n)]) == ValueOf([]) * 10 + n;
    } else {
      NaturalReads(n / 10);
      var s := Natural(n);
      assert s[..|s| - 1] == Natural(n / 10);
    }
  }

  lemma {:induction false} NaturalInjective(m: nat, n: nat)
    requires Natural(m) == Natural(n)
    ensures m == n
  {
    NaturalReads(m);
    NaturalReads(n);
  }

  lemma {:induction false} IntegerReads(n: int)
    ensures IsInteger(Integer(n)) && IntegerOf(Integer(n)) == n
  {
    NaturalReads(if n < 0 then -n else n);
    if n < 0 {
      assert Integer(n)[1..] == Natural(-n);
    }
  }
}
