/**
 luhnCheck of validators/rules/payment_rules.go (the Luhn formula, Annex B of ISO/IEC 7812-1)
 and the errors it detects, for strings of every length.
 */
module Luhn {
  import opened Decimal

  /** What a digit adds to the sum: doubled in every second place, with nine cast out. */
  function Worth(d: int, second: bool): int {
    if !second then d else if 2 * d > 9 then 2 * d - 9 else 2 * d
  }

  function DigitSum(s: string): int
    requires AllDigits(s)
  {
    if s == "" then 0 else DigitValue(s[0]) + DigitSum(s[1..])
  }

  /** In a second place a digit is worth the digit sum of its double. */
  lemma {:induction false} WorthIsDigitSum(d: nat, second: bool)
    requires d < 10
    ensures AllDigits(Natural(if second then 2 * d else d))
    ensures Worth(d, second) == DigitSum(Natural(if second then 2 * d else d))
  {
    var n := if second then 2 * d else d;
    NaturalReads(n);
    OneDigitSum(n % 10);
    if n >= 10 {
      assert Natural(n) == [Digit(1), Digit(n - 10)];
      assert Natural(n)[1..] == [Digit(n - 10)];
      assert DigitSum(Natural(n)) == 1 + DigitSum([Digit(n - 10)]);
    }
  }

  lemma OneDigitSum(d: nat)
    requires d < 10
    ensures DigitSum([Digit(d)]) == d
  {
    assert [Digit(d)][1..] == [];
  }

  /** The sum over the digits of s, whose last digit is in a second place or not. */
  function Sum(s: string, second: bool): int
    requires AllDigits(s)
  {
    if s == "" then 0 else Worth(DigitValue(s[|s| - 1]), second) + Sum(s[..|s| - 1], !second)
  }

  ghost predicate Accepted(s: string) {
    AllDigits(s) && Sum(s, false) % 10 == 0
  }

  method LuhnCheck(s: string) returns (ok: bool)
    ensures ok <==> Accepted(s)
  {
    var sum, isSecond := 0, false;
    var i := |s| - 1;
    assert s[..|s|] == s;
    while i >= 0
      invariant -1 <= i < |s|
      invariant forall j | i < j < |s| :: IsDigit(s[j])
      invariant AllDigits(s[..i + 1]) ==> AllDigits(s) && Sum(s, false) == sum + Sum(s[..i + 1], isSecond)
    {
      var r := s[i];
      if r < '0' || r > '9' {
        return false;
      }
      var d := r as int - '0' as int;
      if isSecond {
        d := d * 2;
        if d > 9 {
          d := d - 9;
        }
      }
      assert s[..i + 1][..i] == s[..i] && s[..i + 1][i] == r;
      sum := sum + d;
      isSecond := !isSecond;
      i := i - 1;
    }
    return sum % 10 == 0;
  }

  /** The place of digit i counted from the right end. */
  function Second(s: string, i: nat, last: bool): bool
    requires i < |s|
  {
    if (|s| - 1 - i) % 2 == 0 then last else !last
  }

  /** Changing one digit changes the sum by the difference of its worths. */
  lemma {:induction false} SumOfChange(s: string, i: nat, c: char, last: bool)
    requires AllDigits(s) && i < |s| && IsDigit(c)
    ensures AllDigits(s[i := c])
    ensures Sum(s[i := c], last) - Sum(s, last) ==
      Worth(DigitValue(c), Second(s, i, last)) - Worth(DigitValue(s[i]), Second(s, i, last))
  {
    var n := |s| - 1;
    if i == n {
      assert s[i := c][..n] == s[..n];
    } else {
      assert s[i := c][..n] == s[..n][i := c];
      SumOfChange(s[..n], i, c, !last);
    }
  }

  /** Any other character in place of one of an accepted string is detected. */
  lemma OneChangeIsDetected(s: string, i: nat, c: char)
    requires Accepted(s) && i < |s| && c != s[i]
    ensures !Accepted(s[i := c])
  {
    if IsDigit(c) {
      SumOfChange(s, i, c, false);
      assert DigitValue(c) != DigitValue(s[i]);
    } else {
      assert s[i := c][i] == c;
    }
  }

  /** Swapping two adjacent different digits is detected unless they are 0 and 9. */
  lemma SwapIsDetectedIff(s: string, i: nat)
    requires Accepted(s) && i + 1 < |s| && s[i] != s[i + 1]
    ensures Accepted(s[i := s[i + 1]][i + 1 := s[i]]) <==> {s[i], s[i + 1]} == {'0', '9'}
  {
    var a, b := s[i], s[i + 1];
    var t := s[i := b];
    SumOfChange(s, i, b, false);
    SumOfChange(t, i + 1, a, false);
    var x, y := DigitValue(a), DigitValue(b);
    assert Second(t, i + 1, false) == !Second(s, i, false);
    SwapArithmetic(x, y, Second(s, i, false), Sum(s, false));
    assert {a, b} == {'0', '9'} <==> (x == 0 && y == 9) || (x == 9 && y == 0);
  }

  /** What doubling adds to a digit lies between -4 and 4, so only equal gains can cancel modulo ten. */
  function Gain(d: int): (g: int)
    requires 0 <= d <= 9
    ensures g == Worth(d, true) - Worth(d, false) && -4 <= g <= 4
  {
    if d < 5 then d else d - 9
  }

  lemma SwapArithmetic(x: int, y: int, second: bool, sum: int)
    requires 0 <= x <= 9 && 0 <= y <= 9 && sum % 10 == 0
    ensures (sum + Worth(y, second) - Worth(x, second) + Worth(x, !second) - Worth(y, !second)) % 10 == 0 <==>
      x == y || (x == 0 && y == 9) || (x == 9 && y == 0)
  {
    var g := if second then Gain(y) - Gain(x) else Gain(x) - Gain(y);
    assert -8 <= g <= 8;
    assert (sum + g) % 10 == g % 10;
  }

  function CheckDigit(s: string): char
    requires AllDigits(s)
  {
    ('0' as int + (10 - Sum(s, true) % 10) % 10) as char
  }

  /** Every digit string has exactly one character that completes it to an accepted one. */
  lemma OneCheckDigit(s: string, c: char)
    requires AllDigits(s)
    ensures Accepted(s + [c]) <==> c == CheckDigit(s)
  {
    var t := s + [c];
    assert t[..|s|] == s && t[|s|] == c;
    assert IsDigit(CheckDigit(s));
    if IsDigit(c) {
      assert AllDigits(t);
      assert Sum(t, false) == DigitValue(c) + Sum(s, true);
      CheckDigitFits(Sum(s, true), DigitValue(c));
    } else {
      assert !AllDigits(t);
    }
  }

  lemma CheckDigitFits(sum: int, d: int)
    requires 0 <= d <= 9
    ensures (d + sum) % 10 == 0 <==> d == (10 - sum % 10) % 10
  {
  }

  // ---- the number that the tests of the repository take for valid ----

  function FortyTwos(n: nat): string {
    if n == 0 then "" else FortyTwos(n - 1) + "42"
  }

  lemma {:induction false} FortyTwosSum(n: nat)
    ensures AllDigits(FortyTwos(n)) && Sum(FortyTwos(n), false) == 10 * n
  {
    if n > 0 {
      FortyTwosSum(n - 1);
      var s, init := FortyTwos(n), FortyTwos(n - 1);
      assert s[..|s| - 1] == init + "4" && (init + "4")[..|init|] == init;
      assert Sum(init + "4", true) == 8 + Sum(init, false);
    }
  }

  lemma {:induction false} KnownNumber()
    ensures Accepted("4242424242424242") && !Accepted("4242424242424241")
  {
    var s, t := "4242424242424242", "4242424242424241";
    FortyTwosSum(8);
    assert FortyTwos(2) == "4242" && FortyTwos(4) == FortyTwos(2) + "4242";
    assert FortyTwos(6) == FortyTwos(4) + "4242" && FortyTwos(8) == FortyTwos(6) + "4242";
    assert s == FortyTwos(8);
    OneChangeIsDetected(s, 15, '1');
    assert s[15 := '1'] == t;
  }
}
