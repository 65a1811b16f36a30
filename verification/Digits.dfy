/** Decimal digits: recognizing, reading and writing natural numbers. */
module Digits {
  predicate IsDigit(ch: char) {
    '0' <= ch <= '9'
  }

  predicate AllDigits(s: string) {
    forall i :: 0 <= i < |s| ==> IsDigit(s[i])
  }

  function NatText(n: nat): (s: string)
    ensures AllDigits(s) && s != ""
  {
    (if n < 10 then "" else NatText(n / 10)) + [('0' as int + n % 10) as char]
  }

  function DigitRun(s: string): (n: nat)
    ensures n <= |s| && AllDigits(s[..n]) && (n < |s| ==> !IsDigit(s[n]))
  {
    if s != "" && IsDigit(s[0]) then 1 + DigitRun(s[1..]) else 0
  }

  lemma {:induction false} DigitRunOf(digits: string, rest: string)
    requires AllDigits(digits) && (rest != "" ==> !IsDigit(rest[0]))
    ensures DigitRun(digits + rest) == |digits|
  {
    if digits == "" {
      assert digits + rest == rest;
    } else {
      assert (digits + rest)[1..] == digits[1..] + rest;
      DigitRunOf(digits[1..], rest);
    }
  }

  // ---- Reading and writing ----

  function NatOf(digits: string): nat
    requires AllDigits(digits)
  {
    if digits == "" then 0 else 10 * NatOf(digits[..|digits| - 1]) + (digits[|digits| - 1] as int - '0' as int)
  }

  /** Writing a number and reading it gives it back. */
  lemma {:induction false} NatOfText(n: nat)
    ensures NatOf(NatText(n)) == n
  {
    var front := if n < 10 then "" else NatText(n / 10);
    if n >= 10 {
      NatOfText(n / 10);
    }
    assert NatText(n)[..|front|] == front;
  }

  function Pow10(k: nat): (p: nat)
    ensures p >= 1
  {
    if k == 0 then 1 else 10 * Pow10(k - 1)
  }

  /** A number below 10^k has at most k digits. */
  lemma {:induction false} TextLength(n: nat, k: nat)
    requires k > 0 && n < Pow10(k)
    ensures |NatText(n)| <= k
  {
    if n >= 10 {
      assert k > 1;
      TextLength(n / 10, k - 1);
    }
  }

  /** Appending one digit. */
  lemma {:induction false} NatOfMore(digits: string, digit: char)
    requires AllDigits(digits) && IsDigit(digit)
    ensures AllDigits(digits + [digit]) && NatOf(digits + [digit]) == 10 * NatOf(digits) + (digit as int - '0' as int)
  {
    assert (digits + [digit])[..|digits|] == digits;
  }
}
