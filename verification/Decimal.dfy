/** Decimal numerals, as std::to_chars and std::to_string print them. */
module Decimal {

  predicate IsDigit(c: char) { '0' <= c <= '9' }

  predicate AllDigits(s: string) { forall i :: 0 <= i < |s| ==> IsDigit(s[i]) }

  function DigitChar(d: nat): (c: char)
    requires d < 10
    ensures IsDigit(c)
  {
    '0' + d as char
  }

  function DigitValue(c: char): (d: nat)
    requires IsDigit(c)
    ensures d < 10
  {
    c as nat - '0' as nat
  }

  /** The numeral of n, without leading zeros. */
  function Dec(n: nat): (s: string)
    ensures |s| > 0 && AllDigits(s)
  {
    if n < 10 then [DigitChar(n)] else Dec(n / 10) + [DigitChar(n % 10)]
  }

  /** The number that a string of digits denotes. */
  function NumberOf(s: string): nat
    requires AllDigits(s)
  {
    if s == [] then 0 else 10 * NumberOf(s[..|s| - 1]) + DigitValue(s[|s| - 1])
  }

  lemma {:induction false} NumberOfDec(n: nat)
    ensures NumberOf(Dec(n)) == n
  {
    if n >= 10 {
      NumberOfDec(n / 10);
      assert Dec(n)[..|Dec(n)| - 1] == Dec(n / 10);
    }
  }

  /** Digits without leading zeros are the numeral of the number they denote. */
  lemma {:induction false} DecOfDigits(s: string)
    requires s != "" && AllDigits(s) && (|s| > 1 ==> s[0] != '0')
    ensures Dec(NumberOf(s)) == s
  {
    var front, last := s[..|s| - 1], s[|s| - 1];
    assert IsDigit(last) && DigitChar(DigitValue(last)) == last && Dec(0) == "0";
    if |s| == 1 {
      assert NumberOf(front) == 0;
      assert s == [last];
    } else {
      assert IsDigit(front[0]) && front[0] == s[0];
      DecOfDigits(front);
      assert NumberOf(front) != 0;
      assert s == front + [last];
    }
  }

  function Pow10(k: nat): (p: nat)
    ensures p > 0
  {
    if k == 0 then 1 else 10 * Pow10(k - 1)
  }

  /** A number below 10^k has at most k digits. */
  lemma {:induction false} DecLength(n: nat, k: nat)
    requires k > 0 && n < Pow10(k)
    ensures |Dec(n)| <= k
  {
    if n >= 10 {
      assert k > 1;
      DecLength(n / 10, k - 1);
    }
  }

  /** Leading zeros do not change the value. */
  lemma {:induction false} LeadingZeros(zeros: nat, s: string)
    requires AllDigits(s)
    ensures AllDigits(seq(zeros, i => '0') + s)
    ensures NumberOf(seq(zeros, i => '0') + s) == NumberOf(s)
  {
    var padded := seq(zeros, i => '0') + s;
    if s != [] {
      LeadingZeros(zeros, s[..|s| - 1]);
      assert padded[..|padded| - 1] == seq(zeros, i => '0') + s[..|s| - 1];
    } else if zeros > 0 {
      LeadingZeros(zeros - 1, s);
      assert padded[..|padded| - 1] == seq(zeros - 1, i => '0') + s;
    }
  }

  /** The numeral of a possibly negative number. */
  function SignedDec(i: int): (s: string)
    ensures |s| > 0
  {
    if i < 0 then "-" + Dec(-i) else Dec(i)
  }
}
