/** Decimal text of integers, as prices, vertex grids and JSON numbers use it. */
module Decimal {

  predicate IsDigit(c: char) {
    '0' <= c <= '9'
  }

  predicate AllDigits(s: string) {
    forall i :: 0 <= i < |s| ==> IsDigit(s[i])
  }

  function Digit(n: nat): (c: char)
    requires n < 10
    ensures IsDigit(c)
  {
    '0' + n as char
  }

  function DigitValue(c: char): nat
    requires IsDigit(c)
  {
    (c - '0') as nat
  }

  /** The decimal text of a natural number, without leading zeros. */
  function Text(n: nat): (s: string)
    ensures |s| > 0 && AllDigits(s)
  {
    if n < 10 then [Digit(n)] else Text(n / 10) + [Digit(n % 10)]
  }

  function Value(s: string): nat
    requires AllDigits(s)
  {
    if s == "" then 0 else 10 * Value(s[..|s| - 1]) + DigitValue(s[|s| - 1])
  }

  /** /\A[1-9]\d*\z/ */
  predicate IsAmount(s: string) {
    AllDigits(s) && |s| > 0 && s[0] != '0'
  }

  lemma {:induction false} ValueOfText(n: nat)
    ensures Value(Text(n)) == n
  {
    if n >= 10 {
      ValueOfText(n / 10);
      assert Text(n)[..|Text(n)| - 1] == Text(n / 10);
    } else {
      assert Text(n)[..0] == "";
    }
  }

  /** An amount string is positive, and is the text of its own value. */
  lemma {:induction false} TextOfValue(s: string)
    requires IsAmount(s)
    ensures Value(s) > 0 && Text(Value(s)) == s
  {
    var front := s[..|s| - 1];
    if front == "" {
      assert s == [s[0]] && Value(front) == 0;
    } else {
      TextOfValue(front);
      assert s == front + [s[|s| - 1]];
    }
  }

  /** The most significant digit comes first. */
  lemma HighestDigitFirst(n: nat, d: nat)
    requires n > 0 && d < 10
    ensures Text(10 * n + d) == Text(n) + [Digit(d)] && Digit(d) == "0123456789"[d]
    ensures Value(Text(n) + [Digit(d)]) == 10 * n + d
  {
    assert (10 * n + d) / 10 == n && (10 * n + d) % 10 == d;
    assert (Text(n) + [Digit(d)])[..|Text(n)|] == Text(n);
    ValueOfText(n);
  }

  lemma TextInjective(m: nat, n: nat)
    requires Text(m) == Text(n)
    ensures m == n
  {
    ValueOfText(m);
    ValueOfText(n);
  }

  /** Ruby's and JavaScript's text of an integer. */
  function SignedText(n: int): (s: string)
    ensures |s| > 0 && forall i :: 0 <= i < |s| ==> IsDigit(s[i]) || s[i] == '-'
  {
    if n < 0 then "-" + Text(-n) else Text(n)
  }

  lemma SignComesFirst(n: int)
    ensures SignedText(n)[0] == '-' <==> n < 0
  {
  }

  lemma SignedTextInjective(m: int, n: int)
    requires SignedText(m) == SignedText(n)
    ensures m == n
  {
    SignComesFirst(m);
    SignComesFirst(n);
    if m < 0 {
      assert SignedText(m)[1..] == Text(-m) && SignedText(n)[1..] == Text(-n);
      TextInjective(-m, -n);
    } else {
      TextInjective(m, n);
    }
  }
}
