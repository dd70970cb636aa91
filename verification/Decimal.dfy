/** Non-negative integers in decimal, as `str(n)` prints them and `int(s)` reads them. */
module Decimal {
  import opened Common

  predicate IsDigit(c: char) {
    '0' <= c <= '9'
  }

  function DigitOf(d: nat): (c: char)
    requires d < 10
    ensures IsDigit(c) && DigitValue(c) == d
  {
    '0' + d as char
  }

  function DigitValue(c: char): nat
    requires IsDigit(c)
  {
    c as nat - '0' as nat
  }

  function Print(n: nat): (s: string)
    ensures s != "" && forall i :: 0 <= i < |s| ==> IsDigit(s[i])
  {
    (if n < 10 then "" else Print(n / 10)) + [DigitOf(n % 10)]
  }

  predicate AllDigits(s: string) {
    forall i :: 0 <= i < |s| ==> IsDigit(s[i])
  }

  function Value(s: string): nat
    requires AllDigits(s)
  {
    if s == "" then 0 else 10 * Value(s[..|s| - 1]) + DigitValue(s[|s| - 1])
  }

  lemma {:induction false} ValuePrint(n: nat)
    ensures Value(Print(n)) == n
  {
    var s := Print(n);
    var head := if n < 10 then "" else Print(n / 10);
    assert s[..|s| - 1] == head;
    if n >= 10 { ValuePrint(n / 10); }
  }

  /** Different numbers print differently. */
  lemma PrintInjective(m: nat, n: nat)
    requires Print(m) == Print(n)
    ensures m == n
  {
    ValuePrint(m);
    ValuePrint(n);
  }

  /** Digits without a zero in front are what their value prints as. */
  lemma {:induction false} PrintValue(s: string)
    requires AllDigits(s) && s != "" && s[0] != '0'
    ensures Value(s) > 0 && Print(Value(s)) == s
  {
    var head, last := s[..|s| - 1], s[|s| - 1];
    assert head + [last] == s;
    if head == "" {
      assert Value(s) == DigitValue(last);
    } else {
      PrintValue(head);
      assert Value(s) / 10 == Value(head) && Value(s) % 10 == DigitValue(last);
    }
  }

  lemma {:induction false} NoLeadingZero(n: nat)
    requires n > 0
    ensures Print(n)[0] != '0'
  {
    if n >= 10 { NoLeadingZero(n / 10); }
  }
}
