/** Printing numbers in decimal and reading them back. */
module Decimal {
  import S = Sequences

  predicate IsDigit(c: char) {
    '0' <= c <= '9'
  }

  function DigitValue(c: char): nat
    requires IsDigit(c)
  {
    c as int - '0' as int
  }

  function DigitChar(d: nat): (c: char)
    requires d < 10
    ensures IsDigit(c) && DigitValue(c) == d
  {
    ('0' as int + d) as char
  }

  function Digits(n: nat): (s: string)
    ensures s != [] && forall i :: 0 <= i < |s| ==> IsDigit(s[i])
  {
    if n < 10 then [DigitChar(n)] else Digits(n / 10) + [DigitChar(n % 10)]
  }

  function Value(s: string): nat
    requires forall i :: 0 <= i < |s| ==> IsDigit(s[i])
  {
    if s == [] then 0 else 10 * Value(s[..|s| - 1]) + DigitValue(s[|s| - 1])
  }

  lemma {:induction false} ValueOfDigits(n: nat)
    ensures Value(Digits(n)) == n
  {
    if n >= 10 {
      var s := Digits(n);
      assert s[..|s| - 1] == Digits(n / 10);
      ValueOfDigits(n / 10);
    }
  }

  /** How many digits a text begins with. */
  function DigitRun(s: string): (k: nat)
    ensures k <= |s| && forall i :: 0 <= i < k ==> IsDigit(s[i])
  {
    if s == [] || !IsDigit(s[0]) then 0 else 1 + DigitRun(s[1..])
  }

  /** A text of digits before something else is the whole run of digits. */
  lemma {:induction false} DigitRunOf(a: string, b: string)
    requires forall i :: 0 <= i < |a| ==> IsDigit(a[i])
    requires b != [] ==> !IsDigit(b[0])
    ensures DigitRun(a + b) == |a|
  {
    if a == [] {
      S.Empty(b);
    } else {
      S.HeadTail(a, b);
      DigitRunOf(a[1..], b);
    }
  }

  /** No number is printed with a zero in front. */
  lemma {:induction false} NoLeadingZero(n: nat)
    ensures |Digits(n)| > 1 ==> Digits(n)[0] != '0'
    ensures n > 0 ==> Digits(n)[0] != '0'
  {
    if n >= 10 {
      NoLeadingZero(n / 10);
    }
  }

  /** Digits without a zero in front are how their value is printed. */
  lemma {:induction false} DigitsOfValue(s: string)
    requires s != [] && (forall i :: 0 <= i < |s| ==> IsDigit(s[i])) && (|s| > 1 ==> s[0] != '0')
    ensures Digits(Value(s)) == s && (s[0] != '0' ==> Value(s) > 0)
  {
    var n := |s| - 1;
    var front, last := s[..n], s[n];
    assert s == front + [last] && DigitChar(DigitValue(last)) == last;
    if n > 0 {
      DigitsOfValue(front);
      assert Value(s) / 10 == Value(front) && Value(s) % 10 == DigitValue(last);
    } else {
      assert Value(front) == 0;
    }
  }

  lemma DigitsExample()
    ensures Digits(9876543210) == "9876543210"
  {
    assert Digits(9) == "9";
    assert Digits(98) == "98";
    assert Digits(987) == "987";
    assert Digits(9876) == "9876";
    assert Digits(98765) == "98765";
    assert Digits(987654) == "987654";
    assert Digits(9876543) == "9876543";
    assert Digits(98765432) == "98765432";
    assert Digits(987654321) == "987654321";
  }
}
