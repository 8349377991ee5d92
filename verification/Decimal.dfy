/** Numbers written in decimal, as the compiler prints and reads them. */
module Decimal {

  predicate IsDigit(c: char) {
    '0' <= c <= '9'
  }

  predicate AllDigits(s: string) {
    forall i :: 0 <= i < |s| ==> IsDigit(s[i])
  }

  function DigitValue(c: char): (d: nat)
    requires IsDigit(c)
    ensures d < 10
  {
    c as int - '0' as int
  }

  function Digit(d: nat): (c: char)
    requires d < 10
    ensures IsDigit(c) && DigitValue(c) == d && c == DIGITS[d]
  {
    '0' + d as char
  }

  const DIGITS := "0123456789"

  /** There are no other digits. */
  lemma DigitStands(c: char)
    requires IsDigit(c)
    ensures c == DIGITS[DigitValue(c)]
  {
  }

  function Render(n: nat): (s: string)
    ensures |s| > 0 && AllDigits(s)
  {
    if n < 10 then [Digit(n)] else Render(n / 10) + [Digit(n % 10)]
  }

  /** Reading digits from left to right, starting from what was read before. */
  function Read(acc: nat, s: string): nat
    requires AllDigits(s)
    decreases |s|
  {
    if s == [] then acc else Read(acc * 10 + DigitValue(s[0]), s[1..])
  }

  lemma {:induction false} ReadSnoc(acc: nat, s: string, c: char)
    requires AllDigits(s) && IsDigit(c)
    ensures Read(acc, s + [c]) == Read(acc, s) * 10 + DigitValue(c)
    decreases |s|
  {
    if s == [] {
      assert (s + [c])[1..] == [];
    } else {
      assert (s + [c])[1..] == s[1..] + [c];
      ReadSnoc(acc * 10 + DigitValue(s[0]), s[1..], c);
    }
  }

  /** Reading inverts rendering. */
  lemma {:induction false} ReadRender(n: nat)
    ensures Read(0, Render(n)) == n
  {
    if n < 10 {
      assert Render(n)[1..] == [];
    } else {
      ReadRender(n / 10);
      ReadSnoc(0, Render(n / 10), Digit(n % 10));
    }
  }

  lemma RenderInjective(m: nat, n: nat)
    requires Render(m) == Render(n)
    ensures m == n
  {
    ReadRender(m);
    ReadRender(n);
  }
}
