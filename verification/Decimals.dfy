/** Numbers as the decimal text that `str` gives. */
module Decimals {

  predicate IsDigit(c: char) { '0' <= c <= '9' }

  function Decimal(n: nat): (text: string)
    ensures text != [] && (n >= 10 ==> |text| >= 2) && forall i | 0 <= i < |text| :: IsDigit(text[i])
  {
    if n < 10 then [('0' as int + n) as char] else Decimal(n / 10) + [('0' as int + n % 10) as char]
  }

  lemma {:induction false} DecimalIsInjective(m: nat, n: nat)
    requires Decimal(m) == Decimal(n)
    ensures m == n
  {
    assert Decimal(m)[|Decimal(m)| - 1] == Decimal(n)[|Decimal(n)| - 1];
    if m >= 10 && n >= 10 {
      assert Decimal(m)[..|Decimal(m)| - 1] == Decimal(m / 10) && Decimal(n)[..|Decimal(n)| - 1] == Decimal(n / 10);
      DecimalIsInjective(m / 10, n / 10);
    }
  }

  /** A whole number with its sign. */
  function Signed(n: int): string {
    if n >= 0 then Decimal(n) else "-" + Decimal(-n)
  }

  lemma SignedIsInjective(m: int, n: int)
    requires Signed(m) == Signed(n)
    ensures m == n
  {
    assert Signed(m)[0] == Signed(n)[0];
    if m >= 0 {
      DecimalIsInjective(m, n);
    } else {
      assert Decimal(-m) == Signed(m)[1..] == Signed(n)[1..] == Decimal(-n);
      DecimalIsInjective(-m, -n);
    }
  }

  lemma SignedCharacters(n: int)
    ensures forall i | 0 <= i < |Signed(n)| :: IsDigit(Signed(n)[i]) || Signed(n)[i] == '-'
  {
  }
}
