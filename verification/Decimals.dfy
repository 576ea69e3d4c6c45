/** Decimal notation. */
module Decimals {
  function Digit(d: nat): char
    requires d < 10
  {
    '0' + d as char
  }

  function Decimal(n: nat): string {
    if n < 10 then [Digit(n)] else Decimal(n / 10) + [Digit(n % 10)]
  }

  function ToString(n: int): string {
    if n < 0 then "-" + Decimal(-n) else Decimal(n)
  }

  predicate IsDigit(c: char) {
    '0' <= c <= '9'
  }

  predicate AllDigits(s: string) {
    forall i :: 0 <= i < |s| ==> IsDigit(s[i])
  }

  function Number(s: string): nat
    requires AllDigits(s)
  {
    if s == [] then 0 else 10 * Number(s[..|s| - 1]) + (s[|s| - 1] - '0') as nat
  }

  lemma {:induction false} DecimalOf(n: nat)
    ensures AllDigits(Decimal(n)) && Number(Decimal(n)) == n && Decimal(n) != []
  {
    if n < 10 {
      assert Number([Digit(n)][..0]) == 0;
    } else {
      DecimalOf(n / 10);
      assert Decimal(n)[..|Decimal(n)| - 1] == Decimal(n / 10);
    }
  }

  /** Different integers print differently. */
  lemma ToStringInjective(a: int, b: int)
    requires ToString(a) == ToString(b)
    ensures a == b
  {
    DecimalOf(if a < 0 then -a else a);
    DecimalOf(if b < 0 then -b else b);
    assert (a < 0) == (ToString(a)[0] == '-') && (b < 0) == (ToString(b)[0] == '-');
    if a < 0 {
      assert ToString(a)[1..] == Decimal(-a) && ToString(b)[1..] == Decimal(-b);
    }
  }
}
