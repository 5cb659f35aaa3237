/** Decimal numbers as JSON writes them, and how long they are. */
module Json {

  function Digits(n: nat): (digits: string)
    ensures |digits| >= 1
    decreases n
  {
    if n < 10 then [Digit(n)] else Digits(n / 10) + [Digit(n % 10)]
  }

  function Digit(n: nat): char
    requires n < 10
  {
    "0123456789"[n]
  }

  function Pow10(k: nat): nat {
    if k == 0 then 1 else 10 * Pow10(k - 1)
  }

  lemma {:induction false} DigitsShort(n: nat, k: nat)
    requires k > 0 && n < Pow10(k)
    ensures |Digits(n)| <= k
    decreases k
  {
    if n >= 10 {
      assert k > 1 by {
        assert Pow10(1) == 10 * Pow10(0);
      }
      DigitsShort(n / 10, k - 1);
    }
  }

  /** Longer numbers take at least as many digits. */
  lemma {:induction false} DigitsGrow(m: nat, n: nat)
    requires m <= n
    ensures |Digits(m)| <= |Digits(n)|
    decreases n
  {
    if m >= 10 {
      DigitsGrow(m / 10, n / 10);
    }
  }

  function Truth(b: bool): string {
    if b then "true" else "false"
  }
}
