/** Powers and division facts used by the byte codecs and by SRP. */
module Arithmetic {

  function Pow(base: int, exp: nat): int {
    if exp == 0 then 1 else base * Pow(base, exp - 1)
  }

  lemma {:induction false} PowPositive(base: int, exp: nat)
    requires base > 0
    ensures Pow(base, exp) > 0
  {
    if exp > 0 {
      PowPositive(base, exp - 1);
    }
  }

  lemma {:induction false} PowAdd(base: int, m: nat, n: nat)
    ensures Pow(base, m + n) == Pow(base, m) * Pow(base, n)
  {
    if m > 0 {
      PowAdd(base, m - 1, n);
      calc {
        Pow(base, m + n);
        base * Pow(base, m - 1 + n);
        base * (Pow(base, m - 1) * Pow(base, n));
        (base * Pow(base, m - 1)) * Pow(base, n);
      }
    }
  }

  lemma {:induction false} PowMul(base: int, m: nat, n: nat)
    ensures Pow(Pow(base, m), n) == Pow(base, m * n)
    decreases n
  {
    if n == 0 {
      assert m * n == 0;
    } else {
      PowMul(base, m, n - 1);
      PowAdd(base, m, m * (n - 1));
      assert m + m * (n - 1) == m * n;
    }
  }
}
