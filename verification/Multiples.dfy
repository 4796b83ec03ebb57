/** Multiples of a real number, counted without multiplication. */
module Multiples {
  function Times(n: nat, d: real): real {
    if n == 0 then 0.0 else Times(n - 1, d) + d
  }

  lemma {:induction false} TimesIsProduct(n: nat, d: real)
    ensures Times(n, d) == n as real * d
  {
    if n > 0 {
      TimesIsProduct(n - 1, d);
      assert n as real * d == (n - 1) as real * d + d;
    }
  }
}
