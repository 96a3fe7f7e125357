// Signed 64-bit arithmetic, which wraps around.
module Int64 {

  const TWO_TO_THE_63 := 0x8000_0000_0000_0000
  const TWO_TO_THE_64 := 0x1_0000_0000_0000_0000

  function Wrap64(n: int): int {
    (n + TWO_TO_THE_63) % TWO_TO_THE_64 - TWO_TO_THE_63
  }

  lemma ModMultiple(n: int, k: int)
    ensures (n + k * TWO_TO_THE_64) % TWO_TO_THE_64 == n % TWO_TO_THE_64
  {
  }

  lemma WrapMultiple(n: int, k: int)
    ensures Wrap64(n + k * TWO_TO_THE_64) == Wrap64(n)
  {
    ModMultiple(n + TWO_TO_THE_63, k);
  }

  lemma WrapIs(n: int) returns (k: int)
    ensures Wrap64(n) == n + k * TWO_TO_THE_64
  {
    k := -((n + TWO_TO_THE_63) / TWO_TO_THE_64);
  }

  // Wrapping early makes no difference to a sum or a product.
  lemma WrapAdds(m: int, n: int)
    ensures Wrap64(Wrap64(m) + n) == Wrap64(m + n)
  {
    var k := WrapIs(m);
    WrapMultiple(m + n, k);
  }

  lemma WrapMultiplies(m: int, n: int)
    ensures Wrap64(Wrap64(m) * n) == Wrap64(m * n)
  {
    var k := WrapIs(m);
    assert Wrap64(m) * n == m * n + (k * n) * TWO_TO_THE_64;
    WrapMultiple(m * n, k * n);
  }

  lemma WrapZero(n: nat)
    ensures Wrap64(n) == 0 <==> n % TWO_TO_THE_64 == 0
  {
  }

  function Pow2(n: nat): (p: nat)
    ensures p > 0
  {
    if n == 0 then 1 else 2 * Pow2(n - 1)
  }

  lemma {:induction false} Pow2Adds(m: nat, n: nat)
    ensures Pow2(m + n) == Pow2(m) * Pow2(n)
  {
    if m > 0 {
      Pow2Adds(m - 1, n);
      assert Pow2(m) * Pow2(n) == 2 * (Pow2(m - 1) * Pow2(n));
    }
  }

  lemma {:induction false} Pow2Grows(m: nat, n: nat)
    requires m <= n
    ensures Pow2(m) <= Pow2(n)
  {
    if m < n {
      Pow2Grows(m, n - 1);
    }
  }
}
