// The pause before a restart (engine/lifecycle.go), computed in signed 64-bit nanoseconds.
module Backoff {
  import opened Int64
  import opened Totals

  const SECOND := 1_000_000_000
  const MAX_BACKOFF := 300 * SECOND

  // What the code computes for the n-th restart.  A shift by 64 or more, and one by a negative count, which
  // becomes a huge one, leaves nothing.
  function Duration(n: int): int {
    var seconds := if 1 <= n <= 64 then Wrap64(10 * Pow2(n - 1)) else 0;
    var d := Wrap64(seconds * SECOND);
    if d > MAX_BACKOFF then MAX_BACKOFF else d
  }

  // Ten seconds, doubled for each restart before, up to five minutes.
  function Intended(n: nat): int
    requires 1 <= n
  {
    Min(10 * Pow2(n - 1) * SECOND, MAX_BACKOFF)
  }

  // Ten times a second is a power of five times a power of two.
  const FIVE_TO_THE_10 := 9_765_625

  function Bit(i: nat): nat {
    (FIVE_TO_THE_10 / Pow2(i)) % 2
  }

  // With the power of two so large, only the lowest bits of the factor survive.
  lemma Unlimited(n: nat)
    requires 1 <= n <= 64
    ensures Wrap64(Wrap64(10 * Pow2(n - 1)) * SECOND) == Wrap64(FIVE_TO_THE_10 * Pow2(n + 9))
  {
    WrapMultiplies(10 * Pow2(n - 1), SECOND);
    Pow2Adds(10, n - 1);
    assert Pow2(10) == 1024;
    assert 10 * Pow2(n - 1) * SECOND == FIVE_TO_THE_10 * (1024 * Pow2(n - 1));
  }

  lemma Powers()
    ensures Pow2(24) == 16_777_216 && Pow2(30) == 1_073_741_824 && Pow2(40) == 1_099_511_627_776
    ensures Pow2(63) == TWO_TO_THE_63 && Pow2(64) == TWO_TO_THE_64
  {
    assert Pow2(10) == 1024;
    Pow2Adds(10, 10);
    Pow2Adds(4, 20);
    Pow2Adds(10, 20);
    Pow2Adds(20, 20);
    Pow2Adds(24, 40);
  }

  // From the 55th restart on every bit is shifted out.
  lemma NothingLeft(n: nat)
    requires 55 <= n <= 64
    ensures Wrap64(FIVE_TO_THE_10 * Pow2(n + 9)) == 0
  {
    Powers();
    Pow2Adds(64, n - 55);
    var k := FIVE_TO_THE_10 * Pow2(n - 55);
    assert FIVE_TO_THE_10 * Pow2(n + 9) == 0 + k * TWO_TO_THE_64;
    WrapMultiple(0, k);
  }

  // Up to the 54th, the lowest 54 - n + 1 bits of the factor decide sign and size.
  lemma LowBitsLeft(n: nat)
    requires 1 <= n <= 54
    ensures var low := FIVE_TO_THE_10 % Pow2(55 - n);
      Wrap64(FIVE_TO_THE_10 * Pow2(n + 9)) ==
      if Bit(54 - n) == 0 then low * Pow2(n + 9) else low * Pow2(n + 9) - TWO_TO_THE_64
  {
    Powers();
    Pow2Adds(54 - n, n + 9);
    assert Pow2(55 - n) == 2 * Pow2(54 - n);
    WrapProduct(FIVE_TO_THE_10, Pow2(54 - n), Pow2(n + 9));
  }

  lemma WrapProduct(x: nat, half: nat, p: nat)
    requires half > 0 && p > 0 && half * p == TWO_TO_THE_63
    ensures var low := x % (2 * half);
      Wrap64(x * p) == if (x / half) % 2 == 0 then low * p else low * p - TWO_TO_THE_64
  {
    var q, low := x / (2 * half), x % (2 * half);
    assert x * p == low * p + q * TWO_TO_THE_64 by {
      assert x * p == (2 * half * q + low) * p == (2 * half * p) * q + low * p;
    }
    WrapMultiple(low * p, q);
    HighBit(x, half);
    Scaled(low, p, half);
    Scaled(low, p, 2 * half);
    WrapSmall(low * p);
  }

  lemma WrapSmall(n: nat)
    requires n < TWO_TO_THE_64
    ensures Wrap64(n) == if n < TWO_TO_THE_63 then n else n - TWO_TO_THE_64
  {
  }

  // Whether a number's lower part reaches half of the modulus is the bit there.
  lemma HighBit(x: nat, half: nat)
    requires half > 0
    ensures x % (2 * half) < half <==> (x / half) % 2 == 0
  {
    var q, r := x / half, x % half;
    var q', b := q / 2, q % 2;
    assert x == (2 * half) * q' + (b * half + r);
    Remainder(x, 2 * half, q', b * half + r);
  }

  lemma Remainder(x: nat, m: nat, q: nat, r: nat)
    requires r < m && x == m * q + r
    ensures x % m == r
  {
    assert m * (x / m - q) == r - x % m;
    SmallMultiple(m, x / m - q);
  }

  lemma SmallMultiple(m: int, d: int)
    requires -m < m * d < m
    ensures d == 0
  {
  }

  lemma Scaled(low: nat, p: nat, bound: nat)
    requires p > 0
    ensures low < bound <==> low * p < bound * p
  {
    if low < bound {
      assert (bound - low) * p > 0;
    } else {
      assert (low - bound) * p >= 0;
    }
  }

  lemma Early(n: nat)
    requires 1 <= n <= 30
    ensures Bit(54 - n) == 0
    ensures FIVE_TO_THE_10 % Pow2(55 - n) == FIVE_TO_THE_10
    ensures FIVE_TO_THE_10 * Pow2(n + 9) == 10 * Pow2(n - 1) * SECOND
  {
    Powers();
    Pow2Grows(24, 54 - n);
    Pow2Grows(24, 55 - n);
    SmallDividend(FIVE_TO_THE_10, Pow2(54 - n));
    SmallDividend(FIVE_TO_THE_10, Pow2(55 - n));
    Pow2Adds(10, n - 1);
    TenSeconds(Pow2(n - 1));
  }

  lemma SmallDividend(x: nat, m: nat)
    requires x < m
    ensures x / m == 0 && x % m == x
  {
  }

  lemma TenSeconds(p: nat)
    ensures FIVE_TO_THE_10 * (Pow2(10) * p) == 10 * p * SECOND
  {
    assert Pow2(10) == 1024;
  }

  lemma Late(n: nat)
    requires 31 <= n <= 54
    ensures var low := FIVE_TO_THE_10 % Pow2(55 - n);
      MAX_BACKOFF < low * Pow2(n + 9) < TWO_TO_THE_64
  {
    Powers();
    Pow2Adds(54 - n, n + 9);
    Pow2Grows(40, n + 9);
    assert Pow2(55 - n) == 2 * Pow2(54 - n);
    LowProduct(FIVE_TO_THE_10, Pow2(54 - n), Pow2(n + 9));
  }

  lemma LowProduct(x: nat, half: nat, p: nat)
    requires x % 2 == 1 && half > 0 && half * p == TWO_TO_THE_63 && p > MAX_BACKOFF
    ensures MAX_BACKOFF < (x % (2 * half)) * p < TWO_TO_THE_64
  {
    var low := x % (2 * half);
    OddRemainder(x, half);
    Scaled(low, p, 2 * half);
    assert (low - 1) * p >= 0;
  }

  lemma OddRemainder(x: nat, half: nat)
    requires half > 0 && x % 2 == 1
    ensures x % (2 * half) >= 1
  {
    assert x == 2 * (half * (x / (2 * half))) + x % (2 * half);
  }

  lemma IntendedIsMax(n: nat)
    requires 31 <= n
    ensures Intended(n) == MAX_BACKOFF
  {
    Pow2Grows(30, n - 1);
    Powers();
  }

  // The computed pause is the intended one exactly while one bit of the factor is clear; so always for the first
  // 30 restarts, and never from the 55th on.
  lemma AsIntendedIff(n: nat)
    requires 1 <= n
    ensures Duration(n) == Intended(n) <==> n <= 54 && Bit(54 - n) == 0
  {
    if n <= 54 {
      Unlimited(n);
      LowBitsLeft(n);
      if n <= 30 {
        Early(n);
      } else {
        Late(n);
        IntendedIsMax(n);
      }
    } else {
      IntendedIsMax(n);
      if n <= 64 {
        Unlimited(n);
        NothingLeft(n);
      }
    }
  }

  lemma ZeroFromThe55th(n: nat)
    requires 55 <= n
    ensures Duration(n) == 0
  {
    if n <= 64 {
      Unlimited(n);
      NothingLeft(n);
    }
  }

  // The first pause that goes wrong is negative: the restart is immediate.
  lemma ThirtyFirst(n: nat)
    requires 1 <= n <= 31
    ensures if n <= 30 then Duration(n) == Intended(n) else Duration(n) < 0
  {
    AsIntendedIff(n);
    if n <= 30 {
      Early(n);
    } else {
      Unlimited(n);
      LowBitsLeft(n);
      Late(n);
      Powers();
      Pow2Adds(3, 20);
      assert Bit(23) == 1;
    }
  }

  // In nanoseconds: ten seconds, twice as many each time, and five minutes from the sixth to the thirtieth.
  lemma FirstPauses(n: nat)
    requires 1 <= n <= 30
    ensures Duration(n) == match n
      case 1 => 10_000_000_000
      case 2 => 20_000_000_000
      case 3 => 40_000_000_000
      case 4 => 80_000_000_000
      case 5 => 160_000_000_000
      case _ => 300_000_000_000
  {
    ThirtyFirst(n);
    assert Pow2(1) == 2 && Pow2(2) == 4 && Pow2(3) == 8 && Pow2(4) == 16 && Pow2(5) == 32;
    if n >= 6 {
      Pow2Grows(5, n - 1);
    }
  }
}
