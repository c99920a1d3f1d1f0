/** 64-bit masks as natural numbers below 2^64, with the shifts and tests the adapter uses. */
module Bits {

  function Pow2(n: nat): (r: nat)
    ensures r > 0
  {
    if n == 0 then 1 else 2 * Pow2(n - 1)
  }

  const TWO63: nat := 0x8000_0000_0000_0000
  const TWO64: nat := 0x1_0000_0000_0000_0000
  const ALL64: nat := 0xFFFF_FFFF_FFFF_FFFF

  lemma PowersOf64()
    ensures Pow2(63) == TWO63 && Pow2(64) == TWO64
  {
    Doubled8(0, 1);
    Doubled8(8, 0x100);
    Doubled8(16, 0x1_0000);
    Doubled8(24, 0x100_0000);
    Doubled8(32, 0x1_0000_0000);
    Doubled8(40, 0x100_0000_0000);
    Doubled8(48, 0x1_0000_0000_0000);
    Doubled8(56, 0x100_0000_0000_0000);
    assert Pow2(64) == 2 * Pow2(63);
  }

  lemma Doubled8(n: nat, p: nat)
    requires Pow2(n) == p
    ensures Pow2(n + 8) == 0x100 * p
  {
    assert Pow2(n + 2) == 4 * p;
    assert Pow2(n + 4) == 16 * p;
    assert Pow2(n + 6) == 64 * p;
  }

  /** The test (m >> k) & 1. */
  predicate Bit(m: nat, k: nat) {
    if k == 0 then m % 2 == 1 else Bit(m / 2, k - 1)
  }

  /** The value m | (1 << k). */
  function SetBit(m: nat, k: nat): nat {
    if k == 0 then (if m % 2 == 1 then m else m + 1) else 2 * SetBit(m / 2, k - 1) + m % 2
  }

  /** The value m >> s. */
  function Shr(m: nat, s: nat): nat
    decreases s, m
  {
    if s == 0 then m else Shr(m / 2, s - 1)
  }

  /** The value m << s in 64 bits, one place at a time: the bit shifted out is lost. */
  function Shl64(m: nat, s: nat): (r: nat)
    requires m < TWO64
    ensures r < TWO64
    decreases s, m
  {
    if s == 0 then m else Shl64(if m < TWO63 then 2 * m else 2 * (m - TWO63), s - 1)
  }

  lemma {:induction false} SetBitBits(m: nat, k: nat, j: nat)
    ensures Bit(SetBit(m, k), j) <==> Bit(m, j) || j == k
    decreases j
  {
    if j > 0 && k > 0 {
      SetBitBits(m / 2, k - 1, j - 1);
    }
  }

  lemma {:induction false} SetBitFits(m: nat, k: nat, n: nat)
    requires m < Pow2(n) && k < n
    ensures SetBit(m, k) < Pow2(n)
    decreases n
  {
    var half, odd, below := m / 2, m % 2, Pow2(n - 1);
    assert m == 2 * half + odd && Pow2(n) == 2 * below;
    if k > 0 {
      SetBitFits(half, k - 1, n - 1);
      assert SetBit(m, k) == 2 * SetBit(half, k - 1) + odd;
    }
  }

  lemma {:induction false} OnesBits(n: nat, j: nat)
    ensures Bit(Pow2(n) - 1, j) <==> j < n
    decreases j
  {
    if n == 0 {
      ZeroBits(j);
    } else if j > 0 {
      assert (Pow2(n) - 1) / 2 == Pow2(n - 1) - 1;
      OnesBits(n - 1, j - 1);
    }
  }

  lemma {:induction false} ZeroBits(j: nat)
    ensures !Bit(0, j)
    decreases j
  {
    if j > 0 { ZeroBits(j - 1); }
  }

  lemma {:induction false} HighBits(m: nat, n: nat, j: nat)
    requires m < Pow2(n) && n <= j
    ensures !Bit(m, j)
    decreases n
  {
    if n == 0 {
      ZeroBits(j);
    } else {
      HighBits(m / 2, n - 1, j - 1);
    }
  }

  /** Masks with the same bits are equal. */
  lemma {:induction false} SameBits(a: nat, b: nat, n: nat)
    requires a < Pow2(n) && b < Pow2(n)
    requires forall j: nat :: j < n ==> (Bit(a, j) <==> Bit(b, j))
    ensures a == b
    decreases n
  {
    if n > 0 {
      assert Bit(a, 0) <==> Bit(b, 0);
      forall j: nat | j < n - 1 ensures Bit(a / 2, j) <==> Bit(b / 2, j) {
        assert Bit(a, j + 1) <==> Bit(b, j + 1);
      }
      SameBits(a / 2, b / 2, n - 1);
    }
  }

  lemma {:induction false} NonzeroHasBit(m: nat, n: nat) returns (k: nat)
    requires 0 < m < Pow2(n)
    ensures k < n && Bit(m, k)
    decreases n
  {
    if m % 2 == 1 {
      k := 0;
    } else {
      k := NonzeroHasBit(m / 2, n - 1);
      k := k + 1;
    }
  }

  lemma {:induction false} ShrBits(m: nat, s: nat, j: nat)
    ensures Bit(Shr(m, s), j) <==> Bit(m, j + s)
    decreases s
  {
    if s > 0 { ShrBits(m / 2, s - 1, j); }
  }

  lemma {:induction false} ShrFits(m: nat, s: nat, n: nat)
    requires m < Pow2(n) && s <= n
    ensures Shr(m, s) < Pow2(n - s)
    decreases s
  {
    if s > 0 { ShrFits(m / 2, s - 1, n - 1); }
  }

  lemma {:induction false} DropTopBit(m: nat, n: nat, j: nat)
    requires Pow2(n) <= m < Pow2(n + 1) && j < n
    ensures Bit(m - Pow2(n), j) <==> Bit(m, j)
    decreases n
  {
    assert Pow2(n) == 2 * Pow2(n - 1);
    if j > 0 {
      DropTopBit(m / 2, n - 1, j - 1);
      assert (m - Pow2(n)) / 2 == m / 2 - Pow2(n - 1);
    }
  }

  lemma {:induction false} Shl64Bits(m: nat, s: nat, j: nat)
    requires m < TWO64 && j < 64
    ensures Bit(Shl64(m, s), j) <==> s <= j && Bit(m, j - s)
    decreases s
  {
    if s > 0 {
      PowersOf64();
      var rest := if m < TWO63 then m else m - TWO63;
      Shl64Bits(2 * rest, s - 1, j);
      if s <= j {
        assert Bit(2 * rest, j - s + 1) <==> Bit(rest, j - s);
        if m >= TWO63 { DropTopBit(m, 63, j - s); }
      } else if s - 1 == j {
        assert !Bit(2 * rest, 0);
      }
    }
  }
}
