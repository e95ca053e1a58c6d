/** Single bits of a number, for the flag words of full boxes. */
module Bits {

  function Pow2(k: nat): (p: nat)
    ensures p > 0
  {
    if k == 0 then 1 else 2 * Pow2(k - 1)
  }

  /** Bit `k` of `n`, counted from the least significant one. */
  predicate Bit(n: nat, k: nat) { n / Pow2(k) % 2 == 1 }

  /** Bit 0 of `after` is clear, bit 17 is set, and every other bit is what it was in `before`. */
  ghost predicate ClearedAndSet(before: nat, after: nat) {
    && !Bit(after, 0)
    && Bit(after, 17)
    && forall k: nat :: k != 0 && k != 17 ==> (Bit(after, k) <==> Bit(before, k))
  }

  lemma {:induction false} Larger(a: nat, b: nat, p: nat)
    requires a <= b
    ensures a * p <= b * p
  {
  }

  lemma {:induction false} DivIs(n: nat, q: nat, r: nat, p: nat)
    requires n == q * p + r && r < p
    ensures n / p == q
  {
    var d := n / p;
    assert d * p <= n < d * p + p;
    assert d * p + p == (d + 1) * p && q * p + p == (q + 1) * p;
    if d < q {
      Larger(d + 1, q, p);
    } else if q < d {
      Larger(q + 1, d, p);
    }
  }

  lemma {:induction false} Doubled(n: nat, d: nat, r: nat, p: nat)
    requires n / 2 == d * p + r
    ensures n == d * (2 * p) + (2 * r + n % 2)
  {
    assert d * (2 * p) == 2 * (d * p);
  }

  lemma {:induction false} DivTwice(n: nat, p: nat)
    requires p > 0
    ensures n / (2 * p) == n / 2 / p
  {
    var half := n / 2;
    var d, r := half / p, half % p;
    Doubled(n, d, r, p);
    DivIs(n, d, 2 * r + n % 2, 2 * p);
  }

  lemma {:induction false} HalfBit(n: nat, k: nat)
    ensures Bit(n, k + 1) == Bit(n / 2, k)
  {
    DivTwice(n, Pow2(k));
    assert Pow2(k + 1) == 2 * Pow2(k);
  }

  lemma {:induction false} LowBit(n: nat)
    ensures Bit(n, 0) <==> n % 2 == 1
  {
  }

  /** Bits above bit 0 do not depend on bit 0. */
  lemma {:induction false} EvenBits(n: nat, k: nat)
    ensures Bit(n - n % 2, k) == (k != 0 && Bit(n, k))
  {
    if k == 0 {
      LowBit(n - n % 2);
    } else {
      HalfBit(n, k - 1);
      HalfBit(n - n % 2, k - 1);
    }
  }

  lemma {:induction false} SetLowBit(n: nat, k: nat)
    requires !Bit(n, 0)
    ensures Bit(n + 1, k) == (k == 0 || Bit(n, k))
  {
    LowBit(n);
    LowBit(n + 1);
    if k > 0 {
      HalfBit(n, k - 1);
      HalfBit(n + 1, k - 1);
    }
  }

  /** Adding the weight of a clear bit sets that bit and no other. */
  lemma {:induction false} SetBits(n: nat, j: nat, k: nat)
    requires !Bit(n, j)
    ensures Bit(n + Pow2(j), k) == (k == j || Bit(n, k))
  {
    hide Bit;
    if j == 0 {
      SetLowBit(n, k);
    } else {
      HalfBit(n, j - 1);
      var m := n + Pow2(j);
      assert m == n + 2 * Pow2(j - 1);
      if k == 0 {
        LowBit(n);
        LowBit(m);
      } else {
        HalfBit(n, k - 1);
        HalfBit(m, k - 1);
        SetBits(n / 2, j - 1, k - 1);
      }
    }
  }

  /** A number is its bits. */
  lemma {:induction false} SameBits(a: nat, b: nat)
    requires forall k: nat :: Bit(a, k) == Bit(b, k)
    ensures a == b
    decreases a + b
  {
    LowBit(a);
    LowBit(b);
    assert Bit(a, 0) == Bit(b, 0);
    if a + b > 0 {
      forall k: nat
        ensures Bit(a / 2, k) == Bit(b / 2, k)
      {
        HalfBit(a, k);
        HalfBit(b, k);
        assert Bit(a, k + 1) == Bit(b, k + 1);
      }
      SameBits(a / 2, b / 2);
    }
  }

  lemma {:induction false} Weight17()
    ensures Pow2(17) == 0x2_0000
  {
    assert Pow2(4) == 16;
    assert Pow2(8) == 16 * Pow2(4);
    assert Pow2(12) == 16 * Pow2(8);
    assert Pow2(16) == 16 * Pow2(12);
  }

  /** The arithmetic that clears bit 0 and sets bit 17. */
  lemma {:induction false} Cleared(n: nat)
    ensures ClearedAndSet(n, n - n % 2 + if Bit(n, 17) then 0 else 0x2_0000)
  {
    hide Bit;
    var even := n - n % 2;
    Weight17();
    EvenBits(n, 17);
    var m := even + if Bit(n, 17) then 0 else 0x2_0000;
    forall k: nat
      ensures Bit(m, k) == (k == 17 || (k != 0 && Bit(n, k)))
    {
      EvenBits(n, k);
      if !Bit(n, 17) {
        SetBits(even, 17, k);
      }
    }
  }

  /** Only one number has those bits. */
  lemma {:induction false} ClearedOnce(n: nat, a: nat, b: nat)
    requires ClearedAndSet(n, a) && ClearedAndSet(n, b)
    ensures a == b
  {
    hide Bit;
    forall k: nat
      ensures Bit(a, k) == Bit(b, k)
    {
      if k != 0 && k != 17 {
        assert Bit(a, k) == Bit(n, k) == Bit(b, k);
      }
    }
    SameBits(a, b);
  }
}
