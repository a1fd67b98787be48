/** Bitwise operators of unsigned words, defined on naturals digit by digit. */
module Bits {

  function Pow2(k: nat): (p: nat)
    ensures p >= 1
  {
    if k == 0 then 1 else 2 * Pow2(k - 1)
  }

  /** True iff bit `k` of the word is one. */
  predicate Bit(u: nat, k: nat) {
    if k == 0 then u % 2 == 1 else Bit(u / 2, k - 1)
  }

  /** The operator `a | b`. */
  function BitOr(a: nat, b: nat): nat {
    if a == 0 && b == 0 then 0
    else 2 * BitOr(a / 2, b / 2) + (if a % 2 == 1 || b % 2 == 1 then 1 else 0)
  }

  /** The operator `a & b`. */
  function BitAnd(a: nat, b: nat): nat {
    if a == 0 || b == 0 then 0
    else 2 * BitAnd(a / 2, b / 2) + (if a % 2 == 1 && b % 2 == 1 then 1 else 0)
  }

  lemma {:induction false} ZeroBits(k: nat)
    ensures !Bit(0, k)
  {
    if k == 0 {
    } else {
      ZeroBits(k - 1);
    }
  }

  lemma {:induction false} Halved(h: nat, u: nat)
    requires u == 2 * h || u == 2 * h + 1
    ensures u / 2 == h
  {
  }

  lemma {:induction false} OrBits(a: nat, b: nat, k: nat)
    ensures Bit(BitOr(a, b), k) <==> Bit(a, k) || Bit(b, k)
  {
    if a == 0 && b == 0 {
      ZeroBits(k);
    } else if k > 0 {
      OrBits(a / 2, b / 2, k - 1);
      Halved(BitOr(a / 2, b / 2), BitOr(a, b));
    }
  }

  lemma {:induction false} AndBits(a: nat, b: nat, k: nat)
    ensures Bit(BitAnd(a, b), k) <==> Bit(a, k) && Bit(b, k)
  {
    if a == 0 || b == 0 {
      ZeroBits(k);
    } else if k > 0 {
      AndBits(a / 2, b / 2, k - 1);
      Halved(BitAnd(a / 2, b / 2), BitAnd(a, b));
    }
  }

  /** The word `1 << k` has bit `k` only. */
  lemma {:induction false} PowerBits(k: nat, j: nat)
    ensures Bit(Pow2(k), j) <==> j == k
  {
    if j == 0 {
    } else if k == 0 {
      ZeroBits(j - 1);
    } else {
      PowerBits(k - 1, j - 1);
      assert Pow2(k) / 2 == Pow2(k - 1);
    }
  }

  /** A non-zero word has a one bit. */
  lemma {:induction false} SomeBit(u: nat) returns (k: nat)
    requires u != 0
    ensures Bit(u, k)
  {
    if u % 2 == 1 {
      k := 0;
    } else {
      k := SomeBit(u / 2);
      k := k + 1;
    }
  }

  lemma {:induction false} Doubled(h: nat, q: nat)
    ensures h * (2 * q) == 2 * (h * q)
  {
  }

  lemma {:induction false} OrOfEven(x: nat, l: nat)
    ensures BitOr(2 * x, l) == 2 * BitOr(x, l / 2) + l % 2
  {
    Halved(x, 2 * x);
  }

  /** Or-ing a word below 2^k to a multiple of 2^k is adding it. */
  lemma {:induction false} OrBelow(h: nat, l: nat, k: nat)
    requires l < Pow2(k)
    ensures BitOr(h * Pow2(k), l) == h * Pow2(k) + l
  {
    if k == 0 {
      OrZero(h);
    } else {
      var x := h * Pow2(k - 1);
      Doubled(h, Pow2(k - 1));
      OrBelow(h, l / 2, k - 1);
      OrOfEven(x, l);
    }
  }

  lemma {:induction false} OrZero(u: nat)
    ensures BitOr(u, 0) == u
  {
    if u == 0 {
    } else {
      OrZero(u / 2);
    }
  }

  ghost predicate NoBitsFrom(u: nat, w: nat) {
    forall k: nat | w <= k :: !Bit(u, k)
  }

  ghost predicate NoCommonBit(a: nat, b: nat) {
    forall k: nat :: !(Bit(a, k) && Bit(b, k))
  }

  /** Words below 2^w have no one bit at or above `w`, and conversely. */
  lemma {:induction false} BoundedBits(u: nat, w: nat)
    ensures u < Pow2(w) <==> NoBitsFrom(u, w)
  {
    if u == 0 {
      forall k: nat { ZeroBits(k); }
    } else if w == 0 {
      var k := SomeBit(u);
    } else {
      BoundedBits(u / 2, w - 1);
      if u < Pow2(w) {
        forall k: nat | w <= k
          ensures !Bit(u, k)
        {
          assert !Bit(u / 2, k - 1);
        }
      } else {
        var k: nat :| w - 1 <= k && Bit(u / 2, k);
        assert Bit(u, k + 1);
      }
    }
  }

  /** Two words have a common one bit exactly when their bitwise and is not zero. */
  lemma {:induction false} AndZeroIffNoCommonBit(a: nat, b: nat)
    ensures BitAnd(a, b) == 0 <==> NoCommonBit(a, b)
  {
    forall k: nat
      ensures Bit(BitAnd(a, b), k) <==> Bit(a, k) && Bit(b, k)
    {
      AndBits(a, b, k);
    }
    if BitAnd(a, b) == 0 {
      forall k: nat
        ensures !(Bit(a, k) && Bit(b, k))
      {
        ZeroBits(k);
      }
    } else {
      var k := SomeBit(BitAnd(a, b));
      assert Bit(a, k) && Bit(b, k);
    }
  }

  /** Words with the same bits are equal. */
  lemma {:induction false} SameBits(a: nat, b: nat)
    requires forall k: nat :: Bit(a, k) <==> Bit(b, k)
    ensures a == b
  {
    assert Bit(a, 0) <==> Bit(b, 0);
    if a == 0 {
      if b != 0 {
        var k := SomeBit(b);
        ZeroBits(k);
      }
    } else if b == 0 {
      var k := SomeBit(a);
      ZeroBits(k);
    } else {
      forall k: nat
        ensures Bit(a / 2, k) <==> Bit(b / 2, k)
      {
        assert Bit(a, k + 1) <==> Bit(b, k + 1);
      }
      SameBits(a / 2, b / 2);
    }
  }

  ghost predicate LowBitsSet(u: nat, n: nat) {
    forall k: nat | k < n :: Bit(u, k)
  }

  /** The low `n` bits of a word are all ones exactly when masking them changes nothing in the mask. */
  lemma {:induction false} LowBitsFull(u: nat, n: nat)
    ensures BitAnd(u, Pow2(n) - 1) == Pow2(n) - 1 <==> LowBitsSet(u, n)
  {
    if n == 0 {
    } else {
      if u == 0 {
        assert !Bit(u, 0);
      } else {
        LowBitsFull(u / 2, n - 1);
        assert (Pow2(n) - 1) / 2 == Pow2(n - 1) - 1;
        if LowBitsSet(u, n) {
          assert Bit(u, 0);
          forall k: nat | k < n - 1
            ensures Bit(u / 2, k)
          {
            assert Bit(u, k + 1);
          }
        } else {
          var k: nat :| k < n && !Bit(u, k);
          assert k > 0 ==> !Bit(u / 2, k - 1);
        }
      }
    }
  }
}
