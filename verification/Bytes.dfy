/** Bytes, and unsigned words as bytes in either order. */
module Bytes {
  type Byte = b: int | 0 <= b < 256

  function Pow256(w: nat): (p: nat)
    ensures p >= 1
  {
    if w == 0 then 1 else 256 * Pow256(w - 1)
  }

  /** The `w` bytes of `n` with the lowest first. */
  function Little(n: nat, w: nat): (bs: seq<Byte>)
    ensures |bs| == w
  {
    if w == 0 then [] else [n % 256] + Little(n / 256, w - 1)
  }

  function FromLittle(bs: seq<Byte>): nat {
    if bs == [] then 0 else bs[0] + 256 * FromLittle(bs[1..])
  }

  lemma {:induction false} LittleRoundTrip(n: nat, w: nat)
    requires n < Pow256(w)
    ensures FromLittle(Little(n, w)) == n
  {
    if w == 0 {
    } else {
      LittleRoundTrip(n / 256, w - 1);
    }
  }

  lemma {:induction false} FromLittleBound(bs: seq<Byte>)
    ensures FromLittle(bs) < Pow256(|bs|)
  {
    if bs == [] {
    } else {
      FromLittleBound(bs[1..]);
    }
  }

  /** Byte `k` of a word, counted from the lowest. */
  lemma {:induction false} LittleAt(n: nat, w: nat, k: nat)
    requires k < w
    ensures Little(n, w)[k] == n / Pow256(k) % 256
  {
    if k == 0 {
    } else {
      LittleAt(n / 256, w - 1, k - 1);
      DivTwice(n, Pow256(k - 1));
    }
  }

  lemma {:induction false} DivTwice(n: nat, p: nat)
    requires p >= 1
    ensures n / 256 / p == n / (256 * p)
  {
    var q, m := n / (256 * p), n / 256;
    var r := n - q * (256 * p);
    assert 0 <= r < 256 * p;
    assert m == q * p + r / 256 by {
      assert n == 256 * (q * p) + r;
    }
    assert 0 <= r / 256 < p;
    DivIs(m, p, q, r / 256);
  }

  lemma {:induction false} DivIs(m: nat, p: nat, q: nat, r: nat)
    requires p >= 1 && m == q * p + r && r < p
    ensures m / p == q
  {
    var d := m / p;
    assert d * p <= m < d * p + p;
    TimesGrows(d + 1, q, p);
    TimesGrows(q + 1, d, p);
  }

  lemma {:induction false} TimesGrows(a: nat, b: nat, p: nat)
    ensures a <= b ==> a * p <= b * p
  {
  }

  /** The `w` bytes of `n` with the highest first. */
  function Big(n: nat, w: nat): (bs: seq<Byte>)
    ensures |bs| == w
  {
    if w == 0 then [] else Big(n / 256, w - 1) + [n % 256]
  }

  function FromBig(bs: seq<Byte>): nat {
    if bs == [] then 0 else 256 * FromBig(bs[..|bs| - 1]) + bs[|bs| - 1]
  }

  lemma {:induction false} BigRoundTrip(n: nat, w: nat)
    requires n < Pow256(w)
    ensures FromBig(Big(n, w)) == n
  {
    if w == 0 {
    } else {
      BigRoundTrip(n / 256, w - 1);
      assert Big(n, w)[..w - 1] == Big(n / 256, w - 1);
    }
  }

  const TWO_16 := 0x1_0000
  const TWO_64 := 0x1_0000_0000_0000_0000

  lemma {:induction false} WordSizes()
    ensures Pow256(1) == 0x100 && Pow256(2) == TWO_16 && Pow256(8) == TWO_64
  {
    assert Pow256(4) == 0x1_0000_0000;
  }
}
