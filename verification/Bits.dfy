/** Unsigned words as naturals, read bit by bit; bit 0 is the least significant bit. */
module Bits {
  import opened Modulo

  // The C++ operators `v >> n`, `v << n`, `a ^ b`, `v | (1 << k)` and `1 << n`
  // are `Shr`, `Shl`, `Xor`, `OrBit` and `Pow2`; `Shl` does not cut its result
  // to a width, so its callers state where the program does.

  predicate Bit(v: nat, k: nat)
    decreases v, k
  {
    if k == 0 then v % 2 == 1 else Bit(v / 2, k - 1)
  }

  function Pow2(n: nat): (p: nat)
    ensures p >= 1
  {
    if n == 0 then 1 else 2 * Pow2(n - 1)
  }

  function Shr(v: nat, n: nat): nat
    decreases n
  {
    if n == 0 then v else Shr(v / 2, n - 1)
  }

  function Shl(v: nat, n: nat): nat
    decreases n
  {
    if n == 0 then v else Shl(2 * v, n - 1)
  }

  function Xor(a: nat, b: nat): nat
    decreases a + b
  {
    if a == 0 && b == 0 then 0
    else 2 * Xor(a / 2, b / 2) + (if a % 2 != b % 2 then 1 else 0)
  }

  function OrBit(v: nat, k: nat): nat
    decreases k
  {
    if k == 0 then 2 * (v / 2) + 1 else 2 * OrBit(v / 2, k - 1) + v % 2
  }

  /** The word written by shifting in `bs`, most significant bit first. */
  function FromBits(bs: seq<bool>): nat {
    if bs == [] then 0
    else 2 * FromBits(bs[..|bs| - 1]) + (if bs[|bs| - 1] then 1 else 0)
  }

  /** Exclusive or of the n bits of v from bit k upwards. */
  predicate XorBits(v: nat, k: nat, n: nat) {
    if n == 0 then false else XorBits(v, k, n - 1) != Bit(v, k + n - 1)
  }

  lemma {:induction false} ShrBit(v: nat, n: nat, k: nat)
    ensures Bit(Shr(v, n), k) == Bit(v, k + n)
    decreases n
  {
    if n > 0 { ShrBit(v / 2, n - 1, k); }
  }

  lemma {:induction false} ShlBit(v: nat, n: nat, k: nat)
    ensures Bit(Shl(v, n), k) == (n <= k && Bit(v, k - n))
    decreases n
  {
    if n > 0 {
      ShlBit(2 * v, n - 1, k);
      assert n <= k ==> Bit(2 * v, k - n + 1) == Bit(v, k - n);
    }
  }

  lemma {:induction false} OrBitBit(v: nat, k: nat, j: nat)
    ensures Bit(OrBit(v, k), j) == (j == k || Bit(v, j))
    decreases k
  {
    if k == 0 {
      assert OrBit(v, 0) / 2 == v / 2;
    } else if j > 0 {
      OrBitBit(v / 2, k - 1, j - 1);
    }
  }

  lemma {:induction false} XorBit(a: nat, b: nat, k: nat)
    ensures Bit(Xor(a, b), k) == (Bit(a, k) != Bit(b, k))
    decreases k
  {
    if a == 0 && b == 0 {
      ZeroBit(k);
    } else if k > 0 {
      XorBit(a / 2, b / 2, k - 1);
    }
  }

  lemma {:induction false} ZeroBit(k: nat)
    ensures !Bit(0, k)
  {
    if k > 0 { ZeroBit(k - 1); }
  }

  lemma {:induction false} HighBit(v: nat, n: nat, k: nat)
    requires v < Pow2(n) && n <= k
    ensures !Bit(v, k)
    decreases n
  {
    if n == 0 { ZeroBit(k); } else { HighBit(v / 2, n - 1, k - 1); }
  }

  lemma {:induction false} FromBitsBit(bs: seq<bool>, k: nat)
    ensures Bit(FromBits(bs), k) == (k < |bs| && bs[|bs| - 1 - k])
    decreases k
  {
    if bs == [] {
      ZeroBit(k);
    } else if k > 0 {
      FromBitsBit(bs[..|bs| - 1], k - 1);
    }
  }

  lemma {:induction false} FromBitsBound(bs: seq<bool>)
    ensures FromBits(bs) < Pow2(|bs|)
  {
    if bs != [] { FromBitsBound(bs[..|bs| - 1]); }
  }

  /** Words with the same bits are equal. */
  lemma {:induction false} SameBits(a: nat, b: nat)
    requires forall k: nat :: Bit(a, k) == Bit(b, k)
    ensures a == b
    decreases a + b
  {
    assert Bit(a, 0) == Bit(b, 0);
    if a != 0 || b != 0 {
      forall k: nat ensures Bit(a / 2, k) == Bit(b / 2, k) {
        assert Bit(a, k + 1) == Bit(b, k + 1);
      }
      SameBits(a / 2, b / 2);
    }
  }

  lemma {:induction false} BelowPow2(v: nat, n: nat)
    requires forall k: nat :: n <= k ==> !Bit(v, k)
    ensures v < Pow2(n)
    decreases n
  {
    if n == 0 {
      forall k: nat ensures Bit(v, k) == Bit(0, k) { ZeroBit(k); }
      SameBits(v, 0);
    } else {
      forall k: nat | n - 1 <= k ensures !Bit(v / 2, k) {
        assert !Bit(v, k + 1);
      }
      BelowPow2(v / 2, n - 1);
    }
  }

  /** An extra zero at the top of the range does not change the parity. */
  lemma {:induction false} XorBitsShift(v: nat, k: nat, n: nat)
    ensures XorBits(v, k, n + 1) == (Bit(v, k) != XorBits(v, k + 1, n))
  {
    if n > 0 { XorBitsShift(v, k, n - 1); }
  }

  lemma Pow2Table()
    ensures Pow2(4) == 16 && Pow2(8) == 256 && Pow2(16) == 65536
  {
    assert Pow2(4) == 2 * Pow2(3) && Pow2(3) == 2 * Pow2(2) && Pow2(2) == 2 * Pow2(1);
    assert Pow2(8) == 2 * Pow2(7) && Pow2(7) == 2 * Pow2(6) && Pow2(6) == 2 * Pow2(5) && Pow2(5) == 2 * Pow2(4);
    assert Pow2(12) == 2 * Pow2(11) && Pow2(11) == 2 * Pow2(10) && Pow2(10) == 2 * Pow2(9) && Pow2(9) == 2 * Pow2(8);
    assert Pow2(16) == 2 * Pow2(15) && Pow2(15) == 2 * Pow2(14) && Pow2(14) == 2 * Pow2(13) && Pow2(13) == 2 * Pow2(12);
  }

  /** `v % Pow2(n)` keeps the lowest n bits. */
  lemma {:induction false} CutBits(v: nat, n: nat, k: nat)
    ensures Bit(v % Pow2(n), k) == (k < n && Bit(v, k))
    decreases n
  {
    if n == 0 {
      ZeroBit(k);
    } else {
      HalfOfRest(v, Pow2(n - 1));
      if k > 0 { CutBits(v / 2, n - 1, k - 1); }
    }
  }

  /** Cutting to twice a size and halving is halving and cutting to the size. */
  lemma HalfOfRest(v: nat, p: nat)
    requires p > 0
    ensures v % (2 * p) / 2 == v / 2 % p
    ensures v % (2 * p) % 2 == v % 2
  {
    var q := Quotient(v, 2 * p);
    assert q >= 0 by { if q <= -1 { MulAtLeast(-q, 2 * p); } }
    Doubled(q, p);
    HalfParts(v, p, q, q * p, v % (2 * p));
  }

  lemma Doubled(q: int, p: int)
    ensures q * (2 * p) == 2 * (q * p)
  {
  }

  lemma HalfParts(v: nat, p: nat, q: nat, m: nat, r: nat)
    requires v == 2 * m + r && m == q * p && r < 2 * p
    ensures v / 2 % p == r / 2 && v % 2 == r % 2
  {
    assert v / 2 == m + r / 2;
    ModUnique(v / 2, q, p, r / 2);
  }

  lemma XorBelow(a: nat, b: nat, n: nat)
    requires a < Pow2(n) && b < Pow2(n)
    ensures Xor(a, b) < Pow2(n)
  {
    forall k: nat | n <= k ensures !Bit(Xor(a, b), k) {
      XorBit(a, b, k);
      HighBit(a, n, k);
      HighBit(b, n, k);
    }
    BelowPow2(Xor(a, b), n);
  }

  lemma XorZero(a: nat, b: nat)
    ensures Xor(a, b) == 0 <==> a == b
    ensures Xor(a, 0) == a
  {
    forall k: nat ensures Bit(Xor(a, b), k) == (Bit(a, k) != Bit(b, k)) && !Bit(0, k) {
      XorBit(a, b, k);
      ZeroBit(k);
    }
    if Xor(a, b) == 0 { SameBits(a, b); }
    if a == b { SameBits(Xor(a, b), 0); }
    forall k: nat ensures Bit(Xor(a, 0), k) == Bit(a, k) {
      XorBit(a, 0, k);
      ZeroBit(k);
    }
    SameBits(Xor(a, 0), a);
  }

  /** Exclusive or is associative and commutative: sums of four can be paired
      either way. */
  lemma XorShuffle(a: nat, b: nat, c: nat, d: nat)
    ensures Xor(Xor(a, b), Xor(c, d)) == Xor(Xor(a, c), Xor(b, d))
  {
    forall k: nat ensures Bit(Xor(Xor(a, b), Xor(c, d)), k) == Bit(Xor(Xor(a, c), Xor(b, d)), k) {
      XorBit(Xor(a, b), Xor(c, d), k);
      XorBit(Xor(a, c), Xor(b, d), k);
      XorBit(a, b, k); XorBit(c, d, k);
      XorBit(a, c, k); XorBit(b, d, k);
    }
    SameBits(Xor(Xor(a, b), Xor(c, d)), Xor(Xor(a, c), Xor(b, d)));
  }

  lemma XorTwice(a: nat, w: nat)
    ensures Xor(Xor(a, w), w) == a
  {
    forall k: nat ensures Bit(Xor(Xor(a, w), w), k) == Bit(a, k) {
      XorBit(Xor(a, w), w, k);
      XorBit(a, w, k);
    }
    SameBits(Xor(Xor(a, w), w), a);
  }

  lemma ShlXor(a: nat, b: nat, n: nat)
    ensures Shl(Xor(a, b), n) == Xor(Shl(a, n), Shl(b, n))
  {
    forall k: nat ensures Bit(Shl(Xor(a, b), n), k) == Bit(Xor(Shl(a, n), Shl(b, n)), k) {
      ShlBit(Xor(a, b), n, k);
      XorBit(Shl(a, n), Shl(b, n), k);
      ShlBit(a, n, k); ShlBit(b, n, k);
      if n <= k { XorBit(a, b, k - n); }
    }
    SameBits(Shl(Xor(a, b), n), Xor(Shl(a, n), Shl(b, n)));
  }

  lemma {:induction false} Pow2Monotone(m: nat, n: nat)
    requires m <= n
    ensures Pow2(m) <= Pow2(n)
  {
    if m < n { Pow2Monotone(m, n - 1); }
  }
}
