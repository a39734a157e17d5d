/** The gray maps between interleaved words and chips, and the decision window
    of reduced-rate symbols, at any word width. */
module Gray {
  import opened Bits
  import opened Modulo

  function GrayDecode(g: nat, bits: nat): nat {
    if bits <= 1 then g else Xor(GrayDecode(g, bits - 1), Shr(g, bits - 1))
  }

  function GrayEncode(b: nat): nat {
    Xor(b, Shr(b, 1))
  }

  method ComputeGrayDecode(g: nat, bits: nat) returns (b: nat)
    ensures b == GrayDecode(g, bits)
  {
    b := g;
    var j := 1;
    while j < bits
      invariant 1 <= j && (j <= bits || j == 1)
      invariant b == GrayDecode(g, j)
    {
      b := Xor(b, Shr(g, j));
      j := j + 1;
    }
  }

  /** The value of a reduced-rate symbol: its chip without the two low bits. */
  function ReducedValue(raw: nat, chips: nat): nat
    requires chips > 0
  {
    raw % chips / 4
  }

  lemma {:induction false} GrayDecodeBit(g: nat, bits: nat, k: nat)
    requires bits > 0
    ensures Bit(GrayDecode(g, bits), k) == XorBits(g, k, bits)
  {
    if bits == 1 {
      assert XorBits(g, k, 1) == (XorBits(g, k, 0) != Bit(g, k));
    } else {
      GrayDecodeBit(g, bits - 1, k);
      XorBit(GrayDecode(g, bits - 1), Shr(g, bits - 1), k);
      ShrBit(g, bits - 1, k);
    }
  }

  lemma GrayEncodeBit(b: nat, k: nat)
    ensures Bit(GrayEncode(b), k) == (Bit(b, k) != Bit(b, k + 1))
  {
    XorBit(b, Shr(b, 1), k);
    ShrBit(b, 1, k);
  }

  lemma {:induction false} HighXorBits(v: nat, bits: nat, k: nat, n: nat)
    requires v < Pow2(bits) && bits <= k
    ensures !XorBits(v, k, n)
  {
    if n > 0 {
      HighXorBits(v, bits, k, n - 1);
      HighBit(v, bits, k + n - 1);
    }
  }

  lemma GrayDecodeBelow(g: nat, bits: nat)
    requires g < Pow2(bits)
    ensures GrayDecode(g, bits) < Pow2(bits)
  {
    if bits > 0 {
      forall k: nat | bits <= k ensures !Bit(GrayDecode(g, bits), k) {
        GrayDecodeBit(g, bits, k);
        HighXorBits(g, bits, k, bits);
      }
      BelowPow2(GrayDecode(g, bits), bits);
    }
  }

  /** What the receiver's map does to the decoded word shifted down by `drop`:
      it returns the original word shifted down by `drop`. */
  lemma GrayUndone(g: nat, bits: nat, drop: nat)
    requires g < Pow2(bits)
    ensures GrayEncode(Shr(GrayDecode(g, bits), drop)) == Shr(g, drop)
  {
    var b := GrayDecode(g, bits);
    forall k: nat ensures Bit(GrayEncode(Shr(b, drop)), k) == Bit(Shr(g, drop), k) {
      GrayEncodeBit(Shr(b, drop), k);
      ShrBit(b, drop, k);
      ShrBit(b, drop, k + 1);
      ShrBit(g, drop, k);
      if bits == 0 {
        ZeroBit(k + drop); ZeroBit(k + 1 + drop);
      } else {
        GrayDecodeBit(g, bits, k + drop);
        GrayDecodeBit(g, bits, k + 1 + drop);
        XorBitsShift(g, k + drop, bits);
        HighBit(g, bits, k + drop + bits);
      }
    }
    SameBits(GrayEncode(Shr(b, drop)), Shr(g, drop));
  }

  lemma {:induction false} XorBitsOfEncoded(b: nat, k: nat, n: nat)
    ensures XorBits(GrayEncode(b), k, n) == (Bit(b, k) != Bit(b, k + n))
  {
    if n > 0 {
      XorBitsOfEncoded(b, k, n - 1);
      GrayEncodeBit(b, k + n - 1);
    }
  }

  /** The two gray maps are inverse to each other on words of any width. */
  lemma GrayMapsInverse(v: nat, bits: nat)
    requires v < Pow2(bits)
    ensures GrayEncode(GrayDecode(v, bits)) == v
    ensures GrayDecode(GrayEncode(v), bits) == v
  {
    GrayUndone(v, bits, 0);
    var g := GrayEncode(v);
    forall k: nat ensures Bit(GrayDecode(g, bits), k) == Bit(v, k) {
      if bits == 0 {
        GrayEncodeBit(v, k); ZeroBit(k); ZeroBit(k + 1);
      } else {
        GrayDecodeBit(g, bits, k);
        XorBitsOfEncoded(v, k, bits);
        HighBit(v, bits, k + bits);
      }
    }
    SameBits(GrayDecode(g, bits), v);
  }

  lemma GrayEncodeInjective(a: nat, b: nat, bits: nat)
    requires a < Pow2(bits) && b < Pow2(bits)
    ensures GrayEncode(a) == GrayEncode(b) <==> a == b
  {
    GrayMapsInverse(a, bits);
    GrayMapsInverse(b, bits);
  }

  // Words on the air.

  /** The chip that carries an interleaved word of sf bits. */
  function Chip(sf: nat, word: nat): nat {
    (GrayDecode(word, sf) + 1) % Pow2(sf)
  }

  /** The word read back from a demodulated chip. */
  function WordRead(sf: nat, reduced: bool, raw: nat): nat {
    var n := Pow2(sf);
    GrayEncode(if reduced then ReducedValue(raw, n) else (raw + n - 1) % n)
  }

  /** Reduced-rate words end in the parity of their data bits and a zero. */
  ghost predicate ReducedWord(sf: nat, word: nat)
    requires sf >= 2
  {
    !Bit(word, 0) && Bit(word, 1) == XorBits(word, 2, sf - 2)
  }

  /** `raw` is the chip `sent`, up to the displacement the symbol tolerates. */
  predicate Lands(sf: nat, reduced: bool, sent: nat, raw: nat) {
    var n := Pow2(sf);
    var displacement := (raw - sent) % n;
    if reduced then displacement <= 2 || displacement == n - 1 else displacement == 0
  }

  /** A full-rate word is read back exactly when its chip is, modulo 2^sf. */
  lemma PlainRead(sf: nat, word: nat, raw: nat)
    requires word < Pow2(sf)
    ensures WordRead(sf, false, raw) == word <==> Lands(sf, false, Chip(sf, word), raw)
  {
    var n := Pow2(sf);
    var b := GrayDecode(word, sf);
    GrayDecodeBelow(word, sf);
    GrayMapsInverse(word, sf);
    ModSmall((raw + n - 1) % n, n);
    GrayEncodeInjective((raw + n - 1) % n, b, sf);
    // (raw + n - 1) % n == b  <==>  raw % n == (b + 1) % n
    ModSmall(b, n);
    ModShift(raw + n - 1, b, 1, n);
    ModMultiple(raw, 1, n);
    assert raw + n - 1 + 1 == raw + 1 * n;
    ModDifference(raw, b + 1, n);
    ModDifference(raw, Chip(sf, word), n);
    ModSmall(Chip(sf, word), n);
  }

  /** The parity and the zero put every reduced-rate chip on the lattice 4q + 1. */
  lemma ReducedLattice(sf: nat, word: nat)
    requires sf >= 2 && word < Pow2(sf) && ReducedWord(sf, word)
    ensures GrayDecode(word, sf) % 4 == 0
    ensures Chip(sf, word) == GrayDecode(word, sf) + 1 < Pow2(sf)
  {
    var b := GrayDecode(word, sf);
    GrayDecodeBelow(word, sf);
    GrayDecodeBit(word, sf, 0);
    XorBitsShift(word, 0, sf - 1);
    GrayDecodeBit(word, sf, 1);
    XorBitsShift(word, 1, sf - 2);
    assert XorBits(word, 1, sf) == (XorBits(word, 1, sf - 1) != Bit(word, sf));
    HighBit(word, sf, sf);
    assert !Bit(b, 0) && !Bit(b, 1);
    assert Bit(b, 1) == Bit(b / 2, 0);
    assert b % 4 == 0;
    assert Pow2(sf) == 2 * Pow2(sf - 1) == 4 * Pow2(sf - 2);
    ModSmall(b + 1, Pow2(sf));
  }

  /** The decision window: the value under a lattice chip is read exactly when
      the chip error modulo 2^sf is between -1 and +2. */
  lemma DecisionWindow(q: nat, sf: nat, raw: nat)
    requires sf >= 2 && 4 * q < Pow2(sf)
    ensures ReducedValue(raw, Pow2(sf)) == q <==> Lands(sf, true, 4 * q + 1, raw)
  {
    var n := Pow2(sf);
    assert n == 2 * Pow2(sf - 1) == 4 * Pow2(sf - 2);
    var m := raw % n;
    ModSmall(m, n);
    ModShift(raw, m, -(4 * q + 1), n);
    var d := m - (4 * q + 1);
    if d >= 0 {
      ModSmall(d, n);
    } else {
      ModMultiple(d, 1, n);
      ModSmall(d + 1 * n, n);
    }
  }

  /** The data bits of a reduced-rate word are read exactly when its chip lands
      in the decision window. */
  lemma ReducedRead(sf: nat, word: nat, raw: nat)
    requires sf >= 2 && word < Pow2(sf) && ReducedWord(sf, word)
    ensures WordRead(sf, true, raw) == Shr(word, 2) <==> Lands(sf, true, Chip(sf, word), raw)
  {
    var n := Pow2(sf);
    var b := GrayDecode(word, sf);
    ReducedLattice(sf, word);
    GrayDecodeBelow(word, sf);
    GrayUndone(word, sf, 2);
    assert Shr(b, 2) == Shr(b / 2, 1) == b / 2 / 2 == b / 4;
    GrayEncodeInjective(ReducedValue(raw, n), b / 4, sf);
    DecisionWindow(b / 4, sf, raw);
  }
}
