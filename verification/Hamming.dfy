/** The Hamming codes: a nibble becomes a codeword of 4 + cr bits, cr = 1..4. */
module Hamming {
  import opened Bits
  import opened Modulo

  type Nibble = n: nat | n < 16

  predicate CodingRate(cr: nat) {
    1 <= cr <= 4
  }

  predicate Odd3(a: bool, b: bool, c: bool) {
    (a != b) != c
  }

  predicate Odd4(a: bool, b: bool, c: bool, d: bool) {
    (a != b) != (c != d)
  }

  /** The most significant bit of a codeword carries the least significant bit of the nibble. */
  function HammingEncode(nibble: Nibble, cr: nat): nat
    requires CodingRate(cr)
  {
    var b0, b1, b2, b3 := Bit(nibble, 0), Bit(nibble, 1), Bit(nibble, 2), Bit(nibble, 3);
    if cr == 1 then FromBits(ShortCodeword(b0, b1, b2, b3))
    else Shr(FromBits(FullCodeword(b0, b1, b2, b3)), 4 - cr)
  }

  /** Bit i of the full codeword: the data bits, then four parities. */
  predicate FullBit(b0: bool, b1: bool, b2: bool, b3: bool, i: nat) {
    match i
    case 0 => b0
    case 1 => b1
    case 2 => b2
    case 3 => b3
    case 4 => Odd3(b0, b1, b2)
    case 5 => Odd3(b1, b2, b3)
    case 6 => Odd3(b0, b1, b3)
    case _ => Odd3(b0, b2, b3)
  }

  function FullCodeword(b0: bool, b1: bool, b2: bool, b3: bool): (bs: seq<bool>)
    ensures |bs| == 8 && forall i: nat | i < 8 :: bs[i] == FullBit(b0, b1, b2, b3, i)
  {
    seq(8, i requires 0 <= i < 8 => FullBit(b0, b1, b2, b3, i))
  }

  /** Rate 1 has a single parity over all four data bits. */
  function ShortCodeword(b0: bool, b1: bool, b2: bool, b3: bool): (bs: seq<bool>)
    ensures |bs| == 5
  {
    FullCodeword(b0, b1, b2, b3)[..4] + [Odd4(b0, b1, b2, b3)]
  }

  /** Bit i of a codeword in transmission order, false past its end. */
  predicate CodeBit(codeword: nat, cr: nat, i: nat) {
    i < 4 + cr && Bit(codeword, 3 + cr - i)
  }

  /** Number of set bits of a codeword. */
  function Popcount(codeword: nat, n: nat): nat {
    if n == 0 then 0 else Popcount(codeword, n - 1) + (if Bit(codeword, n - 1) then 1 else 0)
  }

  /** The data bit that a syndrome points at; 4 for none. */
  function Suspect(s0: bool, s1: bool, s2: bool): nat {
    if s0 && !s1 && s2 then 0
    else if s0 && s1 && s2 then 1
    else if s0 && s1 && !s2 then 2
    else if !s0 && s1 && s2 then 3
    else 4
  }

  predicate S0(cw: nat, cr: nat) {
    Odd4(CodeBit(cw, cr, 0), CodeBit(cw, cr, 1), CodeBit(cw, cr, 2), CodeBit(cw, cr, 4))
  }

  predicate S1(cw: nat, cr: nat) {
    Odd4(CodeBit(cw, cr, 1), CodeBit(cw, cr, 2), CodeBit(cw, cr, 3), CodeBit(cw, cr, 5))
  }

  predicate S2(cw: nat, cr: nat) {
    Odd4(CodeBit(cw, cr, 0), CodeBit(cw, cr, 1), CodeBit(cw, cr, 3), CodeBit(cw, cr, 6))
  }

  /** The data bit the decoder flips; 4 for none.  Rates 1 and 2 only detect,
      and rate 4 leaves codewords of even weight alone. */
  function Flipped(cw: nat, cr: nat): nat {
    if cr < 3 || (cr == 4 && Popcount(cw, 8) % 2 == 0) then 4
    else Suspect(S0(cw, cr), S1(cw, cr), S2(cw, cr))
  }

  function HammingDecode(cw: nat, cr: nat): Nibble
    requires CodingRate(cr)
  {
    var f := Flipped(cw, cr);
    NibbleOf(CodeBit(cw, cr, 0) != (f == 0), CodeBit(cw, cr, 1) != (f == 1),
             CodeBit(cw, cr, 2) != (f == 2), CodeBit(cw, cr, 3) != (f == 3))
  }

  function NibbleOf(d0: bool, d1: bool, d2: bool, d3: bool): Nibble {
    (if d3 then 8 else 0) + (if d2 then 4 else 0) + (if d1 then 2 else 0) + (if d0 then 1 else 0)
  }

  lemma NibbleBits(d0: bool, d1: bool, d2: bool, d3: bool)
    ensures var n := NibbleOf(d0, d1, d2, d3);
            Bit(n, 0) == d0 && Bit(n, 1) == d1 && Bit(n, 2) == d2 && Bit(n, 3) == d3
  {
    var n := NibbleOf(d0, d1, d2, d3);
    assert Bit(n, 1) == Bit(n / 2, 0);
    assert Bit(n, 2) == Bit(n / 2, 1) == Bit(n / 2 / 2, 0);
    assert Bit(n, 3) == Bit(n / 2, 2) == Bit(n / 2 / 2, 1) == Bit(n / 2 / 2 / 2, 0);
  }

  lemma {:induction false} ShrFromBits(bs: seq<bool>, n: nat)
    requires n <= |bs|
    ensures Shr(FromBits(bs), n) == FromBits(bs[..|bs| - n])
    decreases n
  {
    if n == 0 {
      assert bs[..|bs|] == bs;
    } else {
      var rest := bs[..|bs| - 1];
      assert FromBits(bs) / 2 == FromBits(rest);
      ShrFromBits(rest, n - 1);
      assert rest[..|rest| - (n - 1)] == bs[..|bs| - n];
    }
  }

  /** The codeword read bit by bit: data, then parity. */
  lemma EncodedBits(nibble: Nibble, cr: nat, i: nat)
    requires CodingRate(cr)
    ensures var b0, b1, b2, b3 := Bit(nibble, 0), Bit(nibble, 1), Bit(nibble, 2), Bit(nibble, 3);
            CodeBit(HammingEncode(nibble, cr), cr, i) ==
            (i < 4 + cr && (if cr == 1 && i == 4 then Odd4(b0, b1, b2, b3) else FullBit(b0, b1, b2, b3, i)))
  {
    if i < 4 + cr {
      if cr == 1 { ShortBits(nibble, i); } else { FullBits(nibble, cr, i); }
    }
  }

  lemma ShortBits(nibble: Nibble, i: nat)
    requires i < 5
    ensures var b0, b1, b2, b3 := Bit(nibble, 0), Bit(nibble, 1), Bit(nibble, 2), Bit(nibble, 3);
            Bit(HammingEncode(nibble, 1), 4 - i) == if i == 4 then Odd4(b0, b1, b2, b3) else FullBit(b0, b1, b2, b3, i)
  {
    var b0, b1, b2, b3 := Bit(nibble, 0), Bit(nibble, 1), Bit(nibble, 2), Bit(nibble, 3);
    var s := ShortCodeword(b0, b1, b2, b3);
    FromBitsBit(s, 4 - i);
    if i < 4 { assert s[i] == FullCodeword(b0, b1, b2, b3)[i]; }
  }

  lemma FullBits(nibble: Nibble, cr: nat, i: nat)
    requires 2 <= cr <= 4 && i < 4 + cr
    ensures Bit(HammingEncode(nibble, cr), 3 + cr - i) ==
            FullBit(Bit(nibble, 0), Bit(nibble, 1), Bit(nibble, 2), Bit(nibble, 3), i)
  {
    var full := FullCodeword(Bit(nibble, 0), Bit(nibble, 1), Bit(nibble, 2), Bit(nibble, 3));
    ShrFromBits(full, 4 - cr);
    FromBitsBit(full[..4 + cr], 3 + cr - i);
  }

  lemma {:induction false} PopcountParity(a: nat, e: nat, n: nat)
    ensures Popcount(Xor(a, e), n) % 2 == (Popcount(a, n) + Popcount(e, n)) % 2
  {
    if n > 0 {
      PopcountParity(a, e, n - 1);
      XorBit(a, e, n - 1);
    }
  }

  lemma TopDown(nibble: Nibble, i: nat)
    requires i < 8
    ensures Bit(HammingEncode(nibble, 4), 7 - i) ==
            FullBit(Bit(nibble, 0), Bit(nibble, 1), Bit(nibble, 2), Bit(nibble, 3), i)
  {
    EncodedBits(nibble, 4, i);
  }

  lemma EncodedPopcount(nibble: Nibble)
    ensures Popcount(HammingEncode(nibble, 4), 8) % 2 == 0
  {
    var cw := HammingEncode(nibble, 4);
    var b0, b1, b2, b3 := Bit(nibble, 0), Bit(nibble, 1), Bit(nibble, 2), Bit(nibble, 3);
    TopDown(nibble, 0); TopDown(nibble, 1); TopDown(nibble, 2); TopDown(nibble, 3);
    TopDown(nibble, 4); TopDown(nibble, 5); TopDown(nibble, 6); TopDown(nibble, 7);
    PopcountEight(cw);
    EvenWeight(b0, b1, b2, b3);
  }

  function One(b: bool): nat {
    if b then 1 else 0
  }

  lemma PopcountEight(cw: nat)
    ensures Popcount(cw, 8) == One(Bit(cw, 7)) + One(Bit(cw, 6)) + One(Bit(cw, 5)) + One(Bit(cw, 4)) +
                               One(Bit(cw, 3)) + One(Bit(cw, 2)) + One(Bit(cw, 1)) + One(Bit(cw, 0))
  {
    assert Popcount(cw, 4) == Popcount(cw, 3) + One(Bit(cw, 3));
    assert Popcount(cw, 3) == Popcount(cw, 2) + One(Bit(cw, 2));
    assert Popcount(cw, 2) == Popcount(cw, 1) + One(Bit(cw, 1));
    assert Popcount(cw, 1) == Popcount(cw, 0) + One(Bit(cw, 0));
    assert Popcount(cw, 8) == Popcount(cw, 7) + One(Bit(cw, 7));
    assert Popcount(cw, 7) == Popcount(cw, 6) + One(Bit(cw, 6));
    assert Popcount(cw, 6) == Popcount(cw, 5) + One(Bit(cw, 5));
    assert Popcount(cw, 5) == Popcount(cw, 4) + One(Bit(cw, 4));
  }

  lemma EvenWeight(b0: bool, b1: bool, b2: bool, b3: bool)
    ensures (One(b0) + One(b1) + One(b2) + One(b3) + One(Odd3(b0, b1, b2)) + One(Odd3(b1, b2, b3)) +
             One(Odd3(b0, b1, b3)) + One(Odd3(b0, b2, b3))) % 2 == 0
  {
    if b0 { if b1 { if b2 {} else {} } else { if b2 {} else {} } }
    else { if b1 { if b2 {} else {} } else { if b2 {} else {} } }
  }

  lemma XorCodeBit(a: nat, e: nat, cr: nat, i: nat)
    ensures CodeBit(Xor(a, e), cr, i) == (CodeBit(a, cr, i) != CodeBit(e, cr, i))
  {
    if i < 4 + cr { XorBit(a, e, 3 + cr - i); }
  }

  lemma Odd4OfError(a: nat, e: nat, cr: nat, i: nat, j: nat, k: nat, l: nat)
    ensures Odd4(CodeBit(Xor(a, e), cr, i), CodeBit(Xor(a, e), cr, j), CodeBit(Xor(a, e), cr, k), CodeBit(Xor(a, e), cr, l)) ==
            (Odd4(CodeBit(a, cr, i), CodeBit(a, cr, j), CodeBit(a, cr, k), CodeBit(a, cr, l)) !=
             Odd4(CodeBit(e, cr, i), CodeBit(e, cr, j), CodeBit(e, cr, k), CodeBit(e, cr, l)))
  {
    XorCodeBit(a, e, cr, i); XorCodeBit(a, e, cr, j); XorCodeBit(a, e, cr, k); XorCodeBit(a, e, cr, l);
  }

  lemma SyndromeOfError(a: nat, e: nat, cr: nat)
    ensures S0(Xor(a, e), cr) == (S0(a, cr) != S0(e, cr))
    ensures S1(Xor(a, e), cr) == (S1(a, cr) != S1(e, cr))
    ensures S2(Xor(a, e), cr) == (S2(a, cr) != S2(e, cr))
  {
    Odd4OfError(a, e, cr, 0, 1, 2, 4);
    Odd4OfError(a, e, cr, 1, 2, 3, 5);
    Odd4OfError(a, e, cr, 0, 1, 3, 6);
  }

  lemma SyndromeOfCodeword(nibble: Nibble, cr: nat)
    requires cr == 3 || cr == 4
    ensures var cw := HammingEncode(nibble, cr); !S0(cw, cr) && !S1(cw, cr) && !S2(cw, cr)
  {
    EncodedBits(nibble, cr, 0); EncodedBits(nibble, cr, 1); EncodedBits(nibble, cr, 2); EncodedBits(nibble, cr, 3);
    EncodedBits(nibble, cr, 4); EncodedBits(nibble, cr, 5); EncodedBits(nibble, cr, 6);
  }

  /** The decoder's choice depends on the error pattern only. */
  lemma FlippedByError(nibble: Nibble, e: nat, cr: nat)
    requires CodingRate(cr)
    ensures Flipped(Xor(HammingEncode(nibble, cr), e), cr) == Flipped(e, cr)
  {
    if cr >= 3 {
      var cw := HammingEncode(nibble, cr);
      SyndromeOfError(cw, e, cr);
      SyndromeOfCodeword(nibble, cr);
      if cr == 4 {
        EncodedPopcount(nibble);
        PopcountParity(cw, e, 8);
      }
    }
  }

  lemma DecodedBit(cw: nat, cr: nat, k: nat)
    requires CodingRate(cr)
    ensures Bit(HammingDecode(cw, cr), k) == (k < 4 && CodeBit(cw, cr, k) != (Flipped(cw, cr) == k))
  {
    var f := Flipped(cw, cr);
    NibbleBits(CodeBit(cw, cr, 0) != (f == 0), CodeBit(cw, cr, 1) != (f == 1), CodeBit(cw, cr, 2) != (f == 2), CodeBit(cw, cr, 3) != (f == 3));
    if 4 <= k {
      Pow2Table();
      HighBit(HammingDecode(cw, cr), 4, k);
    }
  }

  /** Decoding is translation invariant: what an error pattern does to the
      nibble does not depend on which codeword it hits. */
  lemma DecodeErrorPattern(nibble: Nibble, e: nat, cr: nat)
    requires CodingRate(cr)
    ensures HammingDecode(Xor(HammingEncode(nibble, cr), e), cr) == Xor(nibble, HammingDecode(e, cr))
  {
    var cw := HammingEncode(nibble, cr);
    var r := Xor(cw, e);
    forall k: nat ensures Bit(HammingDecode(r, cr), k) == Bit(Xor(nibble, HammingDecode(e, cr)), k) {
      FlippedByError(nibble, e, cr);
      XorBit(nibble, HammingDecode(e, cr), k);
      DecodedBit(r, cr, k);
      DecodedBit(e, cr, k);
      if k < 4 {
        EncodedBits(nibble, cr, k);
        XorCodeBit(cw, e, cr, k);
      } else {
        Pow2Table();
        HighBit(nibble, 4, k);
      }
    }
    SameBits(HammingDecode(r, cr), Xor(nibble, HammingDecode(e, cr)));
  }

  /** A nibble is recovered from a damaged codeword exactly when the decoder
      maps the bare error pattern to zero. */
  lemma Recovered(nibble: Nibble, e: nat, cr: nat)
    requires CodingRate(cr)
    ensures HammingDecode(Xor(HammingEncode(nibble, cr), e), cr) == nibble <==> HammingDecode(e, cr) == 0
  {
    var s := HammingDecode(e, cr);
    DecodeErrorPattern(nibble, e, cr);
    XorZero(nibble, 0);
    if Xor(nibble, s) == nibble {
      forall k: nat ensures Bit(s, k) == Bit(0, k) { XorBit(nibble, s, k); ZeroBit(k); }
      SameBits(s, 0);
    }
  }

  /** Error patterns of at most one bit are mapped to zero at rates 3 and 4. */
  lemma SingleBitPattern(e: nat, cr: nat, m: nat)
    requires cr == 3 || cr == 4
    requires m < 4 + cr && forall i: nat | i != m :: !CodeBit(e, cr, i)
    ensures HammingDecode(e, cr) == 0
  {
    if cr == 4 {
      PopcountEight(e);
      assert CodeBit(e, 4, 0) == Bit(e, 7) && CodeBit(e, 4, 1) == Bit(e, 6) && CodeBit(e, 4, 2) == Bit(e, 5) && CodeBit(e, 4, 3) == Bit(e, 4);
      assert CodeBit(e, 4, 4) == Bit(e, 3) && CodeBit(e, 4, 5) == Bit(e, 2) && CodeBit(e, 4, 6) == Bit(e, 1) && CodeBit(e, 4, 7) == Bit(e, 0);
    }
  }

  /** One wrong bit in a codeword is corrected at rates 3 and 4, and an intact
      codeword decodes at every rate.  Bits past the codeword do not matter. */
  lemma HammingCorrects(nibble: Nibble, cr: nat, cw: nat, m: nat)
    requires CodingRate(cr)
    requires forall i: nat | i < 4 + cr && i != m :: CodeBit(cw, cr, i) == CodeBit(HammingEncode(nibble, cr), cr, i)
    requires m < 4 + cr ==> cr >= 3
    ensures HammingDecode(cw, cr) == nibble
  {
    var sent := HammingEncode(nibble, cr);
    var e := Xor(sent, cw);
    forall i: nat ensures CodeBit(e, cr, i) == (CodeBit(sent, cr, i) != CodeBit(cw, cr, i)) {
      XorCodeBit(sent, cw, cr, i);
    }
    XorBack(sent, cw);
    Recovered(nibble, e, cr);
    if m < 4 + cr {
      SingleBitPattern(e, cr, m);
    } else {
      NoError(e, cr);
    }
  }

  lemma NoError(e: nat, cr: nat)
    requires CodingRate(cr)
    requires forall i: nat :: !CodeBit(e, cr, i)
    ensures HammingDecode(e, cr) == 0
  {
    assert !S0(e, cr) && !S1(e, cr) && !S2(e, cr);
  }

  lemma XorBack(a: nat, b: nat)
    ensures Xor(a, Xor(a, b)) == b
  {
    forall k: nat ensures Bit(Xor(a, Xor(a, b)), k) == Bit(b, k) {
      XorBit(a, Xor(a, b), k);
      XorBit(a, b, k);
    }
    SameBits(Xor(a, Xor(a, b)), b);
  }
}
