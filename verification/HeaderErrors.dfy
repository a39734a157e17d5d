/** What the header checksum sees: its code has distance three over the seventeen bits of a header. */
module HeaderErrors {
  import opened Bits
  import opened Hamming
  import opened Header

  function XorNibble(a: Nibble, b: Nibble): Nibble {
    Pow2Table();
    XorBelow(a, b, 4);
    Xor(a, b)
  }

  /** The checksum bits received. */
  function Received(n: seq<Nibble>): (chk: nat)
    requires |n| >= 5
    ensures chk < 32
  {
    var top: nat, low: nat := n[3] % 2, n[4];
    16 * top + low
  }

  /** The five checksum nibbles belong to the three before them. */
  predicate Agrees(n: seq<Nibble>)
    requires |n| >= 5
  {
    Received(n) == HeaderChecksum(n[0], n[1], n[2])
  }

  /** Two received headers, bit by bit: twelve data bits, the lowest bit of the fourth nibble, the fifth nibble. */
  function Distance(n: seq<Nibble>, n': seq<Nibble>): nat
    requires |n| >= 5 && |n'| >= 5
  {
    Popcount(Xor(n[0], n'[0]), 4) + Popcount(Xor(n[1], n'[1]), 4) + Popcount(Xor(n[2], n'[2]), 4)
    + Popcount(Xor(n[3], n'[3]), 1) + Popcount(Xor(n[4], n'[4]), 4)
  }

  /** Bit k of v, under a name whose definition a proof can put away. */
  predicate B(v: nat, k: nat) {
    Bit(v, k)
  }

  /** The three data nibbles read together: the length, twice the rate, the checksum flag. */
  lemma HeaderWord(payloadLen: nat, cr: nat, hasCrc: bool)
    requires payloadLen < 256 && CodingRate(cr)
    ensures var h := BuildHeader(payloadLen, cr, hasCrc);
            Word3(h[0], h[1], h[2]) == 16 * payloadLen + 2 * cr + if hasCrc then 1 else 0
  {
    hide HeaderChecksum;
  }

  function Word3(h0: nat, h1: nat, h2: nat): nat {
    256 * h0 + 16 * h1 + h2
  }

  // The checksum as five parities.

  predicate P4(h0: nat) { ((B(h0, 3) != B(h0, 2)) != B(h0, 1)) != B(h0, 0) }
  predicate P3(h0: nat, h1: nat, h2: nat) { (((B(h0, 3) != B(h1, 3)) != B(h1, 2)) != B(h1, 1)) != B(h2, 0) }
  predicate P2(h0: nat, h1: nat, h2: nat) { (((B(h0, 2) != B(h1, 3)) != B(h1, 0)) != B(h2, 3)) != B(h2, 1) }
  predicate P1(h0: nat, h1: nat, h2: nat) { ((((B(h0, 1) != B(h1, 2)) != B(h1, 0)) != B(h2, 2)) != B(h2, 1)) != B(h2, 0) }
  predicate P0(h0: nat, h1: nat, h2: nat) { ((((B(h0, 0) != B(h1, 1)) != B(h2, 3)) != B(h2, 2)) != B(h2, 1)) != B(h2, 0) }

  lemma Halve(v: nat)
    ensures v == 2 * (v / 2) + One(B(v, 0))
  {
  }

  lemma HalveBit(v: nat, k: nat)
    ensures B(v, k + 1) == B(v / 2, k)
  {
  }

  lemma FourOf(v: nat)
    requires v < 16
    ensures v == 8 * One(B(v, 3)) + 4 * One(B(v, 2)) + 2 * One(B(v, 1)) + One(B(v, 0))
  {
    hide B;
    var a := v / 2;
    var b := a / 2;
    Halve(v); Halve(a); Halve(b); Halve(b / 2);
    HalveBit(v, 0);
    HalveBit(v, 1); HalveBit(a, 0);
    HalveBit(v, 2); HalveBit(a, 1); HalveBit(b, 0);
  }

  /** A word below 32 by its bits. */
  lemma FiveOf(w: nat)
    requires w < 32
    ensures w == 16 * One(B(w, 4)) + 8 * One(B(w, 3)) + 4 * One(B(w, 2)) + 2 * One(B(w, 1)) + One(B(w, 0))
  {
    hide B;
    Halve(w);
    FourOf(w / 2);
    HalveBit(w, 0); HalveBit(w, 1); HalveBit(w, 2); HalveBit(w, 3);
  }

  lemma FiveBits(w: nat, c4: bool, c3: bool, c2: bool, c1: bool, c0: bool)
    requires w == 16 * One(c4) + 8 * One(c3) + 4 * One(c2) + 2 * One(c1) + One(c0)
    ensures B(w, 0) == c0 && B(w, 1) == c1 && B(w, 2) == c2 && B(w, 3) == c3 && B(w, 4) == c4
  {
    FiveOf(w);
    hide B;
  }

  lemma ChecksumParities(h0: Nibble, h1: Nibble, h2: Nibble)
    ensures HeaderChecksum(h0, h1, h2) ==
            16 * One(P4(h0)) + 8 * One(P3(h0, h1, h2)) + 4 * One(P2(h0, h1, h2)) + 2 * One(P1(h0, h1, h2)) + One(P0(h0, h1, h2))
  {
    hide Bit;
  }

  lemma ChecksumBits(h0: Nibble, h1: Nibble, h2: Nibble)
    ensures var c := HeaderChecksum(h0, h1, h2);
            B(c, 4) == P4(h0) && B(c, 3) == P3(h0, h1, h2) && B(c, 2) == P2(h0, h1, h2)
            && B(c, 1) == P1(h0, h1, h2) && B(c, 0) == P0(h0, h1, h2)
  {
    hide B, P4, P3, P2, P1, P0, HeaderChecksum;
    ChecksumParities(h0, h1, h2);
    FiveBits(HeaderChecksum(h0, h1, h2), P4(h0), P3(h0, h1, h2), P2(h0, h1, h2), P1(h0, h1, h2), P0(h0, h1, h2));
  }

  lemma SmallEqual(a: nat, b: nat)
    requires a < 32 && b < 32
    ensures a == b <==> B(a, 0) == B(b, 0) && B(a, 1) == B(b, 1) && B(a, 2) == B(b, 2) && B(a, 3) == B(b, 3) && B(a, 4) == B(b, 4)
  {
    FiveOf(a);
    FiveOf(b);
    hide B;
  }

  /** d is where a and b differ. */
  ghost predicate Differs(d: nat, a: nat, b: nat) {
    && B(d, 0) == (B(a, 0) != B(b, 0)) && B(d, 1) == (B(a, 1) != B(b, 1))
    && B(d, 2) == (B(a, 2) != B(b, 2)) && B(d, 3) == (B(a, 3) != B(b, 3))
  }

  // The parities of the differences are the differences of the parities.

  lemma P4Apart(a0: nat, b0: nat, d0: nat)
    requires Differs(d0, a0, b0)
    ensures P4(d0) == (P4(a0) != P4(b0))
  {
    hide B;
  }

  lemma P3Apart(a0: nat, a1: nat, a2: nat, b0: nat, b1: nat, b2: nat, d0: nat, d1: nat, d2: nat)
    requires Differs(d0, a0, b0) && Differs(d1, a1, b1) && Differs(d2, a2, b2)
    ensures P3(d0, d1, d2) == (P3(a0, a1, a2) != P3(b0, b1, b2))
  {
    hide B;
  }

  lemma P2Apart(a0: nat, a1: nat, a2: nat, b0: nat, b1: nat, b2: nat, d0: nat, d1: nat, d2: nat)
    requires Differs(d0, a0, b0) && Differs(d1, a1, b1) && Differs(d2, a2, b2)
    ensures P2(d0, d1, d2) == (P2(a0, a1, a2) != P2(b0, b1, b2))
  {
    hide B;
  }

  lemma P1Apart(a0: nat, a1: nat, a2: nat, b0: nat, b1: nat, b2: nat, d0: nat, d1: nat, d2: nat)
    requires Differs(d0, a0, b0) && Differs(d1, a1, b1) && Differs(d2, a2, b2)
    ensures P1(d0, d1, d2) == (P1(a0, a1, a2) != P1(b0, b1, b2))
  {
    hide B;
  }

  lemma P0Apart(a0: nat, a1: nat, a2: nat, b0: nat, b1: nat, b2: nat, d0: nat, d1: nat, d2: nat)
    requires Differs(d0, a0, b0) && Differs(d1, a1, b1) && Differs(d2, a2, b2)
    ensures P0(d0, d1, d2) == (P0(a0, a1, a2) != P0(b0, b1, b2))
  {
    hide B;
  }

  lemma ParitiesApart(a0: nat, a1: nat, a2: nat, b0: nat, b1: nat, b2: nat, d0: nat, d1: nat, d2: nat)
    requires Differs(d0, a0, b0) && Differs(d1, a1, b1) && Differs(d2, a2, b2)
    ensures P4(d0) == (P4(a0) != P4(b0)) && P3(d0, d1, d2) == (P3(a0, a1, a2) != P3(b0, b1, b2))
    ensures P2(d0, d1, d2) == (P2(a0, a1, a2) != P2(b0, b1, b2)) && P1(d0, d1, d2) == (P1(a0, a1, a2) != P1(b0, b1, b2))
    ensures P0(d0, d1, d2) == (P0(a0, a1, a2) != P0(b0, b1, b2))
  {
    hide *;
    P4Apart(a0, b0, d0);
    P3Apart(a0, a1, a2, b0, b1, b2, d0, d1, d2);
    P2Apart(a0, a1, a2, b0, b1, b2, d0, d1, d2);
    P1Apart(a0, a1, a2, b0, b1, b2, d0, d1, d2);
    P0Apart(a0, a1, a2, b0, b1, b2, d0, d1, d2);
  }

  lemma XorApart(a: nat, b: nat)
    ensures Differs(Xor(a, b), a, b)
  {
    XorBit(a, b, 0); XorBit(a, b, 1); XorBit(a, b, 2); XorBit(a, b, 3);
  }

  /** The checksum of combined nibbles is the combination of the checksums. */
  lemma ChecksumLinear(a0: Nibble, a1: Nibble, a2: Nibble, b0: Nibble, b1: Nibble, b2: Nibble)
    ensures HeaderChecksum(XorNibble(a0, b0), XorNibble(a1, b1), XorNibble(a2, b2))
         == Xor(HeaderChecksum(a0, a1, a2), HeaderChecksum(b0, b1, b2))
  {
    hide Xor, HeaderChecksum, P4, P3, P2, P1, P0;
    var a, b := HeaderChecksum(a0, a1, a2), HeaderChecksum(b0, b1, b2);
    var c := HeaderChecksum(XorNibble(a0, b0), XorNibble(a1, b1), XorNibble(a2, b2));
    ChecksumBits(a0, a1, a2);
    ChecksumBits(b0, b1, b2);
    ChecksumBits(XorNibble(a0, b0), XorNibble(a1, b1), XorNibble(a2, b2));
    XorApart(a0, b0); XorApart(a1, b1); XorApart(a2, b2);
    ParitiesApart(a0, a1, a2, b0, b1, b2, Xor(a0, b0), Xor(a1, b1), Xor(a2, b2));
    XorApart(a, b);
    XorBit(a, b, 4);
    Pow2Five();
    XorBelow(a, b, 5);
    SmallEqual(c, Xor(a, b));
  }

  lemma Pow2Five()
    ensures Pow2(5) == 32
  {
    Pow2Table();
    assert Pow2(5) == 2 * Pow2(4);
  }

  lemma NibbleBits(v: Nibble, b3: bool, b2: bool, b1: bool, b0: bool)
    requires v == 8 * One(b3) + 4 * One(b2) + 2 * One(b1) + One(b0)
    ensures B(v, 0) == b0 && B(v, 1) == b1 && B(v, 2) == b2 && B(v, 3) == b3
  {
    FiveBits(v, false, b3, b2, b1, b0);
    hide B;
  }

  /** The column each of the twelve data bits contributes to the checksum. */
  lemma ChecksumColumns(none: Nibble, one: Nibble, two: Nibble, four: Nibble, eight: Nibble)
    requires none == 0 && one == 1 && two == 2 && four == 4 && eight == 8
    ensures HeaderChecksum(eight, none, none) == 0x18 && HeaderChecksum(four, none, none) == 0x14
    ensures HeaderChecksum(two, none, none) == 0x12 && HeaderChecksum(one, none, none) == 0x11
    ensures HeaderChecksum(none, eight, none) == 0x0C && HeaderChecksum(none, four, none) == 0x0A
    ensures HeaderChecksum(none, two, none) == 0x09 && HeaderChecksum(none, one, none) == 0x06
    ensures HeaderChecksum(none, none, eight) == 0x05 && HeaderChecksum(none, none, four) == 0x03
    ensures HeaderChecksum(none, none, two) == 0x07 && HeaderChecksum(none, none, one) == 0x0B
  {
    NibbleBits(eight, true, false, false, false);
    NibbleBits(four, false, true, false, false);
    NibbleBits(two, false, false, true, false);
    NibbleBits(one, false, false, false, true);
    NibbleBits(none, false, false, false, false);
    hide B, HeaderChecksum;
    ChecksumParities(eight, none, none); ChecksumParities(four, none, none);
    ChecksumParities(two, none, none); ChecksumParities(one, none, none);
    ChecksumParities(none, eight, none); ChecksumParities(none, four, none);
    ChecksumParities(none, two, none); ChecksumParities(none, one, none);
    ChecksumParities(none, none, eight); ChecksumParities(none, none, four);
    ChecksumParities(none, none, two); ChecksumParities(none, none, one);
  }

  // The distance.

  function OneAt(v: nat, k: nat): nat {
    if B(v, k) then 1 else 0
  }

  function FourOnes(v: nat): nat {
    OneAt(v, 3) + OneAt(v, 2) + OneAt(v, 1) + OneAt(v, 0)
  }

  lemma CountFour(v: nat)
    ensures Popcount(v, 4) == FourOnes(v) && Popcount(v, 1) == OneAt(v, 0)
  {
    assert Popcount(v, 1) == Popcount(v, 0) + (if B(v, 0) then 1 else 0);
    assert Popcount(v, 2) == Popcount(v, 1) + (if B(v, 1) then 1 else 0);
    assert Popcount(v, 3) == Popcount(v, 2) + (if B(v, 2) then 1 else 0);
    assert Popcount(v, 4) == Popcount(v, 3) + (if B(v, 3) then 1 else 0);
  }

  lemma AgreesBits(n: seq<Nibble>)
    requires |n| >= 5
    ensures Agrees(n) <==> B(n[3], 0) == P4(n[0]) && B(n[4], 3) == P3(n[0], n[1], n[2]) && B(n[4], 2) == P2(n[0], n[1], n[2])
                           && B(n[4], 1) == P1(n[0], n[1], n[2]) && B(n[4], 0) == P0(n[0], n[1], n[2])
  {
    hide B, HeaderChecksum;
    ReceivedBits(n);
    ChecksumBits(n[0], n[1], n[2]);
    SmallEqual(Received(n), HeaderChecksum(n[0], n[1], n[2]));
  }

  lemma ReceivedBits(n: seq<Nibble>)
    requires |n| >= 5
    ensures var r := Received(n);
            B(r, 4) == B(n[3], 0) && B(r, 3) == B(n[4], 3) && B(r, 2) == B(n[4], 2) && B(r, 1) == B(n[4], 1) && B(r, 0) == B(n[4], 0)
  {
    hide B;
    var low: nat := n[4];
    Halve(n[3]);
    FourOf(low);
    FiveBits(Received(n), B(n[3], 0), B(low, 3), B(low, 2), B(low, 1), B(low, 0));
  }

  /** Two headers that agree with their checksums are the same in all seventeen bits or differ in three. */
  lemma HeadersApart(n: seq<Nibble>, n': seq<Nibble>)
    requires |n| >= 5 && |n'| >= 5 && Agrees(n) && Agrees(n')
    ensures Distance(n, n') == 0 || Distance(n, n') >= 3
  {
    hide B, Xor, Agrees, Popcount, P4, P3, P2, P1, P0;
    AgreesBits(n);
    AgreesBits(n');
    var d0, d1, d2, d3, d4 := Xor(n[0], n'[0]), Xor(n[1], n'[1]), Xor(n[2], n'[2]), Xor(n[3], n'[3]), Xor(n[4], n'[4]);
    XorApart(n[0], n'[0]); XorApart(n[1], n'[1]); XorApart(n[2], n'[2]); XorApart(n[3], n'[3]); XorApart(n[4], n'[4]);
    ParitiesApart(n[0], n[1], n[2], n'[0], n'[1], n'[2], d0, d1, d2);
    assert B(d3, 0) == P4(d0) && B(d4, 3) == P3(d0, d1, d2) && B(d4, 2) == P2(d0, d1, d2);
    assert B(d4, 1) == P1(d0, d1, d2) && B(d4, 0) == P0(d0, d1, d2);
    FewDifferences(d0, d1, d2, d3, d4);
  }

  lemma FewDifferences(d0: nat, d1: nat, d2: nat, d3: nat, d4: nat)
    requires B(d3, 0) == P4(d0) && B(d4, 3) == P3(d0, d1, d2) && B(d4, 2) == P2(d0, d1, d2)
    requires B(d4, 1) == P1(d0, d1, d2) && B(d4, 0) == P0(d0, d1, d2)
    ensures var w := Popcount(d0, 4) + Popcount(d1, 4) + Popcount(d2, 4) + Popcount(d3, 1) + Popcount(d4, 4); w == 0 || w >= 3
  {
    hide *;
    CountFour(d0); CountFour(d1); CountFour(d2); CountFour(d3); CountFour(d4);
    FewBits(d0, d1, d2, d3, d4);
  }

  /** One or two wrong bits among the seventeen change some parity. */
  lemma FewBits(d0: nat, d1: nat, d2: nat, d3: nat, d4: nat)
    requires B(d3, 0) == P4(d0) && B(d4, 3) == P3(d0, d1, d2) && B(d4, 2) == P2(d0, d1, d2)
    requires B(d4, 1) == P1(d0, d1, d2) && B(d4, 0) == P0(d0, d1, d2)
    ensures var w := FourOnes(d0) + FourOnes(d1) + FourOnes(d2) + OneAt(d3, 0) + FourOnes(d4);
            w == 0 || w >= 3
  {
    hide B;
  }

  /** A header with one or two of its bits wrong is never taken for valid. */
  lemma HeaderErrorsDetected(payloadLen: nat, cr: nat, hasCrc: bool, n: seq<Nibble>)
    requires payloadLen < 256 && CodingRate(cr) && |n| >= 5 && 1 <= Distance(BuildHeader(payloadLen, cr, hasCrc), n) <= 2
    ensures !ParseHeader(n).valid
  {
    hide Distance, HeaderChecksum;
    BuiltAgrees(payloadLen, cr, hasCrc);
    if Agrees(n) { HeadersApart(BuildHeader(payloadLen, cr, hasCrc), n); }
  }

  lemma BuiltAgrees(payloadLen: nat, cr: nat, hasCrc: bool)
    requires payloadLen < 256 && CodingRate(cr)
    ensures Agrees(BuildHeader(payloadLen, cr, hasCrc))
  {
    hide HeaderChecksum;
  }
}
