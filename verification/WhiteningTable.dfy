/** The whitening register opens with the program's table. */
module WhiteningTable {
  import opened Crc
  import opened Header
  import opened Bits
  import opened Hamming

  lemma BitDown(v: nat, k: nat)
    ensures Bit(v, k + 1) == Bit(v / 2, k) && Bit(v, 0) == (v % 2 == 1)
  {
  }

  lemma BitThree(v: nat)
    ensures Bit(v, 3) == (v / 8 % 2 == 1)
  {
    hide Bit;
    var a := v / 2;
    BitDown(v, 2);
    BitDown(a, 1);
    BitDown(a / 2, 0);
    BitDown(a / 2 / 2, 0);
    assert a / 2 / 2 == v / 8;
  }

  /** The bits the register feeds back. */
  lemma FeedbackBits(w: nat)
    ensures Bit(w, 7) == (w / 128 % 2 == 1) && Bit(w, 5) == (w / 32 % 2 == 1)
    ensures Bit(w, 4) == (w / 16 % 2 == 1) && Bit(w, 3) == (w / 8 % 2 == 1)
  {
    hide Bit;
    BitThree(w);
    BitThree(w / 2);
    BitDown(w, 3);
    BitThree(w / 4);
    BitDown(w / 2, 3);
    BitDown(w, 4);
    BitThree(w / 16);
    BitDown(w / 8, 3); BitDown(w / 4, 4); BitDown(w / 2, 5); BitDown(w, 6);
    assert w / 2 / 8 == w / 16 && w / 4 / 8 == w / 32 && w / 16 / 8 == w / 128;
    assert w / 2 / 2 == w / 4 && w / 4 / 2 == w / 8 && w / 8 / 2 == w / 16;
  }

  lemma ParityOfFour(x: nat, y: nat, z: nat, u: nat)
    ensures (x + y + z + u) % 2 == One(Odd4(x % 2 == 1, y % 2 == 1, z % 2 == 1, u % 2 == 1))
  {
    var a, b, c, d := x / 2, y / 2, z / 2, u / 2;
    assert x + y + z + u == 2 * (a + b + c + d) + (x % 2 + y % 2 + z % 2 + u % 2);
  }

  function Fed(w: nat): nat {
    (2 * w + (w / 128 + w / 32 + w / 16 + w / 8) % 2) % 256
  }

  /** The register shifts left and takes in the parity of its bits 7, 5, 4 and 3. */
  lemma Feedback(w: Byte)
    ensures NextWhitening(w) == Fed(w)
  {
    FeedbackBits(w);
    ParityOfFour(w / 128, w / 32, w / 16, w / 8);
    hide Bit, Odd4;
  }

  /** Entry i, under a name whose definition a proof can put away. */
  function Entry(i: nat): Byte {
    WhiteningEntry(i)
  }

  lemma NextEntry(i: nat, w: Byte, next: Byte)
    requires Entry(i) == w && Fed(w) == next
    ensures Entry(i + 1) == next
  {
    Feedback(w);
    hide NextWhitening, Fed;
  }

  /** The first row of the table; no other taps of an eight-bit register run through it. */
  lemma TableOpens()
    ensures Entry(0) == 0xFF && Entry(1) == 0xFE && Entry(2) == 0xFC && Entry(3) == 0xF8 && Entry(4) == 0xF0
    ensures Entry(5) == 0xE1 && Entry(6) == 0xC2 && Entry(7) == 0x85 && Entry(8) == 0x0B && Entry(9) == 0x17
    ensures Entry(10) == 0x2F && Entry(11) == 0x5E && Entry(12) == 0xBC && Entry(13) == 0x78 && Entry(14) == 0xF1
  {
    hide Entry;
    FirstEntry();
    NextEntry(0, 0xFF, 0xFE); NextEntry(1, 0xFE, 0xFC); NextEntry(2, 0xFC, 0xF8); NextEntry(3, 0xF8, 0xF0); NextEntry(4, 0xF0, 0xE1);
    NextEntry(5, 0xE1, 0xC2); NextEntry(6, 0xC2, 0x85); NextEntry(7, 0x85, 0x0B); NextEntry(8, 0x0B, 0x17); NextEntry(9, 0x17, 0x2F);
    NextEntry(10, 0x2F, 0x5E); NextEntry(11, 0x5E, 0xBC); NextEntry(12, 0xBC, 0x78); NextEntry(13, 0x78, 0xF1);
  }

  lemma FirstEntry()
    ensures Entry(0) == 0xFF
  {
  }
}
