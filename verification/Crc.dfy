/** The payload checksum and its algebra over GF(2), for payloads of any length. */
module Crc {
  import opened Bits

  type Byte = n: nat | n < 256
  type Word16 = n: nat | n < 65536

  function XorByte(a: Byte, b: Byte): Byte {
    Pow2Table();
    XorBelow(a, b, 8);
    Xor(a, b)
  }

  function XorWord(a: Word16, b: Word16): Word16 {
    Pow2Table();
    XorBelow(a, b, 16);
    Xor(a, b)
  }

  const POLYNOMIAL: Word16 := 0x1021

  /** One of the eight rounds that shift a byte into the register: `bit` is the
      top bit of what is left of the byte. */
  function Round(crc: Word16, bit: bool): Word16 {
    var shifted := (2 * crc) % 65536;
    if Bit(crc, 15) != bit then XorWord(shifted, POLYNOMIAL) else shifted
  }

  /** The last n of the eight rounds for `byte`. */
  function Rounds(crc: Word16, byte: Byte, n: nat): Word16
    requires n <= 8
    decreases byte, n
  {
    if n == 0 then crc else Rounds(Round(crc, Bit(byte, n - 1)), byte, n - 1)
  }

  function Crc16(crc: Word16, byte: Byte): Word16 {
    Rounds(crc, byte, 8)
  }

  /** The register after all of `bytes`. */
  function Feed(crc: Word16, bytes: seq<Byte>): Word16 {
    if bytes == [] then crc
    else Crc16(Feed(crc, bytes[..|bytes| - 1]), bytes[|bytes| - 1])
  }

  /** The last two bytes as they enter the checksum. */
  function Tail(low: Byte, high: Byte): Word16 {
    XorWord(low, Shl(high, 8))
  }

  /** The register over all but the last two bytes, xored with those two. */
  function PayloadCrc(payload: seq<Byte>): Word16 {
    var n := |payload|;
    if n < 2 then Feed(0, payload)
    else XorWord(Feed(0, payload[..n - 2]), Tail(payload[n - 1], payload[n - 2]))
  }

  method ShiftByte(crc: Word16, byte: Byte) returns (r: Word16)
    ensures r == Crc16(crc, byte)
  {
    r := crc;
    var b: nat := byte;
    for i := 0 to 8
      invariant Rounds(r, byte, 8 - i) == Crc16(crc, byte)
      invariant b < 256
      invariant forall k | i <= k < 8 :: Bit(b, k) == Bit(byte, k - i)
    {
      assert Bit(b, 7) == Bit(byte, 7 - i);
      if Bit(r, 15) != Bit(b, 7) {
        r := XorWord((2 * r) % 65536, POLYNOMIAL);
      } else {
        r := (2 * r) % 65536;
      }
      ByteShiftBits(b);
      b := (2 * b) % 256;
    }
  }

  lemma ByteShiftBits(b: nat)
    ensures forall k: nat | 0 < k < 8 :: Bit((2 * b) % 256, k) == Bit(b, k - 1)
  {
    forall k: nat | 0 < k < 8 ensures Bit((2 * b) % 256, k) == Bit(b, k - 1) {
      Pow2Table();
      CutBits(2 * b, 8, k);
      assert Bit(2 * b, k) == Bit(b, k - 1);
    }
  }

  method ComputePayloadCrc(payload: seq<Byte>) returns (crc: Word16)
    ensures crc == PayloadCrc(payload)
  {
    crc := 0;
    if |payload| < 2 {
      for i := 0 to |payload|
        invariant crc == Feed(0, payload[..i])
      {
        FeedStep(payload, i);
        crc := ShiftByte(crc, payload[i]);
      }
      assert payload[..|payload|] == payload;
      return;
    }
    var i := 0;
    while i + 2 < |payload|
      invariant i <= |payload| - 2
      invariant crc == Feed(0, payload[..i])
    {
      FeedStep(payload, i);
      crc := ShiftByte(crc, payload[i]);
      i := i + 1;
    }
    var low, high := payload[|payload| - 1], payload[|payload| - 2];
    XorRegroup(crc, low, Shl(high, 8));
    crc := XorWord(XorWord(crc, low), Shl(high, 8));
  }

  lemma FeedStep(e: seq<Byte>, i: nat)
    requires i < |e|
    ensures Feed(0, e[..i + 1]) == Crc16(Feed(0, e[..i]), e[i])
  {
    assert e[..i + 1][..i] == e[..i];
  }

  lemma XorRegroup(a: nat, b: nat, c: nat)
    ensures Xor(Xor(a, b), c) == Xor(a, Xor(b, c))
  {
    XorShuffle(a, b, 0, c);
    XorZero(a, 0);
    XorShuffle(0, c, b, 0);
    forall k: nat ensures Bit(Xor(Xor(a, b), c), k) == Bit(Xor(a, Xor(b, c)), k) {
      XorBit(Xor(a, b), c, k); XorBit(a, b, k);
      XorBit(a, Xor(b, c), k); XorBit(b, c, k);
    }
    SameBits(Xor(Xor(a, b), c), Xor(a, Xor(b, c)));
  }

  /** The byte-wise difference of two payloads of one length. */
  function Difference(a: seq<Byte>, b: seq<Byte>): (e: seq<Byte>)
    requires |a| == |b|
    ensures |e| == |a| && forall i | 0 <= i < |a| :: e[i] == Xor(a[i], b[i])
  {
    seq(|a|, i requires 0 <= i < |a| => XorByte(a[i], b[i]))
  }

  lemma RoundBit(c: Word16, bit: bool, k: nat)
    ensures Bit(Round(c, bit), k) ==
            ((0 < k < 16 && Bit(c, k - 1)) != ((Bit(c, 15) != bit) && Bit(POLYNOMIAL, k)))
  {
    Pow2Table();
    CutBits(2 * c, 16, k);
    if k > 0 { assert Bit(2 * c, k) == Bit(c, k - 1); }
    XorBit((2 * c) % 65536, POLYNOMIAL, k);
  }

  lemma RoundLinear(c: Word16, d: Word16, a: bool, b: bool)
    ensures Round(XorWord(c, d), a != b) == XorWord(Round(c, a), Round(d, b))
  {
    forall k: nat ensures Bit(Round(XorWord(c, d), a != b), k) == Bit(XorWord(Round(c, a), Round(d, b)), k) {
      RoundBit(XorWord(c, d), a != b, k);
      RoundBit(c, a, k);
      RoundBit(d, b, k);
      XorBit(Round(c, a), Round(d, b), k);
      XorBit(c, d, 15);
      if k > 0 { XorBit(c, d, k - 1); }
    }
    SameBits(Round(XorWord(c, d), a != b), XorWord(Round(c, a), Round(d, b)));
  }

  lemma {:induction false} RoundsLinear(c: Word16, d: Word16, a: Byte, b: Byte, n: nat)
    requires n <= 8
    ensures Rounds(XorWord(c, d), XorByte(a, b), n) == XorWord(Rounds(c, a, n), Rounds(d, b, n))
    decreases n
  {
    if n > 0 {
      XorBit(a, b, n - 1);
      RoundLinear(c, d, Bit(a, n - 1), Bit(b, n - 1));
      RoundsLinear(Round(c, Bit(a, n - 1)), Round(d, Bit(b, n - 1)), a, b, n - 1);
    }
  }

  lemma {:induction false} FeedLinear(c: Word16, d: Word16, a: seq<Byte>, b: seq<Byte>)
    requires |a| == |b|
    ensures Feed(XorWord(c, d), Difference(a, b)) == XorWord(Feed(c, a), Feed(d, b))
  {
    if a != [] {
      var n := |a| - 1;
      FeedLinear(c, d, a[..n], b[..n]);
      assert Difference(a, b)[..n] == Difference(a[..n], b[..n]);
      RoundsLinear(Feed(c, a[..n]), Feed(d, b[..n]), a[n], b[n], 8);
    }
  }

  /** The checksum is linear: the checksums of two payloads differ by the
      checksum of their difference. */
  lemma PayloadCrcLinear(a: seq<Byte>, b: seq<Byte>)
    requires |a| == |b|
    ensures PayloadCrc(Difference(a, b)) == XorWord(PayloadCrc(a), PayloadCrc(b))
  {
    var n := |a|;
    var e := Difference(a, b);
    XorZero(0, 0);
    if n < 2 {
      FeedLinear(0, 0, a, b);
    } else {
      FeedLinear(0, 0, a[..n - 2], b[..n - 2]);
      assert e[..n - 2] == Difference(a[..n - 2], b[..n - 2]);
      TailLinear(a[n - 1], a[n - 2], b[n - 1], b[n - 2]);
      XorShuffle(Feed(0, a[..n - 2]), Feed(0, b[..n - 2]), Tail(a[n - 1], a[n - 2]), Tail(b[n - 1], b[n - 2]));
    }
  }

  lemma TailLinear(a: Byte, b: Byte, c: Byte, d: Byte)
    ensures Tail(XorByte(a, c), XorByte(b, d)) == XorWord(Tail(a, b), Tail(c, d))
  {
    ShlXor(b, d, 8);
    XorShuffle(a, c, Shl(b, 8), Shl(d, 8));
  }

  // Running the register backwards.  While the register still ends in zeros
  // the polynomial was not added, so each round can be undone; that pins down
  // what the last sixteen message bits were.

  lemma RoundLowBit(c: Word16, bit: bool)
    ensures Bit(Round(c, bit), 0) == (Bit(c, 15) != bit)
  {
    RoundBit(c, bit, 0);
  }

  /** After n rounds that left the n lowest bits zero, the register they
      started from is the result moved down by n, with the last n message
      bits on top. */
  lemma {:induction false} RoundsBack(c: Word16, byte: Byte, n: nat, k: nat)
    requires n <= 8 && k < 16
    requires forall j: nat | j < n :: !Bit(Rounds(c, byte, n), j)
    ensures Bit(c, k) == if k + n < 16 then Bit(Rounds(c, byte, n), k + n) else Bit(byte, k + n - 16)
    decreases n
  {
    if n > 0 {
      var c1 := Round(c, Bit(byte, n - 1));
      assert Rounds(c, byte, n) == Rounds(c1, byte, n - 1);
      assert !Bit(Rounds(c, byte, n), n - 1);
      RoundLowBit(c, Bit(byte, n - 1));
      RoundsBack(c1, byte, n - 1, 0);
      assert Bit(c, 15) == Bit(byte, n - 1);
      if k < 15 {
        RoundBit(c, Bit(byte, n - 1), k + 1);
        RoundsBack(c1, byte, n - 1, k + 1);
      }
    }
  }

  /** Zero bytes keep a nonzero register nonzero. */
  lemma ZeroByteKeeps(c: Word16)
    ensures Crc16(c, 0) == 0 <==> c == 0
  {
    ZeroRounds(8);
    if Crc16(c, 0) == 0 {
      Pow2Table();
      forall k: nat ensures Bit(c, k) == Bit(0, k) {
        forall j: nat ensures !Bit(0, j) { ZeroBit(j); }
        if k < 16 { RoundsBack(c, 0, 8, k); } else { HighBit(c, 16, k); }
      }
      SameBits(c, 0);
    }
  }

  lemma {:induction false} ZeroRounds(n: nat)
    requires n <= 8
    ensures Rounds(0, 0, n) == 0
  {
    if n > 0 {
      ZeroBit(n - 1);
      ZeroBit(15);
      assert Round(0, false) == 0;
      ZeroRounds(n - 1);
    }
  }

  /** A byte that leaves only a byte b in the upper half of an empty register
      was zero, and so was b. */
  lemma OneByteSeen(a: Byte, b: Byte)
    requires forall k: nat | k < 16 :: Bit(Crc16(0, a), k) == (8 <= k && Bit(b, k - 8))
    ensures a == 0 && b == 0
  {
    Pow2Table();
    assert Crc16(0, a) == Rounds(0, a, 8);
    forall j: nat | j < 8 ensures !Bit(Rounds(0, a, 8), j) { assert !Bit(Crc16(0, a), j); }
    forall k: nat ensures Bit(a, k) == Bit(0, k) && Bit(b, k) == Bit(0, k) {
      ZeroBit(k);
      if k < 8 {
        RoundsBack(0, a, 8, k + 8);
        RoundsBack(0, a, 8, k);
        ZeroBit(k + 8);
        assert Bit(Crc16(0, a), k + 8) == Bit(b, k);
      } else {
        HighBit(a, 8, k);
        HighBit(b, 8, k);
      }
    }
    SameBits(a, 0);
    SameBits(b, 0);
  }

  /** Two adjacent bytes, not both zero, leave a nonzero register, also when
      the second one only enters as a tail byte. */
  lemma TwoBytesSeen(a: Byte, b: Byte)
    requires a != 0 || b != 0
    ensures Crc16(Crc16(0, a), b) != 0
    ensures XorWord(Crc16(0, a), Tail(0, b)) != 0
  {
    var c := Crc16(0, a);
    forall k: nat ensures !Bit(0, k) { ZeroBit(k); }
    if Crc16(c, b) == 0 {
      forall k: nat | k < 16 ensures Bit(c, k) == (8 <= k && Bit(b, k - 8)) {
        RoundsBack(c, b, 8, k);
      }
      OneByteSeen(a, b);
    }
    XorZero(c, Tail(0, b));
    if c == Tail(0, b) {
      forall k: nat | k < 16 ensures Bit(c, k) == (8 <= k && Bit(b, k - 8)) {
        XorBit(0, Shl(b, 8), k);
        ShlBit(b, 8, k);
      }
      OneByteSeen(a, b);
    }
  }

  lemma TailZero(low: Byte, high: Byte)
    ensures Tail(low, high) == 0 <==> low == 0 && high == 0
  {
    XorZero(low, Shl(high, 8));
    Pow2Table();
    forall k: nat ensures !Bit(0, k) { ZeroBit(k); }
    if low == Shl(high, 8) {
      forall k: nat ensures Bit(low, k) == Bit(0, k) && Bit(high, k) == Bit(0, k) {
        ShlBit(high, 8, k);
        ShlBit(high, 8, k + 8);
        if 8 <= k { HighBit(low, 8, k); }
        HighBit(low, 8, k + 8);
      }
      SameBits(low, 0);
      SameBits(high, 0);
    }
  }

  lemma {:induction false} ZerosKeep(e: seq<Byte>, i: nat, j: nat)
    requires i <= j <= |e|
    requires forall k | i <= k < j :: e[k] == 0
    ensures Feed(0, e[..j]) == 0 <==> Feed(0, e[..i]) == 0
  {
    if i < j {
      ZerosKeep(e, i, j - 1);
      FeedStep(e, j - 1);
      ZeroByteKeeps(Feed(0, e[..j - 1]));
    }
  }

  /** A nonzero difference confined to two adjacent bytes has a nonzero
      checksum, wherever the two bytes are. */
  lemma BurstChecksum(e: seq<Byte>, i: nat)
    requires i < |e| && (e[i] != 0 || (i + 1 < |e| && e[i + 1] != 0))
    requires forall k | 0 <= k < |e| && k != i && k != i + 1 :: e[k] == 0
    ensures PayloadCrc(e) != 0
  {
    var n := |e|;
    var m := if n < 2 then n else n - 2;
    var lead := if i < m then i else m;
    ZerosKeep(e, 0, lead);
    assert Feed(0, e[..lead]) == 0;
    if i < m {
      FeedStep(e, i);
      if i + 1 < m {
        TwoBytesSeen(e[i], e[i + 1]);
        FeedStep(e, i + 1);
        ZerosKeep(e, i + 2, m);
        TailZero(e[n - 1], e[n - 2]);
        XorZero(Feed(0, e[..m]), 0);
      } else if n >= 2 {
        TwoBytesSeen(e[i], e[i + 1]);
      } else {
        TwoBytesSeen(e[i], 0);
        ZeroByteKeeps(Crc16(0, e[i]));
        assert e[..n] == e;
      }
    } else {
      TailZero(e[n - 1], e[n - 2]);
      XorZero(0, Tail(e[n - 1], e[n - 2]));
    }
  }

  /** Payloads of one length that differ at most within two adjacent bytes have
      the same checksum only if they are the same payload, for every length and
      every position of the pair. */
  lemma AdjacentBytesDetected(a: seq<Byte>, b: seq<Byte>, i: nat)
    requires |a| == |b|
    requires forall k | 0 <= k < |a| && k != i && k != i + 1 :: a[k] == b[k]
    ensures PayloadCrc(a) == PayloadCrc(b) <==> a == b
  {
    var e := Difference(a, b);
    PayloadCrcLinear(a, b);
    XorZero(PayloadCrc(a), PayloadCrc(b));
    forall k | 0 <= k < |a| ensures e[k] == 0 <==> a[k] == b[k] { XorZero(a[k], b[k]); }
    if i < |a| && (e[i] != 0 || (i + 1 < |a| && e[i + 1] != 0)) {
      BurstChecksum(e, i);
    } else {
      assert a == b;
    }
  }

  /** Every collision of two payloads of one length: the checksum of the
      differing heads equals the difference of the last two bytes. */
  lemma CollisionShape(a: seq<Byte>, b: seq<Byte>)
    requires |a| == |b| >= 2
    ensures var n := |a|; var e := Difference(a, b);
            PayloadCrc(a) == PayloadCrc(b) <==> Feed(0, e[..n - 2]) == Tail(e[n - 1], e[n - 2])
  {
    var e := Difference(a, b);
    PayloadCrcLinear(a, b);
    XorZero(PayloadCrc(a), PayloadCrc(b));
    XorZero(Feed(0, e[..|a| - 2]), Tail(e[|a| - 1], e[|a| - 2]));
  }
}
