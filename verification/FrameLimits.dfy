/** What the decoder does with any input: symbols used, symbols read, errors not seen. */
module FrameLimits {
  import opened Bits
  import opened Crc
  import opened Hamming
  import opened Header
  import opened Interleaver
  import opened Modulo
  import opened Numbers
  import opened Frame
  import opened FrameCorrection

  // Length.

  /** Whole payload blocks that fit into the rows from `at` on. */
  function BlocksAvailable(rows: Rows, at: nat, cr: nat): nat
    requires at <= rows.Len()
  {
    (rows.Len() - at) / (cr + 4)
  }

  lemma {:induction false} MoreLength(sf: nat, ldro: bool, cr: nat, rows: Rows, at: nat, missing: int)
    requires SpreadingFactor(sf) && CodingRate(cr) && at <= rows.Len()
    ensures var n := Min(BlocksAvailable(rows, at, cr), Blocks(missing, BlockSize(sf, ldro)));
            && |MoreDecided(sf, ldro, cr, rows, at, missing)| == n * BlockSize(sf, ldro)
            && MoreEnd(sf, ldro, cr, rows, at, missing) == at + n * (cr + 4)
    decreases missing
  {
    hide DecideBlock, BlocksAvailable, Blocks;
    var size := BlockSize(sf, ldro);
    if missing > 0 && at + cr + 4 <= rows.Len() {
      MoreStep(sf, ldro, cr, rows, at, missing);
      MoreLength(sf, ldro, cr, rows, at + 4 + cr, missing - size);
      BlocksStep(missing, size);
      OneMoreAvailable(rows, at, cr);
      var n := Min(BlocksAvailable(rows, at + 4 + cr, cr), Blocks(missing - size, size));
      Distribute(n, size);
      Distribute(n, cr + 4);
    } else {
      NothingMore(rows, at, cr, missing, size);
    }
  }

  lemma OneMoreAvailable(rows: Rows, at: nat, cr: nat)
    requires at + cr + 4 <= rows.Len()
    ensures BlocksAvailable(rows, at, cr) == 1 + BlocksAvailable(rows, at + 4 + cr, cr) && BlocksAvailable(rows, at + 4 + cr, cr) >= 0
  {
    DivShift(rows.Len() - at - (cr + 4), cr + 4);
  }

  lemma NothingMore(rows: Rows, at: nat, cr: nat, missing: int, size: nat)
    requires size > 0 && at <= rows.Len()
    requires missing <= 0 || at + cr + 4 > rows.Len()
    ensures Min(BlocksAvailable(rows, at, cr), Blocks(missing, size)) == 0
  {
    if missing > 0 {
      DivUnique(rows.Len() - at, 0, cr + 4, rows.Len() - at);
      BlocksStep(missing, size);
    }
  }

  /** So many blocks, and no fewer, hold `missing` nibbles. */
  lemma BlocksSuffice(n: nat, missing: int, size: nat)
    requires size > 0
    ensures n * size >= missing <==> n >= Blocks(missing, size)
  {
    var b := Blocks(missing, size);
    if missing > 0 {
      var q := Quotient(missing + size - 1, size);
      DivUnique(missing + size - 1, q, size, (missing + size - 1) % size);
      assert q == b;
      if n >= b { MulAtMost(b, n, size); } else { MulAtMost(n, b - 1, size); SubMul(b, 1, size); }
    } else {
      MulAtMost(0, n, size);
    }
  }

  lemma MulAtMost(a: int, b: int, n: nat)
    requires a <= b
    ensures a * n <= b * n
  {
  }

  lemma BlocksFit(n: nat, b: nat, unit: nat)
    requires unit > 0
    ensures n >= b * unit <==> n / unit >= b
  {
    var q := Quotient(n, unit);
    DivUnique(n, q, unit, n % unit);
    if q >= b { MulAtMost(b, q, unit); } else { MulAtMost(q, b - 1, unit); SubMul(b, 1, unit); }
  }

  function SentParams(p: Params, header: HeaderInfo): Params {
    Params(p.sf, header.cr, header.hasCrc, p.ldro)
  }

  /** Exact length, for any rows whose header reads valid: the payload appears
      exactly when the number of symbols the header announces is there, and then
      exactly that many are used; otherwise all whole blocks are used up. */
  lemma LengthDecides(p: Params, rows: Rows)
    requires SpreadingFactor(p.sf) && rows.Len() >= 8 && HeaderOf(p, rows).valid
    ensures var r := DecodedFrame(p, rows);
            var count := FrameSymbolCount(SentParams(p, r.header), r.header.payloadLen);
            && r.header == HeaderOf(p, rows)
            && (if rows.Len() >= count
                then |r.payload| == r.header.payloadLen > 0 && r.symbolsConsumed == count
                else r.payload == [] && !r.crcOk &&
                     r.symbolsConsumed == 8 + BlocksAvailable(rows, 8, r.header.cr) * (r.header.cr + 4))
  {
    hide DecideBlock, ParseHeader, MoreDecided, MoreEnd, ReadPayload, ReadCrc, PayloadCrc, TailMargin, BlocksAvailable, Blocks,
      FrameSymbolCount, Nibbles, CrcPasses;
    var h := HeaderOf(p, rows);
    var size := BlockSize(p.sf, p.ldro);
    var missing := NibblesNeeded(h.payloadLen, h.hasCrc) - (p.sf - 2);
    MoreLength(p.sf, p.ldro, h.cr, rows, 8, missing);
    CountIsBlocks(SentParams(p, h), h.payloadLen);
    EnoughBlocks(rows, h.cr, missing, size);
  }

  lemma CountIsBlocks(p: Params, payloadLen: nat)
    requires ValidParams(p)
    ensures FrameSymbolCount(p, payloadLen) ==
            8 + Blocks(NibblesNeeded(payloadLen, p.hasCrc) - (p.sf - 2), BlockSize(p.sf, p.ldro)) * (p.cr + 4)
  {
  }

  lemma EnoughBlocks(rows: Rows, cr: nat, missing: int, size: nat)
    requires size > 0 && rows.Len() >= 8
    ensures var b, available := Blocks(missing, size), BlocksAvailable(rows, 8, cr);
            && b >= 0
            && (rows.Len() >= 8 + b * (cr + 4) <==> available >= b)
            && (Min(available, b) * size >= missing <==> available >= b)
  {
    var b, available := Blocks(missing, size), BlocksAvailable(rows, 8, cr);
    BlocksFit(rows.Len() - 8, b, cr + 4);
    BlocksSuffice(Min(available, b), missing, size);
  }

  // Locality.

  /** The first n rows. */
  function First(rows: Rows, n: nat): (r: Rows)
    requires n <= rows.Len()
    ensures r.Len() == n
  {
    match rows
    case Hard(values) => Hard(values[..n])
    case Soft(soft) => Soft(soft[..n])
  }

  lemma DecideOneLocal(sf: nat, rows: Rows, n: nat, at: nat, cr: nat, reduced: bool, c: nat)
    requires SpreadingFactor(sf) && CodingRate(cr) && at + 4 + cr <= n <= rows.Len() && c < BlockSize(sf, reduced)
    ensures DecideOne(sf, First(rows, n), at, cr, reduced, c) == DecideOne(sf, rows, at, cr, reduced, c)
  {
    match rows
    case Hard(values) =>
      assert HardWords(values[..n], at, 4 + cr, sf, reduced) == HardWords(values, at, 4 + cr, sf, reduced);
    case Soft(soft) =>
      var size := BlockSize(sf, reduced);
      assert CodewordLlrs(soft[..n], at, cr, size, reduced, c) == CodewordLlrs(soft, at, cr, size, reduced, c);
  }

  lemma DecideBlockLocal(sf: nat, rows: Rows, n: nat, at: nat, cr: nat, reduced: bool)
    requires SpreadingFactor(sf) && CodingRate(cr) && at + 4 + cr <= n <= rows.Len()
    ensures DecideBlock(sf, First(rows, n), at, cr, reduced) == DecideBlock(sf, rows, at, cr, reduced)
  {
    hide DecideOne, First;
    var a, b := DecideBlock(sf, First(rows, n), at, cr, reduced), DecideBlock(sf, rows, at, cr, reduced);
    forall c: nat | c < |a| ensures a[c] == b[c] {
      DecideOneLocal(sf, rows, n, at, cr, reduced, c);
    }
  }

  /** Cutting the rows where the decoder stopped changes nothing. */
  lemma {:induction false} MoreLocal(sf: nat, ldro: bool, cr: nat, rows: Rows, at: nat, missing: int, n: nat)
    requires SpreadingFactor(sf) && CodingRate(cr) && at <= rows.Len()
    requires n == MoreEnd(sf, ldro, cr, rows, at, missing)
    ensures at <= n <= rows.Len()
    ensures MoreDecided(sf, ldro, cr, First(rows, n), at, missing) == MoreDecided(sf, ldro, cr, rows, at, missing)
    ensures MoreEnd(sf, ldro, cr, First(rows, n), at, missing) == n
    decreases missing
  {
    hide DecideBlock, First;
    if missing > 0 && at + 4 + cr <= rows.Len() {
      MoreLocal(sf, ldro, cr, rows, at + 4 + cr, missing - BlockSize(sf, ldro), n);
      DecideBlockLocal(sf, rows, n, at, cr, ldro);
    }
  }

  /** The result depends on the symbols the decoder reports as consumed and on
      nothing after them; its header depends on the first eight alone. */
  lemma ConsumedRowsDecide(p: Params, rows: Rows)
    requires SpreadingFactor(p.sf)
    ensures var r := DecodedFrame(p, rows);
            && r.symbolsConsumed <= rows.Len()
            && DecodedFrame(p, First(rows, r.symbolsConsumed)) == r
            && (rows.Len() >= 8 ==> r.symbolsConsumed >= 8 && DecodedFrame(p, First(rows, 8)).header == r.header)
  {
    hide DecideBlock, First, ParseHeader, ReadPayload, ReadCrc, PayloadCrc, TailMargin;
    if rows.Len() >= 8 {
      DecideBlockLocal(p.sf, rows, 8, 0, 4, true);
      var h := HeaderOf(p, rows);
      assert HeaderOf(p, First(rows, 8)) == h;
      assert DecodedFrame(p, First(rows, 8)).header == h;
      if h.valid {
        var n := AllEnd(p, rows, h);
        MoreLocal(p.sf, p.ldro, h.cr, rows, 8, NibblesNeeded(h.payloadLen, h.hasCrc) - (p.sf - 2), n);
        DecideBlockLocal(p.sf, rows, n, 0, 4, true);
        FirstKind(rows, n);
        assert AllDecided(p, First(rows, n), h) == AllDecided(p, rows, h);
        assert DecodedFrame(p, rows).symbolsConsumed == n;
      }
    }
  }

  lemma FirstKind(rows: Rows, n: nat)
    requires n <= rows.Len()
    ensures First(rows, n).Soft? == rows.Soft?
  {
  }

  // The tail of the payload and the checksum.

  /** The four pairs of a tail nibble and its checksum partner carry the same
      change. */
  predicate TailChangesCancel(ns: seq<Nibble>, ms: seq<Nibble>, len: nat)
    requires len >= 2 && NibblesNeeded(len, true) <= |ns| && NibblesNeeded(len, true) <= |ms|
  {
    var a, c := 5 + 2 * (len - 2), 5 + 2 * len;
    && Xor(ns[a + 2], ms[a + 2]) == Xor(ns[c], ms[c])
    && Xor(ns[a + 3], ms[a + 3]) == Xor(ns[c + 1], ms[c + 1])
    && Xor(ns[a], ms[a]) == Xor(ns[c + 2], ms[c + 2])
    && Xor(ns[a + 1], ms[a + 1]) == Xor(ns[c + 3], ms[c + 3])
  }

  lemma FullByteBit(low: Nibble, high: Nibble, k: nat)
    ensures Bit(FullByte(low, high), k) == if k < 4 then Bit(low, k) else Bit(high, k - 4)
  {
    var l: nat, h: nat := low, high;
    var v: nat := FullByte(low, high);
    Pow2Table();
    assert v == l + 16 * h;
    if k < 4 {
      CutBits(v, 4, k);
      assert v % 16 == l;
    } else {
      ShrBit(v, 4, k - 4);
      assert Shr(v, 4) == Shr(v / 2, 3) == Shr(v / 2 / 2, 2) == Shr(v / 2 / 2 / 2, 1) == v / 2 / 2 / 2 / 2;
      assert v / 2 / 2 / 2 / 2 == h;
    }
  }

  lemma FullByteXor(l: Nibble, h: Nibble, l': Nibble, h': Nibble)
    ensures XorNibble(l, l') < 16 && XorNibble(h, h') < 16
    ensures XorByte(FullByte(l, h), FullByte(l', h')) == FullByte(XorNibble(l, l'), XorNibble(h, h'))
  {
    var x, y := XorByte(FullByte(l, h), FullByte(l', h')), FullByte(XorNibble(l, l'), XorNibble(h, h'));
    forall k: nat ensures Bit(x, k) == Bit(y, k) {
      XorBit(FullByte(l, h), FullByte(l', h'), k);
      FullByteBit(l, h, k);
      FullByteBit(l', h', k);
      FullByteBit(XorNibble(l, l'), XorNibble(h, h'), k);
      if k < 4 { XorBit(l, l', k); } else { XorBit(h, h', k - 4); }
    }
    SameBits(x, y);
  }

  function XorNibble(a: Nibble, b: Nibble): Nibble {
    Pow2Table();
    XorBelow(a, b, 4);
    Xor(a, b)
  }

  lemma FullByteInjective(l: Nibble, h: Nibble, l': Nibble, h': Nibble)
    ensures FullByte(l, h) == FullByte(l', h') <==> l == l' && h == h'
  {
  }

  lemma TailInjective(a: Byte, b: Byte, c: Byte, d: Byte)
    ensures Tail(a, b) == Tail(c, d) <==> a == c && b == d
  {
    TailLinear(a, b, c, d);
    XorZero(Tail(a, b), Tail(c, d));
    TailZero(XorByte(a, c), XorByte(b, d));
    XorZero(a, c);
    XorZero(b, d);
  }

  /** The received checksum word is assembled the way the tail bytes enter it. */
  lemma ReadCrcIsTail(ns: seq<Nibble>, c: nat)
    requires c + 4 <= |ns|
    ensures ReadCrc(ns, c) == Tail(FullByte(ns[c], ns[c + 1]), FullByte(ns[c + 2], ns[c + 3]))
  {
    TailIsSum(FullByte(ns[c], ns[c + 1]), FullByte(ns[c + 2], ns[c + 3]));
  }

  lemma TailIsSum(low: Byte, high: Byte)
    ensures Tail(low, high) == low + 256 * (high as nat)
  {
    forall k: nat ensures Bit(Tail(low, high), k) == Bit(low + 256 * (high as nat), k) {
      XorBit(low, Shl(high, 8), k);
      ShlBit(high, 8, k);
      SumBit(low, high, k);
      if 8 <= k { Pow2Table(); HighBit(low, 8, k); }
    }
    SameBits(Tail(low, high), low + 256 * (high as nat));
  }

  lemma SumBit(low: Byte, high: nat, k: nat)
    ensures Bit(low + 256 * high, k) == if k < 8 then Bit(low, k) else Bit(high, k - 8)
  {
    var v: nat := low + 256 * high;
    if k < 8 {
      Pow2Table();
      ModUnique(v, high, 256, low);
      CutBits(v, 8, k);
    } else {
      DivUnique(v, high, 256, low);
      ShrBit(v, 8, k - 8);
      ShrOf256(v);
    }
  }

  lemma ShrOf256(v: nat)
    ensures Shr(v, 8) == v / 256
  {
    var w := v / 2 / 2 / 2 / 2;
    assert Shr(v, 8) == Shr(v / 2, 7) == Shr(v / 2 / 2, 6) == Shr(v / 2 / 2 / 2, 5) == Shr(w, 4);
    assert Shr(w, 4) == Shr(w / 2, 3) == Shr(w / 2 / 2, 2) == Shr(w / 2 / 2 / 2, 1);
    assert w == v / 16 && w / 2 / 2 / 2 / 2 == w / 16;
  }

  /** Whitening drops out of the difference of two payload bytes. */
  lemma ByteDifference(ns: seq<Nibble>, ms: seq<Nibble>, i: nat)
    requires 6 + 2 * i < |ns| && 6 + 2 * i < |ms|
    ensures XorByte(ReadByte(ns, i), ReadByte(ms, i)) ==
            FullByte(XorNibble(ns[5 + 2 * i], ms[5 + 2 * i]), XorNibble(ns[6 + 2 * i], ms[6 + 2 * i]))
  {
    hide Whitening;
    var x, y, w := FullByte(ns[5 + 2 * i], ns[6 + 2 * i]), FullByte(ms[5 + 2 * i], ms[6 + 2 * i]), Whitening(i);
    XorShuffle(x, w, y, w);
    XorZero(w, w);
    XorZero(Xor(x, y), 0);
    FullByteXor(ns[5 + 2 * i], ns[6 + 2 * i], ms[5 + 2 * i], ms[6 + 2 * i]);
  }

  /** Exactly the tail errors the checksum misses: a nibble stream that differs
      from one that passes only in the last two payload bytes and the checksum
      passes too exactly when each of the four nibble pairs carries the same
      change. */
  lemma TailBlindness(ns: seq<Nibble>, ms: seq<Nibble>, len: nat)
    requires len >= 2 && NibblesNeeded(len, true) <= |ns| && NibblesNeeded(len, true) <= |ms|
    requires forall k: nat | k < 5 + 2 * (len - 2) :: ns[k] == ms[k]
    requires CrcPasses(ns, len)
    ensures CrcPasses(ms, len) <==> TailChangesCancel(ns, ms, len)
  {
    hide ReadByte, Tail, Feed, FullByte, ReadCrc, XorNibble;
    var a, c := 5 + 2 * (len - 2), 5 + 2 * len;
    PassesByTail(ns, ms, len);
    TailInjective(FullByte(XorNibble(ns[a + 2], ms[a + 2]), XorNibble(ns[a + 3], ms[a + 3])),
                  FullByte(XorNibble(ns[a], ms[a]), XorNibble(ns[a + 1], ms[a + 1])),
                  FullByte(XorNibble(ns[c], ms[c]), XorNibble(ns[c + 1], ms[c + 1])),
                  FullByte(XorNibble(ns[c + 2], ms[c + 2]), XorNibble(ns[c + 3], ms[c + 3])));
    FullByteInjective(XorNibble(ns[a + 2], ms[a + 2]), XorNibble(ns[a + 3], ms[a + 3]),
                      XorNibble(ns[c], ms[c]), XorNibble(ns[c + 1], ms[c + 1]));
    FullByteInjective(XorNibble(ns[a], ms[a]), XorNibble(ns[a + 1], ms[a + 1]),
                      XorNibble(ns[c + 2], ms[c + 2]), XorNibble(ns[c + 3], ms[c + 3]));
    NibbleXors(ns, ms, a);
  }

  lemma PassesByTail(ns: seq<Nibble>, ms: seq<Nibble>, len: nat)
    requires len >= 2 && NibblesNeeded(len, true) <= |ns| && NibblesNeeded(len, true) <= |ms|
    requires forall k: nat | k < 5 + 2 * (len - 2) :: ns[k] == ms[k]
    requires CrcPasses(ns, len)
    ensures var a, c := 5 + 2 * (len - 2), 5 + 2 * len;
            CrcPasses(ms, len) <==>
            Tail(FullByte(XorNibble(ns[a + 2], ms[a + 2]), XorNibble(ns[a + 3], ms[a + 3])),
                 FullByte(XorNibble(ns[a], ms[a]), XorNibble(ns[a + 1], ms[a + 1])))
            == Tail(FullByte(XorNibble(ns[c], ms[c]), XorNibble(ns[c + 1], ms[c + 1])),
                    FullByte(XorNibble(ns[c + 2], ms[c + 2]), XorNibble(ns[c + 3], ms[c + 3])))
  {
    hide ReadByte, Tail, Feed, FullByte, ReadCrc, XorNibble;
    var c := 5 + 2 * len;
    var p, q := ReadPayload(ns, len), ReadPayload(ms, len);
    SameHeads(ns, ms, len);
    var f := Feed(0, p[..len - 2]);
    var tp, tq := Tail(p[len - 1], p[len - 2]), Tail(q[len - 1], q[len - 2]);
    assert ReadCrc(ns, c) == XorWord(f, tp) && PayloadCrc(q) == XorWord(f, tq);
    PassesByDifference(f, tp, tq, ReadCrc(ns, c), ReadCrc(ms, c));
    TailLinear(p[len - 1], p[len - 2], q[len - 1], q[len - 2]);
    ByteDifference(ns, ms, len - 1);
    ByteDifference(ns, ms, len - 2);
    CrcDifference(ns, ms, c);
  }

  lemma NibbleXors(ns: seq<Nibble>, ms: seq<Nibble>, a: nat)
    requires a + 8 <= |ns| && a + 8 <= |ms|
    ensures forall k | a <= k < a + 8 :: XorNibble(ns[k], ms[k]) == Xor(ns[k], ms[k])
  {
  }

  lemma SameHeads(ns: seq<Nibble>, ms: seq<Nibble>, len: nat)
    requires len >= 2 && NibblesNeeded(len, true) <= |ns| && NibblesNeeded(len, true) <= |ms|
    requires forall k: nat | k < 5 + 2 * (len - 2) :: ns[k] == ms[k]
    ensures ReadPayload(ns, len)[..len - 2] == ReadPayload(ms, len)[..len - 2]
  {
  }

  lemma CrcDifference(ns: seq<Nibble>, ms: seq<Nibble>, c: nat)
    requires c + 4 <= |ns| && c + 4 <= |ms|
    ensures XorWord(ReadCrc(ns, c), ReadCrc(ms, c)) ==
            Tail(FullByte(XorNibble(ns[c], ms[c]), XorNibble(ns[c + 1], ms[c + 1])),
                 FullByte(XorNibble(ns[c + 2], ms[c + 2]), XorNibble(ns[c + 3], ms[c + 3])))
  {
    hide Tail, FullByte, ReadCrc;
    ReadCrcIsTail(ns, c);
    ReadCrcIsTail(ms, c);
    TailLinear(FullByte(ns[c], ns[c + 1]), FullByte(ns[c + 2], ns[c + 3]), FullByte(ms[c], ms[c + 1]), FullByte(ms[c + 2], ms[c + 3]));
    FullByteXor(ns[c], ns[c + 1], ms[c], ms[c + 1]);
    FullByteXor(ns[c + 2], ns[c + 3], ms[c + 2], ms[c + 3]);
  }

  lemma PassesByDifference(f: Word16, tp: Word16, tq: Word16, cn: Word16, cm: Word16)
    requires cn == XorWord(f, tp)
    ensures cm == XorWord(f, tq) <==> XorWord(tp, tq) == XorWord(cn, cm)
  {
    XorZero(f, f);
    XorShuffle(f, tp, f, tq);
    ZeroXor(XorWord(tp, tq));
    XorCancel(cn, cm, XorWord(f, tq));
  }

  lemma ZeroXor(v: nat)
    ensures Xor(0, v) == v
  {
    forall k: nat ensures Bit(Xor(0, v), k) == Bit(v, k) { XorBit(0, v, k); ZeroBit(k); }
    SameBits(Xor(0, v), v);
  }

  lemma XorCancel(a: nat, b: nat, c: nat)
    ensures Xor(a, b) == Xor(a, c) <==> b == c
  {
    XorBack(a, b);
    XorBack(a, c);
  }

  /** What the tail margin is for: two soft decodes of one header that agree up
      to the last two payload bytes, both pass, and are not the same, differ in
      a nibble that the first decided with at least its tail margin. */
  lemma TailMarginGuards(ds: seq<Decided>, es: seq<Decided>, len: nat)
    requires len >= 2 && NibblesNeeded(len, true) <= |ds| && NibblesNeeded(len, true) <= |es|
    requires forall k: nat | k < 5 + 2 * (len - 2) :: Nibbles(ds)[k] == Nibbles(es)[k]
    requires CrcPasses(Nibbles(ds), len) && CrcPasses(Nibbles(es), len)
    requires exists k: nat :: k < NibblesNeeded(len, true) && Nibbles(ds)[k] != Nibbles(es)[k]
    ensures exists k: nat :: k < NibblesNeeded(len, true) && ds[k].nibble != es[k].nibble && ds[k].margin >= TailMargin(ds, len)
  {
    hide CrcPasses;
    var ns, ms := Nibbles(ds), Nibbles(es);
    TailBlindness(ns, ms, len);
    var a, c := 5 + 2 * (len - 2), 5 + 2 * len;
    var k: nat :| k < NibblesNeeded(len, true) && ns[k] != ms[k];
    var x, y := DifferingPair(ns, ms, len, k);
    assert RMax(ds[x].margin, ds[y].margin) >= TailMargin(ds, len);
    var j := if ds[x].margin >= ds[y].margin then x else y;
    assert ds[j].nibble != es[j].nibble && ds[j].margin >= TailMargin(ds, len);
  }

  /** If the tail changes cancel, a changed nibble brings a changed partner. */
  lemma DifferingPair(ns: seq<Nibble>, ms: seq<Nibble>, len: nat, k: nat) returns (x: nat, y: nat)
    requires len >= 2 && NibblesNeeded(len, true) <= |ns| && NibblesNeeded(len, true) <= |ms|
    requires TailChangesCancel(ns, ms, len)
    requires 5 + 2 * (len - 2) <= k < NibblesNeeded(len, true) && ns[k] != ms[k]
    ensures var a, c := 5 + 2 * (len - 2), 5 + 2 * len;
            && ((x == a + 2 && y == c) || (x == a + 3 && y == c + 1) || (x == a && y == c + 2) || (x == a + 1 && y == c + 3))
            && ns[x] != ms[x] && ns[y] != ms[y]
  {
    var a, c := 5 + 2 * (len - 2), 5 + 2 * len;
    if k == a + 2 || k == c { x, y := a + 2, c; }
    else if k == a + 3 || k == c + 1 { x, y := a + 3, c + 1; }
    else if k == a || k == c + 2 { x, y := a, c + 2; }
    else { x, y := a + 1, c + 3; }
    XorZero(ns[x], ms[x]);
    XorZero(ns[y], ms[y]);
  }
}
