/** What the decoder guarantees about whole frames.

    Error correction from hard chip values and from log-likelihoods, exact round
    trips, and the exact length of what the encoder sends. Blocks first: what a
    block tolerates, and that it then reads as sent; frames follow from blocks. */
module FrameCorrection {
  import opened Bits
  import opened Crc
  import opened Gray
  import opened Hamming
  import opened Header
  import opened Interleaver
  import opened Modulo
  import opened SoftHamming
  import opened Numbers
  import opened Frame

  // One block.

  /** The damage to one block that the code of its rate undoes.  At rates 3 and
      4 one symbol may be anything.  At rates 1 and 2 the symbols that only
      carry parity may be anything.  All others must land: on the chip sent, or
      for reduced-rate symbols -1 to +2 chips from it. */
  ghost predicate BlockTolerated(sf: nat, cr: nat, reduced: bool, sent: seq<nat>, raw: seq<nat>, at: nat)
    requires |sent| == 4 + cr && at + 4 + cr <= |raw|
  {
    if cr >= 3 then exists k: nat :: k < 4 + cr && AllButOneLand(sf, reduced, sent, raw, at, k)
    else forall i: nat | i < 4 :: Lands(sf, reduced, sent[i], raw[at + i])
  }

  ghost predicate AllButOneLand(sf: nat, reduced: bool, sent: seq<nat>, raw: seq<nat>, at: nat, k: nat)
    requires at + |sent| <= |raw|
  {
    forall i: nat | i < |sent| && i != k :: Lands(sf, reduced, sent[i], raw[at + i])
  }

  /** A symbol that lands is read back with its data bits. */
  lemma LandedSymbolCarries(sf: nat, cr: nat, reduced: bool, block: seq<Nibble>, i: nat, raw: nat)
    requires SpreadingFactor(sf) && CodingRate(cr) && |block| == BlockSize(sf, reduced) && i < 4 + cr
    requires Lands(sf, reduced, BlockChip(sf, cr, reduced, block, i), raw)
    ensures Carries(WordRead(sf, reduced, raw), Codewords(block, cr), 4 + cr, i)
  {
    var cw := Codewords(block, cr);
    var word := BlockWord(sf, cr, reduced, block, i);
    if reduced {
      ReducedSymbol(cw, sf, 4 + cr, i);
      ReducedRead(sf, word, raw);
    } else {
      FullSymbolCarries(cw, sf, 4 + cr, i);
      PlainRead(sf, word, raw);
    }
  }

  /** A tolerated block decodes to its nibbles. */
  lemma BlockSurvives(sf: nat, cr: nat, reduced: bool, block: seq<Nibble>, raw: seq<nat>, at: nat, c: nat)
    requires SpreadingFactor(sf) && CodingRate(cr) && |block| == BlockSize(sf, reduced) && at + 4 + cr <= |raw|
    requires BlockTolerated(sf, cr, reduced, BlockChips(sf, cr, reduced, block), raw, at)
    requires c < |block|
    ensures DecideOne(sf, Hard(raw), at, cr, reduced, c).nibble == block[c]
  {
    var sent := BlockChips(sf, cr, reduced, block);
    var cw := Codewords(block, cr);
    var words := HardWords(raw, at, 4 + cr, sf, reduced);
    var got := Gathered(words, |block|, 4 + cr, c, 4 + cr);
    var k: nat := 4 + cr;
    if cr >= 3 {
      k :| k < 4 + cr && AllButOneLand(sf, reduced, sent, raw, at, k);
    }
    forall i: nat | i < 4 + cr && (if cr >= 3 then i != k else i < 4)
      ensures Carries(words[i], cw, 4 + cr, i)
    {
      assert Lands(sf, reduced, sent[i], raw[at + i]);
      LandedSymbolCarries(sf, cr, reduced, block, i, raw[at + i]);
    }
    forall i: nat | i < 4 + cr && (if cr >= 3 then i != k else i < 4)
      ensures CodeBit(got, cr, i) == CodeBit(cw[c], cr, i)
    {
      CarriedBit(words, cw, cr, c, i);
    }
    if cr >= 3 {
      HammingCorrects(block[c], cr, got, k);
    } else {
      DataBitsDecide(block[c], cr, got);
    }
  }

  /** One carried symbol is enough for one bit of every codeword. */
  lemma CarriedBit(words: seq<nat>, cw: seq<nat>, cr: nat, c: nat, i: nat)
    requires |cw| > 0 && |words| == 4 + cr && c < |cw| && i < 4 + cr
    requires Carries(words[i], cw, 4 + cr, i)
    ensures CodeBit(Gathered(words, |cw|, 4 + cr, c, 4 + cr), cr, i) == CodeBit(cw[c], cr, i)
  {
    var b := 3 + cr - i;
    GatheredBit(words, |cw|, 4 + cr, c, 4 + cr, b);
    OwnerInverse(i, c, |cw|);
    assert DataBit(words[i], |cw|, Owner(i, c, |cw|)) == DataBits(cw, 4 + cr, i)[Owner(i, c, |cw|)];
  }

  /** At rates 1 and 2 the decoder looks at the four data bits only. */
  lemma DataBitsDecide(nibble: Nibble, cr: nat, cw: nat)
    requires 1 <= cr <= 2
    requires forall i: nat | i < 4 :: CodeBit(cw, cr, i) == CodeBit(HammingEncode(nibble, cr), cr, i)
    ensures HammingDecode(cw, cr) == nibble
  {
    Pow2Table();
    forall k: nat ensures Bit(HammingDecode(cw, cr), k) == Bit(nibble, k) {
      DecodedBit(cw, cr, k);
      if k < 4 { EncodedBits(nibble, cr, k); } else { HighBit(nibble, 4, k); }
    }
    SameBits(HammingDecode(cw, cr), nibble);
  }

  /** What is wrong with codeword c as gathered from the block. */
  function ErrorPattern(sf: nat, cr: nat, reduced: bool, block: seq<Nibble>, raw: seq<nat>, at: nat, c: nat): nat
    requires SpreadingFactor(sf) && CodingRate(cr) && |block| == BlockSize(sf, reduced) && at + 4 + cr <= |raw| && c < |block|
  {
    Xor(HammingEncode(block[c], cr), Gathered(HardWords(raw, at, 4 + cr, sf, reduced), |block|, 4 + cr, c, 4 + cr))
  }

  /** Bit i of the pattern says whether symbol i was read with the wrong bit for codeword c. */
  lemma PatternBit(sf: nat, cr: nat, reduced: bool, block: seq<Nibble>, raw: seq<nat>, at: nat, c: nat, i: nat)
    requires SpreadingFactor(sf) && CodingRate(cr) && |block| == BlockSize(sf, reduced) && at + 4 + cr <= |raw| && c < |block| && i < 4 + cr
    ensures CodeBit(ErrorPattern(sf, cr, reduced, block, raw, at, c), cr, i) <==>
            DataBit(WordRead(sf, reduced, raw[at + i]), |block|, Owner(i, c, |block|)) != CodeBit(HammingEncode(block[c], cr), cr, i)
  {
    var words := HardWords(raw, at, 4 + cr, sf, reduced);
    var got := Gathered(words, |block|, 4 + cr, c, 4 + cr);
    XorCodeBit(HammingEncode(block[c], cr), got, cr, i);
    GatheredBit(words, |block|, 4 + cr, c, 4 + cr, 3 + cr - i);
    hide HammingEncode, Gathered, WordRead;
  }

  /** At any rate the block decodes to its nibbles exactly when the decoder maps
      the error pattern of each of its codewords to zero. */
  lemma BlockExact(sf: nat, cr: nat, reduced: bool, block: seq<Nibble>, raw: seq<nat>, at: nat)
    requires SpreadingFactor(sf) && CodingRate(cr) && |block| == BlockSize(sf, reduced) && at + 4 + cr <= |raw|
    ensures (forall c: nat | c < |block| :: DecideOne(sf, Hard(raw), at, cr, reduced, c).nibble == block[c])
            <==> forall c: nat | c < |block| :: HammingDecode(ErrorPattern(sf, cr, reduced, block, raw, at, c), cr) == 0
  {
    hide HammingDecode, HammingEncode, Gathered;
    forall c: nat | c < |block|
      ensures DecideOne(sf, Hard(raw), at, cr, reduced, c).nibble == block[c]
              <==> HammingDecode(ErrorPattern(sf, cr, reduced, block, raw, at, c), cr) == 0
    {
      Recovered(block[c], ErrorPattern(sf, cr, reduced, block, raw, at, c), cr);
      XorBack(HammingEncode(block[c], cr), Gathered(HardWords(raw, at, 4 + cr, sf, reduced), |block|, 4 + cr, c, 4 + cr));
    }
  }

  /** At rates 1 and 2 nothing less is enough: the block decodes to its nibbles
      exactly when its four data symbols land. */
  lemma LowRateExact(sf: nat, cr: nat, reduced: bool, block: seq<Nibble>, raw: seq<nat>, at: nat)
    requires SpreadingFactor(sf) && 1 <= cr <= 2 && |block| == BlockSize(sf, reduced) && at + 4 + cr <= |raw|
    ensures (forall c: nat | c < |block| :: DecideOne(sf, Hard(raw), at, cr, reduced, c).nibble == block[c])
            <==> BlockTolerated(sf, cr, reduced, BlockChips(sf, cr, reduced, block), raw, at)
  {
    var sent := BlockChips(sf, cr, reduced, block);
    if BlockTolerated(sf, cr, reduced, sent, raw, at) {
      forall c: nat | c < |block| ensures DecideOne(sf, Hard(raw), at, cr, reduced, c).nibble == block[c] {
        BlockSurvives(sf, cr, reduced, block, raw, at, c);
      }
    }
    if forall c: nat | c < |block| :: DecideOne(sf, Hard(raw), at, cr, reduced, c).nibble == block[c] {
      forall i: nat | i < 4 ensures Lands(sf, reduced, sent[i], raw[at + i]) {
        DecodedSymbolLanded(sf, cr, reduced, block, raw, at, i);
      }
    }
  }

  /** A data symbol whose bits all decode correctly at rate 1 or 2 landed. */
  lemma DecodedSymbolLanded(sf: nat, cr: nat, reduced: bool, block: seq<Nibble>, raw: seq<nat>, at: nat, i: nat)
    requires SpreadingFactor(sf) && 1 <= cr <= 2 && |block| == BlockSize(sf, reduced) && at + 4 + cr <= |raw| && i < 4
    requires forall c: nat | c < |block| :: DecideOne(sf, Hard(raw), at, cr, reduced, c).nibble == block[c]
    ensures Lands(sf, reduced, BlockChip(sf, cr, reduced, block, i), raw[at + i])
  {
    hide DecideOne, DataBits, Symbol, Chip, WordRead;
    var cw := Codewords(block, cr);
    var word := BlockWord(sf, cr, reduced, block, i);
    var size := |block|;
    var read := WordRead(sf, reduced, raw[at + i]);
    var sentData := if reduced then Shr(word, 2) else word;
    if reduced { ReducedSymbol(cw, sf, 4 + cr, i); } else { FullSymbolCarries(cw, sf, 4 + cr, i); }
    WordReadBelow(sf, reduced, raw[at + i]);
    forall k: nat ensures Bit(read, k) == Bit(sentData, k) {
      if k < size {
        ReadBitIsSent(sf, cr, reduced, block, raw, at, i, sentData, size - 1 - k);
      } else {
        HighBit(read, size, k);
        ShrBit(word, 2, k);
        HighBit(word, sf, if reduced then k + 2 else k);
      }
    }
    SameBits(read, sentData);
    if reduced { ReducedRead(sf, word, raw[at + i]); } else { PlainRead(sf, word, raw[at + i]); }
  }

  lemma ReadBitIsSent(sf: nat, cr: nat, reduced: bool, block: seq<Nibble>, raw: seq<nat>, at: nat, i: nat, sent: nat, j: nat)
    requires SpreadingFactor(sf) && 1 <= cr <= 2 && |block| == BlockSize(sf, reduced) && at + 4 + cr <= |raw| && i < 4
    requires j < |block|
    requires forall c: nat | c < |block| :: DecideOne(sf, Hard(raw), at, cr, reduced, c).nibble == block[c]
    requires Carries(sent, Codewords(block, cr), 4 + cr, i)
    ensures DataBit(WordRead(sf, reduced, raw[at + i]), |block|, j) == DataBit(sent, |block|, j)
  {
    var cw := Codewords(block, cr);
    var c := Owner(i, j, |block|);
    assert DecideOne(sf, Hard(raw), at, cr, reduced, c).nibble == block[c];
    DataBitRead(sf, cr, reduced, raw, at, i, c);
    OwnerInverse(i, j, |block|);
    EncodedBits(block[c], cr, i);
    assert DataBit(sent, |block|, j) == DataBits(cw, 4 + cr, i)[j];
  }

  /** At rates 1 and 2 bit i of a decoded nibble is the bit read from symbol i. */
  lemma DataBitRead(sf: nat, cr: nat, reduced: bool, raw: seq<nat>, at: nat, i: nat, c: nat)
    requires SpreadingFactor(sf) && 1 <= cr <= 2 && at + 4 + cr <= |raw| && i < 4 && c < BlockSize(sf, reduced)
    ensures Bit(DecideOne(sf, Hard(raw), at, cr, reduced, c).nibble, i) ==
            DataBit(WordRead(sf, reduced, raw[at + i]), BlockSize(sf, reduced), Owner(i, c, BlockSize(sf, reduced)))
  {
    var size := BlockSize(sf, reduced);
    var words := HardWords(raw, at, 4 + cr, sf, reduced);
    var got := Gathered(words, size, 4 + cr, c, 4 + cr);
    DecodedBit(got, cr, i);
    GatheredBit(words, size, 4 + cr, c, 4 + cr, 3 + cr - i);
  }

  lemma WordReadBelow(sf: nat, reduced: bool, raw: nat)
    requires SpreadingFactor(sf)
    ensures WordRead(sf, reduced, raw) < Pow2(BlockSize(sf, reduced))
  {
    var n := Pow2(sf);
    assert n == 2 * Pow2(sf - 1) == 4 * Pow2(sf - 2);
    var b := if reduced then ReducedValue(raw, n) else (raw + n - 1) % n;
    var size := BlockSize(sf, reduced);
    assert b < Pow2(size);
    forall k: nat | size <= k ensures !Bit(GrayEncode(b), k) {
      GrayEncodeBit(b, k);
      HighBit(b, size, k);
      HighBit(b, size, k + 1);
    }
    BelowPow2(GrayEncode(b), size);
  }

  // Whole frames, from blocks that read right.

  ghost predicate BlockReads(sf: nat, rows: Rows, at: nat, cr: nat, reduced: bool, block: seq<Nibble>)
    requires SpreadingFactor(sf) && CodingRate(cr)
  {
    && at + 4 + cr <= rows.Len() && |block| == BlockSize(sf, reduced)
    && forall c: nat | c < |block| :: DecideOne(sf, rows, at, cr, reduced, c).nibble == block[c]
  }

  /** The payload blocks, from nibble `idx` and row `at` on, all read right. */
  ghost predicate RestReads(p: Params, ns: seq<Nibble>, rows: Rows, at: nat, idx: nat)
    requires ValidParams(p)
    decreases |ns| - idx
  {
    var size := BlockSize(p.sf, p.ldro);
    idx < |ns| ==>
      && BlockReads(p.sf, rows, at, p.cr, p.ldro, Padded(ns, idx, size))
      && RestReads(p, ns, rows, at + 4 + p.cr, idx + size)
  }

  lemma BlockNibbles(sf: nat, rows: Rows, at: nat, cr: nat, reduced: bool, block: seq<Nibble>, c: nat)
    requires SpreadingFactor(sf) && CodingRate(cr) && BlockReads(sf, rows, at, cr, reduced, block) && c < |block|
    ensures DecideBlock(sf, rows, at, cr, reduced)[c].nibble == block[c]
  {
  }

  lemma {:induction false} RestDecoded(p: Params, ns: seq<Nibble>, rows: Rows, at: nat, idx: nat, k: nat)
    requires ValidParams(p) && RestReads(p, ns, rows, at, idx) && idx + k < |ns|
    ensures var ds := MoreDecided(p.sf, p.ldro, p.cr, rows, at, |ns| - idx);
            k < |ds| && ds[k].nibble == ns[idx + k]
    decreases |ns| - idx
  {
    hide DecideBlock, DecideOne, Padded;
    var size := BlockSize(p.sf, p.ldro);
    MoreStep(p.sf, p.ldro, p.cr, rows, at, |ns| - idx);
    var block := Padded(ns, idx, size);
    if k < size {
      BlockNibbles(p.sf, rows, at, p.cr, p.ldro, block, k);
    } else {
      RestDecoded(p, ns, rows, at + 4 + p.cr, idx + size, k - size);
    }
  }

  lemma {:induction false} RestEnd(p: Params, ns: seq<Nibble>, rows: Rows, at: nat, idx: nat)
    requires ValidParams(p) && RestReads(p, ns, rows, at, idx)
    ensures MoreEnd(p.sf, p.ldro, p.cr, rows, at, |ns| - idx) == at + |ChipsFrom(p, ns, idx)|
    decreases |ns| - idx
  {
    hide DecideBlock, BlockChips;
    if idx < |ns| {
      var size := BlockSize(p.sf, p.ldro);
      MoreStep(p.sf, p.ldro, p.cr, rows, at, |ns| - idx);
      ChipsStep(p, ns, idx);
      RestEnd(p, ns, rows, at + 4 + p.cr, idx + size);
    }
  }

  /** Number of payload blocks for n nibbles. */
  function Blocks(n: int, size: nat): nat
    requires size > 0
  {
    if n <= 0 then 0 else (n + size - 1) / size
  }

  lemma BlocksStep(n: int, size: nat)
    requires size > 0 && n > 0
    ensures Blocks(n, size) == 1 + Blocks(n - size, size)
  {
    DivShift(n - 1, size);
    if n <= size { DivUnique(n - 1, 0, size, n - 1); }
  }

  lemma {:induction false} RestLength(p: Params, ns: seq<Nibble>, idx: nat)
    requires ValidParams(p)
    ensures |ChipsFrom(p, ns, idx)| == Blocks(|ns| - idx, BlockSize(p.sf, p.ldro)) * (p.cr + 4)
    decreases |ns| - idx
  {
    hide BlockChips;
    if idx < |ns| {
      var size := BlockSize(p.sf, p.ldro);
      ChipsStep(p, ns, idx);
      RestLength(p, ns, idx + size);
      BlocksStep(|ns| - idx, size);
      Distribute(Blocks(|ns| - idx - size, size), p.cr + 4);
    }
  }

  lemma Distribute(b: nat, c: nat)
    ensures (1 + b) * c == c + b * c
  {
  }

  /** The encoder emits exactly the announced number of symbols. */
  lemma FrameLength(p: Params, payload: seq<Byte>)
    requires ValidParams(p)
    ensures |FrameChips(p, payload)| == FrameSymbolCount(p, |payload|)
  {
    hide BlockChips, Stream, Padded;
    RestLength(p, Stream(payload, p.cr, p.hasCrc), p.sf - 2);
  }

  /** The result of a successful decode of a frame sent with parameters p. */
  function Delivered(p: Params, payload: seq<Byte>, tailMargin: real): DecodeResult
    requires ValidParams(p) && |payload| <= 255
  {
    var crc := if p.hasCrc then PayloadCrc(payload) else 0;
    DecodeResult(HeaderInfo(true, |payload|, p.cr, p.hasCrc), true, crc, crc, payload, FrameSymbolCount(p, |payload|), tailMargin)
  }

  lemma HeaderDecoded(p: Params, payload: seq<Byte>, rows: Rows)
    requires ValidParams(p)
    requires BlockReads(p.sf, rows, 0, 4, true, Padded(Stream(payload, p.cr, p.hasCrc), 0, p.sf - 2))
    ensures HeaderOf(p, rows) == HeaderInfo(|payload| % 256 != 0, |payload| % 256, p.cr, p.hasCrc)
  {
    hide DecideBlock;
    var ns := Stream(payload, p.cr, p.hasCrc);
    var built := BuildHeader(|payload| % 256, p.cr, p.hasCrc);
    var read := Nibbles(HeaderBlock(p.sf, rows));
    forall c: nat | c < 5 ensures read[c] == built[c] {
      BlockNibbles(p.sf, rows, 0, 4, true, Padded(ns, 0, p.sf - 2), c);
      assert ns[c] == built[c];
    }
    SameHeader(read, built);
    HeaderRoundTrip(|payload| % 256, p.cr, p.hasCrc);
  }

  lemma SameHeader(a: seq<Nibble>, b: seq<Nibble>)
    requires |a| >= 5 && |b| >= 5 && forall c: nat | c < 5 :: a[c] == b[c]
    ensures ParseHeader(a) == ParseHeader(b)
  {
  }

  /** If every block reads right, the frame is delivered, whatever rate and
      checksum flag the receiver is set to and whatever rows follow. */
  lemma FrameDecoded(p: Params, q: Params, payload: seq<Byte>, rows: Rows)
    requires ValidParams(p) && q.sf == p.sf && q.ldro == p.ldro && 1 <= |payload| <= 255
    requires var ns := Stream(payload, p.cr, p.hasCrc);
             BlockReads(p.sf, rows, 0, 4, true, Padded(ns, 0, p.sf - 2)) && RestReads(p, ns, rows, 8, p.sf - 2)
    ensures DecodedFrame(q, rows) == Delivered(p, payload, DecodedFrame(q, rows).tailMargin)
  {
    hide DecideBlock, DecideOne, Stream, Padded, HeaderBlock, Nibbles, FrameChips, PayloadCrc, ParseHeader, ReadPayload, ReadCrc, TailMargin;
    var ns := Stream(payload, p.cr, p.hasCrc);
    HeaderDecoded(p, payload, rows);
    var header := HeaderInfo(true, |payload|, p.cr, p.hasCrc);
    assert HeaderOf(q, rows) == HeaderOf(p, rows) == header;
    var ds := AllDecided(q, rows, header);
    StreamDecoded(p, payload, rows);
    StreamRoundTrip(payload, p.cr, p.hasCrc, Nibbles(ds));
    EndIsCount(p, payload, rows);
  }

  lemma EndIsCount(p: Params, payload: seq<Byte>, rows: Rows)
    requires ValidParams(p) && RestReads(p, Stream(payload, p.cr, p.hasCrc), rows, 8, p.sf - 2)
    ensures MoreEnd(p.sf, p.ldro, p.cr, rows, 8, NibblesNeeded(|payload|, p.hasCrc) - (p.sf - 2)) == FrameSymbolCount(p, |payload|)
  {
    hide BlockChips, Stream, Padded;
    RestEnd(p, Stream(payload, p.cr, p.hasCrc), rows, 8, p.sf - 2);
    FrameLength(p, payload);
  }

  lemma StreamDecoded(p: Params, payload: seq<Byte>, rows: Rows)
    requires ValidParams(p) && 1 <= |payload| <= 255
    requires var ns := Stream(payload, p.cr, p.hasCrc);
             BlockReads(p.sf, rows, 0, 4, true, Padded(ns, 0, p.sf - 2)) && RestReads(p, ns, rows, 8, p.sf - 2)
    ensures Stream(payload, p.cr, p.hasCrc) <= Nibbles(AllDecided(p, rows, HeaderInfo(true, |payload|, p.cr, p.hasCrc)))
  {
    hide DecideBlock, DecideOne, Stream, Padded, PayloadCrc;
    var ns := Stream(payload, p.cr, p.hasCrc);
    var ds := AllDecided(p, rows, HeaderInfo(true, |payload|, p.cr, p.hasCrc));
    StreamNibbleDecoded(p, payload, rows, |ns| - 1);
    forall k: nat | k < |ns| ensures ns[k] == Nibbles(ds)[k] {
      StreamNibbleDecoded(p, payload, rows, k);
    }
  }

  lemma StreamNibbleDecoded(p: Params, payload: seq<Byte>, rows: Rows, k: nat)
    requires ValidParams(p) && 1 <= |payload| <= 255
    requires var ns := Stream(payload, p.cr, p.hasCrc);
             BlockReads(p.sf, rows, 0, 4, true, Padded(ns, 0, p.sf - 2)) && RestReads(p, ns, rows, 8, p.sf - 2)
             && k < |ns|
    ensures var ds := AllDecided(p, rows, HeaderInfo(true, |payload|, p.cr, p.hasCrc));
            k < |ds| && ds[k].nibble == Stream(payload, p.cr, p.hasCrc)[k]
  {
    hide DecideBlock, DecideOne, Stream, Padded, PayloadCrc;
    var ns := Stream(payload, p.cr, p.hasCrc);
    if k < p.sf - 2 {
      BlockNibbles(p.sf, rows, 0, 4, true, Padded(ns, 0, p.sf - 2), k);
    } else {
      RestDecoded(p, ns, rows, 8, p.sf - 2, k - (p.sf - 2));
    }
  }

  // Hard decoding.

  /** Every payload block is damaged at most as its rate tolerates. */
  ghost predicate RestTolerated(p: Params, ns: seq<Nibble>, raw: seq<nat>, at: nat, idx: nat)
    requires ValidParams(p)
    decreases |ns| - idx
  {
    var size := BlockSize(p.sf, p.ldro);
    idx < |ns| ==>
      && at + 4 + p.cr <= |raw|
      && BlockTolerated(p.sf, p.cr, p.ldro, BlockChips(p.sf, p.cr, p.ldro, Padded(ns, idx, size)), raw, at)
      && RestTolerated(p, ns, raw, at + 4 + p.cr, idx + size)
  }

  /** `raw` is what was received of the frame: it may be longer than the frame,
      and in each block it strays from the chips sent as far as tolerated. */
  ghost predicate FrameTolerated(p: Params, payload: seq<Byte>, raw: seq<nat>)
    requires ValidParams(p)
  {
    var ns := Stream(payload, p.cr, p.hasCrc);
    && |raw| >= 8
    && BlockTolerated(p.sf, 4, true, BlockChips(p.sf, 4, true, Padded(ns, 0, p.sf - 2)), raw, 0)
    && RestTolerated(p, ns, raw, 8, p.sf - 2)
  }

  lemma ToleratedBlockReads(sf: nat, cr: nat, reduced: bool, block: seq<Nibble>, raw: seq<nat>, at: nat)
    requires SpreadingFactor(sf) && CodingRate(cr) && |block| == BlockSize(sf, reduced) && at + 4 + cr <= |raw|
    requires BlockTolerated(sf, cr, reduced, BlockChips(sf, cr, reduced, block), raw, at)
    ensures BlockReads(sf, Hard(raw), at, cr, reduced, block)
  {
    hide DecideOne, BlockTolerated;
    forall c: nat | c < |block| ensures DecideOne(sf, Hard(raw), at, cr, reduced, c).nibble == block[c] {
      BlockSurvives(sf, cr, reduced, block, raw, at, c);
    }
  }

  lemma {:induction false} ToleratedRestReads(p: Params, ns: seq<Nibble>, raw: seq<nat>, at: nat, idx: nat)
    requires ValidParams(p) && RestTolerated(p, ns, raw, at, idx)
    ensures RestReads(p, ns, Hard(raw), at, idx)
    decreases |ns| - idx
  {
    hide BlockTolerated, BlockReads, Padded, BlockChips;
    if idx < |ns| {
      var size := BlockSize(p.sf, p.ldro);
      ToleratedBlockReads(p.sf, p.cr, p.ldro, Padded(ns, idx, size), raw, at);
      ToleratedRestReads(p, ns, raw, at + 4 + p.cr, idx + size);
    }
  }

  /** Error correction for whole frames: whatever replaced one symbol of the
      header block and, at rates 3 and 4, one of each payload block, and however
      the other symbols strayed within their windows, the frame is delivered. */
  lemma DamagedFrameDelivered(p: Params, q: Params, payload: seq<Byte>, raw: seq<nat>)
    requires ValidParams(p) && q.sf == p.sf && q.ldro == p.ldro && 1 <= |payload| <= 255
    requires FrameTolerated(p, payload, raw)
    ensures DecodedFrame(q, Hard(raw)) == Delivered(p, payload, UNBOUNDED)
  {
    hide BlockTolerated, BlockReads, RestReads, Padded, BlockChips, Stream;
    var ns := Stream(payload, p.cr, p.hasCrc);
    ToleratedBlockReads(p.sf, 4, true, Padded(ns, 0, p.sf - 2), raw, 0);
    ToleratedRestReads(p, ns, raw, 8, p.sf - 2);
    FrameDecoded(p, q, payload, Hard(raw));
    HardMargin(q, raw);
  }

  lemma HardMargin(q: Params, raw: seq<nat>)
    requires SpreadingFactor(q.sf)
    ensures DecodedFrame(q, Hard(raw)).tailMargin == UNBOUNDED
  {
    hide DecideBlock, AllDecided, ReadPayload, ReadCrc, PayloadCrc, ParseHeader;
  }

  /** An undamaged frame is within tolerance. */
  lemma CleanFrameTolerated(p: Params, payload: seq<Byte>)
    requires ValidParams(p)
    ensures FrameTolerated(p, payload, FrameChips(p, payload))
  {
    hide Stream, Padded, BlockChips;
    var ns := Stream(payload, p.cr, p.hasCrc);
    var first := BlockChips(p.sf, 4, true, Padded(ns, 0, p.sf - 2));
    var rest := ChipsFrom(p, ns, p.sf - 2);
    CleanBlockTolerated(p.sf, 4, true, first, first + rest, 0);
    CleanRestTolerated(p, ns, first, p.sf - 2);
  }

  lemma CleanBlockTolerated(sf: nat, cr: nat, reduced: bool, sent: seq<nat>, raw: seq<nat>, at: nat)
    requires |sent| == 4 + cr && at + 4 + cr <= |raw| && raw[at..at + 4 + cr] == sent
    ensures BlockTolerated(sf, cr, reduced, sent, raw, at)
  {
    forall i: nat | i < 4 + cr ensures Lands(sf, reduced, sent[i], raw[at + i]) {
      assert raw[at + i] == raw[at..at + 4 + cr][i];
      ModSmall(0, Pow2(sf));
    }
    assert AllButOneLand(sf, reduced, sent, raw, at, 0);
  }

  lemma {:induction false} CleanRestTolerated(p: Params, ns: seq<Nibble>, before: seq<nat>, idx: nat)
    requires ValidParams(p)
    ensures RestTolerated(p, ns, before + ChipsFrom(p, ns, idx), |before|, idx)
    decreases |ns| - idx
  {
    hide BlockTolerated, Padded, BlockChips;
    if idx < |ns| {
      var size := BlockSize(p.sf, p.ldro);
      ChipsStep(p, ns, idx);
      var block := BlockChips(p.sf, p.cr, p.ldro, Padded(ns, idx, size));
      var rest := ChipsFrom(p, ns, idx + size);
      var raw := before + ChipsFrom(p, ns, idx);
      Associative(before, block, rest);
      assert raw[|before|..|before| + 4 + p.cr] == block;
      CleanBlockTolerated(p.sf, p.cr, p.ldro, block, raw, |before|);
      CleanRestTolerated(p, ns, before + block, idx + size);
    }
  }

  /** Exact round trip, at every rate, and for which payloads it holds: decoding
      an undamaged frame delivers the payload exactly when its length fits the
      header's length byte and is not zero. */
  lemma RoundTripExactly(p: Params, q: Params, payload: seq<Byte>)
    requires ValidParams(p) && q.sf == p.sf && q.ldro == p.ldro
    ensures var r := DecodedFrame(q, Hard(FrameChips(p, payload)));
            (r.header.valid && r.crcOk && r.payload == payload) <==> 1 <= |payload| <= 255
  {
    hide FrameTolerated, Stream, Padded, BlockChips, FrameChips, DecodedFrame;
    var raw := FrameChips(p, payload);
    CleanFrameTolerated(p, payload);
    if 1 <= |payload| <= 255 {
      DamagedFrameDelivered(p, q, payload, raw);
    } else {
      ToleratedHeader(p, q, payload, raw);
    }
  }

  lemma ToleratedHeader(p: Params, q: Params, payload: seq<Byte>, raw: seq<nat>)
    requires ValidParams(p) && q.sf == p.sf && FrameTolerated(p, payload, raw)
    ensures var r := DecodedFrame(q, Hard(raw));
            r.header == HeaderInfo(|payload| % 256 != 0, |payload| % 256, p.cr, p.hasCrc) && |r.payload| <= 255
  {
    hide BlockTolerated, Padded, BlockChips, Stream, AllDecided, HeaderBlock, ParseHeader, ReadCrc, PayloadCrc;
    ToleratedBlockReads(p.sf, 4, true, Padded(Stream(payload, p.cr, p.hasCrc), 0, p.sf - 2), raw, 0);
    HeaderDecoded(p, payload, Hard(raw));
  }

  // Soft decoding.

  /** LLRs of one block that decode to it: all signs right, or, at rates 3 and 4,
      one symbol saying anything weaker than cr - 1 times the support of the
      others. */
  ghost predicate SoftBlockTolerated(sf: nat, cr: nat, reduced: bool, block: seq<Nibble>, rows: seq<SoftRow>, at: nat)
    requires SpreadingFactor(sf) && CodingRate(cr) && |block| == BlockSize(sf, reduced)
  {
    && at + 4 + cr <= |rows|
    && ((forall i: nat | i < 4 + cr :: RowSupports(cr, reduced, block, rows, at, i, 0.0))
        || (cr >= 3 && exists k: nat, level: real :: SupportBut(cr, reduced, block, rows, at, k, level)))
  }

  /** Every bit of the row has the sign of the bit sent, at least this strong. */
  ghost predicate RowSupports(cr: nat, reduced: bool, block: seq<Nibble>, rows: seq<SoftRow>, at: nat, i: nat, level: real)
    requires CodingRate(cr) && |block| > 0 && i < 4 + cr && at + 4 + cr <= |rows|
  {
    var row, bits := rows[at + i], DataBits(Codewords(block, cr), 4 + cr, i);
    forall j: nat | j < |block| :: Supports(Llr(row, reduced, j), bits[j], level)
  }

  ghost predicate SupportBut(cr: nat, reduced: bool, block: seq<Nibble>, rows: seq<SoftRow>, at: nat, k: nat, level: real)
    requires CodingRate(cr) && |block| > 0 && at + 4 + cr <= |rows|
  {
    && k < 4 + cr && level > 0.0
    && (forall i: nat | i < 4 + cr && i != k :: RowSupports(cr, reduced, block, rows, at, i, level))
    && var row := rows[at + k];
       forall j: nat | j < |block| :: Abs(Llr(row, reduced, j)) < Times(cr - 1, level)
  }

  lemma SoftBlockSurvives(sf: nat, cr: nat, reduced: bool, block: seq<Nibble>, rows: seq<SoftRow>, at: nat, c: nat)
    requires SpreadingFactor(sf) && CodingRate(cr) && |block| == BlockSize(sf, reduced)
    requires SoftBlockTolerated(sf, cr, reduced, block, rows, at) && c < |block|
    ensures DecideOne(sf, Soft(rows), at, cr, reduced, c).nibble == block[c]
  {
    if forall i: nat | i < 4 + cr :: RowSupports(cr, reduced, block, rows, at, i, 0.0) {
      SignsSurvive(cr, reduced, block, rows, at, c);
    } else {
      var k: nat, level: real :| SupportBut(cr, reduced, block, rows, at, k, level);
      LiarSurvives(cr, reduced, block, rows, at, c, k, level);
    }
  }

  lemma SignsSurvive(cr: nat, reduced: bool, block: seq<Nibble>, rows: seq<SoftRow>, at: nat, c: nat)
    requires CodingRate(cr) && c < |block| && at + 4 + cr <= |rows|
    requires forall i: nat | i < 4 + cr :: RowSupports(cr, reduced, block, rows, at, i, 0.0)
    ensures SoftNibble(CodewordLlrs(rows, at, cr, |block|, reduced, c), cr) == block[c]
  {
    hide SoftNibble, RowSupports;
    var llr := CodewordLlrs(rows, at, cr, |block|, reduced, c);
    forall i: nat | i < 4 + cr ensures Supports(llr[i], CodeBit(HammingEncode(block[c], cr), cr, i), 0.0) {
      LlrOfCodeword(cr, reduced, block, rows, at, c, i, 0.0);
    }
    SignsDecide(block[c], llr, cr);
  }

  lemma LiarSurvives(cr: nat, reduced: bool, block: seq<Nibble>, rows: seq<SoftRow>, at: nat, c: nat, k: nat, level: real)
    requires CodingRate(cr) && cr >= 3 && c < |block| && at + 4 + cr <= |rows|
    requires SupportBut(cr, reduced, block, rows, at, k, level)
    ensures SoftNibble(CodewordLlrs(rows, at, cr, |block|, reduced, c), cr) == block[c]
  {
    hide SoftNibble, RowSupports;
    var llr := CodewordLlrs(rows, at, cr, |block|, reduced, c);
    forall i: nat | i < 4 + cr && i != k ensures Supports(llr[i], CodeBit(HammingEncode(block[c], cr), cr, i), level) {
      LlrOfCodeword(cr, reduced, block, rows, at, c, i, level);
    }
    assert llr[k] == Llr(rows[at + k], reduced, Owner(k, c, |block|));
    SoftCorrects(block[c], llr, cr, k, level);
  }

  lemma LlrOfCodeword(cr: nat, reduced: bool, block: seq<Nibble>, rows: seq<SoftRow>, at: nat, c: nat, i: nat, level: real)
    requires CodingRate(cr) && c < |block| && at + 4 + cr <= |rows| && i < 4 + cr
    requires RowSupports(cr, reduced, block, rows, at, i, level)
    ensures Supports(CodewordLlrs(rows, at, cr, |block|, reduced, c)[i], CodeBit(HammingEncode(block[c], cr), cr, i), level)
  {
    var j := Owner(i, c, |block|);
    OwnerInverse(i, c, |block|);
    assert DataBits(Codewords(block, cr), 4 + cr, i)[j] == Bit(Codewords(block, cr)[c], 3 + cr - i);
  }

  ghost predicate SoftRestTolerated(p: Params, ns: seq<Nibble>, rows: seq<SoftRow>, at: nat, idx: nat)
    requires ValidParams(p)
    decreases |ns| - idx
  {
    var size := BlockSize(p.sf, p.ldro);
    idx < |ns| ==>
      && SoftBlockTolerated(p.sf, p.cr, p.ldro, Padded(ns, idx, size), rows, at)
      && SoftRestTolerated(p, ns, rows, at + 4 + p.cr, idx + size)
  }

  ghost predicate SoftFrameTolerated(p: Params, payload: seq<Byte>, rows: seq<SoftRow>)
    requires ValidParams(p)
  {
    var ns := Stream(payload, p.cr, p.hasCrc);
    SoftBlockTolerated(p.sf, 4, true, Padded(ns, 0, p.sf - 2), rows, 0) && SoftRestTolerated(p, ns, rows, 8, p.sf - 2)
  }

  lemma SoftBlockReads(sf: nat, cr: nat, reduced: bool, block: seq<Nibble>, rows: seq<SoftRow>, at: nat)
    requires SpreadingFactor(sf) && CodingRate(cr) && |block| == BlockSize(sf, reduced)
    requires SoftBlockTolerated(sf, cr, reduced, block, rows, at)
    ensures BlockReads(sf, Soft(rows), at, cr, reduced, block)
  {
    hide DecideOne;
    forall c: nat | c < |block| ensures DecideOne(sf, Soft(rows), at, cr, reduced, c).nibble == block[c] {
      SoftBlockSurvives(sf, cr, reduced, block, rows, at, c);
    }
  }

  lemma {:induction false} SoftRestReads(p: Params, ns: seq<Nibble>, rows: seq<SoftRow>, at: nat, idx: nat)
    requires ValidParams(p) && SoftRestTolerated(p, ns, rows, at, idx)
    ensures RestReads(p, ns, Soft(rows), at, idx)
    decreases |ns| - idx
  {
    hide SoftBlockTolerated, BlockReads, Padded;
    if idx < |ns| {
      var size := BlockSize(p.sf, p.ldro);
      SoftBlockReads(p.sf, p.cr, p.ldro, Padded(ns, idx, size), rows, at);
      SoftRestReads(p, ns, rows, at + 4 + p.cr, idx + size);
    }
  }

  /** Soft decoding delivers the frame when every bit's LLR has the sign of the
      bit sent, and still does with one weak liar in each block of rate 3 or 4. */
  lemma SoftFrameDelivered(p: Params, q: Params, payload: seq<Byte>, rows: seq<SoftRow>)
    requires ValidParams(p) && q.sf == p.sf && q.ldro == p.ldro && 1 <= |payload| <= 255
    requires SoftFrameTolerated(p, payload, rows)
    ensures var r := DecodedFrame(q, Soft(rows)); r == Delivered(p, payload, r.tailMargin)
  {
    hide SoftBlockTolerated, BlockReads, RestReads, Padded, Stream;
    var ns := Stream(payload, p.cr, p.hasCrc);
    SoftBlockReads(p.sf, 4, true, Padded(ns, 0, p.sf - 2), rows, 0);
    SoftRestReads(p, ns, rows, 8, p.sf - 2);
    FrameDecoded(p, q, payload, Soft(rows));
  }
}
