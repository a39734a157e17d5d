/** Whole frames: payload bytes to chips and back, from hard chip values or
    from soft log-likelihood rows. */
module Frame {
  import opened Bits
  import opened Crc
  import opened Gray
  import opened Hamming
  import opened Header
  import opened Interleaver
  import opened SoftHamming

  datatype Params = Params(sf: nat, cr: nat, hasCrc: bool, ldro: bool)

  /** Seven is the least spreading factor whose header block holds a header;
      sixteen the widest word of the program's symbol type and block buffers. */
  predicate SpreadingFactor(sf: nat) {
    7 <= sf <= 16
  }

  predicate ValidParams(p: Params) {
    SpreadingFactor(p.sf) && CodingRate(p.cr)
  }

  /** Codewords in a block. */
  function BlockSize(sf: nat, reduced: bool): nat
    requires SpreadingFactor(sf)
  {
    if reduced then sf - 2 else sf
  }

  // Encoding.

  function NibbleAt(ns: seq<Nibble>, i: nat): Nibble {
    if i < |ns| then ns[i] else 0
  }

  /** n nibbles from position `at`, zeros past the end of the stream. */
  function Padded(ns: seq<Nibble>, at: nat, n: nat): (block: seq<Nibble>)
    ensures |block| == n && forall k: nat | k < n :: block[k] == NibbleAt(ns, at + k)
  {
    seq<Nibble>(n, k requires 0 <= k < n => NibbleAt(ns, at + k))
  }

  function Codewords(block: seq<Nibble>, cr: nat): (cw: seq<nat>)
    requires CodingRate(cr)
    ensures |cw| == |block|
  {
    seq(|block|, c requires 0 <= c < |block| => HammingEncode(block[c], cr))
  }

  function BlockWord(sf: nat, cr: nat, reduced: bool, block: seq<Nibble>, i: nat): nat
    requires SpreadingFactor(sf) && CodingRate(cr) && |block| == BlockSize(sf, reduced) && i < 4 + cr
  {
    Symbol(Codewords(block, cr), sf, 4 + cr, reduced, i)
  }

  function BlockChip(sf: nat, cr: nat, reduced: bool, block: seq<Nibble>, i: nat): nat
    requires SpreadingFactor(sf) && CodingRate(cr) && |block| == BlockSize(sf, reduced) && i < 4 + cr
  {
    Chip(sf, BlockWord(sf, cr, reduced, block, i))
  }

  function BlockChips(sf: nat, cr: nat, reduced: bool, block: seq<Nibble>): (chips: seq<nat>)
    requires SpreadingFactor(sf) && CodingRate(cr) && |block| == BlockSize(sf, reduced)
    ensures |chips| == 4 + cr
  {
    seq(4 + cr, i requires 0 <= i < 4 + cr => BlockChip(sf, cr, reduced, block, i))
  }

  /** The payload blocks from nibble `at` on. */
  function ChipsFrom(p: Params, ns: seq<Nibble>, at: nat): seq<nat>
    requires ValidParams(p)
    decreases |ns| - at
  {
    if at >= |ns| then []
    else
      var n := BlockSize(p.sf, p.ldro);
      BlockChips(p.sf, p.cr, p.ldro, Padded(ns, at, n)) + ChipsFrom(p, ns, at + n)
  }

  /** The header block is always reduced-rate and always uses rate 4. */
  function StreamChips(p: Params, ns: seq<Nibble>): seq<nat>
    requires ValidParams(p)
  {
    BlockChips(p.sf, 4, true, Padded(ns, 0, p.sf - 2)) + ChipsFrom(p, ns, p.sf - 2)
  }

  function FrameChips(p: Params, payload: seq<Byte>): seq<nat>
    requires ValidParams(p)
  {
    StreamChips(p, Stream(payload, p.cr, p.hasCrc))
  }

  function FrameSymbolCount(p: Params, payloadLen: nat): nat
    requires ValidParams(p)
  {
    var nibbles := NibblesNeeded(payloadLen, p.hasCrc);
    if nibbles <= p.sf - 2 then 8
    else
      var size := BlockSize(p.sf, p.ldro);
      8 + (nibbles - (p.sf - 2) + size - 1) / size * (p.cr + 4)
  }

  method PushPayload(payload: seq<Byte>) returns (ns: seq<Nibble>)
    ensures ns == PayloadNibbles(payload)
  {
    ns := [];
    for i := 0 to |payload|
      invariant ns == PayloadNibbles(payload)[..2 * i]
    {
      var w := XorByte(payload[i], Whitening(i));
      TwoMore(payload, i);
      ns := ns + [HalfByte(w, true)];
      ns := ns + [HalfByte(w, false)];
    }
  }

  lemma TwoMore(payload: seq<Byte>, i: nat)
    requires i < |payload|
    ensures var w, b := XorByte(payload[i], Whitening(i)), PayloadNibbles(payload);
            b[..2 * (i + 1)] == b[..2 * i] + [HalfByte(w, true)] + [HalfByte(w, false)]
  {
    var k := 2 * i;
    assert k / 2 == i && (k + 1) / 2 == i && k % 2 == 0 && (k + 1) % 2 == 1;
    PayloadNibble(payload, k);
    PayloadNibble(payload, k + 1);
    SliceTwo(PayloadNibbles(payload), k);
  }

  lemma PayloadNibble(payload: seq<Byte>, k: nat)
    requires k < 2 * |payload|
    ensures PayloadNibbles(payload)[k] == HalfByte(XorByte(payload[k / 2], Whitening(k / 2)), k % 2 == 0)
  {
  }

  lemma SliceTwo<T>(b: seq<T>, k: nat)
    requires k + 2 <= |b|
    ensures b[..k + 2] == b[..k] + [b[k]] + [b[k + 1]]
  {
  }

  lemma Associative<T>(a: seq<T>, b: seq<T>, c: seq<T>)
    ensures a + (b + c) == (a + b) + c
  {
  }

  method BuildStream(p: Params, payload: seq<Byte>) returns (ns: seq<Nibble>)
    requires ValidParams(p)
    ensures ns == Stream(payload, p.cr, p.hasCrc)
  {
    ns := BuildHeader(|payload| % 256, p.cr, p.hasCrc);
    var body := PushPayload(payload);
    ns := ns + body;
    if p.hasCrc {
      var crc := ComputePayloadCrc(payload);
      ns := ns + CrcNibbles(crc);
    }
  }

  method EncodeCodewords(block: seq<Nibble>, cr: nat, cw: array<nat>)
    requires CodingRate(cr) && |block| <= cw.Length
    modifies cw
    ensures cw[..|block|] == Codewords(block, cr)
  {
    for i := 0 to |block|
      invariant cw[..i] == Codewords(block, cr)[..i]
    {
      cw[i] := HammingEncode(block[i], cr);
    }
  }

  method ChipsOf(sf: nat, words: seq<nat>) returns (chips: seq<nat>)
    ensures |chips| == |words| && forall i: nat | i < |words| :: chips[i] == Chip(sf, words[i])
  {
    chips := [];
    for i := 0 to |words|
      invariant |chips| == i && forall k: nat | k < i :: chips[k] == Chip(sf, words[k])
    {
      var binary := ComputeGrayDecode(words[i], sf);
      chips := chips + [(binary + 1) % Pow2(sf)];
    }
  }

  method EncodeBlock(sf: nat, cr: nat, reduced: bool, ns: seq<Nibble>, at: nat) returns (chips: seq<nat>)
    requires SpreadingFactor(sf) && CodingRate(cr)
    ensures chips == BlockChips(sf, cr, reduced, Padded(ns, at, BlockSize(sf, reduced)))
  {
    var size := BlockSize(sf, reduced);
    var block := Padded(ns, at, size);
    var cw, symbols := new nat[16], new nat[16];
    EncodeCodewords(block, cr, cw);
    InterleaveBlock(cw, sf, size, 4 + cr, reduced, symbols);
    chips := ChipsOf(sf, symbols[..4 + cr]);
    assert forall i: nat | i < 4 + cr :: symbols[..4 + cr][i] == symbols[i] == BlockWord(sf, cr, reduced, block, i);
  }

  lemma ChipsStep(p: Params, ns: seq<Nibble>, at: nat)
    requires ValidParams(p) && at < |ns|
    ensures var n := BlockSize(p.sf, p.ldro);
            ChipsFrom(p, ns, at) == BlockChips(p.sf, p.cr, p.ldro, Padded(ns, at, n)) + ChipsFrom(p, ns, at + n)
  {
  }

  method EncodeStream(p: Params, nibbles: seq<Nibble>) returns (chips: seq<nat>)
    requires ValidParams(p) && |nibbles| > 0
    ensures chips == StreamChips(p, nibbles)
  {
    ghost var first := BlockChips(p.sf, 4, true, Padded(nibbles, 0, p.sf - 2));
    chips := [];
    var idx := 0;
    var firstBlock := true;
    while idx < |nibbles|
      invariant firstBlock ==> idx == 0 && chips == []
      invariant !firstBlock ==> first + ChipsFrom(p, nibbles, p.sf - 2) == chips + ChipsFrom(p, nibbles, idx)
      decreases |nibbles| - idx
    {
      if firstBlock {
        chips := EncodeBlock(p.sf, 4, true, nibbles, 0);
        idx := BlockSize(p.sf, true);
        firstBlock := false;
      } else {
        var size := BlockSize(p.sf, p.ldro);
        var block := EncodeBlock(p.sf, p.cr, p.ldro, nibbles, idx);
        ChipsStep(p, nibbles, idx);
        Associative(chips, block, ChipsFrom(p, nibbles, idx + size));
        chips := chips + block;
        idx := idx + size;
      }
    }
  }

  method EncodeFrame(p: Params, payload: seq<Byte>) returns (chips: seq<nat>)
    requires ValidParams(p)
    ensures chips == FrameChips(p, payload)
  {
    var nibbles := BuildStream(p, payload);
    chips := EncodeStream(p, nibbles);
  }

  // Decoding.

  /** Bit log-likelihoods of one symbol, most significant bit first: the sf
      bits of a full-rate reading and the sf - 2 of a reduced-rate one. */
  datatype SoftRow = SoftRow(plain: seq<real>, reduced: seq<real>)

  function Llr(row: SoftRow, reduced: bool, j: nat): real {
    var bits := if reduced then row.reduced else row.plain;
    if j < |bits| then bits[j] else 0.0
  }

  /** What the decoder reads: chip values, or rows of log-likelihoods. */
  datatype Rows = Hard(values: seq<nat>) | Soft(rows: seq<SoftRow>) {
    function Len(): nat {
      match this
      case Hard(values) => |values|
      case Soft(rows) => |rows|
    }
  }

  /** A decided nibble and, on the soft path, its margin. */
  datatype Decided = Decided(nibble: Nibble, margin: real)

  function HardWords(values: seq<nat>, at: nat, n: nat, sf: nat, reduced: bool): (words: seq<nat>)
    requires at + n <= |values|
    ensures |words| == n
  {
    seq<nat>(n, i requires 0 <= i < n => WordRead(sf, reduced, values[at + i]))
  }

  function CodewordLlrs(rows: seq<SoftRow>, at: nat, cr: nat, size: nat, reduced: bool, c: nat): (llr: seq<real>)
    requires at + 4 + cr <= |rows| && c < size
    ensures |llr| == 4 + cr
  {
    seq(4 + cr, i requires 0 <= i < 4 + cr => Llr(rows[at + i], reduced, Owner(i, c, size)))
  }

  function DecideOne(sf: nat, rows: Rows, at: nat, cr: nat, reduced: bool, c: nat): Decided
    requires SpreadingFactor(sf) && CodingRate(cr) && at + 4 + cr <= rows.Len() && c < BlockSize(sf, reduced)
  {
    var size := BlockSize(sf, reduced);
    match rows
    case Hard(values) =>
      Decided(HammingDecode(Gathered(HardWords(values, at, 4 + cr, sf, reduced), size, 4 + cr, c, 4 + cr), cr), 0.0)
    case Soft(soft) =>
      var llr := CodewordLlrs(soft, at, cr, size, reduced, c);
      Decided(SoftNibble(llr, cr), Margin(llr, cr))
  }

  function DecideBlock(sf: nat, rows: Rows, at: nat, cr: nat, reduced: bool): (ds: seq<Decided>)
    requires SpreadingFactor(sf) && CodingRate(cr) && at + 4 + cr <= rows.Len()
    ensures |ds| == BlockSize(sf, reduced)
  {
    var size := BlockSize(sf, reduced);
    seq(size, c requires 0 <= c < size => DecideOne(sf, rows, at, cr, reduced, c))
  }

  function Nibbles(ds: seq<Decided>): (ns: seq<Nibble>)
    ensures |ns| == |ds|
  {
    seq(|ds|, i requires 0 <= i < |ds| => ds[i].nibble)
  }

  /** The payload blocks from row `at` on, while nibbles are missing and whole
      blocks of rows remain. */
  function MoreDecided(sf: nat, ldro: bool, cr: nat, rows: Rows, at: nat, missing: int): seq<Decided>
    requires SpreadingFactor(sf) && CodingRate(cr)
    decreases missing
  {
    if missing <= 0 || at + 4 + cr > rows.Len() then []
    else DecideBlock(sf, rows, at, cr, ldro) + MoreDecided(sf, ldro, cr, rows, at + 4 + cr, missing - BlockSize(sf, ldro))
  }

  /** The row after the last one those blocks use. */
  function MoreEnd(sf: nat, ldro: bool, cr: nat, rows: Rows, at: nat, missing: int): nat
    requires SpreadingFactor(sf) && CodingRate(cr)
    decreases missing
  {
    if missing <= 0 || at + 4 + cr > rows.Len() then at
    else MoreEnd(sf, ldro, cr, rows, at + 4 + cr, missing - BlockSize(sf, ldro))
  }

  datatype DecodeResult = DecodeResult(
    header: HeaderInfo,
    crcOk: bool,
    crcExpected: Word16,
    crcReceived: Word16,
    payload: seq<Byte>,
    symbolsConsumed: nat,
    tailMargin: real)

  function HeaderOnly(header: HeaderInfo, consumed: nat): DecodeResult {
    DecodeResult(header, false, 0, 0, [], consumed, UNBOUNDED)
  }

  function RMin(a: real, b: real): real {
    if b < a then b else a
  }

  function RMax(a: real, b: real): real {
    if a < b then b else a
  }

  /** The least over the four pairs of a tail nibble and its checksum partner of
      the larger margin in the pair. */
  function TailMargin(ds: seq<Decided>, len: nat): real
    requires len >= 2 && NibblesNeeded(len, true) <= |ds|
  {
    var a, c := 5 + 2 * (len - 2), 5 + 2 * len;
    RMin(RMin(RMin(RMin(UNBOUNDED,
      RMax(ds[a + 2].margin, ds[c].margin)),
      RMax(ds[a + 3].margin, ds[c + 1].margin)),
      RMax(ds[a].margin, ds[c + 2].margin)),
      RMax(ds[a + 1].margin, ds[c + 3].margin))
  }

  /** A result with its payload and checksum read from the nibbles. */
  function Finished(header: HeaderInfo, ns: seq<Nibble>, consumed: nat, tailMargin: real): DecodeResult
    requires NibblesNeeded(header.payloadLen, header.hasCrc) <= |ns|
  {
    var len := header.payloadLen;
    var payload := ReadPayload(ns, len);
    if header.hasCrc then
      DecodeResult(header, CrcPasses(ns, len), PayloadCrc(payload), ReadCrc(ns, 5 + 2 * len), payload, consumed, tailMargin)
    else
      DecodeResult(header, true, 0, 0, payload, consumed, tailMargin)
  }

  function MarginOf(header: HeaderInfo, ds: seq<Decided>, soft: bool): real
    requires NibblesNeeded(header.payloadLen, header.hasCrc) <= |ds|
  {
    if soft && header.hasCrc && header.payloadLen >= 2 then TailMargin(ds, header.payloadLen) else UNBOUNDED
  }

  function HeaderBlock(sf: nat, rows: Rows): seq<Decided>
    requires SpreadingFactor(sf) && rows.Len() >= 8
  {
    DecideBlock(sf, rows, 0, 4, true)
  }

  /** Everything the decoder decides once it has a valid header. */
  function AllDecided(p: Params, rows: Rows, header: HeaderInfo): seq<Decided>
    requires SpreadingFactor(p.sf) && rows.Len() >= 8 && CodingRate(header.cr)
  {
    HeaderBlock(p.sf, rows) +
    MoreDecided(p.sf, p.ldro, header.cr, rows, 8, NibblesNeeded(header.payloadLen, header.hasCrc) - (p.sf - 2))
  }

  function AllEnd(p: Params, rows: Rows, header: HeaderInfo): nat
    requires SpreadingFactor(p.sf) && CodingRate(header.cr)
  {
    MoreEnd(p.sf, p.ldro, header.cr, rows, 8, NibblesNeeded(header.payloadLen, header.hasCrc) - (p.sf - 2))
  }

  function HeaderOf(p: Params, rows: Rows): HeaderInfo
    requires SpreadingFactor(p.sf) && rows.Len() >= 8
  {
    ParseHeader(Nibbles(HeaderBlock(p.sf, rows)))
  }

  /** The result for a valid header, from what was decided. */
  function Outcome(header: HeaderInfo, ds: seq<Decided>, end: nat, soft: bool): DecodeResult {
    if |ds| >= NibblesNeeded(header.payloadLen, header.hasCrc)
    then Finished(header, Nibbles(ds), end, MarginOf(header, ds, soft))
    else HeaderOnly(header, end)
  }

  /** The decoder's result; of the parameters only sf and ldro are used, rate
      and checksum flag come from the header. */
  function DecodedFrame(p: Params, rows: Rows): DecodeResult
    requires SpreadingFactor(p.sf)
  {
    if rows.Len() < 8 then HeaderOnly(NO_HEADER, 0)
    else
      var header := HeaderOf(p, rows);
      if !header.valid then HeaderOnly(header, 8)
      else Outcome(header, AllDecided(p, rows, header), AllEnd(p, rows, header), rows.Soft?)
  }

  lemma NibblesConcat(a: seq<Decided>, b: seq<Decided>)
    ensures Nibbles(a + b) == Nibbles(a) + Nibbles(b)
  {
  }

  method ReadBytes(ns: seq<Nibble>, len: nat) returns (payload: seq<Byte>)
    requires 5 + 2 * len <= |ns|
    ensures payload == ReadPayload(ns, len)
  {
    payload := [];
    for i := 0 to len
      invariant |payload| == i && forall k: nat | k < i :: payload[k] == ReadByte(ns, k)
    {
      payload := payload + [ReadByte(ns, i)];
    }
  }

  /** Payload and checksum test from a complete nibble stream. */
  method FinishPayload(header: HeaderInfo, ns: seq<Nibble>, consumed: nat) returns (r: DecodeResult)
    requires NibblesNeeded(header.payloadLen, header.hasCrc) <= |ns|
    ensures r == Finished(header, ns, consumed, UNBOUNDED)
  {
    hide ReadPayload, ReadCrc, PayloadCrc;
    var payload := ReadBytes(ns, header.payloadLen);
    if header.hasCrc {
      var received := ReadCrc(ns, 5 + 2 * header.payloadLen);
      var expected := ComputePayloadCrc(payload);
      r := DecodeResult(header, received == expected, expected, received, payload, consumed, UNBOUNDED);
    } else {
      r := DecodeResult(header, true, 0, 0, payload, consumed, UNBOUNDED);
    }
  }

  /** The decoding loop has read `ds` and stands at row `at`, on its way to
      `all` and `end`. */
  ghost predicate Reading(p: Params, rows: Rows, header: HeaderInfo, all: seq<Decided>, end: nat, ds: seq<Decided>, at: nat)
    requires SpreadingFactor(p.sf) && CodingRate(header.cr)
  {
    var left := NibblesNeeded(header.payloadLen, header.hasCrc) - |ds|;
    && all == ds + MoreDecided(p.sf, p.ldro, header.cr, rows, at, left)
    && end == MoreEnd(p.sf, p.ldro, header.cr, rows, at, left)
  }

  lemma MoreStep(sf: nat, ldro: bool, cr: nat, rows: Rows, at: nat, missing: int)
    requires SpreadingFactor(sf) && CodingRate(cr) && missing > 0 && at + 4 + cr <= rows.Len()
    ensures MoreDecided(sf, ldro, cr, rows, at, missing) ==
            DecideBlock(sf, rows, at, cr, ldro) + MoreDecided(sf, ldro, cr, rows, at + 4 + cr, missing - BlockSize(sf, ldro))
    ensures MoreEnd(sf, ldro, cr, rows, at, missing) == MoreEnd(sf, ldro, cr, rows, at + 4 + cr, missing - BlockSize(sf, ldro))
  {
    hide DecideBlock;
  }

  lemma ReadingStep(p: Params, rows: Rows, header: HeaderInfo, all: seq<Decided>, end: nat, ds: seq<Decided>, at: nat)
    requires SpreadingFactor(p.sf) && CodingRate(header.cr) && Reading(p, rows, header, all, end, ds, at)
    requires |ds| < NibblesNeeded(header.payloadLen, header.hasCrc) && at + 4 + header.cr <= rows.Len()
    ensures Reading(p, rows, header, all, end, ds + DecideBlock(p.sf, rows, at, header.cr, p.ldro), at + 4 + header.cr)
  {
    hide DecideBlock;
    var left := NibblesNeeded(header.payloadLen, header.hasCrc) - |ds|;
    var block := DecideBlock(p.sf, rows, at, header.cr, p.ldro);
    MoreStep(p.sf, p.ldro, header.cr, rows, at, left);
    Associative(ds, block, MoreDecided(p.sf, p.ldro, header.cr, rows, at + 4 + header.cr, left - |block|));
  }

  lemma ReadingDone(p: Params, rows: Rows, header: HeaderInfo, all: seq<Decided>, end: nat, ds: seq<Decided>, at: nat)
    requires SpreadingFactor(p.sf) && CodingRate(header.cr) && Reading(p, rows, header, all, end, ds, at)
    requires |ds| >= NibblesNeeded(header.payloadLen, header.hasCrc) || at + 4 + header.cr > rows.Len()
    ensures all == ds && end == at
  {
  }

  method DecodeHardBlock(sf: nat, values: seq<nat>, at: nat, cr: nat, reduced: bool) returns (ns: seq<Nibble>)
    requires SpreadingFactor(sf) && CodingRate(cr) && at + 4 + cr <= |values|
    ensures ns == Nibbles(DecideBlock(sf, Hard(values), at, cr, reduced))
  {
    var n := Pow2(sf);
    var size := BlockSize(sf, reduced);
    var symbols := new nat[16];
    for i := 0 to 4 + cr
      invariant forall k: nat | k < i :: symbols[k] == WordRead(sf, reduced, values[at + k])
    {
      var v := (values[at + i] + n - 1) % n;
      if reduced {
        v := ReducedValue(values[at + i], n);
      }
      symbols[i] := GrayEncode(v);
    }
    ghost var words := HardWords(values, at, 4 + cr, sf, reduced);
    assert forall i: nat | i < 4 + cr :: symbols[..4 + cr][i] == words[i];
    assert symbols[..4 + cr] == words;
    var cw := new nat[16];
    DeinterleaveBlock(symbols, size, 4 + cr, cw);
    ns := [];
    for c := 0 to size
      invariant |ns| == c
      invariant forall k: nat | k < c :: ns[k] == DecideOne(sf, Hard(values), at, cr, reduced, k).nibble
    {
      ns := ns + [HammingDecode(cw[c], cr)];
    }
  }

  method DecodeFrame(p: Params, values: seq<nat>) returns (r: DecodeResult)
    requires SpreadingFactor(p.sf)
    ensures r == DecodedFrame(p, Hard(values))
  {
    hide DecideBlock, HammingDecode, ParseHeader;
    ghost var rows := Hard(values);
    ghost var ds: seq<Decided> := [];
    ghost var all: seq<Decided>, end: nat := [], 0;
    var header := NO_HEADER;
    var nibbles: seq<Nibble> := [];
    var symIdx: nat := 0;
    var firstBlock := true;
    var needed: nat := p.sf - 2;
    while |nibbles| < needed && symIdx < |values|
      invariant nibbles == Nibbles(ds)
      invariant firstBlock ==> nibbles == [] && symIdx == 0 && header == NO_HEADER && needed == p.sf - 2
      invariant !firstBlock ==>
        && rows.Len() >= 8 && header == HeaderOf(p, rows) && header.valid
        && needed == NibblesNeeded(header.payloadLen, header.hasCrc)
        && all == AllDecided(p, rows, header) && end == AllEnd(p, rows, header)
        && Reading(p, rows, header, all, end, ds, symIdx)
      decreases |values| - symIdx
    {
      if firstBlock {
        if symIdx + 8 > |values| {
          break;
        }
        nibbles := DecodeHardBlock(p.sf, values, 0, 4, true);
        ds := HeaderBlock(p.sf, rows);
        symIdx := 8;
        header := ParseHeader(nibbles);
        if !header.valid {
          return HeaderOnly(header, symIdx);
        }
        needed := NibblesNeeded(header.payloadLen, header.hasCrc);
        all, end := AllDecided(p, rows, header), AllEnd(p, rows, header);
        firstBlock := false;
      } else {
        if symIdx + 4 + header.cr > |values| {
          break;
        }
        var block := DecodeHardBlock(p.sf, values, symIdx, header.cr, p.ldro);
        ReadingStep(p, rows, header, all, end, ds, symIdx);
        NibblesConcat(ds, DecideBlock(p.sf, rows, symIdx, header.cr, p.ldro));
        ds := ds + DecideBlock(p.sf, rows, symIdx, header.cr, p.ldro);
        nibbles := nibbles + block;
        symIdx := symIdx + 4 + header.cr;
      }
    }
    if header.valid {
      ReadingDone(p, rows, header, all, end, ds, symIdx);
      if |nibbles| >= needed {
        r := FinishPayload(header, nibbles, symIdx);
      } else {
        r := HeaderOnly(header, symIdx);
      }
    } else {
      r := HeaderOnly(header, symIdx);
    }
  }

  method DecodeSoftBlock(sf: nat, soft: seq<SoftRow>, at: nat, cr: nat, reduced: bool) returns (ds: seq<Decided>)
    requires SpreadingFactor(sf) && CodingRate(cr) && at + 4 + cr <= |soft|
    ensures ds == DecideBlock(sf, Soft(soft), at, cr, reduced)
  {
    hide SoftNibble, Margin, Llr;
    var size := BlockSize(sf, reduced);
    var cwLlr := new real[16, 8];
    for i := 0 to 4 + cr
      invariant forall c: nat, k: nat | c < size && k < i :: cwLlr[c, k] == Llr(soft[at + k], reduced, Owner(k, c, size))
    {
      ScatterRow(soft[at + i], reduced, size, i, cwLlr);
    }
    ds := [];
    for c := 0 to size
      invariant forall c: nat, k: nat | c < size && k < 4 + cr :: cwLlr[c, k] == Llr(soft[at + k], reduced, Owner(k, c, size))
      invariant |ds| == c
      invariant forall k: nat | k < c :: ds[k] == DecideOne(sf, Soft(soft), at, cr, reduced, k)
    {
      var llr := CodewordRow(cwLlr, cr, c);
      ghost var spec := CodewordLlrs(soft, at, cr, size, reduced, c);
      assert forall i: nat | i < 4 + cr :: llr[i] == spec[i];
      assert llr == spec;
      var nibble, margin := HammingDecodeSoft(llr, cr);
      ds := ds + [Decided(nibble, margin)];
    }
  }

  method CodewordRow(cwLlr: array2<real>, cr: nat, c: nat) returns (llr: seq<real>)
    requires c < cwLlr.Length0 && 4 + cr <= cwLlr.Length1
    ensures |llr| == 4 + cr && forall i: nat | i < 4 + cr :: llr[i] == cwLlr[c, i]
  {
    llr := [];
    for i := 0 to 4 + cr
      invariant |llr| == i && forall k: nat | k < i :: llr[k] == cwLlr[c, k]
    {
      llr := llr + [cwLlr[c, i]];
    }
  }

  /** One symbol's bits into column i of the codeword table. */
  method ScatterRow(row: SoftRow, reduced: bool, size: nat, i: nat, cwLlr: array2<real>)
    requires 0 < size <= cwLlr.Length0 && i < cwLlr.Length1
    modifies cwLlr
    ensures forall c: nat | c < size :: cwLlr[c, i] == Llr(row, reduced, Owner(i, c, size))
    ensures forall c: nat, k: nat | c < cwLlr.Length0 && k < cwLlr.Length1 && k != i :: cwLlr[c, k] == old(cwLlr[c, k])
  {
    for j := 0 to size
      invariant forall c: nat | c < size && Owner(i, c, size) < j :: cwLlr[c, i] == Llr(row, reduced, Owner(i, c, size))
      invariant forall c: nat, k: nat | c < cwLlr.Length0 && k < cwLlr.Length1 && k != i :: cwLlr[c, k] == old(cwLlr[c, k])
    {
      var dst := Owner(i, j, size);
      OwnerInverse(i, j, size);
      forall c: nat | c < size && Owner(i, c, size) == j ensures c == dst { OwnerInverse(i, c, size); }
      cwLlr[dst, i] := Llr(row, reduced, j);
    }
  }

  method DecodeFrameSoft(p: Params, soft: seq<SoftRow>) returns (r: DecodeResult)
    requires SpreadingFactor(p.sf)
    ensures r == DecodedFrame(p, Soft(soft))
  {
    hide DecideBlock, HammingDecode, ParseHeader;
    ghost var rows := Soft(soft);
    ghost var all: seq<Decided>, end: nat := [], 0;
    var header := NO_HEADER;
    var ds: seq<Decided> := [];
    var symIdx: nat := 0;
    var firstBlock := true;
    var needed: nat := p.sf - 2;
    while |ds| < needed && symIdx < |soft|
      invariant firstBlock ==> ds == [] && symIdx == 0 && header == NO_HEADER && needed == p.sf - 2
      invariant !firstBlock ==>
        && rows.Len() >= 8 && header == HeaderOf(p, rows) && header.valid
        && needed == NibblesNeeded(header.payloadLen, header.hasCrc)
        && all == AllDecided(p, rows, header) && end == AllEnd(p, rows, header)
        && Reading(p, rows, header, all, end, ds, symIdx)
      decreases |soft| - symIdx
    {
      if firstBlock {
        if symIdx + 8 > |soft| {
          break;
        }
        ds := DecodeSoftBlock(p.sf, soft, 0, 4, true);
        symIdx := 8;
        header := ParseHeader(Nibbles(ds));
        if !header.valid {
          return HeaderOnly(header, symIdx);
        }
        needed := NibblesNeeded(header.payloadLen, header.hasCrc);
        all, end := AllDecided(p, rows, header), AllEnd(p, rows, header);
        firstBlock := false;
      } else {
        if symIdx + 4 + header.cr > |soft| {
          break;
        }
        var block := DecodeSoftBlock(p.sf, soft, symIdx, header.cr, p.ldro);
        ReadingStep(p, rows, header, all, end, ds, symIdx);
        ds := ds + block;
        symIdx := symIdx + 4 + header.cr;
      }
    }
    if header.valid {
      ReadingDone(p, rows, header, all, end, ds, symIdx);
      r := ConcludeSoft(header, ds, symIdx);
    } else {
      r := HeaderOnly(header, symIdx);
    }
  }

  method ConcludeSoft(header: HeaderInfo, ds: seq<Decided>, consumed: nat) returns (r: DecodeResult)
    ensures r == Outcome(header, ds, consumed, true)
  {
    hide ReadPayload, ReadCrc, PayloadCrc, TailMargin, Nibbles;
    if |ds| >= NibblesNeeded(header.payloadLen, header.hasCrc) {
      r := FinishPayload(header, Nibbles(ds), consumed);
      if header.hasCrc && header.payloadLen >= 2 {
        var margin := LeastPairMargin(ds, header.payloadLen);
        r := r.(tailMargin := margin);
      }
    } else {
      r := HeaderOnly(header, consumed);
    }
  }

  /** A tail nibble and its checksum partner. */
  datatype Pair = Pair(tail: nat, partner: nat)

  /** The four pairs of a payload of `len` bytes, by position in the nibble stream. */
  function TailPairs(len: nat): (pairs: seq<Pair>)
    requires len >= 2
    ensures |pairs| == 4
    ensures forall i: nat | i < 4 :: pairs[i].tail < 5 + 2 * len <= pairs[i].partner < NibblesNeeded(len, true)
  {
    var a, c := 5 + 2 * (len - 2), 5 + 2 * len;
    [Pair(a + 2, c), Pair(a + 3, c + 1), Pair(a, c + 2), Pair(a + 1, c + 3)]
  }

  function PairMargin(ds: seq<Decided>, pair: Pair): real
    requires pair.tail < |ds| && pair.partner < |ds|
  {
    RMax(ds[pair.tail].margin, ds[pair.partner].margin)
  }

  /** How sure a payload's tail is: no pair has both its margins below the
      result, and unless it is unbounded some pair has just it as its larger margin. */
  method LeastPairMargin(ds: seq<Decided>, len: nat) returns (least: real)
    requires len >= 2 && NibblesNeeded(len, true) <= |ds|
    ensures forall i: nat | i < 4 :: var p := TailPairs(len)[i]; least <= ds[p.tail].margin || least <= ds[p.partner].margin
    ensures least == UNBOUNDED || exists i: nat :: i < 4 && least == PairMargin(ds, TailPairs(len)[i])
    ensures least <= UNBOUNDED && least == TailMargin(ds, len)
  {
    var pairs := TailPairs(len);
    least := UNBOUNDED;
    for i := 0 to 4
      invariant least <= UNBOUNDED && forall j: nat | j < i :: least <= PairMargin(ds, pairs[j])
      invariant least == UNBOUNDED || exists j: nat :: j < i && least == PairMargin(ds, pairs[j])
    {
      least := RMin(least, PairMargin(ds, pairs[i]));
    }
    LeastIsTailMargin(ds, len, least);
  }

  lemma LeastIsTailMargin(ds: seq<Decided>, len: nat, least: real)
    requires len >= 2 && NibblesNeeded(len, true) <= |ds|
    requires least <= UNBOUNDED && forall j: nat | j < 4 :: least <= PairMargin(ds, TailPairs(len)[j])
    requires least == UNBOUNDED || exists j: nat :: j < 4 && least == PairMargin(ds, TailPairs(len)[j])
    ensures least == TailMargin(ds, len)
  {
    var pairs := TailPairs(len);
    assert least <= PairMargin(ds, pairs[0]) && least <= PairMargin(ds, pairs[1]);
    assert least <= PairMargin(ds, pairs[2]) && least <= PairMargin(ds, pairs[3]);
  }
}
