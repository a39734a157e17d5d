/** The header check after the eighth symbol.

    Soft evidence, a common chip displacement or one rival symbol may save a
    header that does not parse, and the header that is accepted fixes how many
    symbols the frame has. A displacement moves everything the receiver has
    tracked of the frame along with the values. */
module HeaderCheck {
  import opened Numbers
  import opened Frame
  import opened FrameCorrection
  import opened FrameLimits
  import opened Ends = FrameEnd
  import opened Header
  import opened Kalman
  import Gray
  import opened Bits
  import opened Modulo

  // Candidates.

  /** How many lattice steps the carrier may have wandered before the data. */
  function LatticeSteps(sigma: real): (k: nat)
    ensures 1 <= k <= 8
  {
    var c := -(-(1.5 * sigma / 4.0)).Floor;
    if c < 1 then 1 else if c > 8 then 8 else c
  }

  /** The steps reach one and a half times the expected wander, with none to spare, between one step and eight. */
  lemma LatticeStepsEnough(sigma: real)
    ensures var k := LatticeSteps(sigma);
            (k < 8 ==> 4.0 * k as real >= 1.5 * sigma) && (k > 1 ==> 4.0 * (k - 1) as real < 1.5 * sigma)
  {
    var x := 1.5 * sigma / 4.0;
    var c := -(-x).Floor;
    assert c as real - 1.0 < x <= c as real;
  }

  function LatticeShifts(k: nat): (l: seq<int>)
    ensures |l| == 2 * k
    ensures forall i: nat | i < |l| :: l[i] == if i % 2 == 0 then 4 * (i / 2 + 1) else -4 * (i / 2 + 1)
  {
    if k == 0 then [] else LatticeShifts(k - 1) + [4 * k, -4 * k]
  }

  function Shifts(wander: bool, sigma: real): (l: seq<int>)
    ensures |l| <= 18
  {
    [1, -1] + if wander then LatticeShifts(LatticeSteps(sigma)) else []
  }

  function ShiftedAll(values: seq<nat>, shifts: seq<int>, chips: nat): (l: seq<seq<nat>>)
    requires chips > 0
    ensures |l| == |shifts| && forall i: nat | i < |l| :: l[i] == RangeMoved(values, 0, |values|, shifts[i], chips)
  {
    if |shifts| == 0 then []
    else ShiftedAll(values, shifts[..|shifts| - 1], chips) + [RangeMoved(values, 0, |values|, shifts[|shifts| - 1], chips)]
  }

  /** One rival inside the header put in. */
  function AltList(values: seq<nat>, alts: seq<Alt>): seq<seq<nat>>
    requires |values| >= 8
  {
    if |alts| == 0 then []
    else
      var a := alts[|alts| - 1];
      AltList(values, alts[..|alts| - 1]) + if a.idx < 8 then [values[a.idx := a.value]] else []
  }

  function HeadOf(s: Settings, values: seq<nat>): HeaderInfo
    requires s.Valid()
  {
    HardDecoded(s, values).header
  }

  /** Where the first candidate with a valid header stands; the end of the list if there is none. */
  ghost predicate FirstOf(s: Settings, list: seq<seq<nat>>, at: nat)
    requires s.Valid()
  {
    && at <= |list|
    && (forall i: nat | i < at :: !HeadOf(s, list[i]).valid)
    && (at < |list| ==> HeadOf(s, list[at]).valid)
  }

  // What a shift carries along.

  /** What the receiver has tracked of the frame so far. */
  datatype Track = Track(
    values: seq<nat>, mags: SoftRows, reference: real, prevObs: seq<Obs>, slipObs: seq<Obs>, carrier: real, carrierRef: real)

  function Lowered(zs: seq<Obs>, sh: int): (r: seq<Obs>)
    ensures |r| == |zs| && forall i: nat | i < |zs| :: r[i] == zs[i].(y := zs[i].y - sh as real)
  {
    if |zs| == 0 then []
    else Lowered(zs[..|zs| - 1], sh) + [zs[|zs| - 1].(y := zs[|zs| - 1].y - sh as real)]
  }

  /** Every reading moved up by sh chips, every expectation down. */
  function MovedBy(t: Track, sh: int, chips: nat): Track
    requires chips > 0
  {
    Track(RangeMoved(t.values, 0, |t.values|, sh, chips), RowsMoved(t.mags, sh, Min(|t.values|, |t.mags|)),
          t.reference - sh as real, Lowered(t.prevObs, sh), Lowered(t.slipObs, sh), t.carrier - sh as real, t.carrierRef - sh as real)
  }

  function RowsMoved(mags: SoftRows, sh: int, n: nat): (r: SoftRows)
    requires n <= |mags|
    ensures |r| == |mags|
    ensures forall i: nat | i < |mags| :: r[i] == if i < n then Rotated(mags[i], sh) else mags[i]
  {
    if n == 0 then mags else RowsMoved(mags, sh, n - 1)[n - 1 := Rotated(mags[n - 1], sh)]
  }

  /** A shift keeps the evidence under every value, and every residual against the reference. */
  lemma ShiftIsCoherent(t: Track, sh: int, chips: nat, i: nat)
    requires chips > 0
    ensures var n := MovedBy(t, sh, chips);
            && n.carrier - n.reference == t.carrier - t.reference && n.carrierRef - n.reference == t.carrierRef - t.reference
            && (i < |t.prevObs| ==> n.prevObs[i].y - n.reference == t.prevObs[i].y - t.reference)
            && (i < |t.slipObs| ==> n.slipObs[i].y - n.reference == t.slipObs[i].y - t.reference)
            && (i < |t.values| && i < |t.mags| && |t.mags[i]| == chips && t.values[i] < chips ==>
                n.values[i] < |n.mags[i]| && n.mags[i][n.values[i]] == t.mags[i][t.values[i]])
  {
    hide Rotated, Moved;
    if i < |t.values| && i < |t.mags| && |t.mags[i]| == chips && t.values[i] < chips {
      EvidenceFollows(t.mags[i], t.values[i], sh);
    }
  }

  // The verdict.

  datatype Check = Check(go: bool, track: Track, head: HeaderInfo, softly: bool)

  /** The hard header if it is valid, else the soft one, else the first candidate with a valid header. */
  ghost predicate Judged(s: Settings, sigma: real, soft: HeaderInfo, alts: seq<Alt>, was: Track, c: Check, at: nat)
    requires s.Valid() && |was.values| >= 8
  {
    var hard := HeadOf(s, was.values);
    if hard.valid then c == Check(true, was, hard, false)
    else if s.softDecoding && soft.valid then c == Check(true, was, soft, true)
    else Searching(s, sigma, alts, was, c, at)
  }

  ghost predicate Searching(s: Settings, sigma: real, alts: seq<Alt>, was: Track, c: Check, at: nat)
    requires s.Valid() && |was.values| >= 8
  {
    var shifts := Shifts(s.wander, sigma);
    var list := ShiftedAll(was.values, shifts, s.chips) + AltList(was.values, alts);
    && FirstOf(s, list, at) && !c.softly
    && c.go == (at < |list|)
    && (if at < |shifts| then c.track == MovedBy(was, shifts[at], s.chips)
        else if at < |list| then c.track == was.(values := list[at])
        else c.track == was)
    && (c.go ==> c.head == HeadOf(s, c.track.values))
  }

  lemma ValidHeadHasRate(s: Settings, rows: Rows)
    requires s.Valid()
    ensures DecodedFrame(s.params, rows).header.valid ==> CodingRateOf(DecodedFrame(s.params, rows).header)
  {
    hide AllDecided, AllEnd, HeaderBlock;
  }

  predicate CodingRateOf(h: HeaderInfo) {
    1 <= h.cr <= 4 && h.payloadLen > 0
  }

  lemma SameFirstEight(s: Settings, values: seq<nat>, more: seq<nat>)
    requires s.Valid() && |values| >= 8
    ensures HeadOf(s, values + more) == HeadOf(s, values)
  {
    hide AllDecided, AllEnd, HeaderBlock, HeaderOf, Outcome;
    ConsumedRowsDecide(s.params, Hard(values));
    ConsumedRowsDecide(s.params, Hard(values + more));
    assert (values + more)[..8] == values[..8];
    SentFlag(s, values);
    SentFlag(s, values + more);
  }

  /** The enforced header is decided by the decoded one. */
  lemma SentFlag(s: Settings, values: seq<nat>)
    requires s.Valid()
    ensures var h := DecodedFrame(s.params, Hard(values)).header;
            HeadOf(s, values) == if s.params.hasCrc && h.valid && !h.hasCrc then h.(valid := false) else h
  {
    hide DecodedFrame;
  }

  function Needed(s: Settings, head: HeaderInfo): nat
    requires s.Valid() && CodingRateOf(head)
  {
    FrameSymbolCount(SentParams(s.params, head), head.payloadLen)
  }

  /** Collecting stops at the right symbol: whatever the later symbols read, the
      header stays the accepted one, and the payload is there, whole, from the
      announced number of symbols on and not before. */
  lemma NeededIsExact(s: Settings, sigma: real, soft: HeaderInfo, alts: seq<Alt>, was: Track, c: Check, at: nat, more: seq<nat>)
    requires s.Valid() && |was.values| >= 8 && Judged(s, sigma, soft, alts, was, c, at) && c.go && !c.softly
    ensures |c.track.values| == |was.values| && CodingRateOf(c.head)
    ensures var all := c.track.values + more;
            var d := HardDecoded(s, all);
            && d.header == c.head && c.head.valid
            && (if |all| >= Needed(s, c.head) then |d.payload| == c.head.payloadLen && d.symbolsConsumed == Needed(s, c.head)
                else d.payload == [] && !d.crcOk)
  {
    hide DecodedFrame, RangeMoved, FrameSymbolCount, Judged, Enforced;
    AcceptedHead(s, sigma, soft, alts, was, c, at);
    var values := c.track.values;
    SameFirstEight(s, values, more);
    LengthOfAll(s, values + more);
  }

  lemma {:induction false} AltShape(values: seq<nat>, alts: seq<Alt>, i: nat)
    requires |values| >= 8 && i < |AltList(values, alts)|
    ensures |AltList(values, alts)[i]| == |values|
    ensures exists j: nat :: j < 8 && AltList(values, alts)[i][..j] == values[..j] && AltList(values, alts)[i][j + 1..] == values[j + 1..]
  {
    var rest := AltList(values, alts[..|alts| - 1]);
    if i < |rest| {
      AltShape(values, alts[..|alts| - 1], i);
    } else {
      var a := alts[|alts| - 1];
      var x := values[a.idx := a.value];
      assert x[..a.idx] == values[..a.idx] && x[a.idx + 1..] == values[a.idx + 1..];
    }
  }

  lemma AcceptedHead(s: Settings, sigma: real, soft: HeaderInfo, alts: seq<Alt>, was: Track, c: Check, at: nat)
    requires s.Valid() && |was.values| >= 8 && Judged(s, sigma, soft, alts, was, c, at) && c.go && !c.softly
    ensures |c.track.values| == |was.values| && c.head == HeadOf(s, c.track.values) && c.head.valid
  {
    hide HeadOf, RangeMoved, Shifts, Lowered, RowsMoved;
    var shifts := Shifts(s.wander, sigma);
    if !HeadOf(s, was.values).valid && at >= |shifts| {
      AltShape(was.values, alts, at - |shifts|);
    }
  }

  lemma LengthOfAll(s: Settings, all: seq<nat>)
    requires s.Valid() && |all| >= 8 && HeadOf(s, all).valid
    ensures CodingRateOf(HeadOf(s, all))
    ensures var d, n := HardDecoded(s, all), Needed(s, HeadOf(s, all));
            if |all| >= n then |d.payload| == d.header.payloadLen && d.symbolsConsumed == n else d.payload == [] && !d.crcOk
  {
    hide AllDecided, AllEnd, HeaderOf, Outcome, FrameSymbolCount;
    ValidHeadHasRate(s, Hard(all));
    LengthDecides(s.params, Hard(all));
  }

  // Which displacements of a header are found.

  /** How far below and above the chips sent the whole header may be read. */
  function Below(wander: bool, sigma: real): nat {
    if wander then 1 + 4 * LatticeSteps(sigma) else 2
  }

  function Above(wander: bool, sigma: real): nat {
    if wander then 2 + 4 * LatticeSteps(sigma) else 3
  }

  /** A reduced-rate symbol is brought into its window by sh. */
  predicate LandsAfter(sf: nat, sent: nat, raw: nat, sh: int) {
    Gray.Lands(sf, true, sent, Moved(raw, sh, Pow2(sf)))
  }

  lemma Landing(sf: nat, sent: nat, raw: nat, sh: int, e: int)
    requires (raw - sent - e) % Pow2(sf) == 0
    ensures LandsAfter(sf, sent, raw, sh) <==> (e + sh) % Pow2(sf) <= 2 || (e + sh) % Pow2(sf) == Pow2(sf) - 1
  {
    SameResidue(Pow2(sf), sent, raw, sh, e);
  }

  lemma SameResidue(n: nat, sent: nat, raw: nat, sh: int, e: int)
    requires n > 0 && (raw - sent - e) % n == 0
    ensures (Moved(raw, sh, n) - sent) % n == (e + sh) % n
  {
    Congruent(raw + sh - sent, e + sh, raw - sent - e, n);
    ReducedFirst(raw + sh, sent, n);
    assert Moved(raw, sh, n) == (raw + sh) % n;
    hide Moved;
  }

  lemma Congruent(a: int, b: int, d: int, n: nat)
    requires n > 0 && d % n == 0 && a - b == d
    ensures a % n == b % n
  {
    ModDifference(a, b, n);
  }

  lemma ReducedFirst(x: int, c: int, n: nat)
    requires n > 0
    ensures (x % n - c) % n == (x - c) % n
  {
    var q := Quotient(x, n);
    ModMultiple(x % n - c, q, n);
    assert x % n - c + q * n == x - c;
  }

  lemma WideEnough(sf: nat)
    requires sf >= 7
    ensures Pow2(sf) >= 128
  {
    Pow2Table();
    Pow2Monotone(7, sf);
    assert Pow2(8) == 2 * Pow2(7);
  }

  /** A residue close to zero. */
  lemma SmallResidue(x: int, n: nat)
    requires n >= 128 && 0 <= x + n && x < n
    ensures x % n == if x >= 0 then x else x + n
  {
    if x >= 0 { ModSmall(x, n); } else { ModUnique(x, -1, n, x + n); }
  }

  /** The shifts on the list, with none, cover the displacements from -Below to
      Above, modulo 2^sf, without a hole and nothing else. */
  lemma DisplacementsCovered(sf: nat, sent: nat, raw: nat, wander: bool, sigma: real)
    requires sf >= 7
    ensures (LandsAfter(sf, sent, raw, 0) || exists sh | sh in Shifts(wander, sigma) :: LandsAfter(sf, sent, raw, sh))
       <==> (raw - sent + Below(wander, sigma)) % Pow2(sf) <= Below(wander, sigma) + Above(wander, sigma)
  {
    hide LandsAfter, LatticeSteps;
    var n, low, high := Pow2(sf), Below(wander, sigma) as int, Above(wander, sigma) as int;
    WideEnough(sf);
    var q := Quotient(raw - sent + low, n);
    var e := (raw - sent + low) % n - low;
    ModUnique(raw - sent - e, q, n, 0);
    if e <= high {
      var sh := ShiftFor(wander, sigma, e);
      Landing(sf, sent, raw, sh, e);
      SmallResidue(e + sh, n);
    }
    forall sh | (sh == 0 || sh in Shifts(wander, sigma)) && LandsAfter(sf, sent, raw, sh) ensures e <= high {
      Landing(sf, sent, raw, sh, e);
      ShiftReach(wander, sigma, sh);
      WindowBack(e, sh, low, high, n);
    }
  }

  lemma WindowBack(e: int, sh: int, low: int, high: int, n: nat)
    requires n >= 128 && -low <= e < n - low && 0 <= low <= 33 && 0 <= high <= 34 && 2 - sh <= high && -1 - sh >= -low
    requires (e + sh) % n <= 2 || (e + sh) % n == n - 1
    ensures e <= high
  {
    SmallResidue(e + sh, n);
  }

  lemma ShiftFor(wander: bool, sigma: real, e: int) returns (sh: int)
    requires e + Below(wander, sigma) >= 0 && e <= Above(wander, sigma)
    ensures (sh == 0 || sh in Shifts(wander, sigma)) && -1 <= e + sh <= 2
  {
    hide LatticeSteps;
    var shifts := Shifts(wander, sigma);
    if -1 <= e <= 2 {
      sh := 0;
    } else if !wander {
      sh := if e == 3 then -1 else 1;
      assert shifts[0] == 1 && shifts[1] == -1;
    } else {
      var k: nat := if e > 0 then (e + 1) / 4 else (2 - e) / 4;
      sh := if e > 0 then -4 * k else 4 * k;
      var at: nat := if e > 0 then 2 * k + 1 else 2 * k;
      assert shifts[at] == LatticeShifts(LatticeSteps(sigma))[at - 2] == sh;
    }
  }

  lemma ShiftReach(wander: bool, sigma: real, sh: int)
    requires sh == 0 || sh in Shifts(wander, sigma)
    ensures 2 - sh <= Above(wander, sigma) && Below(wander, sigma) - 1 >= sh
  {
    hide LatticeSteps;
    if sh in Shifts(wander, sigma) && sh != 1 && sh != -1 {
      var i: nat :| i < |LatticeShifts(LatticeSteps(sigma))| && LatticeShifts(LatticeSteps(sigma))[i] == sh;
    }
  }

  /** The header of a frame sent with p, as this receiver is to read it. */
  function SentHeader(p: Params, payload: seq<Crc.Byte>): HeaderInfo
    requires 1 <= |payload| <= 255
  {
    HeaderInfo(true, |payload|, p.cr, p.hasCrc)
  }

  /** The header symbols of the frame, all but symbol k within reach of shift sh. */
  ghost predicate HeaderStrays(p: Params, payload: seq<Crc.Byte>, values: seq<nat>, sh: int, k: nat)
    requires ValidParams(p) && |values| >= 8
  {
    var sent := BlockChips(p.sf, 4, true, Padded(Stream(payload, p.cr, p.hasCrc), 0, p.sf - 2));
    k < 8 && forall i: nat | i < 8 && i != k :: LandsAfter(p.sf, sent[i], values[i], sh)
  }

  /** Moved by the right shift the header reads as sent, whatever symbol k was. */
  lemma ShiftedHeaderReads(s: Settings, p: Params, payload: seq<Crc.Byte>, values: seq<nat>, sh: int, k: nat)
    requires s.Valid() && ValidParams(p) && s.params.sf == p.sf && s.chips == Pow2(p.sf) && 1 <= |payload| <= 255
    requires (s.params.hasCrc ==> p.hasCrc) && |values| >= 8 && HeaderStrays(p, payload, values, sh, k)
    ensures HeadOf(s, RangeMoved(values, 0, |values|, sh, s.chips)) == SentHeader(p, payload)
    ensures sh == 0 ==> HeadOf(s, values) == SentHeader(p, payload)
  {
    var moved := RangeMoved(values, 0, |values|, sh, s.chips);
    hide *;
    ReadsAsSent(s, p, payload, values, moved, sh, k);
    HeaderOnlyMatters(s, p, payload, moved);
    if sh == 0 {
      UnmovedReads(p, payload, values, k);
      HeaderOnlyMatters(s, p, payload, values);
    }
  }

  lemma UnmovedLands(sf: nat, sent: nat, raw: nat)
    ensures LandsAfter(sf, sent, raw, 0) <==> Gray.Lands(sf, true, sent, raw)
  {
    ModDifference(raw - sent, raw - sent, Pow2(sf));
    SameResidue(Pow2(sf), sent, raw, 0, raw - sent);
  }

  lemma UnmovedReads(p: Params, payload: seq<Crc.Byte>, values: seq<nat>, k: nat)
    requires ValidParams(p) && |values| >= 8 && HeaderStrays(p, payload, values, 0, k)
    ensures BlockReads(p.sf, Hard(values), 0, 4, true, Padded(Stream(payload, p.cr, p.hasCrc), 0, p.sf - 2))
  {
    hide Padded, BlockChips, Stream, Gray.Lands, LandsAfter, BlockReads;
    var block := Padded(Stream(payload, p.cr, p.hasCrc), 0, p.sf - 2);
    var sent := BlockChips(p.sf, 4, true, block);
    assert AllButOneLand(p.sf, true, sent, values, 0, k) by {
      forall i: nat | i < 8 && i != k ensures Gray.Lands(p.sf, true, sent[i], values[0 + i]) {
        assert LandsAfter(p.sf, sent[i], values[i], 0);
        UnmovedLands(p.sf, sent[i], values[i]);
      }
    }
    ToleratedBlockReads(p.sf, 4, true, block, values, 0);
  }

  lemma ReadsAsSent(s: Settings, p: Params, payload: seq<Crc.Byte>, values: seq<nat>, moved: seq<nat>, sh: int, k: nat)
    requires s.Valid() && ValidParams(p) && s.chips == Pow2(p.sf) && |values| >= 8 && HeaderStrays(p, payload, values, sh, k)
    requires moved == RangeMoved(values, 0, |values|, sh, s.chips)
    ensures |moved| >= 8 && BlockReads(p.sf, Hard(moved), 0, 4, true, Padded(Stream(payload, p.cr, p.hasCrc), 0, p.sf - 2))
  {
    hide Padded, BlockChips, Stream, Gray.Lands, Moved, BlockReads;
    var block := Padded(Stream(payload, p.cr, p.hasCrc), 0, p.sf - 2);
    var sent := BlockChips(p.sf, 4, true, block);
    assert AllButOneLand(p.sf, true, sent, moved, 0, k) by {
      forall i: nat | i < 8 && i != k ensures Gray.Lands(p.sf, true, sent[i], moved[0 + i]) {
        assert LandsAfter(p.sf, sent[i], values[i], sh);
      }
    }
    ToleratedBlockReads(p.sf, 4, true, block, moved, 0);
  }

  lemma HeaderOnlyMatters(s: Settings, p: Params, payload: seq<Crc.Byte>, values: seq<nat>)
    requires s.Valid() && ValidParams(p) && s.params.sf == p.sf && (s.params.hasCrc ==> p.hasCrc) && 1 <= |payload| <= 255
    requires |values| >= 8 && BlockReads(p.sf, Hard(values), 0, 4, true, Padded(Stream(payload, p.cr, p.hasCrc), 0, p.sf - 2))
    ensures HeadOf(s, values) == SentHeader(p, payload)
  {
    hide *;
    HeaderDecoded(p, payload, Hard(values));
    SameHeaderBlock(s.params, p, values);
    LengthByte(p, payload);
    ValidHeaderKept(s, values);
  }

  lemma LengthByte(p: Params, payload: seq<Crc.Byte>)
    requires 1 <= |payload| <= 255
    ensures HeaderInfo(|payload| % 256 != 0, |payload| % 256, p.cr, p.hasCrc) == SentHeader(p, payload)
    ensures SentHeader(p, payload).valid && SentHeader(p, payload).hasCrc == p.hasCrc
  {
  }

  /** A valid header with the flag the link asks for is not enforced away. */
  lemma ValidHeaderKept(s: Settings, values: seq<nat>)
    requires s.Valid() && |values| >= 8
    requires var h := HeaderOf(s.params, Hard(values)); h.valid && (s.params.hasCrc ==> h.hasCrc)
    ensures HeadOf(s, values) == HeaderOf(s.params, Hard(values))
  {
    hide HeaderOf, AllDecided, AllEnd;
  }

  lemma SameHeaderBlock(q: Params, p: Params, values: seq<nat>)
    requires ValidParams(p) && q.sf == p.sf && |values| >= 8
    ensures HeaderOf(q, Hard(values)) == HeaderOf(p, Hard(values))
  {
    hide DecideBlock;
  }

  /** A header displaced as a whole by up to Below or Above chips, one of its
      symbols replaced besides, is never given up; and unless something before
      it on the list parses too, the header accepted is the one sent. */
  lemma DisplacedHeaderFound(s: Settings, sigma: real, soft: HeaderInfo, alts: seq<Alt>, was: Track, c: Check, at: nat,
                             p: Params, payload: seq<Crc.Byte>, sh: int, k: nat)
    requires s.Valid() && ValidParams(p) && s.params.sf == p.sf && s.chips == Pow2(p.sf) && (s.params.hasCrc ==> p.hasCrc)
    requires |was.values| >= 8 && 1 <= |payload| <= 255 && HeaderStrays(p, payload, was.values, sh, k)
    requires sh == 0 || sh in Shifts(s.wander, sigma)
    requires Judged(s, sigma, soft, alts, was, c, at)
    ensures c.go
    ensures sh != 0 && !HeadOf(s, was.values).valid && !c.softly ==>
      exists i: nat :: i < |Shifts(s.wander, sigma)| && Shifts(s.wander, sigma)[i] == sh && at <= i && (at == i ==> c.head == SentHeader(p, payload))
    ensures sh == 0 ==> c.head == SentHeader(p, payload) && c.track == was
  {
    hide HeadOf, RangeMoved, Shifts, Lowered, RowsMoved, AltList;
    ShiftedHeaderReads(s, p, payload, was.values, sh, k);
    if sh != 0 && !HeadOf(s, was.values).valid && !(s.softDecoding && soft.valid) {
      var shifts := Shifts(s.wander, sigma);
      var i: nat :| i < |shifts| && shifts[i] == sh;
      var list := ShiftedAll(was.values, shifts, s.chips) + AltList(was.values, alts);
      assert list[i] == RangeMoved(was.values, 0, |was.values|, sh, s.chips);
      assert HeadOf(s, list[i]).valid;
      assert at <= i;
    }
  }

  /** The header symbols, all but symbol k, read d chips off. */
  ghost predicate HeaderOffBy(p: Params, payload: seq<Crc.Byte>, values: seq<nat>, d: int, k: nat)
    requires ValidParams(p) && |values| >= 8
  {
    var sent := BlockChips(p.sf, 4, true, Padded(Stream(payload, p.cr, p.hasCrc), 0, p.sf - 2));
    k < 8 && forall i: nat | i < 8 && i != k :: (values[i] - sent[i] - d) % Pow2(p.sf) == 0
  }

  /** A common displacement from -Below to Above chips never costs the frame its header. */
  lemma CommonDisplacementFound(s: Settings, sigma: real, soft: HeaderInfo, alts: seq<Alt>, was: Track, c: Check, at: nat,
                                p: Params, payload: seq<Crc.Byte>, d: int, k: nat)
    requires s.Valid() && ValidParams(p) && s.params.sf == p.sf && s.chips == Pow2(p.sf) && (s.params.hasCrc ==> p.hasCrc)
    requires |was.values| >= 8 && 1 <= |payload| <= 255 && HeaderOffBy(p, payload, was.values, d, k)
    requires d + Below(s.wander, sigma) >= 0 && d <= Above(s.wander, sigma)
    requires Judged(s, sigma, soft, alts, was, c, at)
    ensures c.go
  {
    hide Padded, BlockChips, Stream, Judged, LandsAfter;
    var sh := ShiftFor(s.wander, sigma, d);
    var n := Pow2(p.sf);
    WideEnough(p.sf);
    SmallResidue(d + sh, n);
    var sent := BlockChips(p.sf, 4, true, Padded(Stream(payload, p.cr, p.hasCrc), 0, p.sf - 2));
    forall i: nat | i < 8 && i != k ensures LandsAfter(p.sf, sent[i], was.values[i], sh) {
      Landing(p.sf, sent[i], was.values[i], sh, d);
    }
    DisplacedHeaderFound(s, sigma, soft, alts, was, c, at, p, payload, sh, k);
  }

  // The check itself.

  class HeaderCheck {
    const s: Settings
    const sigma: real
    /** Bit log-likelihoods of rows of magnitudes, whatever they are. */
    const llrs: SoftRows -> seq<SoftRow>
    var values: seq<nat>
    var mags: SoftRows
    var reference: real
    var prevObs: seq<Obs>
    var slipObs: seq<Obs>
    var carrier: real
    var carrierRef: real
    var haveLen: bool
    var needed: nat
    var softHeaders: nat

    ghost function Now(): Track
      reads this
    {
      Track(values, mags, reference, prevObs, slipObs, carrier, carrierRef)
    }

    ghost function SoftHead(rows: SoftRows): HeaderInfo
      requires s.Valid()
    {
      SoftDecoded(s, DecodedFrame(s.params, Soft(llrs(FirstRows(rows, 8))))).header
    }

    method ShiftsToTry() returns (shifts: seq<int>)
      ensures shifts == Shifts(s.wander, sigma)
    {
      shifts := [1, -1];
      if s.wander {
        var most := LatticeSteps(sigma);
        ghost var first := shifts;
        for k: nat := 1 to most + 1
          invariant shifts == first + LatticeShifts(k - 1)
        {
          shifts := shifts + [4 * k, -4 * k];
        }
      }
    }

    method MoveRows(sh: int)
      modifies `mags
      ensures mags == RowsMoved(old(mags), sh, Min(|values|, |old(mags)|))
    {
      ghost var was := mags;
      var n := Min(|values|, |mags|);
      for r := 0 to n
        invariant |mags| == |was| && mags == RowsMoved(was, sh, r)
      {
        mags := mags[r := Rotated(mags[r], sh)];
      }
    }

    method MoveAll(sh: int, shifted: seq<nat>)
      requires s.Valid() && shifted == RangeMoved(values, 0, |values|, sh, s.chips)
      modifies `values, `mags, `reference, `prevObs, `slipObs, `carrier, `carrierRef
      ensures Now() == MovedBy(old(Now()), sh, s.chips)
    {
      values := shifted;
      MoveRows(sh);
      reference := reference - sh as real;
      prevObs := LowerObs(prevObs, sh);
      slipObs := LowerObs(slipObs, sh);
      carrier := carrier - sh as real;
      carrierRef := carrierRef - sh as real;
    }

    method LowerObs(zs: seq<Obs>, sh: int) returns (r: seq<Obs>)
      ensures r == Lowered(zs, sh)
    {
      r := zs;
      for i := 0 to |zs|
        invariant |r| == |zs|
        invariant forall j: nat | j < |zs| :: r[j] == if j < i then zs[j].(y := zs[j].y - sh as real) else zs[j]
      {
        r := r[i := r[i].(y := r[i].y - sh as real)];
      }
    }

    /** Smallest displacements first. */
    method TryShifts() returns (head: HeaderInfo, ghost at: nat)
      requires s.Valid() && |values| >= 8
      modifies `values, `mags, `reference, `prevObs, `slipObs, `carrier, `carrierRef
      ensures var shifts := Shifts(s.wander, sigma);
              var list := ShiftedAll(old(values), shifts, s.chips);
              && FirstOf(s, list, at) && head.valid == (at < |list|)
              && Now() == (if at < |list| then MovedBy(old(Now()), shifts[at], s.chips) else old(Now()))
              && (head.valid ==> head == HeadOf(s, values))
    {
      hide HardDecoded, RangeMoved, Shifts, RowsMoved, Lowered;
      var shifts := ShiftsToTry();
      ghost var start := values;
      at := 0;
      head := NO_HEADER;
      for i := 0 to |shifts|
        invariant Now() == old(Now()) && at == i && values == start && !head.valid
        invariant forall j: nat | j < i :: !HeadOf(s, ShiftedAll(start, shifts, s.chips)[j]).valid
      {
        var shifted := ShiftValues(values, shifts[i]);
        var h := DecodeHeader(shifted);
        if h.valid {
          MoveAll(shifts[i], shifted);
          return h, at;
        }
        at := at + 1;
      }
    }

    method ShiftValues(v: seq<nat>, sh: int) returns (shifted: seq<nat>)
      requires s.Valid()
      ensures shifted == RangeMoved(v, 0, |v|, sh, s.chips)
    {
      shifted := [];
      for i := 0 to |v|
        invariant |shifted| == i && forall j: nat | j < i :: shifted[j] == Moved(v[j], sh, s.chips)
      {
        shifted := shifted + [Moved(v[i], sh, s.chips)];
      }
    }

    method DecodeHeader(v: seq<nat>) returns (h: HeaderInfo)
      requires s.Valid()
      ensures h == HeadOf(s, v)
    {
      var d := DecodeFrame(s.params, v);
      h := Enforced(s, d).header;
    }

    /** A single rival inside the header. */
    method TryAlts(alts: seq<Alt>) returns (head: HeaderInfo, ghost at: nat)
      requires s.Valid() && |values| >= 8
      modifies `values
      ensures var list := AltList(old(values), alts);
              && FirstOf(s, list, at) && head.valid == (at < |list|)
              && values == (if at < |list| then list[at] else old(values))
              && (head.valid ==> head == HeadOf(s, values))
    {
      hide HardDecoded;
      ghost var start := values;
      at := 0;
      head := NO_HEADER;
      for i := 0 to |alts|
        invariant values == start && !head.valid && at == |AltList(start, alts[..i])| && FirstOf(s, AltList(start, alts[..i]), at)
      {
        AltStep(start, alts, i);
        if alts[i].idx < 8 {
          var cand := values[alts[i].idx := alts[i].value];
          var h := DecodeHeader(cand);
          if h.valid {
            values := cand;
            return h, at;
          }
          at := at + 1;
        }
      }
      assert alts[..|alts|] == alts;
    }

    /** After eight symbols: accept a header and fix the frame's length, or give up. */
    method CheckHeader(alts: seq<Alt>) returns (go: bool, ghost c: Check, ghost at: nat)
      requires s.Valid()
      modifies this
      ensures old(haveLen) || |old(values)| < 8 ==>
        go && Now() == old(Now()) && haveLen == old(haveLen) && needed == old(needed) && softHeaders == old(softHeaders)
      ensures !old(haveLen) && |old(values)| >= 8 ==>
        && Judged(s, sigma, SoftHead(old(mags)), alts, old(Now()), c, at) && go == c.go && Now() == c.track
        && haveLen == go && softHeaders == old(softHeaders) + (if go && c.softly then 1 else 0)
        && (if go then CodingRateOf(c.head) && needed == Needed(s, c.head) else needed == old(needed))
    {
      hide HardDecoded, Enforced, RangeMoved, Shifts, RowsMoved, Lowered, FrameSymbolCount, DecodedFrame;
      at := 0;
      if haveLen || |values| < 8 {
        return true, Check(true, Now(), NO_HEADER, false), at;
      }
      ghost var was := Now();
      ghost var softly := false;
      var head := DecodeHeader(values);
      if !head.valid && s.softDecoding {
        var hs := SoftHeader();
        if hs.valid {
          head := hs;
          softly := true;
          softHeaders := softHeaders + 1;
        }
      }
      if !head.valid {
        head, at := Search(alts);
      }
      c := Check(head.valid, Now(), head, softly);
      if !head.valid {
        return false, c, at;
      }
      Rated(was, c, alts, at);
      needed := FrameSymbolCount(SentParams(s.params, head), head.payloadLen);
      haveLen := true;
      go := true;
    }

    method SoftHeader() returns (h: HeaderInfo)
      requires s.Valid()
      ensures h == SoftHead(mags)
    {
      hide DecodedFrame;
      var d := DecodeFrameSoft(s.params, llrs(FirstRows(mags, 8)));
      h := SoftDecoded(s, d).header;
    }

    /** The shifts, then the rivals. */
    method Search(alts: seq<Alt>) returns (head: HeaderInfo, ghost at: nat)
      requires s.Valid() && |values| >= 8
      modifies `values, `mags, `reference, `prevObs, `slipObs, `carrier, `carrierRef
      ensures Searching(s, sigma, alts, old(Now()), Check(head.valid, Now(), head, false), at)
    {
      hide HeadOf, RangeMoved, Shifts, RowsMoved, Lowered, AltList;
      head, at := TryShifts();
      if !head.valid {
        ghost var tried: nat;
        head, tried := TryAlts(alts);
        at := at + tried;
      }
    }

    lemma Rated(was: Track, c: Check, alts: seq<Alt>, at: nat)
      requires s.Valid() && |was.values| >= 8 && c.go && Judged(s, sigma, SoftHead(was.mags), alts, was, c, at)
      ensures c.head.valid && CodingRateOf(c.head)
    {
      hide DecodedFrame, RangeMoved, Shifts, RowsMoved, Lowered;
      if c.softly {
        ValidHeadHasRate(s, Soft(llrs(FirstRows(was.mags, 8))));
      } else {
        AcceptedHead(s, sigma, SoftHead(was.mags), alts, was, c, at);
        ValidHeadHasRate(s, Hard(c.track.values));
      }
    }
  }

  lemma AltStep(values: seq<nat>, alts: seq<Alt>, i: nat)
    requires |values| >= 8 && i < |alts|
    ensures var before, a := AltList(values, alts[..i]), alts[i];
            AltList(values, alts[..i + 1]) == before + (if a.idx < 8 then [values[a.idx := a.value]] else [])
            && AltList(values, alts[..i + 1]) <= AltList(values, alts)
  {
    assert alts[..i + 1][..i] == alts[..i];
    AltPrefix(values, alts, i + 1);
  }

  lemma {:induction false} AltPrefix(values: seq<nat>, alts: seq<Alt>, i: nat)
    requires |values| >= 8 && i <= |alts|
    ensures AltList(values, alts[..i]) <= AltList(values, alts)
  {
    if i < |alts| {
      AltPrefix(values, alts[..|alts| - 1], i);
      assert alts[..|alts| - 1][..i] == alts[..i];
    } else {
      assert alts[..i] == alts;
    }
  }
}
