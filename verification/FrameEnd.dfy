/** What happens when the last symbol of a frame is in: slips undone, repairs searched. */
module FrameEnd {
  import opened Bits
  import opened Frame
  import opened Header
  import opened Numbers
  import Modulo
  import opened SlipSearch

  type SoftRows = seq<seq<real>>

  /** A rival peak: symbol, its other value, and how close the rival came. */
  datatype Alt = Alt(idx: nat, value: nat, ratio: real)

  datatype Settings = Settings(
    params: Params, chips: nat, softDecoding: bool, softTailMargin: real, verifyBelow: real, wander: bool)
  {
    predicate Valid() {
      SpreadingFactor(params.sf) && chips > 0
    }
  }

  // Decoding with the link's checksum flag enforced.

  /** On a link that runs with checksums a header without one is noise. */
  function Enforced(s: Settings, d: DecodeResult): DecodeResult {
    if s.params.hasCrc && d.header.valid && !d.header.hasCrc
    then d.(header := d.header.(valid := false), crcOk := false)
    else d
  }

  function HardDecoded(s: Settings, values: seq<nat>): DecodeResult
    requires s.Valid()
  {
    Enforced(s, DecodedFrame(s.params, Hard(values)))
  }

  /** Also holds back a pass whose tail was too close to call. */
  function SoftDecoded(s: Settings, raw: DecodeResult): DecodeResult {
    var d := Enforced(s, raw);
    if d.crcOk && d.tailMargin < s.softTailMargin then d.(crcOk := false) else d
  }

  predicate Passes(d: DecodeResult) {
    d.header.valid && d.crcOk
  }

  predicate FailsChecksum(d: DecodeResult) {
    d.header.valid && d.header.hasCrc && !d.crcOk
  }

  // Repairs.

  function Moved(v: nat, sh: int, chips: nat): nat
    requires chips > 0
  {
    (v + sh) % chips
  }

  /** The values of symbols lo to hi - 1 moved by sh chips. */
  function RangeMoved(values: seq<nat>, lo: nat, hi: nat, sh: int, chips: nat): (r: seq<nat>)
    requires chips > 0
    ensures |r| == |values| && forall i: nat | i < |values| :: r[i] == if lo <= i < hi then Moved(values[i], sh, chips) else values[i]
  {
    seq<nat>(|values|, i requires 0 <= i < |values| => if lo <= i < hi then Moved(values[i], sh, chips) else values[i])
  }

  function WholeList(values: seq<nat>, chips: nat): seq<seq<nat>>
    requires chips > 0
  {
    [RangeMoved(values, 0, |values|, -1, chips), RangeMoved(values, 0, |values|, 1, chips)]
  }

  /** A lone symbol a chip off, for the first m symbols. */
  function LoneList(values: seq<nat>, chips: nat, m: nat): (l: seq<seq<nat>>)
    requires chips > 0
    ensures |l| == 2 * m
  {
    if m == 0 then []
    else LoneList(values, chips, m - 1) + [RangeMoved(values, m - 1, m, -1, chips), RangeMoved(values, m - 1, m, 1, chips)]
  }

  /** Everything from an anchor on, or up to it, a chip off. */
  function AnchorFour(values: seq<nat>, chips: nat, m: nat): (l: seq<seq<nat>>)
    requires chips > 0
    ensures |l| == 4
  {
    [RangeMoved(values, m, |values|, -1, chips), RangeMoved(values, 0, m + 1, -1, chips),
     RangeMoved(values, m, |values|, 1, chips), RangeMoved(values, 0, m + 1, 1, chips)]
  }

  function AnchorList(values: seq<nat>, chips: nat, anchors: seq<nat>): (l: seq<seq<nat>>)
    requires chips > 0
    ensures |l| == 4 * |anchors|
  {
    if |anchors| == 0 then []
    else AnchorList(values, chips, anchors[..|anchors| - 1]) + AnchorFour(values, chips, anchors[|anchors| - 1])
  }

  /** The rivals whose bit is set in the mask, among the first k, put in. */
  function Substituted(values: seq<nat>, alts: seq<Alt>, mask: nat, k: nat): (r: seq<nat>)
    requires k <= |alts|
    ensures |r| == |values|
  {
    if k == 0 then values
    else
      var r := Substituted(values, alts, mask, k - 1);
      if Bit(mask, k - 1) && alts[k - 1].idx < |values| then r[alts[k - 1].idx := alts[k - 1].value] else r
  }

  predicate InFrame(values: seq<nat>, alts: seq<Alt>, mask: nat, k: nat)
    requires k <= |alts|
  {
    forall i: nat | i < k && Bit(mask, i) :: alts[i].idx < |values|
  }

  function MaskOne(values: seq<nat>, alts: seq<Alt>, mask: nat, k: nat): (l: seq<seq<nat>>)
    requires k <= |alts|
    ensures |l| <= 1
  {
    if InFrame(values, alts, mask, k) then [Substituted(values, alts, mask, k)] else []
  }

  /** Masks 1 to end - 1. */
  function MaskList(values: seq<nat>, alts: seq<Alt>, k: nat, end: nat): (l: seq<seq<nat>>)
    requires k <= |alts|
    ensures |l| <= if end == 0 then 0 else end - 1
  {
    if end <= 1 then [] else MaskList(values, alts, k, end - 1) + MaskOne(values, alts, end - 1, k)
  }

  function PairOne(values: seq<nat>, a: Alt, b: Alt): (l: seq<seq<nat>>)
    ensures |l| <= 1
  {
    if a.idx < |values| && b.idx < |values| then [values[a.idx := a.value][b.idx := b.value]] else []
  }

  /** Rival i with each of rivals i + 1 to end - 1. */
  function PairRow(values: seq<nat>, alts: seq<Alt>, i: nat, end: nat): (l: seq<seq<nat>>)
    requires i < |alts| && end <= |alts|
    ensures |l| <= if end > i then end - i - 1 else 0
  {
    if end <= i + 1 then [] else PairRow(values, alts, i, end - 1) + PairOne(values, alts[i], alts[end - 1])
  }

  function PairList(values: seq<nat>, alts: seq<Alt>, rows: nat): (l: seq<seq<nat>>)
    requires rows <= |alts|
  {
    if rows == 0 then [] else PairList(values, alts, rows - 1) + PairRow(values, alts, rows - 1, |alts|)
  }

  const ANCHORS: nat := 6
  const RIVALS: nat := 8
  const SUBSET: nat := 6

  /** Everything the search may try, in its order. */
  function Repairs(values: seq<nat>, chips: nat, anchors: seq<nat>, alts: seq<Alt>): seq<seq<nat>>
    requires chips > 0
  {
    var k := Min(|alts|, 6);
    WholeList(values, chips) + LoneList(values, chips, |values|) + AnchorList(values, chips, anchors)
    + MaskList(values, alts, k, Pow2(k)) + PairList(values, alts, |alts|)
  }

  function Triangle(n: nat): nat {
    if n == 0 then 0 else Triangle(n - 1) + n - 1
  }

  lemma {:induction false} PairCount(values: seq<nat>, alts: seq<Alt>, rows: nat)
    requires rows <= |alts|
    ensures |PairList(values, alts, rows)| <= Triangle(|alts|) - Triangle(|alts| - rows)
  {
    if rows > 0 { PairCount(values, alts, rows - 1); }
  }

  /** At most 117 + 2 n candidates for n symbols. */
  lemma RepairCount(values: seq<nat>, chips: nat, anchors: seq<nat>, alts: seq<Alt>)
    requires chips > 0 && |anchors| <= ANCHORS && |alts| <= RIVALS
    ensures |Repairs(values, chips, anchors, alts)| <= 117 + 2 * |values|
  {
    var k := Min(|alts|, SUBSET);
    Pow2Monotone(k, SUBSET);
    Pow2Table();
    PairCount(values, alts, |alts|);
    PairBound(|alts|);
  }

  lemma {:induction false} TriangleMonotone(m: nat, n: nat)
    requires m <= n
    ensures Triangle(m) <= Triangle(n)
  {
    if m < n { TriangleMonotone(m, n - 1); }
  }

  lemma PairBound(n: nat)
    requires n <= RIVALS
    ensures Triangle(n) <= 28
  {
    TriangleMonotone(n, 8);
    assert Triangle(8) == Triangle(7) + 7 && Triangle(7) == Triangle(6) + 6 && Triangle(6) == Triangle(5) + 5;
    assert Triangle(5) == Triangle(4) + 4 && Triangle(4) == Triangle(3) + 3 && Triangle(3) == Triangle(2) + 2;
  }

  // Anchors and rivals, strongest first.

  ghost predicate Descending(order: seq<nat>, keys: seq<real>) {
    && (forall i: nat | i < |order| :: order[i] < |keys|)
    && forall i: nat, j: nat | i < j < |order| :: keys[order[i]] >= keys[order[j]]
  }

  lemma Inserted(order: seq<nat>, at: nat, x: nat, keys: seq<real>)
    requires Descending(order, keys) && at <= |order| && x < |keys|
    requires forall i: nat | i < at :: keys[order[i]] >= keys[x]
    requires at < |order| ==> keys[order[at]] < keys[x]
    ensures Descending(order[..at] + [x] + order[at..], keys)
  {
    var r := order[..at] + [x] + order[at..];
    forall i: nat | i < |r| ensures r[i] == if i < at then order[i] else if i == at then x else order[i - 1] {
    }
    forall i: nat, j: nat | i < j < |r| ensures keys[r[i]] >= keys[r[j]] {
      if j > at && at < |order| {
        assert keys[order[at]] >= keys[order[j - 1]] || j - 1 == at;
      }
    }
  }

  lemma InsertedElements(order: seq<nat>, at: nat, x: nat)
    requires at <= |order|
    ensures multiset(order[..at] + [x] + order[at..]) == multiset(order) + multiset{x}
  {
    assert order == order[..at] + order[at..];
  }

  /** Indices in decreasing order of key. */
  method SortDescending(idx: seq<nat>, keys: seq<real>) returns (order: seq<nat>)
    requires forall i: nat | i < |idx| :: idx[i] < |keys|
    ensures Descending(order, keys) && multiset(order) == multiset(idx)
  {
    order := [];
    for n := 0 to |idx|
      invariant Descending(order, keys) && multiset(order) == multiset(idx[..n])
    {
      var at: nat := 0;
      while at < |order| && keys[order[at]] >= keys[idx[n]]
        invariant at <= |order| && forall i: nat | i < at :: keys[order[i]] >= keys[idx[n]]
      {
        at := at + 1;
      }
      Inserted(order, at, idx[n], keys);
      InsertedElements(order, at, idx[n]);
      assert idx[..n + 1] == idx[..n] + [idx[n]];
      order := order[..at] + [idx[n]] + order[at..];
    }
    assert idx[..|idx|] == idx;
  }

  function Sizes(fracs: seq<real>): (r: seq<real>)
    ensures |r| == |fracs| && forall i: nat | i < |r| :: r[i] == Abs(fracs[i])
  {
    seq(|fracs|, i requires 0 <= i < |fracs| => Abs(fracs[i]))
  }

  const QUARTER: real := 0.25

  ghost predicate AllAtLeast(first: seq<nat>, keys: seq<real>, x: real) {
    forall i: nat | i < |first| :: first[i] < |keys| && keys[first[i]] >= x
  }

  /** Up to six symbols read more than a quarter chip off, worst first; no symbol left out is worse. */
  ghost predicate AnchorsOf(anchors: seq<nat>, fracs: seq<real>, n: nat) {
    && |anchors| <= 6 && Descending(anchors, Sizes(fracs))
    && (forall i: nat | i < |anchors| :: anchors[i] < n && anchors[i] < |fracs| && Abs(fracs[anchors[i]]) > 0.25)
    && (forall m: nat | m < n && m < |fracs| && Abs(fracs[m]) > 0.25 && m !in anchors ::
          |anchors| == 6 && AllAtLeast(anchors, Sizes(fracs), Abs(fracs[m])))
  }

  method Anchors(fracs: seq<real>, n: nat) returns (anchors: seq<nat>)
    ensures AnchorsOf(anchors, fracs, n)
  {
    var found: seq<nat> := [];
    for m := 0 to Min(|fracs|, n)
      invariant forall i: nat | i < |found| :: found[i] < m && Abs(fracs[found[i]]) > QUARTER
      invariant forall i: nat | i < m && Abs(fracs[i]) > QUARTER :: i in found
    {
      if Abs(fracs[m]) > QUARTER {
        found := found + [m];
      }
    }
    var order := SortDescending(found, Sizes(fracs));
    anchors := order[..Min(|order|, ANCHORS)];
    SortedFirst(order, found, Sizes(fracs), ANCHORS);
  }

  lemma PrefixHas<T>(s: seq<T>, n: nat, l: nat)
    requires l < n <= |s|
    ensures s[l] in s[..n]
  {
    assert s[..n][l] == s[l];
  }

  /** The first of a sorted list come from it, and what they leave out is no larger. */
  lemma SortedFirst(order: seq<nat>, found: seq<nat>, keys: seq<real>, limit: nat)
    requires multiset(order) == multiset(found) && Descending(order, keys)
    ensures var first := order[..Min(|order|, limit)];
            (forall i: nat | i < |first| :: first[i] in found)
            && forall m: nat | m in found && m !in first :: |first| == limit && m < |keys| && AllAtLeast(first, keys, keys[m])
  {
    var first := order[..Min(|order|, limit)];
    forall i: nat | i < |first| ensures first[i] in found {
      assert order[i] in multiset(order);
    }
    forall l: nat | l < |first| ensures order[l] in first {
      PrefixHas(order, |first|, l);
    }
    forall m: nat | m in found && m !in first ensures |first| == limit && m < |keys| && AllAtLeast(first, keys, keys[m]) {
      assert m in multiset(found);
      assert m in order;
      var l: nat :| l < |order| && order[l] == m;
      assert |first| <= l;
    }
  }

  function Ratios(alts: seq<Alt>): (r: seq<real>)
    ensures |r| == |alts| && forall i: nat | i < |r| :: r[i] == alts[i].ratio
  {
    seq(|alts|, i requires 0 <= i < |alts| => alts[i].ratio)
  }

  /** The eight rivals that came closest, closest first. */
  ghost predicate RivalsOf(best: seq<Alt>, alts: seq<Alt>) {
    && |best| <= 8 && (forall i: nat | i < |best| :: best[i] in alts)
    && (forall i: nat, j: nat | i < j < |best| :: best[i].ratio >= best[j].ratio)
    && (forall a | a in alts && a !in best :: |best| == 8 && forall i: nat | i < |best| :: best[i].ratio >= a.ratio)
  }

  method Rivals(alts: seq<Alt>) returns (best: seq<Alt>)
    ensures RivalsOf(best, alts)
  {
    var idx: seq<nat> := [];
    for i := 0 to |alts|
      invariant |idx| == i && forall j: nat | j < i :: idx[j] == j
    {
      idx := idx + [i];
    }
    var order := SortDescending(idx, Ratios(alts));
    SortedFirst(order, idx, Ratios(alts), RIVALS);
    ghost var first := order[..Min(|order|, RIVALS)];
    best := [];
    for i := 0 to Min(|order|, RIVALS)
      invariant |best| == i && forall j: nat | j < i :: best[j] == alts[order[j]]
    {
      best := best + [alts[order[i]]];
    }
    forall l: nat | l < |first| ensures alts[first[l]] in best {
      assert best[l] == alts[first[l]];
    }
    forall a | a in alts && a !in best ensures |best| == RIVALS && forall i: nat | i < |best| :: best[i].ratio >= a.ratio {
      var m: nat :| m < |alts| && alts[m] == a;
      assert idx[m] == m;
      assert m !in first;
      forall i: nat | i < |best| ensures best[i].ratio >= a.ratio {
        assert first[i] == order[i];
      }
    }
  }

  // Soft evidence moves with the values.

  /** Reading u of the moved row is reading u - sh of the old one. */
  function Rotated(row: seq<real>, sh: int): (r: seq<real>)
    ensures |r| == |row|
  {
    seq(|row|, u requires 0 <= u < |row| => row[(u - sh) % |row|])
  }

  /** A value and its row moved together still meet at the same evidence. */
  lemma EvidenceFollows(row: seq<real>, v: nat, sh: int)
    requires v < |row|
    ensures var u := Moved(v, sh, |row|); u < |row| && Rotated(row, sh)[u] == row[v]
  {
    var n := |row|;
    var q := Modulo.Quotient(v + sh, n);
    Modulo.ModUnique(Moved(v, sh, n) - sh, -q, n, v);
  }

  /** Values read along a slip path: each symbol's offset taken out. */
  function AlongPath(values: seq<nat>, offs: seq<int>, rows: nat, chips: nat): (r: seq<nat>)
    requires chips > 0 && rows <= |offs|
    ensures |r| == |values|
    ensures forall i: nat | i < |values| :: r[i] == if i < rows then Moved(values[i], -offs[i], chips) else values[i]
  {
    seq<nat>(|values|, i requires 0 <= i < |values| => if i < rows then Moved(values[i], -offs[i], chips) else values[i])
  }

  function RowsAlongPath(mags: SoftRows, offs: seq<int>, rows: nat): (r: SoftRows)
    requires rows <= |offs|
    ensures |r| == |mags|
  {
    seq<seq<real>>(|mags|, i requires 0 <= i < |mags| => if i < rows then Rotated(mags[i], -offs[i]) else mags[i])
  }

  lemma NoRows(mags: SoftRows, offs: seq<int>)
    ensures RowsAlongPath(mags, offs, 0) == mags
  {
  }

  lemma OneMoreRow(mags: SoftRows, offs: seq<int>, i: nat)
    requires i < |offs| && i < |mags|
    ensures var before := RowsAlongPath(mags, offs, i);
            RowsAlongPath(mags, offs, i + 1) == before[i := Rotated(before[i], -offs[i])]
            && (offs[i] == 0 ==> RowsAlongPath(mags, offs, i + 1) == before)
  {
    hide Rotated;
    RotatedByNothing(mags[i]);
  }

  ghost predicate PassesAlong(s: Settings, values: seq<nat>, path: seq<int>, rows: nat)
    requires s.Valid()
  {
    rows <= |path| && Passes(HardDecoded(s, AlongPath(values, path, rows, s.chips)))
  }

  /** The first path whose candidate passes; without one, the best path. */
  ghost predicate Chosen(s: Settings, values: seq<nat>, paths: seq<seq<int>>, rows: nat, pick: nat)
    requires s.Valid()
  {
    && pick < |paths|
    && (forall i: nat | i < pick :: !PassesAlong(s, values, paths[i], rows))
    && (PassesAlong(s, values, paths[pick], rows) || (pick == 0 && forall i: nat | i < |paths| :: !PassesAlong(s, values, paths[i], rows)))
  }

  method DecodeHard(s: Settings, values: seq<nat>) returns (d: DecodeResult)
    requires s.Valid()
    ensures d == HardDecoded(s, values)
  {
    d := DecodeFrame(s.params, values);
    if s.params.hasCrc && d.header.valid && !d.header.hasCrc {
      d := d.(header := d.header.(valid := false), crcOk := false);
    }
  }

  method PickPath(s: Settings, values: seq<nat>, paths: seq<seq<int>>, rows: nat) returns (pick: nat)
    requires s.Valid() && |paths| > 0 && forall i: nat | i < |paths| :: rows <= |paths[i]|
    ensures pick < |paths| && Chosen(s, values, paths, rows, pick)
  {
    hide HardDecoded;
    for i := 0 to |paths|
      invariant forall j: nat | j < i :: !PassesAlong(s, values, paths[j], rows)
    {
      var d := DecodeHard(s, AlongPath(values, paths[i], rows, s.chips));
      if d.header.valid && d.crcOk {
        return i;
      }
    }
    return 0;
  }

  /** The frame handed on. */
  datatype Queued = Queued(values: seq<nat>, decode: DecodeResult, synced: bool, softDecoded: bool)

  /** Where a repair search stands: what it has tried is the start of the list,
      nothing tried before the last passes, and on success the last one is now the frame. */
  ghost predicate Searched(s: Settings, start: seq<nat>, list: seq<seq<nat>>, tried: seq<seq<nat>>, fixed: bool, now: seq<nat>, d: DecodeResult)
    requires s.Valid()
  {
    && d == HardDecoded(s, now) && tried <= list
    && (forall i: nat | i < |tried| && (fixed ==> i < |tried| - 1) :: !Passes(HardDecoded(s, tried[i])))
    && (if fixed then |tried| > 0 && tried[|tried| - 1] == now && Passes(d) else tried == list && now == start)
  }

  lemma NothingTried(s: Settings, start: seq<nat>)
    requires s.Valid()
    ensures Searched(s, start, [], [], false, start, HardDecoded(s, start))
  {
    hide HardDecoded;
  }

  /** A search that succeeded within a list succeeded within every longer one. */
  lemma SearchGoesOn(s: Settings, start: seq<nat>, list: seq<seq<nat>>, tried: seq<seq<nat>>, now: seq<nat>, d: DecodeResult, longer: seq<seq<nat>>)
    requires s.Valid() && Searched(s, start, list, tried, true, now, d) && list <= longer
    ensures Searched(s, start, longer, tried, true, now, d)
  {
    hide HardDecoded;
  }

  function FirstRows(mags: SoftRows, n: nat): (rows: SoftRows)
    ensures rows <= mags && |rows| == Min(|mags|, n)
  {
    mags[..Min(|mags|, n)]
  }

  /** A difference of chip values folded to the nearest turn. */
  function Folded(v: int, chips: nat): int
    requires chips > 0
  {
    var r := if v >= 0 then v % chips else -((-v) % chips);
    if 2 * r > chips then r - chips else if 2 * r + chips < 0 then r + chips else r
  }

  /** How far symbol i was moved, when that is a single chip. */
  function ChipStep(hardIn: seq<nat>, values: seq<nat>, i: nat, chips: nat): int
    requires i < |hardIn| && i < |values| && chips > 0
  {
    var to: int, from: int := values[i], hardIn[i];
    var d := Folded(to - from, chips);
    if d == 1 || d == -1 then d else 0
  }

  /** A symbol counts as moved by d, up or down, if and only if it reads what moving it by d reads. */
  lemma ChipStepExactly(hardIn: seq<nat>, values: seq<nat>, i: nat, chips: nat, d: int)
    requires i < |hardIn| && i < |values| && hardIn[i] < chips && values[i] < chips && chips > 2 && (d == 1 || d == -1)
    ensures ChipStep(hardIn, values, i, chips) == d <==> values[i] == Moved(hardIn[i], d, chips)
  {
    var to: int, from: int := values[i], hardIn[i];
    FoldedWithin(to - from, chips);
    MovedByOne(hardIn[i], d, chips);
    hide Folded, Moved;
  }

  lemma FoldedWithin(v: int, chips: nat)
    requires v < chips && v + chips > 0
    ensures Folded(v, chips) == if 2 * v > chips then v - chips else if 2 * v + chips < 0 then v + chips else v
  {
    Modulo.ModSmall(if v >= 0 then v else -v, chips);
  }

  lemma MovedByOne(v: nat, d: int, chips: nat)
    requires v < chips && chips > 2 && (d == 1 || d == -1)
    ensures Moved(v, d, chips) == if v + d == chips then 0 else if v + d < 0 then chips - 1 else v + d
  {
    var r: nat := if v + d == chips then 0 else if v + d < 0 then chips - 1 else v + d;
    var q := if v + d == chips then 1 else if v + d < 0 then -1 else 0;
    Modulo.ModUnique(v + d, q, chips, r);
  }

  function StepCount(hardIn: seq<nat>, values: seq<nat>, n: nat, chips: nat): nat
    requires n <= |hardIn| && n <= |values| && chips > 0
  {
    if n == 0 then 0 else StepCount(hardIn, values, n - 1, chips) + if ChipStep(hardIn, values, n - 1, chips) != 0 then 1 else 0
  }

  /** The rows the confirmation reads: moved with the values when two or more
      symbols moved by a chip, as received for a lone one. */
  function ConfirmRows(mags: SoftRows, hardIn: seq<nat>, values: seq<nat>, chips: nat): (r: SoftRows)
    requires chips > 0
    ensures |r| == |mags|
  {
    var n := Min(Min(|values|, |mags|), |hardIn|);
    var slipped := StepCount(hardIn, values, n, chips) >= 2;
    seq<seq<real>>(|mags|, i requires 0 <= i < |mags| =>
      if slipped && i < n then Rotated(mags[i], ChipStep(hardIn, values, i, chips)) else mags[i])
  }

  lemma RotatedByNothing(row: seq<real>)
    ensures Rotated(row, 0) == row
  {
    forall u: nat | u < |row| ensures Rotated(row, 0)[u] == row[u] {
      Modulo.ModSmall(u, |row|);
    }
  }

  /** What undoing slips leaves: nothing changed without a failed frame or a
      path; otherwise the chosen path is taken out of values and rows alike. */
  ghost predicate SlipsUndone(s: Settings, failed: bool, paths: seq<seq<int>>, rows: nat, was: seq<nat>, rowsWas: SoftRows, now: seq<nat>, rowsNow: SoftRows)
    requires s.Valid()
  {
    if !failed || |paths| == 0 then now == was && rowsNow == rowsWas
    else exists pick: nat :: pick < |paths| && rows <= |paths[pick]| && Chosen(s, was, paths, rows, pick)
           && now == AlongPath(was, paths[pick], rows, s.chips) && rowsNow == RowsAlongPath(rowsWas, paths[pick], rows)
  }

  class FrameEnd {
    const s: Settings
    /** The soft decoder's result on rows of magnitudes at a chip shift, whatever it is. */
    const soft: (SoftRows, int) -> DecodeResult
    var values: seq<nat>
    var mags: SoftRows
    var decode: DecodeResult
    var synced: bool
    var softDecoded: bool
    var softFrames: nat
    var queue: seq<Queued>
    ghost var tried: seq<seq<nat>>

    ghost predicate Search(start: seq<nat>, list: seq<seq<nat>>, fixed: bool)
      requires s.Valid()
      reads this
    {
      Searched(s, start, list, tried, fixed, values, decode)
    }

    method TryDecode(cand: seq<nat>, ghost start: seq<nat>, ghost list: seq<seq<nat>>) returns (fixed: bool)
      requires s.Valid() && Search(start, list, false)
      modifies `values, `decode, `tried
      ensures Search(start, list + [cand], fixed) && (fixed ==> values == cand)
    {
      hide HardDecoded;
      var d := DecodeHard(s, cand);
      tried := tried + [cand];
      if d.header.valid && d.crcOk {
        values := cand;
        decode := d;
        return true;
      }
      return false;
    }

    method MoveRange(lo: nat, hi: nat, sh: int) returns (cand: seq<nat>)
      requires s.Valid() && lo <= hi && lo <= |values|
      ensures cand == RangeMoved(values, lo, hi, sh, s.chips)
    {
      cand := values;
      for i := lo to if hi < |values| then hi else |values|
        invariant |cand| == |values|
        invariant forall j: nat | j < |values| :: cand[j] == if lo <= j < i then Moved(values[j], sh, s.chips) else values[j]
      {
        cand := cand[i := (values[i] + sh) % s.chips];
      }
    }

    method TryWhole(ghost start: seq<nat>) returns (fixed: bool)
      requires s.Valid() && Search(start, [], false)
      modifies `values, `decode, `tried
      ensures Search(start, WholeList(start, s.chips), fixed) && |values| == |start|
    {
      hide HardDecoded, Searched, RangeMoved;
      ghost var list := WholeList(start, s.chips);
      Standing(start, []);
      var cand := MoveRange(0, |values|, -1);
      fixed := TryDecode(cand, start, []);
      assert [] + [cand] == [cand];
      if fixed {
        SearchGoesOn(s, start, [cand], tried, values, decode, list);
        return;
      }
      Standing(start, [cand]);
      var up := MoveRange(0, |values|, 1);
      fixed := TryDecode(up, start, [cand]);
      assert [cand] + [up] == list;
      if !fixed { Standing(start, list); }
    }

    /** A search still open stands at its start. */
    lemma Standing(start: seq<nat>, list: seq<seq<nat>>)
      requires s.Valid() && Search(start, list, false)
      ensures values == start
    {
    }

    method TryLone(ghost start: seq<nat>, ghost before: seq<seq<nat>>) returns (fixed: bool)
      requires s.Valid() && Search(start, before, false)
      modifies `values, `decode, `tried
      ensures Search(start, before + LoneList(start, s.chips, |start|), fixed)
    {
      hide HardDecoded, Searched, RangeMoved;
      Standing(start, before);
      fixed := false;
      assert before + LoneList(start, s.chips, 0) == before;
      for m := 0 to |values|
        invariant Search(start, before + LoneList(start, s.chips, m), false) && values == start
      {
        ghost var list := before + LoneList(start, s.chips, m);
        fixed := TryTwo(m, m + 1, m, m + 1, -1, 1, start, list);
        ghost var two := [RangeMoved(start, m, m + 1, -1, s.chips), RangeMoved(start, m, m + 1, 1, s.chips)];
        assert list + two == before + LoneList(start, s.chips, m + 1);
        if fixed {
          LonePrefix(start, s.chips, m + 1, |start|);
          SearchGoesOn(s, start, list + two, tried, values, decode, before + LoneList(start, s.chips, |start|));
          return;
        }
        Standing(start, list + two);
      }
    }

    method TryTwo(lo: nat, hi: nat, lo': nat, hi': nat, sh: int, sh': int, ghost start: seq<nat>, ghost list: seq<seq<nat>>)
      returns (fixed: bool)
      requires s.Valid() && Search(start, list, false) && lo <= hi && lo <= |start| && lo' <= hi' && lo' <= |start|
      modifies `values, `decode, `tried
      ensures Search(start, list + [RangeMoved(start, lo, hi, sh, s.chips), RangeMoved(start, lo', hi', sh', s.chips)], fixed)
    {
      hide HardDecoded, Searched, RangeMoved;
      Standing(start, list);
      var one := MoveRange(lo, hi, sh);
      ghost var both := list + [one, RangeMoved(start, lo', hi', sh', s.chips)];
      fixed := TryDecode(one, start, list);
      if fixed {
        SearchGoesOn(s, start, list + [one], tried, values, decode, both);
        return;
      }
      Standing(start, list + [one]);
      var two := MoveRange(lo', hi', sh');
      fixed := TryDecode(two, start, list + [one]);
      assert list + [one] + [two] == both;
    }

    method TryAnchor(m: nat, ghost start: seq<nat>, ghost list: seq<seq<nat>>) returns (fixed: bool)
      requires s.Valid() && Search(start, list, false) && m < |start|
      modifies `values, `decode, `tried
      ensures Search(start, list + AnchorFour(start, s.chips, m), fixed)
    {
      hide HardDecoded, Searched, RangeMoved;
      Standing(start, list);
      ghost var four := AnchorFour(start, s.chips, m);
      fixed := TryTwo(m, |values|, 0, m + 1, -1, -1, start, list);
      assert four[..2] == [four[0], four[1]] && four == four[..2] + [four[2], four[3]];
      assert list + four == list + four[..2] + [four[2], four[3]];
      if fixed {
        SearchGoesOn(s, start, list + four[..2], tried, values, decode, list + four);
        return;
      }
      Standing(start, list + four[..2]);
      fixed := TryTwo(m, |values|, 0, m + 1, 1, 1, start, list + four[..2]);
    }

    method TryAnchors(anchors: seq<nat>, ghost start: seq<nat>, ghost before: seq<seq<nat>>) returns (fixed: bool)
      requires s.Valid() && Search(start, before, false) && forall i: nat | i < |anchors| :: anchors[i] < |start|
      modifies `values, `decode, `tried
      ensures Search(start, before + AnchorList(start, s.chips, anchors), fixed)
    {
      hide HardDecoded, Searched, AnchorFour;
      fixed := false;
      assert before + AnchorList(start, s.chips, anchors[..0]) == before;
      for a := 0 to |anchors|
        invariant Search(start, before + AnchorList(start, s.chips, anchors[..a]), false)
      {
        ghost var list := before + AnchorList(start, s.chips, anchors[..a]);
        fixed := TryAnchor(anchors[a], start, list);
        assert anchors[..a + 1][..a] == anchors[..a];
        assert list + AnchorFour(start, s.chips, anchors[a]) == before + AnchorList(start, s.chips, anchors[..a + 1]);
        if fixed {
          AnchorPrefix(start, s.chips, anchors, a + 1);
          SearchGoesOn(s, start, before + AnchorList(start, s.chips, anchors[..a + 1]), tried, values, decode,
                       before + AnchorList(start, s.chips, anchors));
          return;
        }
      }
      assert anchors[..|anchors|] == anchors;
    }

    method Substitute(best: seq<Alt>, k: nat, mask: nat) returns (cand: seq<nat>, ok: bool)
      requires k <= |best|
      ensures ok == InFrame(values, best, mask, k) && (ok ==> cand == Substituted(values, best, mask, k))
    {
      cand := values;
      for i := 0 to k
        invariant InFrame(values, best, mask, i) && cand == Substituted(values, best, mask, i)
      {
        if !Bit(mask, i) {
          continue;
        }
        if best[i].idx >= |cand| {
          return cand, false;
        }
        cand := cand[best[i].idx := best[i].value];
      }
      return cand, true;
    }

    method TryMasks(best: seq<Alt>, k: nat, ghost start: seq<nat>, ghost before: seq<seq<nat>>) returns (fixed: bool)
      requires s.Valid() && Search(start, before, false) && k <= |best|
      modifies `values, `decode, `tried
      ensures Search(start, before + MaskList(start, best, k, Pow2(k)), fixed)
    {
      hide HardDecoded, Searched, InFrame, Substituted;
      fixed := false;
      Standing(start, before);
      assert before + MaskList(start, best, k, 1) == before;
      for mask := 1 to Pow2(k)
        invariant Search(start, before + MaskList(start, best, k, mask), false) && values == start
      {
        ghost var list := before + MaskList(start, best, k, mask);
        var cand, ok := Substitute(best, k, mask);
        assert list + MaskOne(start, best, mask, k) == before + MaskList(start, best, k, mask + 1);
        if ok {
          fixed := TryDecode(cand, start, list);
          if fixed {
            MaskPrefix(start, best, k, mask + 1, Pow2(k));
            SearchGoesOn(s, start, list + [cand], tried, values, decode, before + MaskList(start, best, k, Pow2(k)));
            return;
          }
          Standing(start, list + [cand]);
        } else {
          assert list + MaskOne(start, best, mask, k) == list;
        }
      }
    }

    method TryPairRow(best: seq<Alt>, i: nat, ghost start: seq<nat>, ghost before: seq<seq<nat>>) returns (fixed: bool)
      requires s.Valid() && Search(start, before, false) && i < |best|
      modifies `values, `decode, `tried
      ensures Search(start, before + PairRow(start, best, i, |best|), fixed)
    {
      hide HardDecoded, Searched, Passes, Enforced;
      fixed := false;
      Standing(start, before);
      assert before + PairRow(start, best, i, i + 1) == before;
      for j := i + 1 to |best|
        invariant Search(start, before + PairRow(start, best, i, j), false) && values == start
      {
        ghost var list := before + PairRow(start, best, i, j);
        assert list + PairOne(start, best[i], best[j]) == before + PairRow(start, best, i, j + 1);
        if best[i].idx >= |values| || best[j].idx >= |values| {
          assert list + PairOne(start, best[i], best[j]) == list;
          continue;
        }
        var two := values[best[i].idx := best[i].value];
        two := two[best[j].idx := best[j].value];
        fixed := TryDecode(two, start, list);
        if fixed {
          PairRowPrefix(start, best, i, j + 1, |best|);
          SearchGoesOn(s, start, list + [two], tried, values, decode, before + PairRow(start, best, i, |best|));
          return;
        }
        Standing(start, list + [two]);
      }
    }

    method TryPairs(best: seq<Alt>, ghost start: seq<nat>, ghost before: seq<seq<nat>>) returns (fixed: bool)
      requires s.Valid() && Search(start, before, false)
      modifies `values, `decode, `tried
      ensures Search(start, before + PairList(start, best, |best|), fixed)
    {
      hide HardDecoded, Searched, PairRow;
      fixed := false;
      assert before + PairList(start, best, 0) == before;
      for i := 0 to |best|
        invariant Search(start, before + PairList(start, best, i), false)
      {
        ghost var list := before + PairList(start, best, i);
        fixed := TryPairRow(best, i, start, list);
        assert list + PairRow(start, best, i, |best|) == before + PairList(start, best, i + 1);
        if fixed {
          PairPrefix(start, best, i + 1, |best|);
          SearchGoesOn(s, start, list + PairRow(start, best, i, |best|), tried, values, decode, before + PairList(start, best, |best|));
          return;
        }
      }
    }

    method RotateRow(i: nat, sh: int)
      requires i < |mags|
      modifies `mags
      ensures mags == old(mags)[i := Rotated(old(mags)[i], sh)]
    {
      mags := mags[i := Rotated(mags[i], sh)];
    }

    method RotateAlong(offs: seq<int>, rows: nat)
      requires rows <= |offs| && rows <= |mags|
      modifies `mags
      ensures mags == RowsAlongPath(old(mags), offs, rows)
    {
      ghost var was := mags;
      hide RowsAlongPath;
      NoRows(was, offs);
      for i := 0 to rows
        invariant mags == RowsAlongPath(was, offs, i)
      {
        OneMoreRow(was, offs, i);
        if offs[i] != 0 {
          RotateRow(i, -offs[i]);
        }
      }
    }

    /** The slip step: under wander, search slip paths for a frame that fails its checksum. */
    method UndoSlips(slip: Problem, irwQ: real) returns (paths: seq<seq<int>>, ghost rows: nat)
      requires s.Valid() && slip.Valid()
      modifies `values, `mags
      ensures |paths| <= PATHS && forall i: nat | i < |paths| :: |paths[i]| == |slip.syms|
      ensures var failed := s.wander && |slip.syms| > 0 && FailsChecksum(HardDecoded(s, old(values)));
              SlipsUndone(s, failed, paths, rows, old(values), old(mags), values, mags)
    {
      hide HardDecoded, Problem.Valid, Chosen;
      paths, rows := [], 0;
      if !s.wander || |slip.syms| == 0 {
        return;
      }
      var d0 := DecodeHard(s, values);
      if !FailsChecksum(d0) {
        return;
      }
      paths := SlipSearch.SlipSearch(slip, irwQ);
      PathShape(slip, irwQ, paths);
      if |paths| == 0 {
        return;
      }
      var n := Min(Min(|values|, |slip.syms|), |mags|);
      rows := n;
      var pick := PickPath(s, values, paths, n);
      values := AlongPath(values, paths[pick], n, s.chips);
      RotateAlong(paths[pick], n);
    }

    /** The repair search over a frame that fails its checksum. */
    method Repair(fracs: seq<real>, alts: seq<Alt>) returns (fixed: bool, ghost anchors: seq<nat>, ghost best: seq<Alt>)
      requires s.Valid() && decode == HardDecoded(s, values)
      modifies `values, `decode, `tried
      ensures AnchorsOf(anchors, fracs, |old(values)|) && RivalsOf(best, alts)
      ensures Search(old(values), Repairs(old(values), s.chips, anchors, best), fixed)
    {
      ghost var start := values;
      tried := [];
      NothingTried(s, start);
      hide HardDecoded, WholeList, AnchorsOf, RivalsOf, Repairs, Searched;
      fixed := TryWhole(start);
      var found := Anchors(fracs, |values|);
      var ranked := Rivals(alts);
      anchors, best := found, ranked;
      AnchorsInside(anchors, fracs, |start|);
      Stages(start, s.chips, anchors, best);
      ghost var all := Repairs(start, s.chips, anchors, best);
      if fixed {
        SearchGoesOn(s, start, WholeList(start, s.chips), tried, values, decode, all);
      } else {
        fixed := RepairSome(found, ranked, start);
      }
    }

    method RepairSome(anchors: seq<nat>, best: seq<Alt>, ghost start: seq<nat>) returns (fixed: bool)
      requires s.Valid() && Search(start, WholeList(start, s.chips), false)
      requires forall i: nat | i < |anchors| :: anchors[i] < |start|
      modifies `values, `decode, `tried
      ensures Search(start, Repairs(start, s.chips, anchors, best), fixed)
    {
      hide HardDecoded, Searched, WholeList, Repairs;
      Stages(start, s.chips, anchors, best);
      var k := Min(|best|, SUBSET);
      ghost var all := Repairs(start, s.chips, anchors, best);
      ghost var l1 := WholeList(start, s.chips);
      ghost var l2 := l1 + LoneList(start, s.chips, |start|);
      ghost var l3 := l2 + AnchorList(start, s.chips, anchors);
      ghost var l4 := l3 + MaskList(start, best, k, Pow2(k));
      hide LoneList, AnchorList, MaskList, PairList;
      fixed := TryLone(start, l1);
      if fixed { SearchGoesOn(s, start, l2, tried, values, decode, all); return; }
      fixed := TryAnchors(anchors, start, l2);
      if fixed { SearchGoesOn(s, start, l3, tried, values, decode, all); return; }
      fixed := TryMasks(best, k, start, l3);
      if fixed { SearchGoesOn(s, start, l4, tried, values, decode, all); return; }
      fixed := TryPairs(best, start, l4);
    }

    method DecodeSoft(shift: int) returns (d: DecodeResult)
      ensures d == SoftDecoded(s, soft(FirstRows(mags, |values|), shift))
    {
      d := SoftDecoded(s, soft(FirstRows(mags, |values|), shift));
    }

    /** The soft decoder's turn; `hard` says what the frame's values decode to. */
    method RetrySoft(shift: int) returns (passed: bool)
      requires s.Valid()
      modifies `decode, `synced, `softDecoded, `softFrames
      ensures passed == Passes(SoftDecoded(s, soft(FirstRows(mags, |values|), shift)))
      ensures softFrames == old(softFrames) + if passed then 1 else 0
      ensures if passed
              then decode == SoftDecoded(s, soft(FirstRows(mags, |values|), shift)) && synced && softDecoded
              else decode == old(decode) && softDecoded == old(softDecoded) && synced == old(synced)
    {
      var d := DecodeSoft(shift);
      passed := d.header.valid && d.crcOk;
      if passed {
        decode, synced, softDecoded, softFrames := d, true, true, softFrames + 1;
      }
    }

    method CountSteps(hardIn: seq<nat>, n: nat) returns (count: nat)
      requires s.Valid() && n <= |hardIn| && n <= |values|
      ensures count == StepCount(hardIn, values, n, s.chips)
    {
      count := 0;
      for i := 0 to n
        invariant count == StepCount(hardIn, values, i, s.chips)
      {
        if ChipStep(hardIn, values, i, s.chips) != 0 {
          count := count + 1;
        }
      }
    }

    /** Below the gate a hard pass must decode to the same payload on the soft path. */
    method Confirm(hardIn: seq<nat>)
      requires s.Valid()
      modifies `mags, `decode, `synced
      ensures mags == ConfirmRows(old(mags), hardIn, values, s.chips)
      ensures var d := SoftDecoded(s, soft(FirstRows(mags, |values|), 0));
              if Passes(d) && d.payload == old(decode).payload then decode == old(decode) && synced == old(synced)
              else decode == old(decode).(crcOk := false) && !synced
    {
      var n := Min(Min(|values|, |mags|), |hardIn|);
      var count := CountSteps(hardIn, n);
      RotateSteps(hardIn, n, count);
      var d := DecodeSoft(0);
      if !(d.header.valid && d.crcOk && d.payload == decode.payload) {
        decode := decode.(crcOk := false);
        synced := false;
      }
    }

    method RotateSteps(hardIn: seq<nat>, n: nat, count: nat)
      requires s.Valid() && n == Min(Min(|values|, |mags|), |hardIn|) && count == StepCount(hardIn, values, n, s.chips)
      modifies `mags
      ensures mags == ConfirmRows(old(mags), hardIn, values, s.chips)
    {
      ghost var was := mags;
      hide Rotated;
      if count >= 2 {
        for i := 0 to n
          invariant |mags| == |was|
          invariant forall k: nat | k < |mags| ::
            mags[k] == if k < i then Rotated(was[k], ChipStep(hardIn, values, k, s.chips)) else was[k]
        {
          var d := ChipStep(hardIn, values, i, s.chips);
          if d != 0 {
            RotateRow(i, d);
          } else {
            RotatedByNothing(was[i]);
          }
        }
      }
    }

    /** The first decode, the soft retry and the repair search. */
    method Arbitrate(fracs: seq<real>, alts: seq<Alt>) returns (ghost anchors: seq<nat>, ghost best: seq<Alt>)
      requires s.Valid() && !softDecoded
      modifies `values, `decode, `synced, `softDecoded, `softFrames, `tried
      ensures tried != [] ==> AnchorsOf(anchors, fracs, |old(values)|) && RivalsOf(best, alts)
      ensures Settled(s, soft, old(values), mags, anchors, best, tried, values, decode, softDecoded)
      ensures Synced(s, old(values), softDecoded, old(synced), synced)
      ensures softFrames == old(softFrames) + if softDecoded then 1 else 0
    {
      ghost var start := values;
      decode := DecodeHard(s, values);
      tried := [];
      anchors, best := [], [];
      hide HardDecoded, SoftDecoded, Repairs, AnchorsOf, RivalsOf;
      if Passes(decode) && decode.header.hasCrc {
        synced := true;
      }
      if s.softDecoding && FailsChecksum(decode) {
        var passed := RetrySoft(0);
        if passed {
          return;
        }
      }
      if FailsChecksum(decode) {
        anchors, best := SearchRepairs(fracs, alts);
      }
    }

    /** The repair search, and the soft decoder a chip to either side when nothing passes. */
    method SearchRepairs(fracs: seq<real>, alts: seq<Alt>) returns (ghost anchors: seq<nat>, ghost best: seq<Alt>)
      requires s.Valid() && !softDecoded && decode == HardDecoded(s, values) && FailsChecksum(decode)
      modifies `values, `decode, `synced, `softDecoded, `softFrames, `tried
      ensures AnchorsOf(anchors, fracs, |old(values)|) && RivalsOf(best, alts)
      ensures Repaired(s, soft, old(values), FirstRows(mags, |old(values)|), Repairs(old(values), s.chips, anchors, best), tried, values, decode, softDecoded)
      ensures synced == (softDecoded || old(synced))
      ensures softFrames == old(softFrames) + if softDecoded then 1 else 0
    {
      ghost var start := values;
      var fixed;
      hide HardDecoded, SoftDecoded, Repairs, AnchorsOf, RivalsOf;
      fixed, anchors, best := Repair(fracs, alts);
      SearchedDecides(s, start, Repairs(start, s.chips, anchors, best), tried, fixed, values, decode);
      hide Searched;
      if s.softDecoding && !fixed {
        var passed := RetrySoft(-1);
        if !passed {
          passed := RetrySoft(1);
        }
      }
    }

    /** The end of a frame: undo slips, arbitrate, confirm a weak pass, queue. */
    method FinalizeData(fracs: seq<real>, alts: seq<Alt>, slip: Problem, irwQ: real, snrSum: real, snrCount: nat)
      returns (ghost r: Report)
      requires s.Valid() && slip.Valid() && !softDecoded
      modifies this
      ensures !softDecoded && |queue| == |old(queue)| + 1 && queue[..|old(queue)|] == old(queue)
      ensures softFrames == old(softFrames) + if queue[|old(queue)|].softDecoded then 1 else 0
      ensures var failed := s.wander && |slip.syms| > 0 && FailsChecksum(HardDecoded(s, old(values)));
              SlipsUndone(s, failed, r.paths, r.rows, old(values), old(mags), r.start, r.mags)
      ensures r.tried != [] ==> AnchorsOf(r.anchors, fracs, |r.start|) && RivalsOf(r.best, alts)
      ensures var f := queue[|old(queue)|];
              Settled(s, soft, r.start, r.mags, r.anchors, r.best, r.tried, f.values, r.settled, f.softDecoded)
              && Synced(s, r.start, f.softDecoded, old(synced), r.synced)
              && Confirmed(s, soft, r, snrCount > 0 && snrSum / snrCount as real < s.verifyBelow, f)
    {
      ghost var paths, rows;
      paths, rows := UndoSlips(slip, irwQ);
      var hardIn := values;
      ghost var rowsIn := mags;
      ghost var anchors, best := Arbitrate(fracs, alts);
      r := Report(paths, rows, hardIn, rowsIn, anchors, best, tried, decode, synced);
      hide Settled, Synced, SlipsUndone, AnchorsOf, RivalsOf, Confirmed, HardDecoded;
      Push(hardIn, snrSum, snrCount, r);
    }

    /** Confirm a weak pass and queue the frame. */
    method Push(hardIn: seq<nat>, snrSum: real, snrCount: nat, ghost r: Report)
      requires s.Valid()
      requires r.settled == decode && r.mags == mags && r.start == hardIn && r.synced == synced
      modifies `queue, `values, `synced, `softDecoded, `decode, `mags
      ensures !softDecoded && |queue| == |old(queue)| + 1 && queue[..|old(queue)|] == old(queue)
      ensures var f := queue[|old(queue)|];
              && f.values == old(values) && f.softDecoded == old(softDecoded)
              && Confirmed(s, soft, r, snrCount > 0 && snrSum / snrCount as real < s.verifyBelow, f)
    {
      hide SoftDecoded, ConfirmRows, FirstRows;
      if s.softDecoding && !softDecoded && Passes(decode) && snrCount > 0 {
        if snrSum / snrCount as real < s.verifyBelow {
          Confirm(hardIn);
        }
      }
      queue := queue + [Queued(values, decode, synced, softDecoded)];
      values, synced, softDecoded := [], false, false;
    }
  }

  /** What led to a queued frame. */
  datatype Report = Report(
    paths: seq<seq<int>>, rows: nat, start: seq<nat>, mags: SoftRows,
    anchors: seq<nat>, best: seq<Alt>, tried: seq<seq<nat>>, settled: DecodeResult, synced: bool)

  /** The queued result is the settled one, except that a weak hard pass the
      soft path does not confirm loses its checksum flag. */
  ghost predicate Confirmed(s: Settings, soft: (SoftRows, int) -> DecodeResult, r: Report, weak: bool, f: Queued)
    requires s.Valid()
  {
    var d := SoftDecoded(s, soft(FirstRows(ConfirmRows(r.mags, r.start, f.values, s.chips), |f.values|), 0));
    if s.softDecoding && weak && !f.softDecoded && Passes(r.settled) && !(Passes(d) && d.payload == r.settled.payload)
    then f.decode == r.settled.(crcOk := false) && !f.synced
    else f.decode == r.settled && f.synced == r.synced
  }

  /** The soft decoder's result on the rows at a chip shift. */
  ghost function SoftAt(s: Settings, soft: (SoftRows, int) -> DecodeResult, rows: SoftRows, shift: int): DecodeResult {
    SoftDecoded(s, soft(rows, shift))
  }

  /** The soft decoder is asked, and passes at this chip shift. */
  ghost predicate SoftPasses(s: Settings, soft: (SoftRows, int) -> DecodeResult, rows: SoftRows, shift: int) {
    s.softDecoding && Passes(SoftAt(s, soft, rows, shift))
  }

  ghost predicate NonePasses(s: Settings, list: seq<seq<nat>>)
    requires s.Valid()
  {
    forall i: nat | i < |list| :: !Passes(HardDecoded(s, list[i]))
  }

  /** A frame that fails its checksum and that the soft decoder does not pass as it stands: the first
      repair that passes, else the soft decoder a chip down, else a chip up, else the failed frame. */
  ghost predicate Repaired(s: Settings, soft: (SoftRows, int) -> DecodeResult, start: seq<nat>, rows: SoftRows,
                           all: seq<seq<nat>>, tried: seq<seq<nat>>, now: seq<nat>, d: DecodeResult, softly: bool)
    requires s.Valid()
  {
    if !NonePasses(s, tried) then
      && !softly && tried <= all && NonePasses(s, tried[..|tried| - 1])
      && now == tried[|tried| - 1] && d == HardDecoded(s, now) && Passes(d)
    else
      && tried == all && now == start
      && softly == (SoftPasses(s, soft, rows, -1) || SoftPasses(s, soft, rows, 1))
      && d == if SoftPasses(s, soft, rows, -1) then SoftAt(s, soft, rows, -1)
              else if SoftPasses(s, soft, rows, 1) then SoftAt(s, soft, rows, 1)
              else HardDecoded(s, start)
  }

  /** What the arbitration settles on, before the confirmation: a frame that does not fail its checksum
      stands as the hard decoder reads it; one that fails is the soft decoder's if that passes, and
      otherwise goes through the repairs. */
  ghost predicate Settled(s: Settings, soft: (SoftRows, int) -> DecodeResult, start: seq<nat>, mags: SoftRows,
                          anchors: seq<nat>, best: seq<Alt>, tried: seq<seq<nat>>, now: seq<nat>, d: DecodeResult, softly: bool)
    requires s.Valid()
  {
    var rows := FirstRows(mags, |start|);
    if !FailsChecksum(HardDecoded(s, start)) then
      now == start && tried == [] && !softly && d == HardDecoded(s, start)
    else if SoftPasses(s, soft, rows, 0) then
      now == start && tried == [] && softly && d == SoftAt(s, soft, rows, 0)
    else
      Repaired(s, soft, start, rows, Repairs(start, s.chips, anchors, best), tried, now, d, softly)
  }

  /** The synchronisation flag: set by a soft pass and by a hard pass with a checksum, never by a repair. */
  ghost predicate Synced(s: Settings, start: seq<nat>, softly: bool, was: bool, synced: bool)
    requires s.Valid()
  {
    var d := HardDecoded(s, start);
    synced == (softly || (Passes(d) && d.header.hasCrc) || was)
  }

  lemma SearchedDecides(s: Settings, start: seq<nat>, list: seq<seq<nat>>, tried: seq<seq<nat>>, fixed: bool, now: seq<nat>, d: DecodeResult)
    requires s.Valid() && Searched(s, start, list, tried, fixed, now, d)
    ensures d == HardDecoded(s, now) && tried <= list
    ensures forall i: nat | i + 1 < |tried| :: !Passes(HardDecoded(s, tried[i]))
    ensures if fixed then |tried| > 0 && tried[|tried| - 1] == now && Passes(d)
            else tried == list && now == start && forall i: nat | i < |tried| :: !Passes(HardDecoded(s, tried[i]))
  {
    hide HardDecoded;
  }

  /** The list is made up in stages, each a start of the next. */
  lemma Stages(values: seq<nat>, chips: nat, anchors: seq<nat>, best: seq<Alt>)
    requires chips > 0
    ensures var all, k := Repairs(values, chips, anchors, best), Min(|best|, 6);
            var l1 := WholeList(values, chips);
            var l2 := l1 + LoneList(values, chips, |values|);
            var l3 := l2 + AnchorList(values, chips, anchors);
            var l4 := l3 + MaskList(values, best, k, Pow2(k));
            l1 <= all && l2 <= all && l3 <= all && l4 <= all && all == l4 + PairList(values, best, |best|)
  {
    hide WholeList, LoneList, AnchorList, MaskList, PairList;
  }

  lemma AnchorsInside(anchors: seq<nat>, fracs: seq<real>, n: nat)
    requires AnchorsOf(anchors, fracs, n)
    ensures |anchors| <= ANCHORS && forall i: nat | i < |anchors| :: anchors[i] < n
  {
  }

  lemma PathShape(slip: Problem, irwQ: real, paths: seq<seq<int>>)
    requires slip.Valid()
    requires |slip.syms| == 0 || irwQ <= 0.0 ==> paths == []
    requires |slip.syms| > 0 && irwQ > 0.0 ==>
      exists beams: seq<seq<seq<int>>> :: BeamRun(slip, beams) && |beams| == |slip.syms| + 1 && paths == beams[|slip.syms|]
    ensures |paths| <= PATHS && forall i: nat | i < |paths| :: |paths[i]| == |slip.syms|
  {
    hide Problem.Valid, BeamRun;
    if |slip.syms| > 0 && irwQ > 0.0 {
      var beams: seq<seq<seq<int>>> :| BeamRun(slip, beams) && |beams| == |slip.syms| + 1 && paths == beams[|slip.syms|];
      BeamShape(slip, beams, |slip.syms|);
      BeamSize(slip, beams, |slip.syms|);
    }
  }

  lemma {:induction false} LonePrefix(values: seq<nat>, chips: nat, m: nat, n: nat)
    requires chips > 0 && m <= n
    ensures LoneList(values, chips, m) <= LoneList(values, chips, n)
  {
    if m < n { LonePrefix(values, chips, m, n - 1); }
  }

  lemma {:induction false} AnchorPrefix(values: seq<nat>, chips: nat, anchors: seq<nat>, a: nat)
    requires chips > 0 && a <= |anchors|
    ensures AnchorList(values, chips, anchors[..a]) <= AnchorList(values, chips, anchors)
  {
    if a == |anchors| {
      assert anchors[..a] == anchors;
    } else {
      var shorter := anchors[..|anchors| - 1];
      AnchorPrefix(values, chips, shorter, a);
      assert shorter[..a] == anchors[..a];
    }
  }

  lemma {:induction false} MaskPrefix(values: seq<nat>, alts: seq<Alt>, k: nat, m: nat, n: nat)
    requires k <= |alts| && m <= n
    ensures MaskList(values, alts, k, m) <= MaskList(values, alts, k, n)
  {
    if m < n { MaskPrefix(values, alts, k, m, n - 1); }
  }

  lemma {:induction false} PairRowPrefix(values: seq<nat>, alts: seq<Alt>, i: nat, m: nat, n: nat)
    requires i < |alts| && m <= n <= |alts|
    ensures PairRow(values, alts, i, m) <= PairRow(values, alts, i, n)
  {
    if m < n { PairRowPrefix(values, alts, i, m, n - 1); }
  }

  lemma {:induction false} PairPrefix(values: seq<nat>, alts: seq<Alt>, m: nat, n: nat)
    requires m <= n <= |alts|
    ensures PairList(values, alts, m) <= PairList(values, alts, n)
  {
    if m < n { PairPrefix(values, alts, m, n - 1); }
  }

  // What every queued frame promises.

  lemma FlagEnforced(s: Settings, d: DecodeResult)
    ensures s.params.hasCrc && Passes(Enforced(s, d)) ==> Enforced(s, d).header.hasCrc
    ensures s.params.hasCrc && Passes(SoftDecoded(s, d)) ==> SoftDecoded(s, d).header.hasCrc
  {
  }

  /** The soft decoder passes if and only if its raw result does, with the header flag the link asks for
      and a tail not too close to call. */
  lemma SoftPassExactly(s: Settings, raw: DecodeResult)
    ensures Passes(SoftDecoded(s, raw)) <==>
            Passes(raw) && (s.params.hasCrc ==> raw.header.hasCrc) && raw.tailMargin >= s.softTailMargin
    ensures Passes(SoftDecoded(s, raw)) ==> SoftDecoded(s, raw) == raw
  {
  }

  /** A frame not marked soft carries the header and payload of its own values
      hard-decoded; with checksums on, none passes without the header's
      checksum flag; at most 117 + 2 n repairs were tried, none passing before the last. */
  lemma QueuedFrameIsConsistent(s: Settings, soft: (SoftRows, int) -> DecodeResult, fracs: seq<real>, alts: seq<Alt>, r: Report, weak: bool, f: Queued)
    requires s.Valid()
    requires r.tried != [] ==> AnchorsOf(r.anchors, fracs, |r.start|) && RivalsOf(r.best, alts)
    requires Settled(s, soft, r.start, r.mags, r.anchors, r.best, r.tried, f.values, r.settled, f.softDecoded)
    requires Confirmed(s, soft, r, weak, f)
    ensures !f.softDecoded ==> f.decode.header == HardDecoded(s, f.values).header && f.decode.payload == HardDecoded(s, f.values).payload
    ensures !f.softDecoded && f.decode.crcOk ==> f.decode == HardDecoded(s, f.values)
    ensures s.params.hasCrc && Passes(f.decode) ==> f.decode.header.hasCrc
    ensures |r.tried| <= 117 + 2 * |r.start|
    ensures forall i: nat | i + 1 < |r.tried| :: !Passes(HardDecoded(s, r.tried[i]))
    ensures f.softDecoded ==> Passes(f.decode) && f.values == r.start
  {
    if r.tried != [] {
      RepairCount(r.start, s.chips, r.anchors, r.best);
    }
    hide SoftDecoded, ConfirmRows, Repairs, AnchorsOf, RivalsOf, FirstRows, FailsChecksum, HardDecoded, Settled;
    HardFlag(s, f.values);
    SettledTries(s, soft, r, f);
    SettledSoftly(s, soft, r, f);
  }

  lemma HardFlag(s: Settings, values: seq<nat>)
    requires s.Valid()
    ensures s.params.hasCrc && Passes(HardDecoded(s, values)) ==> HardDecoded(s, values).header.hasCrc
  {
    FlagEnforced(s, DecodedFrame(s.params, Hard(values)));
  }

  lemma SettledTries(s: Settings, soft: (SoftRows, int) -> DecodeResult, r: Report, f: Queued)
    requires s.Valid() && Settled(s, soft, r.start, r.mags, r.anchors, r.best, r.tried, f.values, r.settled, f.softDecoded)
    ensures r.tried == [] || r.tried <= Repairs(r.start, s.chips, r.anchors, r.best)
    ensures forall i: nat | i + 1 < |r.tried| :: !Passes(HardDecoded(s, r.tried[i]))
    ensures !f.softDecoded ==> r.settled == HardDecoded(s, f.values)
  {
    hide SoftDecoded, Repairs, FirstRows, FailsChecksum, HardDecoded, SoftPasses, SoftAt;
  }

  lemma SettledSoftly(s: Settings, soft: (SoftRows, int) -> DecodeResult, r: Report, f: Queued)
    requires s.Valid() && Settled(s, soft, r.start, r.mags, r.anchors, r.best, r.tried, f.values, r.settled, f.softDecoded)
    ensures f.softDecoded ==> Passes(r.settled) && f.values == r.start && (s.params.hasCrc ==> r.settled.header.hasCrc)
  {
    hide SoftDecoded, Repairs, FirstRows, FailsChecksum;
    var rows := FirstRows(r.mags, |r.start|);
    forall shift: int ensures SoftPasses(s, soft, rows, shift) && s.params.hasCrc ==> SoftAt(s, soft, rows, shift).header.hasCrc {
      FlagEnforced(s, soft(rows, shift));
    }
  }

  /** Only a frame whose header is valid and announces a checksum that then fails is repaired or decoded softly,
      and every such frame is. */
  lemma OnlyFailedFramesRepaired(s: Settings, soft: (SoftRows, int) -> DecodeResult, r: Report, f: Queued)
    requires s.Valid() && Settled(s, soft, r.start, r.mags, r.anchors, r.best, r.tried, f.values, r.settled, f.softDecoded)
    ensures var h := HardDecoded(s, r.start);
            f.softDecoded || r.tried != [] <==> h.header.valid && h.header.hasCrc && !h.crcOk
  {
    hide SoftDecoded, HardDecoded, FirstRows, LoneList, AnchorList, MaskList, PairList, SoftPasses, SoftAt;
    RepairsExist(r.start, s.chips, r.anchors, r.best);
    hide Repairs;
  }

  lemma RepairsExist(values: seq<nat>, chips: nat, anchors: seq<nat>, best: seq<Alt>)
    requires chips > 0
    ensures Repairs(values, chips, anchors, best) != []
  {
    hide RangeMoved, LoneList, AnchorList, MaskList, PairList;
  }

  /** A frame queued as failed although the soft decoder is on passed nowhere: not on the soft rows at
      any of three shifts, not as one of the repairs. Unless the confirmation withdrew a pass. */
  lemma FailedFramePassedNowhere(s: Settings, soft: (SoftRows, int) -> DecodeResult, r: Report, weak: bool, f: Queued)
    requires s.Valid() && s.softDecoding && FailsChecksum(f.decode)
    requires Settled(s, soft, r.start, r.mags, r.anchors, r.best, r.tried, f.values, r.settled, f.softDecoded)
    requires Confirmed(s, soft, r, weak, f) && !(weak && Passes(r.settled))
    ensures f.values == r.start && FailsChecksum(HardDecoded(s, r.start))
    ensures forall shift: int | -1 <= shift <= 1 :: !Passes(SoftDecoded(s, soft(FirstRows(r.mags, |r.start|), shift)))
    ensures forall values | values in Repairs(r.start, s.chips, r.anchors, r.best) :: !Passes(HardDecoded(s, values))
  {
    hide SoftDecoded, ConfirmRows, Repairs, FirstRows, HardDecoded;
    assert r.settled == f.decode;
    var rows := FirstRows(r.mags, |r.start|);
    forall shift: int | -1 <= shift <= 1 ensures !Passes(SoftDecoded(s, soft(rows, shift))) {
      assert !SoftPasses(s, soft, rows, shift);
    }
  }
}
