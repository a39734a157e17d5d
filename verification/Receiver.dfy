/** The receiver's bookkeeping: a sliding buffer over the sample stream and its readers. */
module Receiver {
  // The signal processing enters as arbitrary functions of what is read.

  import opened Fir

  datatype Mode = Search | Sync | Data

  /** A search window as the demodulator sees it. */
  datatype Peak = Peak(strong: bool, chip: real)

  datatype SyncOutcome = Failed | Locked(start: real, ratio: real)

  /** Correction of the next symbol's start, and what the header check says. */
  datatype SymbolOutcome = SymbolOutcome(adjust: real, stop: bool, needed: nat)

  /** How a frame came about: where it was found and locked, and for each symbol the
      windows read up to it and the shift kept. */
  datatype Trail = Trail(
    found: nat, buf: seq<Sample>, at: nat, start: real, ratio: real, windows: seq<seq<seq<Sample>>>, shifts: seq<real>)

  /** What had been read before symbol i. */
  function Before(t: Trail, i: nat): seq<seq<Sample>>
    requires i <= |t.windows|
  {
    if i == 0 then [t.buf] else t.windows[i - 1]
  }

  const RUN_NEEDED: nat := 6

  /** Samples a resampling step reads around position pos: floor(pos) - 1 to floor(pos) + 2. */
  predicate Readable(pos: real, size: nat) {
    1 <= pos.Floor && pos.Floor + 2 < size
  }

  /** n symbols of sps samples. */
  function Span(n: nat, sps: nat): nat {
    n * sps
  }

  lemma SpanSteps(n: nat, sps: nat)
    ensures Span(0, sps) == 0 && Span(1, sps) == sps && Span(n + 1, sps) == Span(n, sps) + sps
    ensures n < RUN_NEEDED ==> Span(n, sps) <= 5 * sps
    ensures n + 1 == RUN_NEEDED ==> Span(n + 1, sps) == 6 * sps
  {
  }

  lemma ResumeAhead(n: nat, sps: nat)
    requires n >= 7 && sps > 0
    ensures Span(n - 2, sps) > 0
  {
  }

  function Position(start: real, ratio: real, k: nat): real {
    start + k as real * ratio
  }

  /** A data window that passes the length test is readable throughout. */
  lemma WindowReadable(start: real, ratio: real, sps: nat, size: nat, k: nat)
    requires start >= 1.0 && ratio > 0.0 && start + sps as real * ratio + 3.0 < size as real && k < sps
    ensures Readable(Position(start, ratio, k), size)
    ensures var pos := start + k as real * ratio; 1 <= pos.Floor && pos.Floor + 2 < size
  {
    assert k as real * ratio <= sps as real * ratio;
    assert k as real * ratio >= 0.0;
  }

  class Receiver {
    const sps: nat
    const spanSyms: nat
    const maxSyms: nat
    const demod: seq<Sample> -> Peak
    const near: (real, real) -> bool
    const sync: (seq<Sample>, nat, nat) -> SyncOutcome
    /** The shifts tried on a symbol, the one of those that could be read that is kept, and what
        the symbol comes to. All three see every window read since the frame was found. */
    const trials: (seq<seq<Sample>>, real) -> seq<real>
    const pick: (seq<seq<Sample>>, seq<real>) -> nat
    const symbol: (seq<seq<Sample>>, real, real) -> SymbolOutcome
    const tap: (seq<Sample>, real) -> Sample

    var buf: seq<Sample>
    var base: nat
    var nextAbs: nat
    var mode: Mode
    var scan: nat
    var runStart: nat
    var runLen: nat
    var prevChip: real
    var found: nat
    var dataPos: real
    var ratio: real
    var values: nat
    var needed: nat
    var dataSym: nat
    var frames: nat
    /** The windows read since the frame was found, and the buffer it was found in:
        all that the state of the demodulator can depend on. */
    var seen: seq<seq<Sample>>
    /** Everything fed since the last reset. */
    ghost var stream: seq<Sample>
    ghost var trail: Trail
    /** Where the search under way began. */
    ghost var origin: nat

    constructor (sps: nat, preambleLen: nat, maxSyms: nat, demod: seq<Sample> -> Peak, near: (real, real) -> bool,
                 sync: (seq<Sample>, nat, nat) -> SyncOutcome, trials: (seq<seq<Sample>>, real) -> seq<real>,
                 pick: (seq<seq<Sample>>, seq<real>) -> nat, symbol: (seq<seq<Sample>>, real, real) -> SymbolOutcome,
                 tap: (seq<Sample>, real) -> Sample)
      requires sps > 0
      ensures Valid() && stream == [] && mode == Search && this.sync == sync && this.symbol == symbol
    {
      this.sps, spanSyms, this.maxSyms := sps, preambleLen + 7, maxSyms;
      this.demod, this.near, this.sync, this.tap := demod, near, sync, tap;
      this.trials, this.pick, this.symbol, seen := trials, pick, symbol, [];
      buf, base, nextAbs, mode, scan, runStart, runLen, prevChip := [], 0, 0, Search, 0, 0, 0, 0.0;
      found, dataPos, ratio, values, needed, dataSym, frames, stream := 0, 0.0, 1.0, 0, 8, 0, 0, [];
      trail, origin := Trail(0, [], 0, 0.0, 1.0, [], []), 0;
    }

    /** The buffer is the stream from the base on. */
    ghost predicate Buffered()
      reads this
    {
      base <= |stream| && buf == stream[base..] && nextAbs == base + |buf| && sps > 0 && spanSyms >= 7
    }

    ghost predicate Searching()
      reads this
    {
      && base <= scan && runLen < RUN_NEEDED
      && (runLen > 0 ==> base <= runStart && scan == runStart + Span(runLen, sps))
      && (scan == origin || origin < scan <= |stream|)
      && LongestRun(stream, origin, scan, runLen, prevChip)
    }

    /** What the demodulator makes of the window that ends at `end`. */
    ghost function PeakAt(s: seq<Sample>, end: nat): Peak
      requires sps <= end <= |s|
    {
      demod(s[end - sps..end])
    }

    /** The k windows up to `end` are all strong, each near the one before it. */
    ghost predicate Run(s: seq<Sample>, end: nat, k: nat)
      decreases k
    {
      k == 0 || (sps <= end <= |s| && PeakAt(s, end).strong && Run(s, end - sps, k - 1)
                 && (k > 1 ==> sps <= end - sps && near(PeakAt(s, end).chip, PeakAt(s, end - sps).chip)))
    }

    /** Six windows in a row up to `end` are strong, each near the one before it. */
    ghost predicate FullRun(s: seq<Sample>, end: nat) {
      Run(s, end, 6)
    }

    /** A run of k windows ends here, and no longer one since the search began. */
    ghost predicate LongestRun(s: seq<Sample>, origin: nat, end: nat, k: nat, chip: real) {
      && Run(s, end, k) && (end == origin + Span(k, sps) || !Run(s, end, k + 1))
      && (k > 0 ==> sps <= end <= |s| && chip == PeakAt(s, end).chip)
    }

    lemma {:induction false} RunKept(s: seq<Sample>, more: seq<Sample>, end: nat, k: nat)
      requires end <= |s|
      ensures Run(s + more, end, k) == Run(s, end, k)
      decreases k
    {
      if k > 0 && sps <= end {
        assert (s + more)[end - sps..end] == s[end - sps..end];
        if k > 1 && sps <= end - sps { assert (s + more)[end - sps - sps..end - sps] == s[end - sps - sps..end - sps]; }
        RunKept(s, more, end - sps, k - 1);
      }
    }

    lemma LongestKept(s: seq<Sample>, more: seq<Sample>, origin: nat, end: nat, k: nat, chip: real)
      requires LongestRun(s, origin, end, k, chip) && (end == origin || end <= |s|)
      ensures LongestRun(s + more, origin, end, k, chip)
    {
      if end <= |s| {
        RunKept(s, more, end, k);
        RunKept(s, more, end, k + 1);
        if k > 0 { assert (s + more)[end - sps..end] == s[end - sps..end]; }
      } else {
        SpanSteps(k, sps);
      }
    }

    /** The run after one more window. */
    lemma NextRun(s: seq<Sample>, origin: nat, end: nat, k: nat, chip: real, k': nat)
      requires sps > 0 && LongestRun(s, origin, end, k, chip) && end + sps <= |s|
      requires var pk := PeakAt(s, end + sps);
               k' == if !pk.strong then 0 else if k == 0 || !near(pk.chip, chip) then 1 else k + 1
      ensures LongestRun(s, origin, end + sps, k', PeakAt(s, end + sps).chip)
    {
      SpanSteps(k, sps);
      SpanSteps(0, sps);
    }

    /** Fewer than six in the longest run: no six windows in a row were strong and near. */
    lemma {:induction false} NoRunMissed(s: seq<Sample>, end: nat, k: nat, m: nat)
      requires k <= m && !Run(s, end, k)
      ensures !Run(s, end, m)
    {
      if k < m && Run(s, end, m) {
        RunShorter(s, end, m, k);
      }
    }

    lemma SixIsRun(s: seq<Sample>, origin: nat, end: nat, chip: real)
      ensures LongestRun(s, origin, end, RUN_NEEDED, chip) ==> FullRun(s, end)
    {
      hide Run;
    }

    lemma NoSixMissed(s: seq<Sample>, origin: nat, end: nat, k: nat, chip: real)
      requires LongestRun(s, origin, end, k, chip) && k < 6 && end >= origin + 6 * sps && sps > 0
      ensures !FullRun(s, end)
    {
      SpanSteps(k, sps);
      hide Run, Span;
      NoRunMissed(s, end, k + 1, 6);
    }

    lemma {:induction false} RunShorter(s: seq<Sample>, end: nat, m: nat, k: nat)
      requires k <= m && Run(s, end, m)
      ensures Run(s, end, k)
      decreases m
    {
      if 0 < k < m { RunShorter(s, end - sps, m - 1, k - 1); }
    }

    ghost predicate Valid()
      reads this
    {
      Sound() && (mode.Data? ==> Counted() && !Stopped(trail))
    }

    ghost predicate Sound()
      reads this
    {
      && Buffered()
      && (mode.Search? ==> Searching())
      && (mode.Sync? ==> base <= found < nextAbs && runLen <= RUN_NEEDED)
      && (mode.Data? ==> found < nextAbs && Tracked())
    }

    /** The position reached is the frame's start and all the moves since. */
    ghost predicate Tracked()
      reads this
    {
      TrackedTo(seen)
    }

    /** The same when `w` was all that had been read up to there. */
    ghost predicate TrackedTo(w: seq<seq<Sample>>)
      reads `trail, `found, `ratio, `dataPos, `dataSym
    {
      && Follows(trail) && trail.found == found && trail.ratio == ratio && EndOf(trail) == dataPos
      && |trail.windows| == |trail.shifts| == dataSym && w == Before(trail, dataSym)
    }

    // How many symbols a frame takes.

    /** The symbols announced when the trail had come so far: eight at first, then what the last one said. */
    ghost function Announced(t: Trail): nat
      requires |t.windows| == |t.shifts|
    {
      var n := |t.shifts|;
      if n == 0 then 8 else symbol(t.windows[n - 1], t.ratio, t.shifts[n - 1]).needed
    }

    /** The last symbol called the frame off. */
    ghost predicate Stopped(t: Trail)
      requires |t.windows| == |t.shifts|
    {
      var n := |t.shifts|;
      n > 0 && symbol(t.windows[n - 1], t.ratio, t.shifts[n - 1]).stop
    }

    /** Each symbol was called for: fewer than announced were in, and none had called the frame off. */
    ghost predicate Called(t: Trail)
      requires |t.windows| == |t.shifts|
      decreases |t.shifts|
    {
      |t.shifts| > 0 ==>
        var b := Shorter(t); Called(b) && |b.shifts| < Announced(b) && !Stopped(b)
    }

    /** The counters agree with the trail. */
    ghost predicate Counted()
      reads `values, `needed, `dataSym, `trail
    {
      && |trail.windows| == |trail.shifts| == dataSym == values
      && needed == Announced(trail) && Called(trail)
    }

    /** Why a frame ends: enough symbols, one that called it off, the most there can be, or the buffer lost. */
    ghost predicate Done()
      reads `dataPos, `base, `trail
    {
      && |trail.windows| == |trail.shifts|
      && (|trail.shifts| >= Announced(trail) || Stopped(trail) || |trail.shifts| == maxSyms || dataPos - base as real < 1.0)
    }

    /** A frame that ends with its count full ends with exactly the number announced, unless its last
        symbol lowered that. */
    lemma FullCount(t: Trail)
      requires |t.windows| == |t.shifts| && Called(t) && |t.shifts| >= Announced(t)
      ensures |t.shifts| == 0 || Announced(t) < Announced(Shorter(t)) || |t.shifts| == Announced(t)
    {
      if |t.shifts| > 0 {
        assert |Shorter(t).shifts| < Announced(Shorter(t));
      }
    }

    lemma CalledLonger(t: Trail, w: seq<seq<Sample>>, shift: real)
      requires |t.windows| == |t.shifts| && Called(t) && |t.shifts| < Announced(t) && !Stopped(t)
      ensures var t', outcome := Longer(t, w, shift), symbol(w, t.ratio, shift);
              && |t'.windows| == |t'.shifts| == |t.shifts| + 1
              && Called(t') && Announced(t') == outcome.needed && Stopped(t') == outcome.stop
    {
      LongerParts(t, w, shift);
    }

    lemma TrailBounded(t: Trail)
      requires Follows(t)
      ensures |t.shifts| <= maxSyms
    {
    }

    lemma NothingCalled(t: Trail)
      requires t.windows == [] && t.shifts == []
      ensures Called(t) && Announced(t) == 8 && !Stopped(t)
    {
    }

    // Outcomes.

    /** A shift that is tried on a symbol, or none. */
    ghost predicate Tried(w: seq<seq<Sample>>, r: real, shift: real) {
      shift == 0.0 || exists n: nat :: n <= |w| && shift in trials(w[..n], r)
    }

    ghost predicate Grows(a: seq<seq<Sample>>, b: seq<seq<Sample>>) {
      |a| < |b| && b[..|a|] == a && forall j: nat | |a| <= j < |b| :: |b[j]| == sps
    }

    /** The trail of a frame that was locked, with each symbol's windows read behind the last one's. */
    ghost predicate Follows(t: Trail) {
      && sync(t.buf, t.at, t.found) == Locked(t.start, t.ratio)
      && |t.windows| == |t.shifts| <= maxSyms
      && forall i: nat | i < |t.windows| :: Grows(Before(t, i), t.windows[i]) && Tried(t.windows[i], t.ratio, t.shifts[i])
    }

    /** How far one symbol moves the position: its length, the shift kept and the correction. */
    function Move(w: seq<seq<Sample>>, r: real, shift: real): real {
      shift + (Length(r) + symbol(w, r, shift).adjust)
    }

    lemma MoveIs(w: seq<seq<Sample>>, r: real, shift: real)
      ensures Move(w, r, shift) == sps as real * r + shift + symbol(w, r, shift).adjust
    {
    }

    /** A symbol's length in samples before corrections. */
    function Length(r: real): real {
      sps as real * r
    }

    /** Where a frame stands: its start plus the moves of its symbols. */
    ghost function EndOf(t: Trail): real
      requires |t.windows| == |t.shifts|
      decreases |t.shifts|
    {
      if |t.shifts| == 0 then t.start
      else
        var n := |t.shifts| - 1;
        EndOf(t.(windows := t.windows[..n], shifts := t.shifts[..n])) + Move(t.windows[n], t.ratio, t.shifts[n])
    }

    /** Where searching resumes behind a frame that ends at pos. */
    function ResumeAt(pos: real): nat {
      (if pos < 0.0 then 0 else pos.Floor) + sps
    }

    /** Wherever a frame may end, searching resumes past the run it was found in. */
    ghost predicate ResumesPast() {
      forall t: Trail :: Follows(t) ==> ResumeAt(EndOf(t)) > t.found
    }

    lemma FreshTrail(t: Trail)
      requires sync(t.buf, t.at, t.found) == Locked(t.start, t.ratio) && t.windows == [] && t.shifts == []
      ensures Follows(t) && EndOf(t) == t.start
    {
    }

    /** The trail without its last symbol. */
    ghost function Shorter(t: Trail): Trail
      requires |t.windows| == |t.shifts| > 0
    {
      var n := |t.shifts| - 1;
      t.(windows := t.windows[..n], shifts := t.shifts[..n])
    }

    lemma EndOfLast(t: Trail)
      requires |t.windows| == |t.shifts| > 0
      ensures var n := |t.shifts| - 1; EndOf(t) == EndOf(Shorter(t)) + Move(t.windows[n], t.ratio, t.shifts[n])
    {
      hide Move;
    }

    lemma ShorterFollows(t: Trail)
      requires Follows(t) && |t.shifts| > 0
      ensures Follows(Shorter(t)) && Tried(t.windows[|t.shifts| - 1], t.ratio, t.shifts[|t.shifts| - 1])
    {
      hide Grows, Tried;
      var n := |t.shifts| - 1;
      assert forall i: nat | i < n :: Before(Shorter(t), i) == Before(t, i);
    }

    /** The trail with one more symbol. */
    ghost function Longer(t: Trail, w: seq<seq<Sample>>, shift: real): Trail {
      t.(windows := t.windows + [w], shifts := t.shifts + [shift])
    }

    lemma LongerParts(t: Trail, w: seq<seq<Sample>>, shift: real)
      requires |t.windows| == |t.shifts|
      ensures var t', n := Longer(t, w, shift), |t.shifts|;
              && |t'.windows| == |t'.shifts| == n + 1 && t'.windows[n] == w && t'.shifts[n] == shift
              && t'.ratio == t.ratio && t'.found == t.found && t'.start == t.start && t'.buf == t.buf && t'.at == t.at
              && Shorter(t') == t && Before(t', n + 1) == w
    {
      var t' := Longer(t, w, shift);
      assert t'.windows[..|t.shifts|] == t.windows && t'.shifts[..|t.shifts|] == t.shifts;
    }

    lemma LongerBefore(t: Trail, w: seq<seq<Sample>>, shift: real, i: nat)
      requires |t.windows| == |t.shifts| && i <= |t.shifts|
      ensures |Longer(t, w, shift).windows| == |t.shifts| + 1 && Before(Longer(t, w, shift), i) == Before(t, i)
      ensures i < |t.shifts| ==> |Longer(t, w, shift).shifts| == |t.shifts| + 1
                                 && Longer(t, w, shift).windows[i] == t.windows[i] && Longer(t, w, shift).shifts[i] == t.shifts[i]
    {
    }

    lemma TrailGrows(t: Trail, w: seq<seq<Sample>>, shift: real)
      requires Follows(t) && |t.shifts| < maxSyms && Grows(Before(t, |t.shifts|), w) && Tried(w, t.ratio, shift)
      ensures var t' := Longer(t, w, shift);
              Follows(t') && EndOf(t') == EndOf(t) + Move(w, t.ratio, shift)
      ensures |Longer(t, w, shift).windows| == |Longer(t, w, shift).shifts| == |t.shifts| + 1
    {
      hide Grows, Tried, Move, EndOf, Shorter, Longer, Before;
      var t', n := Longer(t, w, shift), |t.shifts|;
      LongerParts(t, w, shift);
      forall i: nat | i < n + 1 ensures Grows(Before(t', i), t'.windows[i]) && Tried(t'.windows[i], t'.ratio, t'.shifts[i]) {
        LongerBefore(t, w, shift, i);
      }
      EndOfLast(t');
    }

    lemma NextTrail(t: Trail, w: seq<seq<Sample>>, shift: real)
      requires Follows(t) && |t.shifts| < maxSyms && Grows(Before(t, |t.shifts|), w) && Tried(w, t.ratio, shift)
      ensures var t', n := Longer(t, w, shift), |t.shifts|;
              && Follows(t') && |t'.windows| == |t'.shifts| == n + 1 && t'.shifts[n] == shift
              && t'.ratio == t.ratio && t'.found == t.found && Before(t', n + 1) == w
              && EndOf(t') == EndOf(t) + Move(w, t.ratio, shift)
    {
      LongerParts(t, w, shift);
      TrailGrows(t, w, shift);
      hide *;
    }

    /** Frames start no earlier than their run, at a ratio of at least `low`; and at
        such ratios no correction, trial shift included, takes back more than a symbol. */
    ghost predicate SmallCorrections(low: real) {
      && (forall b: seq<Sample>, at: nat, f: nat :: sync(b, at, f).Locked? ==>
            sync(b, at, f).start >= f as real && sync(b, at, f).ratio >= low)
      && (forall w: seq<seq<Sample>>, r: real, shift: real ::
            r >= low && Tried(w, r, shift) ==> shift + symbol(w, r, shift).adjust >= -Length(r))
    }

    /** Small corrections resume past the run. */
    lemma SmallCorrectionsResume(low: real)
      requires sps > 0 && SmallCorrections(low)
      ensures ResumesPast()
    {
      forall t: Trail | Follows(t) ensures ResumeAt(EndOf(t)) > t.found {
        NoStepBack(t, low);
        assert t.start >= t.found as real;
        hide EndOf, Follows, SmallCorrections;
      }
    }

    lemma {:induction false} NoStepBack(t: Trail, low: real)
      requires Follows(t) && SmallCorrections(low)
      ensures EndOf(t) >= t.start
      decreases |t.shifts|
    {
      if |t.shifts| > 0 {
        var n := |t.shifts| - 1;
        EndOfLast(t);
        ShorterFollows(t);
        hide Length;
        assert t.ratio >= low;
        assert t.shifts[n] + symbol(t.windows[n], t.ratio, t.shifts[n]).adjust >= -Length(t.ratio);
        assert Move(t.windows[n], t.ratio, t.shifts[n]) >= 0.0;
        hide Grows, Tried, EndOf, Follows, SmallCorrections, Move;
        NoStepBack(Shorter(t), low);
      }
    }

    method TrimFront(keep: nat)
      requires Buffered()
      modifies `buf, `base
      ensures Buffered() && base == if keep <= old(base) then old(base) else if keep < nextAbs then keep else nextAbs
    {
      if keep <= base {
        return;
      }
      var drop := if keep - base < |buf| then keep - base else |buf|;
      buf := buf[drop..];
      base := base + drop;
    }

    method ResetToSearch(from: nat)
      requires Buffered()
      modifies `mode, `runLen, `scan, `origin
      ensures Valid() && mode == Search && runLen == 0 && scan == if from < base then base else from
    {
      mode := Search;
      runLen := 0;
      scan := if from < base then base else from;
      origin := scan;
    }

    /** The samples of one window, in bounds. */
    method RawWindow(at: nat) returns (w: seq<Sample>)
      requires Buffered() && base <= at && at + sps <= nextAbs
      ensures w == stream[at..at + sps]
    {
      w := buf[at - base..at - base + sps];
    }

    method StepSearch() returns (progress: bool)
      requires Valid() && mode == Search
      modifies `buf, `base, `mode, `scan, `runStart, `runLen, `prevChip, `found
      ensures Valid()
      ensures progress == (old(scan) + sps <= nextAbs)
      ensures !progress ==> mode == Search && |buf| < 6 * sps + sps / 2 + 8
      ensures progress ==> scan == old(scan) + sps && base == old(base)
      ensures progress && mode == Search ==> Floor() >= old(Floor())
      ensures progress && mode != Search ==> mode == Sync && found == old(Floor()) && FullRun(stream, scan) && scan == found + 6 * sps
      ensures progress && mode == Search && scan >= origin + 6 * sps ==> !FullRun(stream, scan)
    {
      SpanSteps(runLen, sps);
      hide Span, LongestRun, FullRun, Run;
      if scan + sps > nextAbs {
        Rest();
        return false;
      }
      var window := RawWindow(scan);
      var pk := demod(window);
      TakeWindow(pk);
      if mode == Search && scan >= origin + 6 * sps {
        NoSixMissed(stream, origin, scan, runLen, prevChip);
      }
      return true;
    }

    /** Nothing to scan: keep the run, or half a symbol behind the scan point. */
    method Rest()
      requires Buffered() && Searching() && mode == Search && scan + sps > nextAbs
      modifies `buf, `base
      ensures Buffered() && Searching() && |buf| < 6 * sps + sps / 2 + 8
    {
      SpanSteps(runLen, sps);
      hide Span;
      var margin := sps / 2 + 8;
      var keep := if runLen > 0 then runStart else scan;
      TrimFront(if keep > margin then keep - margin else 0);
    }

    method TakeWindow(pk: Peak)
      requires Valid() && mode == Search && scan + sps <= nextAbs && pk == PeakAt(stream, scan + sps)
      modifies `mode, `scan, `runStart, `runLen, `prevChip, `found
      ensures Valid() && scan == old(scan) + sps
      ensures mode == Search ==> Floor() >= old(Floor())
      ensures mode != Search ==> mode == Sync && found == old(Floor()) && FullRun(stream, scan) && scan == found + 6 * sps
    {
      hide Span, Follows, EndOf, Called, Announced, Stopped, TrackedTo, Tracked, Counted, LongestRun, FullRun, Run, PeakAt;
      SpanSteps(runLen, sps);
      NextRun(stream, origin, scan, runLen, prevChip,
              if !pk.strong then 0 else if runLen == 0 || !near(pk.chip, prevChip) then 1 else runLen + 1);
      SixIsRun(stream, origin, scan + sps, pk.chip);
      var contiguous := runLen > 0 && near(pk.chip, prevChip);
      if pk.strong && (runLen == 0 || contiguous) {
        if runLen == 0 {
          runStart := scan;
        }
        runLen := runLen + 1;
        prevChip := pk.chip;
        if runLen >= RUN_NEEDED {
          found := runStart;
          mode := Sync;
          scan := scan + sps;
          return;
        }
      } else {
        runLen := if pk.strong then 1 else 0;
        runStart := scan;
        prevChip := pk.chip;
      }
      scan := scan + sps;
    }

    /** Where the run under way, or the scan, begins. */
    function Floor(): nat
      reads `mode, `runLen, `runStart, `scan, `found
    {
      if mode.Search? then (if runLen > 0 then runStart else scan) else found
    }

    /** The frame's first symbol is located. */
    method Lock(start: real, r: real)
      requires Valid() && mode == Sync && sync(buf, base, found) == Locked(start, r)
      modifies `mode, `dataPos, `ratio, `values, `needed, `dataSym, `seen, `trail
      ensures Valid() && mode == Data && dataPos == start && ratio == r
    {
      FreshTrail(Trail(found, buf, base, start, r, [], []));
      NothingCalled(Trail(found, buf, base, start, r, [], []));
      hide Follows, EndOf, Span, Called, Announced, Stopped;
      dataPos, ratio := start, r;
      values, needed, dataSym, seen := 0, 8, 0, [buf];
      trail := Trail(found, buf, base, start, r, [], []);
      mode := Data;
    }

    method StepSync() returns (progress: bool)
      requires Valid() && mode == Sync
      modifies `mode, `runLen, `scan, `origin, `dataPos, `ratio, `values, `needed, `dataSym, `frames, `seen, `trail
      ensures Valid()
      ensures progress == (nextAbs >= found + Span(spanSyms, sps) + sps / 2 + 16)
      ensures !progress ==> mode == Sync
      ensures progress ==> mode == Data || (mode == Search && runLen == 0 && scan > found)
    {
      if nextAbs < found + Span(spanSyms, sps) + sps / 2 + 16 {
        return false;
      }
      var outcome := sync(buf, base, found);
      SpanSteps(4, sps);
      hide Span;
      match outcome {
        case Failed =>
          frames := frames + 1;
          ResumeAhead(spanSyms, sps);
          ResetToSearch(found + Span(spanSyms - 2, sps));
        case Locked(start, r) =>
          Lock(start, r);
      }
      return true;
    }

    /** The four samples around a position are in the buffer. */
    ghost predicate Inside(pos: real)
      reads `buf
    {
      1 <= pos.Floor && pos.Floor + 2 < |buf|
    }

    method Resample(start: real, count: nat) returns (out: seq<Sample>)
      ensures |out| <= count
      ensures (forall k: nat | k < count :: Readable(Position(start, ratio, k), |buf|)) ==> |out| == count
      ensures |out| < count ==> !Readable(Position(start, ratio, |out|), |buf|)
      ensures forall k: nat | k < |out| :: Inside(Position(start, ratio, k)) && out[k] == tap(buf, Position(start, ratio, k))
    {
      out := [];
      for k := 0 to count
        invariant |out| == k
        invariant forall j: nat | j < k :: Inside(Position(start, ratio, j)) && out[j] == tap(buf, Position(start, ratio, j))
      {
        var pos := Position(start, ratio, k);
        if !Readable(pos, |buf|) {
          return;
        }
        out := out + [tap(buf, pos)];
      }
    }

    /** Samples from one symbol start to the next before corrections. */
    function StepLength(): real
      reads `ratio
    {
      Length(ratio)
    }

    predicate Waiting()
      reads `dataPos, `base, `ratio, `buf
    {
      dataPos - base as real + StepLength() + 3.0 >= |buf| as real
    }

    /** Whether a window of this frame that starts at `start` is in the buffer. */
    predicate InBuffer(start: real)
      reads `ratio, `buf
    {
      start >= 1.0 && start + StepLength() + 3.0 < |buf| as real
    }

    /** Read a window. Every position it interpolates at is inside the buffer, and
        it is whole exactly when all of them are; at a positive ratio a window
        that passes the length test is. */
    method ReadWindow(start: real) returns (whole: bool)
      modifies `seen
      ensures whole <==> forall k: nat | k < sps :: Readable(Position(start, ratio, k), |buf|)
      ensures whole ==> Grows(old(seen), seen) && |seen| == |old(seen)| + 1
      ensures whole ==> Sampled(buf, seen[|old(seen)|], start, ratio)
      ensures !whole ==> seen == old(seen)
      ensures ratio > 0.0 && InBuffer(start) ==> whole
    {
      if ratio > 0.0 && InBuffer(start) {
        forall k: nat | k < sps ensures Readable(Position(start, ratio, k), |buf|) {
          WindowReadable(start, ratio, sps, |buf|, k);
        }
      }
      hide Readable, Position;
      var window := Resample(start, sps);
      whole := |window| >= sps;
      if whole {
        seen := seen + [window];
      }
    }

    /** w is the window interpolated in b from `start`. */
    ghost predicate Sampled(b: seq<Sample>, w: seq<Sample>, start: real, r: real) {
      |w| == sps && forall k: nat | k < sps :: w[k] == tap(b, start + k as real * r)
    }

    ghost predicate Whole(start: real)
      reads `ratio, `buf
    {
      forall k: nat | k < sps :: Readable(Position(start, ratio, k), |buf|)
    }

    /** Try the same symbol a little earlier or later: a shift whose window is not
        all in the buffer is passed over, and the one kept is read again. */
    method Refine(start: real) returns (shift: real)
      requires Whole(start)
      modifies `seen
      ensures Whole(start + shift) && Tried(seen, ratio, shift)
      ensures seen == old(seen) || Grows(old(seen), seen)
      ensures if seen == old(seen) then shift == 0.0 else Sampled(buf, seen[|seen| - 1], start + shift, ratio)
    {
      hide Readable, Position, Sampled;
      var list := trials(seen, ratio);
      ghost var first := seen;
      var read: seq<real> := [];
      for i := 0 to |list|
        invariant seen == first || Grows(first, seen)
        invariant forall j: nat | j < |read| :: read[j] in list && Whole(start + read[j])
        invariant read == [] ==> seen == first
      {
        if InBuffer(start + list[i]) {
          var whole := ReadWindow(start + list[i]);
          if whole {
            read := read + [list[i]];
          }
        }
      }
      if |read| == 0 {
        return 0.0;
      }
      var kept := pick(seen, read);
      shift := if kept < |read| then read[kept] else 0.0;
      assert Whole(start + shift) by { assert start + 0.0 == start; }
      var whole := ReadWindow(start + shift);
      assert shift in list || shift == 0.0;
      assert seen[..|first|] == first;
    }

    /** One symbol: its windows, read in bounds and in full, then the next start. A
        first window that comes out short leaves everything as it was. */
    method TakeSymbol() returns (whole: bool, stop: bool)
      requires Valid() && mode == Data && dataSym < maxSyms && InBuffer(dataPos - base as real)
      modifies `buf, `base, `dataPos, `values, `needed, `dataSym, `seen, `trail
      requires values < needed
      ensures Sound() && mode == Data && Counted() && (stop <==> Stopped(trail))
      ensures ratio > 0.0 ==> whole
      ensures !whole ==> !stop && seen == old(seen) && trail == old(trail)
                         && dataPos == old(dataPos) && base == old(base) && buf == old(buf) && values == old(values) && needed == old(needed)
      ensures whole ==> dataSym == old(dataSym) + 1 && Grows(old(seen), seen)
      ensures whole ==> |trail.shifts| == dataSym && dataPos == old(dataPos) + Move(seen, ratio, trail.shifts[old(dataSym)])
      ensures whole ==>
        var shift := trail.shifts[old(dataSym)];
        dataPos == old(dataPos) + sps as real * ratio + shift + symbol(seen, ratio, shift).adjust
      ensures whole ==>
        var start, shift := old(dataPos) - old(base) as real, trail.shifts[old(dataSym)];
        && Sampled(old(buf), seen[|old(seen)|], start, ratio)
        && (shift == 0.0 || Sampled(old(buf), seen[|seen| - 1], start + shift, ratio))
    {
      hide Readable, Position, Tried, Grows, TrackedTo, InBuffer, Move, Called, Announced, Stopped, Sampled;
      var start := dataPos - base as real;
      ghost var first := seen;
      whole := ReadWindow(start);
      if !whole {
        return false, false;
      }
      ghost var second := seen;
      assert Whole(start);
      var shift := Refine(start);
      GrowsFurther(first, second, seen);
      assert Sampled(buf, seen[|first|], start, ratio);
      MoveIs(seen, ratio, shift);
      stop := Advance(shift, first);
      Forget();
    }

    /** Move on to the next symbol. */
    method Advance(shift: real, ghost first: seq<seq<Sample>>) returns (stop: bool)
      requires dataSym < maxSyms && TrackedTo(first) && Grows(first, seen) && Tried(seen, ratio, shift)
      requires Counted() && !Stopped(trail) && values < needed
      modifies `dataPos, `values, `needed, `dataSym, `trail
      ensures TrackedTo(seen) && dataSym == old(dataSym) + 1 && Counted() && (stop <==> Stopped(trail))
      ensures |trail.shifts| == dataSym && trail.shifts[old(dataSym)] == shift && dataPos == old(dataPos) + Move(seen, ratio, shift)
    {
      hide Length, Follows, EndOf, Tried, Grows, Longer, Before, Shorter, Called, Announced, Stopped;
      NextTrail(trail, seen, shift);
      CalledLonger(trail, seen, shift);
      var outcome := symbol(seen, ratio, shift);
      var move := shift + (StepLength() + outcome.adjust);
      assert move == Move(seen, ratio, shift);
      hide Move, StepLength;
      values, dataSym, needed := values + 1, dataSym + 1, outcome.needed;
      dataPos := dataPos + move;
      trail := Longer(trail, seen, shift);
      stop := outcome.stop;
    }

    /** Forget what the next symbol no longer needs. */
    method Forget()
      requires Buffered()
      modifies `buf, `base
      ensures Buffered()
    {
      var keep := dataPos - 8.0;
      if keep > 0.0 {
        TrimFront(keep.Floor);
      }
    }

    lemma GrowsFurther(a: seq<seq<Sample>>, b: seq<seq<Sample>>, c: seq<seq<Sample>>)
      requires Grows(a, b) && (c == b || Grows(b, c))
      ensures Grows(a, c) && |a| < |b| <= |c| && c[|a|] == b[|a|]
    {
    }

    /** Take symbols until the frame is done, or until a window is not there yet. */
    method Collect() returns (done: bool)
      requires Valid() && mode == Data
      modifies `buf, `base, `dataPos, `values, `needed, `dataSym, `seen, `trail
      ensures Sound() && mode == Data && Counted()
      ensures done ==> Done()
      ensures !done ==> Valid() && (Waiting() || ratio <= 0.0) && values < needed && dataSym < maxSyms
    {
      hide Follows, EndOf, Grows, Move, Called, Announced, Stopped;
      while values < needed && dataSym < maxSyms
        invariant Valid() && mode == Data
        decreases maxSyms - dataSym
      {
        if dataPos - base as real < 1.0 {
          return true;
        }
        if Waiting() {
          return false;
        }
        var whole, stop := TakeSymbol();
        if !whole {
          return false;
        }
        if stop {
          return true;
        }
      }
      TrailBounded(trail);
      return true;
    }

    method StepData() returns (progress: bool)
      requires Valid() && mode == Data
      modifies `buf, `base, `mode, `runLen, `scan, `origin, `dataPos, `values, `needed, `dataSym, `frames, `seen, `trail
      ensures Valid()
      ensures !progress ==> mode == Data && (Waiting() || ratio <= 0.0) && values < needed && dataSym < maxSyms
      ensures !progress && ratio > 0.0 ==> dataPos - base as real + sps as real * ratio + 3.0 >= |buf| as real
      ensures progress ==> |trail.windows| == |trail.shifts| && Called(trail) && Done()
      ensures progress ==> mode == Search && runLen == 0 && Tracked() && scan >= ResumeAt(dataPos)
      ensures progress && ResumesPast() ==> scan > found
    {
      hide Follows, EndOf, Called, Announced, Stopped;
      progress := Collect();
      if progress {
        Finalize();
      }
    }

    /** The frame ends; searching resumes a symbol past the last position. */
    method Finalize()
      requires Sound() && mode == Data
      modifies `mode, `runLen, `scan, `origin, `frames
      ensures Valid() && mode == Search && runLen == 0 && frames == old(frames) + 1
      ensures scan == if ResumeAt(dataPos) < base then base else ResumeAt(dataPos)
      ensures scan >= base && dataPos >= 0.0 ==> dataPos + sps as real - 1.0 < scan as real
      ensures dataPos >= 0.0 && scan > base ==> scan as real <= dataPos + sps as real
    {
      frames := frames + 1;
      ResetToSearch(ResumeAt(dataPos));
    }

    /** Search, synchronise and demodulate until nothing more can be done with what is buffered. */
    method Process()
      requires Valid() && ResumesPast()
      modifies this
      ensures Valid() && stream == old(stream) && nextAbs == old(nextAbs)
      ensures mode == Search ==> |buf| < 6 * sps + sps / 2 + 8
      ensures mode == Sync ==> nextAbs < found + Span(spanSyms, sps) + sps / 2 + 16
      ensures mode == Data ==> Waiting() || ratio <= 0.0
    {
      hide Span, ResumesPast, Tracked, ResumeAt;
      while true
        invariant Valid() && stream == old(stream) && nextAbs == old(nextAbs)
        decreases if nextAbs > Floor() then nextAbs - Floor() else 0,
                  if mode.Search? then 2 else if mode.Sync? then 1 else 0,
                  if mode.Search? && nextAbs > scan then nextAbs - scan else 0
      {
        var progress;
        match mode {
          case Search => progress := StepSearch();
          case Sync => progress := StepSync();
          case Data => progress := StepData();
        }
        if !progress {
          return;
        }
      }
    }

    /** A chunk extends the stream, whatever the receiver is at. */
    method Append(chunk: seq<Sample>)
      requires Valid()
      modifies `buf, `nextAbs, `stream
      ensures Valid() && stream == old(stream) + chunk && nextAbs == old(nextAbs) + |chunk|
    {
      hide Follows, EndOf, Span, LongestRun, Run, PeakAt, Called, Announced, Stopped;
      if mode == Search { LongestKept(stream, chunk, origin, scan, runLen, prevChip); }
      buf := buf + chunk;
      nextAbs := nextAbs + |chunk|;
      stream := stream + chunk;
    }

    method Feed(chunk: seq<Sample>)
      requires Valid() && ResumesPast()
      modifies this
      ensures Valid() && stream == old(stream) + chunk && nextAbs == old(nextAbs) + |chunk|
      ensures mode == Search ==> |buf| < 6 * sps + sps / 2 + 8
      ensures mode == Data ==> Waiting() || ratio <= 0.0
    {
      Append(chunk);
      Process();
    }

    /** End of stream: a frame under way is finished with what there is. */
    method Flush()
      requires Valid()
      modifies this
      ensures Valid() && mode != Data && stream == old(stream)
      ensures old(mode) == Data ==> mode == Search && frames == old(frames) + 1
      ensures old(mode) != Data ==> mode == old(mode) && frames == old(frames)
    {
      if mode != Data {
        return;
      }
      Finalize();
    }

    method Reset()
      requires sps > 0 && spanSyms >= 7
      modifies this
      ensures Valid() && stream == [] && nextAbs == 0 && mode == Search
    {
      buf, base, nextAbs, stream := [], 0, 0, [];
      ResetToSearch(0);
    }
  }
}
