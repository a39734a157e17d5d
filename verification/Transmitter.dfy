/** The transmit queue refines a stream: the samples pulled are the queued
    bursts in order, and silence only when nothing is pending. */
module Transmitter {
  import opened Numbers
  import opened Fir
  import opened Frame
  import opened Header
  import opened Crc

  /** What the pull side works on: the rest of the burst on the air, and the frames waiting. */
  datatype Line = Line(rest: seq<Sample>, queue: seq<seq<Sample>>)

  /** Carrier samples before a frame, silent samples after it. */
  datatype Shape = Shape(warmup: seq<Sample>, gap: seq<Sample>)

  function Burst(sh: Shape, frame: seq<Sample>): seq<Sample> {
    sh.warmup + frame + sh.gap
  }

  /** Sample by sample: the carrier at its amplitude, then the frame, then silence. */
  ghost predicate Keyed(amplitude: real, before: nat, after: nat, frame: seq<Sample>, burst: seq<Sample>) {
    && |burst| == before + |frame| + after
    && forall k: nat | k < |burst| :: burst[k] ==
         if k < before then Sample(amplitude, 0.0) else if k < before + |frame| then frame[k - before] else Sample(0.0, 0.0)
  }

  /** Everything still to be sent, in order. */
  function Pending(sh: Shape, l: Line): seq<Sample>
    decreases |l.queue|
  {
    if |l.queue| == 0 then l.rest else l.rest + Pending(sh, Line(Burst(sh, l.queue[0]), l.queue[1..]))
  }

  datatype Pulled = Pulled(out: seq<Sample>, line: Line)

  /** n samples, exactly as the pull loop produces them. */
  function Pull(sh: Shape, l: Line, n: nat): (r: Pulled)
    ensures |r.out| == n
    decreases |l.queue|, n
  {
    if n == 0 then Pulled([], l)
    else if |l.rest| > 0 then
      var take := Min(n, |l.rest|);
      var more := Pull(sh, Line(l.rest[take..], l.queue), n - take);
      Pulled(l.rest[..take] + more.out, more.line)
    else if |l.queue| == 0 then Pulled(Zeros(n), l)
    else
      var burst := Burst(sh, l.queue[0]);
      if |burst| == 0 then Pulled(Zeros(n), Line([], l.queue[1..]))
      else Pull(sh, Line(burst, l.queue[1..]), n)
  }

  /** The ideal: the first n samples of a stream, silence after its end. */
  function Front(s: seq<Sample>, n: nat): (r: seq<Sample>)
    ensures |r| == n
  {
    if n <= |s| then s[..n] else s + Zeros(n - |s|)
  }

  function Back(s: seq<Sample>, n: nat): seq<Sample> {
    s[Min(n, |s|)..]
  }

  /** No empty burst waits ahead of one with samples. */
  ghost predicate Unbroken(sh: Shape, queue: seq<seq<Sample>>) {
    forall i: nat, j: nat | i < j < |queue| :: |Burst(sh, queue[j])| > 0 ==> |Burst(sh, queue[i])| > 0
  }

  lemma UnbrokenTail(sh: Shape, queue: seq<seq<Sample>>)
    requires Unbroken(sh, queue) && |queue| > 0
    ensures Unbroken(sh, queue[1..])
  {
    forall i: nat, j: nat | i < j < |queue[1..]| && |Burst(sh, queue[1..][j])| > 0 ensures |Burst(sh, queue[1..][i])| > 0 {
      assert queue[1..][i] == queue[i + 1] && queue[1..][j] == queue[j + 1];
    }
  }

  /** After an empty burst nothing with samples can follow in an unbroken queue. */
  lemma {:induction false} NothingBehind(sh: Shape, l: Line)
    requires |l.rest| == 0 && forall i: nat | i < |l.queue| :: |Burst(sh, l.queue[i])| == 0
    ensures Pending(sh, l) == []
    decreases |l.queue|
  {
    if |l.queue| > 0 {
      NothingBehind(sh, Line(Burst(sh, l.queue[0]), l.queue[1..]));
    }
  }

  lemma FrontSplit(a: seq<Sample>, b: seq<Sample>, n: nat)
    ensures n <= |a| ==> Front(a + b, n) == a[..n] && Back(a + b, n) == a[n..] + b
    ensures n >= |a| ==> Front(a + b, n) == a + Front(b, n - |a|) && Back(a + b, n) == Back(b, n - |a|)
  {
  }

  lemma PendingRest(sh: Shape, l: Line)
    ensures Pending(sh, l) == l.rest + Pending(sh, Line([], l.queue))
  {
  }

  lemma StreamStep(rest: seq<Sample>, tail: seq<Sample>, n: nat, take: nat)
    requires take == Min(n, |rest|)
    ensures rest[..take] + Front(rest[take..] + tail, n - take) == Front(rest + tail, n)
    ensures Back(rest[take..] + tail, n - take) == Back(rest + tail, n)
  {
    FrontSplit(rest, tail, n);
    if n <= |rest| {
      assert Front(rest[take..] + tail, 0) == [];
    } else {
      assert rest[take..] + tail == tail && rest[..take] == rest;
    }
  }

  /** What a pull owes the stream. */
  ghost predicate Streams(sh: Shape, l: Line, n: nat) {
    var r := Pull(sh, l, n);
    r.out == Front(Pending(sh, l), n) && Pending(sh, r.line) == Back(Pending(sh, l), n) && Unbroken(sh, r.line.queue)
  }

  lemma PullRest(sh: Shape, l: Line, n: nat, take: nat)
    requires n > 0 && |l.rest| > 0 && take == Min(n, |l.rest|)
    ensures var more := Pull(sh, Line(l.rest[take..], l.queue), n - take);
            Pull(sh, l, n) == Pulled(l.rest[..take] + more.out, more.line)
  {
  }

  /** The burst's part of a pull before the stream's part that is left. */
  lemma RestStreams(sh: Shape, l: Line, n: nat, take: nat, more: Pulled)
    requires take == Min(n, |l.rest|)
    requires var left := Pending(sh, Line(l.rest[take..], l.queue));
             more.out == Front(left, n - take) && Pending(sh, more.line) == Back(left, n - take)
    ensures l.rest[..take] + more.out == Front(Pending(sh, l), n) && Pending(sh, more.line) == Back(Pending(sh, l), n)
  {
    hide Pending, Front, Back;
    PendingRest(sh, l);
    PendingRest(sh, Line(l.rest[take..], l.queue));
    StreamStep(l.rest, Pending(sh, Line([], l.queue)), n, take);
  }

  lemma NextStreams(sh: Shape, l: Line, n: nat)
    requires n > 0 && |l.rest| == 0 && |l.queue| > 0 && |Burst(sh, l.queue[0])| > 0
    requires Streams(sh, Line(Burst(sh, l.queue[0]), l.queue[1..]), n)
    ensures Streams(sh, l, n)
  {
    var l' := Line(Burst(sh, l.queue[0]), l.queue[1..]);
    assert Pull(sh, l, n) == Pull(sh, l', n);
    assert Pending(sh, l) == [] + Pending(sh, l') == Pending(sh, l');
  }

  lemma EmptyStreams(sh: Shape, l: Line, n: nat)
    requires n > 0 && |l.rest| == 0 && |l.queue| > 0 && |Burst(sh, l.queue[0])| == 0 && Unbroken(sh, l.queue)
    ensures Streams(sh, l, n)
  {
    UnbrokenTail(sh, l.queue);
    var l' := Line([], l.queue[1..]);
    assert forall i: nat | i < |l'.queue| :: |Burst(sh, l'.queue[i])| == 0;
    NothingBehind(sh, l');
    NothingBehind(sh, l);
  }

  /** An unbroken queue is pulled as one stream: first in, first out, never split, lost or repeated. */
  lemma {:induction false} PullsTheStream(sh: Shape, l: Line, n: nat)
    requires Unbroken(sh, l.queue)
    ensures var r := Pull(sh, l, n);
            r.out == Front(Pending(sh, l), n) && Pending(sh, r.line) == Back(Pending(sh, l), n) && Unbroken(sh, r.line.queue)
    decreases |l.queue|, n
  {
    if n == 0 {
    } else if |l.rest| > 0 {
      var take := Min(n, |l.rest|);
      var left := Line(l.rest[take..], l.queue);
      PullsTheStream(sh, left, n - take);
      PullRest(sh, l, n, take);
      RestStreams(sh, l, n, take, Pull(sh, left, n - take));
    } else if |l.queue| == 0 {
    } else if |Burst(sh, l.queue[0])| == 0 {
      EmptyStreams(sh, l, n);
    } else {
      UnbrokenTail(sh, l.queue);
      PullsTheStream(sh, Line(Burst(sh, l.queue[0]), l.queue[1..]), n);
      NextStreams(sh, l, n);
    }
  }

  /** In a broken queue some pull stops short: samples are pending, yet it sends silence. */
  lemma {:induction false} BrokenStopsShort(sh: Shape, l: Line) returns (n: nat)
    requires !Unbroken(sh, l.queue)
    ensures |Pending(sh, Pull(sh, l, n).line)| != |Back(Pending(sh, l), n)|
    decreases |l.queue|, |l.rest|
  {
    if |l.rest| > 0 {
      var l' := Line([], l.queue);
      var m := BrokenStopsShort(sh, l');
      n := m + |l.rest|;
      hide Unbroken, Burst;
      PullNothing(sh, l');
      PullRest(sh, l, n, |l.rest|);
      PendingRest(sh, l);
      hide Pull, Pending;
      FrontSplit(l.rest, Pending(sh, l'), n);
      assert l.rest[|l.rest|..] == [];
    } else if |Burst(sh, l.queue[0])| == 0 {
      SomethingBehind(sh, l.queue);
      n := 1;
      hide Unbroken, Burst;
      PullNext(sh, l, 1);
      assert Pending(sh, l) == Pending(sh, Line([], l.queue[1..]));
      hide Pull;
    } else {
      BrokenTail(sh, l.queue);
      var l' := Line(Burst(sh, l.queue[0]), l.queue[1..]);
      n := BrokenStopsShort(sh, l');
      hide Unbroken, Burst;
      PullNothing(sh, l');
      PullNext(sh, l, n);
      assert Pending(sh, l) == Pending(sh, l');
      hide Pull;
    }
  }

  lemma BrokenTail(sh: Shape, queue: seq<seq<Sample>>)
    requires !Unbroken(sh, queue) && |queue| > 0 && |Burst(sh, queue[0])| > 0
    ensures !Unbroken(sh, queue[1..])
  {
    var i: nat, j: nat :| i < j < |queue| && |Burst(sh, queue[j])| > 0 && |Burst(sh, queue[i])| == 0;
    assert queue[1..][i - 1] == queue[i] && queue[1..][j - 1] == queue[j];
  }

  lemma SomethingBehind(sh: Shape, queue: seq<seq<Sample>>)
    requires !Unbroken(sh, queue)
    ensures |Pending(sh, Line([], queue[1..]))| > 0
  {
    var i: nat, j: nat :| i < j < |queue| && |Burst(sh, queue[j])| > 0 && |Burst(sh, queue[i])| == 0;
    BurstPending(sh, Line([], queue[1..]), j - 1);
  }

  lemma {:induction false} BurstPending(sh: Shape, l: Line, j: nat)
    requires j < |l.queue|
    ensures |Pending(sh, l)| >= |Burst(sh, l.queue[j])|
    decreases |l.queue|
  {
    var l' := Line(Burst(sh, l.queue[0]), l.queue[1..]);
    if j == 0 {
      PendingRest(sh, l');
    } else {
      BurstPending(sh, l', j - 1);
    }
  }

  /** The stream is pulled without loss for every length exactly when the queue is unbroken. */
  lemma StreamExactly(sh: Shape, l: Line)
    ensures Unbroken(sh, l.queue)
       <==> forall n: nat :: |Pending(sh, Pull(sh, l, n).line)| == |Back(Pending(sh, l), n)|
  {
    if Unbroken(sh, l.queue) {
      forall n: nat ensures |Pending(sh, Pull(sh, l, n).line)| == |Back(Pending(sh, l), n)| {
        PullsTheStream(sh, l, n);
      }
    } else {
      var n := BrokenStopsShort(sh, l);
    }
  }

  /** With carrier or gap every queue is unbroken, whatever the frames. */
  lemma PaddedIsUnbroken(sh: Shape, queue: seq<seq<Sample>>)
    requires |sh.warmup| + |sh.gap| > 0
    ensures Unbroken(sh, queue)
  {
  }

  /** Two pulls are one longer pull. */
  lemma PullSplits(sh: Shape, l: Line, a: nat, b: nat)
    requires Unbroken(sh, l.queue)
    ensures var one := Pull(sh, l, a);
            var two := Pull(sh, one.line, b);
            var both := Pull(sh, l, a + b);
            both.out == one.out + two.out && Pending(sh, both.line) == Pending(sh, two.line)
  {
    PullsTheStream(sh, l, a);
    PullsTheStream(sh, l, a + b);
    PullsTheStream(sh, Pull(sh, l, a).line, b);
    hide Pull, Pending, Unbroken, Front, Back;
    TwoFronts(Pending(sh, l), a, b);
  }

  lemma TwoFronts(s: seq<Sample>, a: nat, b: nat)
    ensures Front(s, a + b) == Front(s, a) + Front(Back(s, a), b) && Back(s, a + b) == Back(Back(s, a), b)
  {
    hide Front, Back;
    if a <= |s| {
      assert s[..a] + s[a..] == s;
      NearFronts(s[..a], s[a..], b);
    } else {
      FarFronts(s, a, b);
    }
  }

  lemma NearFronts(p: seq<Sample>, q: seq<Sample>, b: nat)
    ensures Front(p + q, |p| + b) == Front(p + q, |p|) + Front(Back(p + q, |p|), b)
    ensures Back(p + q, |p| + b) == Back(Back(p + q, |p|), b)
  {
    hide *;
    AtSplit(p, q);
    BehindSplit(p, q, b);
  }

  lemma AtSplit(p: seq<Sample>, q: seq<Sample>)
    ensures Front(p + q, |p|) == p && Back(p + q, |p|) == q
  {
  }

  lemma BehindSplit(p: seq<Sample>, q: seq<Sample>, b: nat)
    ensures Front(p + q, |p| + b) == p + Front(q, b) && Back(p + q, |p| + b) == Back(q, b)
  {
    var n := |p| + b;
    FrontSplit(p, q, n);
    assert n - |p| == b;
    hide *;
  }

  lemma FarFronts(s: seq<Sample>, a: nat, b: nat)
    requires a > |s|
    ensures Front(s, a + b) == Front(s, a) + Front(Back(s, a), b) && Back(s, a + b) == Back(Back(s, a), b)
  {
    hide *;
    PastEnd(s, a);
    PastEnd(s, a + b);
    NothingLeft(b);
    ZerosAdd(a - |s|, b);
    assert a + b - |s| == a - |s| + b;
    Regroup(s, Zeros(a - |s|), Zeros(b));
  }

  lemma PastEnd(s: seq<Sample>, n: nat)
    requires n >= |s|
    ensures Front(s, n) == s + Zeros(n - |s|) && Back(s, n) == []
  {
    if n == |s| { assert Zeros(0) == []; }
  }

  lemma NothingLeft(n: nat)
    ensures Front([], n) == Zeros(n) && Back([], n) == []
  {
    if n == 0 { assert Zeros(0) == []; }
  }

  lemma ZerosAdd(a: nat, b: nat)
    ensures Zeros(a + b) == Zeros(a) + Zeros(b)
  {
  }

  /** Queueing a frame appends its burst to the stream. */
  lemma {:induction false} EnqueueAppends(sh: Shape, l: Line, frame: seq<Sample>)
    ensures Pending(sh, Line(l.rest, l.queue + [frame])) == Pending(sh, l) + Burst(sh, frame)
    decreases |l.queue|
  {
    var more := l.queue + [frame];
    if |l.queue| == 0 {
      assert more[1..] == [] && more[0] == frame;
      assert Pending(sh, Line(Burst(sh, frame), [])) == Burst(sh, frame);
    } else {
      assert more[0] == l.queue[0] && more[1..] == l.queue[1..] + [frame];
      var l' := Line(Burst(sh, l.queue[0]), l.queue[1..]);
      EnqueueAppends(sh, l', frame);
      assert l.rest + (Pending(sh, l') + Burst(sh, frame)) == (l.rest + Pending(sh, l')) + Burst(sh, frame);
    }
  }

  // Runs of queueing, pulling and clearing.

  datatype Op = Queue(frame: seq<Sample>) | Take(n: nat) | Clear

  function After(sh: Shape, l: Line, op: Op): Line {
    match op
    case Queue(frame) => Line(l.rest, l.queue + [frame])
    case Take(n) => Pull(sh, l, n).line
    case Clear => Line(l.rest, [])
  }

  function RunOps(sh: Shape, l: Line, ops: seq<Op>): Line {
    if |ops| == 0 then l else After(sh, RunOps(sh, l, ops[..|ops| - 1]), ops[|ops| - 1])
  }

  /** Every frame there ever was in the queue, in the order of queueing. */
  function Frames(l: Line, ops: seq<Op>): seq<seq<Sample>> {
    if |ops| == 0 then l.queue
    else
      var some := Frames(l, ops[..|ops| - 1]);
      if ops[|ops| - 1].Queue? then some + [ops[|ops| - 1].frame] else some
  }

  /** For each of those frames, whether it is kept: clearing drops those still waiting. */
  function Kept(sh: Shape, l: Line, ops: seq<Op>): (kept: seq<bool>)
    ensures |kept| == |Frames(l, ops)|
  {
    if |ops| == 0 then All(true, |l.queue|)
    else
      var some := Kept(sh, l, ops[..|ops| - 1]);
      match ops[|ops| - 1]
      case Queue(_) => some + [true]
      case Take(_) => some
      case Clear =>
        var waiting := Min(|RunOps(sh, l, ops[..|ops| - 1]).queue|, |some|);
        some[..|some| - waiting] + All(false, waiting)
  }

  function All(b: bool, n: nat): (r: seq<bool>)
    ensures |r| == n && forall i: nat | i < n :: r[i] == b
  {
    if n == 0 then [] else All(b, n - 1) + [b]
  }

  /** The bursts of the frames kept, one after the other, whole. */
  function Bursts(sh: Shape, frames: seq<seq<Sample>>, kept: seq<bool>): seq<Sample>
    requires |frames| == |kept|
  {
    if |frames| == 0 then []
    else
      Bursts(sh, frames[..|frames| - 1], kept[..|kept| - 1])
      + if kept[|kept| - 1] then Burst(sh, frames[|frames| - 1]) else []
  }

  /** What a run's pulls send of what is pending at each of them. */
  function Sent(sh: Shape, l: Line, ops: seq<Op>): seq<Sample> {
    if |ops| == 0 then []
    else
      var some, before := Sent(sh, l, ops[..|ops| - 1]), RunOps(sh, l, ops[..|ops| - 1]);
      match ops[|ops| - 1]
      case Take(n) => some + Pull(sh, before, n).out[..Min(n, |Pending(sh, before)|)]
      case _ => some
  }

  /** A pull takes frames from the front of the queue only. */
  lemma {:induction false} PullDrops(sh: Shape, l: Line, n: nat) returns (d: nat)
    ensures d <= |l.queue| && Pull(sh, l, n).line.queue == l.queue[d..]
    decreases |l.queue|, n
  {
    if n == 0 || (|l.rest| == 0 && |l.queue| == 0) {
      d := 0;
    } else if |l.rest| > 0 {
      var take := Min(n, |l.rest|);
      PullRest(sh, l, n, take);
      d := PullDrops(sh, Line(l.rest[take..], l.queue), n - take);
    } else {
      PullNext(sh, l, n);
      var burst := Burst(sh, l.queue[0]);
      if |burst| == 0 {
        d := 1;
      } else {
        var m := PullDrops(sh, Line(burst, l.queue[1..]), n);
        d := m + 1;
        assert l.queue[1..][m..] == l.queue[d..];
      }
    }
  }

  ghost predicate AllFrom(kept: seq<bool>, m: int, b: bool) {
    forall i: nat | m <= i < |kept| :: kept[i] == b
  }

  /** What waits are the last frames queued, all of them kept so far. */
  lemma {:induction false} QueueIsSuffix(sh: Shape, l: Line, ops: seq<Op>)
    ensures var q, all, kept := RunOps(sh, l, ops).queue, Frames(l, ops), Kept(sh, l, ops);
            |q| <= |all| && all[|all| - |q|..] == q && AllFrom(kept, |all| - |q|, true)
  {
    if |ops| > 0 {
      var some := ops[..|ops| - 1];
      QueueIsSuffix(sh, l, some);
      var before := RunOps(sh, l, some);
      match ops[|ops| - 1] {
        case Queue(frame) =>
          assert Kept(sh, l, ops) == Kept(sh, l, some) + [true];
        case Clear =>
        case Take(n) =>
          var d := PullDrops(sh, before, n);
          hide Pull;
          assert RunOps(sh, l, ops).queue == before.queue[d..];
      }
    }
  }

  /** Leaving frames out at the front, or later ones at the end, does not break a queue. */
  lemma UnbrokenPart(sh: Shape, queue: seq<seq<Sample>>, i: nat, j: nat)
    requires Unbroken(sh, queue) && i <= j <= |queue|
    ensures Unbroken(sh, queue[i..j])
  {
    var part := queue[i..j];
    assert |part| == j - i && forall a: nat | a < |part| :: part[a] == queue[i + a];
    hide Burst;
    forall a: nat, b: nat | a < b < |part| ensures |Burst(sh, part[b])| > 0 ==> |Burst(sh, part[a])| > 0 {
      assert part[a] == queue[i + a] && part[b] == queue[i + b];
    }
  }

  lemma {:induction false} FramesGrow(l: Line, ops: seq<Op>, k: nat)
    requires k <= |ops|
    ensures Frames(l, ops[..k]) <= Frames(l, ops)
    decreases |ops|
  {
    if k < |ops| {
      FramesGrow(l, ops[..|ops| - 1], k);
      assert ops[..|ops| - 1][..k] == ops[..k];
    } else {
      assert ops[..k] == ops;
    }
  }

  /** The queue stays unbroken at every point of a run whose frames, all together, are. */
  lemma AlwaysUnbroken(sh: Shape, l: Line, ops: seq<Op>, k: nat)
    requires Unbroken(sh, Frames(l, ops)) && k <= |ops|
    ensures Unbroken(sh, RunOps(sh, l, ops[..k]).queue)
  {
    hide Unbroken;
    var some, all, q := Frames(l, ops[..k]), Frames(l, ops), RunOps(sh, l, ops[..k]).queue;
    FramesGrow(l, ops, k);
    QueueIsSuffix(sh, l, ops[..k]);
    UnbrokenPart(sh, all, |some| - |q|, |some|);
    assert all[|some| - |q|..|some|] == q;
  }

  function LastBurst(sh: Shape, frames: seq<seq<Sample>>, kept: seq<bool>): seq<Sample>
    requires |frames| == |kept| > 0
  {
    if kept[|kept| - 1] then Burst(sh, frames[|frames| - 1]) else []
  }

  lemma BurstsEnd(sh: Shape, frames: seq<seq<Sample>>, kept: seq<bool>)
    requires |frames| == |kept|
    ensures if |frames| == 0 then Bursts(sh, frames, kept) == []
            else Bursts(sh, frames, kept) == Bursts(sh, frames[..|frames| - 1], kept[..|kept| - 1]) + LastBurst(sh, frames, kept)
  {
    hide Burst;
  }

  lemma SlicesMeet<T>(s: seq<T>, m: nat)
    requires m < |s|
    ensures s[..|s| - 1][..m] == s[..m] && s[..|s| - 1][m..] == s[m..][..|s| - 1 - m]
  {
  }

  lemma {:induction false} BurstsSplit(sh: Shape, frames: seq<seq<Sample>>, kept: seq<bool>, m: nat)
    requires |frames| == |kept| && m <= |frames|
    ensures Bursts(sh, frames, kept) == Bursts(sh, frames[..m], kept[..m]) + Bursts(sh, frames[m..], kept[m..])
  {
    hide Bursts;
    var n := |frames|;
    BurstsEnd(sh, frames, kept);
    BurstsEnd(sh, frames[m..], kept[m..]);
    if m < n {
      BurstsSplit(sh, frames[..n - 1], kept[..n - 1], m);
      SlicesMeet(frames, m);
      SlicesMeet(kept, m);
      assert LastBurst(sh, frames[m..], kept[m..]) == LastBurst(sh, frames, kept);
      hide *;
      var head, tail := Bursts(sh, frames[..m], kept[..m]), Bursts(sh, frames[m..][..n - 1 - m], kept[m..][..n - 1 - m]);
      Regroup(head, tail, LastBurst(sh, frames, kept));
    } else {
      assert frames[..m] == frames && kept[..m] == kept;
    }
  }

  lemma {:induction false} BurstsDropped(sh: Shape, frames: seq<seq<Sample>>, kept: seq<bool>)
    requires |frames| == |kept| && forall i: nat | i < |kept| :: !kept[i]
    ensures Bursts(sh, frames, kept) == []
  {
    if |frames| > 0 { BurstsDropped(sh, frames[..|frames| - 1], kept[..|kept| - 1]); }
  }

  /** Kept frames waiting are what is pending behind the burst on the air. */
  lemma {:induction false} BurstsPending(sh: Shape, queue: seq<seq<Sample>>, kept: seq<bool>)
    requires |queue| == |kept| && forall i: nat | i < |kept| :: kept[i]
    ensures Pending(sh, Line([], queue)) == Bursts(sh, queue, kept)
  {
    hide Burst;
    if |queue| > 0 {
      var n := |queue| - 1;
      BurstsPending(sh, queue[..n], kept[..n]);
      EnqueueAppends(sh, Line([], queue[..n]), queue[n]);
      assert queue[..n] + [queue[n]] == queue;
    }
  }

  /** What a run owes its frames: sent and pending together are the rest of the
      first burst and then the bursts of the frames kept. */
  ghost predicate Accounted(sh: Shape, l: Line, ops: seq<Op>) {
    Sent(sh, l, ops) + Pending(sh, RunOps(sh, l, ops)) == l.rest + Bursts(sh, Frames(l, ops), Kept(sh, l, ops))
  }

  lemma QueueAccounted(sh: Shape, l: Line, ops: seq<Op>, frame: seq<Sample>)
    requires Accounted(sh, l, ops)
    ensures Accounted(sh, l, ops + [Queue(frame)])
  {
    var more := ops + [Queue(frame)];
    assert more[..|more| - 1] == ops;
    var before, sent, all, kept := RunOps(sh, l, ops), Sent(sh, l, ops), Frames(l, ops), Kept(sh, l, ops);
    assert Frames(l, more) == all + [frame] && Kept(sh, l, more) == kept + [true];
    assert (all + [frame])[..|all|] == all && (kept + [true])[..|kept|] == kept;
    assert RunOps(sh, l, more) == Line(before.rest, before.queue + [frame]) && Sent(sh, l, more) == sent;
    EnqueueAppends(sh, before, frame);
    assert Bursts(sh, all + [frame], kept + [true]) == Bursts(sh, all, kept) + Burst(sh, frame);
    hide Bursts, Sent, Kept, Frames, RunOps, Pending, Burst;
    Regroup(sent, Pending(sh, before), Burst(sh, frame));
    Regroup(l.rest, Bursts(sh, all, kept), Burst(sh, frame));
  }

  lemma Regroup(a: seq<Sample>, b: seq<Sample>, c: seq<Sample>)
    ensures a + (b + c) == (a + b) + c
  {
  }

  lemma TakeAccounted(sh: Shape, l: Line, ops: seq<Op>, n: nat)
    requires Accounted(sh, l, ops) && Unbroken(sh, RunOps(sh, l, ops).queue)
    ensures Accounted(sh, l, ops + [Take(n)])
  {
    var more := ops + [Take(n)];
    assert more[..|more| - 1] == ops;
    var before, sent := RunOps(sh, l, ops), Sent(sh, l, ops);
    var p := Pending(sh, before);
    var k := Min(n, |p|);
    assert Frames(l, more) == Frames(l, ops) && Kept(sh, l, more) == Kept(sh, l, ops);
    assert RunOps(sh, l, more) == Pull(sh, before, n).line && Sent(sh, l, more) == sent + Pull(sh, before, n).out[..k];
    hide Pull, Pending, Front, Back, Unbroken, Bursts, Sent, Kept, Frames, RunOps;
    PullsTheStream(sh, before, n);
    SentIsFront(p, n);
    Regroup(sent, Front(p, n)[..k], Back(p, n));
  }

  lemma ClearAccounted(sh: Shape, l: Line, ops: seq<Op>)
    requires Accounted(sh, l, ops)
    ensures Accounted(sh, l, ops + [Clear])
  {
    var more := ops + [Clear];
    assert more[..|more| - 1] == ops;
    QueueIsSuffix(sh, l, ops);
    var before, sent, all, kept := RunOps(sh, l, ops), Sent(sh, l, ops), Frames(l, ops), Kept(sh, l, ops);
    var m := |all| - |before.queue|;
    var now := kept[..m] + All(false, |before.queue|);
    assert Frames(l, more) == all && Kept(sh, l, more) == now;
    assert RunOps(sh, l, more) == Line(before.rest, []) && Sent(sh, l, more) == sent;
    assert now[..m] == kept[..m] && AllFrom(now, m, false);
    hide Sent, Kept, Frames, RunOps, All, Burst;
    ClearedBursts(sh, before, all, kept, now, m);
    var head, tail := Bursts(sh, all[..m], kept[..m]), Bursts(sh, all[m..], kept[m..]);
    hide Bursts, Pending;
    Regroup(sent, before.rest, tail);
    Regroup(l.rest, head, tail);
    SameTail(sent + before.rest, l.rest + head, tail);
  }

  /** Clearing takes the same bursts from what is pending and from what is kept. */
  lemma ClearedBursts(sh: Shape, before: Line, all: seq<seq<Sample>>, kept: seq<bool>, now: seq<bool>, m: nat)
    requires |all| == |kept| == |now| && m <= |all| && all[m..] == before.queue && now[..m] == kept[..m]
    requires AllFrom(kept, m, true) && AllFrom(now, m, false)
    ensures Pending(sh, before) == before.rest + Bursts(sh, all[m..], kept[m..]) && Pending(sh, Line(before.rest, [])) == before.rest
    ensures Bursts(sh, all, kept) == Bursts(sh, all[..m], kept[..m]) + Bursts(sh, all[m..], kept[m..])
    ensures Bursts(sh, all, now) == Bursts(sh, all[..m], kept[..m])
  {
    BurstsSplit(sh, all, kept, m);
    BurstsSplit(sh, all, now, m);
    BurstsDropped(sh, all[m..], now[m..]);
    BurstsPending(sh, all[m..], kept[m..]);
    PendingRest(sh, before);
    hide Bursts;
  }

  lemma SameTail(a: seq<Sample>, b: seq<Sample>, c: seq<Sample>)
    requires a + c == b + c
    ensures a == b
  {
    assert |a| == |b|;
    assert a == (a + c)[..|a|] && b == (b + c)[..|b|];
  }

  /** Over any run of queueing, pulling and clearing whose frames, all together,
      are unbroken: sent and pending are the rest of the burst that was on the air
      and the bursts of the frames kept, whole, first in first out; every frame is
      kept or was dropped while waiting, so a burst once begun is finished; and a
      pull goes silent only behind the last pending sample. */
  lemma {:induction false} NothingLostOrRepeated(sh: Shape, l: Line, ops: seq<Op>)
    requires Unbroken(sh, Frames(l, ops))
    ensures Sent(sh, l, ops) + Pending(sh, RunOps(sh, l, ops)) == l.rest + Bursts(sh, Frames(l, ops), Kept(sh, l, ops))
    ensures forall k: nat | k < |ops| && ops[k].Take? ::
              Pull(sh, RunOps(sh, l, ops[..k]), ops[k].n).out == Front(Pending(sh, RunOps(sh, l, ops[..k])), ops[k].n)
  {
    hide Unbroken, Pull, Pending, Front;
    RunAccounted(sh, l, ops);
    forall k: nat | k < |ops| && ops[k].Take?
      ensures Pull(sh, RunOps(sh, l, ops[..k]), ops[k].n).out == Front(Pending(sh, RunOps(sh, l, ops[..k])), ops[k].n)
    {
      AlwaysUnbroken(sh, l, ops, k);
      PullsTheStream(sh, RunOps(sh, l, ops[..k]), ops[k].n);
    }
  }

  lemma {:induction false} RunAccounted(sh: Shape, l: Line, ops: seq<Op>)
    requires Unbroken(sh, Frames(l, ops))
    ensures Accounted(sh, l, ops)
  {
    if |ops| == 0 {
      PendingRest(sh, l);
      BurstsPending(sh, l.queue, All(true, |l.queue|));
    } else {
      var some := ops[..|ops| - 1];
      FramesGrow(l, ops, |ops| - 1);
      UnbrokenPart(sh, Frames(l, ops), 0, |Frames(l, some)|);
      assert Frames(l, ops)[0..|Frames(l, some)|] == Frames(l, some);
      AlwaysUnbroken(sh, l, ops, |ops| - 1);
      assert ops == some + [ops[|ops| - 1]];
      hide *;
      RunAccounted(sh, l, some);
      match ops[|ops| - 1] {
        case Queue(frame) => QueueAccounted(sh, l, some, frame);
        case Take(n) => TakeAccounted(sh, l, some, n);
        case Clear => ClearAccounted(sh, l, some);
      }
    }
  }

  /** Nonempty bursts are unbroken in any order. */
  lemma {:induction false} NonemptyIsUnbroken(sh: Shape, l: Line, ops: seq<Op>)
    requires forall i: nat | i < |l.queue| :: |Burst(sh, l.queue[i])| > 0
    requires forall k: nat | k < |ops| && ops[k].Queue? :: |Burst(sh, ops[k].frame)| > 0
    ensures forall i: nat | i < |Frames(l, ops)| :: |Burst(sh, Frames(l, ops)[i])| > 0
    ensures Unbroken(sh, Frames(l, ops))
  {
    hide Burst;
    if |ops| > 0 { NonemptyIsUnbroken(sh, l, ops[..|ops| - 1]); }
  }

  lemma SentIsFront(s: seq<Sample>, n: nat)
    ensures Front(s, n)[..Min(n, |s|)] + Back(s, n) == s
  {
  }

  /** An empty burst in front splits the stream: the first pull goes silent with a sample still waiting. */
  lemma EmptyBurstSplits(x: Sample)
    requires x != ZERO
    ensures var sh, l := Shape([], []), Line([], [[], [x]]);
            Pull(sh, l, 1).out + Pull(sh, Pull(sh, l, 1).line, 1).out == [ZERO, x] && Pull(sh, l, 2).out == [ZERO, ZERO]
  {
    var sh, l := Shape([], []), Line([], [[], [x]]);
    assert Burst(sh, []) == [] && Burst(sh, [x]) == [x];
    assert l.queue[1..] == [[x]] && [[x]][1..] == [];
    var l1, l2 := Line([], [[x]]), Line([x], []);
    assert Pull(sh, l, 1) == Pulled(Zeros(1), l1) && Pull(sh, l, 2) == Pulled(Zeros(2), l1);
    assert Pull(sh, l1, 1) == Pull(sh, l2, 1);
    assert Pull(sh, l2, 1).out == [x] + Pull(sh, Line([], []), 0).out;
  }

  lemma PullNext(sh: Shape, l: Line, n: nat)
    requires n > 0 && |l.rest| == 0 && |l.queue| > 0
    ensures var burst := Burst(sh, l.queue[0]);
            Pull(sh, l, n) == if |burst| == 0 then Pulled(Zeros(n), Line([], l.queue[1..])) else Pull(sh, Line(burst, l.queue[1..]), n)
  {
  }

  lemma PullSilence(sh: Shape, l: Line, n: nat)
    requires |l.rest| == 0 && |l.queue| == 0
    ensures Pull(sh, l, n) == Pulled(Zeros(n), l)
  {
    if n == 0 { assert Zeros(0) == []; }
  }

  lemma PullNothing(sh: Shape, l: Line)
    ensures Pull(sh, l, 0) == Pulled([], l)
  {
  }

  /** What a pull has left to do: samples pending, and bursts to start. */
  ghost function Backlog(sh: Shape, l: Line): nat {
    |Pending(sh, l)| + |l.queue|
  }

  lemma {:induction false} PullWorksOff(sh: Shape, l: Line, n: nat)
    ensures Backlog(sh, Pull(sh, l, n).line) <= Backlog(sh, l)
    ensures n > 0 && |l.rest| + |l.queue| > 0 ==> Backlog(sh, Pull(sh, l, n).line) < Backlog(sh, l)
    decreases |l.queue|, n
  {
    hide Burst;
    if n == 0 {
      PullNothing(sh, l);
    } else if |l.rest| > 0 {
      var take := Min(n, |l.rest|);
      var left := Line(l.rest[take..], l.queue);
      PullRest(sh, l, n, take);
      PendingRest(sh, l);
      PendingRest(sh, left);
      PullWorksOff(sh, left, n - take);
    } else if |l.queue| == 0 {
      PullSilence(sh, l, n);
    } else {
      PullNext(sh, l, n);
      var burst := Burst(sh, l.queue[0]);
      var next := Line(burst, l.queue[1..]);
      assert Pending(sh, l) == Pending(sh, next);
      if |burst| > 0 {
        PullWorksOff(sh, next, n);
      }
    }
  }

  /** What is left of a pull: `done` has been written, m samples are to come from l. */
  ghost predicate Continues(sh: Shape, goal: Pulled, done: seq<Sample>, l: Line, m: nat) {
    var r := Pull(sh, l, m);
    goal == Pulled(done + r.out, r.line)
  }

  lemma ContinueStart(sh: Shape, l: Line, n: nat)
    ensures Continues(sh, Pull(sh, l, n), [], l, n)
  {
    hide Pull;
    assert [] + Pull(sh, l, n).out == Pull(sh, l, n).out;
  }

  lemma ContinueEnd(sh: Shape, goal: Pulled, done: seq<Sample>, l: Line)
    requires Continues(sh, goal, done, l, 0)
    ensures goal == Pulled(done, l)
  {
    hide Pull;
    PullNothing(sh, l);
    assert done + [] == done;
  }

  lemma ContinueRest(sh: Shape, goal: Pulled, done: seq<Sample>, l: Line, m: nat, take: nat)
    requires Continues(sh, goal, done, l, m) && m > 0 && |l.rest| > 0 && take == Min(m, |l.rest|)
    ensures Continues(sh, goal, done + l.rest[..take], Line(l.rest[take..], l.queue), m - take)
  {
    hide Pull;
    PullRest(sh, l, m, take);
    var more := Pull(sh, Line(l.rest[take..], l.queue), m - take).out;
    assert done + (l.rest[..take] + more) == (done + l.rest[..take]) + more;
  }

  lemma ContinueNext(sh: Shape, goal: Pulled, done: seq<Sample>, l: Line, m: nat)
    requires Continues(sh, goal, done, l, m) && m > 0 && |l.rest| == 0
    ensures |l.queue| > 0 && |Burst(sh, l.queue[0])| > 0 ==> Continues(sh, goal, done, Line(Burst(sh, l.queue[0]), l.queue[1..]), m)
    ensures |l.queue| > 0 && |Burst(sh, l.queue[0])| == 0 ==> Continues(sh, goal, done + Zeros(m), Line([], l.queue[1..]), 0)
    ensures |l.queue| == 0 ==> Continues(sh, goal, done + Zeros(m), Line([], []), 0)
  {
    hide Pull;
    if |l.queue| == 0 {
      PullSilence(sh, l, m);
      PullNothing(sh, l);
      assert done + Zeros(m) + [] == done + Zeros(m);
    } else {
      PullNext(sh, l, m);
      PullNothing(sh, Line([], l.queue[1..]));
      assert done + Zeros(m) + [] == done + Zeros(m);
    }
  }

  class Transmitter {
    const params: Params
    /** The modulator: chips to samples, whatever it makes of them. */
    const modulate: seq<nat> -> seq<Sample>
    const symbol: nat
    const amplitude: real
    var warmupSyms: nat
    var gapSyms: nat
    var queue: seq<seq<Sample>>
    var burst: seq<Sample>
    var burstPos: nat
    var framesStarted: nat
    var samplesEmitted: nat

    constructor (params: Params, modulate: seq<nat> -> seq<Sample>, symbol: nat, amplitude: real)
      ensures this.params == params && this.modulate == modulate && this.symbol == symbol
      ensures Valid() && OnLine() == Line([], []) && warmupSyms == 0 && gapSyms == 12
    {
      this.params, this.modulate, this.symbol, this.amplitude := params, modulate, symbol, amplitude;
      warmupSyms, gapSyms, queue, burst, burstPos, framesStarted, samplesEmitted := 0, 12, [], [], 0, 0, 0;
    }

    ghost predicate Valid()
      reads this
    {
      burstPos <= |burst|
    }

    ghost function OnLine(): Line
      requires Valid()
      reads this
    {
      Line(burst[burstPos..], queue)
    }

    function Form(): Shape
      reads `warmupSyms, `gapSyms
    {
      Shape(seq(warmupSyms * symbol, i => Sample(amplitude, 0.0)), Zeros(gapSyms * symbol))
    }

    /** Encode, modulate, queue; too long a payload is refused. */
    method Enqueue(payload: seq<Byte>) returns (ok: bool)
      requires Valid() && ValidParams(params)
      modifies `queue
      ensures Valid() && ok == (|payload| <= 255)
      ensures OnLine() == if ok then Line(old(OnLine()).rest, old(queue) + [modulate(FrameChips(params, payload))]) else old(OnLine())
    {
      if |payload| > 255 {
        return false;
      }
      var chips := EncodeFrame(params, payload);
      queue := queue + [modulate(chips)];
      return true;
    }

    method EnqueueFrame(frame: seq<Sample>)
      requires Valid()
      modifies `queue
      ensures Valid() && OnLine() == Line(old(OnLine()).rest, old(queue) + [frame])
    {
      queue := queue + [frame];
    }

    /** Frames waiting are dropped; the burst on the air is not touched. */
    method ClearQueue()
      requires Valid()
      modifies `queue
      ensures Valid() && OnLine() == Line(old(OnLine()).rest, [])
    {
      queue := [];
    }

    method IsIdle() returns (idle: bool)
      requires Valid()
      ensures idle == (OnLine() == Line([], []))
    {
      idle := |queue| == 0 && burstPos >= |burst|;
    }

    /** The next waiting frame, with carrier and gap, becomes the burst. */
    method StartNextBurst()
      requires Valid()
      modifies `queue, `burst, `burstPos, `framesStarted
      ensures Valid()
      ensures OnLine() == if |old(queue)| == 0 || |old(OnLine()).rest| > 0 then old(OnLine())
                          else Line(Burst(Form(), old(queue)[0]), old(queue)[1..])
      ensures |old(queue)| > 0 && old(OnLine()).rest == [] ==>
                Keyed(amplitude, warmupSyms * symbol, gapSyms * symbol, old(queue)[0], OnLine().rest)
                && framesStarted == old(framesStarted) + 1
    {
      if |queue| == 0 || burstPos < |burst| {
        return;
      }
      var frame := queue[0];
      queue := queue[1..];
      burst := Form().warmup + frame + Form().gap;
      burstPos := 0;
      framesStarted := framesStarted + 1;
    }

    /** Copy what fits of the burst's rest. */
    method FillFromBurst(out: array<Sample>, n: nat, written: nat) returns (now: nat)
      requires Valid() && written < n <= out.Length && |OnLine().rest| > 0
      modifies `burst, `burstPos, out
      ensures Valid() && queue == old(queue) && now == written + Min(n - written, |old(OnLine()).rest|)
      ensures OnLine().rest == old(OnLine()).rest[now - written..]
      ensures out[..now] == old(out[..written]) + old(OnLine()).rest[..now - written]
    {
      var take := Min(n - written, |burst| - burstPos);
      ghost var rest := burst[burstPos..];
      for k := 0 to take
        invariant burst == old(burst) && burstPos == old(burstPos)
        invariant out[..written + k] == old(out[..written]) + rest[..k]
      {
        out[written + k] := burst[burstPos + k];
        assert rest[..k + 1] == rest[..k] + [rest[k]];
      }
      burstPos := burstPos + take;
      now := written + take;
      if burstPos >= |burst| {
        burst, burstPos := [], 0;
      }
    }

    /** Fill out[..n] with the next samples. */
    method PullInto(out: array<Sample>, n: nat)
      requires Valid() && n <= out.Length
      modifies `queue, `burst, `burstPos, `framesStarted, `samplesEmitted, out
      ensures Valid()
      ensures var r := Pull(Form(), old(OnLine()), n); out[..n] == r.out && OnLine() == r.line
      ensures samplesEmitted == old(samplesEmitted) + n
    {
      var written: nat := 0;
      ghost var sh := Form();
      ghost var goal := Pull(sh, OnLine(), n);
      ContinueStart(sh, OnLine(), n);
      hide Pull, Burst, Continues, Zeros, Form;
      while written < n
        invariant Valid() && written <= n && samplesEmitted == old(samplesEmitted)
        invariant Continues(sh, goal, out[..written], OnLine(), n - written)
        decreases |queue|, n - written
      {
        written := Write(out, n, written, goal);
      }
      ContinueEnd(sh, goal, out[..n], OnLine());
      samplesEmitted := samplesEmitted + n;
    }

    /** One turn of the loop: start a burst if none is on, then copy from it or fill with silence. */
    method Write(out: array<Sample>, n: nat, written: nat, ghost goal: Pulled) returns (now: nat)
      requires Valid() && written < n <= out.Length && Continues(Form(), goal, out[..written], OnLine(), n - written)
      modifies `queue, `burst, `burstPos, `framesStarted, out
      ensures Valid() && written <= now <= n && Continues(Form(), goal, out[..now], OnLine(), n - now)
      ensures |queue| < |old(queue)| || (queue == old(queue) && now > written)
    {
      hide Pull, Burst, Continues, Zeros, Form;
      if burstPos >= |burst| {
        ContinueNext(Form(), goal, out[..written], OnLine(), n - written);
        StartNextBurst();
      }
      if burstPos < |burst| {
        ghost var l := OnLine();
        ContinueRest(Form(), goal, out[..written], l, n - written, Min(n - written, |l.rest|));
        now := FillFromBurst(out, n, written);
      } else {
        FillSilence(out, n, written);
        now := n;
      }
    }

    method FillSilence(out: array<Sample>, n: nat, written: nat)
      requires written <= n <= out.Length
      modifies out
      ensures out[..n] == old(out[..written]) + Zeros(n - written)
    {
      for i := written to n
        invariant out[..i] == old(out[..written]) + Zeros(i - written)
      {
        out[i] := ZERO;
      }
    }
  }
}
