/** The fractional-N synthesizer words over exact reals, and the follower that
    keeps both oscillators on the channel while others move them. */
module Synth {
  import opened Wrappers
  import Modulo

  const REF: real := 80.0
  const FRAC_ONE: nat := 1048576
  const IDIV_ONE: nat := 128

  datatype Words = Words(w15: nat, w16: nat, w17: nat)

  /** Register address over ten data bits. */
  function Word(reg: nat, data: nat): (w: nat)
    ensures w < 65536 && w % 1024 == data % 1024
  {
    reg % 64 * 1024 + data % 1024
  }

  /** Nearest integer, halves up; used on values that are not negative. */
  function Round(x: real): int {
    (x + 0.5).Floor
  }

  /** Integer and fractional divider, with the carry of a fraction that rounds to one. */
  function Dividers(lo: real): (d: (int, nat))
    ensures d.1 < FRAC_ONE
  {
    var ratio := lo / REF;
    var idiv := ratio.Floor;
    var fdiv := Round((ratio - idiv as real) * FRAC_ONE as real);
    FractionRange(ratio - idiv as real);
    if fdiv == FRAC_ONE then (idiv + 1, 0) else (idiv, fdiv)
  }

  lemma FractionRange(x: real)
    requires 0.0 <= x < 1.0
    ensures 0 <= Round(x * FRAC_ONE as real) <= FRAC_ONE
  {
  }

  /** Main15 holds the fractional-mode bit and seven bits of the integer divider. */
  function SynthWords(lo: real): Words {
    var d := Dividers(lo);
    Words(Word(15, 512 + d.0 % IDIV_ONE), Word(16, d.1 / 1024), Word(17, d.1))
  }

  function SynthLo(r15: nat, r16: nat, r17: nat): real {
    var fdiv := r16 % 1024 * 1024 + r17 % 1024;
    REF * ((r15 % IDIV_ONE) as real + fdiv as real / FRAC_ONE as real)
  }

  /** What the synthesizer makes of a requested frequency. */
  function Quantized(lo: real): real {
    var w := SynthWords(lo);
    SynthLo(w.w15, w.w16, w.w17)
  }

  /** The frequency in steps of 80 MHz / 2^20. */
  function Steps(lo: real): int {
    Round(lo / REF * FRAC_ONE as real)
  }

  lemma DividersAreSteps(lo: real)
    ensures Dividers(lo).0 * FRAC_ONE + Dividers(lo).1 == Steps(lo)
  {
    var ratio := lo / REF;
    var idiv := ratio.Floor;
    ShiftedRound((ratio - idiv as real) * FRAC_ONE as real, idiv * FRAC_ONE);
    assert (ratio - idiv as real) * FRAC_ONE as real + (idiv * FRAC_ONE) as real == ratio * FRAC_ONE as real;
  }

  lemma ShiftedRound(x: real, k: int)
    ensures Round(x + k as real) == Round(x) + k
  {
  }

  lemma WordsHold(i: int, f: nat)
    requires f < FRAC_ONE
    ensures Word(15, 512 + i % IDIV_ONE) % IDIV_ONE == i % IDIV_ONE
    ensures Word(16, f / 1024) % 1024 * 1024 + Word(17, f) % 1024 == f
  {
    var d := i % IDIV_ONE;
    assert Word(15, 512 + d) == 15 * 1024 + 512 + d;
    assert (15 * 1024 + 512 + d) % 128 == d;
  }

  /** The synthesizer makes the step count modulo its divider range. */
  lemma QuantizedSteps(lo: real)
    ensures Quantized(lo) == REF * ((Steps(lo) % (IDIV_ONE * FRAC_ONE)) as real / FRAC_ONE as real)
  {
    var d := Dividers(lo);
    DividersAreSteps(lo);
    WordsHold(d.0, d.1);
    WrappedSteps(d.0, d.1);
    hide Dividers, Word, Steps;
    var i := d.0 % IDIV_ONE;
    assert (i * FRAC_ONE + d.1) as real / FRAC_ONE as real == i as real + d.1 as real / FRAC_ONE as real;
  }

  lemma WrappedSteps(i: int, f: nat)
    requires f < FRAC_ONE
    ensures (i * FRAC_ONE + f) % (IDIV_ONE * FRAC_ONE) == i % IDIV_ONE * FRAC_ONE + f
  {
    var q, r := i / IDIV_ONE, i % IDIV_ONE;
    assert i == q * IDIV_ONE + r;
  }

  lemma RoundOff(x: real)
    ensures -0.5 <= Round(x) as real - x <= 0.5
  {
  }

  /** Distances in megahertz are distances in steps. */
  lemma StepDistance(lo: real, x: real, q: real, m: int)
    requires x == lo / REF * FRAC_ONE as real && q == REF * (m as real / FRAC_ONE as real)
    ensures -REF / 2097152.0 <= q - lo <= REF / 2097152.0 <==> -0.5 <= m as real - x <= 0.5
  {
  }

  lemma WrapFar(n: int, all: int)
    requires 0 < all <= n
    ensures n % all <= n - all
  {
    assert n / all >= 1;
    assert n == n / all * all + n % all;
  }

  /** From zero up, the result is within half a step of the request exactly while
      the rounded step count fits the dividers, the carry included. */
  lemma WithinHalfStep(lo: real)
    requires lo >= 0.0
    ensures -REF / 2097152.0 <= Quantized(lo) - lo <= REF / 2097152.0 <==> Steps(lo) < IDIV_ONE * FRAC_ONE
  {
    var x := lo / REF * FRAC_ONE as real;
    var n, all := Steps(lo), IDIV_ONE * FRAC_ONE;
    RoundOff(x);
    assert n >= 0;
    QuantizedSteps(lo);
    hide Quantized, Round, Steps;
    StepDistance(lo, x, Quantized(lo), n % all);
    hide *;
    if n < all {
      Modulo.ModSmall(n, all);
    } else {
      WrapFar(n, all);
    }
  }

  /** The whole band up to 10 GHz fits. */
  lemma BandFits(lo: real)
    requires 0.0 <= lo <= 10000.0
    ensures Steps(lo) < IDIV_ONE * FRAC_ONE && -REF / 2097152.0 <= Quantized(lo) - lo <= REF / 2097152.0
  {
    hide Quantized;
    WithinHalfStep(lo);
  }

  lemma StepsBack(m: int, q: real)
    requires q == REF * (m as real / FRAC_ONE as real)
    ensures Steps(q) == m
  {
    var x: real := m as real / FRAC_ONE as real;
    assert q / REF == x;
    assert x * FRAC_ONE as real == m as real;
    assert Round(m as real) == m;
  }

  // The follower.

  datatype Retune = Retune(txMoved: bool, rxMoved: bool, channel: real)

  function Apart(a: real, b: real): real {
    if a < b then b - a else a - b
  }

  /** A synthesizer: the frequency it makes of the one asked for. */
  type Rounding = real -> real

  class LoFollower {
    var channel: real
    const ifOffset: real
    const tolerance: real
    var txExpect: real
    var rxExpect: real

    constructor (channel: real, ifOffset: real, tolerance: real)
      ensures this.channel == channel && this.ifOffset == ifOffset && this.tolerance == tolerance
      ensures txExpect == channel && rxExpect == channel - ifOffset
    {
      this.channel, this.ifOffset, this.tolerance := channel, ifOffset, tolerance;
      txExpect, rxExpect := channel, channel - ifOffset;
    }

    /** A reading beyond the tolerance is somebody else's move; the transmit side wins when both moved. */
    method Observe(txLo: real, rxLo: real) returns (r: Option<Retune>)
      modifies `channel
      ensures r == Observed(old(Now()), txLo, rxLo)
      ensures channel == if r.Some? then r.value.channel else old(channel)
    {
      var txMoved := Apart(txLo, txExpect) > tolerance;
      var rxMoved := Apart(rxLo, rxExpect) > tolerance;
      if !txMoved && !rxMoved {
        return None;
      }
      channel := if txMoved then txLo else rxLo;
      return Some(Retune(txMoved, rxMoved, channel));
    }

    method Programmed(txLo: real, rxLo: real)
      modifies `txExpect, `rxExpect
      ensures txExpect == txLo && rxExpect == rxLo
    {
      txExpect, rxExpect := txLo, rxLo;
    }

    ghost function Now(): Follower
      reads this
    {
      Follower(channel, ifOffset, tolerance, txExpect, rxExpect)
    }

    /** One poll with the amplifier off: prime, or look for a move and put both
        oscillators where they belong. The result is the same whether or not
        writes to the receiver are mirrored to the transmitter. */
    method Poll(primed: bool, tx: Chip, rx: Chip, mirror: bool)
      requires tx != rx
      modifies this, tx, rx
      ensures Radio(Now(), tx.lo, rx.lo, true) == Polled(Quantized, Radio(old(Now()), old(tx.lo), old(rx.lo), primed))
    {
      if !primed {
        Programmed(tx.lo, rx.lo);
        return;
      }
      var r := Observe(tx.lo, rx.lo);
      if r.None? {
        return;
      }
      var rxTarget := channel - ifOffset;
      rx.lo := Quantized(rxTarget);
      if mirror {
        tx.lo := Quantized(rxTarget);
      }
      tx.lo := Quantized(channel);
      Programmed(tx.lo, rx.lo);
    }
  }

  /** A synthesizer chip: all that matters here is where its oscillator sits. */
  class Chip {
    var lo: real

    constructor (lo: real)
      ensures this.lo == lo
    {
      this.lo := lo;
    }
  }

  datatype Follower = Follower(channel: real, ifOffset: real, tolerance: real, txExpect: real, rxExpect: real)

  datatype Radio = Radio(f: Follower, txLo: real, rxLo: real, primed: bool)

  function Observed(f: Follower, txLo: real, rxLo: real): Option<Retune> {
    var txMoved, rxMoved := Apart(txLo, f.txExpect) > f.tolerance, Apart(rxLo, f.rxExpect) > f.tolerance;
    if !txMoved && !rxMoved then None else Some(Retune(txMoved, rxMoved, if txMoved then txLo else rxLo))
  }

  function Polled(q: Rounding, r: Radio): Radio {
    if !r.primed then r.(f := r.f.(txExpect := r.txLo, rxExpect := r.rxLo), primed := true)
    else
      match Observed(r.f, r.txLo, r.rxLo)
      case None => r
      case Some(retune) =>
        var tx, rx := q(retune.channel), q(retune.channel - r.f.ifOffset);
        Radio(r.f.(channel := retune.channel, txExpect := tx, rxExpect := rx), tx, rx, true)
  }

  /** What happens to the radio: somebody writes a synthesizer, or the follower polls. */
  datatype Action = MoveTx(lo: real) | MoveRx(lo: real) | Poll

  function After(q: Rounding, r: Radio, a: Action): Radio {
    match a
    case MoveTx(lo) => r.(txLo := q(lo))
    case MoveRx(lo) => r.(rxLo := q(lo))
    case Poll => Polled(q, r)
  }

  function RunOf(q: Rounding, r: Radio, acts: seq<Action>): Radio {
    if |acts| == 0 then r else After(q, RunOf(q, r, acts[..|acts| - 1]), acts[|acts| - 1])
  }

  predicate WouldRetune(r: Radio) {
    r.primed && Observed(r.f, r.txLo, r.rxLo).Some?
  }

  /** Asking for what the synthesizer makes changes nothing. */
  ghost predicate Settled(q: Rounding) {
    forall lo: real :: q(q(lo)) == q(lo)
  }

  lemma SynthIsSettled()
    ensures Settled(Quantized)
  {
    hide Quantized, Steps;
    forall lo: real ensures Quantized(Quantized(lo)) == Quantized(lo) {
      QuantizedSteps(lo);
      var m := Steps(lo) % (IDIV_ONE * FRAC_ONE);
      StepsBack(m, Quantized(lo));
      QuantizedSteps(Quantized(lo));
    }
  }

  /** Once both oscillators sit where the synthesizers can put them, they do so after any run. */
  lemma {:induction false} RunStaysRounded(q: Rounding, r: Radio, acts: seq<Action>)
    requires Settled(q) && q(r.txLo) == r.txLo && q(r.rxLo) == r.rxLo
    ensures var n := RunOf(q, r, acts); q(n.txLo) == n.txLo && q(n.rxLo) == n.rxLo
  {
    if |acts| > 0 { RunStaysRounded(q, r, acts[..|acts| - 1]); }
  }

  /** Over any run of outside moves and polls, starting with oscillators where the
      synthesizers can put them: after every poll that handled a move the transmitter
      sits exactly on the channel, the oscillator that decided it was not moved off
      it, and the receiver is as close to channel minus IF as its synthesizer gets. */
  lemma HandledMoveIsPlaced(q: Rounding, r: Radio, acts: seq<Action>, k: nat)
    requires Settled(q) && q(r.txLo) == r.txLo && q(r.rxLo) == r.rxLo
    requires k < |acts| && acts[k].Poll? && WouldRetune(RunOf(q, r, acts[..k]))
    ensures var was, now := RunOf(q, r, acts[..k]), RunOf(q, r, acts[..k + 1]);
            && now.txLo == now.f.channel && now.rxLo == q(now.f.channel - r.f.ifOffset)
            && now.f.channel == (if Apart(was.txLo, was.f.txExpect) > r.f.tolerance then was.txLo else was.rxLo)
            && (r.f.tolerance >= 0.0 ==> !WouldRetune(now))
  {
    var was := RunOf(q, r, acts[..k]);
    assert acts[..k + 1][..k] == acts[..k];
    RunStaysRounded(q, r, acts[..k]);
    ToleranceKept(q, r, acts[..k]);
    hide Settled;
    assert RunOf(q, r, acts[..k + 1]) == Polled(q, was);
  }

  /** With the program's synthesizers the receiver ends up within half a step of
      channel minus IF, as long as that is in the band. */
  lemma HandledMoveIsClose(r: Radio, acts: seq<Action>, k: nat)
    requires Quantized(r.txLo) == r.txLo && Quantized(r.rxLo) == r.rxLo
    requires k < |acts| && acts[k].Poll? && WouldRetune(RunOf(Quantized, r, acts[..k]))
    ensures var now := RunOf(Quantized, r, acts[..k + 1]);
            var target := now.f.channel - r.f.ifOffset;
            now.txLo == now.f.channel && (0.0 <= target <= 10000.0 ==> Apart(now.rxLo, target) <= REF / 2097152.0)
  {
    SynthIsSettled();
    hide Quantized, Settled;
    HandledMoveIsPlaced(Quantized, r, acts, k);
    hide RunOf, WouldRetune, Steps;
    var target := RunOf(Quantized, r, acts[..k + 1]).f.channel - r.f.ifOffset;
    if 0.0 <= target <= 10000.0 { BandFits(target); }
  }

  /** After any poll another poll changes nothing until somebody moves an oscillator. */
  lemma PollSettles(q: Rounding, r: Radio)
    requires r.f.tolerance >= 0.0
    ensures !WouldRetune(Polled(q, r)) && Polled(q, Polled(q, r)) == Polled(q, r)
  {
  }

  ghost predicate OnlyPolls(acts: seq<Action>, from: nat) {
    forall k: nat | from <= k < |acts| :: acts[k].Poll?
  }

  /** Over any run: once the outside has stopped moving oscillators, the first
      poll settles the radio and no later poll retunes it. */
  lemma {:induction false} RunSettles(q: Rounding, r: Radio, acts: seq<Action>, from: nat)
    requires r.f.tolerance >= 0.0 && from < |acts| && OnlyPolls(acts, from)
    ensures RunOf(q, r, acts) == RunOf(q, r, acts[..from + 1]) && !WouldRetune(RunOf(q, r, acts))
    decreases |acts|
  {
    hide Polled, WouldRetune;
    var n := |acts| - 1;
    var before := RunOf(q, r, acts[..n]);
    ToleranceKept(q, r, acts[..n]);
    assert acts[n].Poll?;
    PollSettles(q, before);
    if from == n {
      assert acts[..from + 1] == acts;
    } else {
      assert forall k: nat | from <= k < n :: acts[..n][k] == acts[k];
      RunSettles(q, r, acts[..n], from);
      assert acts[..n][..from + 1] == acts[..from + 1];
      StillSettled(q, before, acts[..n], r);
    }
  }

  lemma {:induction false} ToleranceKept(q: Rounding, r: Radio, acts: seq<Action>)
    ensures RunOf(q, r, acts).f.tolerance == r.f.tolerance && RunOf(q, r, acts).f.ifOffset == r.f.ifOffset
  {
    if |acts| > 0 { ToleranceKept(q, r, acts[..|acts| - 1]); }
  }

  /** After a poll the radio is primed and settled, so one more poll leaves it alone. */
  lemma StillSettled(q: Rounding, before: Radio, acts: seq<Action>, r: Radio)
    requires r.f.tolerance >= 0.0 && |acts| > 0 && acts[|acts| - 1].Poll? && before == RunOf(q, r, acts)
    ensures Polled(q, before) == before
  {
    hide Polled;
    ToleranceKept(q, r, acts[..|acts| - 1]);
    PollSettles(q, RunOf(q, r, acts[..|acts| - 1]));
  }

  /** Both oscillators sit within the tolerance of where they are expected. */
  predicate Near(r: Radio) {
    Apart(r.txLo, r.f.txExpect) <= r.f.tolerance && Apart(r.rxLo, r.f.rxExpect) <= r.f.tolerance
  }

  /** A move to within the tolerance of where the oscillator is expected. */
  predicate Small(q: Rounding, f: Follower, a: Action) {
    match a
    case MoveTx(lo) => Apart(q(lo), f.txExpect) <= f.tolerance
    case MoveRx(lo) => Apart(q(lo), f.rxExpect) <= f.tolerance
    case Poll => true
  }

  /** However often, moves within the tolerance of the first expectation are never
      answered: they do not add up, and the channel stays what it was. */
  lemma {:induction false} SmallMovesAreLeft(q: Rounding, r: Radio, acts: seq<Action>)
    requires r.primed && Near(r) && forall k: nat | k < |acts| :: Small(q, r.f, acts[k])
    ensures var n := RunOf(q, r, acts); n.primed && n.f == r.f && Near(n) && !WouldRetune(n)
  {
    if |acts| > 0 {
      SmallMovesAreLeft(q, r, acts[..|acts| - 1]);
      assert Small(q, r.f, acts[|acts| - 1]);
    }
  }
}
