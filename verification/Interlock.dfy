/** The transmit thread's amplifier interlock over all interleavings with other threads. */
module Interlock {
  import opened Wrappers
  import opened Fir
  import opened Transmitter

  datatype Config = Config(ota: bool, chunkLen: nat, rxGain: int)

  /** Where the transmit thread stands between its atomic sections. */
  datatype Place = AtPull | AtUnmute | AtWrite | AtCheck | Finished

  datatype Event =
    | Wrote(samples: seq<Sample>, unmuted: bool)
    | Unmuted(gainBefore: int, readBack: bool)
    | Muted(chunk: seq<Sample>, sent: nat, running: bool, gainAfter: int)

  datatype Radio = Radio(
    shape: Shape, line: Line,
    place: Place, chunk: seq<Sample>, sent: nat, wantUnmute: bool, wantMute: bool, idleTiming: bool,
    unmuted: bool, pa: bool, rxGain: int, restore: int,
    running: bool, log: seq<Event>)

  /** The atomic sections of the transmit thread, and what other threads do in between. */
  datatype Action =
    | PullChunk
    | UnmuteIfWanted(readBack: bool)
    | Write(n: nat)
    | WriteTimesOut
    | WriteFails
    | WriteEnds
    | CheckMute(drained: bool)
    | Leave
    | Enqueue(frame: seq<Sample>)
    | NewModem(shape: Shape)
    | ModemRefused
    | Shutdown
    | OutsideGain(gain: int)

  const DUCKED := 0

  function PoweredOn(cfg: Config, shape: Shape, gain: int): Radio {
    Radio(shape, Line([], []), AtPull, [], 0, false, false, false, false, false, gain, cfg.rxGain, true, [])
  }

  predicate Idle(l: Line) {
    |l.queue| == 0 && |l.rest| == 0
  }

  predicate Silent(s: seq<Sample>) {
    forall i: nat | i < |s| :: s[i] == ZERO
  }

  predicate Enabled(cfg: Config, r: Radio, a: Action) {
    match a
    case PullChunk => r.place.AtPull? && r.running
    case UnmuteIfWanted(_) => r.place.AtUnmute?
    case Write(n) => r.place.AtWrite? && r.running && 0 < n <= cfg.chunkLen - r.sent
    case WriteTimesOut => r.place.AtWrite? && r.running && r.sent < cfg.chunkLen
    case WriteFails => r.place.AtWrite? && r.running && r.sent < cfg.chunkLen
    case WriteEnds => r.place.AtWrite? && !(r.running && r.sent < cfg.chunkLen)
    case CheckMute(_) => r.place.AtCheck?
    case Leave => r.place.AtPull? && !r.running
    case _ => true
  }

  /** Under the modem lock: decide on unmuting before the pull, on the mute check after it. */
  function Pulling(cfg: Config, r: Radio): Radio {
    var p := Pull(r.shape, r.line, cfg.chunkLen);
    r.(wantUnmute := cfg.ota && !Idle(r.line), line := p.line, chunk := p.out, sent := 0,
       wantMute := cfg.ota && Idle(p.line) && r.unmuted, place := AtUnmute)
  }

  /** Under the radio lock: remember the receive gain, duck it, amplifier on. */
  function Unmuting(cfg: Config, r: Radio, readBack: bool): Radio {
    if r.unmuted then r
    else r.(restore := if readBack then r.rxGain else cfg.rxGain, rxGain := DUCKED, pa := true, unmuted := true,
            log := r.log + [Unmuted(r.rxGain, readBack)])
  }

  /** Under the radio lock: amplifier off, receive gain back. */
  function Muting(r: Radio): Radio {
    if !r.unmuted then r
    else r.(pa := false, unmuted := false, rxGain := r.restore,
            log := r.log + [Muted(r.chunk, r.sent, r.running, r.restore)])
  }

  function Checking(r: Radio, drained: bool): Radio {
    if !r.wantMute then r
    else if !r.idleTiming then r.(idleTiming := true)
    else if drained then Muting(r)
    else r
  }

  function Next(cfg: Config, r: Radio, a: Action): Radio
    requires Enabled(cfg, r, a)
    requires r.place.AtWrite? ==> |r.chunk| == cfg.chunkLen && r.sent <= cfg.chunkLen
  {
    match a
    case PullChunk => Pulling(cfg, r)
    case UnmuteIfWanted(readBack) =>
      if r.wantUnmute then Unmuting(cfg, r, readBack).(idleTiming := false, place := AtWrite) else r.(place := AtWrite)
    case Write(n) => r.(sent := r.sent + n, log := r.log + [Wrote(r.chunk[r.sent..r.sent + n], r.unmuted)])
    case WriteTimesOut => r
    case WriteFails => r.(running := false)
    case WriteEnds => r.(place := AtCheck)
    case CheckMute(drained) => Checking(r, drained).(place := AtPull)
    case Leave => r.(place := Finished)
    case Enqueue(frame) => r.(line := Line(r.line.rest, r.line.queue + [frame]))
    case NewModem(shape) => r.(shape := shape, line := Line([], []))
    case ModemRefused => r.(line := Line(r.line.rest, []))
    case Shutdown => r.(running := false)
    case OutsideGain(gain) => r.(rxGain := gain)
  }

  // What every step keeps.

  function LastUnmuted(log: seq<Event>): Option<Event> {
    if |log| == 0 then None
    else if log[|log| - 1].Unmuted? then Some(log[|log| - 1])
    else LastUnmuted(log[..|log| - 1])
  }

  /** The gain an unmute promises to bring back. */
  function Promised(cfg: Config, e: Event): int
    requires e.Unmuted?
  {
    if e.readBack then e.gainBefore else cfg.rxGain
  }

  ghost predicate EventSafe(cfg: Config, log: seq<Event>, k: nat)
    requires k < |log|
  {
    match log[k]
    case Wrote(samples, unmuted) => !Silent(samples) ==> unmuted
    case Unmuted(_, _) => true
    case Muted(chunk, sent, running, gain) =>
      && Silent(chunk) && |chunk| == cfg.chunkLen && (sent == cfg.chunkLen || !running)
      && LastUnmuted(log[..k]).Some? && LastUnmuted(log[..k]).value.Unmuted?
      && gain == Promised(cfg, LastUnmuted(log[..k]).value)
  }

  ghost predicate LogSafe(cfg: Config, log: seq<Event>) {
    forall k: nat | k < |log| :: EventSafe(cfg, log, k)
  }

  ghost predicate Safe(cfg: Config, r: Radio) {
    && r.pa == r.unmuted
    && (!r.place.AtPull? && !r.place.Finished? ==> |r.chunk| == cfg.chunkLen && r.sent <= cfg.chunkLen)
    && (r.place.AtUnmute? ==> (!r.wantUnmute ==> Silent(r.chunk)))
    && (r.place.AtWrite? || r.place.AtCheck? ==> (!Silent(r.chunk) ==> r.unmuted && !r.idleTiming))
    && (r.place.AtCheck? ==> r.sent == cfg.chunkLen || !r.running)
    && (r.unmuted ==> LastUnmuted(r.log).Some? && LastUnmuted(r.log).value.Unmuted?
                      && r.restore == Promised(cfg, LastUnmuted(r.log).value))
    && LogSafe(cfg, r.log)
  }

  lemma IdlePullsSilence(shape: Shape, l: Line, n: nat)
    requires Idle(l)
    ensures Silent(Pull(shape, l, n).out) && Pull(shape, l, n).line == l
  {
    PullSilence(shape, l, n);
  }

  lemma LogGrows(cfg: Config, log: seq<Event>, e: Event)
    requires LogSafe(cfg, log) && EventSafe(cfg, log + [e], |log|)
    ensures LogSafe(cfg, log + [e])
  {
    var all := log + [e];
    forall k: nat | k < |all| ensures EventSafe(cfg, all, k) {
      if k < |log| {
        assert all[k] == log[k] && all[..k] == log[..k];
        assert EventSafe(cfg, log, k);
      }
    }
  }

  lemma LastOf(log: seq<Event>, e: Event)
    ensures LastUnmuted(log + [e]) == if e.Unmuted? then Some(e) else LastUnmuted(log)
    ensures (log + [e])[..|log|] == log
  {
    assert (log + [e])[..|log|] == log;
  }

  lemma SilentPart(s: seq<Sample>, i: nat, j: nat)
    requires i <= j <= |s| && Silent(s)
    ensures Silent(s[i..j])
  {
  }

  /** Every atomic section of every thread keeps the interlock. */
  lemma StepKeepsSafe(cfg: Config, r: Radio, a: Action)
    requires cfg.ota && Safe(cfg, r) && Enabled(cfg, r, a)
    ensures Safe(cfg, Next(cfg, r, a))
  {
    hide LogSafe, Pull;
    match a {
      case PullChunk =>
        if Idle(r.line) { IdlePullsSilence(r.shape, r.line, cfg.chunkLen); }
      case UnmuteIfWanted(readBack) =>
        if r.wantUnmute && !r.unmuted {
          LastOf(r.log, Unmuted(r.rxGain, readBack));
          LogGrows(cfg, r.log, Unmuted(r.rxGain, readBack));
        }
      case Write(n) =>
        var e := Wrote(r.chunk[r.sent..r.sent + n], r.unmuted);
        if Silent(r.chunk) { SilentPart(r.chunk, r.sent, r.sent + n); }
        LastOf(r.log, e);
        LogGrows(cfg, r.log, e);
      case CheckMute(drained) =>
        var e := Muted(r.chunk, r.sent, r.running, r.restore);
        if r.wantMute && r.idleTiming && drained && r.unmuted {
          LastOf(r.log, e);
          LogGrows(cfg, r.log, e);
        }
      case _ =>
    }
  }

  lemma PullKeepsSafe(cfg: Config, r: Radio)
    requires cfg.ota && Safe(cfg, r) && r.place.AtPull? && r.running
    ensures Next(cfg, r, PullChunk) == Pulling(cfg, r) && Safe(cfg, Pulling(cfg, r))
  {
    StepKeepsSafe(cfg, r, PullChunk);
  }

  // Runs.

  ghost predicate RunOf(cfg: Config, states: seq<Radio>, acts: seq<Action>) {
    && |states| == |acts| + 1 && states[0].log == [] && !states[0].unmuted && !states[0].pa && states[0].place.AtPull?
    && forall k: nat | k < |acts| :: StepOf(cfg, states[k], acts[k], states[k + 1])
  }

  ghost predicate StepOf(cfg: Config, r: Radio, a: Action, r': Radio) {
    && Enabled(cfg, r, a)
    && (r.place.AtWrite? ==> |r.chunk| == cfg.chunkLen && r.sent <= cfg.chunkLen)
    && r' == Next(cfg, r, a)
  }

  /** In every state of every run the interlock holds: no sample but silence was
      ever written with the amplifier muted, and every mute came after a silent
      chunk and brought back the gain read at the matching unmute. */
  lemma {:induction false} RunsAreSafe(cfg: Config, states: seq<Radio>, acts: seq<Action>, k: nat)
    requires cfg.ota && RunOf(cfg, states, acts) && k < |states|
    ensures Safe(cfg, states[k])
  {
    if k > 0 {
      RunsAreSafe(cfg, states, acts, k - 1);
      hide Safe, Next;
      assert StepOf(cfg, states[k - 1], acts[k - 1], states[k]);
      StepKeepsSafe(cfg, states[k - 1], acts[k - 1]);
    }
  }

  /** While the amplifier is on the receiver stays ducked, unless somebody else sets its gain. */
  lemma {:induction false} DuckedWhileOn(cfg: Config, states: seq<Radio>, acts: seq<Action>, u: nat, k: nat)
    requires RunOf(cfg, states, acts) && u < k <= |acts| && !states[u].unmuted
    requires forall j: nat | u < j <= k :: states[j].unmuted
    requires forall j: nat | u < j < k :: !acts[j].OutsideGain?
    ensures states[k].rxGain == 0
  {
    hide *;
    if u + 1 < k { DuckedWhileOn(cfg, states, acts, u, k - 1); }
    RunSteps(cfg, states, acts, k - 1);
    DuckedStep(cfg, states[k - 1], acts[k - 1], states[k]);
  }

  lemma RunSteps(cfg: Config, states: seq<Radio>, acts: seq<Action>, k: nat)
    requires RunOf(cfg, states, acts) && k < |acts|
    ensures |states| == |acts| + 1 && StepOf(cfg, states[k], acts[k], states[k + 1])
  {
    hide StepOf;
  }

  lemma DuckedStep(cfg: Config, r: Radio, a: Action, r': Radio)
    requires StepOf(cfg, r, a, r') && r'.unmuted && (r.unmuted ==> r.rxGain == 0 && !a.OutsideGain?)
    ensures r'.rxGain == 0
  {
    hide Pull;
    match a {
      case UnmuteIfWanted(_) =>
      case CheckMute(_) =>
      case Write(_) =>
      case _ =>
    }
  }

  // Which mutes follow a chunk that was written whole.

  predicate Cuts(a: Action) {
    a.Shutdown? || a.WriteFails?
  }

  /** The iteration of the transmit thread that pulled at action k is still at action m. */
  ghost predicate Iteration(acts: seq<Action>, k: nat, m: nat) {
    k < m <= |acts| && acts[k].PullChunk? && forall j: nat | k < j < m :: !acts[j].PullChunk?
  }

  predicate Inside(r: Radio) {
    r.place.AtUnmute? || r.place.AtWrite? || r.place.AtCheck?
  }

  /** Away from the pull, a chunk left unfinished by a stop stays unfinished, and
      without a stop nothing stops. */
  lemma InsideStep(cfg: Config, r: Radio, a: Action, r': Radio)
    requires StepOf(cfg, r, a, r') && Inside(r) && Inside(r')
    ensures !a.PullChunk? && r'.chunk == r.chunk && r.sent <= r'.sent
    ensures !r.running ==> !r'.running && r'.sent == r.sent
    ensures !Cuts(a) ==> r'.running == r.running
    ensures Cuts(a) ==> !r'.running && r'.sent == r.sent
  {
    hide Pull;
  }

  lemma PullStep(cfg: Config, r: Radio, a: Action, r': Radio)
    requires StepOf(cfg, r, a, r') && !Inside(r) && Inside(r')
    ensures a.PullChunk? && r'.running && r'.sent == 0
  {
    hide Pull;
  }

  // When the amplifier goes on.

  lemma WantStep(cfg: Config, r: Radio, a: Action, r': Radio)
    requires cfg.ota && StepOf(cfg, r, a, r') && Inside(r')
    ensures r'.wantUnmute == if Inside(r) then r.wantUnmute else !Idle(r.line)
    ensures (Inside(r) && !r.place.AtUnmute? && r.wantUnmute ==> r.unmuted) ==> !r'.place.AtUnmute? && r'.wantUnmute ==> r'.unmuted
  {
    hide Pull;
  }

  /** In every iteration: the amplifier is wanted if and only if there was something to send before the
      pull, and when it is wanted it is on from the first write on. */
  lemma {:induction false} WantedToSend(cfg: Config, states: seq<Radio>, acts: seq<Action>, m: nat) returns (k: nat)
    requires cfg.ota && RunOf(cfg, states, acts) && m <= |acts| && Inside(states[m])
    ensures Iteration(acts, k, m) && states[m].wantUnmute == !Idle(states[k].line)
    ensures !states[m].place.AtUnmute? && !Idle(states[k].line) ==> states[m].unmuted
  {
    assert m > 0;
    var r, a, r' := states[m - 1], acts[m - 1], states[m];
    assert StepOf(cfg, r, a, r');
    hide RunOf, Idle;
    WantStep(cfg, r, a, r');
    if Inside(r) {
      k := WantedToSend(cfg, states, acts, m - 1);
      InsideStep(cfg, r, a, r');
      hide StepOf, Inside;
      forall j: nat | k < j < m ensures !acts[j].PullChunk? {
        if j == m - 1 { assert acts[j] == a; }
      }
    } else {
      PullStep(cfg, r, a, r');
      k := m - 1;
    }
  }

  lemma UnmuteStep(cfg: Config, r: Radio, a: Action, r': Radio)
    requires StepOf(cfg, r, a, r') && !r.unmuted && r'.unmuted
    ensures r.place.AtUnmute? && r.wantUnmute
  {
    hide Pull;
    match a {
      case UnmuteIfWanted(_) =>
      case CheckMute(_) =>
      case Write(_) =>
      case _ =>
    }
  }

  /** It goes on only in an iteration that found something to send. */
  lemma UnmutesOnlyToSend(cfg: Config, states: seq<Radio>, acts: seq<Action>, m: nat) returns (k: nat)
    requires cfg.ota && RunOf(cfg, states, acts) && m < |acts| && !states[m].unmuted && states[m + 1].unmuted
    ensures Iteration(acts, k, m) && !Idle(states[k].line)
  {
    assert StepOf(cfg, states[m], acts[m], states[m + 1]);
    hide RunOf;
    UnmuteStep(cfg, states[m], acts[m], states[m + 1]);
    k := WantedToSend(cfg, states, acts, m);
  }

  /** Every stop within the iteration came after the last sample of its chunk. */
  ghost predicate CutsAfterChunk(cfg: Config, states: seq<Radio>, acts: seq<Action>, k: nat, m: nat)
    requires m <= |acts| < |states|
  {
    forall j: nat | k < j < m && Cuts(acts[j]) :: states[j].sent == cfg.chunkLen
  }

  /** Away from the pull there is the iteration's own pull; as long as its chunk
      is unfinished it runs on exactly while no stop came before the chunk's end,
      and a finished chunk never saw such a stop. */
  lemma {:induction false} InIteration(cfg: Config, states: seq<Radio>, acts: seq<Action>, m: nat) returns (k: nat)
    requires cfg.ota && RunOf(cfg, states, acts) && m <= |acts| && Inside(states[m])
    ensures Iteration(acts, k, m) && states[m].sent <= cfg.chunkLen
    ensures states[m].sent == cfg.chunkLen ==> CutsAfterChunk(cfg, states, acts, k, m)
    ensures states[m].sent < cfg.chunkLen ==> (states[m].running <==> CutsAfterChunk(cfg, states, acts, k, m))
  {
    RunsAreSafe(cfg, states, acts, m);
    assert m > 0 && states[m].sent <= cfg.chunkLen;
    hide Safe, Next;
    var r, a, r' := states[m - 1], acts[m - 1], states[m];
    assert StepOf(cfg, r, a, r');
    if Inside(r) {
      k := InIteration(cfg, states, acts, m - 1);
      InsideStep(cfg, r, a, r');
      hide StepOf, RunOf, Inside;
      assert forall j: nat | k < j < m && Cuts(acts[j]) :: j == m - 1 || j < m - 1;
    } else {
      PullStep(cfg, r, a, r');
      k := m - 1;
    }
  }

  /** The chunk behind a mute check was written whole exactly when no shutdown or
      stream error fell between its pull and its last sample. */
  lemma WholeChunkExactly(cfg: Config, states: seq<Radio>, acts: seq<Action>, m: nat) returns (k: nat)
    requires cfg.ota && RunOf(cfg, states, acts) && m < |acts| && acts[m].CheckMute?
    ensures Iteration(acts, k, m)
    ensures states[m].sent == cfg.chunkLen <==> CutsAfterChunk(cfg, states, acts, k, m)
  {
    assert StepOf(cfg, states[m], acts[m], states[m + 1]);
    k := InIteration(cfg, states, acts, m);
    RunsAreSafe(cfg, states, acts, m);
    hide Next, RunOf;
  }

  /** A mute in the log, and the check that made it. */
  lemma {:induction false} MuteMade(cfg: Config, states: seq<Radio>, acts: seq<Action>, n: nat, e: nat) returns (m: nat)
    requires RunOf(cfg, states, acts) && n < |states| && e < |states[n].log| && states[n].log[e].Muted?
    ensures m < n && acts[m].CheckMute? && states[m].unmuted && !states[m + 1].unmuted
    ensures states[n].log[e] == Muted(states[m].chunk, states[m].sent, states[m].running, states[m + 1].rxGain)
  {
    assert n > 0;
    assert StepOf(cfg, states[n - 1], acts[n - 1], states[n]);
    if e < |states[n - 1].log| {
      LogKept(cfg, states[n - 1], acts[n - 1], states[n]);
      hide StepOf, RunOf;
      m := MuteMade(cfg, states, acts, n - 1, e);
    } else {
      m := n - 1;
      hide RunOf;
      MuteEvent(cfg, states[m], acts[m], states[n], e);
      hide StepOf;
    }
  }

  lemma MuteEvent(cfg: Config, r: Radio, a: Action, r': Radio, e: nat)
    requires StepOf(cfg, r, a, r') && |r.log| <= e < |r'.log| && r'.log[e].Muted?
    ensures a.CheckMute? && r.unmuted && !r'.unmuted
    ensures r'.log[e] == Muted(r.chunk, r.sent, r.running, r'.rxGain)
  {
    hide Pull;
    match a {
      case Write(_) =>
      case UnmuteIfWanted(_) =>
      case CheckMute(_) =>
      case _ =>
    }
  }

  lemma MuteDone(cfg: Config, r: Radio, a: Action, r': Radio)
    requires StepOf(cfg, r, a, r') && r.unmuted && !r'.unmuted
    ensures r'.rxGain == r.restore && !r'.pa
  {
    hide Pull;
    match a {
      case UnmuteIfWanted(_) =>
      case CheckMute(_) =>
      case Write(_) =>
      case _ =>
    }
  }

  lemma LogKept(cfg: Config, r: Radio, a: Action, r': Radio)
    requires StepOf(cfg, r, a, r')
    ensures r.log <= r'.log
  {
    hide Pull;
    match a {
      case UnmuteIfWanted(_) =>
      case CheckMute(_) =>
      case Write(_) =>
      case _ =>
    }
  }

  /** Every mute of every run followed a chunk of silence, and the chunk had been
      written whole exactly when no shutdown or stream error fell between its pull
      and its last sample. */
  lemma MutesAfterWholeChunks(cfg: Config, states: seq<Radio>, acts: seq<Action>, n: nat, e: nat) returns (k: nat, m: nat)
    requires cfg.ota && RunOf(cfg, states, acts) && n < |states| && e < |states[n].log| && states[n].log[e].Muted?
    ensures m < n && acts[m].CheckMute? && Iteration(acts, k, m) && states[n].log[e].chunk == states[m].chunk
    ensures Silent(states[n].log[e].chunk) && |states[n].log[e].chunk| == cfg.chunkLen
    ensures states[n].log[e].sent == cfg.chunkLen <==> CutsAfterChunk(cfg, states, acts, k, m)
  {
    m := MuteMade(cfg, states, acts, n, e);
    k := WholeChunkExactly(cfg, states, acts, m);
    RunsAreSafe(cfg, states, acts, n);
    assert EventSafe(cfg, states[n].log, e);
    hide Safe, RunOf;
  }

  /** While the amplifier is on, the gain to bring back is the one read when it was put on. */
  lemma {:induction false} UnmutedSince(cfg: Config, states: seq<Radio>, acts: seq<Action>, m: nat) returns (u: nat)
    requires RunOf(cfg, states, acts) && m < |states| && states[m].unmuted
    ensures u < m && acts[u].UnmuteIfWanted? && !states[u].unmuted && forall j: nat | u < j <= m :: states[j].unmuted
    ensures states[m].restore == if acts[u].readBack then states[u].rxGain else cfg.rxGain
  {
    assert m > 0;
    var r, a, r' := states[m - 1], acts[m - 1], states[m];
    assert StepOf(cfg, r, a, r');
    if r.unmuted {
      RestoreKept(cfg, r, a, r');
      hide StepOf, RunOf;
      u := UnmutedSince(cfg, states, acts, m - 1);
    } else {
      UnmuteMade(cfg, r, a, r');
      u := m - 1;
    }
  }

  lemma RestoreKept(cfg: Config, r: Radio, a: Action, r': Radio)
    requires StepOf(cfg, r, a, r') && r.unmuted && r'.unmuted
    ensures r'.restore == r.restore
  {
    hide Pull;
    match a {
      case UnmuteIfWanted(_) =>
      case CheckMute(_) =>
      case Write(_) =>
      case _ =>
    }
  }

  lemma UnmuteMade(cfg: Config, r: Radio, a: Action, r': Radio)
    requires StepOf(cfg, r, a, r') && !r.unmuted && r'.unmuted
    ensures a.UnmuteIfWanted? && r'.restore == if a.readBack then r.rxGain else cfg.rxGain
  {
    hide Pull;
    match a {
      case UnmuteIfWanted(_) =>
      case CheckMute(_) =>
      case Write(_) =>
      case _ =>
    }
  }

  /** A mute brings the receive gain back to what it was at the matching unmute,
      whatever was written to it in between; after a failed readback to the configured one. */
  lemma GainComesBack(cfg: Config, states: seq<Radio>, acts: seq<Action>, m: nat) returns (u: nat)
    requires RunOf(cfg, states, acts) && m < |acts| && states[m].unmuted && !states[m + 1].unmuted
    ensures u < m && acts[u].UnmuteIfWanted? && !states[u].unmuted && forall j: nat | u < j <= m :: states[j].unmuted
    ensures states[m + 1].rxGain == if acts[u].readBack then states[u].rxGain else cfg.rxGain
    ensures !states[m + 1].pa
  {
    assert StepOf(cfg, states[m], acts[m], states[m + 1]);
    MuteDone(cfg, states[m], acts[m], states[m + 1]);
    u := UnmutedSince(cfg, states, acts, m);
    hide RunOf, StepOf;
  }

  ghost predicate Round(cfg: Config, s0: Radio, s1: Radio, s2: Radio, s3: Radio, s4: Radio, s5: Radio, drained: bool) {
    && StepOf(cfg, s0, PullChunk, s1) && StepOf(cfg, s1, UnmuteIfWanted(true), s2) && StepOf(cfg, s2, Write(cfg.chunkLen), s3)
    && StepOf(cfg, s3, WriteEnds, s4) && StepOf(cfg, s4, CheckMute(drained), s5)
  }

  lemma SilentRound(cfg: Config, s0: Radio, s1: Radio, s2: Radio, s3: Radio, s4: Radio, s5: Radio, drained: bool)
    requires cfg.ota && Round(cfg, s0, s1, s2, s3, s4, s5, drained) && Idle(s0.line) && s0.running && s0.unmuted
    ensures s5.place.AtPull? && s5.running && Idle(s5.line)
    ensures s5.idleTiming
    ensures if s0.idleTiming && drained then !s5.unmuted && s5.rxGain == s0.restore && s5.pa == false
            else s5.unmuted && s5.restore == s0.restore && s5.pa == s0.pa
  {
    IdlePullsSilence(s0.shape, s0.line, cfg.chunkLen);
    hide Pull;
  }

  lemma MutedRound(cfg: Config, s0: Radio, s1: Radio, s2: Radio, s3: Radio, s4: Radio, s5: Radio)
    requires cfg.ota && Round(cfg, s0, s1, s2, s3, s4, s5, true) && Idle(s0.line) && s0.running && !s0.unmuted
    ensures !s5.unmuted && s5.rxGain == s0.rxGain && s5.pa == s0.pa
  {
    IdlePullsSilence(s0.shape, s0.line, cfg.chunkLen);
    hide Pull;
  }

  /** With nothing to send, two silent chunks put the amplifier off and bring the gain back. */
  lemma TwoSilentChunksMute(cfg: Config, s0: Radio, s1: Radio, s2: Radio, s3: Radio, s4: Radio, s5: Radio, drained: bool,
                            s6: Radio, s7: Radio, s8: Radio, s9: Radio, s10: Radio)
    requires cfg.ota && Idle(s0.line) && s0.running && s0.unmuted
    requires Round(cfg, s0, s1, s2, s3, s4, s5, drained) && Round(cfg, s5, s6, s7, s8, s9, s10, true)
    ensures !s10.unmuted && s10.rxGain == s0.restore
  {
    hide Round;
    SilentRound(cfg, s0, s1, s2, s3, s4, s5, drained);
    if s5.unmuted {
      SilentRound(cfg, s5, s6, s7, s8, s9, s10, true);
    } else {
      MutedRound(cfg, s5, s6, s7, s8, s9, s10);
    }
  }

  lemma Extended(cfg: Config, states: seq<Radio>, acts: seq<Action>, a: Action) returns (states': seq<Radio>, acts': seq<Action>)
    requires RunOf(cfg, states, acts) && Enabled(cfg, states[|acts|], a)
    requires states[|acts|].place.AtWrite? ==> |states[|acts|].chunk| == cfg.chunkLen && states[|acts|].sent <= cfg.chunkLen
    ensures RunOf(cfg, states', acts') && acts' == acts + [a] && |acts'| == |acts| + 1
    ensures states'[|acts'|] == Next(cfg, states[|acts|], a)
  {
    states', acts' := states + [Next(cfg, states[|acts|], a)], acts + [a];
    hide Next;
    forall k: nat | k < |acts'| ensures StepOf(cfg, states'[k], acts'[k], states'[k + 1]) {
      if k < |acts| {
        assert StepOf(cfg, states[k], acts[k], states[k + 1]);
      }
    }
  }

  /** One iteration of the transmit thread in which the chunk goes out whole. */
  lemma WholeRound(cfg: Config, states: seq<Radio>, acts: seq<Action>, drained: bool) returns (states': seq<Radio>, acts': seq<Action>)
    requires RunOf(cfg, states, acts) && cfg.ota && cfg.chunkLen > 0
    requires states[|acts|].place.AtPull? && states[|acts|].running
    ensures RunOf(cfg, states', acts')
    ensures var r := states[|acts|];
            var p := Pulling(cfg, r);
            var u := Next(cfg, p, UnmuteIfWanted(true));
            var w := u.(sent := cfg.chunkLen, log := u.log + [Wrote(p.chunk, u.unmuted)], place := AtCheck);
            states'[|acts'|] == Checking(w, drained).(place := AtPull)
  {
    var r := states[|acts|];
    states', acts' := Extended(cfg, states, acts, PullChunk);
    hide Pull, RunOf;
    states', acts' := Extended(cfg, states', acts', UnmuteIfWanted(true));
    var u := states'[|acts'|];
    states', acts' := Extended(cfg, states', acts', Write(cfg.chunkLen));
    assert u.chunk[0..cfg.chunkLen] == u.chunk;
    states', acts' := Extended(cfg, states', acts', WriteEnds);
    states', acts' := Extended(cfg, states', acts', CheckMute(drained));
  }

  /** Running, at the pull, with the gain `gain` to come back. */
  ghost predicate OnAir(r: Radio, shape: Shape, gain: int) {
    r.place.AtPull? && r.running && r.shape == shape && if r.unmuted then r.restore == gain else r.rxGain == gain && !Idle(r.line)
  }

  /** Undisturbed, the transmit thread sends everything it has. */
  lemma {:induction false} RunsDry(cfg: Config, states: seq<Radio>, acts: seq<Action>, shape: Shape, gain: int)
    returns (states': seq<Radio>, acts': seq<Action>)
    requires RunOf(cfg, states, acts) && cfg.ota && cfg.chunkLen > 0 && OnAir(states[|acts|], shape, gain)
    ensures RunOf(cfg, states', acts') && OnAir(states'[|acts'|], shape, gain)
    ensures Idle(states'[|acts'|].line) && states'[|acts'|].unmuted
    decreases Backlog(shape, states[|acts|].line)
  {
    var r := states[|acts|];
    if Idle(r.line) {
      return states, acts;
    }
    PullWorksOff(shape, r.line, cfg.chunkLen);
    states', acts' := WholeRound(cfg, states, acts, false);
    hide Pull, RunOf, Backlog;
    states', acts' := RunsDry(cfg, states', acts', shape, gain);
  }

  /** A shutdown in the middle of a write lets the mute follow a chunk of which
      nothing was written: one frame sent, one silent chunk, and then a stop. It
      takes no special chunk length, carrier, gap or frame. */
  lemma ShutdownCutsTheChunk(cfg: Config, shape: Shape, frame: seq<Sample>, gain: int) returns (states: seq<Radio>, acts: seq<Action>)
    requires cfg.ota && cfg.chunkLen > 0
    ensures RunOf(cfg, states, acts)
    ensures var log := states[|acts|].log; |log| > 0 && log[|log| - 1] == Muted(Zeros(cfg.chunkLen), 0, false, gain)
  {
    states, acts := [PoweredOn(cfg, shape, gain)], [];
    states, acts := Extended(cfg, states, acts, Enqueue(frame));
    states, acts := RunsDry(cfg, states, acts, shape, gain);
    PullSilence(shape, states[|acts|].line, cfg.chunkLen);
    hide Pull, RunOf;
    states, acts := WholeRound(cfg, states, acts, false);
    assert OnAir(states[|acts|], shape, gain) && states[|acts|].unmuted && states[|acts|].idleTiming && Idle(states[|acts|].line);
    PullSilence(shape, states[|acts|].line, cfg.chunkLen);
    states, acts := Extended(cfg, states, acts, PullChunk);
    states, acts := Extended(cfg, states, acts, UnmuteIfWanted(true));
    states, acts := Extended(cfg, states, acts, Shutdown);
    states, acts := Extended(cfg, states, acts, WriteEnds);
    states, acts := Extended(cfg, states, acts, CheckMute(true));
  }

  /** The flags and threads as the program keeps them; every method is one atomic section. */
  class RadioThread {
    const cfg: Config
    var shape: Shape
    var line: Line
    var place: Place
    var chunk: seq<Sample>
    var sent: nat
    var wantUnmute: bool
    var wantMute: bool
    var idleTiming: bool
    var unmuted: bool
    var pa: bool
    var rxGain: int
    var restore: int
    var running: bool
    ghost var log: seq<Event>

    constructor (cfg: Config, shape: Shape, gain: int)
      ensures this.cfg == cfg && State() == PoweredOn(cfg, shape, gain) && Safe(cfg, State())
    {
      this.cfg, this.shape, line, place, chunk, sent := cfg, shape, Line([], []), AtPull, [], 0;
      wantUnmute, wantMute, idleTiming, unmuted, pa := false, false, false, false, false;
      rxGain, restore, running, log := gain, cfg.rxGain, true, [];
    }

    ghost function State(): Radio
      reads this
    {
      Radio(shape, line, place, chunk, sent, wantUnmute, wantMute, idleTiming, unmuted, pa, rxGain, restore, running, log)
    }

    /** The pull, between the two idle tests, under the modem lock. */
    method PullSection()
      requires cfg.ota && Safe(cfg, State()) && place.AtPull? && running
      modifies this
      ensures State() == Next(cfg, old(State()), PullChunk) && Safe(cfg, State())
    {
      PullKeepsSafe(cfg, State());
      hide Pull, Safe;
      wantUnmute := cfg.ota && !Idle(line);
      var p := Pull(shape, line, cfg.chunkLen);
      line, chunk, sent := p.line, p.out, 0;
      wantMute := cfg.ota && Idle(line) && unmuted;
      place := AtUnmute;
    }

    method UnmuteSection(readBack: bool)
      requires cfg.ota && Safe(cfg, State()) && place.AtUnmute?
      modifies this
      ensures State() == Next(cfg, old(State()), UnmuteIfWanted(readBack)) && Safe(cfg, State())
    {
      StepKeepsSafe(cfg, State(), UnmuteIfWanted(readBack));
      if wantUnmute {
        UnmuteTxRf(readBack);
        idleTiming := false;
      }
      place := AtWrite;
    }

    method UnmuteTxRf(readBack: bool)
      modifies this
      ensures State() == Unmuting(cfg, old(State()), readBack)
    {
      if unmuted {
        return;
      }
      log := log + [Unmuted(rxGain, readBack)];
      if readBack {
        restore := rxGain;
      } else {
        restore := cfg.rxGain;
      }
      rxGain := DUCKED;
      pa := true;
      unmuted := true;
    }

    method MuteTxRf()
      modifies this
      ensures State() == Muting(old(State()))
    {
      if unmuted {
        pa := false;
        unmuted := false;
        rxGain := restore;
        log := log + [Muted(chunk, sent, running, restore)];
      }
    }

    method CheckSection(drained: bool)
      requires cfg.ota && Safe(cfg, State()) && place.AtCheck?
      modifies this
      ensures State() == Next(cfg, old(State()), CheckMute(drained)) && Safe(cfg, State())
    {
      StepKeepsSafe(cfg, State(), CheckMute(drained));
      if wantMute {
        if !idleTiming {
          idleTiming := true;
        } else if drained {
          MuteTxRf();
        }
      }
      place := AtPull;
    }
  }
}
