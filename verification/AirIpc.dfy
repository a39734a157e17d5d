/** The Air-IPC byte protocol, version 1: a deframer that resynchronises on the
    two magic bytes, and the message bodies it carries. */
module AirIpc {
  import opened Wrappers
  import opened LittleEndian

  const MAGIC0: Byte := 0x51
  const MAGIC1: Byte := 0x46
  const VERSION: Byte := 1
  const MIN_AIR: nat := 16
  const MAX_AIR: nat := 255
  const TX_META: nat := 8
  const RX_META: nat := 24
  const MAX_BODY: nat := 279

  const TX_ENQUEUE: Byte := 1
  const RX_INDICATE: Byte := 2
  const SET_MODEM: Byte := 3

  predicate KnownType(t: Byte) {
    t == TX_ENQUEUE || t == RX_INDICATE || t == SET_MODEM
  }

  datatype Frame = Frame(kind: Byte, body: seq<Byte>)

  datatype Mode = ScanMagic0 | ExpectMagic1 | ExpectVersion | ExpectType | LenHi | LenLo | Body

  datatype State = State(mode: Mode, kind: Byte, length: nat, body: seq<Byte>, ok: nat, rejected: nat)

  datatype Fed = Fed(state: State, frames: seq<Frame>)

  function Rejecting(s: State, byte: Byte): State {
    s.(rejected := s.rejected + 1, mode := if byte == MAGIC0 then ExpectMagic1 else ScanMagic0)
  }

  /** What one byte does. */
  function Step(s: State, byte: Byte): Fed {
    match s.mode
    case ScanMagic0 => Fed(if byte == MAGIC0 then s.(mode := ExpectMagic1) else s, [])
    case ExpectMagic1 =>
      Fed(if byte == MAGIC1 then s.(mode := ExpectVersion) else if byte != MAGIC0 then s.(mode := ScanMagic0) else s, [])
    case ExpectVersion => Fed(if byte != VERSION then Rejecting(s, byte) else s.(mode := ExpectType), [])
    case ExpectType => Fed(if !KnownType(byte) then Rejecting(s, byte) else s.(kind := byte, mode := LenHi), [])
    case LenHi => Fed(s.(length := byte * 256, mode := LenLo), [])
    case LenLo =>
      var n := s.length + byte;
      if n == 0 || n > MAX_BODY then Fed(s.(rejected := s.rejected + 1, mode := ScanMagic0, length := 0), [])
      else Fed(s.(length := n, body := [], mode := Body), [])
    case Body =>
      var body := s.body + [byte];
      if |body| == s.length then Fed(s.(ok := s.ok + 1, mode := ScanMagic0, length := 0, body := []), [Frame(s.kind, body)])
      else Fed(s.(body := body), [])
  }

  /** What a run of bytes does. */
  function Feed(s: State, bytes: seq<Byte>): Fed {
    if |bytes| == 0 then Fed(s, [])
    else
      var before := Feed(s, bytes[..|bytes| - 1]);
      var last := Step(before.state, bytes[|bytes| - 1]);
      Fed(last.state, before.frames + last.frames)
  }

  /** The body being read is shorter than its announced length, which is within bounds. */
  ghost predicate Sound(s: State) {
    && (s.mode.Body? ==> KnownType(s.kind) && |s.body| < s.length <= MAX_BODY)
    && (s.mode.LenHi? || s.mode.LenLo? ==> KnownType(s.kind))
    && (s.mode.LenLo? ==> s.length <= 255 * 256 && s.length % 256 == 0)
  }

  /** Looking for the start of a frame. */
  predicate Hunting(s: State) {
    s.mode.ScanMagic0? || s.mode.ExpectMagic1?
  }

  lemma StepSound(s: State, byte: Byte)
    requires Sound(s)
    ensures Sound(Step(s, byte).state)
    ensures Step(s, byte).state.ok == s.ok + |Step(s, byte).frames|
    ensures forall f | f in Step(s, byte).frames :: KnownType(f.kind) && 0 < |f.body| <= MAX_BODY
  {
  }

  /** Whatever arrives, the state stays sound, every frame has a known type and a
      body in bounds, and the count of good frames is the number handed out. */
  lemma {:induction false} FeedSound(s: State, bytes: seq<Byte>)
    requires Sound(s)
    ensures Sound(Feed(s, bytes).state)
    ensures Feed(s, bytes).state.ok == s.ok + |Feed(s, bytes).frames|
    ensures forall f | f in Feed(s, bytes).frames :: KnownType(f.kind) && 0 < |f.body| <= MAX_BODY
  {
    hide Step, Sound;
    if |bytes| > 0 {
      FeedSound(s, bytes[..|bytes| - 1]);
      StepSound(Feed(s, bytes[..|bytes| - 1]).state, bytes[|bytes| - 1]);
    }
  }

  /** How the bytes are cut into chunks does not matter. */
  lemma {:induction false} FeedConcat(s: State, a: seq<Byte>, b: seq<Byte>)
    ensures var one := Feed(s, a);
            var two := Feed(one.state, b);
            Feed(s, a + b) == Fed(two.state, one.frames + two.frames)
  {
    hide Step;
    if |b| == 0 {
      assert a + b == a;
    } else {
      var n := |b| - 1;
      assert (a + b)[..|a + b| - 1] == a + b[..n];
      FeedConcat(s, a, b[..n]);
      var one := Feed(s, a);
      var last := Step(Feed(one.state, b[..n]).state, b[n]).frames;
      assert one.frames + (Feed(one.state, b[..n]).frames + last) == (one.frames + Feed(one.state, b[..n]).frames) + last;
    }
  }

  function Chunked(s: State, chunks: seq<seq<Byte>>): Fed {
    if |chunks| == 0 then Fed(s, [])
    else
      var before := Chunked(s, chunks[..|chunks| - 1]);
      var last := Feed(before.state, chunks[|chunks| - 1]);
      Fed(last.state, before.frames + last.frames)
  }

  function Joined(chunks: seq<seq<Byte>>): seq<Byte> {
    if |chunks| == 0 then [] else Joined(chunks[..|chunks| - 1]) + chunks[|chunks| - 1]
  }

  lemma {:induction false} AnyChunking(s: State, chunks: seq<seq<Byte>>)
    ensures Chunked(s, chunks) == Feed(s, Joined(chunks))
  {
    hide Step;
    if |chunks| > 0 {
      AnyChunking(s, chunks[..|chunks| - 1]);
      FeedConcat(s, Joined(chunks[..|chunks| - 1]), chunks[|chunks| - 1]);
    }
  }

  // Frames on the wire.

  predicate Encodable(f: Frame) {
    KnownType(f.kind) && 0 < |f.body| <= MAX_BODY
  }

  function HeadOf(f: Frame): seq<Byte>
    requires |f.body| <= MAX_BODY
  {
    [MAGIC0, MAGIC1, VERSION, f.kind, |f.body| / 256, |f.body| % 256]
  }

  function Wire(f: Frame): seq<Byte>
    requires |f.body| <= MAX_BODY
  {
    HeadOf(f) + f.body
  }

  lemma FeedOne(s: State, byte: Byte)
    ensures Feed(s, [byte]) == Step(s, byte)
  {
    assert [byte][..0] == [];
    assert Feed(s, []) == Fed(s, []);
    assert [] + Step(s, byte).frames == Step(s, byte).frames;
  }

  lemma FeedNext(s: State, bytes: seq<Byte>, byte: Byte, mid: State)
    requires Feed(s, bytes) == Fed(mid, [])
    ensures Feed(s, bytes + [byte]) == Step(mid, byte)
  {
    FeedConcat(s, bytes, [byte]);
    FeedOne(mid, byte);
    assert [] + Step(mid, byte).frames == Step(mid, byte).frames;
  }

  lemma HeadRead(s: State, f: Frame)
    requires Hunting(s) && Encodable(f)
    ensures Feed(s, HeadOf(f)) == Fed(s.(mode := Body, kind := f.kind, length := |f.body|, body := []), [])
  {
    var h := HeadOf(f);
    var s1 := s.(mode := ExpectMagic1);
    var s2, s3, s4 := s.(mode := ExpectVersion), s.(mode := ExpectType), s.(mode := LenHi, kind := f.kind);
    var s5 := s4.(mode := LenLo, length := |f.body| / 256 * 256);
    hide Feed;
    FeedOne(s, h[0]);
    assert Feed(s, h[..1]) == Fed(s1, []) by { assert h[..1] == [h[0]]; }
    FeedNext(s, h[..1], h[1], s1);
    assert h[..1] + [h[1]] == h[..2];
    FeedNext(s, h[..2], h[2], s2);
    assert h[..2] + [h[2]] == h[..3];
    FeedNext(s, h[..3], h[3], s3);
    assert h[..3] + [h[3]] == h[..4];
    FeedNext(s, h[..4], h[4], s4);
    assert h[..4] + [h[4]] == h[..5];
    FeedNext(s, h[..5], h[5], s5);
    assert h[..5] + [h[5]] == h;
  }

  /** Six bytes open a body if and only if they are the magic pair, version 1, one of the three types,
      and a length from 1 to 279, high byte first. */
  lemma HeadAccepted(s: State, head: seq<Byte>)
    requires s.mode.ScanMagic0? && |head| == 6
    ensures var b := Feed(s, head).state;
            b.mode.Body? <==> head[0] == 0x51 && head[1] == 0x46 && head[2] == 1 && 1 <= head[3] <= 3 && 1 <= Announced(head[4], head[5]) <= 279
    ensures var b := Feed(s, head).state;
            b.mode.Body? ==> b.kind == head[3] && b.length == Announced(head[4], head[5]) && b.body == []
  {
    var s1 := Step(s, head[0]).state;
    var s2 := Step(s1, head[1]).state;
    var s3 := Step(s2, head[2]).state;
    var s4 := Step(s3, head[3]).state;
    var s5 := Step(s4, head[4]).state;
    SixBytes(s, head);
  }

  function Announced(hi: nat, lo: nat): nat {
    256 * hi + lo
  }

  lemma SixBytes(s: State, head: seq<Byte>)
    requires |head| == 6
    ensures Feed(s, head).state ==
      Step(Step(Step(Step(Step(Step(s, head[0]).state, head[1]).state, head[2]).state, head[3]).state, head[4]).state, head[5]).state
  {
    hide Step;
    assert head[..5][..4] == head[..4] && head[..4][..3] == head[..3] && head[..3][..2] == head[..2] && head[..2][..1] == head[..1];
    assert head[..1][..0] == [];
    assert Feed(s, head[..1]).state == Step(s, head[0]).state;
    assert Feed(s, head[..2]).state == Step(Feed(s, head[..1]).state, head[1]).state;
    assert Feed(s, head[..3]).state == Step(Feed(s, head[..2]).state, head[2]).state;
    assert Feed(s, head[..4]).state == Step(Feed(s, head[..3]).state, head[3]).state;
    assert Feed(s, head[..5]).state == Step(Feed(s, head[..4]).state, head[4]).state;
  }

  lemma {:induction false} BodyRead(s: State, body: seq<Byte>)
    requires s.mode.Body? && s.body == [] && |body| < s.length
    ensures Feed(s, body) == Fed(s.(body := body), [])
  {
    if |body| == 0 {
    } else {
      var n := |body| - 1;
      BodyRead(s, body[..n]);
      assert body[..n] + [body[n]] == body;
    }
  }

  /** A frame is recovered exactly, from either hunting state. */
  lemma FrameRecovered(s: State, f: Frame)
    requires Hunting(s) && Encodable(f)
    ensures Feed(s, Wire(f)) == Fed(State(ScanMagic0, f.kind, 0, [], s.ok + 1, s.rejected), [f])
  {
    var n := |f.body| - 1;
    var b := s.(mode := Body, kind := f.kind, length := |f.body|, body := []);
    HeadRead(s, f);
    BodyRead(b, f.body[..n]);
    assert f.body[..n] + [f.body[n]] == f.body;
    hide Feed;
    FeedConcat(b, f.body[..n], [f.body[n]]);
    FeedOne(b.(body := f.body[..n]), f.body[n]);
    FeedConcat(s, HeadOf(f), f.body);
    assert [] + [f] == [f];
  }

  /** A frame whose head is cut off by the next one costs one rejection, and the next one is read. */
  lemma CutHeadRecovered(s: State, f: Frame, cut: seq<Byte>)
    requires Hunting(s) && Encodable(f) && (cut == [MAGIC0, MAGIC1] || cut == [MAGIC0, MAGIC1, VERSION])
    ensures Feed(s, cut + Wire(f)) == Fed(State(ScanMagic0, f.kind, 0, [], s.ok + 1, s.rejected + 1), [f])
  {
    hide Feed, Step, Wire;
    CutRead(s, cut);
    var r := s.(mode := ExpectMagic1, rejected := s.rejected + 1);
    WireOpens(f);
    var rest := Wire(f)[1..];
    assert cut + Wire(f) == (cut + [MAGIC0]) + rest;
    FeedConcat(s, cut + [MAGIC0], rest);
    SecondByte(r, f, rest);
  }

  lemma CutRead(s: State, cut: seq<Byte>)
    requires Hunting(s) && (cut == [MAGIC0, MAGIC1] || cut == [MAGIC0, MAGIC1, VERSION])
    ensures Feed(s, cut + [MAGIC0]) == Fed(s.(mode := ExpectMagic1, rejected := s.rejected + 1), [])
  {
    var s1, s2, s3 := s.(mode := ExpectMagic1), s.(mode := ExpectVersion), s.(mode := ExpectType);
    CutSteps(s, s1, s2, s3);
    hide *;
    FeedOne(s, MAGIC0);
    FeedNext(s, [MAGIC0], MAGIC1, s1);
    assert [MAGIC0] + [MAGIC1] == [MAGIC0, MAGIC1];
    if |cut| == 2 {
      FeedNext(s, cut, MAGIC0, s2);
    } else {
      FeedNext(s, [MAGIC0, MAGIC1], VERSION, s2);
      assert [MAGIC0, MAGIC1] + [VERSION] == cut;
      FeedNext(s, cut, MAGIC0, s3);
    }
  }

  lemma CutSteps(s: State, s1: State, s2: State, s3: State)
    requires Hunting(s) && s1 == s.(mode := ExpectMagic1) && s2 == s.(mode := ExpectVersion) && s3 == s.(mode := ExpectType)
    ensures Step(s, MAGIC0) == Fed(s1, []) && Step(s1, MAGIC1) == Fed(s2, []) && Step(s2, VERSION) == Fed(s3, [])
    ensures var r := Fed(s1.(rejected := s.rejected + 1), []); Step(s2, MAGIC0) == r && Step(s3, MAGIC0) == r
  {
  }

  lemma WireOpens(f: Frame)
    requires |f.body| <= MAX_BODY
    ensures |Wire(f)| > 0 && Wire(f)[0] == MAGIC0 && Wire(f) == [MAGIC0] + Wire(f)[1..]
  {
  }

  /** Behind its first byte a frame is read as if the first byte had been seen. */
  lemma SecondByte(r: State, f: Frame, rest: seq<Byte>)
    requires r.mode.ExpectMagic1? && Encodable(f) && Wire(f) == [MAGIC0] + rest
    ensures Feed(r, rest) == Fed(State(ScanMagic0, f.kind, 0, [], r.ok + 1, r.rejected), [f])
  {
    hide Feed, Wire;
    var scan := r.(mode := ScanMagic0);
    FrameRecovered(scan, f);
    FeedOne(scan, MAGIC0);
    FeedConcat(scan, [MAGIC0], rest);
    assert [] + Feed(r, rest).frames == Feed(r, rest).frames;
  }

  function Wires(fs: seq<Frame>): seq<Byte>
    requires forall i: nat | i < |fs| :: Encodable(fs[i])
  {
    if |fs| == 0 then []
    else
      var last := fs[|fs| - 1];
      assert Encodable(last);
      Wires(fs[..|fs| - 1]) + Wire(last)
  }

  lemma {:induction false} FramesRecovered(s: State, fs: seq<Frame>)
    requires Hunting(s) && forall i: nat | i < |fs| :: Encodable(fs[i])
    ensures var r := Feed(s, Wires(fs));
            r.frames == fs && Hunting(r.state) && r.state.ok == s.ok + |fs| && r.state.rejected == s.rejected
  {
    hide Step, Wire;
    if |fs| > 0 {
      var n := |fs| - 1;
      FramesRecovered(s, fs[..n]);
      var mid := Feed(s, Wires(fs[..n])).state;
      FrameRecovered(mid, fs[n]);
      hide Feed;
      FeedConcat(s, Wires(fs[..n]), Wire(fs[n]));
      assert fs[..n] + [fs[n]] == fs;
    }
  }

  /** The two magic bytes do not stand next to each other. */
  ghost predicate NoMagicPair(noise: seq<Byte>) {
    forall i: nat | i + 1 < |noise| :: !(noise[i] == MAGIC0 && noise[i + 1] == MAGIC1)
  }

  lemma {:induction false} NoiseKeepsHunting(s: State, noise: seq<Byte>)
    requires s.mode.ScanMagic0? && NoMagicPair(noise)
    ensures var r := Feed(s, noise);
            r.frames == [] && r.state == s.(mode := r.state.mode)
            && r.state.mode == if |noise| > 0 && noise[|noise| - 1] == MAGIC0 then ExpectMagic1 else ScanMagic0
  {
    if |noise| > 0 {
      var n := |noise| - 1;
      forall i: nat | i + 1 < n ensures !(noise[..n][i] == MAGIC0 && noise[..n][i + 1] == MAGIC1) {
        assert !(noise[i] == MAGIC0 && noise[i + 1] == MAGIC1);
      }
      NoiseKeepsHunting(s, noise[..n]);
      if n > 0 { assert !(noise[n - 1] == MAGIC0 && noise[n - 1 + 1] == MAGIC1); }
    }
  }

  /** After noise without a magic pair, and however the bytes are cut, exactly the frames sent come out, in order. */
  lemma MessagesDelivered(s: State, noise: seq<Byte>, fs: seq<Frame>, chunks: seq<seq<Byte>>)
    requires s.mode.ScanMagic0? && NoMagicPair(noise) && forall i: nat | i < |fs| :: Encodable(fs[i])
    requires Joined(chunks) == noise + Wires(fs)
    ensures var r := Chunked(s, chunks);
            r.frames == fs && r.state.ok == s.ok + |fs| && r.state.rejected == s.rejected && Hunting(r.state)
  {
    AnyChunking(s, chunks);
    NoiseKeepsHunting(s, noise);
    FramesRecovered(Feed(s, noise).state, fs);
    hide Feed, Step, Wires, Chunked, Joined;
    FeedConcat(s, noise, Wires(fs));
    assert [] + fs == fs;
  }

  /** The deframer as the program keeps it. */
  class Deframer {
    var mode: Mode
    var kind: Byte
    var length: nat
    var body: seq<Byte>
    var framesOk: nat
    var framesRejected: nat

    constructor ()
      ensures Now() == State(ScanMagic0, TX_ENQUEUE, 0, [], 0, 0) && Sound(Now())
    {
      mode, kind, length, body, framesOk, framesRejected := ScanMagic0, TX_ENQUEUE, 0, [], 0, 0;
    }

    ghost function Now(): State
      reads this
    {
      State(mode, kind, length, body, framesOk, framesRejected)
    }

    method Reset()
      modifies this
      ensures Now() == State(ScanMagic0, TX_ENQUEUE, 0, [], old(framesOk), old(framesRejected))
    {
      mode, kind, length, body := ScanMagic0, TX_ENQUEUE, 0, [];
    }

    method RejectAndResync(byte: Byte)
      modifies this
      ensures Now() == Rejecting(old(Now()), byte)
    {
      framesRejected := framesRejected + 1;
      mode := if byte == MAGIC0 then ExpectMagic1 else ScanMagic0;
    }

    method TakeByte(byte: Byte) returns (frames: seq<Frame>)
      modifies this
      ensures Fed(Now(), frames) == Step(old(Now()), byte)
    {
      frames := [];
      match mode {
        case ScanMagic0 =>
          if byte == MAGIC0 {
            mode := ExpectMagic1;
          }
        case ExpectMagic1 =>
          if byte == MAGIC1 {
            mode := ExpectVersion;
          } else if byte != MAGIC0 {
            mode := ScanMagic0;
          }
        case ExpectVersion =>
          if byte != VERSION {
            RejectAndResync(byte);
          } else {
            mode := ExpectType;
          }
        case ExpectType =>
          if !KnownType(byte) {
            RejectAndResync(byte);
          } else {
            kind := byte;
            mode := LenHi;
          }
        case LenHi =>
          length := byte * 256;
          mode := LenLo;
        case LenLo =>
          length := length + byte;
          if length == 0 || length > MAX_BODY {
            framesRejected := framesRejected + 1;
            mode := ScanMagic0;
            length := 0;
          } else {
            body := [];
            mode := Body;
          }
        case Body =>
          body := body + [byte];
          if |body| == length {
            frames := [Frame(kind, body)];
            body := [];
            framesOk := framesOk + 1;
            mode := ScanMagic0;
            length := 0;
          }
      }
    }

    /** Feed a chunk; the frames completed in it are appended to the output. */
    method FeedChunk(data: seq<Byte>, output: seq<Frame>) returns (produced: nat, out: seq<Frame>)
      requires Sound(Now())
      modifies this
      ensures Sound(Now())
      ensures var r := Feed(old(Now()), data); Now() == r.state && out == output + r.frames && produced == |r.frames|
      ensures framesOk == old(framesOk) + produced
    {
      produced, out := 0, output;
      ghost var start := Now();
      FeedSound(start, data);
      for i := 0 to |data|
        invariant var r := Feed(start, data[..i]); Now() == r.state && out == output + r.frames && produced == |r.frames|
      {
        assert data[..i + 1][..i] == data[..i];
        var frames := TakeByte(data[i]);
        out := out + frames;
        produced := produced + |frames|;
      }
      assert data[..|data|] == data;
    }
  }

  // Message bodies.

  datatype TxEnqueue = TxEnqueue(freqHz: nat, air: seq<Byte>)

  datatype RxIndicate = RxIndicate(
    snrDb: real, rssiDbm: int, cfoHz: int, ratePpm: real, freqHz: nat, sirDb: real, lvlDbfs: real, air: seq<Byte>)

  const HALF16: int := 32768
  const HALF32: int := 2147483648

  predicate AirLengthIsValid(n: nat) {
    MIN_AIR <= n <= MAX_AIR
  }

  /** Conversion to an integer cuts toward zero. */
  function Trunc(x: real): int {
    if x >= 0.0 then x.Floor else -((-x).Floor)
  }

  function SnrToCenti(x: real): int {
    var scaled := x * 100.0;
    if scaled > 32767.0 then 32767 else if scaled < -32768.0 then -32768 else Trunc(scaled)
  }

  function RateToCenti(x: real): int {
    var scaled := x * 100.0;
    if scaled > 2147483647.0 then 2147483647
    else if scaled < -2147483648.0 then -2147483648
    else Trunc(if scaled >= 0.0 then scaled + 0.5 else scaled - 0.5)
  }

  function FromCenti(c: int): real {
    c as real * 0.01
  }

  /** Levels come back less than a hundredth off and never larger in size; out of range they saturate. */
  lemma SnrAccuracy(x: real)
    ensures -HALF16 <= SnrToCenti(x) < HALF16
    ensures -327.68 <= x <= 327.67 ==> -0.01 < FromCenti(SnrToCenti(x)) - x < 0.01
    ensures 0.0 <= x <= 327.67 ==> 0.0 <= FromCenti(SnrToCenti(x)) <= x
    ensures -327.68 <= x <= 0.0 ==> x <= FromCenti(SnrToCenti(x)) <= 0.0
    ensures x > 327.67 ==> SnrToCenti(x) == 32767
    ensures x < -327.68 ==> SnrToCenti(x) == -32768
  {
    var scaled := x * 100.0;
    TruncBounds(scaled);
  }

  lemma TruncBounds(x: real)
    ensures x >= 0.0 ==> x - 1.0 < Trunc(x) as real <= x && Trunc(x) >= 0
    ensures x <= 0.0 ==> x <= Trunc(x) as real < x + 1.0 && Trunc(x) <= 0
  {
  }

  /** The rate is rounded: at most half a hundredth off. */
  lemma RateAccuracy(x: real)
    ensures -HALF32 <= RateToCenti(x) < HALF32
    ensures -21474836.48 <= x <= 21474836.47 ==> -0.005 <= FromCenti(RateToCenti(x)) - x <= 0.005
  {
    var scaled := x * 100.0;
    TruncBounds(if scaled >= 0.0 then scaled + 0.5 else scaled - 0.5);
  }

  function TxBody(m: TxEnqueue): seq<Byte> {
    LeBytes(m.freqHz, TX_META) + m.air
  }

  function DecodeTx(body: seq<Byte>): Option<TxEnqueue> {
    if |body| < TX_META || !AirLengthIsValid(|body| - TX_META) then None
    else Some(TxEnqueue(FromLe(body[..TX_META]), body[TX_META..]))
  }

  function RxMeta(m: RxIndicate): seq<Byte> {
    LeBytes(Unsigned(SnrToCenti(m.snrDb), 2 * HALF16), 2) + LeBytes(Unsigned(m.rssiDbm, 2 * HALF16), 2)
    + LeBytes(Unsigned(m.cfoHz, 2 * HALF32), 4) + LeBytes(Unsigned(RateToCenti(m.ratePpm), 2 * HALF32), 4)
    + LeBytes(m.freqHz, 8)
    + LeBytes(Unsigned(SnrToCenti(m.sirDb), 2 * HALF16), 2) + LeBytes(Unsigned(SnrToCenti(m.lvlDbfs), 2 * HALF16), 2)
  }

  function RxBody(m: RxIndicate): seq<Byte> {
    RxMeta(m) + m.air
  }

  function DecodeRx(body: seq<Byte>): Option<RxIndicate> {
    if |body| < RX_META || !AirLengthIsValid(|body| - RX_META) then None
    else Some(RxIndicate(
      FromCenti(Signed(FromLe(body[0..2]), 2 * HALF16)),
      Signed(FromLe(body[2..4]), 2 * HALF16),
      Signed(FromLe(body[4..8]), 2 * HALF32),
      FromCenti(Signed(FromLe(body[8..12]), 2 * HALF32)),
      FromLe(body[12..20]),
      FromCenti(Signed(FromLe(body[20..22]), 2 * HALF16)),
      FromCenti(Signed(FromLe(body[22..24]), 2 * HALF16)),
      body[RX_META..]))
  }

  /** What comes back of an indication: levels and rate through their fixed-point fields. */
  function Rounded(m: RxIndicate): RxIndicate {
    m.(snrDb := FromCenti(SnrToCenti(m.snrDb)), ratePpm := FromCenti(RateToCenti(m.ratePpm)),
       sirDb := FromCenti(SnrToCenti(m.sirDb)), lvlDbfs := FromCenti(SnrToCenti(m.lvlDbfs)))
  }

  lemma TxRoundTrip(m: TxEnqueue)
    requires AirLengthIsValid(|m.air|) && m.freqHz < Bound(8)
    ensures Encodable(Frame(TX_ENQUEUE, TxBody(m))) && DecodeTx(TxBody(m)) == Some(m)
  {
    hide LeBytes, FromLe, Bound;
    LeRoundTrip(m.freqHz, 8);
    assert TxBody(m)[..TX_META] == LeBytes(m.freqHz, 8) && TxBody(m)[TX_META..] == m.air;
  }

  lemma SignedField(v: int, half: int, n: nat)
    requires half > 0 && -half <= v < half && Bound(n) == 2 * half
    ensures Signed(FromLe(LeBytes(Unsigned(v, 2 * half), n)), 2 * half) == v
  {
    hide LeBytes, FromLe, Bound;
    SignedRoundTrip(v, half);
    LeRoundTrip(Unsigned(v, 2 * half), n);
  }

  lemma RxFields(m: RxIndicate)
    ensures var b := RxBody(m);
            |b| == RX_META + |m.air| && b[RX_META..] == m.air
            && b[0..2] == LeBytes(Unsigned(SnrToCenti(m.snrDb), 2 * HALF16), 2)
            && b[2..4] == LeBytes(Unsigned(m.rssiDbm, 2 * HALF16), 2)
            && b[4..8] == LeBytes(Unsigned(m.cfoHz, 2 * HALF32), 4)
            && b[8..12] == LeBytes(Unsigned(RateToCenti(m.ratePpm), 2 * HALF32), 4)
            && b[12..20] == LeBytes(m.freqHz, 8)
            && b[20..22] == LeBytes(Unsigned(SnrToCenti(m.sirDb), 2 * HALF16), 2)
            && b[22..24] == LeBytes(Unsigned(SnrToCenti(m.lvlDbfs), 2 * HALF16), 2)
  {
    hide LeBytes, Unsigned, SnrToCenti, RateToCenti;
  }

  lemma RxRoundTrip(m: RxIndicate)
    requires AirLengthIsValid(|m.air|) && m.freqHz < Bound(8)
    requires -HALF16 <= m.rssiDbm < HALF16 && -HALF32 <= m.cfoHz < HALF32
    ensures Encodable(Frame(RX_INDICATE, RxBody(m))) && DecodeRx(RxBody(m)) == Some(Rounded(m))
  {
    RxFields(m);
    BoundValues();
    SnrAccuracy(m.snrDb);
    SnrAccuracy(m.sirDb);
    SnrAccuracy(m.lvlDbfs);
    RateAccuracy(m.ratePpm);
    hide LeBytes, FromLe, Bound, Unsigned, Signed, SnrToCenti, RateToCenti, FromCenti, RxBody;
    SignedField(SnrToCenti(m.snrDb), HALF16, 2);
    SignedField(m.rssiDbm, HALF16, 2);
    SignedField(m.cfoHz, HALF32, 4);
    SignedField(RateToCenti(m.ratePpm), HALF32, 4);
    LeRoundTrip(m.freqHz, 8);
    SignedField(SnrToCenti(m.sirDb), HALF16, 2);
    SignedField(SnrToCenti(m.lvlDbfs), HALF16, 2);
  }

  /** A body that decodes is the body of what it decodes to. */
  lemma TxDecodesOnlyItsBody(body: seq<Byte>)
    requires DecodeTx(body).Some?
    ensures TxBody(DecodeTx(body).value) == body
  {
    LeReadBack(body[..TX_META]);
    assert body == body[..TX_META] + body[TX_META..];
  }

  // Buffers.

  method WriteLe(output: array<Byte>, at: nat, value: nat, n: nat)
    requires at + n <= output.Length
    modifies output
    ensures output[..] == old(output[..at]) + LeBytes(value, n) + old(output[at + n..])
  {
    var v := value;
    for k := 0 to n
      invariant output[..at] == old(output[..at]) && output[at + n..] == old(output[at + n..])
      invariant output[at..at + k] + LeBytes(v, n - k) == LeBytes(value, n)
    {
      ghost var done := output[at..at + k];
      output[at + k] := v % 256;
      assert output[at..at + k + 1] == done + [v % 256];
      v := v / 256;
    }
    assert output[..] == output[..at] + output[at..at + n] + output[at + n..];
  }

  /** The frame, or nothing for an empty or oversized body. */
  method EncodeFrame(kind: Byte, body: seq<Byte>) returns (ok: bool, output: seq<Byte>)
    ensures ok == (0 < |body| <= MAX_BODY)
    ensures ok ==> output == Wire(Frame(kind, body))
  {
    if |body| == 0 || |body| > MAX_BODY {
      return false, [];
    }
    var size: nat := |body|;
    output := [MAGIC0, MAGIC1, VERSION, kind, size / 256, size % 256] + body;
    return true, output;
  }

  method EncodeTx(m: TxEnqueue) returns (ok: bool, output: seq<Byte>)
    requires m.freqHz < Bound(8)
    ensures ok == (16 <= |m.air| <= 255)
    ensures ok ==> output == Wire(Frame(TX_ENQUEUE, TxBody(m))) && DecodeTx(TxBody(m)) == Some(m)
  {
    if !AirLengthIsValid(|m.air|) {
      return false, [];
    }
    var meta := new Byte[TX_META](i => 0);
    WriteLe(meta, 0, m.freqHz, TX_META);
    assert meta[..] == LeBytes(m.freqHz, TX_META);
    TxRoundTrip(m);
    ok, output := EncodeFrame(TX_ENQUEUE, meta[..] + m.air);
  }

  /** Write the next field behind what is already there. */
  method NextField(meta: array<Byte>, at: nat, value: nat, n: nat) returns (end: nat)
    requires at + n <= meta.Length
    modifies meta
    ensures end == at + n && meta[..end] == old(meta[..at]) + LeBytes(value, n)
  {
    WriteLe(meta, at, value, n);
    end := at + n;
    assert meta[..end] == meta[..][..end];
  }

  method RxMetaBytes(m: RxIndicate) returns (meta: array<Byte>)
    requires m.freqHz < Bound(8)
    ensures meta[..] == RxMeta(m)
  {
    hide LeBytes, Unsigned, SnrToCenti, RateToCenti, Bound;
    meta := new Byte[RX_META](i => 0);
    assert meta[..0] == [];
    var at := NextField(meta, 0, Unsigned(SnrToCenti(m.snrDb), 2 * HALF16), 2);
    at := NextField(meta, at, Unsigned(m.rssiDbm, 2 * HALF16), 2);
    at := NextField(meta, at, Unsigned(m.cfoHz, 2 * HALF32), 4);
    at := NextField(meta, at, Unsigned(RateToCenti(m.ratePpm), 2 * HALF32), 4);
    at := NextField(meta, at, m.freqHz, 8);
    at := NextField(meta, at, Unsigned(SnrToCenti(m.sirDb), 2 * HALF16), 2);
    at := NextField(meta, at, Unsigned(SnrToCenti(m.lvlDbfs), 2 * HALF16), 2);
    assert meta[..] == meta[..at];
  }

  method EncodeRx(m: RxIndicate) returns (ok: bool, output: seq<Byte>)
    requires m.freqHz < Bound(8)
    requires -HALF16 <= m.rssiDbm < HALF16 && -HALF32 <= m.cfoHz < HALF32
    ensures ok == (16 <= |m.air| <= 255)
    ensures ok ==> output == Wire(Frame(RX_INDICATE, RxBody(m))) && DecodeRx(RxBody(m)) == Some(Rounded(m))
  {
    hide RxMeta, DecodeRx, Rounded, Bound;
    if !AirLengthIsValid(|m.air|) {
      return false, [];
    }
    var meta := RxMetaBytes(m);
    RxRoundTrip(m);
    ok, output := EncodeFrame(RX_INDICATE, meta[..] + m.air);
  }
}
