/** The sixteen-byte header of a mesh frame on the air, and relaying. */
module MeshAir {
  import opened Wrappers
  import opened LittleEndian

  const HEADER: nat := 16
  const MAX_ENCRYPTED: nat := 239

  datatype Header = Header(
    to: nat, from: nat, id: nat, hopLimit: nat, hopStart: nat, wantAck: bool, viaMqtt: bool,
    channel: Byte, nextHop: Byte, relayNode: Byte)

  datatype Packet = Packet(header: Header, encrypted: seq<Byte>)

  /** What sixteen bytes can hold. */
  predicate Fits(h: Header) {
    h.to < Bound(4) && h.from < Bound(4) && h.id < Bound(4) && h.hopLimit < 8 && h.hopStart < 8
  }

  function Bits(b: bool, weight: nat): nat {
    if b then weight else 0
  }

  /** Hop limit in the low three bits, two flags, hop start in the high three. */
  function PackFlags(h: Header): (f: Byte) {
    h.hopLimit % 8 + Bits(h.wantAck, 8) + Bits(h.viaMqtt, 16) + h.hopStart % 8 * 32
  }

  function UnpackFlags(f: Byte, h: Header): Header {
    h.(hopLimit := f % 8, wantAck := f / 8 % 2 == 1, viaMqtt := f / 16 % 2 == 1, hopStart := f / 32)
  }

  lemma FlagsRoundTrip(h: Header, g: Header)
    ensures UnpackFlags(PackFlags(h), g)
         == g.(hopLimit := h.hopLimit % 8, wantAck := h.wantAck, viaMqtt := h.viaMqtt, hopStart := h.hopStart % 8)
  {
    FlagParts(h.hopLimit % 8, Bits(h.wantAck, 1), Bits(h.viaMqtt, 1), h.hopStart % 8);
  }

  lemma FlagParts(l: nat, a: nat, m: nat, s: nat)
    requires l < 8 && a < 2 && m < 2 && s < 8
    ensures var f := l + 8 * a + 16 * m + 32 * s;
            f % 8 == l && f / 8 % 2 == a && f / 16 % 2 == m && f / 32 == s
  {
    var f := l + 8 * a + 16 * m + 32 * s;
    assert f / 8 == a + 2 * m + 4 * s;
    assert f / 16 == m + 2 * s;
  }

  function PackedHeader(h: Header): (b: seq<Byte>)
    ensures |b| == HEADER
  {
    LeBytes(h.to, 4) + LeBytes(h.from, 4) + LeBytes(h.id, 4) + [PackFlags(h), h.channel, h.nextHop, h.relayNode]
  }

  function UnpackedHeader(b: seq<Byte>): Header
    requires |b| >= HEADER
  {
    UnpackFlags(b[12], Header(FromLe(b[0..4]), FromLe(b[4..8]), FromLe(b[8..12]), 0, 0, false, false, b[13], b[14], b[15]))
  }

  /** The frame, unless it has no origin or does not fit the radio. */
  function Packed(p: Packet): Option<seq<Byte>> {
    if p.header.from == 0 || |p.encrypted| > MAX_ENCRYPTED then None else Some(PackedHeader(p.header) + p.encrypted)
  }

  function Unpacked(b: seq<Byte>): Option<Packet> {
    if |b| < HEADER then None
    else
      var h := UnpackedHeader(b);
      if h.from == 0 || |b| - HEADER > MAX_ENCRYPTED then None else Some(Packet(h, b[HEADER..]))
  }

  lemma HeaderBytes(h: Header, rest: seq<Byte>)
    ensures var b := PackedHeader(h) + rest;
            b[0..4] == LeBytes(h.to, 4) && b[4..8] == LeBytes(h.from, 4) && b[8..12] == LeBytes(h.id, 4)
            && b[12] == PackFlags(h) && b[13] == h.channel && b[14] == h.nextHop && b[15] == h.relayNode && b[HEADER..] == rest
  {
    hide LeBytes, PackFlags;
  }

  /** Every packet that can be sent is read back as it was. */
  lemma PacketRoundTrip(p: Packet)
    requires Fits(p.header) && Packed(p).Some?
    ensures Unpacked(Packed(p).value) == Some(p)
  {
    HeaderBytes(p.header, p.encrypted);
    hide LeBytes, FromLe, PackFlags, UnpackFlags, PackedHeader, Bound;
    LeRoundTrip(p.header.to, 4);
    LeRoundTrip(p.header.from, 4);
    LeRoundTrip(p.header.id, 4);
    FlagsRoundTrip(p.header, Header(p.header.to, p.header.from, p.header.id, 0, 0, false, false,
                                    p.header.channel, p.header.nextHop, p.header.relayNode));
    assert p.header.hopLimit % 8 == p.header.hopLimit && p.header.hopStart % 8 == p.header.hopStart;
  }

  // Relaying.

  function NodeByte(node: nat): Byte {
    node % 256
  }

  predicate ShouldRelay(h: Header, us: nat) {
    && h.from != 0 && h.from != us && h.to != us && h.hopLimit != 0 && h.id != 0
    && (h.nextHop == 0 || h.nextHop == NodeByte(us))
  }

  function Relayed(p: Packet, us: nat): Option<Packet> {
    if !ShouldRelay(p.header, us) then None
    else Some(p.(header := p.header.(hopLimit := p.header.hopLimit - 1, relayNode := NodeByte(us))))
  }

  /** A packet handed on along a list of nodes, as far as they relay it. */
  function RelayedBy(p: Packet, nodes: seq<nat>): Option<Packet>
    decreases |nodes|
  {
    if |nodes| == 0 then Some(p)
    else
      match Relayed(p, nodes[0])
      case None => None
      case Some(q) => RelayedBy(q, nodes[1..])
  }

  /** However it travels, a packet is relayed at most as often as its hop limit
      says, keeps its content and addresses, and never passes its origin or destination. */
  lemma {:induction false} RelayIsBounded(p: Packet, nodes: seq<nat>)
    requires RelayedBy(p, nodes).Some?
    ensures var q := RelayedBy(p, nodes).value;
            |nodes| <= p.header.hopLimit && q.header.hopLimit == p.header.hopLimit - |nodes|
            && q.encrypted == p.encrypted && q.header == p.header.(hopLimit := q.header.hopLimit, relayNode := q.header.relayNode)
            && (|nodes| > 0 ==> q.header.relayNode == NodeByte(nodes[|nodes| - 1]))
    ensures forall i: nat | i < |nodes| :: nodes[i] != p.header.from && nodes[i] != p.header.to
    decreases |nodes|
  {
    if |nodes| > 0 {
      RelayIsBounded(Relayed(p, nodes[0]).value, nodes[1..]);
      forall i: nat | i < |nodes| ensures nodes[i] != p.header.from && nodes[i] != p.header.to {
        if i > 0 { assert nodes[1..][i - 1] == nodes[i]; }
      }
    }
  }

  /** A node carries the packet on: not its own, not one for it, and meant for it or for anyone. */
  ghost predicate Carries(h: Header, node: nat) {
    node != h.from && node != h.to && (h.nextHop == 0 || h.nextHop == node % 256)
  }

  /** And it does travel that far: along every list of nodes that may carry it, up to the hop limit. */
  lemma {:induction false} RelayedExactly(p: Packet, nodes: seq<nat>)
    ensures RelayedBy(p, nodes).Some? <==>
            nodes == [] || (p.header.from != 0 && p.header.id != 0 && |nodes| <= p.header.hopLimit
                            && forall i: nat | i < |nodes| :: Carries(p.header, nodes[i]))
    decreases |nodes|
  {
    if |nodes| > 0 && Relayed(p, nodes[0]).Some? {
      var q := Relayed(p, nodes[0]).value;
      RelayedExactly(q, nodes[1..]);
      assert forall i: nat | i < |nodes[1..]| :: nodes[1..][i] == nodes[i + 1] && (Carries(q.header, nodes[1..][i]) <==> Carries(p.header, nodes[i + 1]));
      assert nodes == [nodes[0]] + nodes[1..];
    }
  }

  // Buffers.

  method PackHeader(h: Header, out: array<Byte>)
    requires out.Length >= HEADER
    modifies out
    ensures out[..HEADER] == PackedHeader(h) && out[HEADER..] == old(out[HEADER..])
  {
    hide LeBytes, PackFlags;
    WriteLe32(out, 0, h.to);
    WriteLe32(out, 4, h.from);
    WriteLe32(out, 8, h.id);
    assert out[0..4] == LeBytes(h.to, 4) && out[4..8] == LeBytes(h.from, 4) && out[8..12] == LeBytes(h.id, 4);
    ghost var head := out[..12];
    assert head == out[0..4] + out[4..8] + out[8..12];
    out[12] := PackFlags(h);
    out[13] := h.channel;
    out[14] := h.nextHop;
    out[15] := h.relayNode;
    assert out[..HEADER] == head + [out[12], out[13], out[14], out[15]];
  }

  method WriteLe32(out: array<Byte>, at: nat, v: nat)
    requires at + 4 <= out.Length
    modifies out
    ensures out[at..at + 4] == LeBytes(v, 4)
    ensures forall i: nat | i < out.Length && !(at <= i < at + 4) :: out[i] == old(out[i])
  {
    out[at] := v % 256;
    out[at + 1] := v / 256 % 256;
    out[at + 2] := v / 256 / 256 % 256;
    out[at + 3] := v / 256 / 256 / 256 % 256;
    LeFour(v);
  }

  lemma LeFour(v: nat)
    ensures LeBytes(v, 4) == [v % 256, v / 256 % 256, v / 256 / 256 % 256, v / 256 / 256 / 256 % 256]
  {
    assert LeBytes(v, 4) == [v % 256] + LeBytes(v / 256, 3);
    assert LeBytes(v / 256, 3) == [v / 256 % 256] + LeBytes(v / 256 / 256, 2);
    assert LeBytes(v / 256 / 256, 2) == [v / 256 / 256 % 256] + LeBytes(v / 256 / 256 / 256, 1);
    assert LeBytes(v / 256 / 256 / 256, 1) == [v / 256 / 256 / 256 % 256] + LeBytes(v / 256 / 256 / 256 / 256, 0);
  }

  method PackPacket(p: Packet) returns (ok: bool, out: seq<Byte>)
    ensures Packed(p) == if ok then Some(out) else None
    ensures ok == (p.header.from != 0 && |p.encrypted| <= 239)
  {
    if p.header.from == 0 || |p.encrypted| > MAX_ENCRYPTED {
      return false, [];
    }
    var buffer := new Byte[HEADER](i => 0);
    PackHeader(p.header, buffer);
    assert buffer[..] == buffer[..HEADER];
    return true, buffer[..] + p.encrypted;
  }
}
