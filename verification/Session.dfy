/** The phone session: packets from the phone become air frames, air frames
    become packets for the phone, and what one phone sends another receives. */
module Session {
  import opened Wrappers
  import opened LittleEndian
  import opened ProtoWire
  import opened PhoneApi
  import MeshAir
  import Bits
  import Crc
  import Frame
  import FrameCorrection

  /** The key stream of the channel cipher in counter mode is any function of
      packet identity, origin and position; keyOk says whether the cipher accepts the key. */
  datatype Config = Config(node: nat, channelHash: Byte, keyOk: bool, stream: (nat, nat, nat) -> Byte, queueMax: nat)

  const SEQUENCE: nat := 0x1_0000_0000

  /** A number of 32 bits that starts over after the last one. */
  type Sequence = n: nat | n < SEQUENCE

  function Ciphered(c: Config, id: nat, from: nat, text: seq<Byte>): (r: seq<Byte>)
    ensures |r| == |text|
  {
    seq<Byte>(|text|, i requires 0 <= i < |text| => Crc.XorByte(text[i], c.stream(id, from, i)))
  }

  /** The same key stream takes the cipher off again. */
  lemma CipherUndone(c: Config, e: Config, id: nat, from: nat, text: seq<Byte>)
    requires c.stream == e.stream
    ensures Ciphered(e, id, from, Ciphered(c, id, from, text)) == text
  {
    var once := Ciphered(c, id, from, text);
    forall i: nat | i < |text| ensures Ciphered(e, id, from, once)[i] == text[i] {
      Bits.XorTwice(text[i], c.stream(id, from, i));
    }
  }

  // Phone to air.

  /** Blanks the phone left are filled in; a blank identity takes the sequence number. */
  function Prepared(c: Config, seqNo: nat, p: MeshPacket): MeshPacket {
    p.(from := if p.from == 0 then c.node else p.from,
       id := if p.id == 0 then seqNo else p.id,
       hopLimit := if p.hopLimit == 0 then DEFAULT_HOPS else p.hopLimit)
  }

  function AirHeader(c: Config, p: MeshPacket): MeshAir.Header {
    MeshAir.Header(
      if p.to != 0 then p.to else BROADCAST, if p.from != 0 then p.from else c.node, p.id,
      p.hopLimit % 8, (if p.hopStart != 0 then p.hopStart else p.hopLimit) % 8, p.wantAck, p.viaMqtt,
      c.channelHash, p.nextHop % 256, p.relayNode % 256)
  }

  function ToAir(c: Config, p: MeshPacket): Option<MeshAir.Packet> {
    var h := AirHeader(c, p);
    if |p.encrypted| > 0 then (if h.from != 0 && h.id != 0 then Some(MeshAir.Packet(h, p.encrypted)) else None)
    else if p.decoded.None? || !c.keyOk then None
    else
      var cipher := Ciphered(c, h.id, h.from, EncodedData(p.decoded.value));
      if h.from != 0 && h.id != 0 && |cipher| <= MeshAir.MAX_ENCRYPTED then Some(MeshAir.Packet(h, cipher)) else None
  }

  /** The bytes handed to the transmitter, if any. */
  function AirBytes(c: Config, p: MeshPacket): Option<seq<Byte>> {
    match ToAir(c, p)
    case None => None
    case Some(air) =>
      match MeshAir.Packed(air)
      case None => None
      case Some(b) => Some(b)
  }

  // Air to phone.

  function FromAir(c: Config, air: MeshAir.Packet, now: nat): Option<MeshPacket> {
    if !c.keyOk then None
    else
      var h := air.header;
      var p := NO_PACKET.(from := h.from, to := h.to, id := h.id, hopLimit := h.hopLimit, hopStart := h.hopStart,
                          wantAck := h.wantAck, viaMqtt := h.viaMqtt, nextHop := h.nextHop, relayNode := h.relayNode, rxTime := now);
      match DecodedData(Ciphered(c, h.id, h.from, air.encrypted))
      case Some(d) => if d.portnum != 0 then Some(p.(decoded := Some(d))) else Some(p.(encrypted := air.encrypted))
      case None => Some(p.(encrypted := air.encrypted))
  }

  function Received(c: Config, bytes: seq<Byte>, now: nat, snrBits: nat): Option<MeshPacket> {
    match MeshAir.Unpacked(bytes)
    case None => None
    case Some(air) =>
      if |air.encrypted| == 0 then None
      else
        match FromAir(c, air, now)
        case None => None
        case Some(p) => Some(p.(snrBits := snrBits))
  }

  /** The message queued for the phone. */
  function FromRadioPacket(seqNo: nat, p: MeshPacket): seq<Byte> {
    Wires(U32(1, seqNo) + Block(2, EncodedPacket(p)))
  }

  /** Header fields read off the wire are 32-bit words. */
  predicate Words(p: MeshPacket) {
    Word32(p.from) && Word32(p.to) && Word32(p.id)
  }

  /** What the packet's ciphertext, if it brought one, says under the channel key. */
  function Within(c: Config, p: MeshPacket): Option<Data> {
    DecodedData(Ciphered(c, p.id, if p.from != 0 then p.from else c.node, p.encrypted))
  }

  /** The Data that arrives is the packet's own: there is one, on a nonzero port, and the packet
      brought no ciphertext to be sent in its place, or one that says the same. */
  predicate KeepsData(c: Config, p: MeshPacket) {
    p.decoded.Some? && p.decoded.value.portnum != 0 && (p.encrypted == [] || Within(c, p) == p.decoded)
  }

  /** What the receiver learns of a packet besides its content: where to, where from and how far it goes. A
      blank destination means everyone, a blank origin the node that sent it. */
  ghost predicate Arrives(node: nat, p: MeshPacket, r: MeshPacket) {
    && r.to == (if p.to == 0 then 0xFFFF_FFFF else p.to) && r.from == (if p.from == 0 then node else p.from) && r.id == p.id
    && r.hopLimit == p.hopLimit % 8 && r.hopStart == (if p.hopStart == 0 then p.hopLimit else p.hopStart) % 8
    && r.wantAck == p.wantAck && r.viaMqtt == p.viaMqtt
    && r.nextHop == p.nextHop % 256 && r.relayNode == p.relayNode % 256
    && r.channel == 0 && r.rxRssi == 0
  }

  /** The bytes on the air, low byte first: destination, origin, identity, the hop counts and flags, the
      channel's hash, the next hop and the relay. */
  lemma FrameLayout(c: Config, p: MeshPacket, bytes: seq<Byte>)
    requires Word32(c.node) && Words(p) && AirBytes(c, p) == Some(bytes)
    ensures |bytes| >= 16
    ensures FromLe(bytes[0..4]) == if p.to == 0 then 0xFFFF_FFFF else p.to
    ensures FromLe(bytes[4..8]) == if p.from == 0 then c.node else p.from
    ensures FromLe(bytes[8..12]) == p.id
    ensures bytes[12] == p.hopLimit % 8 + (if p.wantAck then 8 else 0) + (if p.viaMqtt then 16 else 0)
                         + 32 * ((if p.hopStart == 0 then p.hopLimit else p.hopStart) % 8)
    ensures bytes[13] == c.channelHash && bytes[14] == p.nextHop % 256 && bytes[15] == p.relayNode % 256
  {
    BoundValues();
    var air := ToAir(c, p).value;
    var h := air.header;
    assert h == AirHeader(c, p) && bytes == MeshAir.PackedHeader(h) + air.encrypted by {
      hide EncodedData, Ciphered, MeshAir.PackedHeader, AirHeader;
    }
    hide EncodedData, Ciphered, AirBytes, ToAir, Bound, LeBytes, FromLe;
    MeshAir.HeaderBytes(h, air.encrypted);
    LeRoundTrip(h.to, 4);
    LeRoundTrip(h.from, 4);
    LeRoundTrip(h.id, 4);
    hide MeshAir.PackedHeader;
  }

  lemma FrameUnpacks(c: Config, p: MeshPacket, bytes: seq<Byte>)
    requires Word32(c.node) && Words(p) && AirBytes(c, p) == Some(bytes)
    ensures MeshAir.Unpacked(bytes) == ToAir(c, p)
  {
    BoundValues();
    hide EncodedData, Ciphered, MeshAir.Packed, MeshAir.Unpacked, Bound;
    MeshAir.PacketRoundTrip(ToAir(c, p).value);
  }

  /** Whatever goes out on the air is received under an accepted key, from the same node with the
      same identity, unless it is empty. */
  lemma FrameSurvivesAir(c: Config, e: Config, p: MeshPacket, bytes: seq<Byte>, now: nat, snrBits: nat)
    requires c.stream == e.stream && Word32(c.node) && Words(p) && AirBytes(c, p) == Some(bytes)
    ensures MeshAir.Unpacked(bytes) == ToAir(c, p)
    ensures Received(e, bytes, now, snrBits).Some? <==> e.keyOk && !(p.encrypted == [] && p.decoded == Some(NO_DATA))
    ensures Received(e, bytes, now, snrBits).Some? ==>
              var r := Received(e, bytes, now, snrBits).value;
              Arrives(c.node, p, r) && r.rxTime == now && r.snrBits == snrBits
  {
    FrameUnpacks(c, p, bytes);
    if p.decoded.Some? { EmptyData(p.decoded.value); }
    hide EncodedData, DecodedData, Ciphered, MeshAir.Packed, MeshAir.Unpacked, Word32;
  }

  /** The Data comes back exactly when the packet keeps it and the receiver's key is accepted. */
  lemma DataSurvivesAir(c: Config, e: Config, p: MeshPacket, bytes: seq<Byte>, now: nat, snrBits: nat)
    requires c.stream == e.stream && Word32(c.node) && PacketWords(p) && AirBytes(c, p) == Some(bytes) && p.decoded.Some?
    ensures Received(e, bytes, now, snrBits).Some? && Received(e, bytes, now, snrBits).value.decoded == p.decoded
       <==> e.keyOk && KeepsData(c, p)
    ensures e.keyOk && KeepsData(c, p) ==>
              var r := Received(e, bytes, now, snrBits).value;
              Arrives(c.node, p, r) && r.decoded == p.decoded && r.encrypted == [] && r.rxTime == now && r.snrBits == snrBits
  {
    FrameSurvivesAir(c, e, p, bytes, now, snrBits);
    var d, h := p.decoded.value, AirHeader(c, p);
    if p.encrypted == [] {
      AirDataFits(c, p);
      DataRoundTrip(d);
      CipherUndone(c, e, h.id, h.from, EncodedData(d));
    } else {
      SameStream(c, e, h.id, h.from, p.encrypted);
    }
    hide EncodedData, DecodedData, Ciphered, MeshAir.Packed, MeshAir.Unpacked, ValidData;
  }

  lemma SameStream(c: Config, e: Config, id: nat, from: nat, text: seq<Byte>)
    requires c.stream == e.stream
    ensures Ciphered(e, id, from, text) == Ciphered(c, id, from, text)
  {
  }

  /** The phone reads the queued packet's Data as it was. */
  lemma PhoneReads(seqNo: nat, p: MeshPacket)
    requires Word32(seqNo) && ValidPacket(p) && Fits(EncodedPacket(p)) && p.decoded.Some? && p.decoded != Some(NO_DATA)
    ensures Parse(FromRadioPacket(seqNo, p)) == Some(U32(1, seqNo) + [Field(2, Bytes(EncodedPacket(p)))])
    ensures DecodedPacket(EncodedPacket(p)) == Some(Normal(p)) && Normal(p).decoded == p.decoded
  {
    PacketRoundTrip(p);
    BoundValues();
    hide Bound, EncodedPacket, DecodedPacket, WellFormed, ValidPacket;
    if EncodedPacket(p) == [] {
      NothingIsWorthless(p);
    }
    var f := Field(2, Bytes(EncodedPacket(p)));
    FieldFits(seqNo, EncodedPacket(p));
    hide Wires, Parse;
    FieldsRoundTrip(U32(1, seqNo) + [f]);
  }

  lemma FieldFits(seqNo: nat, data: seq<Byte>)
    requires Word32(seqNo) && Fits(data)
    ensures AllWellFormed(U32(1, seqNo) + [Field(2, Bytes(data))])
  {
    BoundValues();
    hide Bound;
  }

  /** From one phone to another over the air: a frame damaged within what the
      radio tolerates delivers the same Data exactly when the packet keeps it
      and the receiver's key is accepted. */
  lemma PhoneToPhone(c: Config, e: Config, p: MeshPacket, air: seq<Byte>, sent: Frame.Params, got: Frame.Params, raw: seq<nat>, now: nat, snrBits: nat)
    requires c.stream == e.stream && Word32(c.node) && PacketWords(p) && AirBytes(c, p) == Some(air) && p.decoded.Some?
    requires Frame.ValidParams(sent) && got.sf == sent.sf && got.ldro == sent.ldro && FrameCorrection.FrameTolerated(sent, air, raw)
    ensures var d := Frame.DecodedFrame(got, Frame.Hard(raw));
            && d.header.valid && d.crcOk && d.payload == air
            && (Received(e, d.payload, now, snrBits).Some? && Received(e, d.payload, now, snrBits).value.decoded == p.decoded
                <==> e.keyOk && KeepsData(c, p))
            && (Received(e, d.payload, now, snrBits).Some? ==> Arrives(c.node, p, Received(e, d.payload, now, snrBits).value))
  {
    AirLength(c, p, air);
    DataSurvivesAir(c, e, p, air, now, snrBits);
    FrameSurvivesAir(c, e, p, air, now, snrBits);
    hide Received, AirBytes, KeepsData, PacketWords, Arrives, Frame.DecodedFrame, FrameCorrection.FrameTolerated;
    FrameCorrection.DamagedFrameDelivered(sent, got, air, raw);
  }

  lemma AirLength(c: Config, p: MeshPacket, air: seq<Byte>)
    requires AirBytes(c, p) == Some(air)
    ensures 1 <= |air| <= 255
  {
    hide EncodedData, MeshAir.PackedHeader, Ciphered;
  }

  // Whatever the phone sends parses to 32-bit words.

  ghost predicate FixedFits(fs: seq<Field>) {
    forall i: nat | i < |fs| :: fs[i].value.Fixed32? ==> Word32(fs[i].value.u)
  }

  lemma {:induction false} ParsedFits(bs: seq<Byte>)
    ensures Parse(bs).Some? ==> FixedFits(Parse(bs).value)
    decreases |bs|
  {
    hide ReadVarint;
    if |bs| > 0 && TakeField(bs).Some? {
      BoundValues();
      TakenFits(bs);
      hide Bound, TakeField;
      ParsedFits(TakeField(bs).value.rest);
    }
  }

  lemma TakenFits(bs: seq<Byte>)
    requires TakeField(bs).Some?
    ensures TakeField(bs).value.field.value.Fixed32? ==> Word32(TakeField(bs).value.field.value.u)
  {
    hide ReadVarint, Bound, FromLe;
    var tag := ReadVarint(bs).value;
    BoundValues();
    if tag.v % 8 == 5 && |tag.rest| >= 4 {
      FromLeBelow(tag.rest[..4]);
    }
  }

  predicate DataWords(d: Data) {
    Word32(d.portnum) && Word32(d.dest) && Word32(d.source) && Word32(d.requestId) && Word32(d.replyId)
  }

  lemma {:induction false} ReadDataWords(d: Data, fs: seq<Field>)
    requires DataWords(d) && FixedFits(fs)
    ensures DataWords(ReadData(d, fs))
    decreases |fs|
  {
    if |fs| > 0 {
      assert FixedFits(fs[1..]);
      ReadDataWords(ApplyData(d, fs[0]), fs[1..]);
    }
  }

  lemma DecodedDataWords(bytes: seq<Byte>)
    ensures DecodedData(bytes).Some? ==> DataWords(DecodedData(bytes).value)
  {
    hide Parse, ReadData;
    ParsedFits(bytes);
    if Parse(bytes).Some? { ReadDataWords(NO_DATA, Parse(bytes).value); }
  }

  predicate PacketWords(p: MeshPacket) {
    Words(p) && (p.decoded.Some? ==> DataWords(p.decoded.value))
  }

  lemma {:induction false} ReadPacketWords(o: Option<MeshPacket>, fs: seq<Field>)
    requires FixedFits(fs) && (o.Some? ==> PacketWords(o.value))
    ensures ReadPacket(o, fs).Some? ==> PacketWords(ReadPacket(o, fs).value)
    decreases |fs|
  {
    hide DecodedData;
    if |fs| > 0 {
      DecodedDataWords(AsBytes(fs[0].value));
      assert FixedFits(fs[1..]);
      ReadPacketWords(ApplyPacket(o, fs[0]), fs[1..]);
    }
  }

  lemma DecodedPacketWords(bytes: seq<Byte>)
    ensures DecodedPacket(bytes).Some? ==> PacketWords(DecodedPacket(bytes).value)
  {
    hide Parse, ReadPacket;
    ParsedFits(bytes);
    if Parse(bytes).Some? { ReadPacketWords(Some(NO_PACKET), Parse(bytes).value); }
  }

  lemma {:induction false} ReadToRadioWords(r: Reading, fs: seq<Field>)
    requires r.Got? && r.m.PacketToSend? ==> PacketWords(r.m.packet)
    ensures var n := ReadToRadio(r, fs); n.Got? && n.m.PacketToSend? ==> PacketWords(n.m.packet)
    decreases |fs|
  {
    hide DecodedPacket;
    if |fs| > 0 {
      DecodedPacketWords(AsBytes(fs[0].value));
      ReadToRadioWords(ApplyToRadio(r, fs[0]), fs[1..]);
    }
  }

  lemma ToRadioWords(bytes: seq<Byte>)
    ensures var m := DecodedToRadio(bytes); m.Some? && m.value.PacketToSend? ==> PacketWords(m.value.packet)
  {
    hide Parse, ReadToRadio;
    if Parse(bytes).Some? { ReadToRadioWords(Nothing, Parse(bytes).value); }
  }

  /** Data that made it onto the air is small. */
  lemma AirDataFits(c: Config, p: MeshPacket)
    requires AirBytes(c, p).Some? && p.encrypted == [] && p.decoded.Some?
    ensures |EncodedData(p.decoded.value)| <= MeshAir.MAX_ENCRYPTED && Fits(p.decoded.value.payload)
  {
    BoundValues();
    PayloadInside(p.decoded.value);
    hide EncodedData, Bound;
  }

  lemma PayloadInside(d: Data)
    ensures |d.payload| <= |EncodedData(d)|
  {
    hide WireOf;
    var head, rest := U32(1, d.portnum), Flag(3, d.wantResponse) + (Fix32(4, d.dest) + (Fix32(5, d.source)
      + (Fix32(6, d.requestId) + Fix32(7, d.replyId))));
    hide U32, Flag, Fix32, Wires;
    WiresConcat(head, Block(2, d.payload) + rest);
    WiresConcat(Block(2, d.payload), rest);
    if |d.payload| > 0 { BlockLength(d.payload); }
  }

  lemma BlockLength(data: seq<Byte>)
    requires |data| > 0
    ensures |Wires(Block(2, data))| >= |data|
  {
    hide VarintBytes;
    WireOfOne(Field(2, Bytes(data)));
  }

  /** Queue space, queue size and the packet acknowledged. */
  function StatusMessage(c: Config, seqNo: nat, id: nat): seq<Byte> {
    var free := if c.queueMax > 1 then c.queueMax - 1 else 0;
    Wires(U32(1, seqNo) + Block(11, Wires(U32(2, free) + U32(3, c.queueMax) + U32(4, id))))
  }

  /** A message to the phone: its number, then its body. */
  function Message(seqNo: nat, body: seq<Field>): seq<Byte> {
    Wires(U32(1, seqNo) + body)
  }

  /** The i-th number after n. */
  function Nth(n: nat, i: nat): Sequence {
    (n + i) % SEQUENCE
  }

  /** Messages numbered one after the other, starting over after the last number. */
  function Numbered(seqNo: nat, bodies: seq<seq<Field>>): (r: seq<seq<Byte>>)
    ensures |r| == |bodies|
  {
    if |bodies| == 0 then []
    else Numbered(seqNo, bodies[..|bodies| - 1]) + [Message(Nth(seqNo, |bodies| - 1), bodies[|bodies| - 1])]
  }

  function Replies(config: nat -> seq<seq<Field>>, nonce: nat): seq<seq<Field>> {
    config(nonce) + [U32(7, nonce)]
  }

  lemma {:induction false} NumberedAt(seqNo: nat, bodies: seq<seq<Field>>, i: nat)
    requires i < |bodies|
    ensures Numbered(seqNo, bodies)[i] == Message(Nth(seqNo, i), bodies[i])
  {
    hide Message, Nth;
    if i < |bodies| - 1 { NumberedAt(seqNo, bodies[..|bodies| - 1], i); }
  }

  lemma OneMoreBody(bodies: seq<seq<Field>>, i: nat)
    requires i < |bodies|
    ensures bodies[..i + 1] == bodies[..i] + [bodies[i]]
  {
  }

  lemma RepliesAre(config: nat -> seq<seq<Field>>, nonce: nat)
    ensures Replies(config, nonce) == config(nonce) + [U32(7, nonce)] && |Replies(config, nonce)| == |config(nonce)| + 1
  {
  }

  lemma NumberedNone(seqNo: nat)
    ensures Numbered(seqNo, []) == []
  {
  }

  lemma NumberedStep(seqNo: nat, bodies: seq<seq<Field>>, body: seq<Field>)
    ensures Numbered(seqNo, bodies + [body]) == Numbered(seqNo, bodies) + [Message(Nth(seqNo, |bodies|), body)]
  {
    assert (bodies + [body])[..|bodies|] == bodies;
  }

  lemma NextNumber(n: nat, i: nat)
    ensures (Nth(n, i) + 1) % SEQUENCE == Nth(n, i + 1)
  {
  }

  /** A configuration request is answered: the last message of its replies reads as
      "complete" with the same nonce, numbered behind all the others. */
  lemma ConfigIsCompleted(config: nat -> seq<seq<Field>>, nonce: nat, seqNo: nat)
    requires Word32(nonce)
    ensures var n := |config(nonce)|;
            Parse(Numbered(seqNo, Replies(config, nonce))[n]) == Some(U32(1, Nth(seqNo, n)) + U32(7, nonce))
  {
    var number := Nth(seqNo, |config(nonce)|);
    TwoNumbers(number, nonce);
    NumberedAt(seqNo, Replies(config, nonce), |config(nonce)|);
    hide Wires, Parse, Nth, U32, WellFormed;
    FieldsRoundTrip(U32(1, number) + U32(7, nonce));
  }

  /** The phone reads how many packets may wait, how many more may come, and which packet was taken. */
  lemma StatusReads(c: Config, seqNo: nat, id: nat) returns (body: seq<Byte>)
    requires Word32(seqNo) && Word32(id) && Word32(c.queueMax)
    ensures Parse(StatusMessage(c, seqNo, id)) == Some(U32(1, seqNo) + Block(11, body))
    ensures Parse(body) == Some(U32(2, if c.queueMax == 0 then 0 else c.queueMax - 1) + U32(3, c.queueMax) + U32(4, id))
  {
    var fs := U32(2, if c.queueMax == 0 then 0 else c.queueMax - 1) + U32(3, c.queueMax) + U32(4, id);
    body := Wires(fs);
    StatusIs(c, seqNo, id, fs);
    hide *;
    StatusWellFormed(c, seqNo, id);
    FieldsRoundTrip(fs);
    FieldsRoundTrip(U32(1, seqNo) + Block(11, body));
  }

  lemma StatusIs(c: Config, seqNo: nat, id: nat, fs: seq<Field>)
    requires fs == U32(2, if c.queueMax == 0 then 0 else c.queueMax - 1) + U32(3, c.queueMax) + U32(4, id)
    ensures StatusMessage(c, seqNo, id) == Wires(U32(1, seqNo) + Block(11, Wires(fs)))
  {
    hide Wires, U32;
  }

  lemma StatusWellFormed(c: Config, seqNo: nat, id: nat)
    requires Word32(seqNo) && Word32(id) && Word32(c.queueMax)
    ensures var fs := U32(2, if c.queueMax == 0 then 0 else c.queueMax - 1) + U32(3, c.queueMax) + U32(4, id);
            AllWellFormed(fs) && AllWellFormed(U32(1, seqNo) + Block(11, Wires(fs)))
  {
    var free := if c.queueMax == 0 then 0 else c.queueMax - 1;
    SmallField(1, seqNo);
    SmallField(2, free);
    SmallField(3, c.queueMax);
    SmallField(4, id);
    var fs := U32(2, free) + U32(3, c.queueMax) + U32(4, id);
    BoundValues();
    hide Bound, Wires;
    assert AllWellFormed(fs);
    WiresSize(fs, 0);
  }

  lemma TwoNumbers(a: nat, b: nat)
    requires Word32(a) && Word32(b)
    ensures AllWellFormed(U32(1, a) + U32(7, b))
  {
    SmallField(1, a);
    SmallField(7, b);
    hide WellFormed;
  }

  lemma AirBytesAre(c: Config, p: MeshPacket)
    ensures AirBytes(c, p) == if ToAir(c, p).None? then None else MeshAir.Packed(ToAir(c, p).value)
  {
    hide ToAir, MeshAir.Packed;
  }

  lemma TwoSteps(n: Sequence)
    ensures (n + 1) % SEQUENCE == Nth(n, 1) && ((n + 1) % SEQUENCE + 1) % SEQUENCE == Nth(n, 2) && Nth(n, 0) == n
  {
  }

  class Session {
    const cfg: Config
    /** What the configuration messages for a nonce say, whatever it is. */
    const config: nat -> seq<seq<Field>>
    var fromSeq: Sequence
    var fromQueue: seq<seq<Byte>>
    var txEnqueued: nat
    var rxDelivered: nat

    constructor (cfg: Config, config: nat -> seq<seq<Field>>)
      ensures this.cfg == cfg && this.config == config && fromSeq == 1 && fromQueue == [] && txEnqueued == 0 && rxDelivered == 0
    {
      this.cfg, this.config := cfg, config;
      fromSeq, fromQueue, txEnqueued, rxDelivered := 1, [], 0, 0;
    }

    /** One message for the phone, numbered. */
    method EnqueueFrom(bytes: seq<Byte>)
      modifies `fromSeq, `fromQueue
      ensures fromQueue == old(fromQueue) + [bytes] && fromSeq == (old(fromSeq) + 1) % SEQUENCE
    {
      fromSeq := (fromSeq + 1) % SEQUENCE;
      fromQueue := fromQueue + [bytes];
    }

    /** The next configuration message, behind those of `done`. */
    method EnqueueBody(body: seq<Field>, ghost done: seq<seq<Field>>, ghost start: nat, ghost before: seq<seq<Byte>>)
      requires fromQueue == before + Numbered(start, done) && fromSeq == Nth(start, |done|)
      modifies `fromSeq, `fromQueue
      ensures fromQueue == before + Numbered(start, done + [body]) && fromSeq == Nth(start, |done| + 1)
    {
      hide *;
      NumberedStep(start, done, body);
      NextNumber(start, |done|);
      EnqueueFrom(Message(fromSeq, body));
      assert before + Numbered(start, done) + [Message(Nth(start, |done|), body)]
          == before + (Numbered(start, done) + [Message(Nth(start, |done|), body)]);
    }

    /** The configuration messages in order, and the one that says they are complete. */
    method StartConfig(nonce: nat)
      modifies `fromSeq, `fromQueue
      ensures fromQueue == old(fromQueue) + Numbered(old(fromSeq), Replies(config, nonce))
      ensures fromSeq == Nth(old(fromSeq), |Replies(config, nonce)|)
    {
      var bodies := config(nonce);
      ghost var start, before := fromSeq, fromQueue;
      NumberedNone(start);
      assert Nth(start, 0) == start && before + [] == before && bodies[..0] == [];
      RepliesAre(config, nonce);
      hide *;
      for i := 0 to |bodies|
        invariant fromQueue == before + Numbered(start, bodies[..i]) && fromSeq == Nth(start, i)
      {
        EnqueueBody(bodies[i], bodies[..i], start, before);
        OneMoreBody(bodies, i);
      }
      assert bodies[..|bodies|] == bodies;
      EnqueueBody(U32(7, nonce), bodies, start, before);
    }

    method PopFromRadio() returns (r: Option<seq<Byte>>)
      modifies `fromQueue
      ensures r == if |old(fromQueue)| == 0 then None else Some(old(fromQueue)[0])
      ensures fromQueue == if |old(fromQueue)| == 0 then [] else old(fromQueue)[1..]
    {
      if |fromQueue| == 0 {
        return None;
      }
      r := Some(fromQueue[0]);
      fromQueue := fromQueue[1..];
    }

    /** The queue gained one status message, naming the packet and numbered after any identity it used up. */
    ghost predicate Acknowledged(seqNo: nat, p: MeshPacket, before: seq<seq<Byte>>)
      reads `fromQueue
    {
      var next := if p.id == 0 then (seqNo + 1) % SEQUENCE else seqNo;
      fromQueue == before + [StatusMessage(cfg, next, Prepared(cfg, seqNo, p).id)]
    }

    /** Numbers a packet uses up: one for an identity the phone left blank, one for the acknowledgement. */
    function Used(p: MeshPacket, sent: bool): nat {
      (if p.id == 0 then 1 else 0) + if sent then 1 else 0
    }

    /** Fill in what the phone left blank; a blank identity uses up a number. */
    method FillIn(p: MeshPacket) returns (pkt: MeshPacket)
      modifies `fromSeq
      ensures pkt == Prepared(cfg, old(fromSeq), p)
      ensures fromSeq == if p.id == 0 then (old(fromSeq) + 1) % SEQUENCE else old(fromSeq)
    {
      pkt := p;
      if pkt.from == 0 {
        pkt := pkt.(from := cfg.node);
      }
      if pkt.id == 0 {
        pkt := pkt.(id := fromSeq);
        fromSeq := (fromSeq + 1) % SEQUENCE;
      }
      if pkt.hopLimit == 0 {
        pkt := pkt.(hopLimit := DEFAULT_HOPS);
      }
    }

    /** A packet that can go on the air is handed to the transmitter and
        acknowledged; one that cannot leaves nothing but a used identity. */
    method HandlePacket(p: MeshPacket, txAir: seq<seq<Byte>>) returns (air: seq<seq<Byte>>)
      modifies `fromSeq, `fromQueue, `txEnqueued
      ensures var bytes := AirBytes(cfg, Prepared(cfg, old(fromSeq), p));
              if bytes.Some? then air == txAir + [bytes.value] && txEnqueued == old(txEnqueued) + 1 && Acknowledged(old(fromSeq), p, old(fromQueue))
              else air == txAir && txEnqueued == old(txEnqueued) && fromQueue == old(fromQueue)
      ensures fromSeq == Nth(old(fromSeq), Used(p, |air| > |txAir|))
    {
      TwoSteps(fromSeq);
      hide MeshAir.Packed, ToAir, StatusMessage, Prepared, Nth, AirBytes;
      var pkt := FillIn(p);
      AirBytesAre(cfg, pkt);
      var packet := ToAir(cfg, pkt);
      if packet.None? {
        return txAir;
      }
      var ok, bytes := MeshAir.PackPacket(packet.value);
      if !ok {
        return txAir;
      }
      air := txAir + [bytes];
      txEnqueued := txEnqueued + 1;
      EnqueueFrom(StatusMessage(cfg, fromSeq, pkt.id));
    }

    method HandleToRadio(payload: seq<Byte>, txAir: seq<seq<Byte>>) returns (air: seq<seq<Byte>>)
      modifies this
      ensures var m := DecodedToRadio(payload);
              if m.Some? && m.value.PacketToSend? then
                var bytes := AirBytes(cfg, Prepared(cfg, old(fromSeq), m.value.packet));
                if bytes.Some? then
                  air == txAir + [bytes.value] && txEnqueued == old(txEnqueued) + 1
                  && Acknowledged(old(fromSeq), m.value.packet, old(fromQueue))
                else air == txAir && txEnqueued == old(txEnqueued) && fromQueue == old(fromQueue)
              else air == txAir && txEnqueued == old(txEnqueued)
                   && fromQueue == old(fromQueue) + (if m.Some? && m.value.WantConfig?
                                                     then Numbered(old(fromSeq), Replies(config, m.value.nonce)) else [])
      ensures rxDelivered == old(rxDelivered)
      ensures var m := DecodedToRadio(payload);
              fromSeq == Nth(old(fromSeq), if m.None? then 0
                                           else match m.value
                                                case PacketToSend(p) => Used(p, |air| > |txAir|)
                                                case WantConfig(nonce) => |Replies(config, nonce)|
                                                case _ => 0)
    {
      hide DecodedToRadio;
      air := txAir;
      var m := DecodedToRadio(payload);
      if m.None? {
        return;
      }
      match m.value {
        case WantConfig(nonce) =>
          StartConfig(nonce);
        case Heartbeat =>
        case Disconnect(_) =>
        case PacketToSend(p) =>
          air := HandlePacket(p, txAir);
      }
    }

    method HandleAirFrame(payload: seq<Byte>, now: nat, snrBits: nat)
      modifies `fromSeq, `fromQueue, `rxDelivered
      ensures var r := Received(cfg, payload, now, snrBits);
              if r.Some? then fromQueue == old(fromQueue) + [FromRadioPacket(old(fromSeq), r.value)] && rxDelivered == old(rxDelivered) + 1
              else fromQueue == old(fromQueue) && rxDelivered == old(rxDelivered)
      ensures fromSeq == Nth(old(fromSeq), |fromQueue| - |old(fromQueue)|)
    {
      hide MeshAir.Unpacked, FromAir;
      var air := MeshAir.Unpacked(payload);
      if air.None? || |air.value.encrypted| == 0 {
        return;
      }
      var r := FromAir(cfg, air.value, now);
      if r.None? {
        return;
      }
      EnqueueFrom(FromRadioPacket(fromSeq, r.value.(snrBits := snrBits)));
      rxDelivered := rxDelivered + 1;
    }
  }

  /** Filling in blanks leaves the content alone. */
  lemma PreparedKeeps(c: Config, seqNo: nat, p: MeshPacket)
    requires Word32(c.node) && Word32(seqNo) && PacketWords(p)
    ensures var q := Prepared(c, seqNo, p); PacketWords(q) && q.decoded == p.decoded && q.encrypted == p.encrypted
  {
  }

  /** A packet with Data that the phone sends, once on the air and fed back in,
      comes back with the same Data exactly when it keeps it and the key is accepted. */
  lemma LoopbackDelivers(c: Config, payload: seq<Byte>, seqNo: nat, p: MeshPacket, air: seq<Byte>, now: nat, snrBits: nat)
    requires Word32(c.node) && Word32(seqNo) && DecodedToRadio(payload) == Some(PacketToSend(p)) && p.decoded.Some?
    requires AirBytes(c, Prepared(c, seqNo, p)) == Some(air)
    ensures Received(c, air, now, snrBits).Some? && Received(c, air, now, snrBits).value.decoded == p.decoded
       <==> c.keyOk && KeepsData(c, Prepared(c, seqNo, p))
    ensures p.encrypted == [] ==> c.keyOk
    ensures Received(c, air, now, snrBits).Some? ==>
              Arrives(c.node, p.(id := if p.id == 0 then seqNo else p.id, hopLimit := if p.hopLimit == 0 then 3 else p.hopLimit),
                      Received(c, air, now, snrBits).value)
  {
    ToRadioWords(payload);
    PreparedKeeps(c, seqNo, p);
    if p.encrypted == [] { KeyAccepted(c, Prepared(c, seqNo, p)); }
    PreparedArrives(c, seqNo, p);
    hide DecodedToRadio, Received, AirBytes, KeepsData, Prepared, PacketWords, Arrives;
    DataSurvivesAir(c, c, Prepared(c, seqNo, p), air, now, snrBits);
    FrameSurvivesAir(c, c, Prepared(c, seqNo, p), air, now, snrBits);
  }

  lemma PreparedArrives(c: Config, seqNo: nat, p: MeshPacket)
    ensures forall r: MeshPacket :: Arrives(c.node, Prepared(c, seqNo, p), r) ==>
              Arrives(c.node, p.(id := if p.id == 0 then seqNo else p.id, hopLimit := if p.hopLimit == 0 then 3 else p.hopLimit), r)
  {
  }

  lemma KeyAccepted(c: Config, p: MeshPacket)
    requires AirBytes(c, p).Some? && p.encrypted == []
    ensures c.keyOk
  {
    hide MeshAir.Packed, EncodedData;
  }

  // The phone reads what comes back.

  ghost predicate BytesWithin(fs: seq<Field>, most: nat) {
    forall i: nat | i < |fs| :: fs[i].value.Bytes? ==> |fs[i].value.data| <= most
  }

  lemma {:induction false} ParsedWithin(bs: seq<Byte>)
    ensures Parse(bs).Some? ==> BytesWithin(Parse(bs).value, |bs|)
    decreases |bs|
  {
    hide ReadVarint;
    if |bs| > 0 && TakeField(bs).Some? {
      var f := TakeField(bs).value;
      assert f.field.value.Bytes? ==> |f.field.value.data| <= |bs|;
      hide TakeField;
      ParsedWithin(f.rest);
    }
  }

  lemma {:induction false} ReadDataWithin(d: Data, fs: seq<Field>, most: nat)
    requires |d.payload| <= most && BytesWithin(fs, most)
    ensures |ReadData(d, fs).payload| <= most
    decreases |fs|
  {
    if |fs| > 0 {
      assert BytesWithin(fs[1..], most);
      ReadDataWithin(ApplyData(d, fs[0]), fs[1..], most);
    }
  }

  /** Data that keeps to the air frame is no longer than a frame. */
  lemma KeptDataIsShort(c: Config, p: MeshPacket)
    requires AirBytes(c, p).Some? && KeepsData(c, p)
    ensures |p.decoded.value.payload| <= 255
  {
    hide EncodedData, Parse, ReadData, MeshAir.PackedHeader, Ciphered;
    if p.encrypted == [] {
      AirDataFits(c, p);
      PayloadInside(p.decoded.value);
    } else {
      var h := AirHeader(c, p);
      var text := Ciphered(c, h.id, h.from, p.encrypted);
      assert |text| <= 255;
      ParsedWithin(text);
      ReadDataWithin(NO_DATA, Parse(text).value, |text|);
    }
  }

  lemma DataSize(d: Data)
    requires ValidData(d) && |d.payload| <= 255
    ensures |EncodedData(d)| <= 7 * 275
  {
    DataWellFormed(d);
    WiresSize(DataFields(d), 255);
    hide Wires;
  }

  lemma PacketSize(p: MeshPacket)
    requires ValidPacket(p) && p.decoded.Some? && |EncodedData(p.decoded.value)| <= 7 * 275
    ensures |EncodedPacket(p)| <= 15 * 1945
  {
    hide Wires, EncodedData, ValidPacket, WellFormed, PacketFields;
    PacketWellFormed(p);
    PacketShape(p, 7 * 275);
    WiresSize(PacketFields(p), 7 * 275);
  }

  lemma PacketShape(p: MeshPacket, most: nat)
    requires p.decoded.Some? && |EncodedData(p.decoded.value)| <= most
    ensures |PacketFields(p)| <= 15 && BytesWithin(PacketFields(p), most)
  {
    hide EncodedData;
    assert BytesWithin(HeadFields(p), most) && |HeadFields(p)| <= 3;
    assert BytesWithin(ContentFields(p), most) && |ContentFields(p)| <= 1;
    assert BytesWithin(MiddleFields(p), most) && |MiddleFields(p)| <= 3;
    assert BytesWithin(FlagFields(p), most) && |FlagFields(p)| <= 4;
    assert BytesWithin(TailFields(p), most) && |TailFields(p)| <= 3;
    hide HeadFields, ContentFields, MiddleFields, FlagFields, TailFields;
  }

  /** A received packet with short Data is small enough to be written. */
  lemma ReceivedFits(r: MeshPacket)
    requires Words(r) && r.channel == 0 && r.encrypted == [] && Word32(r.rxTime) && Word32(r.snrBits) && r.rxRssi == 0
    requires Word32(r.hopLimit) && Word32(r.hopStart) && Word32(r.nextHop) && Word32(r.relayNode)
    requires r.decoded.Some? && DataWords(r.decoded.value) && |r.decoded.value.payload| <= 255
    ensures ValidPacket(r) && Fits(EncodedPacket(r))
  {
    BoundValues();
    hide Bound, EncodedData, EncodedPacket;
    DataSize(r.decoded.value);
    PacketSize(r);
  }

  /** The message HandleAirFrame queues parses to its number and to a packet with
      the same Data, whenever the packet keeps it and the key is accepted. */
  lemma LoopbackReachesPhone(c: Config, payload: seq<Byte>, seqNo: Sequence, p: MeshPacket, air: seq<Byte>, now: nat, snrBits: nat, next: Sequence)
    requires Word32(c.node) && Word32(now) && Word32(snrBits)
    requires DecodedToRadio(payload) == Some(PacketToSend(p)) && p.decoded.Some?
    requires AirBytes(c, Prepared(c, seqNo, p)) == Some(air) && c.keyOk && KeepsData(c, Prepared(c, seqNo, p))
    ensures Received(c, air, now, snrBits).Some?
    ensures var r := Received(c, air, now, snrBits).value;
            && Parse(FromRadioPacket(next, r)) == Some(U32(1, next) + [Field(2, Bytes(EncodedPacket(r)))])
            && DecodedPacket(EncodedPacket(r)) == Some(Normal(r)) && Normal(r).decoded == p.decoded
  {
    var q := Prepared(c, seqNo, p);
    ToRadioWords(payload);
    PreparedKeeps(c, seqNo, p);
    KeptDataIsShort(c, q);
    KeptIsSomething(c, q);
    hide DecodedToRadio, Prepared, AirBytes, KeepsData, Received;
    DataSurvivesAir(c, c, q, air, now, snrBits);
    var r := Received(c, air, now, snrBits).value;
    ReceivedFits(r);
    hide ValidPacket, EncodedPacket, Parse, FromRadioPacket, DecodedPacket, Normal, Fits;
    PhoneReads(next, r);
  }

  lemma KeptIsSomething(c: Config, p: MeshPacket)
    requires KeepsData(c, p)
    ensures p.decoded.Some? && p.decoded != Some(NO_DATA)
  {
  }

  // Where the Data does not come back.

  /** A packet body with Data and, after it, ciphertext. */
  function BothFields(d: Data, text: seq<Byte>, id: nat): seq<Field> {
    [Field(4, Bytes(EncodedData(d))), Field(5, Bytes(text)), Field(6, Fixed32(id))]
  }

  function BothPayload(d: Data, text: seq<Byte>, id: nat): seq<Byte> {
    Wires([Field(1, Bytes(Wires(BothFields(d, text, id))))])
  }

  lemma BothAccepted(d: Data, text: seq<Byte>, id: nat)
    requires ValidData(d) && |d.payload| <= 255 && |text| <= 255 && Word32(id)
    ensures DecodedToRadio(BothPayload(d, text, id)) == Some(PacketToSend(NO_PACKET.(decoded := Some(d), encrypted := text, id := id)))
  {
    var fs := BothFields(d, text, id);
    var body := Wires(fs);
    BoundValues();
    DataSize(d);
    DataRoundTrip(d);
    hide EncodedData, DecodedData, Bound;
    assert AllWellFormed(fs);
    WiresSize(fs, 7 * 275);
    FieldsRoundTrip(fs);
    hide Wires, Parse;
    var f := Field(1, Bytes(body));
    assert WellFormed(f);
    OneFieldRead(f);
    BothApplied(d, text, id);
  }

  lemma BothApplied(d: Data, text: seq<Byte>, id: nat)
    requires DecodedData(EncodedData(d)) == Some(d)
    ensures ReadPacket(Some(NO_PACKET), BothFields(d, text, id)) == Some(NO_PACKET.(decoded := Some(d), encrypted := text, id := id))
  {
    hide DecodedData, EncodedData;
    var fs := BothFields(d, text, id);
    var p1 := NO_PACKET.(decoded := Some(d));
    var p2 := p1.(encrypted := text);
    assert ApplyPacket(Some(NO_PACKET), fs[0]) == Some(p1) && ApplyPacket(Some(p1), fs[1]) == Some(p2);
    assert fs[1..][1..] == [fs[2]];
    ReadPacketEnd(p2, [fs[2]], p2.(id := id));
    assert ReadPacket(Some(p1), fs[1..]) == ReadPacket(Some(p2), fs[1..][1..]);
  }

  /** A phone packet with Data d1 and the ciphertext of another Data d2 goes on
      the air as d2, and comes back as d2. */
  lemma CiphertextReplacesData(c: Config, seqNo: Sequence, d1: Data, d2: Data, now: nat, snrBits: nat)
    returns (payload: seq<Byte>, p: MeshPacket, air: seq<Byte>)
    requires Word32(c.node) && c.node != 0 && c.keyOk
    requires ValidData(d1) && |d1.payload| <= 255 && d1.portnum != 0
    requires ValidData(d2) && |EncodedData(d2)| <= MeshAir.MAX_ENCRYPTED && d2.portnum != 0 && d1 != d2
    ensures DecodedToRadio(payload) == Some(PacketToSend(p)) && p.decoded == Some(d1)
    ensures AirBytes(c, Prepared(c, seqNo, p)) == Some(air)
    ensures Received(c, air, now, snrBits).Some? && Received(c, air, now, snrBits).value.decoded == Some(d2)
    ensures !KeepsData(c, Prepared(c, seqNo, p))
  {
    var plain := EncodedData(d2);
    var text := Ciphered(c, 1, c.node, plain);
    payload := BothPayload(d1, text, 1);
    p := NO_PACKET.(decoded := Some(d1), encrypted := text, id := 1);
    BothAccepted(d1, text, 1);
    EmptyData(d2);
    DataRoundTrip(d2);
    CipherUndone(c, c, 1, c.node, plain);
    var q := Prepared(c, seqNo, p);
    hide DecodedToRadio, BothPayload, EncodedData, DecodedData, Ciphered, ValidData;
    air := AirBytes(c, q).value;
    FrameSurvivesAir(c, c, q, air, now, snrBits);
    hide MeshAir.Unpacked, MeshAir.Packed;
  }

  /** For instance: port 1 and port 2, both without payload. */
  lemma PortTwoForPortOne(c: Config, now: nat, snrBits: nat) returns (payload: seq<Byte>, p: MeshPacket, air: seq<Byte>)
    requires Word32(c.node) && c.node != 0 && c.keyOk
    ensures DecodedToRadio(payload) == Some(PacketToSend(p)) && p.decoded == Some(NO_DATA.(portnum := 1))
    ensures AirBytes(c, Prepared(c, 1, p)) == Some(air)
    ensures Received(c, air, now, snrBits).Some? && Received(c, air, now, snrBits).value.decoded == Some(NO_DATA.(portnum := 2))
  {
    var d1, d2 := NO_DATA.(portnum := 1), NO_DATA.(portnum := 2);
    BoundValues();
    assert EncodedData(d2) == WireOf(Field(1, Varint(2))) == [8, 2] by {
      assert VarintBytes(8) == [8] && VarintBytes(2) == [2];
      assert DataFields(d2) == [Field(1, Varint(2))];
    }
    hide EncodedData, DecodedToRadio, AirBytes, Received, Prepared, KeepsData;
    payload, p, air := CiphertextReplacesData(c, 1, d1, d2, now, snrBits);
  }
}
