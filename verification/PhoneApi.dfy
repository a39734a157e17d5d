/** The phone's messages: how the bridge writes them field by field, leaving out
    defaults, and how it reads them back. */
module PhoneApi {
  import opened Wrappers
  import opened LittleEndian
  import opened ProtoWire

  const BROADCAST: nat := 0xFFFF_FFFF
  const DEFAULT_HOPS: nat := 3

  datatype Data = Data(
    portnum: nat, payload: seq<Byte>, wantResponse: bool, dest: nat, source: nat, requestId: nat, replyId: nat)

  const NO_DATA := Data(0, [], false, 0, 0, 0, 0)

  /** `snrBits` is the bit pattern of the single-precision SNR. */
  datatype MeshPacket = MeshPacket(
    from: nat, to: nat, channel: nat, decoded: Option<Data>, encrypted: seq<Byte>, id: nat, rxTime: nat, snrBits: nat,
    hopLimit: nat, wantAck: bool, rxRssi: nat, viaMqtt: bool, hopStart: nat, nextHop: nat, relayNode: nat)

  const NO_PACKET := MeshPacket(0, BROADCAST, 0, None, [], 0, 0, 0, DEFAULT_HOPS, false, 0, false, 0, 0, 0)

  predicate Word32(v: nat) {
    v < 0x1_0000_0000
  }

  /** A byte string whose length a 64-bit size can hold. */
  predicate Fits(bytes: seq<Byte>) {
    |bytes| < Bound(8)
  }

  predicate ValidData(d: Data) {
    && Word32(d.portnum) && Word32(d.dest) && Word32(d.source) && Word32(d.requestId) && Word32(d.replyId)
    && Fits(d.payload)
  }

  predicate ValidPacket(p: MeshPacket) {
    && Word32(p.from) && Word32(p.to) && Word32(p.channel) && Word32(p.id) && Word32(p.rxTime) && Word32(p.snrBits)
    && Word32(p.hopLimit) && Word32(p.rxRssi) && Word32(p.hopStart) && Word32(p.nextHop) && Word32(p.relayNode)
    && Fits(p.encrypted)
    && (p.decoded.Some? ==> ValidData(p.decoded.value) && Fits(EncodedData(p.decoded.value)))
  }

  // Writers leave defaults out.

  function U32(number: nat, v: nat): seq<Field> {
    if v == 0 then [] else [Field(number, Varint(v))]
  }

  function Flag(number: nat, v: bool): seq<Field> {
    if v then [Field(number, Varint(1))] else []
  }

  function Fix32(number: nat, v: nat): seq<Field> {
    if v == 0 then [] else [Field(number, Fixed32(v))]
  }

  const MINUS_ZERO: nat := 0x8000_0000

  /** A float equal to zero, minus zero included, is left out. */
  function Float(number: nat, bits: nat): seq<Field> {
    if bits == 0 || bits == MINUS_ZERO then [] else [Field(number, Fixed32(bits))]
  }

  function Block(number: nat, data: seq<Byte>): seq<Field> {
    if |data| == 0 then [] else [Field(number, Bytes(data))]
  }

  function DataFields(d: Data): seq<Field> {
    U32(1, d.portnum) + (Block(2, d.payload) + (Flag(3, d.wantResponse) + (Fix32(4, d.dest) + (Fix32(5, d.source)
    + (Fix32(6, d.requestId) + Fix32(7, d.replyId))))))
  }

  function EncodedData(d: Data): seq<Byte> {
    Wires(DataFields(d))
  }

  // Reading: every field is assigned as it comes.

  function ApplyData(d: Data, f: Field): Data {
    match f.number
    case 1 => d.(portnum := AsVarint(f.value) % 0x1_0000_0000)
    case 2 => d.(payload := AsBytes(f.value))
    case 3 => d.(wantResponse := AsVarint(f.value) != 0)
    case 4 => d.(dest := AsFixed32(f.value))
    case 5 => d.(source := AsFixed32(f.value))
    case 6 => d.(requestId := AsFixed32(f.value))
    case 7 => d.(replyId := AsFixed32(f.value))
    case _ => d
  }

  function ReadData(d: Data, fs: seq<Field>): Data
    decreases |fs|
  {
    if |fs| == 0 then d else ReadData(ApplyData(d, fs[0]), fs[1..])
  }

  function DecodedData(bytes: seq<Byte>): Option<Data> {
    match Parse(bytes)
    case None => None
    case Some(fs) => Some(ReadData(NO_DATA, fs))
  }

  lemma {:induction false} ReadDataConcat(d: Data, a: seq<Field>, b: seq<Field>)
    ensures ReadData(d, a + b) == ReadData(ReadData(d, a), b)
    decreases |a|
  {
    if |a| == 0 {
      assert a + b == b;
    } else {
      assert (a + b)[1..] == a[1..] + b;
      ReadDataConcat(ApplyData(d, a[0]), a[1..], b);
    }
  }

  lemma ReadDataOne(d: Data, f: Field)
    ensures ReadData(d, [f]) == ApplyData(d, f) && ReadData(d, []) == d
  {
    assert [f][1..] == [];
  }

  /** Fields written one after the other are read one after the other. */
  lemma ReadDataStep(d: Data, a: seq<Field>, rest: seq<Field>, d': Data)
    requires |a| <= 1 && d' == if |a| == 0 then d else ApplyData(d, a[0])
    ensures ReadData(d, a + rest) == ReadData(d', rest)
  {
    ReadDataConcat(d, a, rest);
    if |a| == 1 {
      assert a == [a[0]];
      ReadDataOne(d, a[0]);
    }
  }

  lemma DataReadsHead(d: Data, rest: seq<Field>)
    requires ValidData(d)
    ensures ReadData(NO_DATA, U32(1, d.portnum) + (Block(2, d.payload) + (Flag(3, d.wantResponse) + rest)))
         == ReadData(NO_DATA.(portnum := d.portnum, payload := d.payload, wantResponse := d.wantResponse), rest)
  {
    hide ReadData;
    var d1 := NO_DATA.(portnum := d.portnum);
    var d2 := d1.(payload := d.payload);
    ReadDataStep(NO_DATA, U32(1, d.portnum), Block(2, d.payload) + (Flag(3, d.wantResponse) + rest), d1);
    ReadDataStep(d1, Block(2, d.payload), Flag(3, d.wantResponse) + rest, d2);
    ReadDataStep(d2, Flag(3, d.wantResponse), rest, d2.(wantResponse := d.wantResponse));
  }

  lemma DataReadsTail(d: Data)
    requires ValidData(d)
    ensures ReadData(d.(dest := 0, source := 0, requestId := 0, replyId := 0),
                     Fix32(4, d.dest) + (Fix32(5, d.source) + (Fix32(6, d.requestId) + Fix32(7, d.replyId)))) == d
  {
    hide ReadData;
    var d3 := d.(dest := 0, source := 0, requestId := 0, replyId := 0);
    var d4 := d3.(dest := d.dest);
    var d5 := d4.(source := d.source);
    var d6 := d5.(requestId := d.requestId);
    var f7 := Fix32(7, d.replyId);
    ReadDataStep(d3, Fix32(4, d.dest), Fix32(5, d.source) + (Fix32(6, d.requestId) + f7), d4);
    ReadDataStep(d4, Fix32(5, d.source), Fix32(6, d.requestId) + f7, d5);
    ReadDataStep(d5, Fix32(6, d.requestId), f7, d6);
    ReadDataStep(d6, f7, [], d);
    assert f7 + [] == f7;
    ReadDataOne(d, Field(0, Varint(0)));
  }

  lemma DataReads(d: Data)
    requires ValidData(d)
    ensures ReadData(NO_DATA, DataFields(d)) == d
  {
    hide ReadData, U32, Block, Flag, Fix32;
    DataReadsHead(d, Fix32(4, d.dest) + (Fix32(5, d.source) + (Fix32(6, d.requestId) + Fix32(7, d.replyId))));
    DataReadsTail(d);
  }

  ghost predicate AllWellFormed(fs: seq<Field>) {
    forall i: nat | i < |fs| :: WellFormed(fs[i])
  }

  lemma WellFormedJoin(a: seq<Field>, b: seq<Field>)
    requires AllWellFormed(a) && AllWellFormed(b)
    ensures AllWellFormed(a + b)
  {
  }

  lemma DataWellFormed(d: Data)
    requires ValidData(d)
    ensures AllWellFormed(DataFields(d))
  {
    BoundValues();
    hide Bound;
  }

  /** Every Data message comes back as it was. */
  lemma DataRoundTrip(d: Data)
    requires ValidData(d)
    ensures DecodedData(EncodedData(d)) == Some(d)
  {
    DataWellFormed(d);
    hide WellFormed, DataFields, ReadData, Wires, Parse;
    FieldsRoundTrip(DataFields(d));
    DataReads(d);
  }

  lemma EmptyData(d: Data)
    ensures EncodedData(d) == [] <==> d == NO_DATA
  {
    hide WireOf;
    if |DataFields(d)| > 0 {
      FieldNotEmpty(DataFields(d)[0]);
    }
  }

  lemma FieldNotEmpty(f: Field)
    ensures |WireOf(f)| > 0
  {
    hide VarintBytes, ContentOf;
  }

  // Mesh packets.

  function HeadFields(p: MeshPacket): seq<Field> {
    Fix32(1, p.from) + (Fix32(2, p.to) + U32(3, p.channel))
  }

  /** The Data when there is one, else the ciphertext; an empty one is not written. */
  function ContentFields(p: MeshPacket): seq<Field> {
    if p.decoded.Some? then Block(4, EncodedData(p.decoded.value)) else Block(5, p.encrypted)
  }

  function MiddleFields(p: MeshPacket): seq<Field> {
    Fix32(6, p.id) + (Fix32(7, p.rxTime) + Float(8, p.snrBits))
  }

  function FlagFields(p: MeshPacket): seq<Field> {
    U32(9, p.hopLimit) + (Flag(10, p.wantAck) + (U32(12, p.rxRssi) + Flag(14, p.viaMqtt)))
  }

  function TailFields(p: MeshPacket): seq<Field> {
    U32(15, p.hopStart) + (U32(18, p.nextHop) + U32(19, p.relayNode))
  }

  function PacketFields(p: MeshPacket): seq<Field> {
    HeadFields(p) + (ContentFields(p) + (MiddleFields(p) + (FlagFields(p) + TailFields(p))))
  }

  function EncodedPacket(p: MeshPacket): seq<Byte> {
    Wires(PacketFields(p))
  }

  function ApplyPacket(o: Option<MeshPacket>, f: Field): Option<MeshPacket> {
    match o
    case None => None
    case Some(p) =>
      match f.number
      case 1 => Some(p.(from := AsFixed32(f.value)))
      case 2 => Some(p.(to := AsFixed32(f.value)))
      case 3 => Some(p.(channel := AsVarint(f.value) % 0x1_0000_0000))
      case 4 =>
        (match DecodedData(AsBytes(f.value))
         case None => None
         case Some(d) => Some(p.(decoded := Some(d))))
      case 5 => Some(p.(encrypted := AsBytes(f.value)))
      case 6 => Some(p.(id := AsFixed32(f.value)))
      case 7 => Some(p.(rxTime := AsFixed32(f.value)))
      case 8 => Some(p.(snrBits := AsFixed32(f.value)))
      case 9 => Some(p.(hopLimit := AsVarint(f.value) % 0x1_0000_0000))
      case 10 => Some(p.(wantAck := AsVarint(f.value) != 0))
      case 12 => Some(p.(rxRssi := AsVarint(f.value) % 0x1_0000_0000))
      case 14 => Some(p.(viaMqtt := AsVarint(f.value) != 0))
      case 15 => Some(p.(hopStart := AsVarint(f.value) % 0x1_0000_0000))
      case 18 => Some(p.(nextHop := AsVarint(f.value) % 0x1_0000_0000))
      case 19 => Some(p.(relayNode := AsVarint(f.value) % 0x1_0000_0000))
      case _ => Some(p)
  }

  function ReadPacket(o: Option<MeshPacket>, fs: seq<Field>): Option<MeshPacket>
    decreases |fs|
  {
    if |fs| == 0 then o else ReadPacket(ApplyPacket(o, fs[0]), fs[1..])
  }

  /** A packet with neither origin, identity nor content is refused. */
  predicate Worth(p: MeshPacket) {
    p.from != 0 || p.id != 0 || p.decoded.Some? || |p.encrypted| > 0
  }

  function DecodedPacket(bytes: seq<Byte>): Option<MeshPacket> {
    match Parse(bytes)
    case None => None
    case Some(fs) =>
      match ReadPacket(Some(NO_PACKET), fs)
      case None => None
      case Some(p) => if Worth(p) then Some(p) else None
  }

  /** What a packet comes back as: zero fields take the reader's defaults, an
      empty Data is dropped, ciphertext is dropped beside Data, and minus zero loses its sign. */
  function Normal(p: MeshPacket): MeshPacket {
    p.(to := if p.to == 0 then BROADCAST else p.to,
       hopLimit := if p.hopLimit == 0 then DEFAULT_HOPS else p.hopLimit,
       decoded := if p.decoded == Some(NO_DATA) then None else p.decoded,
       encrypted := if p.decoded.Some? then [] else p.encrypted,
       snrBits := if p.snrBits == MINUS_ZERO then 0 else p.snrBits)
  }

  lemma {:induction false} ReadPacketConcat(o: Option<MeshPacket>, a: seq<Field>, b: seq<Field>)
    ensures ReadPacket(o, a + b) == ReadPacket(ReadPacket(o, a), b)
    decreases |a|
  {
    hide ApplyPacket;
    if |a| == 0 {
      assert a + b == b;
    } else {
      assert (a + b)[1..] == a[1..] + b;
      ReadPacketConcat(ApplyPacket(o, a[0]), a[1..], b);
    }
  }

  lemma ReadPacketStep(p: MeshPacket, a: seq<Field>, rest: seq<Field>, p': MeshPacket)
    requires |a| <= 1 && Some(p') == if |a| == 0 then Some(p) else ApplyPacket(Some(p), a[0])
    ensures ReadPacket(Some(p), a + rest) == ReadPacket(Some(p'), rest)
  {
    hide ApplyPacket;
    ReadPacketConcat(Some(p), a, rest);
    if |a| == 1 {
      assert a == [a[0]] && [a[0]][1..] == [];
    }
  }

  lemma ReadPacketEnd(p: MeshPacket, a: seq<Field>, p': MeshPacket)
    requires |a| <= 1 && Some(p') == if |a| == 0 then Some(p) else ApplyPacket(Some(p), a[0])
    ensures ReadPacket(Some(p), a) == Some(p')
  {
    hide ApplyPacket;
    if |a| == 1 {
      assert a == [a[0]] && [a[0]][1..] == [];
    }
  }

  lemma HeadReads(p: MeshPacket)
    requires ValidPacket(p)
    ensures ReadPacket(Some(NO_PACKET), HeadFields(p))
         == Some(NO_PACKET.(from := p.from, to := Normal(p).to, channel := p.channel))
  {
    hide ReadPacket, DecodedData;
    var p1 := NO_PACKET.(from := p.from);
    var p2 := p1.(to := Normal(p).to);
    ReadPacketStep(NO_PACKET, Fix32(1, p.from), Fix32(2, p.to) + U32(3, p.channel), p1);
    ReadPacketStep(p1, Fix32(2, p.to), U32(3, p.channel), p2);
    ReadPacketEnd(p2, U32(3, p.channel), p2.(channel := p.channel));
  }

  lemma ContentReads(s: MeshPacket, p: MeshPacket)
    requires ValidPacket(p) && s.decoded == None && s.encrypted == []
    ensures ReadPacket(Some(s), ContentFields(p)) == Some(s.(decoded := Normal(p).decoded, encrypted := Normal(p).encrypted))
  {
    hide ReadPacket, DecodedData, EncodedData, WellFormed;
    if p.decoded.Some? {
      DataRoundTrip(p.decoded.value);
      EmptyData(p.decoded.value);
    }
    ReadPacketEnd(s, ContentFields(p), s.(decoded := Normal(p).decoded, encrypted := Normal(p).encrypted));
  }

  lemma MiddleReads(s: MeshPacket, p: MeshPacket)
    requires ValidPacket(p) && s.id == 0 && s.rxTime == 0 && s.snrBits == 0
    ensures ReadPacket(Some(s), MiddleFields(p)) == Some(s.(id := p.id, rxTime := p.rxTime, snrBits := Normal(p).snrBits))
  {
    hide ReadPacket, DecodedData, EncodedData;
    var s1 := s.(id := p.id);
    var s2 := s1.(rxTime := p.rxTime);
    ReadPacketStep(s, Fix32(6, p.id), Fix32(7, p.rxTime) + Float(8, p.snrBits), s1);
    ReadPacketStep(s1, Fix32(7, p.rxTime), Float(8, p.snrBits), s2);
    ReadPacketEnd(s2, Float(8, p.snrBits), s2.(snrBits := Normal(p).snrBits));
  }

  lemma FlagsRead(s: MeshPacket, p: MeshPacket)
    requires ValidPacket(p) && s.hopLimit == DEFAULT_HOPS && !s.wantAck && s.rxRssi == 0 && !s.viaMqtt
    ensures ReadPacket(Some(s), FlagFields(p))
         == Some(s.(hopLimit := Normal(p).hopLimit, wantAck := p.wantAck, rxRssi := p.rxRssi, viaMqtt := p.viaMqtt))
  {
    hide ReadPacket, DecodedData, EncodedData;
    var s1 := s.(hopLimit := Normal(p).hopLimit);
    var s2 := s1.(wantAck := p.wantAck);
    var s3 := s2.(rxRssi := p.rxRssi);
    var f4 := Flag(14, p.viaMqtt);
    var f3 := U32(12, p.rxRssi) + f4;
    ReadPacketStep(s, U32(9, p.hopLimit), Flag(10, p.wantAck) + f3, s1);
    ReadPacketStep(s1, Flag(10, p.wantAck), f3, s2);
    ReadPacketStep(s2, U32(12, p.rxRssi), f4, s3);
    ReadPacketEnd(s3, f4, s3.(viaMqtt := p.viaMqtt));
  }

  lemma TailReads(s: MeshPacket, p: MeshPacket)
    requires ValidPacket(p) && s.hopStart == 0 && s.nextHop == 0 && s.relayNode == 0
    ensures ReadPacket(Some(s), TailFields(p)) == Some(s.(hopStart := p.hopStart, nextHop := p.nextHop, relayNode := p.relayNode))
  {
    hide ReadPacket, DecodedData, EncodedData;
    var s1 := s.(hopStart := p.hopStart);
    var s2 := s1.(nextHop := p.nextHop);
    ReadPacketStep(s, U32(15, p.hopStart), U32(18, p.nextHop) + U32(19, p.relayNode), s1);
    ReadPacketStep(s1, U32(18, p.nextHop), U32(19, p.relayNode), s2);
    ReadPacketEnd(s2, U32(19, p.relayNode), s2.(relayNode := p.relayNode));
  }

  lemma PacketReads(p: MeshPacket)
    requires ValidPacket(p)
    ensures ReadPacket(Some(NO_PACKET), PacketFields(p)) == Some(Normal(p))
  {
    hide ReadPacket, HeadFields, ContentFields, MiddleFields, FlagFields, TailFields;
    var h, c, m, f, t := HeadFields(p), ContentFields(p), MiddleFields(p), FlagFields(p), TailFields(p);
    var s1 := NO_PACKET.(from := p.from, to := Normal(p).to, channel := p.channel);
    var s2 := s1.(decoded := Normal(p).decoded, encrypted := Normal(p).encrypted);
    var s3 := s2.(id := p.id, rxTime := p.rxTime, snrBits := Normal(p).snrBits);
    var s4 := s3.(hopLimit := Normal(p).hopLimit, wantAck := p.wantAck, rxRssi := p.rxRssi, viaMqtt := p.viaMqtt);
    HeadReads(p);
    ContentReads(s1, p);
    MiddleReads(s2, p);
    FlagsRead(s3, p);
    TailReads(s4, p);
    ReadPacketConcat(Some(NO_PACKET), h, c + (m + (f + t)));
    ReadPacketConcat(Some(s1), c, m + (f + t));
    ReadPacketConcat(Some(s2), m, f + t);
    ReadPacketConcat(Some(s3), f, t);
  }

  lemma PacketWellFormed(p: MeshPacket)
    requires ValidPacket(p)
    ensures AllWellFormed(PacketFields(p))
  {
    PartsWellFormed(p);
    hide Bound, EncodedData, HeadFields, ContentFields, MiddleFields, FlagFields, TailFields, AllWellFormed;
    WellFormedJoin(FlagFields(p), TailFields(p));
    WellFormedJoin(MiddleFields(p), FlagFields(p) + TailFields(p));
    WellFormedJoin(ContentFields(p), MiddleFields(p) + (FlagFields(p) + TailFields(p)));
    WellFormedJoin(HeadFields(p), ContentFields(p) + (MiddleFields(p) + (FlagFields(p) + TailFields(p))));
  }

  lemma PartsWellFormed(p: MeshPacket)
    requires ValidPacket(p)
    ensures AllWellFormed(HeadFields(p)) && AllWellFormed(ContentFields(p)) && AllWellFormed(MiddleFields(p))
    ensures AllWellFormed(FlagFields(p)) && AllWellFormed(TailFields(p))
  {
    BoundValues();
    hide Bound, EncodedData;
  }

  /** A packet comes back in its normal form exactly when that form is worth anything; otherwise it is refused. */
  lemma PacketRoundTrip(p: MeshPacket)
    requires ValidPacket(p)
    ensures DecodedPacket(EncodedPacket(p)) == if Worth(Normal(p)) then Some(Normal(p)) else None
  {
    PacketWellFormed(p);
    hide WellFormed, PacketFields, ReadPacket, Wires, Parse, Normal;
    FieldsRoundTrip(PacketFields(p));
    PacketReads(p);
  }

  // Messages from the phone.

  datatype ToRadio = PacketToSend(packet: MeshPacket) | WantConfig(nonce: nat) | Disconnect(on: bool) | Heartbeat

  function ToRadioFields(m: ToRadio): seq<Field> {
    match m
    case PacketToSend(p) => Block(1, EncodedPacket(p))
    case WantConfig(nonce) => U32(3, nonce)
    case Disconnect(_) => Flag(4, true)
    case Heartbeat => [Field(7, Bytes([]))]
  }

  function EncodedToRadio(m: ToRadio): seq<Byte> {
    Wires(ToRadioFields(m))
  }

  /** The last known field decides the kind; a bad packet spoils the message. */
  datatype Reading = Bad | Nothing | Got(m: ToRadio)

  function ApplyToRadio(r: Reading, f: Field): Reading {
    if r.Bad? then Bad
    else
      match f.number
      case 1 =>
        (match DecodedPacket(AsBytes(f.value))
         case None => Bad
         case Some(p) => Got(PacketToSend(p)))
      case 3 => Got(WantConfig(AsVarint(f.value) % 0x1_0000_0000))
      case 4 => Got(Disconnect(AsVarint(f.value) != 0))
      case 7 => Got(Heartbeat)
      case _ => r
  }

  function ReadToRadio(r: Reading, fs: seq<Field>): Reading
    decreases |fs|
  {
    if |fs| == 0 then r else ReadToRadio(ApplyToRadio(r, fs[0]), fs[1..])
  }

  function DecodedToRadio(bytes: seq<Byte>): Option<ToRadio> {
    match Parse(bytes)
    case None => None
    case Some(fs) =>
      match ReadToRadio(Nothing, fs)
      case Got(m) => Some(m)
      case _ => None
  }

  lemma OneFieldRead(f: Field)
    requires WellFormed(f)
    ensures Parse(Wires([f])) == Some([f]) && ReadToRadio(Nothing, [f]) == ApplyToRadio(Nothing, f)
  {
    hide WellFormed, Wires, Parse, ApplyToRadio;
    FieldsRoundTrip([f]);
    assert [f][1..] == [];
  }

  lemma PacketToRadio(p: MeshPacket)
    requires ValidPacket(p) && Fits(EncodedPacket(p))
    ensures DecodedToRadio(EncodedToRadio(PacketToSend(p))) == if Worth(Normal(p)) then Some(PacketToSend(Normal(p))) else None
  {
    PacketRoundTrip(p);
    hide Normal, EncodedPacket, DecodedPacket, Worth;
    if EncodedPacket(p) == [] {
      NothingIsWorthless(p);
    } else {
      var f := Field(1, Bytes(EncodedPacket(p)));
      assert WellFormed(f);
      hide Parse, Wires, ReadToRadio;
      OneFieldRead(f);
    }
  }

  /** A configuration request for nonce zero is written as nothing, so it does not come back;
      a packet comes back in normal form when that is worth anything. */
  lemma ToRadioRoundTrip(m: ToRadio)
    requires m.PacketToSend? ==> ValidPacket(m.packet) && Fits(EncodedPacket(m.packet))
    requires m.WantConfig? ==> Word32(m.nonce)
    ensures DecodedToRadio(EncodedToRadio(m)) ==
      match m
      case PacketToSend(p) => if Worth(Normal(p)) then Some(PacketToSend(Normal(p))) else None
      case WantConfig(nonce) => if nonce == 0 then None else Some(m)
      case Disconnect(_) => Some(Disconnect(true))
      case Heartbeat => Some(m)
  {
    hide Normal, Worth, EncodedPacket, DecodedPacket, DecodedToRadio, WellFormed, Wires;
    match m {
      case PacketToSend(p) => PacketToRadio(p);
      case WantConfig(nonce) => ConfigToRadio(nonce);
      case Disconnect(on) =>
        SmallField(4, 1);
        OneFieldKind(Field(4, Varint(1)), Disconnect(true));
      case Heartbeat =>
        SmallField(7, 0);
        OneFieldKind(Field(7, Bytes([])), Heartbeat);
    }
  }

  lemma OneFieldKind(f: Field, m: ToRadio)
    requires WellFormed(f) && ApplyToRadio(Nothing, f) == Got(m)
    ensures DecodedToRadio(Wires([f])) == Some(m)
  {
    hide WellFormed, Wires, Parse, ApplyToRadio, ReadToRadio;
    OneFieldRead(f);
  }

  lemma SmallField(number: nat, v: nat)
    requires number < 32 && Word32(v)
    ensures WellFormed(Field(number, Varint(v))) && WellFormed(Field(number, Bytes([])))
  {
    BoundValues();
    hide Bound;
  }

  lemma ConfigToRadio(nonce: nat)
    requires Word32(nonce)
    ensures DecodedToRadio(EncodedToRadio(WantConfig(nonce))) == if nonce == 0 then None else Some(WantConfig(nonce))
  {
    hide WellFormed, DecodedPacket;
    if nonce != 0 {
      SmallField(3, nonce);
      OneFieldKind(Field(3, Varint(nonce)), WantConfig(nonce));
    }
  }

  lemma NothingIsWorthless(p: MeshPacket)
    requires ValidPacket(p) && EncodedPacket(p) == []
    ensures !Worth(Normal(p))
  {
    PacketRoundTrip(p);
    hide Normal, EncodedPacket;
    assert Parse([]) == Some([]) && ReadPacket(Some(NO_PACKET), []) == Some(NO_PACKET);
  }

  // The loops.

  method WriteU32(out: seq<Byte>, number: nat, v: nat) returns (r: seq<Byte>)
    ensures r == out + Wires(U32(number, v))
  {
    if v == 0 {
      assert out + Wires([]) == out;
      return out;
    }
    WireOfOne(Field(number, Varint(v)));
    hide VarintBytes, Wires;
    r := WriteVarint(out, number * 8);
    r := WriteVarint(r, v);
    Associative(out, VarintBytes(number * 8), VarintBytes(v));
  }

  method WriteBool(out: seq<Byte>, number: nat, v: bool) returns (r: seq<Byte>)
    ensures r == out + Wires(Flag(number, v))
  {
    if !v {
      assert out + Wires([]) == out;
      return out;
    }
    WireOfOne(Field(number, Varint(1)));
    hide VarintBytes, Wires;
    r := WriteVarint(out, number * 8);
    r := WriteVarint(r, 1);
    Associative(out, VarintBytes(number * 8), VarintBytes(1));
  }

  method WriteFixed32(out: seq<Byte>, number: nat, v: nat) returns (r: seq<Byte>)
    ensures r == out + Wires(Fix32(number, v))
  {
    if v == 0 {
      assert out + Wires([]) == out;
      return out;
    }
    WireOfOne(Field(number, Fixed32(v)));
    hide VarintBytes, Wires, LeBytes;
    r := WriteVarint(out, number * 8 + 5);
    r := r + LeBytes(v, 4);
    Associative(out, VarintBytes(number * 8 + 5), LeBytes(v, 4));
  }

  method WriteBytes(out: seq<Byte>, number: nat, data: seq<Byte>) returns (r: seq<Byte>)
    ensures r == out + Wires(Block(number, data))
  {
    if |data| == 0 {
      assert out + Wires([]) == out;
      return out;
    }
    WireOfOne(Field(number, Bytes(data)));
    hide VarintBytes, Wires;
    r := WriteVarint(out, number * 8 + 2);
    r := WriteVarint(r, |data|);
    r := r + data;
    Associative(out, VarintBytes(number * 8 + 2), VarintBytes(|data|));
    Associative(out, VarintBytes(number * 8 + 2) + VarintBytes(|data|), data);
    Associative(VarintBytes(number * 8 + 2), VarintBytes(|data|), data);
  }

  lemma Associative(a: seq<Byte>, b: seq<Byte>, c: seq<Byte>)
    ensures a + (b + c) == (a + b) + c
  {
  }

  lemma WireOfOne(f: Field)
    ensures Wires([f]) == VarintBytes(f.number * 8 + TypeOf(f.value)) + ContentOf(f.value)
  {
    assert [f][1..] == [];
  }

  method EncodeData(d: Data) returns (out: seq<Byte>)
    ensures out == EncodedData(d)
  {
    hide Wires, U32, Flag, Fix32, Block;
    out := WriteU32([], 1, d.portnum);
    ghost var fs := U32(1, d.portnum);
    out := WriteBytes(out, 2, d.payload);
    WiresConcat(fs, Block(2, d.payload));
    fs := fs + Block(2, d.payload);
    out := WriteBool(out, 3, d.wantResponse);
    WiresConcat(fs, Flag(3, d.wantResponse));
    fs := fs + Flag(3, d.wantResponse);
    out := WriteFixed32(out, 4, d.dest);
    WiresConcat(fs, Fix32(4, d.dest));
    fs := fs + Fix32(4, d.dest);
    out := WriteFixed32(out, 5, d.source);
    WiresConcat(fs, Fix32(5, d.source));
    fs := fs + Fix32(5, d.source);
    out := WriteFixed32(out, 6, d.requestId);
    WiresConcat(fs, Fix32(6, d.requestId));
    fs := fs + Fix32(6, d.requestId);
    out := WriteFixed32(out, 7, d.replyId);
    WiresConcat(fs, Fix32(7, d.replyId));
    assert fs + Fix32(7, d.replyId) == DataFields(d);
  }

  /** A float is left out when it equals zero, of either sign. */
  method WriteFloat(out: seq<Byte>, number: nat, bits: nat) returns (r: seq<Byte>)
    ensures r == out + Wires(Float(number, bits))
  {
    WiresNothing();
    hide Wires;
    if bits == 0 || bits == MINUS_ZERO {
      assert out + [] == out;
      return out;
    }
    r := WriteFixed32(out, number, bits);
  }

  lemma WiresNothing()
    ensures Wires([]) == []
  {
  }

  /** Four runs of fields written one after the other onto `out`. */
  lemma Appended(out: seq<Byte>, a: seq<Field>, b: seq<Field>, c: seq<Field>, d: seq<Field>)
    ensures out + Wires(a) + Wires(b) + Wires(c) + Wires(d) == out + Wires(a + (b + (c + d)))
  {
    WiresConcat(c, d);
    WiresConcat(b, c + d);
    WiresConcat(a, b + (c + d));
    hide Wires;
    Associative(Wires(b), Wires(c), Wires(d));
  }

  lemma NoMoreFields(a: seq<Field>, b: seq<Field>, c: seq<Field>)
    ensures a + (b + (c + [])) == a + (b + c) && Wires([]) == []
  {
  }

  method WriteHead(out: seq<Byte>, p: MeshPacket) returns (r: seq<Byte>)
    ensures r == out + Wires(HeadFields(p))
  {
    hide Wires, U32, Fix32;
    r := WriteFixed32(out, 1, p.from);
    r := WriteFixed32(r, 2, p.to);
    r := WriteU32(r, 3, p.channel);
    Appended(out, Fix32(1, p.from), Fix32(2, p.to), U32(3, p.channel), []);
    NoMoreFields(Fix32(1, p.from), Fix32(2, p.to), U32(3, p.channel));
  }

  method WriteContent(out: seq<Byte>, p: MeshPacket) returns (r: seq<Byte>)
    ensures r == out + Wires(ContentFields(p))
  {
    hide Wires, Block;
    if p.decoded.Some? {
      var data := EncodeData(p.decoded.value);
      r := WriteBytes(out, 4, data);
    } else {
      r := WriteBytes(out, 5, p.encrypted);
    }
  }

  method WriteMiddle(out: seq<Byte>, p: MeshPacket) returns (r: seq<Byte>)
    ensures r == out + Wires(MiddleFields(p))
  {
    hide Wires, Float, Fix32;
    r := WriteFixed32(out, 6, p.id);
    r := WriteFixed32(r, 7, p.rxTime);
    r := WriteFloat(r, 8, p.snrBits);
    Appended(out, Fix32(6, p.id), Fix32(7, p.rxTime), Float(8, p.snrBits), []);
    NoMoreFields(Fix32(6, p.id), Fix32(7, p.rxTime), Float(8, p.snrBits));
  }

  method WriteFlags(out: seq<Byte>, p: MeshPacket) returns (r: seq<Byte>)
    ensures r == out + Wires(FlagFields(p))
  {
    hide Wires, U32, Flag;
    r := WriteU32(out, 9, p.hopLimit);
    r := WriteBool(r, 10, p.wantAck);
    r := WriteU32(r, 12, p.rxRssi);
    r := WriteBool(r, 14, p.viaMqtt);
    Appended(out, U32(9, p.hopLimit), Flag(10, p.wantAck), U32(12, p.rxRssi), Flag(14, p.viaMqtt));
  }

  method WriteTail(out: seq<Byte>, p: MeshPacket) returns (r: seq<Byte>)
    ensures r == out + Wires(TailFields(p))
  {
    hide Wires, U32;
    r := WriteU32(out, 15, p.hopStart);
    r := WriteU32(r, 18, p.nextHop);
    r := WriteU32(r, 19, p.relayNode);
    Appended(out, U32(15, p.hopStart), U32(18, p.nextHop), U32(19, p.relayNode), []);
    NoMoreFields(U32(15, p.hopStart), U32(18, p.nextHop), U32(19, p.relayNode));
  }

  method EncodeMeshPacket(p: MeshPacket) returns (out: seq<Byte>)
    ensures out == EncodedPacket(p)
    ensures ValidPacket(p) ==> DecodedPacket(out) == if Worth(Normal(p)) then Some(Normal(p)) else None
  {
    hide Wires, HeadFields, ContentFields, MiddleFields, FlagFields, TailFields, ValidPacket, DecodedPacket, Worth, Normal;
    out := WriteHead([], p);
    out := WriteContent(out, p);
    out := WriteMiddle(out, p);
    ghost var start := out;
    out := WriteFlags(out, p);
    out := WriteTail(out, p);
    WiresConcat(FlagFields(p), TailFields(p));
    Associative(start, Wires(FlagFields(p)), Wires(TailFields(p)));
    Appended([], HeadFields(p), ContentFields(p), MiddleFields(p), FlagFields(p) + TailFields(p));
    if ValidPacket(p) {
      PacketRoundTrip(p);
    }
  }

  method DecodeData(bytes: seq<Byte>) returns (ok: bool, d: Data)
    ensures DecodedData(bytes) == if ok then Some(d) else None
  {
    var fields;
    d := NO_DATA;
    ok, fields := ParseFields(bytes);
    if !ok {
      return;
    }
    assert fields[0..] == fields;
    for i := 0 to |fields|
      invariant ReadData(NO_DATA, fields) == ReadData(d, fields[i..])
    {
      d := ApplyData(d, fields[i]);
      assert fields[i..][1..] == fields[i + 1..];
    }
  }

  method DecodeMeshPacket(bytes: seq<Byte>) returns (ok: bool, p: MeshPacket)
    ensures DecodedPacket(bytes) == if ok then Some(p) else None
  {
    hide Parse, ReadData;
    var fields;
    p := NO_PACKET;
    ok, fields := ParseFields(bytes);
    if !ok {
      return;
    }
    assert fields[0..] == fields;
    for i := 0 to |fields|
      invariant ReadPacket(Some(NO_PACKET), fields) == ReadPacket(Some(p), fields[i..])
    {
      var f := fields[i];
      assert fields[i..][0] == f && fields[i..][1..] == fields[i + 1..];
      hide DecodedData;
      if f.number == 4 {
        var good, d := DecodeData(AsBytes(f.value));
        if !good {
          BadStaysBad(fields[i + 1..]);
          return false, p;
        }
        p := p.(decoded := Some(d));
      } else {
        p := ApplyPacket(Some(p), f).value;
      }
    }
    ok := p.from != 0 || p.id != 0 || p.decoded.Some? || |p.encrypted| > 0;
  }

  lemma {:induction false} BadStaysBad(fs: seq<Field>)
    ensures ReadPacket(None, fs) == None
    decreases |fs|
  {
    if |fs| > 0 { BadStaysBad(fs[1..]); }
  }
}
