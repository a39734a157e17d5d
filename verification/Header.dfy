/** The explicit header and the nibble stream of a frame: five header nibbles,
    the whitened payload low nibble first, and the four checksum nibbles. */
module Header {
  import opened Bits
  import opened Crc
  import opened Hamming

  datatype HeaderInfo = HeaderInfo(valid: bool, payloadLen: Byte, cr: nat, hasCrc: bool)

  const NO_HEADER := HeaderInfo(false, 0, 0, false)

  predicate Odd5(a: bool, b: bool, c: bool, d: bool, e: bool) {
    Odd4(a, b, c, d) != e
  }

  /** The five checksum bits over the first three nibbles. */
  function HeaderChecksum(h0: Nibble, h1: Nibble, h2: Nibble): (chk: nat)
    ensures chk < 32
  {
    var c4 := Odd4(Bit(h0, 3), Bit(h0, 2), Bit(h0, 1), Bit(h0, 0));
    var c3 := Odd5(Bit(h0, 3), Bit(h1, 3), Bit(h1, 2), Bit(h1, 1), Bit(h2, 0));
    var c2 := Odd5(Bit(h0, 2), Bit(h1, 3), Bit(h1, 0), Bit(h2, 3), Bit(h2, 1));
    var c1 := Odd5(Bit(h0, 1), Bit(h1, 2), Bit(h1, 0), Bit(h2, 2), Bit(h2, 1)) != Bit(h2, 0);
    var c0 := Odd5(Bit(h0, 0), Bit(h1, 1), Bit(h2, 3), Bit(h2, 2), Bit(h2, 1)) != Bit(h2, 0);
    16 * One(c4) + 8 * One(c3) + 4 * One(c2) + 2 * One(c1) + One(c0)
  }

  function BuildHeader(payloadLen: Byte, cr: nat, hasCrc: bool): (h: seq<Nibble>)
    requires CodingRate(cr)
    ensures |h| == 5
  {
    var h0: Nibble, h1: Nibble, h2: Nibble := payloadLen / 16, payloadLen % 16, 2 * cr + One(hasCrc);
    var chk := HeaderChecksum(h0, h1, h2);
    var h3: Nibble, h4: Nibble := chk / 16 % 2, chk % 16;
    [h0, h1, h2, h3, h4]
  }

  function ParseHeader(n: seq<Nibble>): (h: HeaderInfo)
    requires |n| >= 5
    ensures h.valid ==> CodingRate(h.cr) && h.payloadLen != 0
  {
    var payloadLen: Byte := FullByte(n[1], n[0]);
    var cr: nat, top: nat := n[2] / 2, n[3] % 2;
    var received := 16 * top + n[4];
    HeaderInfo(received == HeaderChecksum(n[0], n[1], n[2]) && payloadLen != 0 && 1 <= cr <= 4,
               payloadLen, cr, n[2] % 2 == 1)
  }

  /** A header parses back to what it was built from, and is valid unless the
      length is zero. */
  lemma HeaderRoundTrip(payloadLen: Byte, cr: nat, hasCrc: bool)
    requires CodingRate(cr)
    ensures ParseHeader(BuildHeader(payloadLen, cr, hasCrc)) == HeaderInfo(payloadLen != 0, payloadLen, cr, hasCrc)
  {
    hide HeaderChecksum;
    var h := BuildHeader(payloadLen, cr, hasCrc);
    var chk := HeaderChecksum(h[0], h[1], h[2]);
    assert h[3] == chk / 16 % 2 && h[4] == chk % 16;
    assert FullByte(h[1], h[0]) == payloadLen;
  }

  /** Nibbles a frame with this header holds, header included. */
  function NibblesNeeded(payloadLen: nat, hasCrc: bool): nat {
    5 + 2 * payloadLen + (if hasCrc then 4 else 0)
  }

  /** One step of the whitening register x^8 + x^6 + x^5 + x^4 + 1. */
  function NextWhitening(w: Byte): Byte {
    (2 * w + One(Odd4(Bit(w, 7), Bit(w, 5), Bit(w, 4), Bit(w, 3)))) % 256
  }

  /** Entry i of the whitening sequence: the register started at 0xFF. */
  function WhiteningEntry(i: nat): Byte {
    if i == 0 then 0xFF else NextWhitening(WhiteningEntry(i - 1))
  }

  /** The whitening byte of payload byte i; the sequence has 255 entries. */
  function Whitening(i: nat): Byte {
    WhiteningEntry(i % 255)
  }

  function HalfByte(w: Byte, low: bool): Nibble {
    if low then w % 16 else w / 16
  }

  function FullByte(low: Nibble, high: Nibble): Byte {
    var l: nat, h: nat := low, high;
    l + 16 * h
  }

  function PayloadNibbles(payload: seq<Byte>): (ns: seq<Nibble>)
    ensures |ns| == 2 * |payload|
  {
    seq(2 * |payload|, k requires 0 <= k < 2 * |payload| => HalfByte(XorByte(payload[k / 2], Whitening(k / 2)), k % 2 == 0))
  }

  function CrcNibbles(crc: Word16): seq<Nibble> {
    var n0: Nibble, n1: Nibble, n2: Nibble, n3: Nibble := crc % 16, crc / 16 % 16, crc / 256 % 16, crc / 4096;
    [n0, n1, n2, n3]
  }

  /** Everything a frame carries. */
  function Stream(payload: seq<Byte>, cr: nat, hasCrc: bool): (ns: seq<Nibble>)
    requires CodingRate(cr)
    ensures |ns| == NibblesNeeded(|payload|, hasCrc)
  {
    BuildHeader(|payload| % 256, cr, hasCrc) + PayloadNibbles(payload) +
    (if hasCrc then CrcNibbles(PayloadCrc(payload)) else [])
  }

  // The receiving side.

  function ReadPayload(ns: seq<Nibble>, len: nat): (payload: seq<Byte>)
    requires 5 + 2 * len <= |ns|
    ensures |payload| == len
  {
    seq(len, i requires 0 <= i < len => ReadByte(ns, i))
  }

  function ReadByte(ns: seq<Nibble>, i: nat): Byte
    requires 6 + 2 * i < |ns|
  {
    XorByte(FullByte(ns[5 + 2 * i], ns[6 + 2 * i]), Whitening(i))
  }

  function ReadCrc(ns: seq<Nibble>, at: nat): Word16
    requires at + 4 <= |ns|
  {
    FullByte(ns[at], ns[at + 1]) + 256 * FullByte(ns[at + 2], ns[at + 3])
  }

  /** The payload checksum test on a nibble stream. */
  predicate CrcPasses(ns: seq<Nibble>, len: nat)
    requires NibblesNeeded(len, true) <= |ns|
  {
    ReadCrc(ns, 5 + 2 * len) == PayloadCrc(ReadPayload(ns, len))
  }

  /** Payload and checksum are read back from the stream, whatever follows it. */
  lemma StreamRoundTrip(payload: seq<Byte>, cr: nat, hasCrc: bool, ns: seq<Nibble>)
    requires CodingRate(cr) && Stream(payload, cr, hasCrc) <= ns
    ensures ReadPayload(ns, |payload|) == payload
    ensures hasCrc ==> ReadCrc(ns, 5 + 2 * |payload|) == PayloadCrc(payload)
  {
    PayloadRoundTrip(payload, cr, hasCrc, ns);
    if hasCrc { CrcRoundTrip(payload, cr, ns); }
  }

  lemma PayloadRoundTrip(payload: seq<Byte>, cr: nat, hasCrc: bool, ns: seq<Nibble>)
    requires CodingRate(cr) && Stream(payload, cr, hasCrc) <= ns
    ensures ReadPayload(ns, |payload|) == payload
  {
    var r := ReadPayload(ns, |payload|);
    forall i | 0 <= i < |payload| ensures r[i] == payload[i] {
      StreamByte(payload, cr, hasCrc, ns, i);
    }
  }

  lemma StreamByte(payload: seq<Byte>, cr: nat, hasCrc: bool, ns: seq<Nibble>, i: nat)
    requires CodingRate(cr) && Stream(payload, cr, hasCrc) <= ns && i < |payload|
    ensures ReadByte(ns, i) == payload[i]
  {
    var k := 2 * i;
    assert k / 2 == i && k % 2 == 0 && (k + 1) / 2 == i && (k + 1) % 2 == 1;
    StreamNibble(payload, cr, hasCrc, k);
    StreamNibble(payload, cr, hasCrc, k + 1);
    assert ns[5 + k] == Stream(payload, cr, hasCrc)[5 + k];
    assert ns[6 + k] == Stream(payload, cr, hasCrc)[6 + k];
    HalvesMakeByte(payload[i], Whitening(i));
  }

  lemma StreamNibble(payload: seq<Byte>, cr: nat, hasCrc: bool, k: nat)
    requires CodingRate(cr) && k < 2 * |payload|
    ensures Stream(payload, cr, hasCrc)[5 + k] == HalfByte(XorByte(payload[k / 2], Whitening(k / 2)), k % 2 == 0)
  {
  }

  lemma HalvesMakeByte(byte: Byte, w: Byte)
    ensures var x := XorByte(byte, w); XorByte(FullByte(HalfByte(x, true), HalfByte(x, false)), w) == byte
  {
    XorTwice(byte, w);
  }

  lemma CrcRoundTrip(payload: seq<Byte>, cr: nat, ns: seq<Nibble>)
    requires CodingRate(cr) && Stream(payload, cr, true) <= ns
    ensures ReadCrc(ns, 5 + 2 * |payload|) == PayloadCrc(payload)
  {
    var s := Stream(payload, cr, true);
    var c := 5 + 2 * |payload|;
    var crc := PayloadCrc(payload);
    forall k | 0 <= k < 4 ensures ns[c + k] == CrcNibbles(crc)[k] {
      assert ns[c + k] == s[c + k];
    }
    assert ns[c] == CrcNibbles(crc)[0] && ns[c + 1] == CrcNibbles(crc)[1];
    assert ns[c + 2] == CrcNibbles(crc)[2] && ns[c + 3] == CrcNibbles(crc)[3];
    WordFromNibbles(crc);
  }

  lemma WordFromNibbles(w: Word16)
    ensures FullByte(w % 16, w / 16 % 16) + 256 * FullByte(w / 256 % 16, w / 4096) == w
  {
    var a := w / 16;
    var b := a / 16;
    assert b == w / 256 && b / 16 == w / 4096;
    assert a == 16 * b + a % 16 && b == 16 * (b / 16) + b % 16;
  }
}
