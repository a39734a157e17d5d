/** The protobuf wire format the phone bridge writes and parses by hand. */
module ProtoWire {
  import opened Wrappers
  import opened LittleEndian
  import Modulo

  datatype Value = Varint(v: nat) | Fixed64(w: nat) | Bytes(data: seq<Byte>) | Fixed32(u: nat)

  datatype Field = Field(number: nat, value: Value)

  /** A number and what follows it. */
  datatype Read = Read(v: nat, rest: seq<Byte>)

  const NUMBERS: nat := 0x1_0000_0000

  // Varints.

  function VarintBytes(v: nat): (b: seq<Byte>)
    ensures |b| > 0
  {
    if v < 128 then [v] else [v % 128 + 128] + VarintBytes(v / 128)
  }

  function Pow128(k: nat): (p: nat)
    ensures p > 0
  {
    if k == 0 then 1 else 128 * Pow128(k - 1)
  }

  /** Seven bits a byte from the k-th on, into a word of 64 bits; ten bytes at most. */
  function ReadFrom(bs: seq<Byte>, k: nat, v: nat): (r: Option<Read>)
    ensures r.Some? ==> |r.value.rest| < |bs|
    decreases |bs|
  {
    if |bs| == 0 || k > 9 then None
    else
      var now := v + bs[0] % 128 * Pow128(k) % Bound(8);
      if bs[0] < 128 then Some(Read(now, bs[1..])) else ReadFrom(bs[1..], k + 1, now)
  }

  function ReadVarint(bs: seq<Byte>): (r: Option<Read>)
    ensures r.Some? ==> |r.value.rest| < |bs|
  {
    ReadFrom(bs, 0, 0)
  }

  lemma Pow128Values()
    ensures Bound(8) == 2 * Pow128(9) && Pow128(10) == 128 * Pow128(9)
  {
    BoundValues();
    assert Pow128(1) == 128 && Pow128(2) == 128 * Pow128(1) && Pow128(3) == 128 * Pow128(2) && Pow128(4) == 128 * Pow128(3);
    assert Pow128(5) == 128 * Pow128(4) && Pow128(6) == 128 * Pow128(5) && Pow128(7) == 128 * Pow128(6);
    assert Pow128(8) == 128 * Pow128(7) && Pow128(9) == 128 * Pow128(8);
  }

  lemma {:induction false} Pow128Monotone(a: nat, b: nat)
    requires a <= b
    ensures Pow128(a) <= Pow128(b)
  {
    if a < b { Pow128Monotone(a, b - 1); }
  }

  lemma MulMonotone(a: nat, b: nat, p: nat)
    requires a <= b
    ensures a * p <= b * p
  {
  }

  /** The parts of a number cut at seven bits, at place p. */
  lemma LongParts(v: nat, p: nat, bound: nat)
    requires v >= 128 && p > 0 && v * p < bound
    ensures v % 128 * p < bound && v / 128 * (128 * p) <= v * p && 128 * p < bound
    ensures v % 128 * p + v / 128 * (128 * p) == v * p
  {
    var q, r := v / 128, v % 128;
    assert v == q * 128 + r;
    Split(q, r, p);
    MulMonotone(128, v, p);
  }

  lemma Split(q: nat, r: nat, p: nat)
    ensures (q * 128 + r) * p == q * (128 * p) + r * p
  {
  }

  /** No byte of a 64-bit number stands in the eleventh place. */
  lemma TenPlaces(k: nat)
    requires Pow128(k) < Bound(8)
    ensures k <= 9
  {
    Pow128Values();
    if k > 9 { Pow128Monotone(10, k); }
  }

  lemma ReadLong(b: Byte, more: seq<Byte>, k: nat, acc: nat)
    requires b >= 128 && k <= 9 && b % 128 * Pow128(k) < Bound(8)
    ensures ReadFrom([b] + more, k, acc) == ReadFrom(more, k + 1, acc + b % 128 * Pow128(k))
  {
    SmallMod(b % 128 * Pow128(k));
    assert ([b] + more)[0] == b && ([b] + more)[1..] == more;
    hide Pow128, Bound;
  }

  lemma ReadLast(b: Byte, rest: seq<Byte>, k: nat, acc: nat)
    requires b < 128 && k <= 9 && b * Pow128(k) < Bound(8)
    ensures ReadFrom([b] + rest, k, acc) == Some(Read(acc + b * Pow128(k), rest))
  {
    assert b % 128 == b;
    SmallMod(b * Pow128(k));
    assert ([b] + rest)[0] == b && ([b] + rest)[1..] == rest;
    hide Pow128, Bound;
  }

  lemma {:induction false} ReadBack(v: nat, rest: seq<Byte>, k: nat, acc: nat)
    requires k <= 9 && v * Pow128(k) < Bound(8)
    ensures ReadFrom(VarintBytes(v) + rest, k, acc) == Some(Read(acc + v * Pow128(k), rest))
    decreases v
  {
    if v < 128 {
      ReadLast(v, rest, k, acc);
    } else {
      assert Pow128(k + 1) == 128 * Pow128(k);
      assert VarintBytes(v) + rest == [v % 128 + 128] + (VarintBytes(v / 128) + rest);
      assert (v % 128 + 128) % 128 == v % 128;
      hide *;
      LongParts(v, Pow128(k), Bound(8));
      TenPlaces(k + 1);
      ReadLong(v % 128 + 128, VarintBytes(v / 128) + rest, k, acc);
      ReadBack(v / 128, rest, k + 1, acc + v % 128 * Pow128(k));
    }
  }

  lemma SmallMod(n: nat)
    requires n < Bound(8)
    ensures n % Bound(8) == n
  {
    Modulo.ModSmall(n, Bound(8));
  }

  /** Every 64-bit number reads back, and nothing behind it is touched. */
  lemma VarintRoundTrip(v: nat, rest: seq<Byte>)
    requires v < Bound(8)
    ensures ReadVarint(VarintBytes(v) + rest) == Some(Read(v, rest))
  {
    hide VarintBytes, Bound;
    assert Pow128(0) == 1;
    ReadBack(v, rest, 0, 0);
  }

  // Fields.

  ghost predicate WellFormed(f: Field) {
    && f.number < 0x2000_0000
    && match f.value
       case Varint(v) => v < Bound(8)
       case Fixed64(w) => w < Bound(8)
       case Bytes(data) => |data| < Bound(8)
       case Fixed32(u) => u < Bound(4)
  }

  function TypeOf(v: Value): nat {
    match v
    case Varint(_) => 0
    case Fixed64(_) => 1
    case Bytes(_) => 2
    case Fixed32(_) => 5
  }

  function ContentOf(v: Value): seq<Byte> {
    match v
    case Varint(v) => VarintBytes(v)
    case Fixed64(w) => LeBytes(w, 8)
    case Bytes(data) => VarintBytes(|data|) + data
    case Fixed32(u) => LeBytes(u, 4)
  }

  function WireOf(f: Field): seq<Byte> {
    VarintBytes(f.number * 8 + TypeOf(f.value)) + ContentOf(f.value)
  }

  datatype Taken = Taken(value: Value, rest: seq<Byte>)

  /** The value of a field of the given wire type. */
  function TakeValue(kind: nat, bs: seq<Byte>): (r: Option<Taken>)
    ensures r.Some? ==> |r.value.rest| <= |bs|
  {
    if kind == 0 then
      match ReadVarint(bs)
      case None => None
      case Some(r) => Some(Taken(Varint(r.v), r.rest))
    else if kind == 1 then (if |bs| < 8 then None else Some(Taken(Fixed64(FromLe(bs[..8])), bs[8..])))
    else if kind == 2 then
      match ReadVarint(bs)
      case None => None
      case Some(r) => if r.v > |r.rest| then None else Some(Taken(Bytes(r.rest[..r.v]), r.rest[r.v..]))
    else if kind == 5 then (if |bs| < 4 then None else Some(Taken(Fixed32(FromLe(bs[..4])), bs[4..])))
    else None
  }

  datatype TakenField = TakenField(field: Field, rest: seq<Byte>)

  function TakeField(bs: seq<Byte>): (r: Option<TakenField>)
    ensures r.Some? ==> |r.value.rest| < |bs|
  {
    match ReadVarint(bs)
    case None => None
    case Some(tag) =>
      match TakeValue(tag.v % 8, tag.rest)
      case None => None
      case Some(t) => Some(TakenField(Field(tag.v / 8 % NUMBERS, t.value), t.rest))
  }

  /** All the fields of a message, or nothing for truncated or unknown wire. */
  function Parse(bs: seq<Byte>): Option<seq<Field>>
    decreases |bs|
  {
    if |bs| == 0 then Some([])
    else
      match TakeField(bs)
      case None => None
      case Some(t) =>
        match Parse(t.rest)
        case None => None
        case Some(fs) => Some([t.field] + fs)
  }

  lemma ValueTaken(v: Value, rest: seq<Byte>)
    requires WellFormed(Field(0, v))
    ensures TakeValue(TypeOf(v), ContentOf(v) + rest) == Some(Taken(v, rest))
  {
    hide ReadVarint, VarintBytes, LeBytes, FromLe, Bound;
    match v {
      case Varint(n) => VarintRoundTrip(n, rest);
      case Fixed64(w) =>
        LeRoundTrip(w, 8);
        assert (LeBytes(w, 8) + rest)[..8] == LeBytes(w, 8) && (LeBytes(w, 8) + rest)[8..] == rest;
      case Bytes(data) =>
        assert ContentOf(v) + rest == VarintBytes(|data|) + (data + rest);
        VarintRoundTrip(|data|, data + rest);
        assert (data + rest)[..|data|] == data && (data + rest)[|data|..] == rest;
      case Fixed32(u) =>
        LeRoundTrip(u, 4);
        assert (LeBytes(u, 4) + rest)[..4] == LeBytes(u, 4) && (LeBytes(u, 4) + rest)[4..] == rest;
    }
  }

  lemma TagParts(number: nat, kind: nat)
    requires number < 0x2000_0000 && kind < 8
    ensures var t := number * 8 + kind; t < Bound(8) && t % 8 == kind && t / 8 % NUMBERS == number
  {
    BoundValues();
    hide Bound;
  }

  lemma FieldTaken(f: Field, rest: seq<Byte>)
    requires WellFormed(f)
    ensures TakeField(WireOf(f) + rest) == Some(TakenField(f, rest))
  {
    var t := f.number * 8 + TypeOf(f.value);
    TagParts(f.number, TypeOf(f.value));
    assert WireOf(f) + rest == VarintBytes(t) + (ContentOf(f.value) + rest);
    hide ReadVarint, VarintBytes, ContentOf, TakeValue, Bound;
    VarintRoundTrip(t, ContentOf(f.value) + rest);
    ValueTaken(f.value, rest);
  }

  function Wires(fs: seq<Field>): seq<Byte> {
    if |fs| == 0 then [] else WireOf(fs[0]) + Wires(fs[1..])
  }

  /** A message parses to the fields it was written from. */
  lemma {:induction false} FieldsRoundTrip(fs: seq<Field>)
    requires forall i: nat | i < |fs| :: WellFormed(fs[i])
    ensures Parse(Wires(fs)) == Some(fs)
  {
    hide TakeField, WellFormed;
    if |fs| > 0 {
      FieldsRoundTrip(fs[1..]);
      FieldTaken(fs[0], Wires(fs[1..]));
      assert |WireOf(fs[0])| > 0;
      assert [fs[0]] + fs[1..] == fs;
    }
  }

  lemma {:induction false} WiresConcat(a: seq<Field>, b: seq<Field>)
    ensures Wires(a + b) == Wires(a) + Wires(b)
  {
    hide WireOf;
    if |a| == 0 {
      assert a + b == b;
    } else {
      WiresConcat(a[1..], b);
      assert (a + b)[1..] == a[1..] + b;
    }
  }

  // Reading a field as the decoders do: another wire type reads as nothing.

  function AsVarint(v: Value): nat {
    if v.Varint? then v.v else 0
  }

  function AsFixed32(v: Value): nat {
    if v.Fixed32? then v.u else 0
  }

  function AsBytes(v: Value): seq<Byte> {
    if v.Bytes? then v.data else []
  }

  // Sizes.

  lemma {:induction false} VarintSize(v: nat, k: nat)
    requires k >= 1 && v < Pow128(k)
    ensures |VarintBytes(v)| <= k
    decreases v
  {
    assert Pow128(1) == 128 * Pow128(0) == 128;
    assert Pow128(k) == 128 * Pow128(k - 1);
    if v >= 128 {
      VarintSize(v / 128, k - 1);
    }
  }

  /** Twenty bytes for tag and length, or for tag and number. */
  lemma FieldSize(f: Field)
    requires WellFormed(f)
    ensures |WireOf(f)| <= 20 + if f.value.Bytes? then |f.value.data| else 0
  {
    BoundValues();
    Pow128Values();
    hide VarintBytes, Pow128, Bound, LeBytes;
    VarintSize(f.number * 8 + TypeOf(f.value), 10);
    match f.value
    case Varint(v) => VarintSize(v, 10);
    case Bytes(data) => VarintSize(|data|, 10);
    case _ =>
  }

  lemma {:induction false} WiresSize(fs: seq<Field>, most: nat)
    requires forall i: nat | i < |fs| :: WellFormed(fs[i]) && (fs[i].value.Bytes? ==> |fs[i].value.data| <= most)
    ensures |Wires(fs)| <= |fs| * (20 + most)
  {
    if |fs| > 0 {
      FieldSize(fs[0]);
      WiresSize(fs[1..], most);
      assert |fs| * (20 + most) == (20 + most) + (|fs| - 1) * (20 + most);
    }
  }

  // The loops.

  method WriteVarint(out: seq<Byte>, v: nat) returns (r: seq<Byte>)
    ensures r == out + VarintBytes(v)
  {
    r := out;
    var n := v;
    while n >= 128
      invariant r + VarintBytes(n) == out + VarintBytes(v)
    {
      r := r + [n % 128 + 128];
      n := n / 128;
    }
    r := r + [n];
  }

  /** Advance a cursor over one varint. */
  method ReadVarintAt(data: seq<Byte>, at: nat) returns (ok: bool, v: nat, next: nat)
    requires at <= |data|
    ensures at <= next <= |data|
    ensures ReadVarint(data[at..]) == if ok then Some(Read(v, data[next..])) else None
  {
    v, next := 0, at;
    var k: nat := 0;
    var place: nat := 1;
    assert place == Pow128(0);
    while next < |data| && k <= 9
      invariant at <= next <= |data| && k <= 10 && place == Pow128(k)
      invariant ReadVarint(data[at..]) == ReadFrom(data[next..], k, v)
    {
      var b := data[next];
      assert data[next..][0] == b && data[next..][1..] == data[next + 1..];
      next := next + 1;
      v := v + b % 128 * place % 0x1_0000_0000_0000_0000;
      BoundValues();
      if b < 128 {
        return true, v, next;
      }
      k := k + 1;
      place := place * 128;
    }
    return false, v, next;
  }

  method ParseFields(data: seq<Byte>) returns (ok: bool, out: seq<Field>)
    ensures Parse(data) == if ok then Some(out) else None
  {
    out := [];
    var at: nat := 0;
    assert data[0..] == data;
    if Parse(data).Some? {
      assert [] + Parse(data).value == Parse(data).value;
    }
    hide ReadVarint, TakeValue;
    while at < |data|
      invariant at <= |data|
      invariant Parse(data) == match Parse(data[at..]) { case None => None case Some(fs) => Some(out + fs) }
    {
      var read, tag, next := ReadVarintAt(data, at);
      if !read {
        return false, [];
      }
      var took, value, end := TakeValueAt(data, next, tag % 8);
      if !took {
        return false, [];
      }
      ghost var f := Field(tag / 8 % NUMBERS, value);
      assert TakeField(data[at..]) == Some(TakenField(f, data[end..]));
      ghost var before := out;
      out := out + [Field(tag / 8 % NUMBERS, value)];
      if Parse(data[end..]).Some? {
        assert before + ([f] + Parse(data[end..]).value) == out + Parse(data[end..]).value;
      }
      at := end;
    }
    assert out + [] == out;
    return true, out;
  }

  method TakeValueAt(data: seq<Byte>, at: nat, kind: nat) returns (ok: bool, value: Value, end: nat)
    requires at <= |data|
    ensures at <= end <= |data|
    ensures TakeValue(kind, data[at..]) == if ok then Some(Taken(value, data[end..])) else None
  {
    hide ReadVarint, FromLe;
    value, end := Varint(0), at;
    if kind == 0 {
      var read, v, next := ReadVarintAt(data, at);
      return read, Varint(v), next;
    } else if kind == 1 {
      if |data| - at < 8 {
        return false, value, end;
      }
      assert data[at..][..8] == data[at..at + 8] && data[at..][8..] == data[at + 8..];
      return true, Fixed64(FromLe(data[at..at + 8])), at + 8;
    } else if kind == 2 {
      var read, n, next := ReadVarintAt(data, at);
      if !read || n > |data| - next {
        return false, value, end;
      }
      assert data[next..][..n] == data[next..next + n] && data[next..][n..] == data[next + n..];
      return true, Bytes(data[next..next + n]), next + n;
    } else if kind == 5 {
      if |data| - at < 4 {
        return false, value, end;
      }
      assert data[at..][..4] == data[at..at + 4] && data[at..][4..] == data[at + 4..];
      return true, Fixed32(FromLe(data[at..at + 4])), at + 4;
    } else {
      return false, value, end;
    }
  }
}
