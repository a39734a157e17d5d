/** Little-endian words of any width, and two's complement. */
module LittleEndian {
  import Crc
  import Modulo

  type Byte = Crc.Byte

  function Bound(n: nat): (b: nat)
    ensures b > 0
  {
    if n == 0 then 1 else 256 * Bound(n - 1)
  }

  function LeBytes(v: nat, n: nat): (b: seq<Byte>)
    ensures |b| == n
  {
    if n == 0 then [] else [v % 256] + LeBytes(v / 256, n - 1)
  }

  function FromLe(b: seq<Byte>): nat {
    if |b| == 0 then 0 else b[0] + 256 * FromLe(b[1..])
  }

  lemma {:induction false} LeRoundTrip(v: nat, n: nat)
    requires v < Bound(n)
    ensures FromLe(LeBytes(v, n)) == v
    decreases n
  {
    if n > 0 {
      LeRoundTrip(v / 256, n - 1);
      assert LeBytes(v, n)[1..] == LeBytes(v / 256, n - 1);
    }
  }

  /** Byte i carries the word's digit of weight 256^i. */
  lemma {:induction false} LowByteFirst(v: nat, n: nat, i: nat)
    requires i < n
    ensures LeBytes(v, n)[i] == v / Bound(i) % 256
  {
    if i > 0 {
      LowByteFirst(v / 256, n - 1, i - 1);
      Modulo.DivTwice(v, 256, Bound(i - 1));
    }
  }

  lemma {:induction false} FromLeBelow(b: seq<Byte>)
    ensures FromLe(b) < Bound(|b|)
  {
    if |b| > 0 { FromLeBelow(b[1..]); }
  }

  lemma LowByte(low: Byte, rest: nat)
    ensures (low + 256 * rest) % 256 == low && (low + 256 * rest) / 256 == rest
  {
  }

  /** The n low bytes written back are the bytes read. */
  lemma {:induction false} LeReadBack(b: seq<Byte>)
    ensures LeBytes(FromLe(b), |b|) == b
  {
    if |b| > 0 {
      LeReadBack(b[1..]);
      LowByte(b[0], FromLe(b[1..]));
      assert b == [b[0]] + b[1..];
    }
  }

  lemma BoundValues()
    ensures Bound(2) == 65536 && Bound(4) == 4294967296 && Bound(8) == 18446744073709551616
  {
    assert Bound(1) == 256 && Bound(2) == 256 * Bound(1) && Bound(3) == 256 * Bound(2) && Bound(4) == 256 * Bound(3);
    assert Bound(5) == 256 * Bound(4) && Bound(6) == 256 * Bound(5) && Bound(7) == 256 * Bound(6) && Bound(8) == 256 * Bound(7);
  }

  /** A signed value as an unsigned word. */
  function Unsigned(v: int, modulus: nat): nat
    requires modulus > 0
  {
    v % modulus
  }

  /** An unsigned word as a signed value. */
  function Signed(u: nat, modulus: nat): int {
    if 2 * u >= modulus then u - modulus else u
  }

  lemma SignedRoundTrip(v: int, half: int)
    requires half > 0 && -half <= v < half
    ensures Unsigned(v, 2 * half) < 2 * half && Signed(Unsigned(v, 2 * half), 2 * half) == v
  {
    Modulo.ModUnique(v, if v < 0 then -1 else 0, 2 * half, if v < 0 then v + 2 * half else v);
  }
}
