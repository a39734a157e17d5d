/** The payload checksum is a remainder of polynomials over GF(2). */
module CrcRemainder {
  import opened Bits
  import opened Crc

  /** x^16 + x^12 + x^5 + 1. */
  const GENERATOR: nat := 0x11021

  /** The product of two polynomials, bit k the coefficient of x^k. */
  function Product(q: nat, p: nat): nat
    decreases q
  {
    if q == 0 then 0 else Xor(if q % 2 == 1 then p else 0, 2 * Product(q / 2, p))
  }

  /** The payload as one polynomial, first byte first. */
  function Polynomial(bytes: seq<Byte>): nat {
    if bytes == [] then 0 else 256 * Polynomial(bytes[..|bytes| - 1]) + bytes[|bytes| - 1]
  }

  lemma DoubleXor(a: nat, b: nat)
    ensures Xor(2 * a, 2 * b) == 2 * Xor(a, b)
  {
    if a == 0 && b == 0 {
    } else {
      assert Xor(2 * a, 2 * b) == 2 * Xor(2 * a / 2, 2 * b / 2);
    }
  }

  lemma XorAssoc(a: nat, b: nat, c: nat)
    ensures Xor(Xor(a, b), c) == Xor(a, Xor(b, c))
  {
    XorRegroup(a, b, c);
  }

  lemma XorSwap(a: nat, b: nat)
    ensures Xor(a, b) == Xor(b, a)
  {
    forall k: nat ensures Bit(Xor(a, b), k) == Bit(Xor(b, a), k) {
      XorBit(a, b, k);
      XorBit(b, a, k);
    }
    SameBits(Xor(a, b), Xor(b, a));
  }

  // One round.

  /** Shifting a message bit in and reducing once: 2 c plus the bit at x^16, less the generator if it is due. */
  lemma RoundReduces(c: Word16, bit: bool)
    ensures Xor(if Bit(c, 15) != bit then GENERATOR else 0, Round(c, bit)) == Xor(2 * c, if bit then 65536 else 0)
  {
    hide *;
    var g, b := if Bit(c, 15) != bit then GENERATOR else 0, if bit then 65536 else 0;
    forall k: nat ensures Bit(Xor(g, Round(c, bit)), k) == Bit(Xor(2 * c, b), k) {
      XorBit(g, Round(c, bit), k);
      XorBit(2 * c, b, k);
      RoundBit(c, bit, k);
      GeneratorBit(k);
      PolynomialLow(k);
      ZeroBit(k);
      TopBit(k);
      DoubledBit(c, k);
    }
    SameBits(Xor(g, Round(c, bit)), Xor(2 * c, b));
  }

  lemma PolynomialLow(k: nat)
    ensures k >= 16 ==> !Bit(POLYNOMIAL, k)
  {
    Pow2Table();
    if k >= 16 { HighBit(POLYNOMIAL, 16, k); }
  }

  lemma DoubledBit(c: Word16, k: nat)
    ensures Bit(2 * c, k) == (0 < k <= 16 && Bit(c, k - 1))
  {
    Pow2Table();
    if k > 16 { HighBit(c, 16, k - 1); }
  }

  lemma TopBit(k: nat)
    ensures Bit(65536, k) == (k == 16)
  {
    Pow2Table();
    ShlOne(16);
    ShlBit(1, 16, k);
    if k > 16 { ZeroBit(k - 17); assert Bit(1, k - 16) == Bit(0, k - 17); }
  }

  lemma {:induction false} ShlTimes(v: nat, n: nat)
    ensures Shl(v, n) == v * Pow2(n)
    decreases n
  {
    if n > 0 {
      ShlTimes(2 * v, n - 1);
      assert v * (2 * Pow2(n - 1)) == (2 * v) * Pow2(n - 1);
    }
  }

  lemma ShlOne(n: nat)
    ensures Shl(1, n) == Pow2(n)
  {
    ShlTimes(1, n);
  }

  /** The generator is x^16 and the feedback taps. */
  lemma GeneratorBit(k: nat)
    ensures Bit(GENERATOR, k) == (k == 16 || Bit(POLYNOMIAL, k))
  {
    Pow2Table();
    if k <= 16 {
      GeneratorLow(k);
    } else {
      assert Pow2(17) == 2 * Pow2(16);
      HighBit(GENERATOR, 17, k);
      HighBit(POLYNOMIAL, 16, k);
    }
  }

  lemma GeneratorLow(k: nat)
    requires k <= 16
    ensures Bit(GENERATOR, k) == (k == 16 || Bit(POLYNOMIAL, k))
  {
    CutBits(GENERATOR, 16, k);
    Pow2Table();
    assert GENERATOR % 65536 == POLYNOMIAL;
    if !Bit(GENERATOR, 16) {
      assert Pow2(17) == 2 * Pow2(16);
      forall j: nat | 16 <= j ensures !Bit(GENERATOR, j) { if j > 16 { HighBit(GENERATOR, 17, j); } }
      BelowPow2(GENERATOR, 16);
      assert false;
    }
    if k == 16 { HighBit(POLYNOMIAL, 16, 16); }
  }

  /** The message so far, moved up by sixteen, is a multiple of the generator and the register. */
  ghost predicate Divided(q: nat, c: nat, message: nat) {
    Xor(Product(q, GENERATOR), c) == 65536 * message
  }

  lemma ProductStep(q: nat, t: bool, p: nat)
    ensures Product(2 * q + (if t then 1 else 0), p) == Xor(if t then p else 0, 2 * Product(q, p))
  {
    var q' := 2 * q + (if t then 1 else 0);
    assert q' / 2 == q && q' % 2 == if t then 1 else 0;
  }

  lemma ShiftIn(message: nat, bit: bool)
    ensures Xor(131072 * message, if bit then 65536 else 0) == 65536 * (2 * message + if bit then 1 else 0)
  {
    hide Xor, Pow2;
    PowerSum(0);
    PowerZero();
    XorAdds(message, if bit then 65536 else 0, 17);
  }

  lemma PowerZero()
    ensures Pow2(0) == 1
  {
  }

  lemma RoundDivides(q: nat, c: Word16, message: nat, bit: bool) returns (q': nat)
    requires Divided(q, c, message)
    ensures Divided(q', Round(c, bit), 2 * message + if bit then 1 else 0)
  {
    hide *;
    var t := Bit(c, 15) != bit;
    var g, b := if t then GENERATOR else 0, if bit then 65536 else 0;
    var p := Product(q, GENERATOR);
    q' := 2 * q + if t then 1 else 0;
    ProductStep(q, t, GENERATOR);
    RoundReduces(c, bit);
    XorChain(g, 2 * p, Round(c, bit), 2 * c, b);
    DoubleXor(p, c);
    DividedIs(q, c, message);
    ShiftIn(message, bit);
    DividedIs(q', Round(c, bit), 2 * message + if bit then 1 else 0);
  }

  lemma DividedIs(q: nat, c: nat, message: nat)
    ensures Divided(q, c, message) <==> Xor(Product(q, GENERATOR), c) == 65536 * message
  {
    hide Xor, Product;
  }

  lemma XorChain(g: nat, m: nat, r: nat, c: nat, b: nat)
    requires Xor(g, r) == Xor(c, b)
    ensures Xor(Xor(g, m), r) == Xor(Xor(m, c), b)
  {
    hide Xor;
    XorSwap(g, m);
    XorAssoc(m, g, r);
    XorAssoc(m, c, b);
  }

  lemma {:induction false} CutTop(v: nat, n: nat)
    requires n > 0
    ensures v % Pow2(n) == (if Bit(v, n - 1) then Pow2(n - 1) else 0) + v % Pow2(n - 1)
    decreases n
  {
    HalfOfRest(v, Pow2(n - 1));
    if n > 1 {
      HalfOfRest(v, Pow2(n - 2));
      CutTop(v / 2, n - 1);
    }
  }

  lemma {:induction false} RoundsDivide(q: nat, c: Word16, message: nat, byte: Byte, n: nat) returns (q': nat)
    requires n <= 8 && Divided(q, c, message)
    ensures Divided(q', Rounds(c, byte, n), Pow2(n) * message + byte % Pow2(n))
    decreases n
  {
    hide *;
    if n == 0 {
      q' := q;
      NoRounds(c, byte, message);
    } else {
      var bit := Bit(byte, n - 1);
      var b := if bit then 1 else 0;
      q' := RoundDivides(q, c, message, bit);
      q' := RoundsDivide(q', Round(c, bit), 2 * message + b, byte, n - 1);
      CutTop(byte, n);
      RoundsUnfold(c, byte, n);
      PowerShare(Pow2(n - 1), message, b);
    }
  }

  lemma NoRounds(c: Word16, byte: Byte, message: nat)
    ensures Rounds(c, byte, 0) == c && Pow2(0) * message + byte % Pow2(0) == message
  {
  }

  lemma RoundsUnfold(c: Word16, byte: Byte, n: nat)
    requires 0 < n <= 8
    ensures Rounds(c, byte, n) == Rounds(Round(c, Bit(byte, n - 1)), byte, n - 1) && Pow2(n) == 2 * Pow2(n - 1)
  {
    hide Round, Bit;
  }

  lemma PowerShare(p: nat, message: nat, b: nat)
    requires b <= 1
    ensures p * (2 * message + b) == (2 * p) * message + if b == 1 then p else 0
  {
    assert p * (2 * message) == (2 * p) * message;
  }

  /** The register is the remainder of the bytes, moved up by sixteen. */
  lemma {:induction false} FeedDivides(bytes: seq<Byte>) returns (q: nat)
    ensures Divided(q, Feed(0, bytes), Polynomial(bytes))
  {
    hide *;
    FeedNothing();
    if bytes == [] {
      q := 0;
    } else {
      var n := |bytes| - 1;
      q := FeedDivides(bytes[..n]);
      FeedLast(bytes);
      PowerEight();
      q := RoundsDivide(q, Feed(0, bytes[..n]), Polynomial(bytes[..n]), bytes[n], 8);
    }
  }

  lemma FeedNothing()
    ensures Divided(0, Feed(0, []), Polynomial([]))
  {
    XorZero(0, 0);
  }

  lemma FeedLast(bytes: seq<Byte>)
    requires |bytes| > 0
    ensures var n := |bytes| - 1;
            Feed(0, bytes) == Rounds(Feed(0, bytes[..n]), bytes[n], 8) && Polynomial(bytes) == 256 * Polynomial(bytes[..n]) + bytes[n]
  {
    hide Rounds;
  }

  lemma PowerEight()
    ensures Pow2(8) == 256
  {
    Pow2Table();
  }

  lemma TailWord(low: Byte, high: Byte)
    ensures Tail(low, high) == 256 * high + low
  {
    Pow2Table();
    ShlTimes(high, 8);
    XorDisjoint(high, low, 8);
    XorSwap(low, Shl(high, 8));
  }

  /** A word below 2^n added to a multiple of 2^n. */
  lemma XorDisjoint(a: nat, b: nat, n: nat)
    requires b < Pow2(n)
    ensures Xor(Shl(a, n), b) == a * Pow2(n) + b
  {
    ShlTimes(a, n);
    XorAdds(a, b, n);
  }

  lemma {:induction false} XorAdds(a: nat, b: nat, n: nat)
    requires b < Pow2(n)
    ensures Xor(a * Pow2(n), b) == a * Pow2(n) + b
    decreases n
  {
    hide Xor, Pow2;
    PowerZero();
    if n == 0 {
      XorZero(a, 0);
    } else {
      PowerTwice(n);
      var m := a * Pow2(n - 1);
      XorAdds(a, b / 2, n - 1);
      assert a * (2 * Pow2(n - 1)) == 2 * m;
      XorDoubled(m, b);
    }
  }

  lemma XorDoubled(m: nat, b: nat)
    ensures Xor(2 * m, b) == 2 * Xor(m, b / 2) + b % 2
  {
    if m == 0 && b == 0 { XorZero(0, 0); }
  }

  /** A payload of two bytes or more: the checksum is the remainder of the payload itself by
      x^16 + x^12 + x^5 + 1. The last two bytes go in unmultiplied, which makes it so. */
  lemma ChecksumIsRemainder(payload: seq<Byte>) returns (q: nat)
    requires |payload| >= 2
    ensures Polynomial(payload) == Xor(Product(q, GENERATOR), PayloadCrc(payload))
  {
    var n := |payload| - 2;
    var head, tail := payload[..n], Tail(payload[n + 1], payload[n]);
    q := FeedDivides(head);
    assert payload[..n + 1][..n] == head;
    assert Polynomial(payload[..n + 1]) == 256 * Polynomial(head) + payload[n];
    TailWord(payload[n + 1], payload[n]);
    assert Polynomial(payload) == 65536 * Polynomial(head) + tail;
    Pow2Table();
    XorAdds(Polynomial(head), tail, 16);
    XorAssoc(Product(q, GENERATOR), Feed(0, head), tail);
  }

  /** A single byte is multiplied by x^16 first. */
  lemma ShortChecksumIsRemainder(payload: seq<Byte>) returns (q: nat)
    requires |payload| < 2
    ensures 65536 * Polynomial(payload) == Xor(Product(q, GENERATOR), PayloadCrc(payload))
  {
    q := FeedDivides(payload);
  }

  // The remainder is unique.

  /** A nonzero multiple of the generator has degree sixteen or more. */
  lemma {:induction false} MultipleIsHigh(q: nat, n: nat)
    requires Pow2(n) <= q < 2 * Pow2(n)
    ensures 65536 * Pow2(n) <= Product(q, GENERATOR) < 131072 * Pow2(n)
    decreases n
  {
    hide *;
    PowerZero();
    GeneratorSize();
    if n == 0 {
      ProductOne(GENERATOR);
    } else {
      PowerTwice(n);
      MultipleIsHigh(q / 2, n - 1);
      ProductStep(q / 2, q % 2 == 1, GENERATOR);
      HighStep(Product(q / 2, GENERATOR), GENERATOR, q % 2 == 1, n);
    }
  }

  lemma GeneratorSize()
    ensures 65536 <= GENERATOR < 131072
  {
  }

  lemma PowerTwice(n: nat)
    requires n > 0
    ensures Pow2(n) == 2 * Pow2(n - 1)
  {
  }

  lemma HighStep(m: nat, g: nat, t: bool, n: nat)
    requires n > 0 && g < 131072 && 65536 * Pow2(n - 1) <= m < 131072 * Pow2(n - 1)
    ensures 65536 * Pow2(n) <= Xor(if t then g else 0, 2 * m) < 131072 * Pow2(n)
  {
    PowerTwice(n);
    PowerSum(n);
    PowerSum(1);
    PowerOne();
    hide *;
    Pow2Monotone(17, 16 + n);
    if t {
      XorTopKept(2 * m, g, 16 + n);
    } else {
      XorSwap(0, 2 * m);
      XorZero(2 * m, 0);
    }
  }

  lemma PowerOne()
    ensures Pow2(1) == 2
  {
  }

  lemma ProductOne(p: nat)
    ensures Product(1, p) == p
  {
    XorZero(p, 0);
    assert Product(0, p) == 0;
  }

  lemma {:induction false} XorTopKept(m: nat, g: nat, k: nat)
    requires Pow2(k) <= m < 2 * Pow2(k) && g < Pow2(k)
    ensures Pow2(k) <= Xor(g, m) < 2 * Pow2(k)
    decreases k
  {
    if k == 0 {
      XorSwap(0, 1);
      XorZero(1, 0);
    } else {
      XorTopKept(m / 2, g / 2, k - 1);
      assert Xor(g, m) == 2 * Xor(g / 2, m / 2) + if g % 2 != m % 2 then 1 else 0;
    }
  }

  lemma {:induction false} PowerSum(n: nat)
    ensures Pow2(16 + n) == 65536 * Pow2(n) && Pow2(17 + n) == 131072 * Pow2(n)
  {
    Pow2Table();
    if n > 0 { PowerSum(n - 1); }
    assert Pow2(17 + n) == 2 * Pow2(16 + n);
  }

  lemma {:induction false} ProductLinear(q: nat, q': nat, p: nat)
    ensures Product(Xor(q, q'), p) == Xor(Product(q, p), Product(q', p))
    decreases q + q'
  {
    hide *;
    if q == 0 && q' == 0 {
      ProductNothing(p);
    } else {
      var t, t' := q % 2 == 1, q' % 2 == 1;
      var a, a' := Product(q / 2, p), Product(q' / 2, p);
      ProductLinear(q / 2, q' / 2, p);
      ProductStep(Xor(q / 2, q' / 2), t != t', p);
      ProductStep(q / 2, t, p);
      ProductStep(q' / 2, t', p);
      XorHalves(q, q');
      assert q == 2 * (q / 2) + (if t then 1 else 0) && q' == 2 * (q' / 2) + if t' then 1 else 0;
      DoubleXor(a, a');
      var g, g' := if t then p else 0, if t' then p else 0;
      XorShuffle(g, 2 * a, g', 2 * a');
      Coefficients(p, t, t');
    }
  }

  lemma ProductNothing(p: nat)
    ensures Xor(0, 0) == 0 && Product(0, p) == 0
  {
    XorZero(0, 0);
  }

  lemma XorHalves(a: nat, b: nat)
    requires a != 0 || b != 0
    ensures Xor(a, b) == 2 * Xor(a / 2, b / 2) + if (a % 2 == 1) != (b % 2 == 1) then 1 else 0
  {
  }

  lemma Coefficients(p: nat, t: bool, t': bool)
    ensures Xor(if t then p else 0, if t' then p else 0) == if t != t' then p else 0
  {
    hide Xor;
    XorZero(p, p);
    XorZero(p, 0);
    XorZero(0, 0);
    XorSwap(0, p);
  }

  lemma {:induction false} Degree(q: nat) returns (n: nat)
    requires q > 0
    ensures Pow2(n) <= q < 2 * Pow2(n)
  {
    if q == 1 {
      n := 0;
    } else {
      n := Degree(q / 2);
      n := n + 1;
    }
  }

  /** There is one remainder below x^16, so the checksum is it. */
  lemma RemainderUnique(q: nat, r: nat, q': nat, r': nat)
    requires r < 65536 && r' < 65536 && Xor(Product(q, GENERATOR), r) == Xor(Product(q', GENERATOR), r')
    ensures q == q' && r == r'
  {
    var m, m' := Product(q, GENERATOR), Product(q', GENERATOR);
    var d := Xor(q, q');
    ProductLinear(q, q', GENERATOR);
    XorShuffle(m, r, m', r');
    XorZero(Xor(m, r), Xor(m', r'));
    XorZero(Xor(m, m'), Xor(r, r'));
    Pow2Table();
    XorBelow(r, r', 16);
    if d > 0 {
      var n := Degree(d);
      MultipleIsHigh(d, n);
    }
    XorZero(q, q');
    XorZero(r, r');
  }
}
