/** The diagonal interleaver: symbol i takes bit i of every codeword, in an
    order that starts one codeword lower for each symbol. */
module Interleaver {
  import opened Bits
  import opened Modulo

  /** The codeword that owns bit j of symbol i, counted from the top. */
  function Owner(i: int, j: int, codewords: nat): nat
    requires codewords > 0
  {
    (i - j - 1) % codewords
  }

  /** Where codeword c sits in symbol i: the same map, it is its own inverse. */
  lemma OwnerInverse(i: int, j: nat, m: nat)
    requires j < m
    ensures Owner(i, Owner(i, j, m), m) == j
  {
    var q := Quotient(i - j - 1, m);
    assert i - Owner(i, j, m) - 1 == q * m + j;
    ModUnique(i - Owner(i, j, m) - 1, q, m, j);
  }

  /** The data bits of symbol i, most significant first. */
  function DataBits(cw: seq<nat>, cwLen: nat, i: nat): (bs: seq<bool>)
    requires |cw| > 0 && i < cwLen
    ensures |bs| == |cw|
  {
    seq(|cw|, j requires 0 <= j < |cw| => Bit(cw[Owner(i, j, |cw|)], cwLen - 1 - i))
  }

  /** Bit j of symbol i, from the top, is bit i, from the top, of the codeword c that lies j + 1 below i
      around the block: bit 0 of symbol 0 comes from the last codeword. */
  lemma DiagonalBit(cw: seq<nat>, cwLen: nat, i: nat, j: nat, c: nat)
    requires j < |cw| && c < |cw| && i < cwLen && (c + j + 1 - i) % |cw| == 0
    ensures DataBits(cw, cwLen, i)[j] == Bit(cw[c], cwLen - 1 - i)
  {
    var m := |cw|;
    var q := Quotient(c + j + 1 - i, m);
    assert i - j - 1 == (-q) * m + c;
    ModUnique(i - j - 1, -q, m, c);
  }

  function Ones(bs: seq<bool>): nat {
    if bs == [] then 0 else Ones(bs[..|bs| - 1]) + (if bs[|bs| - 1] then 1 else 0)
  }

  function WithParity(data: nat, ones: nat): nat {
    2 * data + ones % 2
  }

  /** Symbol i of a block; reduced-rate symbols end in a parity bit and zeros. */
  function Symbol(cw: seq<nat>, sf: nat, cwLen: nat, reduced: bool, i: nat): nat
    requires |cw| > 0 && i < cwLen && (reduced ==> |cw| < sf)
  {
    var bits := DataBits(cw, cwLen, i);
    if reduced then Shl(WithParity(FromBits(bits), Ones(bits)), sf - |cw| - 1) else FromBits(bits)
  }

  /** The block as the C++ loops compute it, into the first cwLen symbols of `out`. */
  method InterleaveBlock(cw: array<nat>, sf: nat, sfApp: nat, cwLen: nat, reduced: bool, out: array<nat>)
    requires 0 < sfApp <= cw.Length && cwLen <= out.Length && (reduced ==> sfApp < sf)
    requires cw != out
    modifies out
    ensures forall i: nat | i < cwLen :: out[i] == Symbol(cw[..sfApp], sf, cwLen, reduced, i)
    ensures out[cwLen..] == old(out[cwLen..])
  {
    hide Bit, Shl;
    for i := 0 to cwLen
      invariant cw[..sfApp] == old(cw[..sfApp])
      invariant forall k: nat | k < i :: out[k] == Symbol(cw[..sfApp], sf, cwLen, reduced, k)
      invariant out[cwLen..] == old(out[cwLen..])
    {
      var sym: nat, ones: nat := 0, 0;
      ghost var bits := DataBits(cw[..sfApp], cwLen, i);
      for j := 0 to sfApp
        invariant sym == FromBits(bits[..j]) && ones == Ones(bits[..j])
      {
        var src := Owner(i, j, sfApp);
        var bit := Bit(cw[src], cwLen - 1 - i);
        assert bits[..j + 1][..j] == bits[..j] && bits[j] == bit;
        sym := 2 * sym + (if bit then 1 else 0);
        ones := ones + (if bit then 1 else 0);
      }
      assert bits[..sfApp] == bits;
      if reduced {
        sym := WithParity(sym, ones);
        sym := Shl(sym, sf - sfApp - 1);
      }
      out[i] := sym;
    }
  }

  /** Bit j, counted from the top, of a symbol's data part. */
  predicate DataBit(symbol: nat, sfApp: nat, j: nat)
    requires j < sfApp
  {
    Bit(symbol, sfApp - 1 - j)
  }

  /** Codeword c as gathered from the first n symbols of a block. */
  function Gathered(symbols: seq<nat>, sfApp: nat, cwLen: nat, c: nat, n: nat): nat
    requires c < sfApp && n <= cwLen && n <= |symbols|
  {
    if n == 0 then 0
    else
      var before := Gathered(symbols, sfApp, cwLen, c, n - 1);
      if DataBit(symbols[n - 1], sfApp, Owner(n - 1, c, sfApp)) then OrBit(before, cwLen - n) else before
  }

  method DeinterleaveBlock(symbols: array<nat>, sfApp: nat, cwLen: nat, out: array<nat>)
    requires 0 < sfApp <= out.Length && cwLen <= symbols.Length && symbols != out
    modifies out
    ensures forall c: nat | c < sfApp :: out[c] == Gathered(symbols[..cwLen], sfApp, cwLen, c, cwLen)
    ensures out[sfApp..] == old(out[sfApp..])
  {
    for c := 0 to sfApp
      invariant forall k: nat | k < c :: out[k] == 0
      invariant out[sfApp..] == old(out[sfApp..])
    {
      out[c] := 0;
    }
    ghost var s := symbols[..cwLen];
    for i := 0 to cwLen
      invariant symbols[..cwLen] == s
      invariant forall c: nat | c < sfApp :: out[c] == Gathered(s, sfApp, cwLen, c, i)
      invariant out[sfApp..] == old(out[sfApp..])
    {
      for j := 0 to sfApp
        invariant symbols[..cwLen] == s
        invariant forall c: nat | c < sfApp ::
          out[c] == Gathered(s, sfApp, cwLen, c, if Owner(i, c, sfApp) < j then i + 1 else i)
        invariant out[sfApp..] == old(out[sfApp..])
      {
        var dst := Owner(i, j, sfApp);
        OwnerInverse(i, j, sfApp);
        forall c: nat | c < sfApp && Owner(i, c, sfApp) == j ensures c == dst { OwnerInverse(i, c, sfApp); }
        assert symbols[i] == s[i];
        if DataBit(symbols[i], sfApp, j) {
          out[dst] := OrBit(out[dst], cwLen - 1 - i);
        }
      }
    }
  }

  /** Bit b of a gathered codeword comes from symbol cwLen - 1 - b. */
  lemma {:induction false} GatheredBit(symbols: seq<nat>, sfApp: nat, cwLen: nat, c: nat, n: nat, b: nat)
    requires c < sfApp && n <= cwLen && n <= |symbols|
    ensures Bit(Gathered(symbols, sfApp, cwLen, c, n), b) ==
            (b < cwLen && cwLen - 1 - b < n && DataBit(symbols[cwLen - 1 - b], sfApp, Owner(cwLen - 1 - b, c, sfApp)))
  {
    if n == 0 {
      ZeroBit(b);
    } else {
      GatheredBit(symbols, sfApp, cwLen, c, n - 1, b);
      OrBitBit(Gathered(symbols, sfApp, cwLen, c, n - 1), cwLen - n, b);
    }
  }

  /** Symbol s carries the data bits of symbol i of the block `cw`. */
  ghost predicate Carries(s: nat, cw: seq<nat>, cwLen: nat, i: nat)
    requires |cw| > 0 && i < cwLen
  {
    forall j: nat | j < |cw| :: DataBit(s, |cw|, j) == DataBits(cw, cwLen, i)[j]
  }

  /** A damaged symbol reaches one bit of each codeword, and the same one in
      all of them: if every symbol but number k carries its data bits, every
      gathered codeword equals the one sent except perhaps in bit
      cwLen - 1 - k.  With k = cwLen nothing is damaged. */
  lemma DamageStaysInOneBit(symbols: seq<nat>, cw: seq<nat>, cwLen: nat, k: nat, c: nat, b: nat)
    requires |cw| > 0 && |symbols| == cwLen && c < |cw| && b < cwLen && b + k != cwLen - 1
    requires forall i: nat | i < cwLen && i != k :: Carries(symbols[i], cw, cwLen, i)
    ensures Bit(Gathered(symbols, |cw|, cwLen, c, cwLen), b) == Bit(cw[c], b)
  {
    hide Gathered;
    var i := cwLen - 1 - b;
    GatheredBit(symbols, |cw|, cwLen, c, cwLen, b);
    OwnerInverse(i, c, |cw|);
    assert Carries(symbols[i], cw, cwLen, i);
  }

  /** Intact blocks come back whole: gathering undoes the interleaver. */
  lemma BlockRoundTrip(symbols: seq<nat>, cw: seq<nat>, cwLen: nat, c: nat)
    requires |cw| > 0 && |symbols| == cwLen && c < |cw| && cw[c] < Pow2(cwLen)
    requires forall i: nat | i < cwLen :: Carries(symbols[i], cw, cwLen, i)
    ensures Gathered(symbols, |cw|, cwLen, c, cwLen) == cw[c]
  {
    var g := Gathered(symbols, |cw|, cwLen, c, cwLen);
    forall b: nat ensures Bit(g, b) == Bit(cw[c], b) {
      if b < cwLen {
        DamageStaysInOneBit(symbols, cw, cwLen, cwLen, c, b);
      } else {
        GatheredBit(symbols, |cw|, cwLen, c, cwLen, b);
        HighBit(cw[c], cwLen, b);
      }
    }
    SameBits(g, cw[c]);
  }

  lemma FullSymbolCarries(cw: seq<nat>, sf: nat, cwLen: nat, i: nat)
    requires |cw| > 0 && i < cwLen
    ensures Carries(Symbol(cw, sf, cwLen, false, i), cw, cwLen, i)
    ensures Symbol(cw, sf, cwLen, false, i) < Pow2(|cw|)
  {
    var bits := DataBits(cw, cwLen, i);
    FromBitsBound(bits);
    forall j: nat | j < |cw| ensures DataBit(FromBits(bits), |cw|, j) == bits[j] {
      FromBitsBit(bits, |cw| - 1 - j);
    }
  }

  lemma {:induction false} OnesParity(bs: seq<bool>)
    ensures XorBits(FromBits(bs), 0, |bs|) == (Ones(bs) % 2 == 1)
  {
    if bs != [] {
      var rest := bs[..|bs| - 1];
      OnesParity(rest);
      XorBitsShift(FromBits(bs), 0, |bs| - 1);
      HalvedXorBits(FromBits(bs), 0, |bs| - 1);
      assert FromBits(bs) / 2 == FromBits(rest);
      assert Bit(FromBits(bs), 0) == bs[|bs| - 1];
    }
  }

  lemma {:induction false} HalvedXorBits(v: nat, k: nat, n: nat)
    ensures XorBits(v, k + 1, n) == XorBits(v / 2, k, n)
  {
    if n > 0 { HalvedXorBits(v, k, n - 1); }
  }

  /** A reduced-rate symbol two bits wider than its data: shifting out the two
      low bits leaves the data, and those two bits are parity and zero. */
  lemma ReducedSymbol(cw: seq<nat>, sf: nat, cwLen: nat, i: nat)
    requires |cw| > 0 && |cw| + 2 == sf && i < cwLen
    ensures var word := Symbol(cw, sf, cwLen, true, i);
            && word < Pow2(sf)
            && Carries(Shr(word, 2), cw, cwLen, i)
            && !Bit(word, 0) && Bit(word, 1) == XorBits(word, 2, sf - 2)
  {
    var bits := DataBits(cw, cwLen, i);
    var data := FromBits(bits);
    var p := Ones(bits) % 2;
    var word := Symbol(cw, sf, cwLen, true, i);
    assert Shl(WithParity(data, Ones(bits)), 1) == 2 * WithParity(data, Ones(bits));
    assert word == 4 * data + 2 * p;
    assert word / 2 == 2 * data + p && word / 2 / 2 == data;
    assert Shr(word, 2) == Shr(word / 2, 1) == data;
    FromBitsBound(bits);
    assert Pow2(sf) == 2 * Pow2(sf - 1) == 4 * Pow2(sf - 2);
    FullSymbolCarries(cw, sf, cwLen, i);
    OnesParity(bits);
    HalvedXorBits(word, 1, sf - 2);
    HalvedXorBits(word / 2, 0, sf - 2);
    assert Bit(word, 1) == Bit(word / 2, 0);
  }
}
