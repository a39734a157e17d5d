/** Soft decision: the nibble whose codeword collects the most log-likelihood,
    over exact reals, and the margin by which it wins. */
module SoftHamming {
  import opened Bits
  import opened Numbers
  import opened Hamming

  const UNBOUNDED: real := 1e300

  /** Log-likelihood of a codeword, up to a term common to all codewords:
      llr[i] is log P(1)/P(0) of bit i in transmission order. */
  function Score(llr: seq<real>, cr: nat, cw: nat, n: nat): real
    requires n <= |llr|
  {
    if n == 0 then 0.0
    else Score(llr, cr, cw, n - 1) + (if CodeBit(cw, cr, n - 1) then llr[n - 1] else 0.0)
  }

  function NibbleScore(llr: seq<real>, cr: nat, nibble: Nibble): real
    requires CodingRate(cr) && |llr| == 4 + cr
  {
    Score(llr, cr, HammingEncode(nibble, cr), 4 + cr)
  }

  function Scores(llr: seq<real>, cr: nat): (s: seq<real>)
    requires CodingRate(cr) && |llr| == 4 + cr
    ensures |s| == 16 && forall n: Nibble :: s[n] == NibbleScore(llr, cr, n)
  {
    seq(16, n requires 0 <= n < 16 => NibbleScore(llr, cr, n))
  }

  /** The first best of the first n scores. */
  function Leader(scores: seq<real>, n: nat): (best: nat)
    requires 1 <= n <= |scores|
    ensures best < n
  {
    if n == 1 then 0
    else
      var best := Leader(scores, n - 1);
      if scores[n - 1] > scores[best] then n - 1 else best
  }

  /** The best of the other scores, at least -UNBOUNDED. */
  function RunnerUp(scores: seq<real>, n: nat): real
    requires 1 <= n <= |scores|
  {
    if n == 1 then -UNBOUNDED
    else
      var best, s := scores[Leader(scores, n - 1)], scores[n - 1];
      if s > best then best
      else if s > RunnerUp(scores, n - 1) then s else RunnerUp(scores, n - 1)
  }

  function SoftNibble(llr: seq<real>, cr: nat): Nibble
    requires CodingRate(cr) && |llr| == 4 + cr
  {
    Leader(Scores(llr, cr), 16)
  }

  function Margin(llr: seq<real>, cr: nat): real
    requires CodingRate(cr) && |llr| == 4 + cr
  {
    NibbleScore(llr, cr, SoftNibble(llr, cr)) - RunnerUp(Scores(llr, cr), 16)
  }

  method ComputeScore(llr: seq<real>, cr: nat, cw: nat) returns (score: real)
    requires |llr| == 4 + cr
    ensures score == Score(llr, cr, cw, 4 + cr)
  {
    score := 0.0;
    for i := 0 to 4 + cr
      invariant score == Score(llr, cr, cw, i)
    {
      if Bit(cw, 3 + cr - i) {
        score := score + llr[i];
      }
    }
  }

  method HammingDecodeSoft(llr: seq<real>, cr: nat) returns (best: Nibble, margin: real)
    requires CodingRate(cr) && |llr| == 4 + cr
    ensures best == SoftNibble(llr, cr) && margin == Margin(llr, cr)
    ensures margin >= 0.0 && forall nib: Nibble | nib != best :: NibbleScore(llr, cr, nib) <= NibbleScore(llr, cr, best) - margin
    ensures (exists nib: Nibble :: nib != best && NibbleScore(llr, cr, nib) >= -UNBOUNDED)
        ==> exists nib: Nibble :: nib != best && NibbleScore(llr, cr, nib) == NibbleScore(llr, cr, best) - margin
  {
    MarginAttained(llr, cr);
    best := 0;
    var bestScore, secondScore := -UNBOUNDED, -UNBOUNDED;
    ghost var scores := Scores(llr, cr);
    ZeroScore(llr, cr, 4 + cr);
    assert scores[0] == 0.0;
    for nib := 0 to 16
      invariant nib == 0 ==> best == 0 && bestScore == secondScore == -UNBOUNDED
      invariant nib > 0 ==> best == Leader(scores, nib) && bestScore == scores[best]
      invariant nib > 0 ==> secondScore == RunnerUp(scores, nib)
    {
      var score := ComputeScore(llr, cr, HammingEncode(nib, cr));
      assert score == scores[nib];
      if score > bestScore {
        secondScore, bestScore, best := bestScore, score, nib;
      } else if score > secondScore {
        secondScore := score;
      }
    }
    margin := bestScore - secondScore;
  }

  /** The all-zero codeword scores zero, so the first nibble beats the sentinel. */
  lemma {:induction false} ZeroScore(llr: seq<real>, cr: nat, n: nat)
    requires CodingRate(cr) && n <= |llr| && n <= 4 + cr
    ensures Score(llr, cr, HammingEncode(0, cr), n) == 0.0
  {
    if n > 0 {
      ZeroScore(llr, cr, n - 1);
      EncodedBits(0, cr, n - 1);
      ZeroBit(0); ZeroBit(1); ZeroBit(2); ZeroBit(3);
    }
  }

  lemma {:induction false} LeaderIsBest(scores: seq<real>, n: nat, i: nat)
    requires i < n <= |scores|
    ensures scores[i] <= scores[Leader(scores, n)]
    ensures i != Leader(scores, n) ==> scores[i] <= RunnerUp(scores, n)
  {
    if n > 1 {
      LeaderIsBest(scores, n - 1, Leader(scores, n - 1));
      if i < n - 1 { LeaderIsBest(scores, n - 1, i); }
    }
  }

  lemma StrictBestLeads(llr: seq<real>, cr: nat, best: Nibble)
    requires CodingRate(cr) && |llr| == 4 + cr
    requires forall nib: Nibble | nib != best :: NibbleScore(llr, cr, nib) < NibbleScore(llr, cr, best)
    ensures SoftNibble(llr, cr) == best
  {
    LeaderIsBest(Scores(llr, cr), 16, best);
  }

  /** Maximum likelihood: no codeword scores more than the chosen one, and every
      other one trails it by at least the margin. */
  lemma MaximumLikelihood(llr: seq<real>, cr: nat, nib: Nibble)
    requires CodingRate(cr) && |llr| == 4 + cr
    ensures NibbleScore(llr, cr, nib) <= NibbleScore(llr, cr, SoftNibble(llr, cr))
    ensures nib != SoftNibble(llr, cr) ==>
              NibbleScore(llr, cr, nib) <= NibbleScore(llr, cr, SoftNibble(llr, cr)) - Margin(llr, cr)
  {
    LeaderIsBest(Scores(llr, cr), 16, nib);
  }

  /** The runner-up is no better than the leader, and is somebody's score unless nobody else reaches -UNBOUNDED. */
  lemma {:induction false} RunnerUpReached(scores: seq<real>, n: nat)
    requires 1 <= n <= |scores| && scores[Leader(scores, n)] >= -UNBOUNDED && scores[0] >= -UNBOUNDED
    ensures -UNBOUNDED <= RunnerUp(scores, n) <= scores[Leader(scores, n)]
    ensures RunnerUp(scores, n) == -UNBOUNDED || exists i: nat :: i < n && i != Leader(scores, n) && scores[i] == RunnerUp(scores, n)
  {
    if n > 1 {
      LeaderIsBest(scores, n - 1, 0);
      RunnerUpReached(scores, n - 1);
      var was := Leader(scores, n - 1);
      assert scores[was] >= -UNBOUNDED && (Leader(scores, n) == was || Leader(scores, n) == n - 1);
    }
  }

  /** The margin is never negative, and it is exactly what the best other codeword trails by,
      as long as one other codeword scores at least -UNBOUNDED. */
  lemma MarginAttained(llr: seq<real>, cr: nat)
    requires CodingRate(cr) && |llr| == 4 + cr
    ensures Margin(llr, cr) >= 0.0
    ensures forall nib: Nibble | nib != SoftNibble(llr, cr) ::
              NibbleScore(llr, cr, nib) <= NibbleScore(llr, cr, SoftNibble(llr, cr)) - Margin(llr, cr)
    ensures (exists nib: Nibble :: nib != SoftNibble(llr, cr) && NibbleScore(llr, cr, nib) >= -UNBOUNDED)
        ==> exists nib: Nibble :: nib != SoftNibble(llr, cr) &&
              NibbleScore(llr, cr, nib) == NibbleScore(llr, cr, SoftNibble(llr, cr)) - Margin(llr, cr)
  {
    var scores := Scores(llr, cr);
    var best := SoftNibble(llr, cr);
    ZeroScore(llr, cr, 4 + cr);
    assert scores[0] == 0.0;
    hide NibbleScore;
    LeaderIsBest(scores, 16, 0);
    RunnerUpReached(scores, 16);
    forall nib: Nibble | nib != best ensures NibbleScore(llr, cr, nib) <= RunnerUp(scores, 16) {
      LeaderIsBest(scores, 16, nib);
      assert scores[nib] == NibbleScore(llr, cr, nib);
    }
    if nib: Nibble :| nib != best && NibbleScore(llr, cr, nib) >= -UNBOUNDED {
      if RunnerUp(scores, 16) == -UNBOUNDED {
        assert NibbleScore(llr, cr, nib) == NibbleScore(llr, cr, best) - Margin(llr, cr);
      } else {
        var i: nat :| i < 16 && i != best && scores[i] == RunnerUp(scores, 16);
        var other: Nibble := i;
        assert scores[other] == NibbleScore(llr, cr, other);
      }
    }
  }

  /** Total absolute change between two LLR vectors. */
  function Change(a: seq<real>, b: seq<real>, n: nat): real
    requires n <= |a| && n <= |b|
  {
    if n == 0 then 0.0 else Change(a, b, n - 1) + Abs(b[n - 1] - a[n - 1])
  }

  /** How far a change of the LLRs can move the score difference of two codewords. */
  lemma {:induction false} ChangeBoundsGap(a: seq<real>, b: seq<real>, cr: nat, x: nat, y: nat, n: nat)
    requires n <= |a| && n <= |b|
    ensures (Score(b, cr, x, n) - Score(b, cr, y, n)) - (Score(a, cr, x, n) - Score(a, cr, y, n)) >= -Change(a, b, n)
  {
    if n > 0 { ChangeBoundsGap(a, b, cr, x, y, n - 1); }
  }

  /** A change of the LLRs that is smaller in total than the margin keeps the nibble. */
  lemma MarginProtects(a: seq<real>, b: seq<real>, cr: nat)
    requires CodingRate(cr) && |a| == |b| == 4 + cr
    requires Change(a, b, 4 + cr) < Margin(a, cr)
    ensures SoftNibble(b, cr) == SoftNibble(a, cr)
  {
    var best := SoftNibble(a, cr);
    forall nib: Nibble | nib != best ensures NibbleScore(b, cr, nib) < NibbleScore(b, cr, best) {
      MaximumLikelihood(a, cr, nib);
      ChangeBoundsGap(a, b, cr, HammingEncode(best, cr), HammingEncode(nib, cr), 4 + cr);
    }
    StrictBestLeads(b, cr, best);
  }

  // Clean and damaged codewords.

  /** Bit i's LLR has the sign of the sent bit and at least the size `level`. */
  predicate Supports(llr: real, bit: bool, level: real) {
    if bit then llr > 0.0 && llr >= level else llr < 0.0 && llr <= -level
  }

  /** Number of the first n bits in which two codewords differ. */
  function Distance(x: nat, y: nat, cr: nat, n: nat): nat {
    if n == 0 then 0
    else Distance(x, y, cr, n - 1) + One(CodeBit(x, cr, n - 1) != CodeBit(y, cr, n - 1))
  }

  /** The support behind the bits, other than bit k, in which a rival differs. */
  function Backing(x: nat, y: nat, cr: nat, n: nat, k: nat, level: real): real {
    if n == 0 then 0.0
    else Backing(x, y, cr, n - 1, k, level) +
         (if n - 1 != k && CodeBit(x, cr, n - 1) != CodeBit(y, cr, n - 1) then level else 0.0)
  }

  /** A rival trails by the backing of the bits it gets wrong, less at most the
      size of the one LLR that does not support. */
  lemma {:induction false} SupportGap(llr: seq<real>, cr: nat, x: nat, y: nat, n: nat, k: nat, level: real)
    requires n <= |llr| && k < |llr| && level >= 0.0
    requires forall i: nat | i < n && i != k :: Supports(llr[i], CodeBit(x, cr, i), level)
    ensures Score(llr, cr, x, n) - Score(llr, cr, y, n) >= Backing(x, y, cr, n, k, level) - (if k < n then Abs(llr[k]) else 0.0)
  {
    if n > 0 { SupportGap(llr, cr, x, y, n - 1, k, level); }
  }

  lemma {:induction false} BackingSize(x: nat, y: nat, cr: nat, n: nat, k: nat, level: real)
    requires level >= 0.0
    ensures Backing(x, y, cr, n, k, level) >= Times(Distance(x, y, cr, n) - One(k < n), level)
  {
    if n > 0 {
      BackingSize(x, y, cr, n - 1, k, level);
      var d: int := Distance(x, y, cr, n - 1) - One(k < n - 1);
      OneMore(d, level);
      OneMore(d - 1, level);
    }
  }

  function Times(d: int, level: real): real {
    d as real * level
  }

  lemma OneMore(d: int, level: real)
    ensures Times(d + 1, level) == Times(d, level) + level
  {
  }

  /** If every LLR has the sign of the codeword, any rival that differs trails. */
  lemma {:induction false} SignGap(llr: seq<real>, cr: nat, x: nat, y: nat, n: nat)
    requires n <= |llr|
    requires forall i: nat | i < n :: Supports(llr[i], CodeBit(x, cr, i), 0.0)
    ensures Score(llr, cr, x, n) - Score(llr, cr, y, n) >= 0.0
    ensures Distance(x, y, cr, n) > 0 ==> Score(llr, cr, x, n) > Score(llr, cr, y, n)
  {
    if n > 0 { SignGap(llr, cr, x, y, n - 1); }
  }

  lemma {:induction false} DistanceGrows(x: nat, y: nat, cr: nat, m: nat, n: nat)
    requires m <= n
    ensures Distance(x, y, cr, m) <= Distance(x, y, cr, n)
  {
    if m < n { DistanceGrows(x, y, cr, m, n - 1); }
  }

  lemma DataBitSent(nibble: Nibble, cr: nat, i: nat)
    requires CodingRate(cr) && i < 4
    ensures CodeBit(HammingEncode(nibble, cr), cr, i) == Bit(nibble, i)
  {
    EncodedBits(nibble, cr, i);
  }

  /** Codewords of different nibbles differ in one of the data bits. */
  lemma DifferentCodewords(a: Nibble, b: Nibble, cr: nat)
    requires CodingRate(cr) && a != b
    ensures Distance(HammingEncode(a, cr), HammingEncode(b, cr), cr, 4 + cr) > 0
  {
    var x, y := HammingEncode(a, cr), HammingEncode(b, cr);
    var i := DifferingBit(a, b);
    DataBitSent(a, cr, i);
    DataBitSent(b, cr, i);
    assert Distance(x, y, cr, i + 1) > 0;
    DistanceGrows(x, y, cr, i + 1, 4 + cr);
  }

  lemma DifferingBit(a: Nibble, b: Nibble) returns (i: nat)
    requires a != b
    ensures i < 4 && Bit(a, i) != Bit(b, i)
  {
    if Bit(a, 0) != Bit(b, 0) { return 0; }
    if Bit(a, 1) != Bit(b, 1) { return 1; }
    if Bit(a, 2) != Bit(b, 2) { return 2; }
    if Bit(a, 3) == Bit(b, 3) {
      Pow2Table();
      forall k: nat ensures Bit(a, k) == Bit(b, k) {
        if 4 <= k { HighBit(a, 4, k); HighBit(b, 4, k); }
      }
      SameBits(a, b);
    }
    return 3;
  }

  /** At rates 3 and 4 different codewords differ in at least cr bits. */
  lemma MinimumDistance(a: Nibble, b: Nibble, cr: nat)
    requires (cr == 3 || cr == 4) && a != b
    ensures Distance(HammingEncode(a, cr), HammingEncode(b, cr), cr, 4 + cr) >= cr
  {
    var x, y := HammingEncode(a, cr), HammingEncode(b, cr);
    var i := DifferingBit(a, b);
    var d0, d1, d2, d3 := Bit(a, 0) != Bit(b, 0), Bit(a, 1) != Bit(b, 1), Bit(a, 2) != Bit(b, 2), Bit(a, 3) != Bit(b, 3);
    var f := FullCodeword(d0, d1, d2, d3);
    forall k: nat | k < 4 + cr ensures (CodeBit(x, cr, k) != CodeBit(y, cr, k)) == f[k] {
      EncodedDifference(a, b, cr, k);
    }
    DistanceIsWeight(x, y, cr, f);
    WeightOfDifference(d0, d1, d2, d3);
  }

  lemma DistanceIsWeight(x: nat, y: nat, cr: nat, f: seq<bool>)
    requires (cr == 3 || cr == 4) && |f| == 8
    requires forall k: nat | k < 4 + cr :: (CodeBit(x, cr, k) != CodeBit(y, cr, k)) == f[k]
    ensures Distance(x, y, cr, 4 + cr) ==
            One(f[0]) + One(f[1]) + One(f[2]) + One(f[3]) + One(f[4]) + One(f[5]) + One(f[6]) + (if cr == 4 then One(f[7]) else 0)
  {
    hide CodeBit;
    DistanceSeven(x, y, cr);
    assert (CodeBit(x, cr, 0) != CodeBit(y, cr, 0)) == f[0] && (CodeBit(x, cr, 1) != CodeBit(y, cr, 1)) == f[1];
    assert (CodeBit(x, cr, 2) != CodeBit(y, cr, 2)) == f[2] && (CodeBit(x, cr, 3) != CodeBit(y, cr, 3)) == f[3];
    assert (CodeBit(x, cr, 4) != CodeBit(y, cr, 4)) == f[4] && (CodeBit(x, cr, 5) != CodeBit(y, cr, 5)) == f[5];
    assert (CodeBit(x, cr, 6) != CodeBit(y, cr, 6)) == f[6];
    if cr == 4 { assert Distance(x, y, cr, 8) == Distance(x, y, cr, 7) + One(CodeBit(x, cr, 7) != CodeBit(y, cr, 7)); }
  }

  lemma EncodedDifference(a: Nibble, b: Nibble, cr: nat, k: nat)
    requires (cr == 3 || cr == 4) && k < 4 + cr
    ensures (CodeBit(HammingEncode(a, cr), cr, k) != CodeBit(HammingEncode(b, cr), cr, k)) ==
            FullBit(Bit(a, 0) != Bit(b, 0), Bit(a, 1) != Bit(b, 1), Bit(a, 2) != Bit(b, 2), Bit(a, 3) != Bit(b, 3), k)
  {
    EncodedBits(a, cr, k);
    EncodedBits(b, cr, k);
    FullLinear(Bit(a, 0), Bit(a, 1), Bit(a, 2), Bit(a, 3), Bit(b, 0), Bit(b, 1), Bit(b, 2), Bit(b, 3), k);
  }

  lemma FullLinear(a0: bool, a1: bool, a2: bool, a3: bool, b0: bool, b1: bool, b2: bool, b3: bool, k: nat)
    requires k < 8
    ensures FullBit(a0 != b0, a1 != b1, a2 != b2, a3 != b3, k) ==
            (FullBit(a0, a1, a2, a3, k) != FullBit(b0, b1, b2, b3, k))
  {
    if k == 4 { Odd3Linear(a0, a1, a2, b0, b1, b2); }
    else if k == 5 { Odd3Linear(a1, a2, a3, b1, b2, b3); }
    else if k == 6 { Odd3Linear(a0, a1, a3, b0, b1, b3); }
    else if k == 7 { Odd3Linear(a0, a2, a3, b0, b2, b3); }
    else if k == 0 {} else if k == 1 {} else if k == 2 {} else {}
  }

  lemma Odd3Linear(a: bool, b: bool, c: bool, a': bool, b': bool, c': bool)
    ensures Odd3(a != a', b != b', c != c') == (Odd3(a, b, c) != Odd3(a', b', c'))
  {
  }

  lemma DistanceSeven(x: nat, y: nat, cr: nat)
    ensures Distance(x, y, cr, 7) ==
            One(CodeBit(x, cr, 0) != CodeBit(y, cr, 0)) + One(CodeBit(x, cr, 1) != CodeBit(y, cr, 1)) +
            One(CodeBit(x, cr, 2) != CodeBit(y, cr, 2)) + One(CodeBit(x, cr, 3) != CodeBit(y, cr, 3)) +
            One(CodeBit(x, cr, 4) != CodeBit(y, cr, 4)) + One(CodeBit(x, cr, 5) != CodeBit(y, cr, 5)) +
            One(CodeBit(x, cr, 6) != CodeBit(y, cr, 6))
  {
    assert Distance(x, y, cr, 1) == One(CodeBit(x, cr, 0) != CodeBit(y, cr, 0));
    assert Distance(x, y, cr, 2) == Distance(x, y, cr, 1) + One(CodeBit(x, cr, 1) != CodeBit(y, cr, 1));
    assert Distance(x, y, cr, 3) == Distance(x, y, cr, 2) + One(CodeBit(x, cr, 2) != CodeBit(y, cr, 2));
    assert Distance(x, y, cr, 4) == Distance(x, y, cr, 3) + One(CodeBit(x, cr, 3) != CodeBit(y, cr, 3));
    assert Distance(x, y, cr, 5) == Distance(x, y, cr, 4) + One(CodeBit(x, cr, 4) != CodeBit(y, cr, 4));
    assert Distance(x, y, cr, 6) == Distance(x, y, cr, 5) + One(CodeBit(x, cr, 5) != CodeBit(y, cr, 5));
    assert Distance(x, y, cr, 7) == Distance(x, y, cr, 6) + One(CodeBit(x, cr, 6) != CodeBit(y, cr, 6));
  }

  lemma WeightOfDifference(d0: bool, d1: bool, d2: bool, d3: bool)
    requires d0 || d1 || d2 || d3
    ensures var f := FullCodeword(d0, d1, d2, d3);
            var w := One(f[0]) + One(f[1]) + One(f[2]) + One(f[3]) + One(f[4]) + One(f[5]) + One(f[6]);
            w >= 3 && w + One(f[7]) >= 4
  {
    if d0 { if d1 { if d2 {} else {} } else { if d2 {} else {} } }
    else { if d1 { if d2 {} else {} } else { if d2 {} else {} } }
  }

  /** LLRs with the signs of a codeword decode to its nibble at every rate. */
  lemma SignsDecide(nibble: Nibble, llr: seq<real>, cr: nat)
    requires CodingRate(cr) && |llr| == 4 + cr
    requires forall i: nat | i < 4 + cr :: Supports(llr[i], CodeBit(HammingEncode(nibble, cr), cr, i), 0.0)
    ensures SoftNibble(llr, cr) == nibble
  {
    forall rival: Nibble | rival != nibble ensures NibbleScore(llr, cr, rival) < NibbleScore(llr, cr, nibble) {
      DifferentCodewords(nibble, rival, cr);
      SignGap(llr, cr, HammingEncode(nibble, cr), HammingEncode(rival, cr), 4 + cr);
    }
    StrictBestLeads(llr, cr, nibble);
  }

  /** One bit may say anything at rates 3 and 4, as long as its LLR is smaller
      than cr - 1 times the support the other bits have. */
  lemma SoftCorrects(nibble: Nibble, llr: seq<real>, cr: nat, k: nat, level: real)
    requires (cr == 3 || cr == 4) && |llr| == 4 + cr && k < 4 + cr && level > 0.0
    requires forall i: nat | i < 4 + cr && i != k :: Supports(llr[i], CodeBit(HammingEncode(nibble, cr), cr, i), level)
    requires Abs(llr[k]) < Times(cr - 1, level)
    ensures SoftNibble(llr, cr) == nibble
  {
    var x := HammingEncode(nibble, cr);
    forall rival: Nibble | rival != nibble ensures NibbleScore(llr, cr, rival) < NibbleScore(llr, cr, nibble) {
      var y := HammingEncode(rival, cr);
      MinimumDistance(nibble, rival, cr);
      SupportGap(llr, cr, x, y, 4 + cr, k, level);
      BackingSize(x, y, cr, 4 + cr, k, level);
      MulMonotone(cr - 1, Distance(x, y, cr, 4 + cr) - 1, level);
    }
    StrictBestLeads(llr, cr, nibble);
  }

  lemma MulMonotone(a: int, b: int, level: real)
    requires a <= b && level >= 0.0
    ensures Times(a, level) <= Times(b, level)
  {
  }
}
