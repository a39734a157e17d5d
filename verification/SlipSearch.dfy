/** The beam search over chip slips, against offset lists scored by a filter run alone. */
module SlipSearch {
  // Every path shares one covariance recursion and is recovered by parent
  // pointers; the specification knows neither.

  import opened Numbers
  import opened Kalman

  /** A symbol's range of observations, and whether it is reduced-rate. */
  datatype SlipSym = SlipSym(obs0: nat, obs1: nat, reduced: bool)

  const SLIP_COST: real := 6.0
  const PATHS: nat := 48

  function Stride(sym: SlipSym): int {
    if sym.reduced then 4 else 1
  }

  datatype Problem = Problem(syms: seq<SlipSym>, obs: seq<Obs>, q: real, sigma: real) {
    predicate Ranges() {
      forall k: nat | k < |syms| :: syms[k].obs0 <= syms[k].obs1 <= |obs|
    }

    /** When the last observation of the first k symbols was taken. */
    ghost function EndTime(k: nat): real
      requires Ranges() && k <= |syms|
    {
      if k == 0 then 0.0
      else
        var sym := syms[k - 1];
        if sym.obs0 == sym.obs1 then EndTime(k - 1) else obs[sym.obs1 - 1].t
    }

    function Seen(k: nat): (zs: seq<Obs>)
      requires Ranges() && k < |syms|
    {
      obs[syms[k].obs0..syms[k].obs1]
    }

    /** Time does not go back from one observation to the next. */
    ghost predicate Valid() {
      Ranges() && q >= 0.0 && forall k: nat | k < |syms| :: Ordered(Seen(k), EndTime(k))
    }

    function Start(): Filter {
      Filter(Clock(Cov(1000000.0, 0.0, Square(4.0 * sigma + 1.0)), 0.0), 0.0, 0.0, 0.0)
    }
  }

  // Offset lists and their score.

  /** The offset carried into symbol k. */
  function Before(offs: seq<int>): int {
    if |offs| == 0 then 0 else offs[|offs| - 1]
  }

  /** Consecutive offsets differ by nothing or by one stride of the later symbol. */
  ghost predicate Admissible(syms: seq<SlipSym>, offs: seq<int>) {
    |offs| <= |syms| && forall k: nat | k < |offs| :: offs[k] - Before(offs[..k]) in {0, -Stride(syms[k]), Stride(syms[k])}
  }

  function Slips(offs: seq<int>): nat {
    if |offs| == 0 then 0
    else
      var k := |offs| - 1;
      Slips(offs[..k]) + if offs[k] != Before(offs[..k]) then 1 else 0
  }

  function Shift(zs: seq<Obs>, o: int): (r: seq<Obs>)
    ensures |r| == |zs| && forall i: nat | i < |zs| :: r[i] == zs[i].(y := zs[i].y + o as real)
  {
    seq(|zs|, i requires 0 <= i < |zs| => zs[i].(y := zs[i].y + o as real))
  }

  /** The observations of the first |offs| symbols, each symbol's shifted by its own offset. */
  ghost function Shifted(p: Problem, offs: seq<int>): (zs: seq<Obs>)
    requires p.Ranges() && |offs| <= |p.syms|
  {
    if |offs| == 0 then []
    else
      var k := |offs| - 1;
      Shifted(p, offs[..k]) + Shift(p.Seen(k), offs[k])
  }

  /** An ordinary filter run over the shifted observations. */
  ghost function Alone(p: Problem, offs: seq<int>): Filter
    requires p.Ranges() && |offs| <= |p.syms|
  {
    Run(p.Start(), Shifted(p, offs), p.q)
  }

  /** Six for each slip. */
  function SlipCharge(offs: seq<int>): real {
    SLIP_COST * Slips(offs) as real
  }

  /** The slip charge plus the filter's normalised squared innovations. */
  ghost function Cost(p: Problem, offs: seq<int>): real
    requires p.Ranges() && |offs| <= |p.syms|
  {
    SlipCharge(offs) + Alone(p, offs).cost
  }

  // What a beam is.

  /** One symbol's offset appended to a list of the beam. */
  ghost predicate Extends(p: Problem, beam: seq<seq<int>>, offs: seq<int>) {
    |offs| > 0 && Admissible(p.syms, offs) && offs[..|offs| - 1] in beam
  }

  ghost predicate Distinct<T>(s: seq<T>) {
    forall i: nat, j: nat | i < j < |s| :: s[i] != s[j]
  }

  ghost predicate ScoredAscending(p: Problem, beam: seq<seq<int>>)
    requires p.Valid() && forall offs | offs in beam :: |offs| <= |p.syms|
  {
    forall i: nat, j: nat | i < j < |beam| :: Cost(p, beam[i]) <= Cost(p, beam[j])
  }

  function Kept(n: nat): nat {
    if n < PATHS then n else PATHS
  }

  /** `to` holds the best 48 extensions of `from`, best first. */
  ghost predicate BeamStep(p: Problem, from: seq<seq<int>>, to: seq<seq<int>>, k: nat)
    requires p.Valid() && k < |p.syms|
  {
    && (forall i: nat | i < |to| :: |to[i]| == k + 1 && Extends(p, from, to[i]))
    && |to| == Kept(3 * |from|) && Distinct(to)
    && ScoredAscending(p, to)
    && (3 * |from| <= PATHS ==> forall offs: seq<int> | |offs| == k + 1 && Extends(p, from, offs) :: offs in to)
    && (forall offs: seq<int>, i: nat | |offs| == k + 1 && Extends(p, from, offs) && offs !in to && i < |to| ::
          Cost(p, to[i]) <= Cost(p, offs))
  }

  ghost predicate BeamRun(p: Problem, beams: seq<seq<seq<int>>>)
    requires p.Valid()
  {
    && 0 < |beams| <= |p.syms| + 1 && beams[0] == [[]]
    && forall k: nat | k + 1 < |beams| :: BeamStep(p, beams[k], beams[k + 1], k)
  }

  // What every beam run promises.

  ghost predicate Moves(reduced: bool, d: int) {
    d == 0 || (if reduced then d == -4 || d == 4 else d == -1 || d == 1)
  }

  lemma {:induction false} BeamShape(p: Problem, beams: seq<seq<seq<int>>>, k: nat)
    requires p.Valid() && BeamRun(p, beams) && k < |beams|
    ensures forall i: nat | i < |beams[k]| :: |beams[k][i]| == k && Admissible(p.syms, beams[k][i])
    ensures |beams[k]| > 0 && Distinct(beams[k])
    ensures forall i: nat, j: nat | i < |beams[k]| && j < k :: Moves(p.syms[j].reduced, beams[k][i][j] - Before(beams[k][i][..j]))
  {
    if k > 0 {
      BeamShape(p, beams, k - 1);
      assert BeamStep(p, beams[k - 1], beams[k], k - 1);
    }
  }

  function Power3(n: nat): (r: nat)
    ensures r > 0
  {
    if n == 0 then 1 else 3 * Power3(n - 1)
  }

  lemma {:induction false} BeamSize(p: Problem, beams: seq<seq<seq<int>>>, k: nat)
    requires p.Valid() && BeamRun(p, beams) && k < |beams|
    ensures |beams[k]| == if Power3(k) < 48 then Power3(k) else 48
  {
    if k > 0 {
      BeamSize(p, beams, k - 1);
      assert BeamStep(p, beams[k - 1], beams[k], k - 1);
    }
  }

  lemma StartPsd(p: Problem)
    ensures Psd(p.Start().clock.cov)
  {
    ProductNonnegative(1000000.0, Square(4.0 * p.sigma + 1.0));
  }

  lemma AloneStep(p: Problem, offs: seq<int>)
    requires p.Ranges() && 0 < |offs| <= |p.syms|
    ensures var k := |offs| - 1;
            Alone(p, offs) == Run(Alone(p, offs[..k]), Shift(p.Seen(k), offs[k]), p.q)
  {
    hide Run;
    var k := |offs| - 1;
    RunConcat(p.Start(), Shifted(p, offs[..k]), Shift(p.Seen(k), offs[k]), p.q);
  }

  lemma ShiftOrdered(zs: seq<Obs>, o: int, t: real)
    requires Ordered(zs, t)
    ensures Ordered(Shift(zs, o), t) && SameTimes(zs, Shift(zs, o))
  {
  }

  /** A run over shifted observations: a valid covariance, no lower cost, and the time of the last one. */
  lemma ShiftedRun(b: Filter, zs: seq<Obs>, o: int, q: real)
    requires Psd(b.clock.cov) && Ordered(zs, b.clock.t) && q >= 0.0
    ensures var r := Run(b, Shift(zs, o), q);
            Psd(r.clock.cov) && r.cost >= b.cost && r.clock.t == if |zs| == 0 then b.clock.t else zs[|zs| - 1].t
  {
    hide Run, Psd;
    ShiftOrdered(zs, o, b.clock.t);
    hide Ordered;
    RunValid(b, Shift(zs, o), q);
  }

  lemma {:induction false} AloneValid(p: Problem, offs: seq<int>)
    requires p.Valid() && |offs| <= |p.syms|
    ensures Psd(Alone(p, offs).clock.cov) && Alone(p, offs).clock.t == p.EndTime(|offs|)
  {
    if |offs| == 0 {
      hide Run, Psd;
      StartPsd(p);
      assert Alone(p, offs) == p.Start() by { RunNothing(p.Start(), p.q); }
    } else {
      var k := |offs| - 1;
      assert p.q >= 0.0 && Ordered(p.Seen(k), p.EndTime(k));
      EndTimeStep(p, k);
      AloneValid(p, offs[..k]);
      hide *;
      AloneStep(p, offs);
      ShiftedRun(Alone(p, offs[..k]), p.Seen(k), offs[k], p.q);
    }
  }

  lemma EndTimeStep(p: Problem, k: nat)
    requires p.Ranges() && k < |p.syms|
    ensures p.EndTime(k + 1) == if |p.Seen(k)| == 0 then p.EndTime(k) else p.Seen(k)[|p.Seen(k)| - 1].t
  {
  }

  lemma RunNothing(s: Filter, q: real)
    ensures Run(s, [], q) == s
  {
  }

  /** Extending a list of offsets never lowers its score. */
  lemma CostStep(p: Problem, offs: seq<int>)
    requires p.Valid() && 0 < |offs| <= |p.syms|
    ensures Cost(p, offs[..|offs| - 1]) <= Cost(p, offs)
  {
    var k := |offs| - 1;
    hide Run, Psd;
    AloneValid(p, offs[..k]);
    AloneStep(p, offs);
    hide Alone, Shift;
    ShiftedRun(Alone(p, offs[..k]), p.Seen(k), offs[k], p.q);
  }

  lemma {:induction false} CostMonotone(p: Problem, offs: seq<int>, m: nat)
    requires p.Valid() && m <= |offs| <= |p.syms|
    ensures Cost(p, offs[..m]) <= Cost(p, offs)
    decreases |offs|
  {
    if m == |offs| {
      assert offs[..m] == offs;
    } else {
      hide Cost;
      assert offs[..|offs| - 1][..m] == offs[..m];
      CostMonotone(p, offs[..|offs| - 1], m);
      CostStep(p, offs);
    }
  }

  lemma AdmissiblePrefix(syms: seq<SlipSym>, offs: seq<int>, m: nat)
    requires Admissible(syms, offs) && m <= |offs|
    ensures Admissible(syms, offs[..m])
  {
    forall k: nat | k < m ensures offs[..m][k] - Before(offs[..m][..k]) in {0, -Stride(syms[k]), Stride(syms[k])} {
      assert offs[..m][..k] == offs[..k];
    }
  }

  /** At step m, 48 lists were kept that score no worse than the prefix of offs, and hence than offs. */
  ghost predicate Beaten(p: Problem, beams: seq<seq<seq<int>>>, offs: seq<int>, m: nat)
    requires p.Valid() && |offs| <= |p.syms|
  {
    && 0 < m <= |offs| && m < |beams| && |beams[m]| == 48 && offs[..m] !in beams[m]
    && forall i: nat | i < 48 :: |beams[m][i]| == m && Cost(p, beams[m][i]) <= Cost(p, offs)
  }

  /** Any admissible offset list survives, or was beaten by a full beam on its way. */
  lemma {:induction false} SurvivesOrBeaten(p: Problem, beams: seq<seq<seq<int>>>, offs: seq<int>)
    requires p.Valid() && BeamRun(p, beams) && Admissible(p.syms, offs) && |offs| < |beams|
    ensures offs in beams[|offs|] || exists m: nat :: Beaten(p, beams, offs, m)
  {
    hide Cost, Problem.Valid, BeamStep;
    if |offs| > 0 {
      var k := |offs| - 1;
      var prefix := offs[..k];
      AdmissiblePrefix(p.syms, offs, k);
      SurvivesOrBeaten(p, beams, prefix);
      CostStep(p, offs);
      BeamShape(p, beams, k + 1);
      if prefix !in beams[k] {
        var m: nat :| Beaten(p, beams, prefix, m);
        assert prefix[..m] == offs[..m];
        assert Beaten(p, beams, offs, m);
      } else if offs !in beams[k + 1] {
        assert BeamStep(p, beams[k], beams[k + 1], k);
        assert offs[..k + 1] == offs;
        DroppedWasBeaten(p, beams, k, offs);
      }
    }
  }

  lemma DroppedWasBeaten(p: Problem, beams: seq<seq<seq<int>>>, k: nat, offs: seq<int>)
    requires p.Valid() && k < |p.syms| && k + 1 < |beams| && BeamStep(p, beams[k], beams[k + 1], k)
    requires |offs| == k + 1 && Extends(p, beams[k], offs) && offs !in beams[k + 1]
    ensures Beaten(p, beams, offs, k + 1)
  {
    hide Cost, Problem.Valid, Extends;
    assert offs[..k + 1] == offs;
  }

  lemma NothingDropped(p: Problem, from: seq<seq<int>>, to: seq<seq<int>>, k: nat, offs: seq<int>)
    requires p.Valid() && k < |p.syms| && BeamStep(p, from, to, k) && 3 * |from| <= PATHS
    requires |offs| == k + 1 && Extends(p, from, offs)
    ensures offs in to && Cost(p, to[0]) <= Cost(p, offs)
  {
    hide Cost, Extends;
    var i: nat :| i < |to| && to[i] == offs;
    assert i > 0 ==> Cost(p, to[0]) <= Cost(p, to[i]);
  }

  /** While 3^n <= 48 the search is exhaustive: every admissible list survives and the first is the best of all. */
  lemma {:induction false} ExhaustiveWhileSmall(p: Problem, beams: seq<seq<seq<int>>>, offs: seq<int>)
    requires p.Valid() && BeamRun(p, beams) && Admissible(p.syms, offs) && |offs| < |beams| && Power3(|offs|) <= 48
    ensures offs in beams[|offs|]
    ensures |beams[|offs|][0]| == |offs| && Cost(p, beams[|offs|][0]) <= Cost(p, offs)
  {
    hide Cost, Problem.Valid, BeamStep;
    BeamShape(p, beams, |offs|);
    if |offs| == 0 {
      assert offs == [] == beams[0][0];
    } else {
      var k := |offs| - 1;
      AdmissiblePrefix(p.syms, offs, k);
      assert Power3(|offs|) == 3 * Power3(k);
      ExhaustiveWhileSmall(p, beams, offs[..k]);
      BeamSize(p, beams, k);
      assert BeamStep(p, beams[k], beams[k + 1], k);
      assert Extends(p, beams[k], offs);
      NothingDropped(p, beams[k], beams[k + 1], k, offs);
    }
  }

  // The search itself.

  datatype Path = Path(f: real, fd: real, metric: real, o: int, parent: nat)

  datatype Link = Link(parent: nat, o: int)

  /** The state a path stands for, given the shared clock. */
  function StateOf(p: Path, clock: Clock): Filter {
    Filter(clock, p.f, p.fd, p.metric)
  }

  /** The path's numbers are those of its offsets' own filter, plus six for each slip. */
  ghost predicate Scores(p: Problem, path: Path, offs: seq<int>)
    requires p.Ranges() && |offs| <= |p.syms|
  {
    var alone := Alone(p, offs);
    && path.o == Before(offs) && path.f == alone.f && path.fd == alone.fd && path.metric == Cost(p, offs)
  }

  ghost predicate AllScore(p: Problem, paths: seq<Path>, beam: seq<seq<int>>)
    requires p.Ranges()
  {
    |paths| == |beam| && forall i: nat | i < |paths| :: |beam[i]| <= |p.syms| && Scores(p, paths[i], beam[i])
  }

  /** The gains of consecutive observations, each computed from the clock the ones before it leave. */
  ghost predicate GainsOf(gains: seq<Gain>, clock: Clock, zs: seq<Obs>, q: real) {
    && |gains| == |zs|
    && forall j: nat | j < |zs| ::
         && gains[j] == GainAt(Run(Filter(clock, 0.0, 0.0, 0.0), zs[..j], q).clock, zs[j], q)
         && GainValid(gains[j])
  }

  /** The covariance recursion of one symbol, run once for all paths. */
  method SharedGains(clock: Clock, zs: seq<Obs>, q: real) returns (gains: seq<Gain>, after: Clock)
    requires Psd(clock.cov) && Ordered(zs, clock.t) && q >= 0.0
    ensures GainsOf(gains, clock, zs, q)
    ensures after == Run(Filter(clock, 0.0, 0.0, 0.0), zs, q).clock
  {
    ghost var s := Filter(clock, 0.0, 0.0, 0.0);
    gains, after := [], clock;
    hide Run, Psd, GainAt, GainValid, Tick;
    RunNothing(s, q);
    for j := 0 to |zs|
      invariant |gains| == j && after == Run(s, zs[..j], q).clock
      invariant forall i: nat | i < j :: gains[i] == GainAt(Run(s, zs[..i], q).clock, zs[i], q) && GainValid(gains[i])
    {
      assert zs[..j + 1] == zs[..j] + [zs[j]];
      RunStep(s, zs[..j], zs[j], q);
      StepClock(Run(s, zs[..j], q), zs[j], q);
      RunGains(s, zs, q);
      gains := gains + [GainAt(after, zs[j], q)];
      after := Tick(after, zs[j], q);
    }
    assert zs[..|zs|] == zs;
  }

  /** One path carried over a symbol's observations at offset o, with the shared gains. */
  method Carry(path: Path, o: int, parent: nat, zs: seq<Obs>, gains: seq<Gain>, ghost clock: Clock, ghost q: real) returns (r: Path)
    requires GainsOf(gains, clock, zs, q)
    ensures r.o == o && r.parent == parent
    ensures var s := Run(StateOf(path, clock), Shift(zs, o), q);
            r.f == s.f && r.fd == s.fd && r.metric == s.cost
  {
    ghost var s, shifted := StateOf(path, clock), Shift(zs, o);
    var f, fd, metric := path.f, path.fd, path.metric;
    RunNothing(s, q);
    hide Run, GainAt, Tick;
    for j := 0 to |zs|
      invariant var now := Run(s, shifted[..j], q); f == now.f && fd == now.fd && metric == now.cost
    {
      var g := gains[j];
      assert shifted[..j + 1] == shifted[..j] + [shifted[j]];
      RunStep(s, shifted[..j], shifted[j], q);
      SharedGain(clock, s, zs, shifted, j, q);
      assert GainValid(g);
      hide Ratio, Ahead, Corrected, Square, GainsOf, StateOf;
      f := Ahead(f, fd, g.dt);
      var nu := zs[j].y + o as real - f;
      metric := metric + Quotient(nu, g.sv);
      f := Corrected(f, g.k0, nu);
      fd := Corrected(fd, g.k1, nu);
    }
    assert shifted[..|zs|] == shifted;
    r := Path(f, fd, metric, o, parent);
  }

  function Quotient(nu: real, sv: real): (r: real)
    requires sv > 0.0
    ensures r == Ratio(Square(nu), sv)
  {
    nu * nu / sv
  }

  /** The gain does not depend on the path. */
  lemma SharedGain(clock: Clock, s: Filter, zs: seq<Obs>, shifted: seq<Obs>, j: nat, q: real)
    requires s.clock == clock && SameTimes(zs, shifted) && j < |zs|
    ensures GainAt(Run(Filter(clock, 0.0, 0.0, 0.0), zs[..j], q).clock, zs[j], q) == GainAt(Run(s, shifted[..j], q).clock, shifted[j], q)
  {
    hide Run;
    SharedClock(Filter(clock, 0.0, 0.0, 0.0), s, zs[..j], shifted[..j], q);
  }

  lemma {:induction false} CostShift(s: Filter, d: real, zs: seq<Obs>, q: real)
    ensures Run(s.(cost := s.cost + d), zs, q) == var r := Run(s, zs, q); r.(cost := r.cost + d)
  {
    if |zs| > 0 {
      var n := |zs| - 1;
      CostShift(s, d, zs[..n], q);
      hide Step;
      StepShift(Run(s, zs[..n], q), d, zs[n], q);
    }
  }

  lemma StepShift(b: Filter, d: real, z: Obs, q: real)
    ensures Step(b.(cost := b.cost + d), z, q) == var r := Step(b, z, q); r.(cost := r.cost + d)
  {
    hide GainAt, Tick, Ratio, Square, Ahead, Corrected;
  }

  lemma ChargeStep(offs: seq<int>, o: int)
    ensures SlipCharge(offs + [o]) == SlipCharge(offs) + if o != Before(offs) then SLIP_COST else 0.0
    ensures Before(offs + [o]) == o
  {
    var all := offs + [o];
    assert all[..|all| - 1] == offs && all[|offs|] == o;
  }

  lemma ScoreParts(p: Problem, path: Path, offs: seq<int>)
    requires p.Ranges() && |offs| <= |p.syms|
    ensures Scores(p, path, offs) <==>
      var alone := Alone(p, offs);
      path.o == Before(offs) && path.f == alone.f && path.fd == alone.fd && path.metric == SlipCharge(offs) + alone.cost
  {
    hide Alone, Slips;
  }

  /** A path carried one symbol further scores the longer list. */
  lemma CarriedScores(p: Problem, path: Path, offs: seq<int>, charge: real, r: Path, s: Filter)
    requires p.Ranges() && |offs| < |p.syms| && Scores(p, path, offs)
    requires charge == if r.o != path.o then SLIP_COST else 0.0
    requires s == Run(StateOf(path.(metric := path.metric + charge), Alone(p, offs).clock), Shift(p.Seen(|offs|), r.o), p.q)
    requires r.f == s.f && r.fd == s.fd && r.metric == s.cost
    ensures Scores(p, r, offs + [r.o])
  {
    hide *;
    var all := offs + [r.o];
    assert |all| == |offs| + 1 && all[..|offs|] == offs && all[|offs|] == r.o;
    ScoreParts(p, path, offs);
    ChargedState(p, path, offs, charge);
    ChargeStep(offs, r.o);
    AloneStep(p, all);
    ScoreParts(p, r, all);
    var alone := Alone(p, offs);
    CostShift(alone, SlipCharge(offs) + charge, Shift(p.Seen(|offs|), r.o), p.q);
    assert Alone(p, all) == Run(alone, Shift(p.Seen(|offs|), r.o), p.q);
  }

  lemma ChargedState(p: Problem, path: Path, offs: seq<int>, charge: real)
    requires p.Ranges() && |offs| <= |p.syms| && Scores(p, path, offs)
    ensures var alone := Alone(p, offs);
            StateOf(path.(metric := path.metric + charge), alone.clock) == alone.(cost := alone.cost + (SlipCharge(offs) + charge))
  {
    hide Alone, SlipCharge, Problem.Ranges;
  }

  // The three ways to go on from each list of the beam.

  ghost function Three(p: Problem, offs: seq<int>): (t: seq<seq<int>>)
    requires |offs| < |p.syms|
    ensures |t| == 3
  {
    var b, stride := Before(offs), Stride(p.syms[|offs|]);
    [offs + [b], offs + [b - stride], offs + [b + stride]]
  }

  ghost function Candidates(p: Problem, beam: seq<seq<int>>): (c: seq<seq<int>>)
    requires forall i: nat | i < |beam| :: |beam[i]| < |p.syms|
    ensures |c| == 3 * |beam|
  {
    if |beam| == 0 then [] else Candidates(p, beam[..|beam| - 1]) + Three(p, beam[|beam| - 1])
  }

  lemma AdmissibleExtension(syms: seq<SlipSym>, offs: seq<int>, o: int)
    requires Admissible(syms, offs) && |offs| < |syms| && o - Before(offs) in {0, -Stride(syms[|offs|]), Stride(syms[|offs|])}
    ensures Admissible(syms, offs + [o])
  {
    var all := offs + [o];
    forall k: nat | k < |all| ensures all[k] - Before(all[..k]) in {0, -Stride(syms[k]), Stride(syms[k])} {
      assert all[..k] == offs[..k];
      if k == |offs| { assert all[..k] == offs; }
    }
  }

  lemma ThreeValid(p: Problem, offs: seq<int>, c: nat)
    requires |offs| < |p.syms| && Admissible(p.syms, offs) && c < 3
    ensures var x := Three(p, offs)[c]; |x| == |offs| + 1 && x[..|offs|] == offs && Admissible(p.syms, x)
  {
    var b, stride := Before(offs), Stride(p.syms[|offs|]);
    var o := if c == 0 then b else if c == 1 then b - stride else b + stride;
    AdmissibleExtension(p.syms, offs, o);
    hide Admissible;
    assert Three(p, offs)[c] == offs + [o];
  }

  lemma ThreeDistinct(p: Problem, offs: seq<int>)
    requires |offs| < |p.syms|
    ensures Distinct(Three(p, offs))
  {
    var t, k := Three(p, offs), |offs|;
    assert t[0][k] == Before(offs);
    assert t[1][k] == Before(offs) - Stride(p.syms[k]);
    assert t[2][k] == Before(offs) + Stride(p.syms[k]);
  }

  lemma ThreeComplete(p: Problem, offs: seq<int>, x: seq<int>)
    requires |offs| < |p.syms| && |x| == |offs| + 1 && Admissible(p.syms, x) && x[..|offs|] == offs
    ensures x in Three(p, offs)
  {
    var k, d := |offs|, x[|offs|] - Before(offs);
    assert x[k] - Before(x[..k]) in {0, -Stride(p.syms[k]), Stride(p.syms[k])};
    assert d == 0 || d == -Stride(p.syms[k]) || d == Stride(p.syms[k]);
    hide Admissible, Stride, Before;
    assert x == offs + [Before(offs) + d];
    ThreeHas(p, offs, d);
  }

  lemma ThreeHas(p: Problem, offs: seq<int>, d: int)
    requires |offs| < |p.syms| && (d == 0 || d == -Stride(p.syms[|offs|]) || d == Stride(p.syms[|offs|]))
    ensures offs + [Before(offs) + d] in Three(p, offs)
  {
    hide Stride, Before;
    var t := Three(p, offs);
    assert offs + [Before(offs) + d] == if d == 0 then t[0] else if d == -Stride(p.syms[|offs|]) then t[1] else t[2];
  }

  lemma {:induction false} CandidatesExtend(p: Problem, beam: seq<seq<int>>, k: nat, j: nat)
    requires k < |p.syms| && forall i: nat | i < |beam| :: |beam[i]| == k && Admissible(p.syms, beam[i])
    requires j < 3 * |beam|
    ensures var x := Candidates(p, beam)[j]; |x| == k + 1 && Extends(p, beam, x)
  {
    hide Admissible, Three;
    var n := |beam| - 1;
    if j < 3 * n {
      CandidatesExtend(p, beam[..n], k, j);
    } else {
      ThreeValid(p, beam[n], j - 3 * n);
      assert Candidates(p, beam)[j] == Three(p, beam[n])[j - 3 * n];
    }
  }

  lemma {:induction false} CandidatesComplete(p: Problem, beam: seq<seq<int>>, k: nat, x: seq<int>)
    requires k < |p.syms| && forall i: nat | i < |beam| :: |beam[i]| == k
    requires |x| == k + 1 && Extends(p, beam, x)
    ensures x in Candidates(p, beam)
  {
    hide Admissible, Three;
    var n := |beam| - 1;
    if x[..k] == beam[n] {
      ThreeComplete(p, beam[n], x);
    } else {
      CandidatesComplete(p, beam[..n], k, x);
    }
  }

  lemma {:induction false} CandidatesDistinct(p: Problem, beam: seq<seq<int>>, k: nat)
    requires k < |p.syms| && Distinct(beam)
    requires forall i: nat | i < |beam| :: |beam[i]| == k && Admissible(p.syms, beam[i])
    ensures Distinct(Candidates(p, beam))
  {
    hide Admissible, Three;
    if |beam| > 0 {
      var n := |beam| - 1;
      CandidatesDistinct(p, beam[..n], k);
      ThreeDistinct(p, beam[n]);
      forall i: nat, j: nat | i < 3 * n && j < 3 ensures Candidates(p, beam[..n])[i] != Three(p, beam[n])[j] {
        OtherParent(p, beam, k, i, j);
      }
      hide Distinct;
      DistinctConcat(Candidates(p, beam[..n]), Three(p, beam[n]));
    }
  }

  /** Candidates of different lists differ. */
  lemma OtherParent(p: Problem, beam: seq<seq<int>>, k: nat, i: nat, j: nat)
    requires k < |p.syms| && 0 < |beam| && Distinct(beam) && i < 3 * (|beam| - 1) && j < 3
    requires forall i: nat | i < |beam| :: |beam[i]| == k && Admissible(p.syms, beam[i])
    ensures Candidates(p, beam[..|beam| - 1])[i] != Three(p, beam[|beam| - 1])[j]
  {
    hide Admissible, Three, Candidates;
    var n := |beam| - 1;
    assert beam[n] !in beam[..n];
    CandidatesExtend(p, beam[..n], k, i);
    ThreeValid(p, beam[n], j);
  }

  lemma DistinctConcat<T>(a: seq<T>, b: seq<T>)
    requires Distinct(a) && Distinct(b) && forall i: nat, j: nat | i < |a| && j < |b| :: a[i] != b[j]
    ensures Distinct(a + b)
  {
  }

  /** A selection of indices in increasing order of metric; nothing unselected is better. */
  ghost predicate Selects(pick: seq<nat>, next: seq<Path>) {
    && (forall i: nat | i < |pick| :: pick[i] < |next|) && Distinct(pick)
    && (forall i: nat, j: nat | i < j < |pick| :: next[pick[i]].metric <= next[pick[j]].metric)
    && (forall i: nat, j: nat | i < |pick| && j < |next| && j !in pick :: next[pick[i]].metric <= next[j].metric)
  }

  ghost predicate Arranges(perm: seq<nat>, a: seq<Path>, next: seq<Path>) {
    && |perm| == |a| == |next| && Distinct(perm)
    && (forall i: nat | i < |a| :: perm[i] < |next| && a[i] == next[perm[i]])
    && forall j: nat | j < |next| :: j in perm
  }

  function SwapAt<T>(s: seq<T>, i: nat, j: nat): (r: seq<T>)
    requires i < |s| && j < |s|
    ensures |r| == |s| && forall k: nat | k < |s| :: r[k] == s[if k == i then j else if k == j then i else k]
  {
    s[i := s[j]][j := s[i]]
  }

  lemma SwapArranges(perm: seq<nat>, a: seq<Path>, next: seq<Path>, i: nat, j: nat)
    requires Arranges(perm, a, next) && i < |a| && j < |a|
    ensures Arranges(SwapAt(perm, i, j), SwapAt(a, i, j), next)
  {
    var p := SwapAt(perm, i, j);
    forall k: nat | k < |next| ensures k in p {
      assert k in perm;
      var l: nat :| l < |perm| && perm[l] == k;
      var m := if l == i then j else if l == j then i else l;
      assert p[m] == k;
    }
  }

  method Least(a: seq<Path>, from: nat) returns (m: nat)
    requires from < |a|
    ensures from <= m < |a| && forall j: nat | from <= j < |a| :: a[m].metric <= a[j].metric
  {
    m := from;
    for i := from + 1 to |a|
      invariant from <= m < i && forall j: nat | from <= j < i :: a[m].metric <= a[j].metric
    {
      if a[i].metric < a[m].metric {
        m := i;
      }
    }
  }

  /** The first `keep` paths in order of metric, moved to the front. */
  method PartialSort(next: seq<Path>, keep: nat) returns (a: seq<Path>, ghost perm: seq<nat>)
    requires keep <= |next|
    ensures Arranges(perm, a, next)
    ensures forall i: nat, j: nat | i < keep && i < j < |a| :: a[i].metric <= a[j].metric
  {
    a := next;
    perm := seq(|next|, i => i);
    forall j: nat | j < |next| ensures j in perm {
      assert perm[j] == j;
    }
    for i := 0 to keep
      invariant Arranges(perm, a, next)
      invariant forall k: nat, j: nat | k < i && k < j < |a| :: a[k].metric <= a[j].metric
    {
      var m := Least(a, i);
      SwapArranges(perm, a, next, i, m);
      perm := SwapAt(perm, i, m);
      a := SwapAt(a, i, m);
    }
  }

  lemma InPrefix(perm: seq<nat>, keep: nat, l: nat)
    requires l < keep <= |perm|
    ensures perm[l] in perm[..keep]
  {
    assert perm[..keep][l] == perm[l];
  }

  method KeepBest(next: seq<Path>) returns (kept: seq<Path>, ghost pick: seq<nat>)
    ensures |kept| == |pick| == Kept(|next|) && Selects(pick, next)
    ensures forall i: nat | i < |pick| :: kept[i] == next[pick[i]]
  {
    var keep := Kept(|next|);
    var a; ghost var perm;
    a, perm := PartialSort(next, keep);
    kept, pick := a[..keep], perm[..keep];
    forall i: nat, j: nat | i < keep && j < |next| && j !in pick ensures next[pick[i]].metric <= next[j].metric {
      assert j in perm;
      var l: nat :| l < |perm| && perm[l] == j;
      if l < keep {
        InPrefix(perm, keep, l);
      }
      assert a[i].metric <= a[l].metric;
    }
  }

  // One symbol.

  /** Each path's parent and offset are those of its list. */
  ghost predicate Linked(paths: seq<Path>, beam: seq<seq<int>>, from: seq<seq<int>>) {
    |paths| == |beam| && forall i: nat | i < |paths| :: paths[i].parent < |from| && beam[i] == from[paths[i].parent] + [paths[i].o]
  }

  ghost predicate BeamAt(p: Problem, beam: seq<seq<int>>, k: nat) {
    Distinct(beam) && |beam| > 0 && forall i: nat | i < |beam| :: |beam[i]| == k && Admissible(p.syms, beam[i])
  }

  /** One way on, charged as a slip when the offset changes. */
  method GoOn(p: Problem, path: Path, slip: int, pi: nat, k: nat, gains: seq<Gain>, ghost clock: Clock, ghost offs: seq<int>)
    returns (r: Path)
    requires p.Valid() && k < |p.syms| && |offs| == k && Scores(p, path, offs) && Alone(p, offs).clock == clock
    requires GainsOf(gains, clock, p.Seen(k), p.q)
    ensures r.parent == pi && r.o == path.o + slip && Scores(p, r, offs + [r.o])
  {
    var charge := if slip != 0 then SLIP_COST else 0.0;
    r := Carry(path.(metric := path.metric + charge), path.o + slip, pi, p.Seen(k), gains, clock, p.q);
    ghost var s := Run(StateOf(path.(metric := path.metric + charge), clock), Shift(p.Seen(k), r.o), p.q);
    hide Scores, Alone, Run, GainsOf, Problem.Valid;
    CarriedScores(p, path, offs, charge, r, s);
  }

  method ThreeWays(p: Problem, path: Path, pi: nat, k: nat, gains: seq<Gain>, ghost clock: Clock, ghost offs: seq<int>)
    returns (three: seq<Path>)
    requires p.Valid() && k < |p.syms| && |offs| == k && Scores(p, path, offs) && Alone(p, offs).clock == clock
    requires GainsOf(gains, clock, p.Seen(k), p.q)
    ensures AllScore(p, three, Three(p, offs))
    ensures forall c: nat | c < |three| :: three[c].parent == pi && Three(p, offs)[c] == offs + [three[c].o]
  {
    assert path.o == Before(offs);
    hide Scores, Alone, GainsOf, Problem.Valid, AllScore, Three;
    var step := Stride(p.syms[k]);
    var stays := GoOn(p, path, 0, pi, k, gains, clock, offs);
    var down := GoOn(p, path, -step, pi, k, gains, clock, offs);
    var up := GoOn(p, path, step, pi, k, gains, clock, offs);
    three := [stays, down, up];
    Assembled(p, offs, stays, down, up, pi);
  }

  lemma Assembled(p: Problem, offs: seq<int>, stays: Path, down: Path, up: Path, pi: nat)
    requires p.Ranges() && |offs| < |p.syms| && stays.parent == down.parent == up.parent == pi
    requires Scores(p, stays, offs + [stays.o]) && Scores(p, down, offs + [down.o]) && Scores(p, up, offs + [up.o])
    requires stays.o == Before(offs) && down.o == stays.o - Stride(p.syms[|offs|]) && up.o == stays.o + Stride(p.syms[|offs|])
    ensures AllScore(p, [stays, down, up], Three(p, offs))
    ensures forall c: nat | c < 3 ::
      var path := [stays, down, up][c]; path.parent == pi && Three(p, offs)[c] == offs + [path.o]
  {
    hide Scores, Problem.Ranges;
    var t, paths := Three(p, offs), [stays, down, up];
    assert t[0] == offs + [stays.o] && t[1] == offs + [down.o] && t[2] == offs + [up.o];
    assert paths[0] == stays && paths[1] == down && paths[2] == up;
  }

  lemma Joined(p: Problem, a: seq<Path>, offsA: seq<seq<int>>, b: seq<Path>, offsB: seq<seq<int>>)
    requires p.Ranges() && AllScore(p, a, offsA) && AllScore(p, b, offsB)
    ensures AllScore(p, a + b, offsA + offsB)
  {
    hide Scores, Problem.Ranges;
  }

  lemma JoinedLinks(a: seq<Path>, offsA: seq<seq<int>>, b: seq<Path>, offsB: seq<seq<int>>, from: seq<seq<int>>, parent: nat)
    requires parent < |from| && Linked(a, offsA, from[..parent]) && |b| == |offsB|
    requires forall c: nat | c < |b| :: b[c].parent == parent && offsB[c] == from[parent] + [b[c].o]
    ensures Linked(a + b, offsA + offsB, from[..parent + 1])
  {
    var all, offs := a + b, offsA + offsB;
    forall i: nat | i < |all|
      ensures all[i].parent < parent + 1 && offs[i] == from[..parent + 1][all[i].parent] + [all[i].o]
    {
      if i < |a| {
        assert all[i] == a[i] && offs[i] == offsA[i];
        assert from[..parent][a[i].parent] == from[..parent + 1][a[i].parent];
      } else {
        assert all[i] == b[i - |a|] && offs[i] == offsB[i - |a|];
      }
    }
  }

  method Extend(p: Problem, cur: seq<Path>, k: nat, gains: seq<Gain>, ghost clock: Clock, ghost beam: seq<seq<int>>)
    returns (next: seq<Path>)
    requires p.Valid() && k < |p.syms| && BeamAt(p, beam, k) && AllScore(p, cur, beam)
    requires forall i: nat | i < |beam| :: Alone(p, beam[i]).clock == clock
    requires GainsOf(gains, clock, p.Seen(k), p.q)
    ensures AllScore(p, next, Candidates(p, beam)) && Linked(next, Candidates(p, beam), beam)
  {
    next := [];
    assert p.Ranges();
    assert p.Valid();
    hide Scores, Three, GainsOf, Admissible, Problem.Valid, Problem.Ranges, AllScore, Linked, Alone;
    assert AllScore(p, next, Candidates(p, beam[..0])) && Linked(next, Candidates(p, beam[..0]), beam[..0]) by { NothingYet(p); }
    for pi := 0 to |cur|
      invariant AllScore(p, next, Candidates(p, beam[..pi])) && Linked(next, Candidates(p, beam[..pi]), beam[..pi])
    {
      ScoreOf(p, cur, beam, pi);
      var three := ThreeWays(p, cur[pi], pi, k, gains, clock, beam[pi]);
      Grown(p, beam, pi, next, three);
      next := next + three;
    }
    assert beam[..|cur|] == beam;
  }

  lemma Grown(p: Problem, beam: seq<seq<int>>, pi: nat, next: seq<Path>, three: seq<Path>)
    requires p.Ranges() && pi < |beam| && forall i: nat | i < |beam| :: |beam[i]| < |p.syms|
    requires AllScore(p, next, Candidates(p, beam[..pi])) && Linked(next, Candidates(p, beam[..pi]), beam[..pi])
    requires AllScore(p, three, Three(p, beam[pi]))
    requires forall c: nat | c < |three| :: three[c].parent == pi && Three(p, beam[pi])[c] == beam[pi] + [three[c].o]
    ensures AllScore(p, next + three, Candidates(p, beam[..pi + 1]))
    ensures Linked(next + three, Candidates(p, beam[..pi + 1]), beam[..pi + 1])
  {
    var c, t := Candidates(p, beam[..pi]), Three(p, beam[pi]);
    assert beam[..pi + 1][..pi] == beam[..pi];
    assert Candidates(p, beam[..pi + 1]) == c + t;
    SameSize(p, three, t);
    hide Candidates, Three, AllScore, Linked, Problem.Ranges;
    Joined(p, next, c, three, t);
    JoinedLinks(next, c, three, t, beam, pi);
  }

  lemma NothingYet(p: Problem)
    requires p.Ranges()
    ensures AllScore(p, [], []) && Linked([], [], [])
  {
  }

  lemma SameSize(p: Problem, paths: seq<Path>, beam: seq<seq<int>>)
    requires p.Ranges() && AllScore(p, paths, beam)
    ensures |paths| == |beam|
  {
  }

  lemma ScoreOf(p: Problem, paths: seq<Path>, beam: seq<seq<int>>, i: nat)
    requires p.Ranges() && AllScore(p, paths, beam) && i < |paths|
    ensures |paths| == |beam| && |beam[i]| <= |p.syms| && Scores(p, paths[i], beam[i])
  {
  }

  ghost function Picked(pick: seq<nat>, cands: seq<seq<int>>): (beam: seq<seq<int>>)
    requires forall i: nat | i < |pick| :: pick[i] < |cands|
    ensures |beam| == |pick| && forall i: nat | i < |pick| :: beam[i] == cands[pick[i]]
  {
    seq(|pick|, i requires 0 <= i < |pick| => cands[pick[i]])
  }

  lemma CostOf(p: Problem, paths: seq<Path>, beam: seq<seq<int>>, i: nat)
    requires p.Ranges() && AllScore(p, paths, beam) && i < |paths|
    ensures |paths| == |beam| && |beam[i]| <= |p.syms| && paths[i].metric == Cost(p, beam[i])
  {
  }

  lemma PickedDistinct(pick: seq<nat>, cands: seq<seq<int>>)
    requires Distinct(pick) && Distinct(cands) && forall i: nat | i < |pick| :: pick[i] < |cands|
    ensures Distinct(Picked(pick, cands))
  {
  }

  lemma PickedExtend(p: Problem, beam: seq<seq<int>>, k: nat, pick: seq<nat>)
    requires k < |p.syms| && BeamAt(p, beam, k)
    requires Distinct(pick) && forall i: nat | i < |pick| :: pick[i] < 3 * |beam|
    ensures var to := Picked(pick, Candidates(p, beam));
            Distinct(to) && forall i: nat | i < |to| :: |to[i]| == k + 1 && Extends(p, beam, to[i])
  {
    var cands := Candidates(p, beam);
    CandidatesDistinct(p, beam, k);
    hide Candidates, Extends, Admissible, Distinct;
    var to := Picked(pick, cands);
    PickedDistinct(pick, cands);
    forall i: nat | i < |to| ensures |to[i]| == k + 1 && Extends(p, beam, to[i]) {
      CandidatesExtend(p, beam, k, pick[i]);
    }
  }

  /** A candidate is picked, or some candidate was left out and nothing picked is worse than it. */
  lemma PickedOrWorse(p: Problem, cands: seq<seq<int>>, next: seq<Path>, pick: seq<nat>, j: nat)
    requires p.Ranges() && AllScore(p, next, cands) && |next| == |cands| && Selects(pick, next) && j < |next|
    ensures var to := Picked(pick, cands);
            |cands[j]| <= |p.syms| && (cands[j] in to
            || (|pick| < |next| && forall i: nat | i < |to| :: |to[i]| <= |p.syms| && Cost(p, to[i]) <= Cost(p, cands[j])))
  {
    hide Cost, AllScore;
    var to := Picked(pick, cands);
    CostOf(p, next, cands, j);
    if j in pick {
      var l: nat :| l < |pick| && pick[l] == j;
      assert to[l] == cands[j];
    } else {
      forall i: nat | i < |to| ensures |to[i]| <= |p.syms| && Cost(p, to[i]) <= Cost(p, cands[j]) {
        CostOf(p, next, cands, pick[i]);
      }
      AtMost(pick + [j], |next|);
    }
  }

  lemma PickedAscends(p: Problem, cands: seq<seq<int>>, next: seq<Path>, pick: seq<nat>, i: nat, j: nat)
    requires p.Ranges() && AllScore(p, next, cands) && |next| == |cands| && Selects(pick, next) && i < j < |pick|
    ensures var to := Picked(pick, cands);
            |to[i]| <= |p.syms| && |to[j]| <= |p.syms| && Cost(p, to[i]) <= Cost(p, to[j])
  {
    CostOf(p, next, cands, pick[i]);
    CostOf(p, next, cands, pick[j]);
  }

  lemma PickedSorted(p: Problem, cands: seq<seq<int>>, next: seq<Path>, pick: seq<nat>, k: nat)
    requires p.Valid() && k < |p.syms| && AllScore(p, next, cands) && |next| == |cands| && Selects(pick, next)
    requires forall i: nat | i < |pick| :: |Picked(pick, cands)[i]| == k + 1
    ensures ScoredAscending(p, Picked(pick, cands))
  {
    assert p.Ranges();
    hide Cost, AllScore, Selects, Problem.Valid, Problem.Ranges;
    var to := Picked(pick, cands);
    forall i: nat, j: nat | i < j < |to| ensures Cost(p, to[i]) <= Cost(p, to[j]) {
      PickedAscends(p, cands, next, pick, i, j);
    }
  }

  /** Keeping the selected candidates is one step of the specified beam. */
  lemma PickedIsStep(p: Problem, beam: seq<seq<int>>, k: nat, next: seq<Path>, pick: seq<nat>)
    requires p.Valid() && k < |p.syms| && BeamAt(p, beam, k)
    requires AllScore(p, next, Candidates(p, beam)) && |next| == 3 * |beam| && |pick| == Kept(|next|) && Selects(pick, next)
    ensures BeamStep(p, beam, Picked(pick, Candidates(p, beam)), k)
  {
    hide Cost, AllScore, Extends, Problem.Valid, Problem.Ranges, ScoredAscending, Picked, Candidates;
    ValidRanges(p);
    var cands := Candidates(p, beam);
    var to := Picked(pick, cands);
    PickedExtend(p, beam, k, pick);
    PickedSorted(p, cands, next, pick, k);
    forall offs: seq<int> | |offs| == k + 1 && Extends(p, beam, offs)
      ensures offs in to || (|pick| < |next| && NoneWorse(p, to, offs))
    {
      Fate(p, beam, k, next, pick, offs);
    }
  }

  lemma ValidRanges(p: Problem)
    requires p.Valid()
    ensures p.Ranges()
  {
  }

  ghost predicate NoneWorse(p: Problem, to: seq<seq<int>>, offs: seq<int>)
    requires p.Ranges() && |offs| <= |p.syms|
  {
    forall i: nat | i < |to| :: |to[i]| <= |p.syms| && Cost(p, to[i]) <= Cost(p, offs)
  }

  lemma Fate(p: Problem, beam: seq<seq<int>>, k: nat, next: seq<Path>, pick: seq<nat>, offs: seq<int>)
    requires p.Ranges() && k < |p.syms| && BeamAt(p, beam, k)
    requires AllScore(p, next, Candidates(p, beam)) && |next| == 3 * |beam| && Selects(pick, next)
    requires |offs| == k + 1 && Extends(p, beam, offs)
    ensures offs in Picked(pick, Candidates(p, beam)) || (|pick| < |next| && NoneWorse(p, Picked(pick, Candidates(p, beam)), offs))
  {
    hide Candidates, Cost, AllScore, Extends, Distinct, Selects, Problem.Ranges;
    CandidatesComplete(p, beam, k, offs);
    var cands := Candidates(p, beam);
    var j: nat :| j < |cands| && cands[j] == offs;
    PickedOrWorse(p, cands, next, pick, j);
  }

  lemma {:induction false} AtMost(pick: seq<nat>, n: nat)
    requires Distinct(pick) && forall i: nat | i < |pick| :: pick[i] < n
    ensures |pick| <= n
  {
    if |pick| > 0 {
      assert pick[0] < n;
      if n - 1 in pick {
        var l: nat :| l < |pick| && pick[l] == n - 1;
        var rest := pick[..l] + pick[l + 1..];
        forall i: nat | i < |rest| ensures rest[i] < n - 1 {
          assert rest[i] == pick[if i < l then i else i + 1];
        }
        AtMost(rest, n - 1);
      } else {
        AtMost(pick, n - 1);
      }
    }
  }

  method Links(paths: seq<Path>) returns (links: seq<Link>)
    ensures |links| == |paths| && forall i: nat | i < |paths| :: links[i] == Link(paths[i].parent, paths[i].o)
  {
    links := [];
    for i := 0 to |paths|
      invariant |links| == i && forall j: nat | j < i :: links[j] == Link(paths[j].parent, paths[j].o)
    {
      links := links + [Link(paths[i].parent, paths[i].o)];
    }
  }

  ghost predicate SharesClock(p: Problem, beam: seq<seq<int>>, clock: Clock)
    requires p.Ranges()
  {
    forall i: nat | i < |beam| :: |beam[i]| <= |p.syms| && Alone(p, beam[i]).clock == clock
  }

  /** One symbol of the search. */
  method Advance(p: Problem, cur: seq<Path>, clock: Clock, k: nat, ghost beam: seq<seq<int>>)
    returns (kept: seq<Path>, after: Clock, ghost beam': seq<seq<int>>)
    requires p.Valid() && k < |p.syms| && BeamAt(p, beam, k) && AllScore(p, cur, beam) && SharesClock(p, beam, clock)
    ensures BeamStep(p, beam, beam', k) && BeamAt(p, beam', k + 1) && AllScore(p, kept, beam') && SharesClock(p, beam', after)
    ensures Linked(kept, beam', beam)
  {
    assert Alone(p, beam[0]).clock == clock;
    AloneValid(p, beam[0]);
    assert Psd(clock.cov) && clock.t == p.EndTime(k);
    assert Ordered(p.Seen(k), clock.t);
    hide Psd, Alone, Run, GainsOf, Scores, AllScore, BeamStep, Problem.EndTime;
    var gains;
    gains, after := SharedGains(clock, p.Seen(k), p.q);
    var next := Extend(p, cur, k, gains, clock, beam);
    ghost var pick, cands := [], Candidates(p, beam);
    kept, pick := KeepBest(next);
    SameSize(p, next, cands);
    PickedIsStep(p, beam, k, next, pick);
    PickedExtend(p, beam, k, pick);
    beam' := Picked(pick, cands);
    PickedScore(p, next, cands, pick, kept);
    PickedClock(p, beam, beam', k, clock, after);
    hide Selects, Candidates;
    assert Linked(kept, beam', beam);
  }

  lemma PickedScore(p: Problem, next: seq<Path>, cands: seq<seq<int>>, pick: seq<nat>, kept: seq<Path>)
    requires p.Ranges() && AllScore(p, next, cands) && Selects(pick, next) && |kept| == |pick|
    requires forall i: nat | i < |pick| :: kept[i] == next[pick[i]]
    requires |next| == |cands|
    ensures AllScore(p, kept, Picked(pick, cands))
  {
    hide Scores;
  }

  lemma PickedClock(p: Problem, beam: seq<seq<int>>, beam': seq<seq<int>>, k: nat, clock: Clock, after: Clock)
    requires p.Ranges() && k < |p.syms| && BeamAt(p, beam, k) && SharesClock(p, beam, clock)
    requires forall i: nat | i < |beam'| :: |beam'[i]| == k + 1 && Extends(p, beam, beam'[i])
    requires after == Run(Filter(clock, 0.0, 0.0, 0.0), p.Seen(k), p.q).clock
    ensures SharesClock(p, beam', after)
  {
    hide Alone, Run, Problem.Ranges, Admissible;
    forall i: nat | i < |beam'| ensures |beam'[i]| <= |p.syms| && Alone(p, beam'[i]).clock == after {
      var j: nat :| j < |beam| && beam[j] == beam'[i][..k];
      ExtendedClock(p, beam'[i], k, clock, after);
    }
  }

  lemma ExtendedClock(p: Problem, x: seq<int>, k: nat, clock: Clock, after: Clock)
    requires p.Ranges() && k < |p.syms| && |x| == k + 1 && Alone(p, x[..k]).clock == clock
    requires after == Run(Filter(clock, 0.0, 0.0, 0.0), p.Seen(k), p.q).clock
    ensures Alone(p, x).clock == after
  {
    hide Alone, Run, Problem.Ranges;
    AloneStep(p, x);
    ShiftTimes(p.Seen(k), x[k]);
    SharedClock(Filter(clock, 0.0, 0.0, 0.0), Alone(p, x[..k]), p.Seen(k), Shift(p.Seen(k), x[k]), p.q);
  }

  lemma ShiftTimes(zs: seq<Obs>, o: int)
    ensures SameTimes(zs, Shift(zs, o))
  {
  }

  // Parent pointers.

  /** Every link names its list's parent in the beam before, and its last offset. */
  ghost predicate Traced(trace: seq<seq<Link>>, beams: seq<seq<seq<int>>>) {
    && |beams| == |trace| + 1 && beams[0] == [[]]
    && forall k: nat | k < |trace| :: LevelTraced(trace[k], beams[k], beams[k + 1])
  }

  ghost predicate LevelTraced(links: seq<Link>, from: seq<seq<int>>, to: seq<seq<int>>) {
    |links| == |to| && forall i: nat | i < |links| :: links[i].parent < |from| && to[i] == from[links[i].parent] + [links[i].o]
  }

  lemma LinksTrace(paths: seq<Path>, links: seq<Link>, from: seq<seq<int>>, to: seq<seq<int>>)
    requires Linked(paths, to, from) && |links| == |paths|
    requires forall i: nat | i < |paths| :: links[i] == Link(paths[i].parent, paths[i].o)
    ensures LevelTraced(links, from, to)
  {
  }

  lemma TraceLevel(trace: seq<seq<Link>>, beams: seq<seq<seq<int>>>, k: nat)
    requires Traced(trace, beams) && k < |trace|
    ensures LevelTraced(trace[k], beams[k], beams[k + 1])
  {
  }

  /** Follow the parents back from path i: exactly the offsets it carried. */
  method TraceBack(trace: seq<seq<Link>>, i: nat, ghost beams: seq<seq<seq<int>>>) returns (offs: seq<int>)
    requires Traced(trace, beams) && i < |beams[|trace|]|
    ensures offs == beams[|trace|][i]
  {
    offs := [];
    var at: nat, k: nat := i, |trace|;
    assert beams[k][at] + offs == beams[|trace|][i];
    assert |beams| == |trace| + 1 && beams[0] == [[]];
    while k > 0
      invariant k <= |trace| && at < |beams[k]| && beams[k][at] + offs == beams[|trace|][i]
    {
      TraceLevel(trace, beams, k - 1);
      hide Traced;
      var link := trace[k - 1][at];
      assert beams[k][at] + offs == beams[k - 1][link.parent] + ([link.o] + offs);
      offs := [link.o] + offs;
      at, k := link.parent, k - 1;
    }
    assert beams[0][at] == [];
  }

  lemma BeamRunStep(p: Problem, beams: seq<seq<seq<int>>>, beam: seq<seq<int>>)
    requires p.Valid() && BeamRun(p, beams) && |beams| <= |p.syms| && BeamStep(p, beams[|beams| - 1], beam, |beams| - 1)
    ensures BeamRun(p, beams + [beam])
  {
    var all := beams + [beam];
    hide BeamStep, Problem.Valid;
    forall k: nat | k + 1 < |all| ensures BeamStep(p, all[k], all[k + 1], k) {
      if k + 1 < |beams| {
        assert all[k] == beams[k] && all[k + 1] == beams[k + 1];
        assert BeamStep(p, beams[k], beams[k + 1], k);
      }
    }
  }

  lemma TracedStep(trace: seq<seq<Link>>, beams: seq<seq<seq<int>>>, links: seq<Link>, beam: seq<seq<int>>)
    requires Traced(trace, beams) && LevelTraced(links, beams[|trace|], beam)
    ensures Traced(trace + [links], beams + [beam])
  {
    hide LevelTraced;
  }

  /** The search over all symbols: the lists found are the last beam of a run of the specified beam search. */
  method Search(p: Problem) returns (paths: seq<seq<int>>, ghost beams: seq<seq<seq<int>>>)
    requires p.Valid()
    ensures BeamRun(p, beams) && |beams| == |p.syms| + 1 && paths == beams[|p.syms|]
  {
    var cur, trace := [Path(0.0, 0.0, 0.0, 0, 0)], [];
    var clock := p.Start().clock;
    beams := [[[]]];
    FirstBeam(p);
    hide BeamStep, AllScore, SharesClock, BeamAt, BeamRun, Traced, LevelTraced, Linked, Problem.Valid, Problem.Start;
    for k := 0 to |p.syms|
      invariant |beams| == k + 1 && BeamRun(p, beams) && BeamAt(p, beams[k], k)
      invariant AllScore(p, cur, beams[k]) && SharesClock(p, beams[k], clock)
      invariant |trace| == k && Traced(trace, beams)
    {
      ghost var beam;
      ghost var from := beams[k];
      cur, clock, beam := Advance(p, cur, clock, k, from);
      var links := Links(cur);
      LinksTrace(cur, links, from, beam);
      BeamRunStep(p, beams, beam);
      TracedStep(trace, beams, links, beam);
      beams := beams + [beam];
      trace := trace + [links];
    }
    SameSize(p, cur, beams[|p.syms|]);
    paths := [];
    for i := 0 to |cur|
      invariant paths == beams[|p.syms|][..i]
    {
      var offs := TraceBack(trace, i, beams);
      paths := paths + [offs];
    }
  }

  lemma FirstBeam(p: Problem)
    requires p.Valid()
    ensures BeamRun(p, [[[]]]) && BeamAt(p, [[]], 0) && SharesClock(p, [[]], p.Start().clock)
    ensures AllScore(p, [Path(0.0, 0.0, 0.0, 0, 0)], [[]]) && Traced([], [[[]]])
  {
    hide Run;
    RunNothing(p.Start(), p.q);
  }

  /** Nothing is searched without symbols or without a wander model. */
  method SlipSearch(p: Problem, irwQ: real) returns (paths: seq<seq<int>>)
    requires p.Valid()
    ensures |p.syms| == 0 || irwQ <= 0.0 ==> paths == []
    ensures |p.syms| > 0 && irwQ > 0.0 ==>
      exists beams: seq<seq<seq<int>>> :: BeamRun(p, beams) && |beams| == |p.syms| + 1 && paths == beams[|p.syms|]
  {
    if |p.syms| == 0 || irwQ <= 0.0 {
      return [];
    }
    ghost var beams;
    paths, beams := Search(p);
  }
}
