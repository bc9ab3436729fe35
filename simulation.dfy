/**
 * The Metropolis engine (classes/Simulation.py): one step re-orients a random needle, rolls back
 * on overlap or rejection, and the outer loop records accepted steps and tests convergence.
 */
module MonteCarlo {
  import opened Outcomes
  import opened VectorMath
  import opened SimulationParameters
  import opened NeedleGeometry
  import opened RunState
  import opened NeedleEnsemble

  // ---------------------------------------------------------------------------------------
  // The acceptance rule

  /**
   * np.exp(d_e / kT) >= u. A zero kT divides a numpy float by zero: +inf for d_e > 0,
   * -inf (exp gives 0) for d_e < 0 and NaN (every comparison false) for d_e == 0.
   */
  predicate ExpAtLeast(dE: real, kT: real, u: real, e: Elementary)
  {
    if kT != 0.0 then e.exp(dE / kT) >= u
    else if dE > 0.0 then true
    else if dE < 0.0 then 0.0 >= u
    else false
  }

  /** The Metropolis rule: a lower energy is taken, otherwise exp(-(e_new - e_tot) / kT) >= u decides. */
  predicate Accepts(eTot: real, eNew: real, kT: real, u: real, e: Elementary)
  {
    eNew < eTot || ExpAtLeast(eTot - eNew, kT, u, e)
  }

  /** Equal energies are accepted for every u in [0, 1) at any non-zero temperature. */
  lemma EqualEnergyAccepted(eTot: real, kT: real, u: real, e: Elementary)
    requires LawfulExp(e) && kT != 0.0 && 0.0 <= u < 1.0
    ensures Accepts(eTot, eTot, kT, u, e)
  {
    assert (eTot - eTot) / kT == 0.0;
  }

  /**
   * At kT == 0 only a lower energy, or a higher one with u == 0, is accepted: an equal energy
   * gives NaN and is rejected.
   */
  lemma ZeroTemperature(eTot: real, eNew: real, u: real, e: Elementary)
    requires 0.0 <= u
    ensures Accepts(eTot, eNew, 0.0, u, e) <==> eNew < eTot || (eNew > eTot && u == 0.0)
  {
  }

  /** An uphill move at a positive temperature is taken only when u <= exp(-dE / kT) <= 1. */
  lemma UphillAcceptance(eTot: real, eNew: real, kT: real, u: real, e: Elementary)
    requires LawfulExp(e) && kT > 0.0 && eNew >= eTot
    ensures Accepts(eTot, eNew, kT, u, e) <==> u <= e.exp((eTot - eNew) / kT)
    ensures e.exp((eTot - eNew) / kT) <= 1.0
  {
    var x := (eTot - eNew) / kT;
    assert x <= 0.0;
  }

  lemma QuotientMonotone(dE: real, k1: real, k2: real)
    requires dE <= 0.0 && 0.0 < k2 <= k1
    ensures dE / k2 <= dE / k1
  {
    var a, b := dE / k1, dE / k2;
    assert a * k1 == dE && b * k2 == dE;
    ProductSign(a, k1);
    ProductNonPositive(a, k1 - k2);
    assert a * (k1 - k2) == a * k1 - a * k2;
    assert (a - b) * k2 == a * k2 - b * k2;
    ProductSign(a - b, k2);
  }

  lemma ProductNonPositive(a: real, b: real)
    requires a <= 0.0 && b >= 0.0
    ensures a * b <= 0.0
  {
    assert (-a) * b >= 0.0;
  }

  /** A hotter system accepts every uphill move a colder one accepts. */
  lemma HotterAcceptsMore(eTot: real, eNew: real, kCold: real, kHot: real, u: real, e: Elementary)
    requires LawfulExp(e) && 0.0 < kCold <= kHot
    requires Accepts(eTot, eNew, kCold, u, e)
    ensures Accepts(eTot, eNew, kHot, u, e)
  {
    if eNew >= eTot {
      QuotientMonotone(eTot - eNew, kHot, kCold);
    }
  }

  // ---------------------------------------------------------------------------------------
  // One step: the specification

  /** The random choices of one step: randint's index, the new angles and random()'s fraction. */
  datatype StepDraw = StepDraw(index: int, theta: real, phi: real, u: real)

  /** The proposed needle: the old one's position, radius, length and charge, new angles, cached. */
  function Proposal(prev: Needle, d: StepDraw, cpu: bool, e: Elementary): Needle
  {
    var n := Needle(prev.posX, prev.posY, prev.posZ, d.theta, d.phi, prev.radius, prev.length, prev.charge, [], [], []);
    if cpu then WithCache(n, e) else n
  }

  lemma ProposalShaped(prev: Needle, d: StepDraw, cpu: bool, e: Elementary)
    requires prev.radius >= 0.0 && prev.length >= 0
    ensures Shaped(Proposal(prev, d, cpu, e), cpu, e)
    ensures Sized(Proposal(prev, d, cpu, e), cpu, e)
  {
    CoordinateSized(Proposal(prev, d, cpu, e), e);
  }

  /** The state a step leaves: the verdict, the ensemble, E_tot, E_DD and E_F. */
  datatype StepResult = StepResult(accepted: bool, ensemble: seq<Needle>, eTot: real, eDD: real, eF: real)

  /** The energy terms of an ensemble as calc_total_energy writes and returns them. */
  datatype Energies = Energies(dd: real, field: real)

  ghost predicate Admitted(ns: seq<Needle>, cpu: bool, e: Elementary)
  {
    Separated(ns, cpu, e) && AllShaped(ns, cpu, e)
  }

  function EnergiesOf(ns: seq<Needle>, p: Parameters, e: Elementary): (r: Energies)
    requires Evaluable(ns, p.multipleDipoles, p.cpuImprove, e)
  {
    Energies(DdTotal(ns, p.factor, p.multipleDipoles, p.cpuImprove, e), FieldTotal(ns, p.fieldVector, e))
  }

  /** check_overlap accepts the proposal against the ensemble without the popped needle. */
  ghost predicate Fits(ns: seq<Needle>, d: StepDraw, cpu: bool, e: Elementary)
    requires Admitted(ns, cpu, e) && 0 <= d.index < |ns|
  {
    SeparatedRemove(ns, d.index, cpu, e);
    ProposalShaped(ns[d.index], d, cpu, e);
    NoOverlap(Proposal(ns[d.index], d, cpu, e), Removed(ns, d.index), cpu, e)
  }

  /**
   * next_step on a non-empty ensemble: pop index k, propose new angles, put the old needle back
   * on overlap; otherwise evaluate the energy and either keep the proposal (accepted) or pop it
   * and put the old needle back, keeping the rejected proposal's E_DD and E_F.
   */
  ghost function Step(ns: seq<Needle>, eTot: real, eDD: real, eF: real, d: StepDraw, p: Parameters, e: Elementary)
    : StepResult
    requires Admitted(ns, p.cpuImprove, e) && 0 <= d.index < |ns|
  {
    if !Fits(ns, d, p.cpuImprove, e) then StepResult(false, Removed(ns, d.index) + [ns[d.index]], eTot, eDD, eF)
    else Decided(ns, eTot, d, p, e)
  }

  /** The second half of a step, once the proposal fits: evaluate the energy and apply the rule. */
  ghost function Decided(ns: seq<Needle>, eTot: real, d: StepDraw, p: Parameters, e: Elementary): StepResult
    requires Admitted(ns, p.cpuImprove, e) && 0 <= d.index < |ns|
    requires Fits(ns, d, p.cpuImprove, e)
  {
    var k := d.index;
    var rest := Removed(ns, k);
    var cand := Proposal(ns[k], d, p.cpuImprove, e);
    ProposalAdmitted(ns, d, p, e);
    var en := EnergiesOf(rest + [cand], p, e);
    var eNew := en.dd + en.field;
    if Accepts(eTot, eNew, p.kT, d.u, e) then StepResult(true, rest + [cand], eNew, en.dd, en.field)
    else StepResult(false, rest + [ns[k]], eTot, en.dd, en.field)
  }

  /** An accepted proposal keeps the ensemble admitted, hence its energy defined. */
  lemma ProposalAdmitted(ns: seq<Needle>, d: StepDraw, p: Parameters, e: Elementary)
    requires Admitted(ns, p.cpuImprove, e) && 0 <= d.index < |ns|
    requires Fits(ns, d, p.cpuImprove, e)
    ensures Admitted(Removed(ns, d.index) + [Proposal(ns[d.index], d, p.cpuImprove, e)], p.cpuImprove, e)
    ensures Evaluable(Removed(ns, d.index) + [Proposal(ns[d.index], d, p.cpuImprove, e)], p.multipleDipoles, p.cpuImprove, e)
  {
    var k := d.index;
    var rest, cand := Removed(ns, k), Proposal(ns[k], d, p.cpuImprove, e);
    SeparatedRemove(ns, k, p.cpuImprove, e);
    ProposalShaped(ns[k], d, p.cpuImprove, e);
    SeparatedAppend(rest, cand, p.cpuImprove, e);
    AllShapedRemove(ns, k, p.cpuImprove, e);
    var t := rest + [cand];
    assert AllShaped(t, p.cpuImprove, e) by {
      forall i | 0 <= i < |t| ensures Shaped(t[i], p.cpuImprove, e) {
        if i < |rest| {
          assert t[i] == rest[i];
        }
      }
    }
    SeparatedEvaluable(t, p.multipleDipoles, p.cpuImprove, e);
  }

  /** Every step keeps the ensemble admitted and its size. */
  lemma StepAdmitted(ns: seq<Needle>, eTot: real, eDD: real, eF: real, d: StepDraw, p: Parameters, e: Elementary)
    requires Admitted(ns, p.cpuImprove, e) && 0 <= d.index < |ns|
    ensures Admitted(Step(ns, eTot, eDD, eF, d, p, e).ensemble, p.cpuImprove, e)
    ensures |Step(ns, eTot, eDD, eF, d, p, e).ensemble| == |ns|
  {
    var k := d.index;
    var rest := Removed(ns, k);
    if Step(ns, eTot, eDD, eF, d, p, e).accepted {
      ProposalAdmitted(ns, d, p, e);
    } else {
      SeparatedRestore(ns, k, p.cpuImprove, e);
      AllShapedRemove(ns, k, p.cpuImprove, e);
      var t := rest + [ns[k]];
      forall i | 0 <= i < |t| ensures Shaped(t[i], p.cpuImprove, e) {
        if i < |rest| {
          assert t[i] == rest[i];
        }
      }
    }
  }

  /**
   * A rejected step, by overlap or by the Metropolis rule, puts the old needle back at the end:
   * the same needles in a new order, and E_tot unchanged.
   */
  lemma StepRejectedRestores(ns: seq<Needle>, eTot: real, eDD: real, eF: real, d: StepDraw, p: Parameters, e: Elementary)
    requires Admitted(ns, p.cpuImprove, e) && 0 <= d.index < |ns|
    requires !Step(ns, eTot, eDD, eF, d, p, e).accepted
    ensures Step(ns, eTot, eDD, eF, d, p, e).ensemble == Removed(ns, d.index) + [ns[d.index]]
    ensures multiset(Step(ns, eTot, eDD, eF, d, p, e).ensemble) == multiset(ns)
    ensures Step(ns, eTot, eDD, eF, d, p, e).eTot == eTot
  {
    RemovedMultiset(ns, d.index);
  }

  /**
   * An accepted step replaces needle k by the re-oriented proposal at the end: same position,
   * radius, length and charge, the drawn angles. E_tot becomes the new ensemble's energy, which
   * the acceptance rule admitted against the old E_tot.
   */
  lemma StepAcceptedMoves(ns: seq<Needle>, eTot: real, eDD: real, eF: real, d: StepDraw, p: Parameters, e: Elementary)
    requires Admitted(ns, p.cpuImprove, e) && 0 <= d.index < |ns|
    requires Step(ns, eTot, eDD, eF, d, p, e).accepted
    ensures var s := Step(ns, eTot, eDD, eF, d, p, e);
      var moved := s.ensemble[|ns| - 1];
      && s.ensemble[..|ns| - 1] == Removed(ns, d.index)
      && moved.posX == ns[d.index].posX && moved.posY == ns[d.index].posY && moved.posZ == ns[d.index].posZ
      && moved.radius == ns[d.index].radius && moved.length == ns[d.index].length
      && moved.charge == ns[d.index].charge
      && moved.theta == d.theta && moved.phi == d.phi
      && Evaluable(s.ensemble, p.multipleDipoles, p.cpuImprove, e)
      && s.eTot == TotalEnergy(s.ensemble, p.fieldVector, p.factor, p.multipleDipoles, p.cpuImprove, e)
      && s.eTot == s.eDD + s.eF
      && Accepts(eTot, s.eTot, p.kT, d.u, e)
  {
    var k := d.index;
    var rest, cand := Removed(ns, k), Proposal(ns[k], d, p.cpuImprove, e);
    ProposalAdmitted(ns, d, p, e);
    var t := rest + [cand];
    assert t[..|ns| - 1] == rest;
    assert p.cpuImprove ==> cand.(dataX := [], dataY := [], dataZ := []) == Proposal(ns[k], d, false, e);
  }

  /**
   * E_DD and E_F follow calc_total_energy: unchanged when the proposal overlaps, otherwise the
   * proposed ensemble's terms, even when the Metropolis rule then rejects it.
   */
  lemma StepEnergyTerms(ns: seq<Needle>, eTot: real, eDD: real, eF: real, d: StepDraw, p: Parameters, e: Elementary)
    requires Admitted(ns, p.cpuImprove, e) && 0 <= d.index < |ns|
    ensures var s := Step(ns, eTot, eDD, eF, d, p, e);
      !Fits(ns, d, p.cpuImprove, e) ==> !s.accepted && s.eDD == eDD && s.eF == eF
    ensures Fits(ns, d, p.cpuImprove, e) ==>
      var s := Step(ns, eTot, eDD, eF, d, p, e);
      var t := Removed(ns, d.index) + [Proposal(ns[d.index], d, p.cpuImprove, e)];
      && Evaluable(t, p.multipleDipoles, p.cpuImprove, e)
      && s.eDD == DdTotal(t, p.factor, p.multipleDipoles, p.cpuImprove, e)
      && s.eF == FieldTotal(t, p.fieldVector, e)
  {
    if Fits(ns, d, p.cpuImprove, e) {
      ProposalAdmitted(ns, d, p, e);
    }
  }

  /** The total energy of the ensemble with the proposal in place of needle k. */
  ghost function ProposedEnergy(ns: seq<Needle>, d: StepDraw, p: Parameters, e: Elementary): real
    requires Admitted(ns, p.cpuImprove, e) && 0 <= d.index < |ns|
    requires Fits(ns, d, p.cpuImprove, e)
  {
    ProposalAdmitted(ns, d, p, e);
    TotalEnergy(Removed(ns, d.index) + [Proposal(ns[d.index], d, p.cpuImprove, e)],
      p.fieldVector, p.factor, p.multipleDipoles, p.cpuImprove, e)
  }

  /** A proposal that fits and lowers the energy is always taken. */
  lemma DownhillAccepted(ns: seq<Needle>, eTot: real, eDD: real, eF: real, d: StepDraw, p: Parameters, e: Elementary)
    requires Admitted(ns, p.cpuImprove, e) && 0 <= d.index < |ns|
    requires Fits(ns, d, p.cpuImprove, e)
    requires ProposedEnergy(ns, d, p, e) < eTot
    ensures Step(ns, eTot, eDD, eF, d, p, e).accepted
  {
    ProposalAdmitted(ns, d, p, e);
  }

  // ---------------------------------------------------------------------------------------
  // One step and the run: the imperative engine

  /** The proposal next_step builds, with its cache assigned in cpu_improve mode. */
  method MakeProposal(prev: Needle, d: StepDraw, cpu: bool, e: Elementary) returns (needle: Needle)
    ensures needle == Proposal(prev, d, cpu, e)
  {
    var n := Needle(prev.posX, prev.posY, prev.posZ, d.theta, d.phi, prev.radius, prev.length, prev.charge, [], [], []);
    needle := n;
    if cpu {
      var c := GetCoordinate(n, e);
      needle := n.(dataX := c.xs, dataY := c.ys, dataZ := c.zs);
      assert needle == WithCache(n, e);
    }
  }

  /** How a run ends: converged after a number of steps, out of step draws, or raised. */
  datatype RunOutcome = Converged(steps: nat) | DrawsExhausted | Failed(error: Failure)

  /** What the end of an iteration decides: go on, or end the run with an outcome. */
  datatype Verdict = Continue | Stop(outcome: RunOutcome)

  /** A randint index for an ensemble of n needles (randint(0, -1) raises for n == 0). */
  predicate IndexFor(d: StepDraw, n: int)
  {
    n > 0 ==> 0 <= d.index < n
  }

  /** The part of GlobalValues the loop of simulate records into. */
  datatype Records = Records(
    eTot: Float, totals: seq<real>, dds: seq<real>, fields: seq<real>, steps: seq<int>, means: seq<real>)

  /**
   * What the iterations from+1..to of simulate leave in the records: every history only grows,
   * one mean moment per iteration, the recorded step numbers lie in from+1..to and increase, and
   * the newest total energy is E_tot (E_tot only changes with a new total energy entry).
   */
  ghost predicate Progressed(base: Records, now: Records, from: int, to: int)
  {
    && from <= to
    && base.totals <= now.totals && base.dds <= now.dds && base.fields <= now.fields
    && base.steps <= now.steps && base.means <= now.means
    && |now.means| == |base.means| + (to - from)
    && (forall j :: |base.steps| <= j < |now.steps| ==> from < now.steps[j] <= to)
    && Increasing(now.steps[|base.steps|..])
    && (|now.totals| > |base.totals| ==> now.eTot.Num? && now.totals[|now.totals| - 1] == now.eTot.value)
    && (now.totals == base.totals ==> now.eTot == base.eTot)
  }

  /** Strictly increasing, stated one neighbouring pair at a time from the end. */
  ghost predicate Increasing(s: seq<int>)
  {
    |s| < 2 || (s[|s| - 2] < s[|s| - 1] && Increasing(s[..|s| - 1]))
  }

  /** Any two entries of an increasing sequence are in order. */
  lemma {:induction false} IncreasingOrdered(s: seq<int>, j1: int, j2: int)
    requires Increasing(s) && 0 <= j1 < j2 < |s|
    ensures s[j1] < s[j2]
  {
    var t := s[..|s| - 1];
    if j2 < |s| - 1 {
      IncreasingOrdered(t, j1, j2);
    } else if j1 < |s| - 2 {
      IncreasingOrdered(t, j1, |s| - 2);
    }
  }

  /** Two increasing runs, the first ending below the start of the second, make one. */
  lemma {:induction false} IncreasingConcat(u: seq<int>, v: seq<int>)
    requires Increasing(u) && Increasing(v)
    requires u != [] && v != [] ==> u[|u| - 1] < v[0]
    ensures Increasing(u + v)
  {
    if v == [] {
      assert u + v == u;
    } else if |v| == 1 {
      assert (u + v)[..|u + v| - 1] == u;
    } else {
      var v' := v[..|v| - 1];
      IncreasingConcat(u, v');
      assert (u + v)[..|u + v| - 1] == u + v';
    }
  }

  lemma PrefixTrans<T>(a: seq<T>, b: seq<T>, c: seq<T>)
    requires a <= b && b <= c
    ensures a <= c
  {
    assert c[..|a|] == c[..|b|][..|a|];
  }

  /** Step numbers from+1..mid followed by step numbers mid+1..to are step numbers from+1..to. */
  lemma StepsTrans(a: seq<int>, b: seq<int>, c: seq<int>, from: int, mid: int, to: int)
    requires a <= b && b <= c && from <= mid <= to
    requires forall j :: |a| <= j < |b| ==> from < b[j] <= mid
    requires forall j :: |b| <= j < |c| ==> mid < c[j] <= to
    requires Increasing(b[|a|..]) && Increasing(c[|b|..])
    ensures forall j :: |a| <= j < |c| ==> from < c[j] <= to
    ensures Increasing(c[|a|..])
  {
    assert c[..|b|] == b;
    forall j | |a| <= j < |c| ensures from < c[j] <= to {
      if j < |b| {
        assert c[j] == c[..|b|][j];
      } else {
        assert c[j] == c[|b|..][j - |b|];
      }
    }
    var u, v := b[|a|..], c[|b|..];
    assert c[|a|..] == u + v;
    if u != [] && v != [] {
      assert u[|u| - 1] == b[|b| - 1] && v[0] == c[|b|];
    }
    IncreasingConcat(u, v);
  }

  /** Iterations compose: from+1..mid followed by mid+1..to is from+1..to. */
  lemma ProgressedTrans(a: Records, b: Records, c: Records, from: int, mid: int, to: int)
    requires Progressed(a, b, from, mid) && Progressed(b, c, mid, to)
    ensures Progressed(a, c, from, to)
  {
    PrefixTrans(a.totals, b.totals, c.totals);
    PrefixTrans(a.dds, b.dds, c.dds);
    PrefixTrans(a.fields, b.fields, c.fields);
    PrefixTrans(a.steps, b.steps, c.steps);
    PrefixTrans(a.means, b.means, c.means);
    StepsTrans(a.steps, b.steps, c.steps, from, mid, to);
    if |c.totals| > |a.totals| && |c.totals| == |b.totals| {
      assert c.totals == b.totals;
    }
    if c.totals == a.totals {
      assert b.totals == a.totals;
    }
  }

  /**
   * The state simulate's loop carries from one iteration to the next, apart from the interval
   * counter and the statistics: the ensemble, the energies and the histories it records.
   */
  datatype Walk = Walk(ensemble: seq<Needle>, eTot: real, eDD: real, eF: real,
    totals: seq<real>, dds: seq<real>, fields: seq<real>, steps: seq<int>, means: seq<real>)

  /** The records of a walk, as the loop's progress speaks of them. */
  function RecordsOf(w: Walk): Records
  {
    Records(Num(w.eTot), w.totals, w.dds, w.fields, w.steps, w.means)
  }

  /**
   * The first half of iteration `step` (counted from 1): the step taken, and on acceptance
   * E_tot, E_DD, E_F and the step number appended to their histories.
   */
  function Recorded(w: Walk, s: StepResult, step: int): Walk
  {
    var acc := s.accepted;
    w.(ensemble := s.ensemble, eTot := s.eTot, eDD := s.eDD, eF := s.eF,
      totals := w.totals + (if acc then [s.eTot] else []),
      dds := w.dds + (if acc then [s.eDD] else []),
      fields := w.fields + (if acc then [s.eF] else []),
      steps := w.steps + (if acc then [step] else []))
  }

  /** The second half: the ensemble's mean x-moment appended to its history. */
  function WithMean(w: Walk, e: Elementary): Walk
    requires w.ensemble != []
  {
    w.(means := w.means + [MomentXSum(w.ensemble, e) / |w.ensemble| as real])
  }

  /** Iteration `step` (counted from 1) of simulate's loop: next_step, its records, the mean. */
  ghost function Next(w: Walk, d: StepDraw, step: int, p: Parameters, e: Elementary): (r: Walk)
    requires Admitted(w.ensemble, p.cpuImprove, e) && 0 <= d.index < |w.ensemble|
    ensures Admitted(r.ensemble, p.cpuImprove, e) && |r.ensemble| == |w.ensemble|
  {
    StepAdmitted(w.ensemble, w.eTot, w.eDD, w.eF, d, p, e);
    WithMean(Recorded(w, Step(w.ensemble, w.eTot, w.eDD, w.eF, d, p, e), step), e)
  }

  /** Iterations 1..n of simulate's loop from w, on the first n step draws of ds. */
  ghost function Run(w: Walk, ds: seq<StepDraw>, n: nat, p: Parameters, e: Elementary): (r: Walk)
    requires Admitted(w.ensemble, p.cpuImprove, e) && w.ensemble != [] && n <= |ds|
    requires forall k :: 0 <= k < |ds| ==> IndexFor(ds[k], |w.ensemble|)
    ensures Admitted(r.ensemble, p.cpuImprove, e) && |r.ensemble| == |w.ensemble|
    ensures Progressed(RecordsOf(w), RecordsOf(r), 0, n)
  {
    if n == 0 then
      assert w.steps[|w.steps|..] == [];
      w
    else
      var prev := Run(w, ds, n - 1, p, e);
      NextProgressed(prev, ds[n - 1], n, p, e);
      ProgressedTrans(RecordsOf(w), RecordsOf(prev), RecordsOf(Next(prev, ds[n - 1], n, p, e)), 0, n - 1, n);
      Next(prev, ds[n - 1], n, p, e)
  }

  /**
   * The windows the convergence tests of iterations 1..n look at, the interval counter
   * starting from c: get_ci (the last ciLength total energies) after every iteration at which
   * the counter reaches L.
   */
  ghost function Windows(w: Walk, ds: seq<StepDraw>, n: nat, c: int, L: int, ciLength: int, p: Parameters, e: Elementary)
    : seq<seq<real>>
    requires Admitted(w.ensemble, p.cpuImprove, e) && w.ensemble != [] && n <= |ds|
    requires forall k :: 0 <= k < |ds| ==> IndexFor(ds[k], |w.ensemble|)
  {
    if n == 0 then []
    else
      var earlier := Windows(w, ds, n - 1, c, L, ciLength, p, e);
      earlier + (if CounterAfter(c, L, n - 1) + 1 >= L then [Window(Run(w, ds, n, p, e).totals, ciLength)] else [])
  }

  /** The window of the last convergence test the fold's first n iterations run, if any. */
  ghost function LastTested(w: Walk, ds: seq<StepDraw>, n: nat, c: int, L: int, ciLength: int, p: Parameters,
                            e: Elementary): Option<seq<real>>
    requires Admitted(w.ensemble, p.cpuImprove, e) && w.ensemble != [] && n <= |ds|
    requires forall k :: 0 <= k < |ds| ==> IndexFor(ds[k], |w.ensemble|)
  {
    if n == 0 then None
    else if CounterAfter(c, L, n - 1) + 1 >= L then Some(Window(Run(w, ds, n, p, e).totals, ciLength))
    else LastTested(w, ds, n - 1, c, L, ciLength, p, e)
  }

  /** LastTested is the last of the fold's Windows, and None exactly when there are none. */
  lemma {:induction false} LastTestedIsLastWindow(w: Walk, ds: seq<StepDraw>, n: nat, c: int, L: int, ciLength: int,
                                                  p: Parameters, e: Elementary)
    requires Admitted(w.ensemble, p.cpuImprove, e) && w.ensemble != [] && n <= |ds|
    requires forall k :: 0 <= k < |ds| ==> IndexFor(ds[k], |w.ensemble|)
    ensures var ws := Windows(w, ds, n, c, L, ciLength, p, e);
      LastTested(w, ds, n, c, L, ciLength, p, e) == if |ws| == 0 then None else Some(ws[|ws| - 1])
  {
    if n > 0 {
      LastTestedIsLastWindow(w, ds, n - 1, c, L, ciLength, p, e);
    }
  }

  /** The fold runs one test per iteration the counter reaches L: TestsRun of them. */
  lemma {:induction false} WindowsCount(w: Walk, ds: seq<StepDraw>, n: nat, c: int, L: int, ciLength: int,
                                        p: Parameters, e: Elementary)
    requires Admitted(w.ensemble, p.cpuImprove, e) && w.ensemble != [] && n <= |ds|
    requires forall k :: 0 <= k < |ds| ==> IndexFor(ds[k], |w.ensemble|)
    ensures |Windows(w, ds, n, c, L, ciLength, p, e)| == TestsRun(c, L, n)
  {
    if n > 0 {
      WindowsCount(w, ds, n - 1, c, L, ciLength, p, e);
    }
  }

  /**
   * One iteration is progress over that iteration: the histories grow by at most one accepted
   * step, numbered `step`, and by one mean moment, and E_tot changes only with a new total.
   */
  lemma NextProgressed(w: Walk, d: StepDraw, step: nat, p: Parameters, e: Elementary)
    requires Admitted(w.ensemble, p.cpuImprove, e) && 0 <= d.index < |w.ensemble| && step >= 1
    ensures Progressed(RecordsOf(w), RecordsOf(Next(w, d, step, p, e)), step - 1, step)
  {
    if !Step(w.ensemble, w.eTot, w.eDD, w.eF, d, p, e).accepted {
      StepRejectedRestores(w.ensemble, w.eTot, w.eDD, w.eF, d, p, e);
    }
  }

  /** The ensemble __init__ places is separated and shaped, so its energies are defined. */
  lemma PlacedAdmitted(p: Parameters, e: Elementary, draws: seq<PlacementDraw>)
    requires p.width > 0.0 && p.length >= 0.0
    requires forall k :: 0 <= k < |draws| ==> UnitDraw(draws[k])
    ensures CalculateNeedleDimensions(p).Ok?
    ensures Admitted(Place(p, CalculateNeedleDimensions(p).value, e, [], draws, 0).placed, p.cpuImprove, e)
    ensures Evaluable(Place(p, CalculateNeedleDimensions(p).value, e, [], draws, 0).placed,
      p.multipleDipoles, p.cpuImprove, e)
  {
    DimensionsNonNegative(p);
    var dims := CalculateNeedleDimensions(p).value;
    var ns := Place(p, dims, e, [], draws, 0).placed;
    PlaceSeparated(p, dims, e, [], draws, 0);
    PlaceAdmissible(p, dims, e, [], draws, 0);
    AdmissibleShaped(p, dims, ns, e);
    SeparatedEvaluable(ns, p.multipleDipoles, p.cpuImprove, e);
  }

  /**
   * The interval counter after one iteration that does not end the run: add_ci_step, and back
   * to 0 once it reaches L, where the convergence test ran.
   */
  function NextCounter(c: int, L: int): int
  {
    if c + 1 >= L then 0 else c + 1
  }

  /** The counter after n iterations that did not end the run, starting from c. */
  function CounterAfter(c: int, L: int, n: nat): int
  {
    if n == 0 then c else NextCounter(CounterAfter(c, L, n - 1), L)
  }

  /** The number of convergence tests those n iterations ran: the iterations the counter reached L. */
  function TestsRun(c: int, L: int, n: nat): nat
  {
    if n == 0 then 0 else TestsRun(c, L, n - 1) + (if CounterAfter(c, L, n - 1) + 1 >= L then 1 else 0)
  }

  /**
   * The cadence of the test: from a counter inside the interval, n iterations complete one test
   * every L iterations, and the counter holds the rest.
   */
  lemma {:induction false} TestCadence(c: int, L: int, n: nat)
    requires 0 <= c < L
    ensures c + n == TestsRun(c, L, n) * L + CounterAfter(c, L, n)
    ensures 0 <= CounterAfter(c, L, n) < L
  {
    if n > 0 {
      TestCadence(c, L, n - 1);
      var t := TestsRun(c, L, n - 1);
      assert (t + 1) * L == t * L + L;
    }
  }

  class Simulation {
    const p: Parameters
    const gv: GlobalValues
    const needles: Needles
    const e: Elementary

    /** E_tot is a number, the needles are placed and admitted, and the histories run in parallel. */
    ghost predicate Valid()
      reads gv`eTot, gv`totalEnergyArray, gv`ddEnergyArray, gv`fieldEnergyArray, gv`stepsArray, needles`needles
    {
      && gv.eTot.Num?
      && Admitted(needles.needles, p.cpuImprove, e)
      && gv.Parallel()
    }

    /** The records simulate's loop writes. */
    function Snapshot(): Records
      reads gv`eTot, gv`totalEnergyArray, gv`ddEnergyArray, gv`fieldEnergyArray, gv`stepsArray, gv`meanMagneticPotential
    {
      Records(gv.eTot, gv.totalEnergyArray, gv.ddEnergyArray, gv.fieldEnergyArray, gv.stepsArray,
        gv.meanMagneticPotential)
    }

    /**
     * __init__: place the needles, then store their total energy as E_tot (calc_total_energy
     * writes E_DD and E_F on the way).
     */
    constructor (p: Parameters, gv: GlobalValues, draws: seq<PlacementDraw>, e: Elementary)
      requires p.width > 0.0 && p.length >= 0.0
      requires forall k :: 0 <= k < |draws| ==> UnitDraw(draws[k])
      requires gv.Parallel()
      modifies gv`eTot, gv`eDD, gv`eF
      ensures this.p == p && this.gv == gv && this.e == e && fresh(needles)
      ensures needles.needles == Place(p, CalculateNeedleDimensions(p).value, e, [], draws, 0).placed
      ensures Valid() && Evaluable(needles.needles, p.multipleDipoles, p.cpuImprove, e)
      ensures gv.eDD == DdTotal(needles.needles, p.factor, p.multipleDipoles, p.cpuImprove, e)
      ensures gv.eF == FieldTotal(needles.needles, p.fieldVector, e)
      ensures gv.eTot == Num(gv.eDD + gv.eF)
    {
      var ns := new Needles(p, draws, e);
      PlacedAdmitted(p, e, draws);
      var total := ns.CalcTotalEnergy(gv, p.fieldVector, p.factor, p.multipleDipoles, p.cpuImprove, e);
      gv.eTot := Num(total);
      this.p := p;
      this.gv := gv;
      this.needles := ns;
      this.e := e;
    }

    /**
     * next_step: randint on an empty ensemble raises; otherwise the new state is the one the
     * step specification prescribes for the old state and the draw.
     */
    method NextStep(d: StepDraw) returns (r: Result<bool>)
      requires Valid() && IndexFor(d, |needles.needles|)
      modifies needles`needles, gv`eTot, gv`eDD, gv`eF
      ensures Valid()
      ensures old(needles.needles) == [] ==>
        && r == Err(EmptyRange) && needles.needles == []
        && gv.eTot == old(gv.eTot) && gv.eDD == old(gv.eDD) && gv.eF == old(gv.eF)
      ensures old(needles.needles) != [] ==>
        var s := Step(old(needles.needles), old(gv.eTot).value, old(gv.eDD), old(gv.eF), d, p, e);
        && r == Ok(s.accepted) && needles.needles == s.ensemble
        && gv.eTot == Num(s.eTot) && gv.eDD == s.eDD && gv.eF == s.eF
    {
      if |needles.needles| == 0 {
        return Err(EmptyRange);
      }
      ghost var ns := needles.needles;
      StepAdmitted(ns, gv.eTot.value, gv.eDD, gv.eF, d, p, e);
      var k := d.index;
      var oldNeedle := needles.PopAt(k);
      var newNeedle := MakeProposal(oldNeedle, d, p.cpuImprove, e);
      SeparatedRemove(ns, k, p.cpuImprove, e);
      ProposalShaped(oldNeedle, d, p.cpuImprove, e);
      var fits := CheckOverlap(newNeedle, needles.needles, p.cpuImprove, e);
      if !fits {
        needles.Append(oldNeedle);
        return Ok(false);
      }
      needles.Append(newNeedle);
      var accepted := Decide(ns, oldNeedle, d);
      return Ok(accepted);
    }

    /**
     * The rest of next_step once check_overlap has accepted the proposal, which is already at
     * the end of the list: compute the new energy, keep the proposal when the rule accepts it,
     * otherwise pop it and put the old needle back.
     */
    method Decide(ghost ns: seq<Needle>, oldNeedle: Needle, d: StepDraw) returns (accepted: bool)
      requires Admitted(ns, p.cpuImprove, e) && 0 <= d.index < |ns| && Fits(ns, d, p.cpuImprove, e)
      requires oldNeedle == ns[d.index] && gv.eTot.Num?
      requires needles.needles == Removed(ns, d.index) + [Proposal(ns[d.index], d, p.cpuImprove, e)]
      modifies needles`needles, gv`eTot, gv`eDD, gv`eF
      ensures var s := Decided(ns, old(gv.eTot).value, d, p, e);
        && accepted == s.accepted && needles.needles == s.ensemble
        && gv.eTot == Num(s.eTot) && gv.eDD == s.eDD && gv.eF == s.eF
    {
      ProposalAdmitted(ns, d, p, e);
      var eNew := needles.CalcTotalEnergy(gv, p.fieldVector, p.factor, p.multipleDipoles, p.cpuImprove, e);
      if eNew < gv.eTot.value {
        gv.eTot := Num(eNew);
        return true;
      }
      var dE := gv.eTot.value - eNew;
      if ExpAtLeast(dE, p.kT, d.u, e) {
        gv.eTot := Num(eNew);
        return true;
      }
      var proposal := needles.PopAt(|needles.needles| - 1);
      assert needles.needles == Removed(ns, d.index);
      needles.Append(oldNeedle);
      return false;
    }

    /**
     * add_ci_step, then the mean moment is recorded; the convergence test is due once ci_step
     * reaches the interval length.
     */
    method CountIteration(x: real) returns (due: bool)
      modifies gv`ciStep, gv`meanMagneticPotential
      ensures gv.meanMagneticPotential == old(gv.meanMagneticPotential) + [x]
      ensures gv.ciStep == old(gv.ciStep) + 1
      ensures due <==> old(gv.ciStep) + 1 >= p.convergenceIntervalLength
    {
      gv.AddCiStep();
      gv.AppendMeanMagneticPotentialX(x);
      due := gv.ciStep >= p.convergenceIntervalLength;
    }

    /** The first half of an iteration: a step, and the records an accepted step leaves. */
    method StepAndRecord(i: nat, d: StepDraw) returns (r: Result<bool>)
      requires Valid() && IndexFor(d, |needles.needles|)
      modifies needles`needles, gv`eTot, gv`eDD, gv`eF
      modifies gv`totalEnergyArray, gv`ddEnergyArray, gv`fieldEnergyArray, gv`stepsArray
      ensures Valid() && |needles.needles| == |old(needles.needles)|
      ensures old(needles.needles) == [] ==> r == Err(EmptyRange) && Snapshot() == old(Snapshot())
      ensures old(needles.needles) != [] ==>
        var s := Step(old(needles.needles), old(gv.eTot).value, old(gv.eDD), old(gv.eF), d, p, e);
        r == Ok(s.accepted) && CurrentWalk() == Recorded(old(CurrentWalk()), s, i + 1)
    {
      ghost var w := CurrentWalk();
      r := NextStep(d);
      if r.Err? {
        return;
      }
      ghost var s := Step(w.ensemble, w.eTot, w.eDD, w.eF, d, p, e);
      if r.value {
        gv.AppendEnergies();
        gv.AddStep(i + 1);
      }
      assert CurrentWalk() == Recorded(w, s, i + 1);
    }

    /**
     * The convergence test once ci_step has reached the interval length: calculate_ci_parameters
     * (which raises on a window under two values), then stop when the normalised deviation is
     * within the threshold, or else reset the counter for a new interval.
     */
    method ConvergenceTest(i: nat) returns (v: Verdict)
      requires gv.ciStep >= p.convergenceIntervalLength
      modifies gv`ciStep, gv`ciStddev, gv`ciMean, gv`ciStddevNorm
      ensures v.Stop? ==> gv.ciStep == old(gv.ciStep)
      ensures v.Stop? ==> v.outcome == Failed(TooFewDataPoints) || v.outcome == Converged(i + 1)
      ensures v.Stop? && v.outcome.Failed? ==> |gv.GetCi()| < 2
      ensures v.Stop? && v.outcome.Failed? ==>
        gv.ciStddev == old(gv.ciStddev) && gv.ciMean == old(gv.ciMean) && gv.ciStddevNorm == old(gv.ciStddevNorm)
      ensures v.Stop? && v.outcome.Converged? ==> Concluded()
      ensures v.Continue? ==> gv.ciStep == 0 && Rejected()
    {
      var c := gv.CalculateCiParameters(e);
      if c.Fail? {
        return Stop(Failed(c.error));
      }
      if AtMost(gv.ciStddevNorm, p.convergenceThreshold) {
        return Stop(Converged(i + 1));
      }
      gv.SetCiStepToZero();
      return Continue;
    }

    /**
     * The second half of iteration i: count it towards the interval, record the mean moment
     * and, at a full interval, run the convergence test. Before a full interval the statistics
     * of the last test stay.
     */
    method CloseIteration(i: nat) returns (v: Verdict)
      requires needles.needles != [] && gv.eTot.Num?
      modifies gv`ciStep, gv`meanMagneticPotential, gv`ciStddev, gv`ciMean, gv`ciStddevNorm
      ensures CurrentWalk() == WithMean(old(CurrentWalk()), e)
      ensures v.Stop? ==> v.outcome == Failed(TooFewDataPoints) || v.outcome == Converged(i + 1)
      ensures v.Stop? && v.outcome.Failed? ==> gv.ciStep >= p.convergenceIntervalLength && |gv.GetCi()| < 2
      ensures v.Stop? && v.outcome.Converged? ==> Concluded()
      ensures v.Continue? && p.convergenceIntervalLength >= 1 ==> gv.ciStep < p.convergenceIntervalLength
      ensures v.Stop? ==> gv.ciStep == old(gv.ciStep) + 1 >= p.convergenceIntervalLength
      ensures v.Continue? ==> gv.ciStep == NextCounter(old(gv.ciStep), p.convergenceIntervalLength)
      ensures v.Continue? && old(gv.ciStep) + 1 >= p.convergenceIntervalLength ==> Rejected()
      ensures old(gv.ciStep) + 1 < p.convergenceIntervalLength || (v.Stop? && v.outcome.Failed?) ==>
        gv.ciStddev == old(gv.ciStddev) && gv.ciMean == old(gv.ciMean) && gv.ciStddevNorm == old(gv.ciStddevNorm)
    {
      ghost var sd, mean, norm := gv.ciStddev, gv.ciMean, gv.ciStddevNorm;
      ghost var w := CurrentWalk();
      var m := needles.GetMeanMagneticPotential(e);
      var due := CountIteration(m.value);
      assert gv.ciStddev == sd && gv.ciMean == mean && gv.ciStddevNorm == norm;
      assert CurrentWalk() == WithMean(w, e);
      v := Continue;
      if due {
        v := ConvergenceTest(i);
      }
    }

    /**
     * One iteration of simulate's loop, the 0-based iteration i: the walk advances by Next with
     * step number i + 1, and the interval counter and statistics as CloseIteration says.
     */
    method Iteration(i: nat, d: StepDraw) returns (v: Verdict)
      requires Valid() && IndexFor(d, |needles.needles|)
      modifies needles`needles, gv`eTot, gv`eDD, gv`eF
      modifies gv`totalEnergyArray, gv`ddEnergyArray, gv`fieldEnergyArray, gv`stepsArray
      modifies gv`ciStep, gv`meanMagneticPotential, gv`ciStddev, gv`ciMean, gv`ciStddevNorm
      ensures Valid() && |needles.needles| == |old(needles.needles)|
      ensures v == Stop(Failed(EmptyRange)) <==> old(needles.needles) == []
      ensures old(needles.needles) == [] ==> Snapshot() == old(Snapshot())
      ensures old(needles.needles) != [] ==> CurrentWalk() == Next(old(CurrentWalk()), d, i + 1, p, e)
      ensures v.Stop? ==> v.outcome.Failed? || v.outcome == Converged(i + 1)
      ensures v.Stop? && v.outcome.Failed? && v.outcome.error != EmptyRange ==>
        && v.outcome.error == TooFewDataPoints
        && gv.ciStep >= p.convergenceIntervalLength && |gv.GetCi()| < 2
      ensures v.Stop? && v.outcome.Converged? ==> Concluded()
      ensures v.Continue? && p.convergenceIntervalLength >= 1 ==> gv.ciStep < p.convergenceIntervalLength
      ensures v.Stop? && old(needles.needles) != [] ==> gv.ciStep == old(gv.ciStep) + 1 >= p.convergenceIntervalLength
      ensures old(needles.needles) == [] ==> gv.ciStep == old(gv.ciStep)
      ensures v.Continue? ==> gv.ciStep == NextCounter(old(gv.ciStep), p.convergenceIntervalLength)
      ensures v.Continue? && old(gv.ciStep) + 1 >= p.convergenceIntervalLength ==> Rejected()
      ensures old(gv.ciStep) + 1 < p.convergenceIntervalLength || (v.Stop? && v.outcome.Failed?) ==>
        gv.ciStddev == old(gv.ciStddev) && gv.ciMean == old(gv.ciMean) && gv.ciStddevNorm == old(gv.ciStddevNorm)
    {
      ghost var c, sd, mean, norm := gv.ciStep, gv.ciStddev, gv.ciMean, gv.ciStddevNorm;
      ghost var means, w := gv.meanMagneticPotential, CurrentWalk();
      var r := StepAndRecord(i, d);
      assert gv.ciStep == c && gv.meanMagneticPotential == means;
      assert gv.ciStddev == sd && gv.ciMean == mean && gv.ciStddevNorm == norm;
      if r.Err? {
        return Stop(Failed(r.error));
      }
      v := CloseIteration(i);
    }

    /** The convergence test passed on a full interval. */
    ghost predicate Concluded()
      reads gv`ciStep, gv`totalEnergyArray, gv`ciStddev, gv`ciMean, gv`ciStddevNorm
    {
      && gv.ciStep >= p.convergenceIntervalLength && |gv.GetCi()| >= 2
      && gv.ciStddev == SampleStdev(gv.GetCi(), e) && gv.ciMean == Mean(gv.GetCi())
      && gv.ciStddevNorm == NormalisedStddev(gv.ciStddev, gv.ciMean)
      && AtMost(gv.ciStddevNorm, p.convergenceThreshold)
    }

    /** The convergence test ran on the current window of two or more values and failed. */
    ghost predicate Rejected()
      reads gv`totalEnergyArray, gv`ciStddev, gv`ciMean, gv`ciStddevNorm
    {
      && |gv.GetCi()| >= 2
      && gv.ciStddev == SampleStdev(gv.GetCi(), e) && gv.ciMean == Mean(gv.GetCi())
      && gv.ciStddevNorm == NormalisedStddev(gv.ciStddev, gv.ciMean)
      && !AtMost(gv.ciStddevNorm, p.convergenceThreshold)
    }

    /** The walk the loop of simulate advances, read off the current state. */
    ghost function CurrentWalk(): Walk
      requires gv.eTot.Num?
      reads needles`needles, gv`eTot, gv`eDD, gv`eF, gv`totalEnergyArray, gv`ddEnergyArray, gv`fieldEnergyArray
      reads gv`stepsArray, gv`meanMagneticPotential
    {
      Walk(needles.needles, gv.eTot.value, gv.eDD, gv.eF, gv.totalEnergyArray, gv.ddEnergyArray,
        gv.fieldEnergyArray, gv.stepsArray, gv.meanMagneticPotential)
    }

    /** A convergence test on window w that ran and did not pass. */
    ghost predicate FailedTest(w: seq<real>)
    {
      |w| >= 2 && !AtMost(NormalisedStddev(SampleStdev(w, e), Mean(w)), p.convergenceThreshold)
    }

    /**
     * The deviation statistics a test on the window last leaves, or sd0, mean0 and norm0 when
     * no test ran.
     */
    ghost predicate StatisticsOf(last: Option<seq<real>>, sd0: real, mean0: real, norm0: Float)
      reads gv`ciStddev, gv`ciMean, gv`ciStddevNorm
    {
      match last
      case None => gv.ciStddev == sd0 && gv.ciMean == mean0 && gv.ciStddevNorm == norm0
      case Some(w) =>
        && |w| >= 2 && gv.ciStddev == SampleStdev(w, e) && gv.ciMean == Mean(w)
        && gv.ciStddevNorm == NormalisedStddev(gv.ciStddev, gv.ciMean)
    }

    /**
     * One pass of simulate's loop body, iteration i: the walk advances to the fold over i + 1
     * draws, and when the iteration ran a test that did not end the run, its window joins the
     * failed ones.
     */
    method Advance(draws: seq<StepDraw>, i: nat, ghost w0: Walk, ghost c0: int, ghost rejected: seq<seq<real>>,
                   ghost sd0: real, ghost mean0: real, ghost norm0: Float)
      returns (v: Verdict, ghost rejected': seq<seq<real>>)
      requires Valid() && i < |draws|
      requires forall k :: 0 <= k < |draws| ==> IndexFor(draws[k], |needles.needles|)
      requires needles.needles != [] ==>
        && w0.ensemble != [] && Admitted(w0.ensemble, p.cpuImprove, e) && |w0.ensemble| == |needles.needles|
        && CurrentWalk() == Run(w0, draws, i, p, e)
        && rejected == Windows(w0, draws, i, c0, p.convergenceIntervalLength, gv.ciLength, p, e)
        && StatisticsOf(LastTested(w0, draws, i, c0, p.convergenceIntervalLength, gv.ciLength, p, e), sd0, mean0, norm0)
      requires gv.ciStep == CounterAfter(c0, p.convergenceIntervalLength, i)
      requires forall k :: 0 <= k < |rejected| ==> FailedTest(rejected[k])
      modifies needles`needles, gv`eTot, gv`eDD, gv`eF
      modifies gv`totalEnergyArray, gv`ddEnergyArray, gv`fieldEnergyArray, gv`stepsArray
      modifies gv`ciStep, gv`meanMagneticPotential, gv`ciStddev, gv`ciMean, gv`ciStddevNorm
      ensures Valid() && |needles.needles| == |old(needles.needles)|
      ensures old(needles.needles) == [] ==> v == Stop(Failed(EmptyRange)) && Snapshot() == old(Snapshot())
      ensures old(needles.needles) != [] ==> v != Stop(Failed(EmptyRange)) && CurrentWalk() == Run(w0, draws, i + 1, p, e)
      ensures v.Stop? ==> rejected' == rejected
      ensures v.Stop? && v.outcome.Failed? && v.outcome.error != EmptyRange ==>
        && v.outcome.error == TooFewDataPoints
        && gv.ciStep >= p.convergenceIntervalLength && |gv.GetCi()| < 2
      ensures v.Stop? ==> v.outcome.Failed? || (v.outcome == Converged(i + 1) && Concluded())
      ensures v.Continue? ==> gv.ciStep == CounterAfter(c0, p.convergenceIntervalLength, i + 1)
      ensures v.Continue? ==> forall k :: 0 <= k < |rejected'| ==> FailedTest(rejected'[k])
      ensures v.Continue? && old(needles.needles) != [] ==>
        rejected' == Windows(w0, draws, i + 1, c0, p.convergenceIntervalLength, gv.ciLength, p, e)
      ensures old(gv.ciStep) + 1 < p.convergenceIntervalLength || (v.Stop? && v.outcome.Failed?) ==>
        gv.ciStddev == old(gv.ciStddev) && gv.ciMean == old(gv.ciMean) && gv.ciStddevNorm == old(gv.ciStddevNorm)
      ensures old(needles.needles) != [] && v.Continue? ==>
        StatisticsOf(LastTested(w0, draws, i + 1, c0, p.convergenceIntervalLength, gv.ciLength, p, e), sd0, mean0, norm0)
      ensures old(needles.needles) != [] && v.Stop? && v.outcome.Failed? ==>
        StatisticsOf(LastTested(w0, draws, i, c0, p.convergenceIntervalLength, gv.ciLength, p, e), sd0, mean0, norm0)
    {
      ghost var c := gv.ciStep;
      v := Iteration(i, draws[i]);
      rejected' := rejected;
      if v.Continue? && c + 1 >= p.convergenceIntervalLength {
        rejected' := rejected + [gv.GetCi()];
      }
    }

    /**
     * simulate's while True loop on a non-empty ensemble, one step draw per iteration, until
     * the convergence test passes or an error is raised; the loop also ends when the draws run
     * out. After n iterations the ensemble, the energies and the histories are the fold Run of
     * the first n draws from the starting walk w0 (Run's ensures says what that means for the
     * histories). The ghost rejected lists the windows of the tests that did not end the run:
     * they are the fold's Windows, there are TestsRun of them (WindowsCount) and every one
     * failed. Unless the run converged, the deviation statistics are those the last of them
     * left (LastTested, the last of Windows by LastTestedIsLastWindow). When the draws run out
     * the counter is CounterAfter the iterations (TestCadence says how the two divide them).
     */
    method Iterate(draws: seq<StepDraw>)
      returns (outcome: RunOutcome, ghost n: nat, ghost w0: Walk, ghost rejected: seq<seq<real>>)
      requires Valid() && needles.needles != []
      requires forall k :: 0 <= k < |draws| ==> IndexFor(draws[k], |needles.needles|)
      modifies needles`needles, gv`eTot, gv`eDD, gv`eF
      modifies gv`totalEnergyArray, gv`ddEnergyArray, gv`fieldEnergyArray, gv`stepsArray
      modifies gv`ciStep, gv`meanMagneticPotential, gv`ciStddev, gv`ciMean, gv`ciStddevNorm
      ensures Valid() && n <= |draws|
      ensures w0 == old(CurrentWalk())
      ensures CurrentWalk() == Run(w0, draws, n, p, e)
      ensures outcome.Failed? ==>
        || (outcome.error == EmptyRange && old(needles.needles) == [])
        || (outcome.error == TooFewDataPoints && gv.ciStep >= p.convergenceIntervalLength && |gv.GetCi()| < 2)
      ensures outcome.Converged? ==> 1 <= outcome.steps == n && Concluded()
      ensures outcome.DrawsExhausted? ==>
        && n == |draws|
        && gv.ciStep == CounterAfter(old(gv.ciStep), p.convergenceIntervalLength, n)
      ensures forall k :: 0 <= k < |rejected| ==> FailedTest(rejected[k])
      ensures outcome.DrawsExhausted? ==>
        rejected == Windows(w0, draws, n, old(gv.ciStep), p.convergenceIntervalLength, gv.ciLength, p, e)
      ensures !outcome.DrawsExhausted? ==>
        1 <= n && rejected == Windows(w0, draws, n - 1, old(gv.ciStep), p.convergenceIntervalLength, gv.ciLength, p, e)
      ensures outcome.DrawsExhausted? ==>
        StatisticsOf(LastTested(w0, draws, n, old(gv.ciStep), p.convergenceIntervalLength, gv.ciLength, p, e),
          old(gv.ciStddev), old(gv.ciMean), old(gv.ciStddevNorm))
      ensures outcome.Failed? ==>
        StatisticsOf(LastTested(w0, draws, n - 1, old(gv.ciStep), p.convergenceIntervalLength, gv.ciLength, p, e),
          old(gv.ciStddev), old(gv.ciMean), old(gv.ciStddevNorm))
    {
      w0 := CurrentWalk();
      ghost var c0, sd0, mean0, norm0 := gv.ciStep, gv.ciStddev, gv.ciMean, gv.ciStddevNorm;
      rejected := [];
      outcome := DrawsExhausted;
      n := 0;
      var i := 0;
      while i < |draws|
        invariant 0 <= i <= |draws| && n == i && outcome == DrawsExhausted
        invariant Valid() && |needles.needles| == |w0.ensemble|
        invariant CurrentWalk() == Run(w0, draws, i, p, e)
        invariant rejected == Windows(w0, draws, i, c0, p.convergenceIntervalLength, gv.ciLength, p, e)
        invariant forall k :: 0 <= k < |rejected| ==> FailedTest(rejected[k])
        invariant gv.ciStep == CounterAfter(c0, p.convergenceIntervalLength, i)
        invariant StatisticsOf(LastTested(w0, draws, i, c0, p.convergenceIntervalLength, gv.ciLength, p, e), sd0, mean0, norm0)
      {
        var v;
        ghost var rejected';
        v, rejected' := Advance(draws, i, w0, c0, rejected, sd0, mean0, norm0);
        if v.Stop? {
          outcome, n := v.outcome, i + 1;
          return;
        }
        i, n, rejected := i + 1, i + 1, rejected';
      }
    }

    /**
     * simulate: on an empty ensemble the first iteration raises (every draw index range is
     * empty), so the run fails before anything changes; otherwise Iterate runs the loop and
     * start is the walk it starts from.
     */
    method Simulate(draws: seq<StepDraw>)
      returns (outcome: RunOutcome, ghost n: nat, ghost start: Walk, ghost rejected: seq<seq<real>>)
      requires Valid()
      requires forall k :: 0 <= k < |draws| ==> IndexFor(draws[k], |needles.needles|)
      modifies needles`needles, gv`eTot, gv`eDD, gv`eF
      modifies gv`totalEnergyArray, gv`ddEnergyArray, gv`fieldEnergyArray, gv`stepsArray
      modifies gv`ciStep, gv`meanMagneticPotential, gv`ciStddev, gv`ciMean, gv`ciStddevNorm
      ensures Valid() && |needles.needles| == |old(needles.needles)| && n <= |draws|
      ensures start == old(CurrentWalk())
      ensures old(needles.needles) == [] ==>
        && n == 0 && rejected == [] && Snapshot() == old(Snapshot())
        && outcome == (if draws == [] then DrawsExhausted else Failed(EmptyRange))
      ensures old(needles.needles) != [] ==> CurrentWalk() == Run(start, draws, n, p, e)
      ensures outcome.Failed? ==>
        || (outcome.error == EmptyRange && old(needles.needles) == [])
        || (outcome.error == TooFewDataPoints && gv.ciStep >= p.convergenceIntervalLength && |gv.GetCi()| < 2)
      ensures outcome.Converged? ==> 1 <= outcome.steps == n && Concluded()
      ensures outcome.DrawsExhausted? ==>
        && n == |draws|
        && gv.ciStep == CounterAfter(old(gv.ciStep), p.convergenceIntervalLength, n)
      ensures forall k :: 0 <= k < |rejected| ==> FailedTest(rejected[k])
      ensures old(needles.needles) != [] && outcome.DrawsExhausted? ==>
        rejected == Windows(start, draws, n, old(gv.ciStep), p.convergenceIntervalLength, gv.ciLength, p, e)
      ensures old(needles.needles) != [] && !outcome.DrawsExhausted? ==>
        1 <= n && rejected == Windows(start, draws, n - 1, old(gv.ciStep), p.convergenceIntervalLength, gv.ciLength, p, e)
      ensures old(needles.needles) == [] ==>
        gv.ciStddev == old(gv.ciStddev) && gv.ciMean == old(gv.ciMean) && gv.ciStddevNorm == old(gv.ciStddevNorm)
      ensures old(needles.needles) != [] && outcome.DrawsExhausted? ==>
        StatisticsOf(LastTested(start, draws, n, old(gv.ciStep), p.convergenceIntervalLength, gv.ciLength, p, e),
          old(gv.ciStddev), old(gv.ciMean), old(gv.ciStddevNorm))
      ensures old(needles.needles) != [] && outcome.Failed? ==>
        StatisticsOf(LastTested(start, draws, n - 1, old(gv.ciStep), p.convergenceIntervalLength, gv.ciLength, p, e),
          old(gv.ciStddev), old(gv.ciMean), old(gv.ciStddevNorm))
    {
      if needles.needles == [] {
        start := CurrentWalk();
        outcome, n, rejected := DrawsExhausted, 0, [];
        if draws != [] {
          var v := Iteration(0, draws[0]);
          outcome := v.outcome;
        }
        return;
      }
      outcome, n, start, rejected := Iterate(draws);
    }
  }
}
