/**
 * The ensemble of needles (classes/Needles.py): placement by rejection sampling inside the box,
 * the total energy over unordered pairs, the mean x-moment and the coordinate getters.
 */
module NeedleEnsemble {
  import opened Outcomes
  import opened VectorMath
  import opened SimulationParameters
  import opened NeedleGeometry
  import opened RunState

  // ---------------------------------------------------------------------------------------
  // Invariants of an ensemble

  /** A needle as every caller creates one: non-negative radius and length, and a current cache. */
  ghost predicate Shaped(n: Needle, cpu: bool, e: Elementary)
  {
    n.radius >= 0.0 && n.length >= 0 && (cpu ==> Cached(n, e))
  }

  ghost predicate AllShaped(ns: seq<Needle>, cpu: bool, e: Elementary)
  {
    forall k :: 0 <= k < |ns| ==> Shaped(ns[k], cpu, e)
  }

  /** A shaped needle's coordinate lists hold exactly the 2 * length + 1 spheres, the centre first. */
  lemma ShapedPoints(n: Needle, cpu: bool, e: Elementary)
    requires Shaped(n, cpu, e)
    ensures Sized(n, cpu, e)
    ensures |Points(n, cpu, e).xs| == SphereCount(n) >= 1
    ensures At(Points(n, cpu, e), 0) == Centre(n)
  {
    CoordinateShape(n, e);
  }

  lemma AllShapedSized(ns: seq<Needle>, cpu: bool, e: Elementary)
    requires AllShaped(ns, cpu, e)
    ensures AllSized(ns, cpu, e)
  {
    forall k | 0 <= k < |ns| ensures Sized(ns[k], cpu, e) {
      ShapedPoints(ns[k], cpu, e);
    }
  }

  /** No two distinct positions of the ensemble hold overlapping needles. */
  ghost predicate Separated(ns: seq<Needle>, cpu: bool, e: Elementary)
  {
    && AllSized(ns, cpu, e)
    && forall i, j :: 0 <= i < |ns| && 0 <= j < |ns| && i != j ==> NeedlesApart(ns[i], ns[j], cpu, e)
  }

  /** Appending a needle that check_overlap accepted against the whole ensemble keeps it separated. */
  lemma SeparatedAppend(ns: seq<Needle>, c: Needle, cpu: bool, e: Elementary)
    requires Separated(ns, cpu, e) && Sized(c, cpu, e)
    requires NoOverlap(c, ns, cpu, e)
    ensures Separated(ns + [c], cpu, e)
  {
    var t := ns + [c];
    assert AllSized(t, cpu, e);
    forall i, j | 0 <= i < |t| && 0 <= j < |t| && i != j
      ensures NeedlesApart(t[i], t[j], cpu, e)
    {
      if j == |ns| {
        NeedlesApartSymmetric(c, ns[i], cpu, e);
      } else if i != |ns| {
        assert t[i] == ns[i] && t[j] == ns[j];
      }
    }
  }

  /** list.pop(k): the ensemble without position k. */
  function Removed(ns: seq<Needle>, k: nat): (r: seq<Needle>)
    requires k < |ns|
    ensures |r| == |ns| - 1
    ensures forall i :: 0 <= i < |r| ==> r[i] == if i < k then ns[i] else ns[i + 1]
  {
    ns[..k] + ns[k + 1..]
  }

  lemma RemovedMultiset(ns: seq<Needle>, k: nat)
    requires k < |ns|
    ensures multiset(Removed(ns, k)) + multiset{ns[k]} == multiset(ns)
  {
    assert ns == ns[..k] + [ns[k]] + ns[k + 1..];
  }

  /** Taking a needle out keeps the rest separated, and the taken needle overlaps none of them. */
  lemma SeparatedRemove(ns: seq<Needle>, k: nat, cpu: bool, e: Elementary)
    requires k < |ns| && Separated(ns, cpu, e)
    ensures Separated(Removed(ns, k), cpu, e)
    ensures Sized(ns[k], cpu, e) && AllSized(Removed(ns, k), cpu, e)
    ensures NoOverlap(ns[k], Removed(ns, k), cpu, e)
  {
    var r := Removed(ns, k);
    assert AllSized(r, cpu, e) by {
      forall i | 0 <= i < |r| ensures Sized(r[i], cpu, e) {
        var s := if i < k then i else i + 1;
        assert r[i] == ns[s];
      }
    }
    forall i, j | 0 <= i < |r| && 0 <= j < |r| && i != j
      ensures NeedlesApart(r[i], r[j], cpu, e)
    {
      var s := if i < k then i else i + 1;
      var t := if j < k then j else j + 1;
      assert r[i] == ns[s] && r[j] == ns[t];
    }
    forall j | 0 <= j < |r| ensures NeedlesApart(ns[k], r[j], cpu, e) {
      var t := if j < k then j else j + 1;
      assert r[j] == ns[t];
    }
  }

  /** Put back at the end, the taken needle leaves the ensemble separated again. */
  lemma SeparatedRestore(ns: seq<Needle>, k: nat, cpu: bool, e: Elementary)
    requires k < |ns| && Separated(ns, cpu, e)
    ensures Separated(Removed(ns, k) + [ns[k]], cpu, e)
  {
    SeparatedRemove(ns, k, cpu, e);
    SeparatedAppend(Removed(ns, k), ns[k], cpu, e);
  }

  lemma AllShapedRemove(ns: seq<Needle>, k: nat, cpu: bool, e: Elementary)
    requires k < |ns| && AllShaped(ns, cpu, e)
    ensures AllShaped(Removed(ns, k), cpu, e)
  {
    var r := Removed(ns, k);
    forall i | 0 <= i < |r| ensures Shaped(r[i], cpu, e) {
      var s := if i < k then i else i + 1;
      assert r[i] == ns[s];
    }
  }

  // ---------------------------------------------------------------------------------------
  // Placement (__init__)

  /** The random draws one placement attempt consumes: three uniform fractions and two angles. */
  datatype PlacementDraw = PlacementDraw(ux: real, uy: real, uz: real, theta: real, phi: real)

  /** random.uniform(a, b) for the underlying fraction u: a + (b - a) * u. */
  function Uniform(a: real, b: real, u: real): real
  {
    a + (b - a) * u
  }

  predicate Between(x: real, a: real, b: real)
  {
    (a <= x <= b) || (b <= x <= a)
  }

  /** For a fraction in [0, 1], random.uniform lands between its two ends, in either order. */
  lemma UniformBetween(a: real, b: real, u: real)
    requires 0.0 <= u <= 1.0
    ensures Between(Uniform(a, b, u), a, b)
  {
    var d := b - a;
    assert d * (1.0 - u) == d - d * u;
    if d >= 0.0 {
      ProductNonNegative(d, u);
      ProductNonNegative(d, 1.0 - u);
    } else {
      ProductNonNegative(-d, u);
      ProductNonNegative(-d, 1.0 - u);
    }
  }

  lemma ProductNonNegative(x: real, y: real)
    requires x >= 0.0 && y >= 0.0
    ensures x * y >= 0.0
  {
  }

  predicate UnitDraw(d: PlacementDraw)
  {
    0.0 <= d.ux <= 1.0 && 0.0 <= d.uy <= 1.0 && 0.0 <= d.uz <= 1.0
  }

  /** The box margin tmp_l = radius * 2 * count. */
  function Margin(dims: Dimensions): real
  {
    dims.radius * 2.0 * dims.count as real
  }

  /** A centre within [tmp_l, box - tmp_l] on every axis. */
  predicate InBox(p: Parameters, dims: Dimensions, n: Needle)
  {
    var m := Margin(dims);
    && Between(n.posX, m, p.boxDimensions.x - m)
    && Between(n.posY, m, p.boxDimensions.y - m)
    && Between(n.posZ, m, p.boxDimensions.z - m)
  }

  /** The needle one attempt proposes, with its cache filled in cpu_improve mode. */
  function Candidate(p: Parameters, dims: Dimensions, d: PlacementDraw, e: Elementary): Needle
  {
    var m := Margin(dims);
    var n := Needle(
      Uniform(m, p.boxDimensions.x - m, d.ux),
      Uniform(m, p.boxDimensions.y - m, d.uy),
      Uniform(m, p.boxDimensions.z - m, d.uz),
      d.theta, d.phi, dims.radius, dims.count, p.charge, [], [], []);
    if p.cpuImprove then WithCache(n, e) else n
  }

  /** What every placed needle satisfies: the configured geometry and charge, in the box, cached. */
  ghost predicate Admissible(p: Parameters, dims: Dimensions, n: Needle, e: Elementary)
  {
    && n.radius == dims.radius && n.length == dims.count && n.charge == p.charge
    && InBox(p, dims, n)
    && (p.cpuImprove ==> Cached(n, e))
  }

  ghost predicate AllAdmissible(p: Parameters, dims: Dimensions, ns: seq<Needle>, e: Elementary)
  {
    forall k :: 0 <= k < |ns| ==> Admissible(p, dims, ns[k], e)
  }

  lemma CandidateAdmissible(p: Parameters, dims: Dimensions, d: PlacementDraw, e: Elementary)
    requires UnitDraw(d)
    ensures Admissible(p, dims, Candidate(p, dims, d, e), e)
    ensures dims.radius >= 0.0 && dims.count >= 0 ==> Shaped(Candidate(p, dims, d, e), p.cpuImprove, e)
  {
    var m := Margin(dims);
    UniformBetween(m, p.boxDimensions.x - m, d.ux);
    UniformBetween(m, p.boxDimensions.y - m, d.uy);
    UniformBetween(m, p.boxDimensions.z - m, d.uz);
  }

  lemma CandidateSized(p: Parameters, dims: Dimensions, d: PlacementDraw, e: Elementary)
    ensures Sized(Candidate(p, dims, d, e), p.cpuImprove, e)
  {
    CoordinateSized(Candidate(p, dims, d, e), e);
  }

  /** One attempt of the retry loop: the candidate is appended exactly when check_overlap accepts it. */
  function Attempt(p: Parameters, dims: Dimensions, e: Elementary, placed: seq<Needle>, d: PlacementDraw)
    : (r: seq<Needle>)
    requires AllSized(placed, p.cpuImprove, e)
    ensures AllSized(r, p.cpuImprove, e)
    ensures |placed| <= |r| <= |placed| + 1 && r[..|placed|] == placed
  {
    var c := Candidate(p, dims, d, e);
    CandidateSized(p, dims, d, e);
    if NoOverlap(c, placed, p.cpuImprove, e) then placed + [c] else placed
  }

  /** An accepted candidate keeps the ensemble separated. */
  lemma AttemptSeparated(p: Parameters, dims: Dimensions, e: Elementary, placed: seq<Needle>, d: PlacementDraw)
    requires Separated(placed, p.cpuImprove, e)
    ensures Separated(Attempt(p, dims, e, placed, d), p.cpuImprove, e)
  {
    var c := Candidate(p, dims, d, e);
    CandidateSized(p, dims, d, e);
    if NoOverlap(c, placed, p.cpuImprove, e) {
      SeparatedAppend(placed, c, p.cpuImprove, e);
    }
  }

  lemma AttemptAdmissible(p: Parameters, dims: Dimensions, e: Elementary, placed: seq<Needle>, d: PlacementDraw)
    requires AllSized(placed, p.cpuImprove, e) && UnitDraw(d)
    requires AllAdmissible(p, dims, placed, e)
    ensures AllAdmissible(p, dims, Attempt(p, dims, e, placed, d), e)
  {
    var c := Candidate(p, dims, d, e);
    CandidateSized(p, dims, d, e);
    CandidateAdmissible(p, dims, d, e);
    var r := Attempt(p, dims, e, placed, d);
    forall k | 0 <= k < |r| ensures Admissible(p, dims, r[k], e) {
      if k < |placed| {
        assert r[k] == r[..|placed|][k];
      } else {
        assert r == placed + [c];
      }
    }
  }

  /** The ensemble placed so far and the position of the first draw not yet consumed. */
  datatype Placement = Placement(placed: seq<Needle>, next: nat)

  /**
   * The placement loop from draw k on: while fewer than quantity needles are placed, each draw
   * is one attempt. The loop stops early when the draws run out. Placement only appends, never
   * beyond quantity, and it fills the ensemble unless the draws run out first.
   */
  function Place(p: Parameters, dims: Dimensions, e: Elementary, placed: seq<Needle>, draws: seq<PlacementDraw>, k: nat)
    : (r: Placement)
    requires AllSized(placed, p.cpuImprove, e) && k <= |draws|
    ensures |r.placed| >= |placed| && r.placed[..|placed|] == placed
    ensures |placed| <= p.quantity ==> |r.placed| <= p.quantity
    ensures |r.placed| >= p.quantity || r.next == |draws|
    ensures k <= r.next <= |draws|
    decreases |draws| - k
  {
    if |placed| >= p.quantity || k == |draws| then Placement(placed, k)
    else
      var t := Attempt(p, dims, e, placed, draws[k]);
      var r := Place(p, dims, e, t, draws, k + 1);
      assert r.placed[..|placed|] == r.placed[..|t|][..|placed|];
      r
  }

  /** One step of the placement loop. */
  lemma PlaceAdvance(p: Parameters, dims: Dimensions, e: Elementary, placed: seq<Needle>, draws: seq<PlacementDraw>, k: nat)
    requires AllSized(placed, p.cpuImprove, e) && |placed| < p.quantity && k < |draws|
    ensures Place(p, dims, e, placed, draws, k) == Place(p, dims, e, Attempt(p, dims, e, placed, draws[k]), draws, k + 1)
  {
  }

  lemma AttemptResult(p: Parameters, dims: Dimensions, e: Elementary, placed: seq<Needle>, d: PlacementDraw)
    requires AllSized(placed, p.cpuImprove, e)
    ensures Sized(Candidate(p, dims, d, e), p.cpuImprove, e)
    ensures Attempt(p, dims, e, placed, d)
         == if NoOverlap(Candidate(p, dims, d, e), placed, p.cpuImprove, e) then placed + [Candidate(p, dims, d, e)] else placed
  {
    CandidateSized(p, dims, d, e);
  }

  /** Placed needles are pairwise non-overlapping: each was checked against all earlier ones. */
  lemma {:induction false} PlaceSeparated(p: Parameters, dims: Dimensions, e: Elementary, placed: seq<Needle>, draws: seq<PlacementDraw>, k: nat)
    requires Separated(placed, p.cpuImprove, e) && k <= |draws|
    ensures Separated(Place(p, dims, e, placed, draws, k).placed, p.cpuImprove, e)
    decreases |draws| - k
  {
    if |placed| >= p.quantity || k == |draws| {
    } else {
      AttemptSeparated(p, dims, e, placed, draws[k]);
      PlaceSeparated(p, dims, e, Attempt(p, dims, e, placed, draws[k]), draws, k + 1);
    }
  }

  /**
   * With fractions in [0, 1], every placed needle has the configured geometry and charge, a
   * centre inside [tmp_l, box - tmp_l] on each axis and, in cpu_improve mode, a current cache.
   */
  lemma {:induction false} PlaceAdmissible(p: Parameters, dims: Dimensions, e: Elementary, placed: seq<Needle>, draws: seq<PlacementDraw>, k: nat)
    requires AllSized(placed, p.cpuImprove, e) && k <= |draws|
    requires AllAdmissible(p, dims, placed, e)
    requires forall m :: 0 <= m < |draws| ==> UnitDraw(draws[m])
    ensures AllAdmissible(p, dims, Place(p, dims, e, placed, draws, k).placed, e)
    decreases |draws| - k
  {
    if |placed| >= p.quantity || k == |draws| {
    } else {
      AttemptAdmissible(p, dims, e, placed, draws[k]);
      PlaceAdmissible(p, dims, e, Attempt(p, dims, e, placed, draws[k]), draws, k + 1);
    }
  }

  lemma AdmissibleShaped(p: Parameters, dims: Dimensions, ns: seq<Needle>, e: Elementary)
    requires dims.radius >= 0.0 && dims.count >= 0
    requires AllAdmissible(p, dims, ns, e)
    ensures AllShaped(ns, p.cpuImprove, e)
  {
  }

  // ---------------------------------------------------------------------------------------
  // calc_total_energy: the spec

  /** Every pair of distinct positions has a defined dipole-dipole potential (no zero distance). */
  predicate Evaluable(ns: seq<Needle>, multi: bool, cpu: bool, e: Elementary)
  {
    forall i, j {:trigger DdDefined(ns[i], ns[j], multi, cpu, e)} ::
      0 <= i < |ns| && 0 <= j < |ns| && i != j ==> DdDefined(ns[i], ns[j], multi, cpu, e)
  }

  /** Hard-sphere separation with non-negative radii and lengths rules out a zero distance. */
  lemma SeparatedEvaluable(ns: seq<Needle>, multi: bool, cpu: bool, e: Elementary)
    requires Separated(ns, cpu, e) && AllShaped(ns, cpu, e)
    ensures Evaluable(ns, multi, cpu, e)
  {
    forall i, j | 0 <= i < |ns| && 0 <= j < |ns| && i != j
      ensures DdDefined(ns[i], ns[j], multi, cpu, e)
    {
      ApartDefined(ns[i], ns[j], multi, cpu, e);
    }
  }

  lemma ApartDefined(a: Needle, b: Needle, multi: bool, cpu: bool, e: Elementary)
    requires Shaped(a, cpu, e) && Shaped(b, cpu, e)
    requires Sized(a, cpu, e) && Sized(b, cpu, e) && NeedlesApart(a, b, cpu, e)
    ensures DdDefined(a, b, multi, cpu, e)
  {
    ShapedPoints(a, cpu, e);
    ShapedPoints(b, cpu, e);
    var c1, c2 := Points(a, cpu, e), Points(b, cpu, e);
    assert SpheresApart(At(c1, 0), a.radius, At(c2, 0), b.radius, e);
    forall m, k | 0 <= m < |c1.xs| && 0 <= k < |c2.xs|
      ensures Norm(e, Sub(At(c1, m), At(c2, k))) != 0.0
    {
      assert SpheresApart(At(c1, m), a.radius, At(c2, k), b.radius, e);
    }
  }

  /** The inner loop: needle i against positions i + 1 .. j - 1. */
  function RowDd(ns: seq<Needle>, i: nat, j: nat, factor: real, multi: bool, cpu: bool, e: Elementary): real
    requires i < |ns| && j <= |ns| && Evaluable(ns, multi, cpu, e)
  {
    if j <= i + 1 then 0.0
    else RowDd(ns, i, j - 1, factor, multi, cpu, e) + DdPotential(ns[i], ns[j - 1], factor, multi, cpu, e)
  }

  /** The rows of the first i needles, each against every later needle. */
  function DdRows(ns: seq<Needle>, i: nat, factor: real, multi: bool, cpu: bool, e: Elementary): real
    requires i <= |ns| && Evaluable(ns, multi, cpu, e)
  {
    if i == 0 then 0.0
    else DdRows(ns, i - 1, factor, multi, cpu, e) + RowDd(ns, i - 1, |ns|, factor, multi, cpu, e)
  }

  /** The field terms of the first i needles. */
  function FieldRows(ns: seq<Needle>, i: nat, field: Vec3, e: Elementary): real
    requires i <= |ns|
  {
    if i == 0 then 0.0 else FieldRows(ns, i - 1, field, e) + FieldPotential(ns[i - 1], field, e)
  }

  function DdTotal(ns: seq<Needle>, factor: real, multi: bool, cpu: bool, e: Elementary): real
    requires Evaluable(ns, multi, cpu, e)
  {
    DdRows(ns, |ns|, factor, multi, cpu, e)
  }

  function FieldTotal(ns: seq<Needle>, field: Vec3, e: Elementary): real
  {
    FieldRows(ns, |ns|, field, e)
  }

  function TotalEnergy(ns: seq<Needle>, field: Vec3, factor: real, multi: bool, cpu: bool, e: Elementary): real
    requires Evaluable(ns, multi, cpu, e)
  {
    DdTotal(ns, factor, multi, cpu, e) + FieldTotal(ns, field, e)
  }

  /** With no pair to sum over, the dipole-dipole term is 0 and the total is the field term alone. */
  lemma SmallEnsembleEnergy(ns: seq<Needle>, field: Vec3, factor: real, multi: bool, cpu: bool, e: Elementary)
    requires |ns| <= 1
    ensures Evaluable(ns, multi, cpu, e)
    ensures DdTotal(ns, factor, multi, cpu, e) == 0.0
    ensures TotalEnergy(ns, field, factor, multi, cpu, e) == FieldTotal(ns, field, e)
  {
    if |ns| == 1 {
      assert DdRows(ns, 1, factor, multi, cpu, e) == DdRows(ns, 0, factor, multi, cpu, e) + RowDd(ns, 0, 1, factor, multi, cpu, e);
    }
  }

  /** The needle one attempt creates: a uniform centre, the drawn angles and, if enabled, the cache. */
  method MakeCandidate(p: Parameters, dims: Dimensions, d: PlacementDraw, e: Elementary) returns (needle: Needle)
    ensures needle == Candidate(p, dims, d, e)
  {
    var tmpL := dims.radius * 2.0 * dims.count as real;
    var x := Uniform(tmpL, p.boxDimensions.x - tmpL, d.ux);
    var y := Uniform(tmpL, p.boxDimensions.y - tmpL, d.uy);
    var z := Uniform(tmpL, p.boxDimensions.z - tmpL, d.uz);
    var n := Needle(x, y, z, d.theta, d.phi, dims.radius, dims.count, p.charge, [], [], []);
    assert tmpL == Margin(dims);
    needle := n;
    if p.cpuImprove {
      var c := GetCoordinate(n, e);
      needle := n.(dataX := c.xs, dataY := c.ys, dataZ := c.zs);
      assert needle == WithCache(n, e);
    }
  }

  /** One pass of the retry loop: create a candidate and append it if check_overlap accepts it. */
  method TryCandidate(p: Parameters, dims: Dimensions, e: Elementary, placed0: seq<Needle>, d: PlacementDraw)
    returns (placed: seq<Needle>, ok: bool)
    requires AllSized(placed0, p.cpuImprove, e)
    ensures placed == Attempt(p, dims, e, placed0, d)
    ensures ok <==> |placed| == |placed0| + 1
    ensures !ok ==> placed == placed0
  {
    var needle := MakeCandidate(p, dims, d, e);
    CandidateSized(p, dims, d, e);
    AttemptResult(p, dims, e, placed0, d);
    ok := CheckOverlap(needle, placed0, p.cpuImprove, e);
    placed := placed0;
    if ok {
      placed := placed + [needle];
    }
  }

  /**
   * The retry loop for one needle: attempts consume draws from position k0 on until a candidate
   * is accepted (ok) or the draws run out.
   */
  method PlaceOne(p: Parameters, dims: Dimensions, e: Elementary, placed0: seq<Needle>, draws: seq<PlacementDraw>, k0: nat)
    returns (placed: seq<Needle>, k: nat, ok: bool)
    requires k0 <= |draws| && AllSized(placed0, p.cpuImprove, e) && |placed0| < p.quantity
    ensures k0 <= k <= |draws| && AllSized(placed, p.cpuImprove, e)
    ensures ok ==> |placed| == |placed0| + 1
    ensures !ok ==> placed == placed0 && k == |draws|
    ensures Place(p, dims, e, placed, draws, k) == Place(p, dims, e, placed0, draws, k0)
  {
    k := k0;
    while k < |draws|
      invariant k0 <= k <= |draws|
      invariant Place(p, dims, e, placed0, draws, k) == Place(p, dims, e, placed0, draws, k0)
      decreases |draws| - k
    {
      PlaceAdvance(p, dims, e, placed0, draws, k);
      placed, ok := TryCandidate(p, dims, e, placed0, draws[k]);
      k := k + 1;
      if ok {
        return;
      }
    }
    placed, ok := placed0, false;
  }

  // ---------------------------------------------------------------------------------------
  // Needles

  class Needles {
    var needles: seq<Needle>
    const p: Parameters

    /**
     * __init__: for each of quantity needles, retry candidates until check_overlap accepts one.
     * The retries consume the given draws; the loop ends early when they run out.
     */
    constructor (p: Parameters, draws: seq<PlacementDraw>, e: Elementary)
      requires p.width != 0.0
      ensures this.p == p
      ensures needles == Place(p, CalculateNeedleDimensions(p).value, e, [], draws, 0).placed
      ensures Separated(needles, p.cpuImprove, e)
    {
      this.p := p;
      var dims := CalculateNeedleDimensions(p).value;
      var placed: seq<Needle> := [];
      var k := 0;
      var i := 0;
      while i < p.quantity
        invariant k <= |draws| && AllSized(placed, p.cpuImprove, e)
        invariant |placed| == i && (i <= p.quantity || i == 0)
        invariant Place(p, dims, e, placed, draws, k) == Place(p, dims, e, [], draws, 0)
        decreases p.quantity - i
      {
        var ok;
        placed, k, ok := PlaceOne(p, dims, e, placed, draws, k);
        if !ok {
          break;
        }
        i := i + 1;
      }
      needles := placed;
      PlaceSeparated(p, dims, e, [], draws, 0);
    }

    /** get: the list itself. */
    method Get() returns (ns: seq<Needle>)
      ensures ns == needles
    {
      ns := needles;
    }

    /** get_by_id: Python indexing, negative indices counting from the end. */
    method GetById(idx: int) returns (r: Result<Needle>)
      ensures r.Ok? <==> -|needles| <= idx < |needles|
      ensures r.Ok? ==> r.value == needles[if idx >= 0 then idx else |needles| + idx]
      ensures r.Err? ==> r.error == IndexOutOfRange
    {
      if 0 <= idx < |needles| {
        r := Ok(needles[idx]);
      } else if -|needles| <= idx < 0 {
        r := Ok(needles[|needles| + idx]);
      } else {
        r := Err(IndexOutOfRange);
      }
    }

    method Append(needle: Needle)
      modifies this`needles
      ensures needles == old(needles) + [needle]
    {
      needles := needles + [needle];
    }

    /** get().pop(k) on the shared list: removes and returns the needle at position k. */
    method PopAt(k: nat) returns (n: Needle)
      requires k < |needles|
      modifies this`needles
      ensures n == old(needles[k]) && needles == Removed(old(needles), k)
    {
      n := needles[k];
      needles := needles[..k] + needles[k + 1..];
    }

    /**
     * calc_total_energy: all pairs i < j once each and every field term once; the two parts
     * are written to gv and their sum is returned.
     */
    method CalcTotalEnergy(gv: GlobalValues, field: Vec3, factor: real, multi: bool, cpu: bool, e: Elementary)
      returns (total: real)
      requires Evaluable(needles, multi, cpu, e)
      modifies gv`eF, gv`eDD
      ensures gv.eDD == DdTotal(needles, factor, multi, cpu, e)
      ensures gv.eF == FieldTotal(needles, field, e)
      ensures total == gv.eDD + gv.eF
    {
      var sumDd, sumField := SumEnergies(needles, field, factor, multi, cpu, e);
      gv.eF := sumField;
      gv.eDD := sumDd;
      total := sumDd + sumField;
    }

    /** get_mean_magnetic_potential: the mean x-component of the moments; empty raises. */
    method GetMeanMagneticPotential(e: Elementary) returns (r: Result<real>)
      ensures |needles| == 0 ==> r == Err(ZeroDivision)
      ensures |needles| > 0 ==> r == Ok(MomentXSum(needles, e) / |needles| as real)
    {
      var mySum := 0.0;
      for k := 0 to |needles|
        invariant mySum == MomentXSum(needles[..k], e)
      {
        assert needles[..k + 1][..k] == needles[..k];
        var v := Polar2Cart(needles[k], needles[k].charge, e);
        mySum := mySum + v.x;
      }
      assert needles[..|needles|] == needles;
      if |needles| == 0 {
        return Err(ZeroDivision);
      }
      return Ok(mySum / |needles| as real);
    }

    /** get_coordinates: get_coordinate of every needle, one entry per needle in order. */
    method GetCoordinates(e: Elementary) returns (xs: seq<seq<real>>, ys: seq<seq<real>>, zs: seq<seq<real>>)
      ensures |xs| == |ys| == |zs| == |needles|
      ensures forall k :: 0 <= k < |needles| ==> Coords(xs[k], ys[k], zs[k]) == Coordinate(needles[k], e)
    {
      xs, ys, zs := [], [], [];
      for k := 0 to |needles|
        invariant |xs| == |ys| == |zs| == k
        invariant forall q :: 0 <= q < k ==> Coords(xs[q], ys[q], zs[q]) == Coordinate(needles[q], e)
      {
        var c := GetCoordinate(needles[k], e);
        xs, ys, zs := xs + [c.xs], ys + [c.ys], zs + [c.zs];
      }
    }

    /**
     * get_coordinates_from_memory: every needle's cache, in order. With the caches current it
     * returns what get_coordinates returns.
     */
    method GetCoordinatesFromMemory(e: Elementary) returns (xs: seq<seq<real>>, ys: seq<seq<real>>, zs: seq<seq<real>>)
      ensures |xs| == |ys| == |zs| == |needles|
      ensures forall k :: 0 <= k < |needles| ==> Coords(xs[k], ys[k], zs[k]) == FromMemory(needles[k])
      ensures AllShaped(needles, true, e) ==>
        forall k :: 0 <= k < |needles| ==> Coords(xs[k], ys[k], zs[k]) == Coordinate(needles[k], e)
    {
      xs, ys, zs := [], [], [];
      for k := 0 to |needles|
        invariant |xs| == |ys| == |zs| == k
        invariant forall q :: 0 <= q < k ==> Coords(xs[q], ys[q], zs[q]) == FromMemory(needles[q])
      {
        xs, ys, zs := xs + [needles[k].dataX], ys + [needles[k].dataY], zs + [needles[k].dataZ];
      }
    }
  }

  /** The loops of calc_total_energy, accumulating the dipole-dipole and the field sums. */
  method SumEnergies(ns: seq<Needle>, field: Vec3, factor: real, multi: bool, cpu: bool, e: Elementary)
    returns (sumDd: real, sumField: real)
    requires Evaluable(ns, multi, cpu, e)
    ensures sumDd == DdTotal(ns, factor, multi, cpu, e)
    ensures sumField == FieldTotal(ns, field, e)
  {
    sumField := 0.0;
    sumDd := 0.0;
    for i := 0 to |ns|
      invariant sumDd == DdRows(ns, i, factor, multi, cpu, e)
      invariant sumField == FieldRows(ns, i, field, e)
    {
      DdRowsStep(ns, i, factor, multi, cpu, e);
      sumDd := AddRowDd(ns, sumDd, i, factor, multi, cpu, e);
      sumField := sumField + FieldPotential(ns[i], field, e);
    }
  }

  /** One more row of the outer loop. */
  lemma DdRowsStep(ns: seq<Needle>, i: nat, factor: real, multi: bool, cpu: bool, e: Elementary)
    requires i < |ns| && Evaluable(ns, multi, cpu, e)
    ensures DdRows(ns, i + 1, factor, multi, cpu, e)
         == DdRows(ns, i, factor, multi, cpu, e) + RowDd(ns, i, |ns|, factor, multi, cpu, e)
  {
  }

  /** One more position of the inner loop; the position i itself adds nothing. */
  lemma RowDdStep(ns: seq<Needle>, i: nat, j: nat, factor: real, multi: bool, cpu: bool, e: Elementary)
    requires i <= j < |ns| && Evaluable(ns, multi, cpu, e)
    ensures i == j ==> RowDd(ns, i, j + 1, factor, multi, cpu, e) == RowDd(ns, i, j, factor, multi, cpu, e) == 0.0
    ensures i < j ==>
      RowDd(ns, i, j + 1, factor, multi, cpu, e)
      == RowDd(ns, i, j, factor, multi, cpu, e) + DdPotential(ns[i], ns[j], factor, multi, cpu, e)
  {
  }

  /** The inner loop of calc_total_energy: j runs from i, skipping j == i. */
  method AddRowDd(ns: seq<Needle>, sum0: real, i: nat, factor: real, multi: bool, cpu: bool, e: Elementary)
    returns (sum: real)
    requires i < |ns| && Evaluable(ns, multi, cpu, e)
    ensures sum == sum0 + RowDd(ns, i, |ns|, factor, multi, cpu, e)
  {
    sum := sum0;
    for j := i to |ns|
      invariant sum == sum0 + RowDd(ns, i, j, factor, multi, cpu, e)
    {
      RowDdStep(ns, i, j, factor, multi, cpu, e);
      if i == j {
        continue;
      }
      var v := CalcDdPotential(ns[i], ns[j], factor, multi, cpu, e);
      sum := sum + v;
    }
  }

  /** The sum of the x-components of the moments, accumulated in ensemble order. */
  function MomentXSum(ns: seq<Needle>, e: Elementary): real
  {
    if ns == [] then 0.0 else MomentXSum(ns[..|ns| - 1], e) + Moment(ns[|ns| - 1], e).x
  }
}
