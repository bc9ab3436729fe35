/**
 * One needle (classes/Needle.py): a rigid chain of 2 * length + 1 collinear spheres of equal
 * radius, centred at (posX, posY, posZ) and oriented by the spherical angles (theta, phi).
 * The three data arrays are the coordinate cache used in cpu_improve mode.
 */
module NeedleGeometry {
  import opened Outcomes
  import opened VectorMath

  datatype Needle = Needle(
    posX: real, posY: real, posZ: real,
    theta: real, phi: real,
    radius: real,
    length: int,
    charge: real,
    dataX: seq<real>, dataY: seq<real>, dataZ: seq<real>)

  /** Three parallel coordinate lists, one entry per sphere, as get_coordinate returns them. */
  datatype Coords = Coords(xs: seq<real>, ys: seq<real>, zs: seq<real>)

  predicate Aligned(c: Coords)
  {
    |c.xs| == |c.ys| == |c.zs|
  }

  function At(c: Coords, k: nat): Vec3
    requires k < |c.xs| && k < |c.ys| && k < |c.zs|
  {
    Vec3(c.xs[k], c.ys[k], c.zs[k])
  }

  function Centre(n: Needle): Vec3
  {
    Vec3(n.posX, n.posY, n.posZ)
  }

  // ---------------------------------------------------------------------------------------
  // polar2cart

  /** A vector of magnitude r along the needle axis. */
  function Polar2Cart(n: Needle, r: real, e: Elementary): (c: Vec3)
  {
    Vec3(r * e.sin(n.theta) * e.cos(n.phi), r * e.sin(n.theta) * e.sin(n.phi), r * e.cos(n.theta))
  }

  /** polar2cart is linear in its magnitude. */
  lemma Polar2CartLinear(n: Needle, a: real, r: real, e: Elementary)
    ensures Polar2Cart(n, a * r, e) == Scale(a, Polar2Cart(n, r, e))
  {
    var s, c, sp, ct := e.sin(n.theta), e.cos(n.phi), e.sin(n.phi), e.cos(n.theta);
    assert (a * r) * s * c == a * (r * s * c);
    assert (a * r) * s * sp == a * (r * s * sp);
    assert (a * r) * ct == a * (r * ct);
  }

  /** In particular a negated magnitude gives the mirrored vector. */
  lemma Polar2CartOdd(n: Needle, r: real, e: Elementary)
    ensures Polar2Cart(n, -r, e) == Neg(Polar2Cart(n, r, e))
  {
    Polar2CartLinear(n, -1.0, r, e);
  }

  // ---------------------------------------------------------------------------------------
  // get_coordinate

  /** How many entries get_coordinate produces: the middle sphere and two per side step. */
  function CoordinateCount(n: Needle): nat
  {
    if n.length > 0 then 2 * n.length + 1 else 1
  }

  /**
   * Sphere k in get_coordinate's order: entry 0 is the middle sphere; side step i = 1..length
   * adds entry 2i - 1 at offset +2ri and entry 2i at offset -2ri along the axis.
   */
  function SphereCentre(n: Needle, k: nat, e: Elementary): Vec3
  {
    if k == 0 then Centre(n)
    else if k % 2 == 1 then Add(Polar2Cart(n, n.radius * ((k + 1) / 2) as real * 2.0, e), Centre(n))
    else Add(Polar2Cart(n, n.radius * (-(k / 2)) as real * 2.0, e), Centre(n))
  }

  /** Entries 2i - 1 and 2i are the spheres of side step i. */
  lemma SideStep(n: Needle, i: int, e: Elementary)
    requires i >= 1
    ensures SphereCentre(n, 2 * i - 1, e) == Add(Polar2Cart(n, n.radius * i as real * 2.0, e), Centre(n))
    ensures SphereCentre(n, 2 * i, e) == Add(Polar2Cart(n, n.radius * (-i) as real * 2.0, e), Centre(n))
  {
    assert (2 * i - 1) % 2 == 1 && (2 * i - 1 + 1) / 2 == i;
    assert (2 * i) % 2 == 0 && (2 * i) / 2 == i;
  }

  /** The coordinate lists get_coordinate computes from the geometry. */
  function Coordinate(n: Needle, e: Elementary): (c: Coords)
  {
    var count := CoordinateCount(n);
    Coords(
      seq(count, k requires 0 <= k < count => SphereCentre(n, k, e).x),
      seq(count, k requires 0 <= k < count => SphereCentre(n, k, e).y),
      seq(count, k requires 0 <= k < count => SphereCentre(n, k, e).z))
  }

  /** Entry k of the computed lists is sphere k. */
  lemma CoordinateAt(n: Needle, k: nat, e: Elementary)
    requires k < CoordinateCount(n)
    ensures var c := Coordinate(n, e); k < |c.xs| && k < |c.ys| && k < |c.zs| && At(c, k) == SphereCentre(n, k, e)
  {
  }

  /** get_coordinate: the middle sphere, then a loop over the side steps appending two spheres each. */
  method GetCoordinate(n: Needle, e: Elementary) returns (c: Coords)
    ensures c == Coordinate(n, e)
  {
    var xs, ys, zs := [n.posX], [n.posY], [n.posZ];
    var i := 1;
    while i <= n.length
      invariant 1 <= i && (n.length >= 1 ==> i <= n.length + 1) && (n.length < 1 ==> i == 1)
      invariant |xs| == |ys| == |zs| == 2 * i - 1
      invariant forall k :: 0 <= k < |xs| ==>
        xs[k] == SphereCentre(n, k, e).x && ys[k] == SphereCentre(n, k, e).y && zs[k] == SphereCentre(n, k, e).z
    {
      SideStep(n, i, e);
      var v := Polar2Cart(n, n.radius * i as real * 2.0, e);
      xs, ys, zs := xs + [v.x + n.posX], ys + [v.y + n.posY], zs + [v.z + n.posZ];
      v := Polar2Cart(n, n.radius * (-i) as real * 2.0, e);
      xs, ys, zs := xs + [v.x + n.posX], ys + [v.y + n.posY], zs + [v.z + n.posZ];
      i := i + 1;
    }
    var target := Coordinate(n, e);
    assert xs == target.xs && ys == target.ys && zs == target.zs;
    c := Coords(xs, ys, zs);
  }

  /** The shape get_coordinate promises: 2 * length + 1 entries in each list, in sphere order. */
  lemma CoordinateShape(n: Needle, e: Elementary)
    requires n.length >= 0
    ensures var c := Coordinate(n, e);
      && |c.xs| == |c.ys| == |c.zs| == 2 * n.length + 1
      && At(c, 0) == Centre(n)
      && forall i :: 1 <= i <= n.length ==>
           && At(c, 2 * i - 1) == Add(Polar2Cart(n, n.radius * i as real * 2.0, e), Centre(n))
           && At(c, 2 * i) == Add(Polar2Cart(n, n.radius * (-i) as real * 2.0, e), Centre(n))
  {
    var c := Coordinate(n, e);
    forall i | 1 <= i <= n.length
      ensures At(c, 2 * i - 1) == Add(Polar2Cart(n, n.radius * i as real * 2.0, e), Centre(n))
      ensures At(c, 2 * i) == Add(Polar2Cart(n, n.radius * (-i) as real * 2.0, e), Centre(n))
    {
      SideStep(n, i, e);
    }
  }

  /** The offset of step -i is the negated offset of step i. */
  lemma OppositeOffset(r: real, i: int)
    ensures r * (-i) as real * 2.0 == -(r * i as real * 2.0)
  {
    var k := i as real;
    assert (-i) as real == -k;
    assert r * (-k) == -(r * k);
  }

  /** Opposite magnitudes give opposite vectors. */
  lemma Polar2CartOpposite(n: Needle, a: real, b: real, e: Elementary)
    requires a == -b
    ensures Polar2Cart(n, a, e) == Neg(Polar2Cart(n, b, e))
  {
    Polar2CartOdd(n, b, e);
  }

  /** The two spheres added at side step i are mirror images of each other about the middle sphere. */
  lemma SideSpheresMirror(n: Needle, e: Elementary, i: int)
    requires 1 <= i <= n.length
    ensures var c := Coordinate(n, e);
      Sub(At(c, 2 * i - 1), Centre(n)) == Neg(Sub(At(c, 2 * i), Centre(n)))
  {
    var c := Coordinate(n, e);
    var d := n.radius * i as real * 2.0;
    CoordinateAt(n, 2 * i - 1, e);
    CoordinateAt(n, 2 * i, e);
    SideStep(n, i, e);
    OppositeOffset(n.radius, i);
    Polar2CartOpposite(n, n.radius * (-i) as real * 2.0, d, e);
    MirrorThroughCentre(Polar2Cart(n, d, e), Centre(n), At(c, 2 * i - 1), At(c, 2 * i));
  }

  /** Points at +v and -v from a centre are mirror images through it. */
  lemma MirrorThroughCentre(v: Vec3, centre: Vec3, a: Vec3, b: Vec3)
    requires a == Add(v, centre) && b == Add(Neg(v), centre)
    ensures Sub(a, centre) == Neg(Sub(b, centre))
  {
  }

  // ---------------------------------------------------------------------------------------
  // The coordinate cache (cpu_improve)

  /** get_coordinate_from_memory: the cached lists. */
  function FromMemory(n: Needle): Coords
  {
    Coords(n.dataX, n.dataY, n.dataZ)
  }

  /** The needle with its cache filled from get_coordinate, as the callers do after creating one. */
  function WithCache(n: Needle, e: Elementary): (m: Needle)
    ensures Cached(m, e)
    ensures m.(dataX := n.dataX, dataY := n.dataY, dataZ := n.dataZ) == n
  {
    var c := Coordinate(n, e);
    var m := n.(dataX := c.xs, dataY := c.ys, dataZ := c.zs);
    CoordinateIgnoresCache(m, n, e);
    m
  }

  /** The geometry alone determines the coordinates; the cache plays no part. */
  lemma CoordinateIgnoresCache(m: Needle, n: Needle, e: Elementary)
    requires m.(dataX := n.dataX, dataY := n.dataY, dataZ := n.dataZ) == n
    ensures Coordinate(m, e) == Coordinate(n, e)
  {
    assert Centre(m) == Centre(n);
    forall r: real ensures Polar2Cart(m, r, e) == Polar2Cart(n, r, e) {
      assert m.theta == n.theta && m.phi == n.phi;
    }
    forall k: nat ensures SphereCentre(m, k, e) == SphereCentre(n, k, e) {
      assert m.radius == n.radius;
    }
    var cm, cn := Coordinate(m, e), Coordinate(n, e);
    assert cm.xs == cn.xs && cm.ys == cn.ys && cm.zs == cn.zs;
  }

  /** The cache holds exactly what the geometry produces. */
  ghost predicate Cached(n: Needle, e: Elementary)
  {
    FromMemory(n) == Coordinate(n, e)
  }

  // ---------------------------------------------------------------------------------------
  // check_overlap

  /** The sphere coordinates check_overlap reads: the cache in cpu_improve mode, else computed. */
  function Points(n: Needle, cpu: bool, e: Elementary): Coords
  {
    if cpu then FromMemory(n) else Coordinate(n, e)
  }

  /** range(0, l) has max(l, 0) elements. */
  function RangeLength(l: int): nat
  {
    if l > 0 then l else 0
  }

  /** The loop bound l = 2 * length + 1 of check_overlap, as a count of spheres compared. */
  function SphereCount(n: Needle): nat
  {
    RangeLength(n.length * 2 + 1)
  }

  /** The coordinate lists are long enough for check_overlap's index loops (no IndexError). */
  predicate Sized(n: Needle, cpu: bool, e: Elementary)
  {
    Aligned(Points(n, cpu, e)) && |Points(n, cpu, e).xs| >= SphereCount(n)
  }

  predicate AllSized(ns: seq<Needle>, cpu: bool, e: Elementary)
  {
    forall j {:trigger Sized(ns[j], cpu, e)} :: 0 <= j < |ns| ==> Sized(ns[j], cpu, e)
  }

  lemma CoordinateSized(n: Needle, e: Elementary)
    ensures Sized(n, false, e)
    ensures Cached(n, e) ==> Sized(n, true, e)
  {
  }

  /** Two spheres do not touch: touching (distance == r1 + r2) counts as overlap. */
  predicate SpheresApart(p1: Vec3, r1: real, p2: Vec3, r2: real, e: Elementary)
  {
    r2 + r1 < Norm(e, Sub(p1, p2))
  }

  /** The first n1 spheres of c1 are apart from the first n2 spheres of c2. */
  predicate CoordsApart(c1: Coords, r1: real, n1: nat, c2: Coords, r2: real, n2: nat, e: Elementary)
    requires Aligned(c1) && Aligned(c2) && n1 <= |c1.xs| && n2 <= |c2.xs|
  {
    forall m, k :: 0 <= m < n1 && 0 <= k < n2 ==> SpheresApart(At(c1, m), r1, At(c2, k), r2, e)
  }

  /** Every sphere of a is apart from every sphere of b. */
  predicate NeedlesApart(a: Needle, b: Needle, cpu: bool, e: Elementary)
    requires Sized(a, cpu, e) && Sized(b, cpu, e)
  {
    CoordsApart(Points(a, cpu, e), a.radius, SphereCount(a), Points(b, cpu, e), b.radius, SphereCount(b), e)
  }

  /** The answer check_overlap gives: a overlaps none of the needles. */
  predicate NoOverlap(a: Needle, others: seq<Needle>, cpu: bool, e: Elementary)
    requires Sized(a, cpu, e) && AllSized(others, cpu, e)
  {
    forall j :: 0 <= j < |others| ==> NeedlesApart(a, others[j], cpu, e)
  }

  /** The two inner loops of check_overlap: every sphere pair of two needles, with early exit. */
  method ScanSpheres(c1: Coords, r1: real, l1: int, c2: Coords, r2: real, l2: int, e: Elementary)
    returns (apart: bool)
    requires Aligned(c1) && Aligned(c2) && l1 <= |c1.xs| && l2 <= |c2.xs|
    ensures apart == CoordsApart(c1, r1, RangeLength(l1), c2, r2, RangeLength(l2), e)
  {
    var m := 0;
    while m < l1
      invariant 0 <= m <= RangeLength(l1)
      invariant CoordsApart(c1, r1, m, c2, r2, RangeLength(l2), e)
    {
      var k := 0;
      while k < l2
        invariant 0 <= k <= RangeLength(l2)
        invariant CoordsApart(c1, r1, m, c2, r2, RangeLength(l2), e)
        invariant forall k' :: 0 <= k' < k ==> SpheresApart(At(c1, m), r1, At(c2, k'), r2, e)
      {
        var distance := Norm(e, Sub(At(c1, m), At(c2, k)));
        if distance <= r2 + r1 {
          assert !SpheresApart(At(c1, m), r1, At(c2, k), r2, e);
          return false;
        }
        k := k + 1;
      }
      m := m + 1;
    }
    return true;
  }

  /**
   * check_overlap: a scan over every needle and every sphere pair that returns false at the
   * first pair closer than or exactly at r1 + r2. With the non-cache branch read as intended
   * (get_coordinate called); CheckOverlapAsWritten keeps the code's reading.
   */
  method CheckOverlap(a: Needle, others: seq<Needle>, cpu: bool, e: Elementary) returns (ok: bool)
    requires Sized(a, cpu, e) && AllSized(others, cpu, e)
    ensures ok == NoOverlap(a, others, cpu, e)
    ensures others == [] ==> ok
  {
    var c1 := ReadPoints(a, cpu, e);
    for i := 0 to |others|
      invariant forall j :: 0 <= j < i ==> NeedlesApart(a, others[j], cpu, e)
    {
      var apart := ApartFrom(a, c1, others[i], cpu, e);
      if !apart {
        return false;
      }
      ApartPrefix(a, others, i, cpu, e);
    }
    return true;
  }

  /** The needles compared so far, extended by one more that is apart from a. */
  lemma ApartPrefix(a: Needle, others: seq<Needle>, i: nat, cpu: bool, e: Elementary)
    requires Sized(a, cpu, e) && AllSized(others, cpu, e) && i < |others|
    requires forall j :: 0 <= j < i ==> NeedlesApart(a, others[j], cpu, e)
    requires NeedlesApart(a, others[i], cpu, e)
    ensures forall j :: 0 <= j < i + 1 ==> NeedlesApart(a, others[j], cpu, e)
  {
  }

  /** check_overlap's choice of coordinates: the cache in cpu_improve mode, else get_coordinate(). */
  method ReadPoints(n: Needle, cpu: bool, e: Elementary) returns (c: Coords)
    ensures c == Points(n, cpu, e)
  {
    if cpu {
      c := FromMemory(n);
    } else {
      c := GetCoordinate(n, e);
    }
  }

  /** One pass of check_overlap's outer loop: a's spheres against those of one other needle. */
  method ApartFrom(a: Needle, c1: Coords, b: Needle, cpu: bool, e: Elementary) returns (apart: bool)
    requires Sized(a, cpu, e) && Sized(b, cpu, e) && c1 == Points(a, cpu, e)
    ensures apart == NeedlesApart(a, b, cpu, e)
  {
    var c2 := ReadPoints(b, cpu, e);
    apart := ScanSpheres(c1, a.radius, a.length * 2 + 1, c2, b.radius, b.length * 2 + 1, e);
  }

  /** Apartness of two sphere sets does not depend on which is named first. */
  lemma CoordsApartSymmetric(c1: Coords, r1: real, n1: nat, c2: Coords, r2: real, n2: nat, e: Elementary)
    requires Aligned(c1) && Aligned(c2) && n1 <= |c1.xs| && n2 <= |c2.xs|
    ensures CoordsApart(c1, r1, n1, c2, r2, n2, e) == CoordsApart(c2, r2, n2, c1, r1, n1, e)
  {
    forall m, k | 0 <= m < n1 && 0 <= k < n2
      ensures SpheresApart(At(c1, m), r1, At(c2, k), r2, e) == SpheresApart(At(c2, k), r2, At(c1, m), r1, e)
    {
      DistanceSymmetric(e, At(c1, m), At(c2, k));
    }
  }

  /** Two needles are apart regardless of which one is checked against the other. */
  lemma NeedlesApartSymmetric(a: Needle, b: Needle, cpu: bool, e: Elementary)
    requires Sized(a, cpu, e) && Sized(b, cpu, e)
    ensures NeedlesApart(a, b, cpu, e) == NeedlesApart(b, a, cpu, e)
  {
    CoordsApartSymmetric(Points(a, cpu, e), a.radius, SphereCount(a), Points(b, cpu, e), b.radius, SphereCount(b), e);
  }

  lemma NoOverlapSingleton(a: Needle, b: Needle, cpu: bool, e: Elementary)
    requires Sized(a, cpu, e) && Sized(b, cpu, e)
    ensures AllSized([b], cpu, e)
    ensures NoOverlap(a, [b], cpu, e) == NeedlesApart(a, b, cpu, e)
  {
    assert [b][0] == b;
  }

  /** A.check_overlap([B]) == B.check_overlap([A]). */
  lemma CheckOverlapSymmetric(a: Needle, b: Needle, cpu: bool, e: Elementary)
    requires Sized(a, cpu, e) && Sized(b, cpu, e)
    ensures AllSized([a], cpu, e) && AllSized([b], cpu, e)
    ensures NoOverlap(a, [b], cpu, e) == NoOverlap(b, [a], cpu, e)
  {
    NoOverlapSingleton(a, b, cpu, e);
    NoOverlapSingleton(b, a, cpu, e);
    NeedlesApartSymmetric(a, b, cpu, e);
  }

  /**
   * check_overlap as written: the non-cache branch of the outer loop reads
   * `needles[i].get_coordinate` without the call parentheses, so unpacking the bound method
   * raises TypeError on the first needle to compare with. The cache branch is unaffected.
   */
  method CheckOverlapAsWritten(a: Needle, others: seq<Needle>, cpu: bool, e: Elementary) returns (r: Result<bool>)
    requires Sized(a, cpu, e) && AllSized(others, cpu, e)
    ensures r.Err? <==> !cpu && others != []
    ensures r.Err? ==> r.error == NotIterable
    ensures r.Ok? ==> r.value == NoOverlap(a, others, cpu, e)
  {
    var c1 := ReadPoints(a, cpu, e);
    for i := 0 to |others|
      invariant cpu || i == 0
      invariant forall j :: 0 <= j < i ==> NeedlesApart(a, others[j], cpu, e)
    {
      if !cpu {
        return Err(NotIterable);
      }
      var apart := ApartFrom(a, c1, others[i], cpu, e);
      if !apart {
        return Ok(false);
      }
      ApartPrefix(a, others, i, cpu, e);
    }
    return Ok(true);
  }

  /** The discrepancy on the smallest input: one other needle without the cache raises. */
  method CheckOverlapAsWrittenRaises(a: Needle, b: Needle, e: Elementary) returns (r: Result<bool>)
    ensures r == Err(NotIterable)
  {
    CoordinateSized(a, e);
    CoordinateSized(b, e);
    r := CheckOverlapAsWritten(a, [b], false, e);
  }

  /**
   * The intended behaviour: with the caches current, reading them or recomputing the
   * coordinates gives the same verdict, so cpu_improve is a pure optimisation.
   */
  lemma OverlapModesAgree(a: Needle, others: seq<Needle>, e: Elementary)
    requires Cached(a, e) && forall j :: 0 <= j < |others| ==> Cached(others[j], e)
    ensures Sized(a, true, e) && AllSized(others, true, e)
    ensures Sized(a, false, e) && AllSized(others, false, e)
    ensures NoOverlap(a, others, true, e) == NoOverlap(a, others, false, e)
  {
    assert Points(a, true, e) == Points(a, false, e);
    forall j | 0 <= j < |others|
      ensures Points(others[j], true, e) == Points(others[j], false, e)
    {
    }
  }

  // ---------------------------------------------------------------------------------------
  // calc_dd_potential and calc_field_potential

  function Cube(x: real): real
  {
    x * x * x
  }

  function Fifth(x: real): real
  {
    x * x * x * x * x
  }

  lemma PowersNonZero(x: real)
    requires x != 0.0
    ensures Cube(x) != 0.0 && Fifth(x) != 0.0
  {
    assert x * x > 0.0;
    assert Fifth(x) == (x * x) * (x * x) * x;
  }

  /** The point-dipole pair formula factor * (m1.m2 / |r|^3 - 3 (m1.r)(m2.r) / |r|^5). */
  function DipolePair(m1: Vec3, m2: Vec3, r: Vec3, factor: real, e: Elementary): real
    requires Norm(e, r) != 0.0
  {
    var rn := Norm(e, r);
    PowersNonZero(rn);
    factor * ((Dot(m1, m2) / Cube(rn)) - 3.0 * ((Dot(m1, r) * Dot(m2, r)) / Fifth(rn)))
  }

  /** The formula is symmetric in m1, m2 and invariant under r -> -r. */
  lemma DipolePairSymmetric(m1: Vec3, m2: Vec3, r: Vec3, factor: real, e: Elementary)
    requires Norm(e, r) != 0.0
    ensures Norm(e, Neg(r)) != 0.0
    ensures DipolePair(m1, m2, r, factor, e) == DipolePair(m2, m1, Neg(r), factor, e)
  {
    NormNeg(e, r);
    DotNeg(m1, r);
    DotNeg(m2, r);
    assert Dot(m2, m1) == Dot(m1, m2);
    assert Dot(m2, Neg(r)) * Dot(m1, Neg(r)) == Dot(m1, r) * Dot(m2, r);
  }

  /** The dipole moment vector: the needle's charge along its axis. */
  function Moment(n: Needle, e: Elementary): Vec3
  {
    Polar2Cart(n, n.charge, e)
  }

  /** The centres of two needles are apart, so the single-dipole formula is defined. */
  predicate SingleDefined(a: Needle, b: Needle, e: Elementary)
  {
    Norm(e, Sub(Centre(a), Centre(b))) != 0.0
  }

  /** Single-dipole mode: each needle is one point dipole at its centre. */
  function DdSingle(a: Needle, b: Needle, factor: real, e: Elementary): real
    requires SingleDefined(a, b, e)
  {
    DipolePair(Moment(a, e), Moment(b, e), Sub(Centre(a), Centre(b)), factor, e)
  }

  /** The single-dipole potential does not depend on the order of the two needles. */
  lemma DdSingleSymmetric(a: Needle, b: Needle, factor: real, e: Elementary)
    requires SingleDefined(a, b, e)
    ensures SingleDefined(b, a, e)
    ensures DdSingle(a, b, factor, e) == DdSingle(b, a, factor, e)
  {
    SubAntisymmetric(Centre(a), Centre(b));
    DipolePairSymmetric(Moment(a, e), Moment(b, e), Sub(Centre(a), Centre(b)), factor, e);
  }

  /** No sphere of c1 coincides with a sphere of c2. */
  predicate Separable(c1: Coords, c2: Coords, e: Elementary)
    requires Aligned(c1) && Aligned(c2)
  {
    forall i, j :: 0 <= i < |c1.xs| && 0 <= j < |c2.xs| ==> Norm(e, Sub(At(c1, i), At(c2, j))) != 0.0
  }

  /** The inner loop of multi-dipole mode: sphere p1 against the first j spheres of c2. */
  function RowSum(m1: Vec3, p1: Vec3, m2: Vec3, c2: Coords, j: nat, factor: real, e: Elementary): real
    requires Aligned(c2) && j <= |c2.xs|
    requires forall k :: 0 <= k < |c2.xs| ==> Norm(e, Sub(p1, At(c2, k))) != 0.0
  {
    if j == 0 then 0.0
    else RowSum(m1, p1, m2, c2, j - 1, factor, e) + DipolePair(m1, m2, Sub(p1, At(c2, j - 1)), factor, e)
  }

  /** The outer loop of multi-dipole mode: the first i spheres of c1 against all of c2. */
  function GridSum(m1: Vec3, c1: Coords, m2: Vec3, c2: Coords, i: nat, factor: real, e: Elementary): real
    requires Aligned(c1) && Aligned(c2) && i <= |c1.xs| && Separable(c1, c2, e)
  {
    if i == 0 then 0.0
    else GridSum(m1, c1, m2, c2, i - 1, factor, e) + RowSum(m1, At(c1, i - 1), m2, c2, |c2.xs|, factor, e)
  }

  /** When calc_dd_potential is defined (no zero separation), in either mode. */
  predicate DdDefined(a: Needle, b: Needle, multi: bool, cpu: bool, e: Elementary)
  {
    if !multi then SingleDefined(a, b, e)
    else
      && Aligned(Points(a, cpu, e)) && Aligned(Points(b, cpu, e))
      && Separable(Points(a, cpu, e), Points(b, cpu, e), e)
  }

  /**
   * calc_dd_potential. Multi-dipole mode (flagged buggy in the configuration) gives every sphere
   * the whole needle moment and sums the pair formula over all sphere pairs; it is kept as written.
   */
  function DdPotential(a: Needle, b: Needle, factor: real, multi: bool, cpu: bool, e: Elementary): real
    requires DdDefined(a, b, multi, cpu, e)
  {
    if !multi then DdSingle(a, b, factor, e)
    else
      var c1, c2 := Points(a, cpu, e), Points(b, cpu, e);
      GridSum(Moment(a, e), c1, Moment(b, e), c2, |c1.xs|, factor, e)
  }

  /** calc_dd_potential, with multi-dipole mode's nested accumulation loops. */
  method CalcDdPotential(a: Needle, b: Needle, factor: real, multi: bool, cpu: bool, e: Elementary)
    returns (v: real)
    requires DdDefined(a, b, multi, cpu, e)
    ensures v == DdPotential(a, b, factor, multi, cpu, e)
  {
    if !multi {
      return DdSingle(a, b, factor, e);
    }
    var c1: Coords, c2: Coords;
    if cpu {
      c1, c2 := FromMemory(a), FromMemory(b);
    } else {
      c1 := GetCoordinate(a, e);
      c2 := GetCoordinate(b, e);
    }
    v := SumGrid(a, c1, b, c2, factor, e);
  }

  /** The outer loop of multi-dipole mode: every sphere of c1 against every sphere of c2. */
  method SumGrid(a: Needle, c1: Coords, b: Needle, c2: Coords, factor: real, e: Elementary)
    returns (sum: real)
    requires Aligned(c1) && Aligned(c2) && Separable(c1, c2, e)
    ensures sum == GridSum(Moment(a, e), c1, Moment(b, e), c2, |c1.xs|, factor, e)
  {
    sum := 0.0;
    for i := 0 to |c1.xs|
      invariant sum == GridSum(Moment(a, e), c1, Moment(b, e), c2, i, factor, e)
    {
      var m1 := Polar2Cart(a, a.charge, e);
      var p1 := Vec3(c1.xs[i], c1.ys[i], c1.zs[i]);
      assert p1 == At(c1, i);
      sum := AddRow(sum, m1, p1, b, c2, factor, e);
    }
  }

  /** The inner loop of multi-dipole mode: adds sphere p1's terms against every sphere of c2 to sum. */
  method AddRow(sum0: real, m1: Vec3, p1: Vec3, b: Needle, c2: Coords, factor: real, e: Elementary)
    returns (sum: real)
    requires Aligned(c2)
    requires forall k :: 0 <= k < |c2.xs| ==> Norm(e, Sub(p1, At(c2, k))) != 0.0
    ensures sum == sum0 + RowSum(m1, p1, Moment(b, e), c2, |c2.xs|, factor, e)
  {
    sum := sum0;
    for j := 0 to |c2.xs|
      invariant sum == sum0 + RowSum(m1, p1, Moment(b, e), c2, j, factor, e)
    {
      var m2 := Polar2Cart(b, b.charge, e);
      var p2 := Vec3(c2.xs[j], c2.ys[j], c2.zs[j]);
      assert p2 == At(c2, j);
      sum := sum + DipolePair(m1, m2, Sub(p1, p2), factor, e);
    }
  }

  /** calc_field_potential: the dot product of the needle's moment with the field. */
  function FieldPotential(n: Needle, field: Vec3, e: Elementary): (u: real)
  {
    Dot(Moment(n, e), field)
  }

  /** The field term depends on the orientation and charge only, never on the position. */
  lemma FieldPotentialIgnoresPosition(n: Needle, x: real, y: real, z: real, field: Vec3, e: Elementary)
    ensures FieldPotential(n.(posX := x, posY := y, posZ := z), field, e) == FieldPotential(n, field, e)
    ensures FieldPotential(n, field, e)
         == n.charge * e.sin(n.theta) * e.cos(n.phi) * field.x
          + n.charge * e.sin(n.theta) * e.sin(n.phi) * field.y
          + n.charge * e.cos(n.theta) * field.z
  {
  }
}
