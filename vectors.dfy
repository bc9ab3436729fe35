/**
 * Three-vectors over the reals and the elementary functions the engine calls through
 * math and numpy. Floating point is not modelled: coordinates and energies are reals, and
 * sin, cos, sqrt and exp are parameters of the model, constrained only where a lemma needs it.
 */
module VectorMath {

  datatype Vec3 = Vec3(x: real, y: real, z: real)

  function Add(a: Vec3, b: Vec3): (s: Vec3)
  {
    Vec3(a.x + b.x, a.y + b.y, a.z + b.z)
  }

  function Sub(a: Vec3, b: Vec3): (d: Vec3)
  {
    Vec3(a.x - b.x, a.y - b.y, a.z - b.z)
  }

  function Neg(a: Vec3): (n: Vec3)
  {
    Vec3(-a.x, -a.y, -a.z)
  }

  function Scale(k: real, a: Vec3): (s: Vec3)
  {
    Vec3(k * a.x, k * a.y, k * a.z)
  }

  /** np.dot of two 3-element arrays. */
  function Dot(a: Vec3, b: Vec3): (d: real)
  {
    a.x * b.x + a.y * b.y + a.z * b.z
  }

  /**
   * math.sin, math.cos, math.sqrt (behind np.linalg.norm and statistics.stdev) and np.exp,
   * taken as given functions on the reals.
   */
  datatype Elementary = Elementary(sin: real -> real, cos: real -> real, sqrt: real -> real, exp: real -> real)

  /** exp(0) = 1, exp is positive and monotone: what the acceptance rule relies on. */
  ghost predicate LawfulExp(e: Elementary)
  {
    && e.exp(0.0) == 1.0
    && (forall x :: e.exp(x) > 0.0)
    && (forall x, y :: x <= y ==> e.exp(x) <= e.exp(y))
  }

  /** np.linalg.norm of a 3-vector: sqrt of the sum of squares. */
  function Norm(e: Elementary, v: Vec3): (r: real)
  {
    e.sqrt(Dot(v, v))
  }

  /** The sign of a product with a positive factor is the sign of the other factor. */
  lemma ProductSign(a: real, b: real)
    requires b > 0.0
    ensures a < 0.0 ==> a * b < 0.0
    ensures a <= 0.0 ==> a * b <= 0.0
    ensures a > 0.0 ==> a * b > 0.0
    ensures a >= 0.0 ==> a * b >= 0.0
  {
    assert (-a) * b == -(a * b);
  }

  lemma SubAntisymmetric(a: Vec3, b: Vec3)
    ensures Sub(b, a) == Neg(Sub(a, b))
  {
  }

  lemma DotNeg(a: Vec3, b: Vec3)
    ensures Dot(a, Neg(b)) == -Dot(a, b)
    ensures Dot(Neg(a), Neg(b)) == Dot(a, b)
  {
  }

  /** The norm, hence every distance the engine computes, is symmetric. */
  lemma NormNeg(e: Elementary, v: Vec3)
    ensures Norm(e, Neg(v)) == Norm(e, v)
  {
    DotNeg(v, v);
  }

  lemma DistanceSymmetric(e: Elementary, a: Vec3, b: Vec3)
    ensures Norm(e, Sub(a, b)) == Norm(e, Sub(b, a))
  {
    SubAntisymmetric(a, b);
    NormNeg(e, Sub(a, b));
  }
}
