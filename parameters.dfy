/** The run configuration (classes/Parameters.py) and the needle dimension arithmetic. */
module SimulationParameters {
  import opened Outcomes
  import opened VectorMath

  /** Every setting the core reads. Lengths and the field are reals; counts are Python ints. */
  datatype Parameters = Parameters(
    boxDimensions: Vec3,
    fieldVector: Vec3,
    charge: real,
    factor: real,
    kT: real,
    cpuImprove: bool,
    multipleDipoles: bool,
    convergenceIntervalLength: int,
    convergenceThreshold: real,
    length: real,
    width: real,
    quantity: int)

  /** The values the constructor assigns. */
  function Default(): Parameters
  {
    Parameters(
      boxDimensions := Vec3(8.5, 5.0, 3.0),
      fieldVector := Vec3(2000.0, 0.0, 0.0),
      charge := 1.0,
      factor := 1.0,
      kT := 1.0,
      cpuImprove := true,
      multipleDipoles := false,
      convergenceIntervalLength := 20,
      convergenceThreshold := 0.05,
      length := 2.0,
      width := 0.0892,
      quantity := 15)
  }

  /** Python's int(x) on a float: truncation toward zero, not floor. */
  function Trunc(x: real): (t: int)
    ensures x >= 0.0 ==> t == x.Floor
    ensures Abs(t as real) <= Abs(x) < Abs(t as real) + 1.0
    ensures t == 0 || (t > 0) == (x > 0.0)
  {
    if x >= 0.0 then x.Floor else -((-x).Floor)
  }

  /** The number of spheres on one side of the middle sphere, and their common radius. */
  datatype Dimensions = Dimensions(count: int, radius: real)

  /**
   * calculate_needle_dimensions: count = int(((length / width) - 1) / 2) and radius = width / 2.
   * The division by a zero width raises.
   */
  function CalculateNeedleDimensions(p: Parameters): (r: Result<Dimensions>)
    ensures r.Err? <==> p.width == 0.0
    ensures r.Err? ==> r.error == ZeroDivision
    ensures r.Ok? ==> r.value.radius * 2.0 == p.width
  {
    if p.width == 0.0 then Err(ZeroDivision)
    else Ok(Dimensions(Trunc(((p.length / p.width) - 1.0) / 2.0), p.width / 2.0))
  }

  /** A quotient of a positive value by a larger one lies strictly between 0 and 1. */
  lemma QuotientInUnit(x: real, w: real)
    requires 0.0 < x < w
    ensures 0.0 < x / w < 1.0
  {
    var q := x / w;
    assert q * w == x;
    assert (q - 1.0) * w == x - w;
    ProductSign(q, w);
    ProductSign(q - 1.0, w);
  }

  /** A needle shorter than its width has no side spheres: truncation of a value in (-1/2, 0) gives 0. */
  lemma ShortNeedleHasOnlyMiddleSphere(p: Parameters)
    requires 0.0 < p.length < p.width
    ensures CalculateNeedleDimensions(p).Ok?
    ensures CalculateNeedleDimensions(p).value.count == 0
  {
    QuotientInUnit(p.length, p.width);
    var v := (p.length / p.width - 1.0) / 2.0;
    assert -0.5 < v < 0.0;
    assert (-v).Floor == 0;
  }

  /** Whenever the nominal length is at least the width, the 2 * count + 1 spheres fit into it. */
  lemma ChainFitsNominalLength(p: Parameters)
    requires p.length >= p.width > 0.0
    ensures CalculateNeedleDimensions(p).Ok?
    ensures CalculateNeedleDimensions(p).value.count >= 0
    ensures (2 * CalculateNeedleDimensions(p).value.count + 1) as real * p.width <= p.length
  {
    var q := p.length / p.width;
    assert q * p.width == p.length;
    assert (q - 1.0) * p.width == p.length - p.width;
    ProductSign(q - 1.0, p.width);
    assert q >= 1.0;
    var v := (q - 1.0) / 2.0;
    var c := Trunc(v);
    assert c == v.Floor;
    assert (c as real) <= v;
    var k := (2 * c + 1) as real;
    assert k <= q;
    assert (q - k) * p.width == p.length - k * p.width;
    ProductSign(q - k, p.width);
  }

  /** A positive width and a non-negative length give a chain of at least the middle sphere. */
  lemma DimensionsNonNegative(p: Parameters)
    requires p.width > 0.0 && p.length >= 0.0
    ensures CalculateNeedleDimensions(p).Ok?
    ensures CalculateNeedleDimensions(p).value.count >= 0
    ensures CalculateNeedleDimensions(p).value.radius > 0.0
  {
    var q := p.length / p.width;
    assert q * p.width == p.length;
    ProductSign(q, p.width);
    var v := (q - 1.0) / 2.0;
    assert v >= -0.5;
    if v < 0.0 {
      assert (-v).Floor == 0;
    }
  }

  /** For the default configuration: 10 spheres on each side, radius 0.0446. */
  lemma DefaultDimensions()
    ensures CalculateNeedleDimensions(Default()) == Ok(Dimensions(10, 0.0446))
  {
    var p := Default();
    var q := p.length / p.width;
    assert q * 0.0892 == 2.0;
    assert 22.0 < q < 23.0;
    var v := (q - 1.0) / 2.0;
    assert 10.0 <= v < 11.0;
    assert v.Floor == 10;
  }
}
