/**
 * The run-state record (classes/GlobalValues.py): the current energies, the convergence
 * interval counter, the statistics of the last completed interval and the history arrays.
 */
module RunState {
  import opened Outcomes
  import opened VectorMath

  // ---------------------------------------------------------------------------------------
  // get_ci: the trailing window, with Python's slice semantics for s[-L:]

  /**
   * s[-L:]: for L >= 1 the last min(L, |s|) entries; for L == 0 the whole list (-0 == 0);
   * for L < 0 the list without its first -L entries.
   */
  function Window(s: seq<real>, L: int): (w: seq<real>)
    ensures |w| <= |s| && w == s[|s| - |w|..]
    ensures L >= 1 ==> |w| == if L < |s| then L else |s|
    ensures L == 0 ==> w == s
    ensures L < 0 ==> |w| == if -L < |s| then |s| + L else 0
  {
    var start := if L > 0 then (if L < |s| then |s| - L else 0) else (if -L < |s| then -L else |s|);
    s[start..]
  }

  /** A window over a list extended at its end: the newest entry is always the last one seen. */
  lemma WindowSeesNewest(s: seq<real>, x: real, L: int)
    requires L >= 1
    ensures Window(s + [x], L) != [] && Window(s + [x], L)[|Window(s + [x], L)| - 1] == x
  {
    var w := Window(s + [x], L);
    assert w == (s + [x])[|s| + 1 - |w|..];
  }

  // ---------------------------------------------------------------------------------------
  // statistics.mean and statistics.stdev (exact arithmetic on the reals)

  function Sum(s: seq<real>): real
  {
    if s == [] then 0.0 else s[0] + Sum(s[1..])
  }

  function Mean(s: seq<real>): real
    requires |s| > 0
  {
    Sum(s) / |s| as real
  }

  /** The sum of squared deviations from m. */
  function SquaredDeviations(s: seq<real>, m: real): real
  {
    if s == [] then 0.0 else (s[0] - m) * (s[0] - m) + SquaredDeviations(s[1..], m)
  }

  /** statistics.stdev: the sample standard deviation, defined for two or more values. */
  function SampleStdev(s: seq<real>, e: Elementary): real
    requires |s| >= 2
  {
    e.sqrt(SquaredDeviations(s, Mean(s)) / (|s| - 1) as real)
  }

  /**
   * abs(ci_stddev / ci_mean) where ci_mean is a numpy float: a zero mean gives +inf for a
   * non-zero deviation and NaN for a zero one, without raising.
   */
  function NormalisedStddev(sd: real, mean: real): (f: Float)
    ensures f.Num? <==> mean != 0.0
    ensures f.Num? ==> f.value >= 0.0 && (f.value * Abs(mean) == Abs(sd))
    ensures f == NaN <==> mean == 0.0 && sd == 0.0
  {
    if mean != 0.0 then Num(Abs(sd / mean)) else if sd == 0.0 then NaN else Inf
  }

  lemma {:induction false} SumBounds(s: seq<real>, lo: real, hi: real)
    requires forall i :: 0 <= i < |s| ==> lo <= s[i] <= hi
    ensures |s| as real * lo <= Sum(s) <= |s| as real * hi
  {
    if s != [] {
      SumBounds(s[1..], lo, hi);
    }
  }

  /** The mean lies between the smallest and the largest value. */
  lemma MeanBounds(s: seq<real>, lo: real, hi: real)
    requires |s| > 0
    requires forall i :: 0 <= i < |s| ==> lo <= s[i] <= hi
    ensures lo <= Mean(s) <= hi
  {
    SumBounds(s, lo, hi);
    QuotientBetween(Sum(s), |s| as real, lo, hi);
  }

  lemma QuotientBetween(x: real, n: real, lo: real, hi: real)
    requires n > 0.0 && n * lo <= x <= n * hi
    ensures lo <= x / n <= hi
  {
    var q := x / n;
    assert q * n == x;
    assert (q - lo) * n == x - n * lo;
    assert (hi - q) * n == n * hi - x;
    ProductSign(q - lo, n);
    ProductSign(hi - q, n);
  }

  lemma {:induction false} SquaredDeviationsNonNegative(s: seq<real>, m: real)
    ensures SquaredDeviations(s, m) >= 0.0
  {
    if s != [] {
      SquaredDeviationsNonNegative(s[1..], m);
      var d := s[0] - m;
      assert d * d >= 0.0 by {
        if d < 0.0 {
          assert d * d == (-d) * (-d);
        }
      }
    }
  }

  lemma {:induction false} SumConstant(s: seq<real>, c: real)
    requires forall i :: 0 <= i < |s| ==> s[i] == c
    ensures Sum(s) == |s| as real * c
  {
    if s != [] {
      SumConstant(s[1..], c);
    }
  }

  lemma {:induction false} SquaredDeviationsConstant(s: seq<real>, c: real)
    requires forall i :: 0 <= i < |s| ==> s[i] == c
    ensures SquaredDeviations(s, c) == 0.0
  {
    if s != [] {
      SquaredDeviationsConstant(s[1..], c);
    }
  }

  /**
   * A window of identical values has that value as its mean and zero deviation, so the
   * normalised deviation is 0 for a non-zero value and NaN for zero (0 / 0).
   */
  lemma ConstantWindowStatistics(s: seq<real>, c: real, e: Elementary)
    requires |s| >= 2
    requires forall i :: 0 <= i < |s| ==> s[i] == c
    requires e.sqrt(0.0) == 0.0
    ensures Mean(s) == c
    ensures SampleStdev(s, e) == 0.0
    ensures NormalisedStddev(SampleStdev(s, e), Mean(s)) == if c != 0.0 then Num(0.0) else NaN
  {
    SumConstant(s, c);
    assert Mean(s) * |s| as real == c * |s| as real;
    SquaredDeviationsConstant(s, c);
  }

  /** Five equal energies of 10: the run counts as converged for every non-negative threshold. */
  lemma ConstantTenConverges(threshold: real, e: Elementary)
    requires threshold >= 0.0 && e.sqrt(0.0) == 0.0
    ensures var w := [10.0, 10.0, 10.0, 10.0, 10.0];
      AtMost(NormalisedStddev(SampleStdev(w, e), Mean(w)), threshold)
  {
    ConstantWindowStatistics([10.0, 10.0, 10.0, 10.0, 10.0], 10.0, e);
  }

  // ---------------------------------------------------------------------------------------
  // GlobalValues

  class GlobalValues {
    const ciLength: int
    var eTot: Float
    var eDD: real
    var eF: real
    var ciStep: nat
    var ciStddev: real
    var ciMean: real
    var ciStddevNorm: Float
    var totalEnergyArray: seq<real>
    var ddEnergyArray: seq<real>
    var fieldEnergyArray: seq<real>
    var convergenceInterval: seq<real>
    var meanMagneticPotential: seq<real>
    var stepsArray: seq<int>

    /** The energy histories and the accepted steps run in parallel. */
    ghost predicate Parallel()
      reads this`totalEnergyArray, this`ddEnergyArray, this`fieldEnergyArray, this`stepsArray
    {
      |totalEnergyArray| == |ddEnergyArray| == |fieldEnergyArray| == |stepsArray|
    }

    /** A fresh record: infinite total energy, zero counters and statistics, empty histories. */
    constructor (ciLength: int)
      ensures this.ciLength == ciLength
      ensures eTot == Inf && eDD == 0.0 && eF == 0.0
      ensures ciStep == 0 && ciStddev == 0.0 && ciMean == 0.0 && ciStddevNorm == Num(0.0)
      ensures totalEnergyArray == [] && ddEnergyArray == [] && fieldEnergyArray == []
      ensures convergenceInterval == [] && meanMagneticPotential == [] && stepsArray == []
      ensures Parallel()
    {
      this.ciLength := ciLength;
      eTot := Inf;
      eDD, eF := 0.0, 0.0;
      ciStep := 0;
      ciStddev, ciMean := 0.0, 0.0;
      ciStddevNorm := Num(0.0);
      totalEnergyArray, ddEnergyArray, fieldEnergyArray := [], [], [];
      convergenceInterval, meanMagneticPotential := [], [];
      stepsArray := [];
    }

    /** append_mean_magnetic_potential_x: one more mean moment at the end of the list. */
    method AppendMeanMagneticPotentialX(x: real)
      modifies this`meanMagneticPotential
      ensures meanMagneticPotential == old(meanMagneticPotential) + [x]
    {
      meanMagneticPotential := meanMagneticPotential + [x];
    }

    /** Records the current total, dipole-dipole and field energies, one entry each. */
    method AppendEnergies()
      requires eTot.Num?
      modifies this`totalEnergyArray, this`ddEnergyArray, this`fieldEnergyArray
      ensures totalEnergyArray == old(totalEnergyArray) + [eTot.value]
      ensures ddEnergyArray == old(ddEnergyArray) + [eDD]
      ensures fieldEnergyArray == old(fieldEnergyArray) + [eF]
    {
      totalEnergyArray := totalEnergyArray + [eTot.value];
      ddEnergyArray := ddEnergyArray + [eDD];
      fieldEnergyArray := fieldEnergyArray + [eF];
    }

    method AddStep(i: int)
      modifies this`stepsArray
      ensures stepsArray == old(stepsArray) + [i]
    {
      stepsArray := stepsArray + [i];
    }

    method AddCiStep()
      modifies this`ciStep
      ensures ciStep == old(ciStep) + 1
    {
      ciStep := ciStep + 1;
    }

    method SetCiStepToZero()
      modifies this`ciStep
      ensures ciStep == 0
    {
      ciStep := 0;
    }

    /** get_ci: the trailing convergence window of the total energy history. */
    function GetCi(): seq<real>
      reads this`totalEnergyArray
    {
      Window(totalEnergyArray, ciLength)
    }

    /**
     * calculate_ci_parameters: statistics.stdev raises on fewer than two values before any
     * field is assigned; otherwise the deviation, the mean and their normalised ratio are set.
     */
    method CalculateCiParameters(e: Elementary) returns (r: Outcome)
      modifies this`ciStddev, this`ciMean, this`ciStddevNorm
      ensures r.Fail? <==> |GetCi()| < 2
      ensures r.Fail? ==> r.error == TooFewDataPoints
      ensures r.Fail? ==> ciStddev == old(ciStddev) && ciMean == old(ciMean) && ciStddevNorm == old(ciStddevNorm)
      ensures r.Pass? ==>
        && ciStddev == SampleStdev(GetCi(), e)
        && ciMean == Mean(GetCi())
        && ciStddevNorm == NormalisedStddev(ciStddev, ciMean)
    {
      var w := GetCi();
      if |w| < 2 {
        return Fail(TooFewDataPoints);
      }
      ciStddev := SampleStdev(w, e);
      ciMean := Mean(w);
      ciStddevNorm := NormalisedStddev(ciStddev, ciMean);
      return Pass;
    }
  }
}
