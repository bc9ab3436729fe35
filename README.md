# MN_Simulator core in Dafny

A model of the Metropolis Monte Carlo simulator of magnetic needles. A needle is a chain of
`2·length + 1` touching hard spheres. The middle sphere sits at the needle's position and the
others are stepped along the needle's orientation `(theta, phi)`. Each needle carries a dipole
moment `charge · orientation`.

- **Placement.** The ensemble is built by rejection sampling. A candidate centre is drawn
  uniformly inside the box shrunk by a margin, with random angles. It is accepted when no
  sphere of it touches a sphere of an already placed needle.
- **Energy.** The total energy is the dipole-dipole potential summed over unordered pairs of
  needles, plus each needle's potential in the external field.
- **Steps.** One Monte Carlo step pops a random needle and proposes new angles at the same
  position. The old needle is put back when the proposal overlaps. Otherwise the Metropolis
  rule decides on the new energy; it accepts a lower energy outright and otherwise compares
  `exp((E_tot − E_new)/kT)` to a uniform fraction.
- **Records.** Accepted steps append to the energy histories and the step list. Every step
  appends the mean x-moment.
- **Convergence.** Every `convergence_interval_length` steps the run tests stddev/mean over
  the trailing window of the total-energy history. It stops when the ratio is at most the
  threshold.

Modules, one per source class:

| module | file | models |
|---|---|---|
| `Outcomes` | outcomes.dfy | the Python exceptions that matter (`Failure`), `Result`, and numpy's `inf`/`NaN` (`Float`) |
| `VectorMath` | vectors.dfy | 3-vectors and `Elementary`, the `sin`, `cos`, `sqrt` and `exp` the code calls, passed in as a value |
| `SimulationParameters` | parameters.dfy | `Parameters`, its defaults and `calculate_needle_dimensions` |
| `NeedleGeometry` | needle.dfy | `Needle` as a value, sphere coordinates, the coordinate cache, `check_overlap`, the dipole-dipole and field potentials |
| `RunState` | globals.dfy | the `GlobalValues` class and the window statistics |
| `NeedleEnsemble` | ensemble.dfy | the `Needles` class, placement, the total energy and the ensemble getters |
| `MonteCarlo` | simulation.dfy | the acceptance rule, the step specification and the `Simulation` class |

Randomness is an input:

- a `PlacementDraw` holds the three fractions behind `random.uniform` plus the two angles of
  one placement attempt;
- a `StepDraw` holds `randint`'s index, the new angles and `random.random()`'s fraction.

The code's `while True` loops consume one draw per iteration and stop when the draws run out.

A zero mean of the convergence window does not raise in the code: `ci_stddev / ci_mean`
divides numpy floats and yields `inf` or `NaN`, and the comparison with the threshold is then
false (`RunState.NormalisedStddev`). The placement loop of `Needles.__init__` has no retry
bound; the model retries until the draws end.

## Model

| member | source | states |
|---|---|---|
| `SimulationParameters.Trunc` | classes/Parameters.py:38 | `int()` truncates toward zero: the result is the floor for non-negative input, within 1 of the input in magnitude, and of the input's sign |
| `SimulationParameters.CalculateNeedleDimensions` | classes/Parameters.py:29-39 | fails with ZeroDivisionError exactly when the width is 0; otherwise the sphere radius is half the width |
| `SimulationParameters.ShortNeedleHasOnlyMiddleSphere` | classes/Parameters.py:38 | a needle shorter than its width has no side spheres (count 0) |
| `SimulationParameters.ChainFitsNominalLength` | classes/Parameters.py:38-39 | for length ≥ width the chain of `2·count + 1` spheres of the given width fits within the nominal length |
| `SimulationParameters.DimensionsNonNegative` | classes/Parameters.py:38-39 | a positive width and non-negative length give a non-negative count and a positive radius |
| `SimulationParameters.DefaultDimensions` | classes/Parameters.py:25-39 | the default length 2 and width 0.0892 give 10 side spheres of radius 0.0446 |
| `VectorMath.DistanceSymmetric` | classes/Needle.py:67 | the distance between two sphere centres does not depend on their order |
| `NeedleGeometry.Polar2CartLinear` | classes/Needle.py:176-192 | `polar2cart` is linear in its length argument |
| `NeedleGeometry.Polar2CartOdd` | classes/Needle.py:176-192 | `polar2cart(-r)` is the opposite vector of `polar2cart(r)` |
| `NeedleGeometry.SideStep` | classes/Needle.py:163-172 | side step i puts the sphere at `+2·r·i` along the orientation at position `2i−1` and the one at `−2·r·i` at position `2i` |
| `NeedleGeometry.GetCoordinate` | classes/Needle.py:143-174 | the loop builds exactly the coordinate lists of the specification function `Coordinate` |
| `NeedleGeometry.CoordinateShape` | classes/Needle.py:143-174 | `2·length + 1` entries in each list, the middle sphere first, then the pair of side spheres of every step in order |
| `NeedleGeometry.SideSpheresMirror` | classes/Needle.py:163-172 | the two spheres of each side step are mirror images of each other through the middle sphere |
| `NeedleGeometry.WithCache` | classes/Needles.py:36-40 | filling the cache makes it current and changes no other field |
| `NeedleGeometry.CoordinateIgnoresCache` | classes/Needle.py:143-174 | the computed coordinates do not depend on the cache fields |
| `NeedleGeometry.CoordinateSized` | classes/Needle.py:53 | the computed lists always have the `2·length + 1` entries the overlap loops index, and so does a current cache |
| `NeedleGeometry.ScanSpheres` | classes/Needle.py:63-69 | the two nested loops return false exactly when some sphere pair has distance ≤ r1 + r2; the loop ranges follow `range(0, 2·length + 1)` |
| `NeedleGeometry.ReadPoints` | classes/Needle.py:46-49 | the coordinates come from the cache in cpu_improve mode and are computed otherwise |
| `NeedleGeometry.ApartFrom` | classes/Needle.py:57-69 | one needle of the outer loop: true exactly when no sphere of the two needles touches |
| `NeedleGeometry.CheckOverlap` | classes/Needle.py:36-71 | corrected `check_overlap`: true exactly when the needle is apart from every needle in the list; true for an empty list |
| `NeedleGeometry.NeedlesApartSymmetric` | classes/Needle.py:63-69 | whether two needles touch does not depend on which of them is the new one |
| `NeedleGeometry.NoOverlapSingleton` | classes/Needle.py:55-71 | checking against a one-needle list is checking that pair |
| `NeedleGeometry.CheckOverlapSymmetric` | classes/Needle.py:36-71 | `a.check_overlap([b])` equals `b.check_overlap([a])` |
| `NeedleGeometry.CheckOverlapAsWritten` | classes/Needle.py:36-71 | the loop as written: it raises TypeError exactly when cpu_improve is off and the list is non-empty; every other call returns the corrected verdict |
| `NeedleGeometry.CheckOverlapAsWrittenRaises` | classes/Needle.py:60 | one other needle with cpu_improve off: the as-written loop raises TypeError when it unpacks the bound method |
| `NeedleGeometry.OverlapModesAgree` | classes/Needle.py:46-61 | with every cache current, cpu_improve on and off give the same verdict |
| `NeedleGeometry.DipolePairSymmetric` | classes/Needle.py:96-99 | the dipole-dipole formula is unchanged when the two dipoles swap and the separation is reversed |
| `NeedleGeometry.DdSingleSymmetric` | classes/Needle.py:85-99 | the single-dipole potential of two needles is symmetric in the two needles |
| `NeedleGeometry.CalcDdPotential` | classes/Needle.py:73-127 | `calc_dd_potential` returns the specification `DdPotential`: the one-dipole formula, or in multi-dipole mode the sum over all sphere pairs |
| `NeedleGeometry.SumGrid` | classes/Needle.py:101-127 | the double loop over sphere pairs sums the pair formula over the whole grid of the two coordinate lists |
| `NeedleGeometry.AddRow` | classes/Needle.py:116-125 | one run of the inner loop adds the pair formula for every sphere of the other needle |
| `NeedleGeometry.FieldPotentialIgnoresPosition` | classes/Needle.py:129-141 | the field potential is `charge·orientation · field` and does not depend on the position |
| `RunState.Window` | classes/GlobalValues.py:120-127 | `s[-L:]` with Python slice semantics: the last min(L, len) entries for L ≥ 1, everything for L = 0, all but the first −L for L < 0 |
| `RunState.WindowSeesNewest` | classes/GlobalValues.py:127 | after an append, the window ends with the new value |
| `RunState.NormalisedStddev` | classes/GlobalValues.py:104 | a number exactly when the mean is non-zero, then the non-negative ratio \|sd\|/\|mean\|; NaN exactly for 0/0, inf otherwise |
| `RunState.MeanBounds` | classes/GlobalValues.py:103 | the mean lies between any lower and upper bound of the values |
| `RunState.SquaredDeviationsNonNegative` | classes/GlobalValues.py:102 | the sum of squared deviations behind `stdev` is non-negative |
| `RunState.ConstantWindowStatistics` | classes/GlobalValues.py:102-104 | a constant window has that constant as mean, zero deviation, and normalised deviation 0, or NaN for the constant 0 |
| `RunState.ConstantTenConverges` | classes/GlobalValues.py:102-104 | five energies of 10 pass the convergence test for every non-negative threshold |
| `RunState.GlobalValues.constructor` | classes/GlobalValues.py:8-51 | E_tot starts at inf, counters and statistics at 0, every history empty |
| `RunState.GlobalValues.AppendMeanMagneticPotentialX` | classes/GlobalValues.py:53-60 | appends the value to the mean-moment history and changes nothing else |
| `RunState.GlobalValues.AppendEnergies` | classes/GlobalValues.py:62-72 | appends E_tot, E_DD and E_F to their three histories |
| `RunState.GlobalValues.AddStep` | classes/GlobalValues.py:74-81 | appends the step number to the step list |
| `RunState.GlobalValues.AddCiStep` | classes/GlobalValues.py:83-88 | the interval counter goes up by one |
| `RunState.GlobalValues.SetCiStepToZero` | classes/GlobalValues.py:90-95 | the interval counter is reset to 0 |
| `RunState.GlobalValues.CalculateCiParameters` | classes/GlobalValues.py:97-104 | raises exactly when the window has fewer than two values, leaving the statistics untouched; otherwise sets sample stdev, mean and normalised deviation of the window |
| `NeedleEnsemble.ShapedPoints` | classes/Needle.py:53 | a well-shaped needle's coordinate lists have `2·length + 1 ≥ 1` entries, starting at the centre |
| `NeedleEnsemble.Removed` | classes/Simulation.py:87 | `list.pop(k)`: one shorter, the entries before k unchanged, the later ones shifted down by one |
| `NeedleEnsemble.RemovedMultiset` | classes/Simulation.py:87 | popping loses exactly the popped element |
| `NeedleEnsemble.SeparatedAppend` | classes/Needles.py:42-43 | appending a needle that passes `check_overlap` keeps every pair of needles apart |
| `NeedleEnsemble.SeparatedRemove` | classes/Simulation.py:87 | popping a needle keeps the rest separated, and the popped needle is apart from all of them |
| `NeedleEnsemble.SeparatedRestore` | classes/Simulation.py:107 | popping a needle and appending it again keeps the ensemble separated |
| `NeedleEnsemble.AllShapedRemove` | classes/Simulation.py:87 | popping keeps every remaining needle well-shaped |
| `NeedleEnsemble.UniformBetween` | classes/Needles.py:27-29 | `random.uniform(a, b)` lands between a and b, in either order of the ends |
| `NeedleEnsemble.CandidateAdmissible` | classes/Needles.py:27-40 | every candidate has the configured radius, length and charge, a centre inside the shrunk box, and a current cache in cpu_improve mode |
| `NeedleEnsemble.Attempt` | classes/Needles.py:42-44 | one attempt appends at most one needle and keeps the needles placed so far as a prefix |
| `NeedleEnsemble.AttemptSeparated` | classes/Needles.py:42-44 | an attempt keeps the ensemble separated |
| `NeedleEnsemble.AttemptAdmissible` | classes/Needles.py:27-44 | an attempt keeps every needle admissible |
| `NeedleEnsemble.Place` | classes/Needles.py:24-44 | placement only appends, never beyond `quantity`, and fills the ensemble unless the draws run out |
| `NeedleEnsemble.PlaceAdvance` | classes/Needles.py:26-44 | while the ensemble is not full, one draw is one attempt and the loop goes on with the next draw |
| `NeedleEnsemble.PlaceSeparated` | classes/Needles.py:24-44 | the placed ensemble is pairwise non-overlapping |
| `NeedleEnsemble.PlaceAdmissible` | classes/Needles.py:24-44 | every placed needle is admissible: configured geometry, in the box, cached |
| `NeedleEnsemble.AdmissibleShaped` | classes/Needles.py:34-40 | admissible needles with non-negative dimensions are well-shaped |
| `NeedleEnsemble.SeparatedEvaluable` | classes/Needle.py:96-97 | in a separated, well-shaped ensemble no pair of evaluated points coincides, so every potential is defined |
| `NeedleEnsemble.SmallEnsembleEnergy` | classes/Needles.py:88-101 | with at most one needle there is no pair: E_DD is 0 and the total energy is the field term |
| `NeedleEnsemble.MakeCandidate` | classes/Needles.py:27-40 | builds the specification candidate for the draw, with its cache in cpu_improve mode |
| `NeedleEnsemble.TryCandidate` | classes/Needles.py:27-44 | one attempt of the retry loop: true exactly when the candidate was appended, the list unchanged otherwise |
| `NeedleEnsemble.PlaceOne` | classes/Needles.py:26-44 | the `while True` loop for one needle: appends exactly one needle or exhausts the draws, and agrees with `Place` from that point on |
| `NeedleEnsemble.Needles.constructor` | classes/Needles.py:10-44 | the needles are the ones `Place` yields for the draws, and they are pairwise non-overlapping |
| `NeedleEnsemble.Needles.Get` | classes/Needles.py:46-53 | returns the ensemble list |
| `NeedleEnsemble.Needles.GetById` | classes/Needles.py:55-64 | Python indexing: negative indices count from the end, and outside `[-len, len)` raises IndexError |
| `NeedleEnsemble.Needles.Append` | classes/Needles.py:66-73 | the needle goes at the end of the list |
| `NeedleEnsemble.Needles.PopAt` | classes/Simulation.py:87 | `get().pop(k)`: returns entry k and leaves the list without it |
| `NeedleEnsemble.Needles.CalcTotalEnergy` | classes/Needles.py:75-101 | writes E_DD, the pair sum over i < j, and E_F, the field sum, and returns their sum |
| `NeedleEnsemble.SumEnergies` | classes/Needles.py:88-97 | the nested loops compute the specification pair sum over i < j and the field sum |
| `NeedleEnsemble.AddRowDd` | classes/Needles.py:92-96 | the inner loop adds the potentials between needle i and every later needle |
| `NeedleEnsemble.Needles.GetMeanMagneticPotential` | classes/Needles.py:103-116 | the mean of the moments' x components; an empty ensemble raises ZeroDivisionError |
| `NeedleEnsemble.Needles.GetCoordinates` | classes/Needles.py:118-137 | one entry per needle, in order, each that needle's computed coordinates |
| `NeedleEnsemble.Needles.GetCoordinatesFromMemory` | classes/Needles.py:139-154 | one entry per needle, each its cache; these equal the computed coordinates when the caches are current |
| `MonteCarlo.EqualEnergyAccepted` | classes/Simulation.py:119-124 | an unchanged energy is always accepted for `u < 1` and non-zero kT |
| `MonteCarlo.ZeroTemperature` | classes/Simulation.py:115-124 | at kT = 0 (numpy division) a lower energy is accepted, an equal one rejected, and a higher one only for u = 0 |
| `MonteCarlo.UphillAcceptance` | classes/Simulation.py:119-124 | for kT > 0 an uphill move is accepted exactly when `u ≤ exp(−ΔE/kT)`, and that bound is at most 1 |
| `MonteCarlo.HotterAcceptsMore` | classes/Simulation.py:115-124 | whatever is accepted at a temperature is accepted at every higher one |
| `MonteCarlo.ProposalShaped` | classes/Simulation.py:89-104 | a proposal built from a needle of non-negative radius and length is well-shaped (current cache in cpu_improve mode) and has the coordinate lists the overlap loops index |
| `MonteCarlo.ProposalAdmitted` | classes/Simulation.py:106-113 | a proposal that passes `check_overlap` leaves a separated, well-shaped ensemble whose energy is defined |
| `MonteCarlo.StepAdmitted` | classes/Simulation.py:81-128 | every step keeps the ensemble separated and well-shaped and keeps its size |
| `MonteCarlo.StepRejectedRestores` | classes/Simulation.py:106-108 | a rejected step leaves the same needles (the old one moved to the end) and the same E_tot |
| `MonteCarlo.StepAcceptedMoves` | classes/Simulation.py:110-124 | an accepted step replaces the popped needle by the proposal at the end and sets E_tot to the new ensemble's energy |
| `MonteCarlo.StepEnergyTerms` | classes/Simulation.py:106-128 | E_DD and E_F are those of the last evaluated ensemble: kept on overlap, the proposal's after an evaluation, even when rejected |
| `MonteCarlo.DownhillAccepted` | classes/Simulation.py:115-117 | a fitting proposal with lower energy is always accepted |
| `MonteCarlo.MakeProposal` | classes/Simulation.py:89-104 | builds the specification proposal: same position, radius, length and charge, new angles, cached in cpu_improve mode |
| `MonteCarlo.IncreasingOrdered` | classes/Simulation.py:47 | in the recorded steps every earlier entry is smaller than every later one |
| `MonteCarlo.IncreasingConcat` | classes/Simulation.py:47 | two increasing step lists joined in order are increasing |
| `MonteCarlo.ProgressedTrans` | classes/Simulation.py:42-76 | the progress of iterations from..mid followed by that of mid..to is the progress of from..to |
| `MonteCarlo.Next` | classes/Simulation.py:44-54 | one iteration of the loop, `next_step` with its records and the mean moment, keeps the ensemble separated, well-shaped and of the same size |
| `MonteCarlo.NextProgressed` | classes/Simulation.py:44-54 | one iteration appends one mean moment, and for an accepted step one energy triple and step i+1; a rejected step leaves E_tot and the energy histories as they were |
| `MonteCarlo.Run` | classes/Simulation.py:42-76 | the fold of iterations 1..n over the step draws keeps the ensemble separated and well-shaped, and its histories only grow: one mean moment per iteration, recorded step numbers within 1..n and strictly increasing, E_tot the newest total energy |
| `MonteCarlo.WindowsCount` | classes/Simulation.py:56-74 | the fold looks at one window per iteration at which the counter reaches the interval length: `TestsRun` of them |
| `MonteCarlo.LastTestedIsLastWindow` | classes/Simulation.py:56-74 | the window of the fold's last test is the last of its `Windows`, and there is none exactly when no test ran |
| `MonteCarlo.TestCadence` | classes/Simulation.py:53-74 | from a counter inside the interval, n iterations that do not stop run one test every `convergence_interval_length` iterations, and the counter holds the remainder |
| `MonteCarlo.PlacedAdmitted` | classes/Simulation.py:23-26 | the initial placement is separated and well-shaped, so its total energy is defined |
| `MonteCarlo.Simulation.constructor` | classes/Simulation.py:13-26 | places the needles, sets E_DD and E_F from them and E_tot to their sum |
| `MonteCarlo.Simulation.NextStep` | classes/Simulation.py:81-128 | an empty ensemble raises ValueError in `randint`; otherwise the return value, ensemble, E_tot, E_DD and E_F are those of the step specification |
| `MonteCarlo.Simulation.Decide` | classes/Simulation.py:112-128 | the energy and the Metropolis rule: keep the proposal and the new E_tot, or put the old needle back |
| `MonteCarlo.Simulation.CountIteration` | classes/Simulation.py:53-56 | the counter goes up by one, the mean moment is recorded, and the test is due exactly when the counter reaches the interval length |
| `MonteCarlo.Simulation.StepAndRecord` | classes/Simulation.py:44-47 | the verdict, ensemble and energies are those of the step specification `Step` for the old state and the draw; the energy triple and step i+1 are appended exactly when it accepted |
| `MonteCarlo.Simulation.CloseIteration` | classes/Simulation.py:52-74 | records the mean moment. It stops only when a test is due: converged exactly when the test passed, raising only for a window under two values. When it goes on, the counter went up by one, or a test was due, failed on a window of two or more values, and the counter was reset to 0. Before a full interval, and when the test raises, the window statistics keep their values |
| `MonteCarlo.Simulation.ConvergenceTest` | classes/Simulation.py:56-74 | on a full interval: raises when the window has under two values, stops converged when the normalised deviation is within the threshold, and otherwise resets the counter to 0 after a failed test; when it raises, the deviation, the mean and the normalised deviation keep their values |
| `MonteCarlo.Simulation.Iteration` | classes/Simulation.py:42-76 | one loop iteration: raises on an empty ensemble without touching the records or the counter, else the ensemble, energies and histories become `Next` of the old ones. It stops converged only on a passing test, and when it goes on, a due test failed and the counter follows `NextCounter`; the statistics change only at a due test that does not raise |
| `MonteCarlo.Simulation.Advance` | classes/Simulation.py:42-76 | iteration i of the loop: the state moves from the fold over i draws to the fold over i + 1, and a test that ran and did not end the run adds its window, the fold's next window, to the failed ones. Unless it converged, the statistics are those the fold's last test left (`LastTested`) |
| `MonteCarlo.Simulation.Iterate` | classes/Simulation.py:42-76 | the loop on a non-empty ensemble: after n iterations the state is the fold `Run` of the first n draws; it stops converged only on a passing test, at step n; every test that ran before the end failed, on exactly the windows of the fold; when the run ends without converging, the deviation statistics are those of the last failed test, or the starting ones if none failed |
| `MonteCarlo.Simulation.Simulate` | classes/Simulation.py:28-79 | the ensemble, energies and histories after n iterations are the fold `Run` of the first n step draws (so the histories grow as `Run` says). It stops converged only on a passing test at a full interval, and raises only on an empty ensemble or a window under two values. Every test that did not end the run failed on the fold's window. When the draws run out, the tests that ran are exactly the `TestsRun` due ones and the counter is `CounterAfter` the iterations. A run that does not converge leaves the statistics of its last failed test, or the starting ones if none failed or the ensemble is empty |

## Left out

- Plotting, the gif, Telegram messages, timers, `print`, `get_log_str` and the `get_str_*` reports are not modelled; they only produce output.
- main.py and classes/Telegram.py are not part of this model.
- Floating point is modelled by exact reals. numpy's `inf` and `NaN` are kept where the code produces them: the initial E_tot, the normalised deviation, and kT = 0 in the acceptance rule.
- `sin`, `cos`, `sqrt` and `exp` are parameters (`VectorMath.Elementary`). Only the facts a proof needs about them are required: `exp(0) = 1`, `exp` positive and monotone, `sqrt(0) = 0`.
- `random.uniform`, `randint`, `random.random` and `get_random_parameters` are replaced by draws passed in. The draws hold the angles directly; the `arccos(2u − 1)` transform and its isotropy are not modelled.
- The `while True` loops of `Needles.__init__` and `simulate` run forever in the code. The model ends them when the draws run out (`NeedleEnsemble.Place`, the `DrawsExhausted` outcome), so non-termination of either loop is not captured.
- `NeedleEnsemble.Needles.constructor`: requires a non-zero width. A zero width raises ZeroDivisionError in `calculate_needle_dimensions` before any needle exists; the error itself is modelled in `CalculateNeedleDimensions`.
- `MonteCarlo.Simulation.constructor`: requires a positive width, a non-negative length and draw fractions in [0, 1], which is what `random.uniform` delivers. Negative dimensions are outside the model.
- `NeedleEnsemble.Needles.constructor`, `MonteCarlo.Simulation.NextStep` and `MonteCarlo.Simulation.Simulate` use the corrected `NeedleGeometry.CheckOverlap`. With cpu_improve off and two or more needles, the code raises TypeError during placement (classes/Needle.py:60); the model does not reproduce that error there.
- `NeedleGeometry.CheckOverlap`: requires every coordinate list to hold the `2·length + 1` entries the loops index. Every caller fills the cache when cpu_improve is on; an unfilled cache would raise IndexError, which is not modelled.
- `NeedleGeometry.CalcDdPotential`: requires non-zero separations, where numpy would give inf or NaN. Separated ensembles always meet this (`NeedleEnsemble.SeparatedEvaluable`).
- `RunState.GlobalValues.AppendEnergies`: requires E_tot to be a number. It is called only after an accepted step, when E_tot is always finite.
- `MonteCarlo.Simulation.NextStep`: the draw's index must be in range for `randint(0, len − 1)`. Uniformity of `randint` is not modelled.
- Aliasing: `get()` returns the list itself and `next_step` pops from it. The model expresses this as `Needles.PopAt` mutating the one field.
- multiple_dipoles mode is marked buggy in the parameters. The model follows the code: every sphere pair carries the whole needle moment.
- `statistics.stdev` and `statistics.mean` are exact on the reals; their internal rounding is not modelled.

## Findings

| source | as written | input that shows it | evidently intended | confidence | as-written member | corrected member |
|---|---|---|---|---|---|---|
| classes/Needle.py:60 | `needles[i].get_coordinate` without a call: unpacking a bound method raises TypeError | `check_overlap([b], False)` for any needle b | `needles[i].get_coordinate()`, so the non-cached mode checks the other needle's computed spheres | not executed | `NeedleGeometry.CheckOverlapAsWritten` | `NeedleGeometry.OverlapModesAgree` |
