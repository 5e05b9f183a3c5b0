# radartools detection core in Dafny

This project models the detection package of radartools (`org.radartools.detection`) and proves
properties of the model. The package computes radar detection probabilities for chi-square
fluctuating targets. It has four parts:

- **Probability** (`probability.dfy`, module `Probabilities`). A value in [0, 1], checked when it
  is built. It is modelled as a subset type. The constructor returns a `Result` that is a domain
  error for values outside [0, 1].
- **Solver** (`solver.dfy`, module `Solvers`). The generic inverse solver. It grows a bracket
  around an initial guess, dividing and multiplying the guess by 2, 3, 4, … until the desired
  result lies between the forward function's values at the two bounds. It then bisects that
  bracket down to a width of 1e-12 and returns the midpoint.
  - `Solve`, `FindBracket` and `Refine` keep the loops of the original as `while` loops. They are
    proved equal to the closed-form specification `SolveSpec`.
  - The lemmas state what the result means: the bracket invariant, the halving of the width, and
    closeness to the root of a monotone function.
- **Mitchell–Walker series** (`mitchell_walker.dfy`, `series_forms.dfy`). The detection
  probability of a chi-square target, computed as in R. L. Mitchell and J. F. Walker, "Recursive
  Methods for Computing Detection Probabilities", IEEE Trans. AES-7(4), 1971.
  - `Evaluate` keeps the original's `for` loop and `while` loop. It is proved to compute
    `SeriesValue`.
  - Module `SeriesForms` proves the closed forms of the recurrences:
    - the Poisson sum g(n, t) = e^-t Σ t^i/i!;
    - Poisson amplitudes for a nonfluctuating target;
    - negative binomial amplitudes for K degrees of freedom;
    - the returned value is the partial sum up to the first term that fails the stopping test.
- **ChiSquare and Swerling models** (`chi_square.dfy`, `swerling.dfy`).
  - The four chi-square constructors store the pair they are given and derive the other pair.
    The noise model links the threshold and the false-alarm probability. The series and the
    solver link the signal-to-noise ratio and the detection probability.
  - The Swerling cases fix K from the number of pulses and forward to the chi-square model.

Foreign and transcendental pieces are parameters:
- `exp` and `pow` are the fields of `MitchellWalker.Transcendentals`;
- the noise model's `pfa` and `thr` are fields of `ChiSquares.Environment`.

Numbers are exact reals.

## Model

| member | source | states |
|---|---|---|
| Probabilities.Create | src/org/radartools/detection/Probability.java:19-26 | building succeeds exactly for 0 <= v <= 1 (both endpoints included) and then holds v; otherwise it is a domain error carrying v |
| Probabilities.GetValue | src/org/radartools/detection/Probability.java:32-34 | the value is in [0, 1] and rebuilding a probability from it gives back the same probability |
| Probabilities.CreateExamples | java/test/org/radartools/detection/ProbabilityTest.java:11-32 | 1.0, 0.0 and 0.5 are accepted and read back unchanged; 3.0 is rejected |
| Solvers.LowerBoundClosedForm | src/org/radartools/detection/Solver.java:77-91 | after m rounds of dividing by i = 2, 3, …, the lower bound is guess / (m + 1)! |
| Solvers.UpperBoundClosedForm | src/org/radartools/detection/Solver.java:77-91 | after m rounds of multiplying by i = 2, 3, …, the upper bound is guess * (m + 1)! |
| Solvers.FirstRoundIsFirst | src/org/radartools/detection/Solver.java:87-97 | the search stops at a round whose values bracket the target, no earlier round brackets it, and it finds nothing exactly when no round up to the step bound brackets it |
| Solvers.FindBracket | src/org/radartools/detection/Solver.java:70-97 | round 0 (the guess itself) never ends the search: the first test is made after round 1, and with a step bound of 0 no round runs. The loop reports a bracket exactly when some round m >= 1 within the bound finds one; the bounds are those of the first bracketing round and the results are f at those bounds |
| Solvers.NarrowStep | src/org/radartools/detection/Solver.java:103-118 | one bisection step replaces exactly one bound by the midpoint and halves the width; for any f it keeps the target between f at the two bounds, in the order given by the direction flag |
| Solvers.BisectBracket | src/org/radartools/detection/Solver.java:103-120 | bisection ends with a bracket no wider than 1e-12 that lies inside the initial one and still brackets the target |
| Solvers.BisectHalvesWidth | src/org/radartools/detection/Solver.java:103-120 | the final width is the initial width divided by 2 once per step taken |
| Solvers.Refine | src/org/radartools/detection/Solver.java:103-120 | the bisection loop, with the direction flag as a fixed input, ends with the bounds of the specification `Bisect` |
| Solvers.OrientedBetween | src/org/radartools/detection/Solver.java:94-100 | a found bracket, with the flag set once as result_a < result_b, satisfies the oriented invariant, and the invariant in either orientation means the target lies between the two values |
| Solvers.SolveResult | src/org/radartools/detection/Solver.java:67-123 | the result is absent exactly when no round brackets the target. Otherwise it comes from the first bracketing round; the final bounds bracket the target and are at most 1e-12 apart; the result lies within 5e-13 of both |
| Solvers.Solve | src/org/radartools/detection/Solver.java:34-124 | the two loops of `solve` compute `SolveSpec` |
| Solvers.SolveApproximatesSolution | src/org/radartools/detection/Solver.java:103-123 | for a monotone f the target lies between f(x - 5e-13) and f(x + 5e-13), where x is the result |
| Solvers.SolveNearSolution | src/org/radartools/detection/Solver.java:103-123 | for a strictly monotone f the result is within 5e-13 of the exact solution of f(x) = target |
| Solvers.SolveLinearIncreasing | test/org/radartools/detection/SolverTest.java:12-15 | solving 2x + 1 = 13 from the guess 5 gives 6 within 1e-10 |
| Solvers.SolveLinearDecreasing | test/org/radartools/detection/SolverTest.java:19-22 | solving -3x + 100 = 25 from the guess 10 gives 25 within 1e-10 |
| MitchellWalker.PoissonG | src/org/radartools/detection/ChiSquare.java:129-135 | after the `for` loop h is term n - 1 and g is the sum of the first n terms; for n = 1 (and below) g = h = e |
| MitchellWalker.NextTerm | src/org/radartools/detection/ChiSquare.java:149-155 | one pass of the loop body is one `Step`: h by thr/(n + j), g by h, a by its K-dependent factor, then l = a * g added to the result |
| MitchellWalker.SeriesLoop | src/org/radartools/detection/ChiSquare.java:143-157 | the `while` loop, from the running sum a(0) * g, ends with the result of `Run` |
| MitchellWalker.Evaluate | src/org/radartools/detection/ChiSquare.java:116-158 | `mitchell_walker` computes `SeriesValue` of its set-up |
| SeriesForms.TermTimesFact | src/org/radartools/detection/ChiSquare.java:132-134 | after i updates, h * i! = e * t^i |
| SeriesForms.TermClosedForm | src/org/radartools/detection/ChiSquare.java:132-134 | after i updates, h = e * t^i / i! |
| SeriesForms.SumClosedForm | src/org/radartools/detection/ChiSquare.java:129-135 | g accumulates the Poisson sum e * Σ_{i<m} t^i / i! |
| SeriesForms.PoissonGClosedForm | src/org/radartools/detection/ChiSquare.java:129-135 | after the `for` loop, h = e thr^(n-1)/(n-1)! and g = e Σ_{i<n} thr^i / i! |
| SeriesForms.PoissonRatio | src/org/radartools/detection/ChiSquare.java:151 | for a nonfluctuating target the amplitude factor at step j is xbar / (j + 1) |
| SeriesForms.NonfluctuatingAmplitude | src/org/radartools/detection/ChiSquare.java:139-151 | the nonfluctuating amplitudes follow the same recurrence as the Poisson terms, starting from a(0) with ratio xbar |
| SeriesForms.NonfluctuatingClosedForm | src/org/radartools/detection/ChiSquare.java:139-151 | for K = NONFLUCTUATING, a(j) = a(0) * xbar^j / j! |
| SeriesForms.SingularPoint | src/org/radartools/detection/ChiSquare.java:152 | the divisor 1 + xbar/K is zero exactly when xbar = -K |
| SeriesForms.FluctuatingRatio | src/org/radartools/detection/ChiSquare.java:152 | away from that point the factor xbar(1 + i/K)/(1 + xbar/K)/(1 + i), times i + 1, is (K + i) * q with q = xbar/(K + xbar) |
| SeriesForms.FluctuatingFactor | src/org/radartools/detection/ChiSquare.java:152 | the same factor is (K + i) * q / (i + 1) |
| SeriesForms.NegBinomialClosedForm | src/org/radartools/detection/ChiSquare.java:118-123 | the negative binomial weights w(j) of the cited paper satisfy w(j) * j! = a0 * q^j * K (K + 1) … (K + j - 1) |
| SeriesForms.FluctuatingAmplitude | src/org/radartools/detection/ChiSquare.java:140-152 | for 1 <= K < NONFLUCTUATING the amplitudes are the negative binomial weights with q = xbar/(K + xbar) |
| SeriesForms.StartClosed | src/org/radartools/detection/ChiSquare.java:129-147 | before the `while` loop the state is the closed form for 0 steps: running sum a(0) * g(n) |
| SeriesForms.StepTerm | src/org/radartools/detection/ChiSquare.java:149 | a step moves h to Poisson term n + m |
| SeriesForms.StepSum | src/org/radartools/detection/ChiSquare.java:150 | a step moves g to g(n + m + 1) |
| SeriesForms.StepAmplitude | src/org/radartools/detection/ChiSquare.java:151-152 | a step moves the amplitude to a(m + 1) |
| SeriesForms.StepClosed | src/org/radartools/detection/ChiSquare.java:148-156 | a step takes the closed-form state after m steps to the one after m + 1 steps: l is the new term, the result the partial sum, j is incremented |
| SeriesForms.ContinuesIffPasses | src/org/radartools/detection/ChiSquare.java:148 | the loop test on the state after j steps is the test \|term j\| > 1e-16 \|partial sum j\| (always passed before the first step) |
| SeriesForms.StopIndexIsFirst | src/org/radartools/detection/ChiSquare.java:148 | the loop stops at the first index whose test fails, unless the step bound comes first |
| SeriesForms.RunClosed | src/org/radartools/detection/ChiSquare.java:148-156 | running the loop from the closed-form state after j steps ends in the closed-form state at the stopping index |
| SeriesForms.AmplitudeClosedForm | src/org/radartools/detection/ChiSquare.java:139-152 | away from xbar = -K, a(j) is a(0) xbar^j / j! for K = NONFLUCTUATING and the negative binomial weight a(0) q^j K(K+1)...(K+j-1) / j! with q = xbar/(K + xbar) otherwise |
| SeriesForms.SeriesTermClosedForm | src/org/radartools/detection/ChiSquare.java:128-153 | the j-th term a(j) g(n + j, thr) of the series is the closed-form weight times e^-thr Σ_{i<n+j} thr^i / i! |
| SeriesForms.PartialSumClosedForm | src/org/radartools/detection/ChiSquare.java:128-154 | every partial sum of the series equals the sum of the closed-form terms up to the same index |
| SeriesForms.SeriesValueIsPartialSum | src/org/radartools/detection/ChiSquare.java:143-157 | the returned value is Σ_{j<=s} a(j) g(n + j, thr), where s is the first index whose term is at most 1e-16 of the running sum; every earlier term passed the test |
| ChiSquares.Pd | src/org/radartools/detection/ChiSquare.java:100-109 | `pd(snr)` succeeds exactly when the series value is in [0, 1], and then holds it; otherwise it is the domain error that ends the original program |
| ChiSquares.Snr | src/org/radartools/detection/ChiSquare.java:89-92 | `snr(pd)` fails only when the solver finds no bracket |
| ChiSquares.SnrFailsIffNoBracket | src/org/radartools/detection/ChiSquare.java:89-92 | `snr(pd)` fails exactly when no round of the bracket search from the guess thr/n brackets pd |
| ChiSquares.SnrNearRoot | src/org/radartools/detection/ChiSquare.java:89-92 | for a series strictly monotone in snr, the computed snr is within 5e-13 of the snr whose series value is pd |
| ChiSquares.SnrApproximatesPd | src/org/radartools/detection/ChiSquare.java:89-92 | for a series monotone in snr, pd lies between the series values 5e-13 either side of the computed snr |
| ChiSquares.FromSnrThr | src/org/radartools/detection/ChiSquare.java:26-33 | snr, thr, n and K are stored verbatim; pfa = Noise.pfa(n, thr) and pd = pd(snr); it fails when either fails, the noise model first |
| ChiSquares.FromSnrPfa | src/org/radartools/detection/ChiSquare.java:42-49 | snr, pfa, n and K are stored verbatim; thr = Noise.thr(n, pfa) and pd is computed at that threshold |
| ChiSquares.FromPdThr | src/org/radartools/detection/ChiSquare.java:58-65 | pd, thr, n and K are stored verbatim; pfa = Noise.pfa(n, thr) and snr = snr(pd) |
| ChiSquares.FromPdPfa | src/org/radartools/detection/ChiSquare.java:74-81 | pd, pfa, n and K are stored verbatim; thr = Noise.thr(n, pfa) and snr is solved at that threshold |
| ChiSquares.SnrThrModelIsExact | src/org/radartools/detection/ChiSquare.java:26-33 | a model built from snr and thr agrees exactly with the noise model and with the series |
| ChiSquares.PdThrModelNearRoot | src/org/radartools/detection/ChiSquare.java:58-65 | a model built from pd and thr keeps both; for a strictly monotone series its snr is within 5e-13 of the exact inverse of pd |
| ChiSquares.SnrThrRoundTrip | src/org/radartools/detection/ChiSquare.java:26-65 | for a strictly monotone series, building a model from snr and thr and then one from its pd at the same thr fails only if the bracket search fails; otherwise it keeps thr, pfa, pd, n and K and recovers snr within 5e-13 |
| ChiSquares.PdThrRoundTrip | src/org/radartools/detection/ChiSquare.java:26-65 | rebuilding a (pd, thr) model from its own snr gives the same thr, pfa, n and K. Its pd is the series at that snr, and the original pd lies between the series values 5e-13 either side of it |
| SeriesForms.SeriesValueClosedForm | src/org/radartools/detection/ChiSquare.java:125-156 | `mitchell_walker(snr)` in terms of snr, n, K and thr: with xbar = snr * n it is Σ_{j<=s} a(j) e^-thr Σ_{i<n+j} thr^i / i!, where a(j) = exp(-xbar) xbar^j / j! for a nonfluctuating target and (1 + xbar/K)^-K q^j K(K+1)...(K+j-1) / j! with q = xbar/(K + xbar) otherwise, and s is the index where the stopping test first fails |
| Swerlings.Wrap32 | src/org/radartools/detection/Swerling.java:136 | Java's 32-bit int arithmetic: the result is a 32-bit int, equal to the exact value when that fits, and congruent to it modulo 2^32 |
| Swerlings.GetK | src/org/radartools/detection/Swerling.java:130-139 | K is a 32-bit int. For 1 <= n <= 2^30 - 1 it is at least 1, so the default 0 is never returned, and it is never the NONFLUCTUATING mark |
| Swerlings.SlowCasesIgnorePulses | src/org/radartools/detection/Swerling.java:133-135 | Swerling 1 gives K = 1 and Swerling 3 gives K = 2 whatever n is |
| Swerlings.FastCasesFollowPulses | src/org/radartools/detection/Swerling.java:134-136 | Swerling 2 gives K = n and Swerling 4 gives K = 2n |
| Swerlings.KOutOfRange | src/org/radartools/detection/Swerling.java:134-136 | outside that range Swerling 4 at n = 2^30 wraps to K = -2^31, and Swerling 2 at n = MAX_VALUE gives the NONFLUCTUATING mark |
| Swerlings.FromSnrThr | src/org/radartools/detection/Swerling.java:83-86 | the model is the chi-square (snr, thr) model with n and K = getK(n, case), and fails when it does |
| Swerlings.FromPdThr | src/org/radartools/detection/Swerling.java:95-98 | the model is the chi-square (pd, thr) model with n and K = getK(n, case), and fails when it does |
| Swerlings.FromSnrPfa | src/org/radartools/detection/Swerling.java:107-110 | the model is the chi-square (snr, pfa) model with n and K = getK(n, case), and fails when it does |
| Swerlings.FromPdPfa | src/org/radartools/detection/Swerling.java:119-122 | the model is the chi-square (pd, pfa) model with n and K = getK(n, case), and fails when it does |
| Swerlings.SnrThrGetters | src/org/radartools/detection/Swerling.java:145-175 | the getters of a (snr, thr) model give back snr, thr, n and the case. pfa is the noise model's value; pd is the series at K = getK(n, case) |
| Swerlings.SnrPfaGetters | src/org/radartools/detection/Swerling.java:145-175 | the getters of a (snr, pfa) model give back snr, pfa, n and the case. thr is the noise model's value; pd is the series at that threshold |
| Swerlings.PdThrGetters | src/org/radartools/detection/Swerling.java:145-175 | the getters of a (pd, thr) model give back pd, thr, n and the case. pfa is the noise model's value; snr is the solver's inverse of the series |
| Swerlings.PdPfaGetters | src/org/radartools/detection/Swerling.java:145-175 | the getters of a (pd, pfa) model give back pd, pfa, n and the case. thr is the noise model's value; snr is the solver's inverse at that threshold |

## Left out

- Floating point.
  - The model computes on exact reals.
  - Rounding, overflow to infinity and NaN are not modelled.
  - In particular, NaN passes the range check of `Probability` because both comparisons are false; the model cannot express this.
- `Math.exp` and `Math.pow` are uninterpreted: fields of `Transcendentals` passed in as parameters.
- Gamma-function calls.
  - `Noise.pfa` and `Noise.thr` call into Apache Commons Math's regularized gamma function.
  - They are fields of `ChiSquares.Environment`. `Noise.pfa`'s exit on an out-of-range value is the error its result may carry.
  - `Noise.java` itself is not part of this model.
- `Marcum.java` only forwards to the chi-square model with K = NONFLUCTUATING, which the model covers. It is not part of this model.
- The literal expectations of the Marcum and Noise tests depend on real exp and gamma values. So does the solver test with `Math.log10` (SolverTest.java:26-30). None of them is modelled.
- Step bounds replace unbounded loops. Neither loop terminates by a bound of its own.
  - `Solvers.Solve`: the bracket search takes at most `fuel` rounds and reports no bracket when they run out. The original loops forever when no round brackets the target, for example for a guess of 0 with f(0) different from the target (every round then tests the bounds 0 and 0).
  - `MitchellWalker.Evaluate`: the series loop takes at most `fuel` steps and returns the partial sum reached. The original stops only because the terms become negligible in double precision.
  - The model does not claim termination of either original loop.
- The initial `l = Double.MAX_VALUE` only ensures the first stopping test passes. The model starts l at 0 and lets the test pass whenever no step has been taken (`MitchellWalker.Continues`).
- `MitchellWalker.Ratio`: where 1 + xbar/K = 0 (xbar = -K) the source divides by zero and produces an infinity or NaN. The model uses the factor 0 there so that the series is a total function of snr, as the solver needs.
- `MitchellWalker.Evaluate` requires 1 + xbar/K != 0 for a fluctuating target, the divisor of the amplitude update.
- `MitchellWalker.Evaluate` and `MitchellWalker.Setup` require n >= 1 and K >= 1, because the pulse count and the degrees of freedom of the design are positive. What the source computes otherwise is not modelled:
  - K = 0 divides by zero in double precision.
  - K < 0 goes through `Math.pow` like a positive K.
  - n <= 0 skips the g loop and divides by zero only when j reaches -n.
- `ChiSquares.FromSnrThr`, `ChiSquares.FromSnrPfa`, `ChiSquares.FromPdThr`, `ChiSquares.FromPdPfa`, `ChiSquares.Pd` and `ChiSquares.Snr` require n >= 1 and K >= 1 for the same reason.
- Java's 32-bit int wrap-around in the loop counters is not modelled. The model's integers are unbounded, and the `ChiSquares` members accept n beyond the int range. Three places could wrap:
  - `n + j` and `1 + j` in the series loop (ChiSquare.java:149-152);
  - the round counter `i++` of the bracket search (Solver.java:89).
- Swerling constructors and the 32-bit range of n.
  - The source accepts any int n. It overflows in 2n for n >= 2^30, and Swerling 2 with n = MAX_VALUE is read as nonfluctuating.
  - `Swerlings.KOutOfRange` records both.
  - Each of the constructors below requires 1 <= n <= 2^30 - 1:
    - `Swerlings.FromSnrThr`
    - `Swerlings.FromSnrPfa`
    - `Swerlings.FromPdThr`
    - `Swerlings.FromPdPfa`
- The getters are the datatypes' fields.
  - For ChiSquare: `thr`, `pfa`, `snr`, `pd`, `n`, `k`.
  - For Swerling: `GetSnr`, `GetPd`, `GetThr`, `GetPfa`, `GetN`, `GetSwerlingCase`.
  - What they return for a built model is stated by the constructor contracts and the `…Getters` lemmas.
- `toString` in every class is not modelled, and neither are `Solver.equals`, `hashCode`, `toString` and `calculate()`. They are string formatting and function-object identity. The solver's `calculate` field is the parameter f.
- `printStackTrace` and `System.exit` in `pd` become the error result of `ChiSquares.Pd`.
- `MitchellWalker.NextTerm` and `Solvers.FindBracket` / `Solvers.Refine` are split off as helper methods. This keeps each loop's proof small; the original is one method each.
