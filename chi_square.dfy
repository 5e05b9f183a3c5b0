/**
 * The chi-square detection model: a target with K degrees of freedom observed over n
 * non-coherently integrated pulses. A model holds a detection threshold with its probability of
 * false alarm and a signal-to-noise ratio with its probability of detection. Each of the four
 * constructors is given one of each pair and derives the other: the noise model links the
 * threshold and the false-alarm probability, the Mitchell-Walker series (and its inverse, found
 * by the solver) links the signal-to-noise ratio and the detection probability.
 */
module ChiSquares {
  import opened Outcomes
  import opened Reals
  import opened Probabilities
  import opened Solvers
  import opened MitchellWalker

  /**
   * What the model calls but does not define: exp and pow, the noise model's two directions
   * (both foreign calls into a gamma-function library), and the step bounds that stand in for
   * the loops of the series and of the solver's bracket search, which have no bound of their own.
   */
  datatype Environment = Environment(
    math: Transcendentals,
    noisePfa: (int, real) -> Result<Probability>,
    noiseThr: (int, Probability) -> Result<real>,
    seriesFuel: nat,
    solveFuel: nat)

  /** The six fields of a chi-square model; the datatype's field selectors are its getters. */
  datatype ChiSquare = ChiSquare(thr: real, pfa: Probability, snr: real, pd: Probability, n: int, k: int)

  /** `mitchell_walker(snr)`: the detection series of the model with threshold thr, n pulses and K = k. */
  function Series(env: Environment, thr: real, n: int, k: int, snr: real): real
    requires n >= 1 && k >= 1
  {
    SeriesValue(Setup(env.math, thr, n, k, snr), env.seriesFuel)
  }

  /** The series as a function of the signal-to-noise ratio: the forward function of `snr`. */
  function Forward(env: Environment, thr: real, n: int, k: int): real -> real
    requires n >= 1 && k >= 1
  {
    s => Series(env, thr, n, k, s)
  }

  lemma ForwardApply(env: Environment, thr: real, n: int, k: int, s: real)
    requires n >= 1 && k >= 1
    ensures Forward(env, thr, n, k)(s) == Series(env, thr, n, k, s)
  {
  }

  /** The solver's initial guess in `snr`: the threshold divided by the number of pulses. */
  function Guess(thr: real, n: int): real
    requires n >= 1
  {
    thr / n as real
  }

  /** Round m of the bracket search for pd, from the guess thr / n, brackets pd. */
  predicate Brackets(env: Environment, thr: real, n: int, k: int, pd: Probability, m: nat)
    requires n >= 1 && k >= 1
  {
    FoundAt(Forward(env, thr, n, k), GetValue(pd), Guess(thr, n), m)
  }

  /**
   * `pd(snr)`: the series value wrapped as a probability. A value outside [0, 1] ends the
   * original program; here it is the domain error the wrapping reports.
   */
  function Pd(env: Environment, thr: real, n: int, k: int, snr: real): (r: Result<Probability>)
    requires n >= 1 && k >= 1
    ensures r.Ok? <==> 0.0 <= Series(env, thr, n, k, snr) <= 1.0
    ensures r.Ok? ==> r.value == Series(env, thr, n, k, snr)
    ensures r.Err? ==> r.error == DomainError(Series(env, thr, n, k, snr))
  {
    Create(Series(env, thr, n, k, snr))
  }

  /**
   * `snr(pd)`: the solver applied to the series, aiming at the value of pd, from the guess
   * thr / n. A bracket search that runs out of steps is the NoBracket error.
   */
  function Snr(env: Environment, thr: real, n: int, k: int, pd: Probability): (r: Result<real>)
    requires n >= 1 && k >= 1
    ensures r.Err? ==> r.error == NoBracket
  {
    match SolveSpec(Forward(env, thr, n, k), GetValue(pd), Guess(thr, n), env.solveFuel)
    case None => Err(NoBracket)
    case Some(s) => Ok(s)
  }

  /** `snr` fails exactly when none of the first solveFuel rounds of the bracket search brackets pd. */
  lemma SnrFailsIffNoBracket(env: Environment, thr: real, n: int, k: int, pd: Probability)
    requires n >= 1 && k >= 1
    ensures Snr(env, thr, n, k, pd).Err? <==> forall m: nat :: 1 <= m <= env.solveFuel ==> !Brackets(env, thr, n, k, pd, m)
  {
    var f, y, guess := Forward(env, thr, n, k), GetValue(pd), Guess(thr, n);
    SolveResult(f, y, guess, env.solveFuel);
    assert Snr(env, thr, n, k, pd).Err? <==> SolveSpec(f, y, guess, env.solveFuel).None?;
    forall m: nat | 1 <= m <= env.solveFuel
      ensures Brackets(env, thr, n, k, pd, m) == FoundAt(f, y, guess, m)
    {
    }
  }

  /** The computed signal-to-noise ratio is the solver's answer for the series and the given pd. */
  lemma SnrIsSolve(env: Environment, thr: real, n: int, k: int, pd: Probability)
    requires n >= 1 && k >= 1
    ensures var r := Snr(env, thr, n, k, pd);
      var s := SolveSpec(Forward(env, thr, n, k), pd, Guess(thr, n), env.solveFuel);
      r.Ok? == s.Some? && (r.Ok? ==> r.value == s.value)
  {
  }

  /**
   * When the series is strictly monotone in the signal-to-noise ratio and reaches pd at some
   * root, a computed signal-to-noise ratio is within 5e-13 of that root.
   */
  lemma SnrNearRoot(env: Environment, thr: real, n: int, k: int, pd: Probability, root: real)
    requires n >= 1 && k >= 1
    requires StrictlyMonotone(Forward(env, thr, n, k)) && Series(env, thr, n, k, root) == pd
    ensures Snr(env, thr, n, k, pd).Ok? ==> Abs(Snr(env, thr, n, k, pd).value - root) <= HalfTolerance
  {
    var f := Forward(env, thr, n, k);
    var guess := Guess(thr, n);
    assert f(root) == pd;
    SolveNearSolution(f, pd, guess, env.solveFuel, root);
  }

  /**
   * When the series is monotone in the signal-to-noise ratio, pd lies between the series
   * values 5e-13 either side of a computed signal-to-noise ratio.
   */
  lemma SnrApproximatesPd(env: Environment, thr: real, n: int, k: int, pd: Probability)
    requires n >= 1 && k >= 1
    requires Monotone(Forward(env, thr, n, k))
    ensures var r := Snr(env, thr, n, k, pd);
      r.Ok? ==> Between(pd, Series(env, thr, n, k, r.value - HalfTolerance), Series(env, thr, n, k, r.value + HalfTolerance))
  {
    var f := Forward(env, thr, n, k);
    var guess := Guess(thr, n);
    SolveApproximatesSolution(f, pd, guess, env.solveFuel);
    SnrIsSolve(env, thr, n, k, pd);
    var r := Snr(env, thr, n, k, pd);
    if r.Ok? {
      ForwardApply(env, thr, n, k, r.value - HalfTolerance);
      ForwardApply(env, thr, n, k, r.value + HalfTolerance);
    }
  }

  // ---------------------------------------------------------------------------------------
  // The four constructors

  /** Given snr and thr: pfa from the noise model, then pd from the series. */
  function FromSnrThr(env: Environment, snr: real, thr: real, n: int, k: int): (r: Result<ChiSquare>)
    requires n >= 1 && k >= 1
    ensures r.Ok? <==> env.noisePfa(n, thr).Ok? && Pd(env, thr, n, k, snr).Ok?
    ensures r.Ok? ==> r.value == ChiSquare(thr, env.noisePfa(n, thr).value, snr, Pd(env, thr, n, k, snr).value, n, k)
    ensures env.noisePfa(n, thr).Err? ==> r == Err(env.noisePfa(n, thr).error)
  {
    var pfa :- env.noisePfa(n, thr);
    var pd :- Pd(env, thr, n, k, snr);
    Ok(ChiSquare(thr, pfa, snr, pd, n, k))
  }

  /** Given snr and pfa: thr from the noise model, then pd from the series at that threshold. */
  function FromSnrPfa(env: Environment, snr: real, pfa: Probability, n: int, k: int): (r: Result<ChiSquare>)
    requires n >= 1 && k >= 1
    ensures r.Ok? <==> env.noiseThr(n, pfa).Ok? && Pd(env, env.noiseThr(n, pfa).value, n, k, snr).Ok?
    ensures r.Ok? ==> var thr := env.noiseThr(n, pfa).value;
      r.value == ChiSquare(thr, pfa, snr, Pd(env, thr, n, k, snr).value, n, k)
    ensures env.noiseThr(n, pfa).Err? ==> r == Err(env.noiseThr(n, pfa).error)
  {
    var thr :- env.noiseThr(n, pfa);
    var pd :- Pd(env, thr, n, k, snr);
    Ok(ChiSquare(thr, pfa, snr, pd, n, k))
  }

  /** Given pd and thr: pfa from the noise model, then snr by inverting the series. */
  function FromPdThr(env: Environment, pd: Probability, thr: real, n: int, k: int): (r: Result<ChiSquare>)
    requires n >= 1 && k >= 1
    ensures r.Ok? <==> env.noisePfa(n, thr).Ok? && Snr(env, thr, n, k, pd).Ok?
    ensures r.Ok? ==> r.value == ChiSquare(thr, env.noisePfa(n, thr).value, Snr(env, thr, n, k, pd).value, pd, n, k)
    ensures env.noisePfa(n, thr).Err? ==> r == Err(env.noisePfa(n, thr).error)
  {
    var pfa :- env.noisePfa(n, thr);
    var snr :- Snr(env, thr, n, k, pd);
    Ok(ChiSquare(thr, pfa, snr, pd, n, k))
  }

  /** Given pd and pfa: thr from the noise model, then snr by inverting the series at that threshold. */
  function FromPdPfa(env: Environment, pd: Probability, pfa: Probability, n: int, k: int): (r: Result<ChiSquare>)
    requires n >= 1 && k >= 1
    ensures r.Ok? <==> env.noiseThr(n, pfa).Ok? && Snr(env, env.noiseThr(n, pfa).value, n, k, pd).Ok?
    ensures r.Ok? ==> var thr := env.noiseThr(n, pfa).value;
      r.value == ChiSquare(thr, pfa, Snr(env, thr, n, k, pd).value, pd, n, k)
    ensures env.noiseThr(n, pfa).Err? ==> r == Err(env.noiseThr(n, pfa).error)
  {
    var thr :- env.noiseThr(n, pfa);
    var snr :- Snr(env, thr, n, k, pd);
    Ok(ChiSquare(thr, pfa, snr, pd, n, k))
  }

  // ---------------------------------------------------------------------------------------
  // What every model satisfies

  /** The two pairs of a model agree with the noise model and with the series. */
  predicate Exact(env: Environment, c: ChiSquare)
    requires c.n >= 1 && c.k >= 1
  {
    && env.noisePfa(c.n, c.thr) == Ok(c.pfa)
    && c.pd == Series(env, c.thr, c.n, c.k, c.snr)
  }

  /**
   * A model built from snr and thr stores both verbatim, and its pfa and pd are exactly what
   * the noise model and the series give for them.
   */
  lemma SnrThrModelIsExact(env: Environment, snr: real, thr: real, n: int, k: int)
    requires n >= 1 && k >= 1
    ensures var r := FromSnrThr(env, snr, thr, n, k);
      r.Ok? ==> r.value.snr == snr && r.value.thr == thr && r.value.n == n && r.value.k == k && Exact(env, r.value)
  {
  }

  /**
   * A model built from pd and thr stores both verbatim; for a strictly monotone series with a
   * root at pd its snr is within 5e-13 of that root.
   */
  lemma PdThrModelNearRoot(env: Environment, pd: Probability, thr: real, n: int, k: int, root: real)
    requires n >= 1 && k >= 1
    requires StrictlyMonotone(Forward(env, thr, n, k)) && Series(env, thr, n, k, root) == pd
    ensures var r := FromPdThr(env, pd, thr, n, k);
      r.Ok? ==> && r.value.pd == pd && r.value.thr == thr && r.value.n == n && r.value.k == k
                && env.noisePfa(n, thr) == Ok(r.value.pfa)
                && Abs(r.value.snr - root) <= HalfTolerance
  {
    SnrNearRoot(env, thr, n, k, pd, root);
  }

  /**
   * Round trip from snr: build a model from snr and thr, then build one from its pd and the
   * same thr. For a strictly monotone series the second model keeps thr, pfa, pd, n and K, and
   * its snr is within 5e-13 of the first; it fails only if the bracket search fails.
   */
  lemma SnrThrRoundTrip(env: Environment, snr: real, thr: real, n: int, k: int)
    requires n >= 1 && k >= 1
    requires StrictlyMonotone(Forward(env, thr, n, k))
    ensures var c := FromSnrThr(env, snr, thr, n, k);
      c.Ok? ==>
        var c' := FromPdThr(env, c.value.pd, thr, n, k);
        && (c'.Ok? <==> Snr(env, thr, n, k, c.value.pd).Ok?)
        && (c'.Ok? ==> && c'.value.thr == thr && c'.value.pfa == c.value.pfa && c'.value.pd == c.value.pd
                       && c'.value.n == n && c'.value.k == k && Abs(c'.value.snr - snr) <= HalfTolerance)
  {
    var c := FromSnrThr(env, snr, thr, n, k);
    if c.Ok? {
      SnrThrModelIsExact(env, snr, thr, n, k);
      PdThrModelNearRoot(env, c.value.pd, thr, n, k, snr);
    }
  }

  /**
   * Round trip: build a model from pd and thr, then build one from its snr and the same thr.
   * The second has the same threshold, false-alarm probability, n and K, and (for a monotone
   * series) the pd it computes and the original pd both lie between the series values 5e-13
   * either side of the shared snr.
   */
  lemma PdThrRoundTrip(env: Environment, pd: Probability, thr: real, n: int, k: int)
    requires n >= 1 && k >= 1
    requires Monotone(Forward(env, thr, n, k))
    ensures var c := FromPdThr(env, pd, thr, n, k);
      c.Ok? ==>
        var c' := FromSnrThr(env, c.value.snr, thr, n, k);
        var s := c.value.snr;
        && Between(pd, Series(env, thr, n, k, s - HalfTolerance), Series(env, thr, n, k, s + HalfTolerance))
        && (c'.Ok? <==> 0.0 <= Series(env, thr, n, k, s) <= 1.0)
        && (c'.Ok? ==> c'.value.thr == c.value.thr && c'.value.pfa == c.value.pfa
                       && c'.value.n == n && c'.value.k == k && c'.value.snr == s
                       && c'.value.pd == Series(env, thr, n, k, s))
  {
    SnrApproximatesPd(env, thr, n, k, pd);
  }
}
