/**
 * The Mitchell-Walker recursion for the probability of detection of a chi-square target
 * (R. L. Mitchell and J. F. Walker, "Recursive Methods for Computing Detection Probabilities",
 * IEEE Transactions on Aerospace and Electronic Systems, AES-7(4), 1971).
 *
 * The detection probability is the series  sum_j a(j, xbar) * g(n + j, thr)  where g(m, t) is the
 * Poisson sum e^-t * sum_{i < m} t^i / i!  and a(j, xbar) the amplitude of the j-th term, a
 * Poisson weight for a nonfluctuating target and a negative binomial weight for K degrees of
 * freedom. The functions here follow the recurrences of the original method step by step;
 * Evaluate is the loop-by-loop model of the method and is proved to compute SeriesValue. The
 * closed forms of the recurrences are proved in module SeriesForms.
 */
module MitchellWalker {
  import opened Reals

  /** The degrees of freedom that mark a nonfluctuating target (the largest 32-bit int). */
  const NonFluctuating: int := 0x7fff_ffff

  /** The series stops once the last term is at most this fraction of the running sum (1e-16). */
  const SeriesError: real := 0.0000000000000001

  /** The transcendental functions the series calls, left uninterpreted. */
  datatype Transcendentals = Transcendentals(exp: real -> real, pow: (real, real) -> real)

  // ---------------------------------------------------------------------------------------
  // The Poisson sum g(m, t)

  /** The value of h after i updates from e: each update i multiplies it by t / i. */
  function Term(e: real, t: real, i: nat): real {
    if i == 0 then e else Term(e, t, i - 1) * (t / i as real)
  }

  /** The value of g once it has accumulated the first m values of h. */
  function Sum(e: real, t: real, m: nat): real {
    if m == 0 then 0.0 else Sum(e, t, m - 1) + Term(e, t, m - 1)
  }

  /**
   * The loop that builds g(n, thr): h starts at e and is multiplied by thr / i for i = 1 .. n - 1,
   * g accumulates h. It ends with h the (n - 1)-th term and g the sum of the first n terms; when
   * n <= 1 the body never runs and g = h = e.
   */
  method PoissonG(e: real, thr: real, n: int) returns (g: real, h: real)
    ensures var m := if n >= 1 then n else 1;
      h == Term(e, thr, m - 1) && g == Sum(e, thr, m)
  {
    g := e;
    h := e;
    var i := 1;
    while i <= n - 1
      invariant 1 <= i <= (if n >= 1 then n else 1)
      invariant h == Term(e, thr, i - 1) && g == Sum(e, thr, i)
    {
      h := h * (thr / i as real);
      g := g + h;
      i := i + 1;
    }
  }

  // ---------------------------------------------------------------------------------------
  // The amplitudes a(j, xbar)

  /** The factor taking a(j) to a(j + 1); zero where the source divides by 1 + xbar / K = 0. */
  function Ratio(xbar: real, k: int, j: nat): real
    requires k >= 1
  {
    if k == NonFluctuating then xbar / (1 + j) as real
    else if 1.0 + xbar / k as real == 0.0 then 0.0
    else xbar * (1.0 + j as real / k as real) / (1.0 + xbar / k as real) / (1 + j) as real
  }

  /** a(j, xbar), starting from a0 and multiplied by Ratio at each step. */
  function Amplitude(a0: real, xbar: real, k: int, j: nat): real
    requires k >= 1
  {
    if j == 0 then a0 else Amplitude(a0, xbar, k, j - 1) * Ratio(xbar, k, j - 1)
  }

  // ---------------------------------------------------------------------------------------
  // The series

  /** The quantities fixed before the series starts. */
  datatype Params = Params(thr: real, n: int, k: int, xbar: real, e: real, a0: real) {
    predicate Valid() {
      n >= 1 && k >= 1
    }
  }

  /**
   * The set-up of the original method: xbar = snr * n, e = exp(-thr), and a(0) = exp(-xbar) for a
   * nonfluctuating target, (1 + xbar / K)^-K otherwise.
   */
  function Setup(math: Transcendentals, thr: real, n: int, k: int, snr: real): (p: Params)
    requires n >= 1 && k >= 1
    ensures p.Valid() && p.thr == thr && p.n == n && p.k == k && p.xbar == snr * n as real
    ensures p.e == math.exp(-thr)
    ensures p.a0 == if k == NonFluctuating then math.exp(-p.xbar) else math.pow(1.0 + p.xbar / k as real, -(k as real))
  {
    var xbar := snr * n as real;
    var a0 := if k == NonFluctuating then math.exp(-xbar) else math.pow(1.0 + xbar / k as real, -(k as real));
    Params(thr, n, k, xbar, math.exp(-thr), a0)
  }

  /**
   * The variables of the series loop after j steps: h, g, the amplitude a, the last term l and
   * the running sum.
   */
  datatype SeriesState = SeriesState(h: real, g: real, a: real, l: real, result: real, j: nat)

  /**
   * The state before the first step: h and g from the Poisson loop, the running sum a(0) * g.
   * The original starts l at the largest double, whose only role is to pass the first stopping
   * test; Continues lets every state with j = 0 pass, and l starts at 0 here.
   */
  function Start(p: Params): SeriesState
    requires p.Valid()
  {
    var g := Sum(p.e, p.thr, p.n);
    SeriesState(Term(p.e, p.thr, p.n - 1), g, p.a0, 0.0, p.a0 * g, 0)
  }

  /** The first half of a step: h and g move on by one Poisson term, a by one factor. */
  function Advance(p: Params, s: SeriesState): SeriesState
    requires p.Valid()
  {
    var h := s.h * (p.thr / (p.n + s.j) as real);
    s.(h := h, g := s.g + h, a := s.a * Ratio(p.xbar, p.k, s.j))
  }

  /** The second half of a step: the new last term l = a * g is added to the running sum. */
  function Accumulate(t: SeriesState): SeriesState {
    t.(l := t.a * t.g, result := t.result + t.a * t.g, j := t.j + 1)
  }

  /** One step of the series loop. */
  function Step(p: Params, s: SeriesState): SeriesState
    requires p.Valid()
  {
    Accumulate(Advance(p, s))
  }

  /**
   * The stopping test |l / result| > 1e-16 of the original method, in a form without division.
   * Before the first step (j = 0) l is the largest double, which passes the test against every
   * finite running sum. Afterwards, for a nonzero running sum the two forms agree; for a zero
   * running sum the double quotient is infinite when l is nonzero (the series goes on) and NaN
   * when l is zero (the comparison is false and it stops), which is what
   * |l| > 1e-16 * |result| says as well.
   */
  predicate Continues(s: SeriesState) {
    s.j == 0 || Abs(s.l) > SeriesError * Abs(s.result)
  }

  /** Steps from s while the test passes and fewer than fuel steps have been taken. */
  function Run(p: Params, s: SeriesState, fuel: nat): SeriesState
    requires p.Valid()
    decreases fuel - s.j
  {
    if Continues(s) && s.j < fuel then Run(p, Step(p, s), fuel) else s
  }

  /** A run from a state that passes the test, with fuel left, goes on from the next state t. */
  lemma RunNext(p: Params, s: SeriesState, t: SeriesState, fuel: nat)
    requires p.Valid() && Continues(s) && s.j < fuel && t == Step(p, s)
    ensures Run(p, s, fuel) == Run(p, t, fuel)
  {
  }

  /** A run from a state that fails the test, or has used up the fuel, takes no step. */
  lemma RunStops(p: Params, s: SeriesState, fuel: nat)
    requires p.Valid() && !(Continues(s) && s.j < fuel)
    ensures Run(p, s, fuel) == s
  {
  }

  /** The value the original method returns, with the series cut off after at most fuel steps. */
  function SeriesValue(p: Params, fuel: nat): real
    requires p.Valid()
  {
    Run(p, Start(p), fuel).result
  }

  /**
   * The body of the series loop: h and g move on by one Poisson term, a by one factor, and the
   * new last term l = a * g is added to the running sum. (The last term before the step does not
   * enter the computation; it is a parameter only to name the state the step starts from.)
   */
  method NextTerm(p: Params, h: real, g: real, a: real, ghost l: real, result: real, j: nat)
    returns (h': real, g': real, a': real, l': real, result': real)
    requires p.Valid()
    ensures SeriesState(h', g', a', l', result', j + 1) == Step(p, SeriesState(h, g, a, l, result, j))
  {
    h' := h * (p.thr / (p.n + j) as real);
    g' := g + h';
    a' := a * Ratio(p.xbar, p.k, j);
    l' := a' * g';
    result' := result + l';
  }

  /**
   * The series loop of the original method: from the running sum a(0) * g, one step per
   * iteration until the stopping test fails (or fuel steps have been taken).
   */
  method SeriesLoop(p: Params, g0: real, h0: real, fuel: nat) returns (result: real)
    requires p.Valid()
    ensures result == Run(p, SeriesState(h0, g0, p.a0, 0.0, p.a0 * g0, 0), fuel).result
  {
    var g, h, a := g0, h0, p.a0;
    result := a * g;
    var l := 0.0;
    var j: nat := 0;
    ghost var final := Run(p, SeriesState(h0, g0, p.a0, 0.0, p.a0 * g0, 0), fuel);
    assert SeriesState(h, g, a, l, result, j) == SeriesState(h0, g0, p.a0, 0.0, p.a0 * g0, 0);
    while Continues(SeriesState(h, g, a, l, result, j)) && j < fuel
      invariant Run(p, SeriesState(h, g, a, l, result, j), fuel) == final
      decreases fuel - j
    {
      ghost var s := SeriesState(h, g, a, l, result, j);
      h, g, a, l, result := NextTerm(p, h, g, a, l, result, j);
      j := j + 1;
      RunNext(p, s, SeriesState(h, g, a, l, result, j), fuel);
    }
    RunStops(p, SeriesState(h, g, a, l, result, j), fuel);
  }

  /**
   * The original method: xbar = snr * n, the Poisson loop, the initial amplitude, then the
   * series loop.
   */
  method Evaluate(math: Transcendentals, thr: real, n: int, k: int, snr: real, fuel: nat) returns (result: real)
    requires n >= 1 && k >= 1
    requires k == NonFluctuating || 1.0 + snr * n as real / k as real != 0.0
    ensures result == SeriesValue(Setup(math, thr, n, k, snr), fuel)
  {
    var xBar := snr * n as real;
    var e := math.exp(-thr);
    var g, h := PoissonG(e, thr, n);
    var a: real;
    if k == NonFluctuating {
      a := math.exp(-xBar);
    } else {
      a := math.pow(1.0 + xBar / k as real, -(k as real));
    }
    var p := Params(thr, n, k, xBar, e, a);
    assert p == Setup(math, thr, n, k, snr);
    assert h == Term(p.e, p.thr, p.n - 1) && g == Sum(p.e, p.thr, p.n);
    assert SeriesState(h, g, p.a0, 0.0, p.a0 * g, 0) == Start(p);
    result := SeriesLoop(p, g, h, fuel);
  }
}
