/**
 * The closed forms behind the recurrences of the Mitchell-Walker series.
 *
 * The series loop of module MitchellWalker only multiplies and adds. Here it is shown to compute
 * what the paper defines:
 *   g(m, t) = e * sum_{i < m} t^i / i!  with e = e^-t  (the Poisson sum; h is its last term),
 *   a(j)    = a(0) * xbar^j / j!  for a nonfluctuating target (Poisson weights),
 *   a(j)    = a(0) * q^j * K (K + 1) ... (K + j - 1) / j!  with q = xbar / (K + xbar), for K
 *             degrees of freedom (negative binomial weights),
 * and the value returned is the partial sum  sum_{j <= s} a(j) * g(n + j, thr)  where s is the
 * first index at which the stopping test fails.
 */
module SeriesForms {
  import opened Reals
  import opened MitchellWalker

  // ---------------------------------------------------------------------------------------
  // The Poisson sum

  /** The Poisson sum written out term by term: e * sum_{i < m} t^i / i!. */
  function PoissonSum(e: real, t: real, m: nat): real {
    if m == 0 then 0.0 else PoissonSum(e, t, m - 1) + e * Power(t, m - 1) / Fact(m - 1)
  }

  /** The update of h from i to i + 1 multiplies it by t / (i + 1). */
  lemma TermSucc(e: real, t: real, i: nat)
    ensures Term(e, t, i + 1) == Term(e, t, i) * (t / (i + 1) as real)
  {
  }

  /** The update of h from i to j = i + 1 multiplies it by t / j. */
  lemma TermNext(e: real, t: real, i: nat, j: nat)
    requires j == i + 1
    ensures Term(e, t, j) == Term(e, t, i) * (t / j as real)
  {
    TermSucc(e, t, i);
  }

  /** g gains the term h from i to j = i + 1. */
  lemma SumNext(e: real, t: real, i: nat, j: nat)
    requires j == i + 1
    ensures Sum(e, t, j) == Sum(e, t, i) + Term(e, t, i)
  {
  }

  /** h after i updates, times i!, is e * t^i. */
  lemma {:induction false} TermTimesFact(e: real, t: real, i: nat)
    ensures Term(e, t, i) * Fact(i) == e * Power(t, i)
  {
    if i > 0 {
      var h := i - 1;
      TermTimesFact(e, t, h);
      TermNext(e, t, h, i);
      PowerNext(t, h, i);
      FactNext(h, i);
      CancelQuotient(Term(e, t, h), t, i as real, Fact(h));
      MoveFactor(e, t, Power(t, h));
    }
  }

  /** h after i updates is the i-th Poisson term e * t^i / i!. */
  lemma TermClosedForm(e: real, t: real, i: nat)
    ensures Term(e, t, i) == e * Power(t, i) / Fact(i)
  {
    TermTimesFact(e, t, i);
    Quotient(e * Power(t, i), Fact(i), Term(e, t, i));
  }

  /** g after m terms is the Poisson sum of the first m terms. */
  lemma {:induction false} SumClosedForm(e: real, t: real, m: nat)
    ensures Sum(e, t, m) == PoissonSum(e, t, m)
  {
    if m > 0 {
      SumClosedForm(e, t, m - 1);
      TermClosedForm(e, t, m - 1);
    }
  }

  /** The loop that builds g(n, thr) computes the Poisson sum of n terms, ending on the (n - 1)-th term. */
  lemma PoissonGClosedForm(e: real, thr: real, n: int)
    requires n >= 1
    ensures Term(e, thr, n - 1) == e * Power(thr, n - 1) / Fact(n - 1)
    ensures Sum(e, thr, n) == PoissonSum(e, thr, n)
  {
    TermClosedForm(e, thr, n - 1);
    SumClosedForm(e, thr, n);
  }

  // ---------------------------------------------------------------------------------------
  // The amplitudes

  /** The amplitude from i to i + 1 is multiplied by Ratio(xbar, K, i). */
  lemma AmplitudeSucc(a0: real, xbar: real, k: int, i: nat)
    requires k >= 1
    ensures Amplitude(a0, xbar, k, i + 1) == Amplitude(a0, xbar, k, i) * Ratio(xbar, k, i)
  {
  }

  /** The amplitude from i to j = i + 1 is multiplied by Ratio(xbar, K, i). */
  lemma AmplitudeNext(a0: real, xbar: real, k: int, i: nat, j: nat)
    requires k >= 1 && j == i + 1
    ensures Amplitude(a0, xbar, k, j) == Amplitude(a0, xbar, k, i) * Ratio(xbar, k, i)
  {
    AmplitudeSucc(a0, xbar, k, i);
  }

  /** For a nonfluctuating target the factor from i to j = i + 1 is xbar / j. */
  lemma PoissonRatio(xbar: real, i: nat, j: nat)
    requires j == i + 1
    ensures Ratio(xbar, NonFluctuating, i) == xbar / j as real
  {
  }

  /** For a nonfluctuating target the amplitude follows the same recurrence as h. */
  lemma {:induction false} NonfluctuatingAmplitude(a0: real, xbar: real, j: nat)
    ensures Amplitude(a0, xbar, NonFluctuating, j) == Term(a0, xbar, j)
  {
    if j > 0 {
      var i := j - 1;
      NonfluctuatingAmplitude(a0, xbar, i);
      AmplitudeNext(a0, xbar, NonFluctuating, i, j);
      PoissonRatio(xbar, i, j);
      TermNext(a0, xbar, i, j);
    }
  }

  /** So a nonfluctuating target has the Poisson weights a(j) = a(0) * xbar^j / j!. */
  lemma NonfluctuatingClosedForm(a0: real, xbar: real, j: nat)
    ensures Amplitude(a0, xbar, NonFluctuating, j) == a0 * Power(xbar, j) / Fact(j)
  {
    NonfluctuatingAmplitude(a0, xbar, j);
    TermClosedForm(a0, xbar, j);
  }

  /** K + i, as a real: the i-th factor of the rising factorial. */
  function Shift(k: int, i: nat): real {
    (k + i) as real
  }

  /** K (K + 1) ... (K + j - 1), the rising factorial. */
  function Rising(k: int, j: nat): real {
    if j == 0 then 1.0 else Rising(k, j - 1) * Shift(k, j - 1)
  }

  /** The rising factorial from i to j = i + 1 gains the factor K + i. */
  lemma RisingNext(k: int, i: nat, j: nat)
    requires j == i + 1
    ensures Rising(k, j) == Rising(k, i) * Shift(k, i)
  {
  }

  /** (K + i) q, the growth of the negative binomial weights from i to i + 1, before dividing by i + 1. */
  function Growth(k: int, q: real, i: nat): real {
    Shift(k, i) * q
  }

  /** The original method divides by 1 + xbar / K, which is zero exactly at xbar = -K. */
  lemma SingularPoint(xbar: real, k: int)
    requires k >= 1
    ensures 1.0 + xbar / k as real == 0.0 <==> xbar == -(k as real)
  {
    OnePlusQuotient(xbar, k as real);
    if (k as real + xbar) / k as real == 0.0 {
      Quotient(k as real + xbar, k as real, 0.0);
    }
  }

  /** The amplitude factor in plain variables: u = 1 + i / K, w = 1 + xbar / K, q = xbar / (K + xbar). */
  lemma RatioCore(xbar: real, kr: real, jr: real, q: real, u: real, w: real)
    requires kr != 0.0 && w != 0.0
    requires u * kr == kr + jr && w * kr == kr + xbar && q * (kr + xbar) == xbar
    ensures xbar * u / w == q * (kr + jr)
  {
    assert q * (kr + jr) * w * kr == xbar * u * kr;
    Quotient(xbar * u, w, q * (kr + jr));
  }

  /** With q = xbar / (K + xbar), the amplitude factor from i to j = i + 1 times j is (K + i) q. */
  lemma FluctuatingRatio(xbar: real, k: int, i: nat, j: nat, q: real)
    requires k >= 1 && k != NonFluctuating && q * (k as real + xbar) == xbar && j == i + 1
    ensures Ratio(xbar, k, i) * j as real == Growth(k, q, i)
  {
    var kr, jr := k as real, i as real;
    var u, w := 1.0 + jr / kr, 1.0 + xbar / kr;
    DivMul(jr, kr);
    DivMul(xbar, kr);
    assert w * kr == kr + xbar;
    assert kr + xbar != 0.0;
    RatioCore(xbar, kr, jr, q, u, w);
    DivMul(xbar * u / w, (1 + i) as real);
  }

  /** The same factor as a quotient: (K + i) q / j. */
  lemma FluctuatingFactor(xbar: real, k: int, i: nat, j: nat, q: real)
    requires k >= 1 && k != NonFluctuating && q * (k as real + xbar) == xbar && j == i + 1
    ensures Ratio(xbar, k, i) == Growth(k, q, i) / j as real
  {
    FluctuatingRatio(xbar, k, i, j, q);
    Quotient(Growth(k, q, i), j as real, Ratio(xbar, k, i));
  }

  /**
   * The negative binomial weights with parameter q for K degrees of freedom, scaled to start at
   * a0, by their recurrence: the weight from i to j = i + 1 is multiplied by (K + i) q / j.
   */
  function NegBinomial(a0: real, q: real, k: int, j: nat): real {
    if j == 0 then a0 else NegBinomial(a0, q, k, j - 1) * (Growth(k, q, j - 1) / j as real)
  }

  /** The weight from i to j = i + 1 is multiplied by (K + i) q / j. */
  lemma NegBinomialNext(a0: real, q: real, k: int, i: nat, j: nat)
    requires j == i + 1
    ensures NegBinomial(a0, q, k, j) == NegBinomial(a0, q, k, i) * (Growth(k, q, i) / j as real)
  {
  }

  /** a0 * q^j * K (K + 1) ... (K + j - 1), the numerator of the closed form of the weights. */
  function Numerator(a0: real, q: real, k: int, j: nat): real {
    a0 * Power(q, j) * Rising(k, j)
  }

  /** The numerator from i to j = i + 1 gains the factor (K + i) q. */
  lemma NumeratorNext(a0: real, q: real, k: int, i: nat, j: nat)
    requires j == i + 1
    ensures Numerator(a0, q, k, j) == Numerator(a0, q, k, i) * Growth(k, q, i)
  {
    PowerNext(q, i, j);
    RisingNext(k, i, j);
  }

  /** The weights in closed form: w(j) * j! = a0 * q^j * K (K + 1) ... (K + j - 1). */
  lemma {:induction false} NegBinomialClosedForm(a0: real, q: real, k: int, j: nat)
    ensures NegBinomial(a0, q, k, j) * Fact(j) == Numerator(a0, q, k, j)
  {
    if j > 0 {
      var i := j - 1;
      NegBinomialClosedForm(a0, q, k, i);
      NegBinomialNext(a0, q, k, i, j);
      FactNext(i, j);
      NumeratorNext(a0, q, k, i, j);
      ProductStep(NegBinomial(a0, q, k, j), Fact(j), Numerator(a0, q, k, j),
        NegBinomial(a0, q, k, i), Fact(i), Numerator(a0, q, k, i), Growth(k, q, i), j as real);
    }
  }

  /** If w * f = x, then w gaining the factor g / d and f the factor d makes x gain the factor g. */
  lemma ProductStep(w': real, f': real, x': real, w: real, f: real, x: real, g: real, d: real)
    requires d != 0.0 && w * f == x
    requires w' == w * (g / d) && f' == d * f && x' == x * g
    ensures w' * f' == x'
  {
    CancelQuotient(w, g, d, f);
  }

  /**
   * For K degrees of freedom the amplitudes are the negative binomial weights with
   * q = xbar / (K + xbar).
   */
  lemma {:induction false} FluctuatingAmplitude(a0: real, xbar: real, k: int, q: real, j: nat)
    requires k >= 1 && k != NonFluctuating && q * (k as real + xbar) == xbar
    ensures Amplitude(a0, xbar, k, j) == NegBinomial(a0, q, k, j)
  {
    if j > 0 {
      var i := j - 1;
      FluctuatingAmplitude(a0, xbar, k, q, i);
      AmplitudeNext(a0, xbar, k, i, j);
      FluctuatingFactor(xbar, k, i, j, q);
      NegBinomialNext(a0, q, k, i, j);
    }
  }

  // ---------------------------------------------------------------------------------------
  // The series

  /** The j-th term of the series, a(j) * g(n + j, thr). */
  function SeriesTerm(p: Params, j: nat): real
    requires p.Valid()
  {
    Amplitude(p.a0, p.xbar, p.k, j) * Sum(p.e, p.thr, p.n + j)
  }

  /** The sum of the terms 0 .. j of the series. */
  function PartialSum(p: Params, j: nat): real
    requires p.Valid()
  {
    if j == 0 then SeriesTerm(p, 0) else PartialSum(p, j - 1) + SeriesTerm(p, j)
  }

  /** The value of l after j steps: the last term added (0 before the first step). */
  function LastTerm(p: Params, j: nat): real
    requires p.Valid()
  {
    if j == 0 then 0.0 else SeriesTerm(p, j)
  }

  /**
   * The state of the series loop after m steps, in closed form: h is term n + m - 1 of the
   * Poisson sum, g is g(n + m), a is a(m), l is the m-th term of the series and the running sum
   * holds the terms 0 .. m.
   */
  function Closed(p: Params, m: nat): SeriesState
    requires p.Valid()
  {
    SeriesState(Term(p.e, p.thr, p.n + m - 1), Sum(p.e, p.thr, p.n + m), Amplitude(p.a0, p.xbar, p.k, m),
      LastTerm(p, m), PartialSum(p, m), m)
  }

  /** The loop starts in the closed-form state for 0 steps. */
  lemma StartClosed(p: Params)
    requires p.Valid()
    ensures Start(p) == Closed(p, 0)
  {
  }

  /** One step moves h on by one Poisson term. */
  lemma StepTerm(p: Params, m: nat)
    requires p.Valid()
    ensures Step(p, Closed(p, m)).h == Term(p.e, p.thr, p.n + m)
  {
    TermNext(p.e, p.thr, p.n + m - 1, p.n + m);
  }

  /** One step moves g on by one Poisson term. */
  lemma StepSum(p: Params, m: nat)
    requires p.Valid()
    ensures Step(p, Closed(p, m)).g == Sum(p.e, p.thr, p.n + m + 1)
  {
    StepTerm(p, m);
    SumNext(p.e, p.thr, p.n + m, p.n + m + 1);
  }

  /** One step moves the amplitude on by one factor. */
  lemma StepAmplitude(p: Params, m: nat)
    requires p.Valid()
    ensures Step(p, Closed(p, m)).a == Amplitude(p.a0, p.xbar, p.k, m + 1)
  {
    AmplitudeSucc(p.a0, p.xbar, p.k, m);
  }

  /** One step of the loop takes the closed-form state for m steps to the one for m + 1 steps. */
  lemma StepClosed(p: Params, m: nat)
    requires p.Valid()
    ensures Step(p, Closed(p, m)) == Closed(p, m + 1)
  {
    StepTerm(p, m);
    StepSum(p, m);
    StepAmplitude(p, m);
  }

  /** The stopping test on the closed forms: always before the first step, then |term| > 1e-16 |sum|. */
  predicate Passes(p: Params, j: nat)
    requires p.Valid()
  {
    j == 0 || Abs(SeriesTerm(p, j)) > SeriesError * Abs(PartialSum(p, j))
  }

  /** The loop's test on the state after j steps is the test on the closed forms. */
  lemma ContinuesIffPasses(p: Params, j: nat)
    requires p.Valid()
    ensures Continues(Closed(p, j)) <==> Passes(p, j)
  {
  }

  /** The number of steps the loop takes from step j before the test fails or fuel steps are done. */
  function StopIndex(p: Params, j: nat, fuel: nat): nat
    requires p.Valid()
    decreases fuel - j
  {
    if Passes(p, j) && j < fuel then StopIndex(p, j + 1, fuel) else j
  }

  /** The stopping index is the first index from j at which the test fails, unless fuel runs out first. */
  lemma {:induction false} StopIndexIsFirst(p: Params, j: nat, fuel: nat)
    requires p.Valid()
    ensures var s := StopIndex(p, j, fuel);
      j <= s && (j <= fuel ==> s <= fuel)
      && (s < fuel ==> !Passes(p, s))
      && forall i :: j <= i < s ==> Passes(p, i)
    decreases fuel - j
  {
    if Passes(p, j) && j < fuel {
      StopIndexIsFirst(p, j + 1, fuel);
    }
  }

  /** Running the loop from the state after j steps ends in the state after StopIndex steps. */
  lemma {:induction false} RunClosed(p: Params, j: nat, fuel: nat)
    requires p.Valid()
    ensures Run(p, Closed(p, j), fuel) == Closed(p, StopIndex(p, j, fuel))
    decreases fuel - j
  {
    ContinuesIffPasses(p, j);
    if Passes(p, j) && j < fuel {
      StepClosed(p, j);
      RunNext(p, Closed(p, j), Closed(p, j + 1), fuel);
      RunClosed(p, j + 1, fuel);
    } else {
      RunStops(p, Closed(p, j), fuel);
    }
  }

  /**
   * The value of the series is the partial sum up to the first index s at which the last term is
   * at most 1e-16 of the running sum (or s = fuel); every earlier term passed the test.
   */
  lemma SeriesValueIsPartialSum(p: Params, fuel: nat)
    requires p.Valid()
    ensures var s := StopIndex(p, 0, fuel);
      SeriesValue(p, fuel) == PartialSum(p, s) && s <= fuel
      && (s < fuel ==> !Passes(p, s))
      && forall i :: 0 <= i < s ==> Passes(p, i)
  {
    StartClosed(p);
    RunClosed(p, 0, fuel);
    StopIndexIsFirst(p, 0, fuel);
  }

  // ---------------------------------------------------------------------------------------
  // The value in closed form

  /** The negative binomial ratio q = xbar / (K + xbar), defined away from the singular point. */
  function Odds(xbar: real, k: int): (q: real)
    requires k >= 1 && 1.0 + xbar / k as real != 0.0
    ensures q * (k as real + xbar) == xbar
  {
    SingularPoint(xbar, k);
    xbar / (k as real + xbar)
  }

  /**
   * The amplitude a(j) in closed form: a0 * xbar^j / j! for a nonfluctuating target, and
   * a0 * q^j * K (K + 1) ... (K + j - 1) / j! with q = xbar / (K + xbar) otherwise.
   */
  function Weight(a0: real, xbar: real, k: int, j: nat): real
    requires k >= 1 && (k == NonFluctuating || 1.0 + xbar / k as real != 0.0)
  {
    if k == NonFluctuating then a0 * Power(xbar, j) / Fact(j)
    else Numerator(a0, Odds(xbar, k), k, j) / Fact(j)
  }

  /** The j-th term in closed form: Weight(j) * e * sum_{i < n + j} thr^i / i!. */
  function ClosedTerm(a0: real, xbar: real, k: int, e: real, thr: real, n: nat, j: nat): real
    requires k >= 1 && (k == NonFluctuating || 1.0 + xbar / k as real != 0.0)
  {
    Weight(a0, xbar, k, j) * PoissonSum(e, thr, n + j)
  }

  /** The sum of the closed-form terms 0 .. s. */
  function ClosedSeries(a0: real, xbar: real, k: int, e: real, thr: real, n: nat, s: nat): real
    requires k >= 1 && (k == NonFluctuating || 1.0 + xbar / k as real != 0.0)
  {
    if s == 0 then ClosedTerm(a0, xbar, k, e, thr, n, 0)
    else ClosedSeries(a0, xbar, k, e, thr, n, s - 1) + ClosedTerm(a0, xbar, k, e, thr, n, s)
  }

  /** Away from the singular point xbar = -K the amplitudes are the closed-form weights. */
  lemma AmplitudeClosedForm(a0: real, xbar: real, k: int, j: nat)
    requires k >= 1 && (k == NonFluctuating || 1.0 + xbar / k as real != 0.0)
    ensures Amplitude(a0, xbar, k, j) == Weight(a0, xbar, k, j)
  {
    if k == NonFluctuating {
      NonfluctuatingClosedForm(a0, xbar, j);
    } else {
      var q := Odds(xbar, k);
      FluctuatingAmplitude(a0, xbar, k, q, j);
      NegBinomialClosedForm(a0, q, k, j);
      Quotient(Numerator(a0, q, k, j), Fact(j), NegBinomial(a0, q, k, j));
    }
  }

  /** The j-th term of the series in closed form. */
  lemma SeriesTermClosedForm(p: Params, j: nat)
    requires p.Valid() && (p.k == NonFluctuating || 1.0 + p.xbar / p.k as real != 0.0)
    ensures SeriesTerm(p, j) == ClosedTerm(p.a0, p.xbar, p.k, p.e, p.thr, p.n, j)
  {
    var m := p.n + j;
    AmplitudeClosedForm(p.a0, p.xbar, p.k, j);
    SumClosedForm(p.e, p.thr, m);
  }

  /** The partial sums of the series in closed form. */
  lemma {:induction false} PartialSumClosedForm(p: Params, s: nat)
    requires p.Valid() && (p.k == NonFluctuating || 1.0 + p.xbar / p.k as real != 0.0)
    ensures PartialSum(p, s) == ClosedSeries(p.a0, p.xbar, p.k, p.e, p.thr, p.n, s)
  {
    SeriesTermClosedForm(p, s);
    if s > 0 {
      PartialSumClosedForm(p, s - 1);
    }
  }

  /**
   * `mitchell_walker(snr)` in closed form. With xbar = snr * n, the value is
   * sum_{j <= s} a(j) * e^-thr * sum_{i < n + j} thr^i / i!, where a(j) is
   * exp(-xbar) * xbar^j / j! for a nonfluctuating target and the negative binomial weight
   * (1 + xbar / K)^-K * q^j * K (K + 1) ... (K + j - 1) / j! with q = xbar / (K + xbar) for K
   * degrees of freedom, and s is the first index whose term fails the stopping test.
   */
  lemma SeriesValueClosedForm(math: Transcendentals, thr: real, n: int, k: int, snr: real, fuel: nat)
    requires n >= 1 && k >= 1
    requires k == NonFluctuating || 1.0 + snr * n as real / k as real != 0.0
    ensures var xbar := snr * n as real;
      var a0 := if k == NonFluctuating then math.exp(-xbar) else math.pow(1.0 + xbar / k as real, -(k as real));
      var p := Setup(math, thr, n, k, snr);
      SeriesValue(p, fuel) == ClosedSeries(a0, xbar, k, math.exp(-thr), thr, n, StopIndex(p, 0, fuel))
  {
    var p := Setup(math, thr, n, k, snr);
    SeriesValueIsPartialSum(p, fuel);
    PartialSumClosedForm(p, StopIndex(p, 0, fuel));
  }
}
