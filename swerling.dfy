/**
 * The four Swerling fluctuation cases, each a chi-square model whose degrees of freedom K are
 * fixed by the case and the number of pulses n: 1 and 2 for the slowly fluctuating cases 1
 * and 3, n and 2n for the pulse-to-pulse cases 2 and 4.
 */
module Swerlings {
  import opened Outcomes
  import opened Probabilities
  import opened MitchellWalker
  import C = ChiSquares

  /** The four fluctuation cases. */
  datatype Case = Swerling1 | Swerling2 | Swerling3 | Swerling4

  /** The 32-bit signed integers. */
  predicate IsInt32(x: int) {
    -0x8000_0000 <= x < 0x8000_0000
  }

  /** 32-bit two's complement wrap-around of an integer result. */
  function Wrap32(x: int): (r: int)
    ensures IsInt32(r)
    ensures IsInt32(x) ==> r == x
    ensures (r - x) % 0x1_0000_0000 == 0
  {
    (x + 0x8000_0000) % 0x1_0000_0000 - 0x8000_0000
  }

  /** The most pulses for which 2n fits in a 32-bit int and n differs from the nonfluctuating mark. */
  const MaxPulses: int := 0x3fff_ffff

  /**
   * `getK`: the degrees of freedom of a case for n pulses; 2n is a 32-bit product. For
   * 1 <= n <= MaxPulses every case gives at least one degree of freedom, and none gives the
   * value that marks a nonfluctuating target.
   */
  function GetK(n: int, c: Case): (k: int)
    requires IsInt32(n)
    ensures IsInt32(k)
    ensures 1 <= n <= MaxPulses ==> 1 <= k < NonFluctuating
  {
    match c
    case Swerling1 => 1
    case Swerling2 => n
    case Swerling3 => 2
    case Swerling4 => Wrap32(2 * n)
  }

  /** Cases 1 and 3 do not depend on n: K = 1 and K = 2. */
  lemma SlowCasesIgnorePulses(n: int, n': int)
    requires IsInt32(n) && IsInt32(n')
    ensures GetK(n, Swerling1) == GetK(n', Swerling1) == 1
    ensures GetK(n, Swerling3) == GetK(n', Swerling3) == 2
  {
  }

  /** Cases 2 and 4 grow with n: K = n and K = 2n, as long as 2n fits in 32 bits. */
  lemma FastCasesFollowPulses(n: int)
    requires 1 <= n <= MaxPulses
    ensures GetK(n, Swerling2) == n
    ensures GetK(n, Swerling4) == 2 * n
  {
  }

  /** Outside that range the table misbehaves: 2n wraps to a negative K, and n = MAX_VALUE reads as nonfluctuating. */
  lemma KOutOfRange()
    ensures GetK(MaxPulses + 1, Swerling4) == -0x8000_0000
    ensures GetK(NonFluctuating, Swerling2) == NonFluctuating
  {
  }

  /** A Swerling model: the chi-square model for its K, and the case it was built for. */
  datatype Swerling = Swerling(model: C.ChiSquare, swCase: Case) {
    function GetSnr(): real { model.snr }
    function GetPd(): Probability { model.pd }
    function GetThr(): real { model.thr }
    function GetPfa(): Probability { model.pfa }
    function GetN(): int { model.n }
    function GetSwerlingCase(): Case { swCase }
  }

  /** The (snr, thr) constructor: the chi-square model for K = getK(n, case). */
  function FromSnrThr(env: C.Environment, snr: real, thr: real, n: int, c: Case): (r: Result<Swerling>)
    requires 1 <= n <= MaxPulses
    ensures var m := C.FromSnrThr(env, snr, thr, n, GetK(n, c));
      (r.Ok? <==> m.Ok?) && (r.Ok? ==> r.value.model == m.value) && (r.Err? ==> r.error == m.error)
  {
    var model :- C.FromSnrThr(env, snr, thr, n, GetK(n, c));
    Ok(Swerling(model, c))
  }

  /** The (snr, pfa) constructor. */
  function FromSnrPfa(env: C.Environment, snr: real, pfa: Probability, n: int, c: Case): (r: Result<Swerling>)
    requires 1 <= n <= MaxPulses
    ensures var m := C.FromSnrPfa(env, snr, pfa, n, GetK(n, c));
      (r.Ok? <==> m.Ok?) && (r.Ok? ==> r.value.model == m.value) && (r.Err? ==> r.error == m.error)
  {
    var model :- C.FromSnrPfa(env, snr, pfa, n, GetK(n, c));
    Ok(Swerling(model, c))
  }

  /** The (pd, thr) constructor. */
  function FromPdThr(env: C.Environment, pd: Probability, thr: real, n: int, c: Case): (r: Result<Swerling>)
    requires 1 <= n <= MaxPulses
    ensures var m := C.FromPdThr(env, pd, thr, n, GetK(n, c));
      (r.Ok? <==> m.Ok?) && (r.Ok? ==> r.value.model == m.value) && (r.Err? ==> r.error == m.error)
  {
    var model :- C.FromPdThr(env, pd, thr, n, GetK(n, c));
    Ok(Swerling(model, c))
  }

  /** The (pd, pfa) constructor. */
  function FromPdPfa(env: C.Environment, pd: Probability, pfa: Probability, n: int, c: Case): (r: Result<Swerling>)
    requires 1 <= n <= MaxPulses
    ensures var m := C.FromPdPfa(env, pd, pfa, n, GetK(n, c));
      (r.Ok? <==> m.Ok?) && (r.Ok? ==> r.value.model == m.value) && (r.Err? ==> r.error == m.error)
  {
    var model :- C.FromPdPfa(env, pd, pfa, n, GetK(n, c));
    Ok(Swerling(model, c))
  }

  // ---------------------------------------------------------------------------------------
  // What the getters of a built model return

  /**
   * Built from snr and thr: the getters give back snr, thr, n and the case, the false-alarm
   * probability of the noise model, and the detection series at K = getK(n, case).
   */
  lemma SnrThrGetters(env: C.Environment, snr: real, thr: real, n: int, c: Case)
    requires 1 <= n <= MaxPulses
    ensures var r := FromSnrThr(env, snr, thr, n, c);
      r.Ok? ==>
        && r.value.GetSnr() == snr && r.value.GetThr() == thr && r.value.GetN() == n
        && r.value.GetSwerlingCase() == c && r.value.model.k == GetK(n, c)
        && env.noisePfa(n, thr) == Ok(r.value.GetPfa())
        && r.value.GetPd() == C.Series(env, thr, n, GetK(n, c), snr)
  {
  }

  /** Built from snr and pfa: the getters give back snr, pfa, n and the case, and the threshold of the noise model. */
  lemma SnrPfaGetters(env: C.Environment, snr: real, pfa: Probability, n: int, c: Case)
    requires 1 <= n <= MaxPulses
    ensures var r := FromSnrPfa(env, snr, pfa, n, c);
      r.Ok? ==>
        && r.value.GetSnr() == snr && r.value.GetPfa() == pfa && r.value.GetN() == n
        && r.value.GetSwerlingCase() == c && r.value.model.k == GetK(n, c)
        && env.noiseThr(n, pfa) == Ok(r.value.GetThr())
        && r.value.GetPd() == C.Series(env, r.value.GetThr(), n, GetK(n, c), snr)
  {
  }

  /** Built from pd and thr: the getters give back pd, thr, n and the case, and the solver's snr. */
  lemma PdThrGetters(env: C.Environment, pd: Probability, thr: real, n: int, c: Case)
    requires 1 <= n <= MaxPulses
    ensures var r := FromPdThr(env, pd, thr, n, c);
      r.Ok? ==>
        && r.value.GetPd() == pd && r.value.GetThr() == thr && r.value.GetN() == n
        && r.value.GetSwerlingCase() == c && r.value.model.k == GetK(n, c)
        && env.noisePfa(n, thr) == Ok(r.value.GetPfa())
        && C.Snr(env, thr, n, GetK(n, c), pd) == Ok(r.value.GetSnr())
  {
  }

  /** Built from pd and pfa: the getters give back pd, pfa, n and the case, the noise model's threshold and the solver's snr. */
  lemma PdPfaGetters(env: C.Environment, pd: Probability, pfa: Probability, n: int, c: Case)
    requires 1 <= n <= MaxPulses
    ensures var r := FromPdPfa(env, pd, pfa, n, c);
      r.Ok? ==>
        && r.value.GetPd() == pd && r.value.GetPfa() == pfa && r.value.GetN() == n
        && r.value.GetSwerlingCase() == c && r.value.model.k == GetK(n, c)
        && env.noiseThr(n, pfa) == Ok(r.value.GetThr())
        && C.Snr(env, r.value.GetThr(), n, GetK(n, c), pd) == Ok(r.value.GetSnr())
  {
  }
}
