/**
 * The generic inverse solver: given a forward function f, a desired result y and an initial
 * guess, it grows a bracket around the guess at a factorial rate until y lies between the
 * values of f at the two bounds, then bisects that bracket down to a width of 1e-12.
 *
 * Solve is the loop-by-loop model of the original method; SolveSpec is the same computation
 * stated in closed form (the bounds after m rounds, the first bracketing round, the bisection
 * as a recursion), and the lemmas below state what the result means.
 */
module Solvers {
  import opened Outcomes
  import opened Reals

  /** The maximum width of the final bracket (1e-12). */
  const Tolerance: real := 0.000000000001

  /** Half the tolerance (5e-13): the most the returned midpoint can be from either final bound. */
  const HalfTolerance: real := Tolerance / 2.0

  function Pow2(k: nat): (r: real)
    ensures r >= 1.0
  {
    if k == 0 then 1.0 else 2.0 * Pow2(k - 1)
  }

  /** y lies between u and v, whichever of the two is larger. */
  predicate Between(y: real, u: real, v: real) {
    Min(u, v) <= y <= Max(u, v)
  }

  ghost predicate NonDecreasing(f: real -> real) {
    forall x, x' :: x <= x' ==> f(x) <= f(x')
  }

  ghost predicate NonIncreasing(f: real -> real) {
    forall x, x' :: x <= x' ==> f(x') <= f(x)
  }

  ghost predicate Monotone(f: real -> real) {
    NonDecreasing(f) || NonIncreasing(f)
  }

  ghost predicate StrictlyMonotone(f: real -> real) {
    (forall x, x' :: x < x' ==> f(x) < f(x')) || (forall x, x' :: x < x' ==> f(x') < f(x))
  }

  // ---------------------------------------------------------------------------------------
  // Bracket search

  /** The lower bound after m rounds: round m divides the previous one by m + 1. */
  function LowerBound(guess: real, m: nat): real {
    if m == 0 then guess else LowerBound(guess, m - 1) / (m + 1) as real
  }

  /** The upper bound after m rounds: round m multiplies the previous one by m + 1. */
  function UpperBound(guess: real, m: nat): real {
    if m == 0 then guess else UpperBound(guess, m - 1) * (m + 1) as real
  }

  /** After m rounds the lower bound is the guess divided by (m + 1)!. */
  lemma {:induction false} LowerBoundClosedForm(guess: real, m: nat)
    ensures LowerBound(guess, m) == guess / Fact(m + 1)
  {
    if m > 0 {
      LowerBoundClosedForm(guess, m - 1);
      DivideTwice(guess, Fact(m), (m + 1) as real);
    }
  }

  /** After m rounds the upper bound is the guess multiplied by (m + 1)!. */
  lemma {:induction false} UpperBoundClosedForm(guess: real, m: nat)
    ensures UpperBound(guess, m) == guess * Fact(m + 1)
  {
    if m > 0 {
      UpperBoundClosedForm(guess, m - 1);
    }
  }

  /** Round m ends the search: y is neither above both values nor below both. */
  predicate FoundAt(f: real -> real, y: real, guess: real, m: nat) {
    Between(y, f(LowerBound(guess, m)), f(UpperBound(guess, m)))
  }

  /** The first round in [m, fuel] that ends the search, if any. */
  function FirstRound(f: real -> real, y: real, guess: real, m: nat, fuel: nat): Option<nat>
    decreases fuel + 1 - m
  {
    if m > fuel then None
    else if FoundAt(f, y, guess, m) then Some(m)
    else FirstRound(f, y, guess, m + 1, fuel)
  }

  /**
   * The search stops at the first round that brackets y and at no earlier one; it finds
   * nothing exactly when no round up to fuel brackets y.
   */
  lemma {:induction false} FirstRoundIsFirst(f: real -> real, y: real, guess: real, m: nat, fuel: nat)
    ensures var r := FirstRound(f, y, guess, m, fuel);
      && (r.Some? ==> m <= r.value <= fuel && FoundAt(f, y, guess, r.value))
      && (r.Some? ==> forall k :: m <= k < r.value ==> !FoundAt(f, y, guess, k))
      && (r.None? <==> forall k :: m <= k <= fuel ==> !FoundAt(f, y, guess, k))
    decreases fuel + 1 - m
  {
    if m <= fuel && !FoundAt(f, y, guess, m) {
      FirstRoundIsFirst(f, y, guess, m + 1, fuel);
    }
  }

  // ---------------------------------------------------------------------------------------
  // Bisection

  /**
   * The bracket invariant, oriented by the direction flag: for an increasing run y lies
   * between f(a) and f(b) in that order, for a decreasing run in the other order.
   */
  predicate Oriented(f: real -> real, y: real, increasing: bool, a: real, b: real) {
    if increasing then f(a) <= y <= f(b) else f(b) <= y <= f(a)
  }

  /** One bisection step: evaluate f at the midpoint and move the bound on the midpoint's side. */
  function Narrow(f: real -> real, y: real, increasing: bool, a: real, b: real): (real, real) {
    var updatedGuess := 0.5 * (a + b);
    var updatedResult := f(updatedGuess);
    if increasing then
      (if updatedResult > y then (a, updatedGuess) else (updatedGuess, b))
    else
      (if updatedResult < y then (a, updatedGuess) else (updatedGuess, b))
  }

  /**
   * A step replaces exactly one bound by the midpoint, halves the width and keeps the
   * bracket invariant, whatever f is.
   */
  lemma NarrowStep(f: real -> real, y: real, increasing: bool, a: real, b: real)
    ensures var r := Narrow(f, y, increasing, a, b);
      && ((r.0 == a && r.1 == (a + b) / 2.0) || (r.0 == (a + b) / 2.0 && r.1 == b))
      && Abs(r.0 - r.1) == Abs(a - b) / 2.0
      && (Oriented(f, y, increasing, a, b) ==> Oriented(f, y, increasing, r.0, r.1))
  {
  }

  lemma HalfFloorDecreases(w: real)
    requires w > Tolerance
    ensures 0 <= ((w / 2.0) / Tolerance).Floor < (w / Tolerance).Floor
  {
    var x := w / Tolerance;
    assert x > 1.0;
    assert (w / 2.0) / Tolerance == x / 2.0;
    assert (x / 2.0).Floor as real <= x / 2.0;
    assert x.Floor as real > x - 1.0;
    if x < 2.0 {
      assert (x / 2.0).Floor < 1;
      assert x.Floor >= 1;
    } else {
      assert x / 2.0 <= x - 1.0;
    }
  }

  /** The termination measure of bisection: how many tolerances fit in the bracket width. */
  function Steps(a: real, b: real): int {
    (Abs(a - b) / Tolerance).Floor
  }

  /** Bisection: Narrow steps until the width is at most the tolerance. */
  function Bisect(f: real -> real, y: real, increasing: bool, a: real, b: real): (real, real)
    decreases Steps(a, b)
  {
    if Abs(a - b) <= Tolerance then (a, b)
    else
      var next := Narrow(f, y, increasing, a, b);
      NarrowStep(f, y, increasing, a, b);
      HalfFloorDecreases(Abs(a - b));
      Bisect(f, y, increasing, next.0, next.1)
  }

  /**
   * The final bracket is no wider than the tolerance, lies inside the initial one and keeps
   * the bracket invariant.
   */
  lemma {:induction false} BisectBracket(f: real -> real, y: real, increasing: bool, a: real, b: real)
    ensures var r := Bisect(f, y, increasing, a, b);
      && Abs(r.0 - r.1) <= Tolerance
      && Min(a, b) <= Min(r.0, r.1) && Max(r.0, r.1) <= Max(a, b)
      && (Oriented(f, y, increasing, a, b) ==> Oriented(f, y, increasing, r.0, r.1))
    decreases Steps(a, b)
  {
    if Abs(a - b) > Tolerance {
      var next := Narrow(f, y, increasing, a, b);
      NarrowStep(f, y, increasing, a, b);
      HalfFloorDecreases(Abs(a - b));
      BisectBracket(f, y, increasing, next.0, next.1);
    }
  }

  /** The number of halvings that take a bracket of width w down to the tolerance. */
  function Halvings(w: real): nat
    requires w >= 0.0
    decreases (w / Tolerance).Floor
  {
    if w <= Tolerance then 0
    else
      HalfFloorDecreases(w);
      1 + Halvings(w / 2.0)
  }

  lemma HalvedWidth(w: real)
    requires w > Tolerance
    ensures Halvings(w) == 1 + Halvings(w / 2.0)
    ensures (w / 2.0) / Pow2(Halvings(w / 2.0)) == w / Pow2(Halvings(w))
  {
    var p := Pow2(Halvings(w / 2.0));
    assert Pow2(Halvings(w)) == 2.0 * p;
    assert (w / 2.0) / p == w / (2.0 * p);
  }

  /** Each bisection step halves the width: the final width is the initial one over 2^Halvings. */
  lemma {:induction false} BisectHalvesWidth(f: real -> real, y: real, increasing: bool, a: real, b: real)
    ensures var r := Bisect(f, y, increasing, a, b);
      Abs(r.0 - r.1) == Abs(a - b) / Pow2(Halvings(Abs(a - b)))
    decreases Steps(a, b)
  {
    var w := Abs(a - b);
    if w > Tolerance {
      var next := Narrow(f, y, increasing, a, b);
      NarrowStep(f, y, increasing, a, b);
      HalfFloorDecreases(w);
      BisectHalvesWidth(f, y, increasing, next.0, next.1);
      HalvedWidth(w);
    }
  }

  /** Above the tolerance, bisecting is one Narrow step followed by bisecting the rest. */
  lemma BisectUnfold(f: real -> real, y: real, increasing: bool, a: real, b: real)
    requires Abs(a - b) > Tolerance
    ensures var next := Narrow(f, y, increasing, a, b);
      Bisect(f, y, increasing, a, b) == Bisect(f, y, increasing, next.0, next.1)
      && Steps(next.0, next.1) < Steps(a, b)
  {
    NarrowStep(f, y, increasing, a, b);
    HalfFloorDecreases(Abs(a - b));
  }

  // ---------------------------------------------------------------------------------------
  // The whole solver

  /**
   * The solver's result in closed form: None when no round up to fuel brackets y (the
   * original keeps searching forever), else the midpoint of the bisected first bracket,
   * bisected in the direction given by comparing f at its two bounds.
   */
  function SolveSpec(f: real -> real, y: real, guess: real, fuel: nat): Option<real> {
    match FirstRound(f, y, guess, 1, fuel)
    case None => None
    case Some(m) =>
      var a, b := LowerBound(guess, m), UpperBound(guess, m);
      var bounds := Bisect(f, y, f(a) < f(b), a, b);
      Some(0.5 * (bounds.0 + bounds.1))
  }

  /** The oriented invariant is the bracket property with the bounds put in order. */
  lemma OrientedBetween(f: real -> real, y: real, a: real, b: real)
    requires Between(y, f(a), f(b))
    ensures Oriented(f, y, f(a) < f(b), a, b)
    ensures forall increasing: bool :: Oriented(f, y, increasing, a, b) ==> Between(y, f(a), f(b))
  {
  }

  /** For a monotone f, y lies between f just below and f just above the midpoint of a bracket. */
  lemma MidpointBracketsTarget(f: real -> real, y: real, a: real, b: real)
    requires Between(y, f(a), f(b)) && Abs(a - b) <= Tolerance && Monotone(f)
    ensures var x := 0.5 * (a + b); Between(y, f(x - HalfTolerance), f(x + HalfTolerance))
  {
    var x := 0.5 * (a + b);
    var lo, hi := Min(a, b), Max(a, b);
    assert x - HalfTolerance <= lo <= hi <= x + HalfTolerance;
    if NonDecreasing(f) {
      assert f(x - HalfTolerance) <= f(lo) && f(hi) <= f(x + HalfTolerance);
    } else {
      assert f(x + HalfTolerance) <= f(hi) && f(lo) <= f(x - HalfTolerance);
    }
  }

  /** For a strictly monotone f, every root of f(x) = y lies in the bracket, so near its midpoint. */
  lemma MidpointNearRoot(f: real -> real, y: real, a: real, b: real, root: real)
    requires Between(y, f(a), f(b)) && Abs(a - b) <= Tolerance
    requires StrictlyMonotone(f) && f(root) == y
    ensures Abs(0.5 * (a + b) - root) <= HalfTolerance
  {
    assert Min(a, b) <= root <= Max(a, b);
  }

  /**
   * What `solve` returns: the midpoint of a final bracket no wider than 1e-12 (so within 5e-13
   * of either bound), reached by bisecting the first bracketing round, with y still between
   * the values of f at the final bounds. It returns nothing only when no round up to fuel
   * brackets y.
   */
  lemma SolveResult(f: real -> real, y: real, guess: real, fuel: nat)
    ensures SolveSpec(f, y, guess, fuel).None? <==> forall k :: 1 <= k <= fuel ==> !FoundAt(f, y, guess, k)
    ensures SolveSpec(f, y, guess, fuel).Some? ==>
      var m := FirstRound(f, y, guess, 1, fuel).value;
      var a, b := LowerBound(guess, m), UpperBound(guess, m);
      var bounds := Bisect(f, y, f(a) < f(b), a, b);
      var x := SolveSpec(f, y, guess, fuel).value;
      && 1 <= m <= fuel && FoundAt(f, y, guess, m)
      && (forall k :: 1 <= k < m ==> !FoundAt(f, y, guess, k))
      && Between(y, f(bounds.0), f(bounds.1))
      && Abs(bounds.0 - bounds.1) <= Tolerance
      && Abs(x - bounds.0) <= HalfTolerance && Abs(x - bounds.1) <= HalfTolerance
  {
    FirstRoundIsFirst(f, y, guess, 1, fuel);
    if SolveSpec(f, y, guess, fuel).Some? {
      var m := FirstRound(f, y, guess, 1, fuel).value;
      var a, b := LowerBound(guess, m), UpperBound(guess, m);
      OrientedBetween(f, y, a, b);
      BisectBracket(f, y, f(a) < f(b), a, b);
      var bounds := Bisect(f, y, f(a) < f(b), a, b);
      OrientedBetween(f, y, bounds.0, bounds.1);
    }
  }

  /** A result of the solver is the midpoint of a final bracket of y no wider than the tolerance. */
  lemma FinalBracket(f: real -> real, y: real, guess: real, fuel: nat) returns (a: real, b: real)
    requires SolveSpec(f, y, guess, fuel).Some?
    ensures Between(y, f(a), f(b)) && Abs(a - b) <= Tolerance
    ensures SolveSpec(f, y, guess, fuel).value == 0.5 * (a + b)
  {
    FirstRoundIsFirst(f, y, guess, 1, fuel);
    var m := FirstRound(f, y, guess, 1, fuel).value;
    var lo, hi := LowerBound(guess, m), UpperBound(guess, m);
    OrientedBetween(f, y, lo, hi);
    BisectBracket(f, y, f(lo) < f(hi), lo, hi);
    var bounds := Bisect(f, y, f(lo) < f(hi), lo, hi);
    OrientedBetween(f, y, bounds.0, bounds.1);
    a, b := bounds.0, bounds.1;
  }

  /** For a monotone f the result is an approximate solution: y lies between f(x - 5e-13) and f(x + 5e-13). */
  lemma SolveApproximatesSolution(f: real -> real, y: real, guess: real, fuel: nat)
    requires Monotone(f)
    ensures SolveSpec(f, y, guess, fuel).Some? ==>
      var x := SolveSpec(f, y, guess, fuel).value;
      Between(y, f(x - HalfTolerance), f(x + HalfTolerance))
  {
    if SolveSpec(f, y, guess, fuel).Some? {
      var a, b := FinalBracket(f, y, guess, fuel);
      MidpointBracketsTarget(f, y, a, b);
    }
  }

  /** For a strictly monotone f the result is within 5e-13 of the exact solution of f(x) = y. */
  lemma SolveNearSolution(f: real -> real, y: real, guess: real, fuel: nat, root: real)
    requires StrictlyMonotone(f) && f(root) == y
    ensures SolveSpec(f, y, guess, fuel).Some? ==> Abs(SolveSpec(f, y, guess, fuel).value - root) <= HalfTolerance
  {
    if SolveSpec(f, y, guess, fuel).Some? {
      var a, b := FinalBracket(f, y, guess, fuel);
      MidpointNearRoot(f, y, a, b, root);
    }
  }

  /**
   * The bracket loop of `solve`: at least one round, since the not-found flag starts true,
   * and at most fuel rounds. It finds the first round that brackets y, with its bounds
   * and the values of f there.
   */
  method FindBracket(calculate: real -> real, desiredResult: real, initialGuess: real, fuel: nat)
    returns (found: bool, boundA: real, boundB: real, resultA: real, resultB: real)
    ensures found <==> FirstRound(calculate, desiredResult, initialGuess, 1, fuel).Some?
    ensures found ==>
      var m := FirstRound(calculate, desiredResult, initialGuess, 1, fuel).value;
      && boundA == LowerBound(initialGuess, m) && boundB == UpperBound(initialGuess, m)
      && resultA == calculate(boundA) && resultB == calculate(boundB)
  {
    var value := calculate(initialGuess);
    var i := 1;
    boundA, boundB := initialGuess, initialGuess;
    resultA, resultB := value, value;
    var boundsNotFound := true;
    while boundsNotFound && i <= fuel
      invariant 1 <= i <= fuel + 1
      invariant boundA == LowerBound(initialGuess, i - 1)
      invariant boundB == UpperBound(initialGuess, i - 1)
      invariant resultA == calculate(boundA) && resultB == calculate(boundB)
      invariant boundsNotFound ==>
        FirstRound(calculate, desiredResult, initialGuess, 1, fuel)
        == FirstRound(calculate, desiredResult, initialGuess, i, fuel)
      invariant !boundsNotFound ==>
        i >= 2 && FirstRound(calculate, desiredResult, initialGuess, 1, fuel) == Some(i - 1)
      decreases fuel + 1 - i
    {
      i := i + 1;
      boundA := boundA / i as real;
      boundB := boundB * i as real;
      resultA := calculate(boundA);
      resultB := calculate(boundB);
      boundsNotFound := Max(resultA, resultB) < desiredResult || Min(resultA, resultB) > desiredResult;
    }
    found := !boundsNotFound;
  }

  /**
   * The bisection loop of `solve`: narrows the bracket until it is no wider than the
   * tolerance, with the direction flag fixed throughout.
   */
  method Refine(calculate: real -> real, desiredResult: real, increasing: bool, a: real, b: real)
    returns (boundA: real, boundB: real)
    ensures (boundA, boundB) == Bisect(calculate, desiredResult, increasing, a, b)
  {
    boundA, boundB := a, b;
    while Abs(boundA - boundB) > Tolerance
      invariant Bisect(calculate, desiredResult, increasing, boundA, boundB)
        == Bisect(calculate, desiredResult, increasing, a, b)
      decreases Steps(boundA, boundB)
    {
      BisectUnfold(calculate, desiredResult, increasing, boundA, boundB);
      ghost var next := Narrow(calculate, desiredResult, increasing, boundA, boundB);
      var updatedGuess := 0.5 * (boundA + boundB);
      var updatedResult := calculate(updatedGuess);
      if increasing {
        if updatedResult > desiredResult { boundB := updatedGuess; } else { boundA := updatedGuess; }
      } else {
        if updatedResult < desiredResult { boundB := updatedGuess; } else { boundA := updatedGuess; }
      }
      assert boundA == next.0 && boundB == next.1;
    }
  }

  /**
   * `solve`: find a bracket, fix the direction as "f is larger at the second bound",
   * bisect, and return the midpoint of the final bracket.
   */
  method Solve(calculate: real -> real, desiredResult: real, initialGuess: real, fuel: nat)
    returns (r: Option<real>)
    ensures r == SolveSpec(calculate, desiredResult, initialGuess, fuel)
  {
    var found, boundA, boundB, resultA, resultB := FindBracket(calculate, desiredResult, initialGuess, fuel);
    if !found {
      return None;
    }
    var increasing := resultA < resultB;
    boundA, boundB := Refine(calculate, desiredResult, increasing, boundA, boundB);
    r := Some(0.5 * (boundA + boundB));
  }

  /** The forward function of the first example, 2x + 1. */
  function IncreasingLine(v: real): real {
    2.0 * v + 1.0
  }

  /** The forward function of the second example, -3x + 100. */
  function DecreasingLine(v: real): real {
    -3.0 * v + 100.0
  }

  lemma IncreasingLineSolvable()
    ensures StrictlyMonotone(IncreasingLine) && IncreasingLine(6.0) == 13.0
    ensures SolveSpec(IncreasingLine, 13.0, 5.0, 1).Some?
  {
    assert FoundAt(IncreasingLine, 13.0, 5.0, 1);
    FirstRoundIsFirst(IncreasingLine, 13.0, 5.0, 1, 1);
  }

  /** From the guess 10 the first round gives the bracket [5, 20], which misses 25; the second gives [10/6, 60]. */
  lemma DecreasingLineSolvable()
    ensures StrictlyMonotone(DecreasingLine) && DecreasingLine(25.0) == 25.0
    ensures SolveSpec(DecreasingLine, 25.0, 10.0, 2).Some?
  {
    assert LowerBound(10.0, 1) == 5.0 && UpperBound(10.0, 1) == 20.0;
    assert !FoundAt(DecreasingLine, 25.0, 10.0, 1);
    assert UpperBound(10.0, 2) == 60.0 && LowerBound(10.0, 2) < 20.0;
    assert FoundAt(DecreasingLine, 25.0, 10.0, 2);
    FirstRoundIsFirst(DecreasingLine, 25.0, 10.0, 1, 2);
  }

  /** Solving 2x + 1 = 13 from the guess 5 (an increasing function) gives 6 within 1e-10. */
  method SolveLinearIncreasing() returns (x: real)
    ensures Abs(x - 6.0) <= 0.0000000001
  {
    IncreasingLineSolvable();
    SolveNearSolution(IncreasingLine, 13.0, 5.0, 1, 6.0);
    var r := Solve(IncreasingLine, 13.0, 5.0, 1);
    x := r.value;
  }

  /** Solving -3x + 100 = 25 from the guess 10 (a decreasing function) gives 25 within 1e-10. */
  method SolveLinearDecreasing() returns (x: real)
    ensures Abs(x - 25.0) <= 0.0000000001
  {
    DecreasingLineSolvable();
    SolveNearSolution(DecreasingLine, 25.0, 10.0, 2, 25.0);
    var r := Solve(DecreasingLine, 25.0, 10.0, 2);
    x := r.value;
  }
}
