/** A validated probability: a real number in [0, 1], checked once, when it is built. */
module Probabilities {
  import opened Outcomes

  /** Every value of this type lies in [0, 1]; since a value never changes, it stays there. */
  type Probability = v: real | 0.0 <= v <= 1.0

  /** `new Probability(v)`: rejects v < 0 and v > 1 with a domain error and wraps any other v. */
  function Create(v: real): (r: Result<Probability>)
    ensures r.Ok? <==> 0.0 <= v <= 1.0
    ensures r.Ok? ==> r.value == v
    ensures r.Err? ==> r.error == DomainError(v)
  {
    if v < 0.0 || v > 1.0 then Err(DomainError(v)) else Ok(v)
  }

  /** `getValue`: the value given at construction, which rebuilds the same probability. */
  function GetValue(p: Probability): (v: real)
    ensures 0.0 <= v <= 1.0
    ensures Create(v) == Ok(p)
  {
    p
  }

  /** The accepted and rejected values exercised by the unit tests. */
  lemma CreateExamples()
    ensures Create(1.0).Ok? && GetValue(Create(1.0).value) == 1.0
    ensures Create(0.0).Ok? && GetValue(Create(0.0).value) == 0.0
    ensures Create(0.5).Ok? && GetValue(Create(0.5).value) == 0.5
    ensures Create(3.0) == Err(DomainError(3.0))
  {
  }
}
