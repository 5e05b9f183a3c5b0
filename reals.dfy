/** Exact real arithmetic shared by the solver and the detection series. */
module Reals {
  function Abs(x: real): real {
    if x < 0.0 then -x else x
  }

  function Min(x: real, y: real): real {
    if x <= y then x else y
  }

  function Max(x: real, y: real): real {
    if x <= y then y else x
  }

  /** m!, as a real. */
  function Fact(m: nat): (r: real)
    ensures r >= 1.0
  {
    if m == 0 then 1.0 else m as real * Fact(m - 1)
  }

  /** x to the k-th power. */
  function Power(x: real, k: nat): real {
    if k == 0 then 1.0 else x * Power(x, k - 1)
  }

  /** j! = j * i! for j = i + 1. */
  lemma FactNext(i: nat, j: nat)
    requires j == i + 1
    ensures Fact(j) == j as real * Fact(i)
  {
  }

  /** x^j = x * x^i for j = i + 1. */
  lemma PowerNext(x: real, i: nat, j: nat)
    requires j == i + 1
    ensures Power(x, j) == x * Power(x, i)
  {
  }

  lemma DivideTwice(x: real, p: real, q: real)
    requires p != 0.0 && q != 0.0
    ensures (x / p) / q == x / (q * p)
  {
  }

  /** Division characterised by multiplication. */
  lemma Quotient(z: real, d: real, y: real)
    requires d != 0.0 && y * d == z
    ensures z / d == y
  {
  }

  /** Dividing by d and multiplying by d cancel. */
  lemma DivMul(v: real, d: real)
    requires d != 0.0
    ensures (v / d) * d == v
  {
  }

  lemma OnePlusQuotient(x: real, d: real)
    requires d != 0.0
    ensures 1.0 + x / d == (d + x) / d
  {
    DivMul(x, d);
    Quotient(d + x, d, 1.0 + x / d);
  }

  /** Multiplying by t / d and then by d * f is multiplying by t and f. */
  lemma CancelQuotient(y: real, t: real, d: real, f: real)
    requires d != 0.0
    ensures (y * (t / d)) * (d * f) == t * (y * f)
  {
    DivMul(t, d);
  }

  /** Moving a factor into a product. */
  lemma MoveFactor(e: real, t: real, p: real)
    ensures t * (e * p) == e * (t * p)
  {
  }
}
