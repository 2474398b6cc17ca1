/** Products and quotients by name, so that a proof can hide them and use their laws. */
module RealArith {

  function Mul(a: real, b: real): real {
    a * b
  }

  function Div(a: real, b: real): real
    requires b != 0.0
  {
    a / b
  }

  function Abs(a: real): real {
    if a >= 0.0 then a else -a
  }

  lemma MulZero(b: real)
    ensures Mul(0.0, b) == 0.0
  {
  }

  lemma MulAdd(a: real, b: real, c: real)
    ensures Mul(a + b, c) == Mul(a, c) + Mul(b, c)
  {
  }

  lemma MulOne(a: real)
    ensures Mul(1.0, a) == a
  {
  }

  lemma MulOrdered(a: real, b: real, c: real)
    requires a <= b && 0.0 <= c
    ensures Mul(a, c) <= Mul(b, c)
  {
  }

  lemma DivZero(b: real)
    requires b != 0.0
    ensures Div(0.0, b) == 0.0
  {
  }

  lemma DivAdd(a: real, b: real, c: real)
    requires c != 0.0
    ensures Div(a + b, c) == Div(a, c) + Div(b, c)
  {
  }

  lemma DivSelf(a: real)
    requires a != 0.0
    ensures Div(a, a) == 1.0
  {
  }

  lemma DivNonNegative(a: real, b: real)
    requires a >= 0.0 && b > 0.0
    ensures Div(a, b) >= 0.0
  {
  }

  /** Multiplying back what was divided. */
  lemma MulDiv(a: real, b: real)
    requires b != 0.0
    ensures Mul(b, Div(a, b)) == a
  {
  }
}
