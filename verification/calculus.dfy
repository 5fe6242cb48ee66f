/** How differentiation and simplification combine. */
module Calculus {
  import opened Numerics
  import opened Ast
  import opened Derivative
  import opened ForwardRules
  import opened Simplifier

  /** The derivative of a variable-free tree without quotients simplifies to
      the literal 0: every term of the derivative is a product with a zero
      factor or a sum of zeros. A quotient keeps a `Div` root under
      `simplify`, so quotients are excluded. */
  lemma {:induction false} ClosedDerivativeSimplifiesToZero(lib: Lib, n: Node)
    requires Closed(n) && DivFree(n)
    ensures Simplify(Derive(lib, n)) == Constant(0.0)
  {
    match n
    case Constant(_) =>
    case Add(l, r) =>
      ClosedDerivativeSimplifiesToZero(lib, l);
      ClosedDerivativeSimplifiesToZero(lib, r);
    case Sub(l, r) =>
      ClosedDerivativeSimplifiesToZero(lib, l);
      ClosedDerivativeSimplifiesToZero(lib, r);
    case Mult(l, r) =>
      ClosedDerivativeSimplifiesToZero(lib, l);
      ClosedDerivativeSimplifiesToZero(lib, r);
      assert Simplify(Mult(Derive(lib, l), r)) == Constant(0.0);
      assert Simplify(Mult(l, Derive(lib, r))) == Constant(0.0);
    case Power(l, r) =>
      ClosedDerivativeSimplifiesToZero(lib, l);
    case Sin(c) =>
      ClosedDerivativeSimplifiesToZero(lib, c);
    case Cos(c) =>
      ClosedDerivativeSimplifiesToZero(lib, c);
  }

  /** A quotient of literals is the counterexample to dropping the
      restriction: its simplified derivative is still a quotient. */
  lemma QuotientDerivativeKeepsDiv(lib: Lib)
    ensures Simplify(Derive(lib, Div(Constant(1.0), Constant(2.0)))).Div?
  {
  }

  /** Simplifying a derivative keeps it a correct derivative: its value is
      the slope computed by forward differentiation. */
  lemma SimplifiedDerivativeMatchesForward(lib: Lib, n: Node, x: real)
    requires PowUnitLaws(lib) && SquareIsProduct(lib)
    requires ConstantExponents(n)
    ensures Eval(lib, Simplify(Derive(lib, n)), x) == Forward(lib, n, x).slope
  {
    DeriveMatchesForward(lib, n, x);
    SimplifyPreservesEval(lib, Derive(lib, n), x);
  }
}
