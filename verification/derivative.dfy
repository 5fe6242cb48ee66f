/** `calculateDerivative()` of every node class, and a reference for it:
    forward-mode differentiation with dual numbers. */
module Derivative {
  import opened Numerics
  import opened Ast

  /** The symbolic derivative with respect to the variable: sum, difference,
      product and quotient rules, the chain rule through `sin` and `cos`, and
      a power rule that reads the exponent's value at 0 and treats it as a
      constant. No simplification is done while building. */
  function Derive(lib: Lib, n: Node): Node {
    match n
    case Constant(_) => Constant(0.0)
    case Variable => Constant(1.0)
    case Add(l, r) => Add(Derive(lib, l), Derive(lib, r))
    case Sub(l, r) => Sub(Derive(lib, l), Derive(lib, r))
    case Mult(l, r) => Add(Mult(Derive(lib, l), r), Mult(l, Derive(lib, r)))
    case Div(l, r) =>
      Div(Sub(Mult(Derive(lib, l), r), Mult(l, Derive(lib, r))), Power(r, Constant(2.0)))
    case Power(l, r) =>
      var e := Eval(lib, r, 0.0);
      Mult(Mult(r, Power(l, Constant(e - 1.0))), Derive(lib, l))
    case Sin(c) => Mult(Cos(c), Derive(lib, c))
    case Cos(c) => Mult(Mult(Constant(-1.0), Sin(c)), Derive(lib, c))
  }

  /** Differentiating keeps a variable-free tree variable-free and a tree
      without quotients without quotients. */
  lemma {:induction false} DeriveKeepsClosedAndDivFree(lib: Lib, n: Node)
    ensures Closed(n) ==> Closed(Derive(lib, n))
    ensures DivFree(n) ==> DivFree(Derive(lib, n))
  {
    match n
    case Constant(_) =>
    case Variable =>
    case Add(l, r) =>
      DeriveKeepsClosedAndDivFree(lib, l);
      DeriveKeepsClosedAndDivFree(lib, r);
    case Sub(l, r) =>
      DeriveKeepsClosedAndDivFree(lib, l);
      DeriveKeepsClosedAndDivFree(lib, r);
    case Mult(l, r) =>
      DeriveKeepsClosedAndDivFree(lib, l);
      DeriveKeepsClosedAndDivFree(lib, r);
    case Div(l, r) =>
      DeriveKeepsClosedAndDivFree(lib, l);
      DeriveKeepsClosedAndDivFree(lib, r);
    case Power(l, r) =>
      DeriveKeepsClosedAndDivFree(lib, l);
      var lowered := Power(l, Constant(Eval(lib, r, 0.0) - 1.0));
      assert Closed(n) ==> Closed(Mult(r, lowered));
      assert DivFree(n) ==> DivFree(Mult(r, lowered));
    case Sin(c) =>
      DeriveKeepsClosedAndDivFree(lib, c);
    case Cos(c) =>
      DeriveKeepsClosedAndDivFree(lib, c);
      assert Closed(Mult(Constant(-1.0), Sin(c))) <==> Closed(c);
      assert DivFree(Mult(Constant(-1.0), Sin(c))) <==> DivFree(c);
  }

  /** A value together with its rate of change. */
  datatype Dual = Dual(value: real, slope: real)

  function DualSum(a: Dual, b: Dual): Dual {
    Dual(a.value + b.value, a.slope + b.slope)
  }

  function DualDifference(a: Dual, b: Dual): Dual {
    Dual(a.value - b.value, a.slope - b.slope)
  }

  function DualProduct(a: Dual, b: Dual): Dual {
    Dual(Times(a.value, b.value), Times(a.slope, b.value) + Times(a.value, b.slope))
  }

  function DualQuotient(lib: Lib, a: Dual, b: Dual): Dual {
    Dual(Quot(lib, a.value, b.value),
         Quot(lib, Times(a.slope, b.value) - Times(a.value, b.slope), Times(b.value, b.value)))
  }

  /** `a ^ b` with the exponent held constant. */
  function DualPower(lib: Lib, a: Dual, b: Dual): Dual {
    Dual(lib.pow(a.value, b.value), Times(Times(b.value, lib.pow(a.value, b.value - 1.0)), a.slope))
  }

  /** The value and slope of the tree at `x`, computed in one pass with the
      textbook rules of differential calculus; exponents are held constant. */
  function Forward(lib: Lib, n: Node, x: real): Dual {
    match n
    case Constant(c) => Dual(c, 0.0)
    case Variable => Dual(x, 1.0)
    case Add(l, r) => DualSum(Forward(lib, l, x), Forward(lib, r, x))
    case Sub(l, r) => DualDifference(Forward(lib, l, x), Forward(lib, r, x))
    case Mult(l, r) => DualProduct(Forward(lib, l, x), Forward(lib, r, x))
    case Div(l, r) => DualQuotient(lib, Forward(lib, l, x), Forward(lib, r, x))
    case Power(l, r) => DualPower(lib, Forward(lib, l, x), Forward(lib, r, x))
    case Sin(c) =>
      var a := Forward(lib, c, x);
      Dual(lib.sin(a.value), Times(lib.cos(a.value), a.slope))
    case Cos(c) =>
      var a := Forward(lib, c, x);
      Dual(lib.cos(a.value), Times(-lib.sin(a.value), a.slope))
  }

  /** The derivative of a literal is the literal 0, and so is every further
      derivative; it evaluates to 0 at every point. */
  lemma ConstantDerivative(lib: Lib, c: real, x: real)
    ensures Derive(lib, Constant(c)) == Constant(0.0)
    ensures Derive(lib, Derive(lib, Constant(c))) == Constant(0.0)
    ensures Eval(lib, Derive(lib, Constant(c)), x) == 0.0
  {
  }

  /** The derivative of the variable is the literal 1, which evaluates to 1
      everywhere; the second derivative is the literal 0. */
  lemma VariableDerivative(lib: Lib, x: real)
    ensures Derive(lib, Variable) == Constant(1.0)
    ensures Eval(lib, Derive(lib, Variable), x) == 1.0
    ensures Derive(lib, Derive(lib, Variable)) == Constant(0.0)
  {
  }

  /** The power rule reads the exponent at 0 even when it mentions the
      variable: `x ^ x` differentiates to `(x * x ^ -1) * 1`. */
  lemma PowerExponentReadAtZero(lib: Lib)
    ensures Derive(lib, Power(Variable, Variable))
         == Mult(Mult(Variable, Power(Variable, Constant(-1.0))), Constant(1.0))
  {
  }
}
