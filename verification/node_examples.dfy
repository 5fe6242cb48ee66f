/** The expression tree's documented examples, stated over the model. */
module NodeExamples {
  import opened Numerics
  import opened Ast
  import opened Derivative
  import opened Simplifier

  /** Evaluation of small literal trees; a quotient by zero yields the
      library's value for `a / 0`. */
  lemma EvalExamples(lib: Lib, x: real)
    requires lib.pow(2.0, 3.0) == 8.0
    ensures Eval(lib, Constant(7.5), 123.0) == 7.5
    ensures Eval(lib, Variable, 3.14) == 3.14
    ensures Eval(lib, Add(Constant(3.0), Constant(4.0)), x) == 7.0
    ensures Eval(lib, Sub(Constant(10.0), Constant(4.0)), x) == 6.0
    ensures Eval(lib, Mult(Constant(3.0), Constant(4.0)), x) == 12.0
    ensures Eval(lib, Div(Constant(12.0), Constant(3.0)), x) == 4.0
    ensures Eval(lib, Div(Constant(5.0), Constant(0.0)), x) == lib.overZero(5.0)
    ensures Eval(lib, Power(Constant(2.0), Constant(3.0)), x) == 8.0
  {
  }

  /** d(x + 5) at 10 and d(x - 3) at 0 are both 1. */
  lemma SumDifferenceDerivatives(lib: Lib)
    ensures Eval(lib, Derive(lib, Add(Variable, Constant(5.0))), 10.0) == 1.0
    ensures Eval(lib, Derive(lib, Sub(Variable, Constant(3.0))), 0.0) == 1.0
  {
  }

  /** d(x * x) at 2 is 4. */
  lemma ProductDerivativeAtTwo(lib: Lib)
    ensures Derive(lib, Mult(Variable, Variable))
         == Add(Mult(Constant(1.0), Variable), Mult(Variable, Constant(1.0)))
    ensures Eval(lib, Derive(lib, Mult(Variable, Variable)), 2.0) == 4.0
  {
    EvalMult(lib, Constant(1.0), Variable, 2.0);
    EvalMult(lib, Variable, Constant(1.0), 2.0);
    EvalAdd(lib, Mult(Constant(1.0), Variable), Mult(Variable, Constant(1.0)), 2.0);
  }

  /** d(x / 2) at 10 is 0.5 when `pow` squares exactly. */
  lemma QuotientDerivativeAtTen(lib: Lib)
    requires SquareIsProduct(lib)
    ensures Eval(lib, Derive(lib, Div(Variable, Constant(2.0))), 10.0) == 0.5
  {
    var numerator := Sub(Mult(Constant(1.0), Constant(2.0)), Mult(Variable, Constant(0.0)));
    assert Derive(lib, Div(Variable, Constant(2.0))) == Div(numerator, Power(Constant(2.0), Constant(2.0)));
    EvalMult(lib, Constant(1.0), Constant(2.0), 10.0);
    EvalMult(lib, Variable, Constant(0.0), 10.0);
    EvalSub(lib, Mult(Constant(1.0), Constant(2.0)), Mult(Variable, Constant(0.0)), 10.0);
    SquareOf(lib, 2.0);
    EvalPower(lib, Constant(2.0), Constant(2.0), 10.0);
  }

  /** d(x ^ 4) at 3 is 4 * 27 = 108 when `pow(3, 3)` is 27. */
  lemma PowerDerivativeAtThree(lib: Lib)
    requires lib.pow(3.0, 3.0) == 27.0
    ensures Derive(lib, Power(Variable, Constant(4.0)))
         == Mult(Mult(Constant(4.0), Power(Variable, Constant(3.0))), Constant(1.0))
    ensures Eval(lib, Derive(lib, Power(Variable, Constant(4.0))), 3.0) == 108.0
  {
    var lowered := Power(Variable, Constant(3.0));
    assert Derive(lib, Power(Variable, Constant(4.0))) == Mult(Mult(Constant(4.0), lowered), Constant(1.0));
    EvalPower(lib, Variable, Constant(3.0), 3.0);
    EvalMult(lib, Constant(4.0), lowered, 3.0);
    EvalMult(lib, Mult(Constant(4.0), lowered), Constant(1.0), 3.0);
  }

  /** d(sin x) is `cos(x) * 1`; d(cos x) is `(-1 * sin(x)) * 1`, whose value
      is `-sin(x)`. */
  lemma TrigDerivatives(lib: Lib, x: real)
    ensures Derive(lib, Sin(Variable)) == Mult(Cos(Variable), Constant(1.0))
    ensures Eval(lib, Derive(lib, Sin(Variable)), x) == lib.cos(x)
    ensures Derive(lib, Cos(Variable)) == Mult(Mult(Constant(-1.0), Sin(Variable)), Constant(1.0))
    ensures Eval(lib, Derive(lib, Cos(Variable)), x) == -lib.sin(x)
  {
    EvalMult(lib, Cos(Variable), Constant(1.0), x);
    EvalMult(lib, Constant(-1.0), Sin(Variable), x);
    EvalMult(lib, Mult(Constant(-1.0), Sin(Variable)), Constant(1.0), x);
  }

  /** The chain rule through `sin(x ^ 2)`: at 3 the derivative is
      `cos(9) * 6`. */
  lemma NestedDerivativeAtThree(lib: Lib)
    requires PowUnitLaws(lib) && SquareIsProduct(lib)
    ensures Eval(lib, Derive(lib, Sin(Power(Variable, Constant(2.0)))), 3.0) == lib.cos(9.0) * 6.0
  {
    var inner := Power(Variable, Constant(2.0));
    var lowered := Power(Variable, Constant(1.0));
    var chain := Mult(Mult(Constant(2.0), lowered), Constant(1.0));
    assert Derive(lib, inner) == chain;
    assert Derive(lib, Sin(inner)) == Mult(Cos(inner), chain);
    SquareOf(lib, 3.0);
    assert lib.pow(3.0, 1.0) == 3.0;
    EvalPower(lib, Variable, Constant(2.0), 3.0);
    EvalPower(lib, Variable, Constant(1.0), 3.0);
    EvalMult(lib, Constant(2.0), lowered, 3.0);
    EvalMult(lib, Mult(Constant(2.0), lowered), Constant(1.0), 3.0);
    EvalMult(lib, Cos(inner), chain, 3.0);
  }

  /** The simplifier's documented cases. */
  lemma SimplifyExamples(lib: Lib)
    requires PowUnitLaws(lib)
    ensures Simplify(Add(Constant(0.0), Constant(9.0))) == Constant(9.0)
    ensures Simplify(Add(Constant(5.0), Constant(0.0))) == Constant(5.0)
    ensures Simplify(Sub(Variable, Constant(0.0))) == Variable
    ensures Simplify(Mult(Constant(0.0), Variable)) == Constant(0.0)
    ensures Simplify(Mult(Variable, Constant(0.0))) == Constant(0.0)
    ensures Simplify(Mult(Constant(1.0), Variable)) == Variable
    ensures Simplify(Mult(Variable, Constant(1.0))) == Variable
    ensures Simplify(Power(Variable, Constant(0.0))) == Constant(1.0)
    ensures Eval(lib, Simplify(Power(Variable, Constant(0.0))), 1000.0) == 1.0
    ensures Simplify(Power(Variable, Constant(1.0))) == Variable
  {
  }
}
