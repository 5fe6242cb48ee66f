/** The symbolic derivative agrees with forward-mode differentiation. */
module ForwardRules {
  import opened Numerics
  import opened Ast
  import opened Derivative

  lemma {:induction false} ForwardValueIsEval(lib: Lib, n: Node, x: real)
    ensures Forward(lib, n, x).value == Eval(lib, n, x)
  {
    match n
    case Constant(_) =>
    case Variable =>
    case Sin(c) => ForwardValueIsEval(lib, c, x);
    case Cos(c) => ForwardValueIsEval(lib, c, x);
    case _ =>
      ForwardValueIsEval(lib, n.left, x);
      ForwardValueIsEval(lib, n.right, x);
  }

  /** The symbolic derivative evaluates to the slope of the function whenever
      every exponent is variable-free and `pow(a, 2)` is `a * a`. */
  lemma {:induction false} DeriveMatchesForward(lib: Lib, n: Node, x: real)
    requires SquareIsProduct(lib)
    requires ConstantExponents(n)
    ensures Eval(lib, Derive(lib, n), x) == Forward(lib, n, x).slope
  {
    match n
    case Constant(_) =>
    case Variable =>
    case Add(l, r) =>
      DeriveMatchesForward(lib, l, x);
      DeriveMatchesForward(lib, r, x);
    case Sub(l, r) =>
      DeriveMatchesForward(lib, l, x);
      DeriveMatchesForward(lib, r, x);
    case Mult(l, r) =>
      DeriveMatchesForward(lib, l, x);
      DeriveMatchesForward(lib, r, x);
      ProductStep(lib, l, r, x);
    case Div(l, r) =>
      DeriveMatchesForward(lib, l, x);
      DeriveMatchesForward(lib, r, x);
      QuotientStep(lib, l, r, x);
    case Power(l, r) =>
      DeriveMatchesForward(lib, l, x);
      PowerStep(lib, l, r, x);
    case Sin(c) =>
      DeriveMatchesForward(lib, c, x);
      ForwardValueIsEval(lib, c, x);
    case Cos(c) =>
      DeriveMatchesForward(lib, c, x);
      ForwardValueIsEval(lib, c, x);
      CosineRule(lib, c, Derive(lib, c), x);
  }

  /** The inductive steps of `DeriveMatchesForward` for the three nodes whose
      rules need algebra. */
  lemma ProductStep(lib: Lib, l: Node, r: Node, x: real)
    requires Eval(lib, Derive(lib, l), x) == Forward(lib, l, x).slope
    requires Eval(lib, Derive(lib, r), x) == Forward(lib, r, x).slope
    ensures Eval(lib, Derive(lib, Mult(l, r)), x) == Forward(lib, Mult(l, r), x).slope
  {
    ForwardValueIsEval(lib, l, x);
    ForwardValueIsEval(lib, r, x);
    ProductRule(lib, l, r, Derive(lib, l), Derive(lib, r), x);
  }

  lemma QuotientStep(lib: Lib, l: Node, r: Node, x: real)
    requires SquareIsProduct(lib)
    requires Eval(lib, Derive(lib, l), x) == Forward(lib, l, x).slope
    requires Eval(lib, Derive(lib, r), x) == Forward(lib, r, x).slope
    ensures Eval(lib, Derive(lib, Div(l, r)), x) == Forward(lib, Div(l, r), x).slope
  {
    ForwardValueIsEval(lib, l, x);
    ForwardValueIsEval(lib, r, x);
    SquareOf(lib, Eval(lib, r, x));
    QuotientRule(lib, l, r, Derive(lib, l), Derive(lib, r), x);
  }

  lemma PowerStep(lib: Lib, l: Node, r: Node, x: real)
    requires Closed(r)
    requires Eval(lib, Derive(lib, l), x) == Forward(lib, l, x).slope
    ensures Eval(lib, Derive(lib, Power(l, r)), x) == Forward(lib, Power(l, r), x).slope
  {
    ForwardValueIsEval(lib, l, x);
    ForwardValueIsEval(lib, r, x);
    ClosedEvalAnywhere(lib, r, 0.0, x);
    PowerRule(lib, l, r, Derive(lib, l), Eval(lib, r, 0.0), x);
  }

  /** `Forward` one level down, for each binary node with a product-like rule. */
  lemma ForwardMult(lib: Lib, l: Node, r: Node, x: real)
    ensures Forward(lib, Mult(l, r), x) == DualProduct(Forward(lib, l, x), Forward(lib, r, x))
  {
  }

  lemma ForwardDiv(lib: Lib, l: Node, r: Node, x: real)
    ensures Forward(lib, Div(l, r), x) == DualQuotient(lib, Forward(lib, l, x), Forward(lib, r, x))
  {
  }

  lemma ForwardPower(lib: Lib, l: Node, r: Node, x: real)
    ensures Forward(lib, Power(l, r), x) == DualPower(lib, Forward(lib, l, x), Forward(lib, r, x))
  {
  }

  /** The value of the product-rule tree is the product rule applied to the
      values of the factors and of their derivative trees. */
  lemma EvalProductRule(lib: Lib, l: Node, r: Node, dl: Node, dr: Node, x: real)
    ensures Eval(lib, Add(Mult(dl, r), Mult(l, dr)), x)
         == DualProduct(Dual(Eval(lib, l, x), Eval(lib, dl, x)), Dual(Eval(lib, r, x), Eval(lib, dr, x))).slope
  {
    EvalMult(lib, dl, r, x);
    EvalMult(lib, l, dr, x);
    EvalAdd(lib, Mult(dl, r), Mult(l, dr), x);
  }

  /** The value of the quotient-rule tree in terms of its parts. */
  lemma EvalQuotientRule(lib: Lib, l: Node, r: Node, dl: Node, dr: Node, x: real)
    ensures Eval(lib, Div(Sub(Mult(dl, r), Mult(l, dr)), Power(r, Constant(2.0))), x)
         == Quot(lib, Times(Eval(lib, dl, x), Eval(lib, r, x)) - Times(Eval(lib, l, x), Eval(lib, dr, x)),
                 lib.pow(Eval(lib, r, x), 2.0))
  {
    EvalMult(lib, dl, r, x);
    EvalMult(lib, l, dr, x);
    EvalSub(lib, Mult(dl, r), Mult(l, dr), x);
    EvalPower(lib, r, Constant(2.0), x);
  }

  /** The value of the power-rule tree in terms of its parts. */
  lemma EvalPowerRule(lib: Lib, l: Node, r: Node, dl: Node, e: real, x: real)
    ensures Eval(lib, Mult(Mult(r, Power(l, Constant(e - 1.0))), dl), x)
         == Times(Times(Eval(lib, r, x), lib.pow(Eval(lib, l, x), e - 1.0)), Eval(lib, dl, x))
  {
    EvalPower(lib, l, Constant(e - 1.0), x);
    EvalMult(lib, r, Power(l, Constant(e - 1.0)), x);
    EvalMult(lib, Mult(r, Power(l, Constant(e - 1.0))), dl, x);
  }

  /** The quotient rule's slope, written with the divisor squared by hand. */
  lemma DualQuotientSlope(lib: Lib, a: Dual, b: Dual)
    ensures Quot(lib, Times(a.slope, b.value) - Times(a.value, b.slope), Times(b.value, b.value))
         == DualQuotient(lib, a, b).slope
  {
  }

  lemma QuotCongruent(lib: Lib, n: real, p: real, q: real)
    requires p == q
    ensures Quot(lib, n, p) == Quot(lib, n, q)
  {
  }

  /** Dividing by `pow(v, 2)` is dividing by `v * v` once the two agree. */
  lemma QuotientSlope(lib: Lib, a: Dual, b: Dual)
    requires lib.pow(b.value, 2.0) == Times(b.value, b.value)
    ensures Quot(lib, Times(a.slope, b.value) - Times(a.value, b.slope), lib.pow(b.value, 2.0))
         == DualQuotient(lib, a, b).slope
  {
    DualQuotientSlope(lib, a, b);
    QuotCongruent(lib, Times(a.slope, b.value) - Times(a.value, b.slope), lib.pow(b.value, 2.0), Times(b.value, b.value));
  }

  /** The product-rule tree evaluates to the product rule over duals. */
  lemma ProductRule(lib: Lib, l: Node, r: Node, dl: Node, dr: Node, x: real)
    requires Eval(lib, l, x) == Forward(lib, l, x).value && Eval(lib, r, x) == Forward(lib, r, x).value
    requires Eval(lib, dl, x) == Forward(lib, l, x).slope && Eval(lib, dr, x) == Forward(lib, r, x).slope
    ensures Eval(lib, Add(Mult(dl, r), Mult(l, dr)), x) == Forward(lib, Mult(l, r), x).slope
  {
    EvalProductRule(lib, l, r, dl, dr, x);
    ForwardMult(lib, l, r, x);
    assert Dual(Eval(lib, l, x), Eval(lib, dl, x)) == Forward(lib, l, x);
    assert Dual(Eval(lib, r, x), Eval(lib, dr, x)) == Forward(lib, r, x);
  }

  /** The quotient-rule tree evaluates to the quotient rule over duals, given
      that `pow` squares the divisor's value exactly. */
  lemma QuotientRule(lib: Lib, l: Node, r: Node, dl: Node, dr: Node, x: real)
    requires lib.pow(Eval(lib, r, x), 2.0) == Times(Eval(lib, r, x), Eval(lib, r, x))
    requires Eval(lib, l, x) == Forward(lib, l, x).value && Eval(lib, r, x) == Forward(lib, r, x).value
    requires Eval(lib, dl, x) == Forward(lib, l, x).slope && Eval(lib, dr, x) == Forward(lib, r, x).slope
    ensures Eval(lib, Div(Sub(Mult(dl, r), Mult(l, dr)), Power(r, Constant(2.0))), x)
         == Forward(lib, Div(l, r), x).slope
  {
    EvalQuotientRule(lib, l, r, dl, dr, x);
    ForwardDiv(lib, l, r, x);
    QuotientSlope(lib, Forward(lib, l, x), Forward(lib, r, x));
  }

  /** The power-rule tree, with the exponent's value `e` at 0 equal to its
      value at `x`, evaluates to the constant-exponent rule over duals. */
  lemma PowerRule(lib: Lib, l: Node, r: Node, dl: Node, e: real, x: real)
    requires e == Eval(lib, r, x)
    requires Eval(lib, l, x) == Forward(lib, l, x).value && Eval(lib, r, x) == Forward(lib, r, x).value
    requires Eval(lib, dl, x) == Forward(lib, l, x).slope
    ensures Eval(lib, Mult(Mult(r, Power(l, Constant(e - 1.0))), dl), x) == Forward(lib, Power(l, r), x).slope
  {
    EvalPowerRule(lib, l, r, dl, e, x);
    ForwardPower(lib, l, r, x);
  }

  /** The chain rule through `cos`, with its `-1` factor. */
  lemma CosineRule(lib: Lib, c: Node, dc: Node, x: real)
    requires Eval(lib, c, x) == Forward(lib, c, x).value
    requires Eval(lib, dc, x) == Forward(lib, c, x).slope
    ensures Eval(lib, Mult(Mult(Constant(-1.0), Sin(c)), dc), x) == Forward(lib, Cos(c), x).slope
  {
    EvalSin(lib, c, x);
    EvalMult(lib, Constant(-1.0), Sin(c), x);
    EvalMult(lib, Mult(Constant(-1.0), Sin(c)), dc, x);
  }
}
