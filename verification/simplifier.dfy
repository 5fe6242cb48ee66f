/** `simplify()` of every node class: one bottom-up pass that removes the
    identity elements 0 and 1 and nothing else. */
module Simplifier {
  import opened Numerics
  import opened Ast

  /** No identity rule of `simplify` applies anywhere in the tree: no sum
      with a literal 0 operand, no difference with a literal 0 subtrahend, no
      product with a literal 0 or 1 factor, no power with a literal 0 or 1
      exponent. */
  predicate Normal(n: Node) {
    match n
    case Constant(_) => true
    case Variable => true
    case Add(l, r) =>
      Normal(l) && Normal(r) && !IsLiteral(l, 0.0) && !IsLiteral(r, 0.0)
    case Sub(l, r) =>
      Normal(l) && Normal(r) && !IsLiteral(r, 0.0)
    case Mult(l, r) =>
      && Normal(l) && Normal(r)
      && !IsLiteral(l, 0.0) && !IsLiteral(r, 0.0)
      && !IsLiteral(l, 1.0) && !IsLiteral(r, 1.0)
    case Div(l, r) => Normal(l) && Normal(r)
    case Power(l, r) =>
      Normal(l) && Normal(r) && !IsLiteral(r, 0.0) && !IsLiteral(r, 1.0)
    case Sin(c) => Normal(c)
    case Cos(c) => Normal(c)
  }

  /** The simplifier. Each node class simplifies its operands first and then
      applies its own rule to the results. */
  function Simplify(n: Node): (s: Node)
    ensures Normal(s)
    ensures Size(s) <= Size(n)
  {
    match n
    case Constant(_) => n
    case Variable => n
    case Add(l, r) => AddRule(Simplify(l), Simplify(r))
    case Sub(l, r) => SubRule(Simplify(l), Simplify(r))
    case Mult(l, r) => MultRule(Simplify(l), Simplify(r))
    case Div(l, r) => Div(Simplify(l), Simplify(r))
    case Power(l, r) => PowerRule(Simplify(l), Simplify(r))
    case Sin(c) => Sin(Simplify(c))
    case Cos(c) => Cos(Simplify(c))
  }

  /** Simplifying keeps a variable-free tree variable-free and a tree
      without quotients without quotients. */
  lemma {:induction false} SimplifyKeepsClosedAndDivFree(n: Node)
    ensures Closed(n) ==> Closed(Simplify(n))
    ensures DivFree(n) ==> DivFree(Simplify(n))
  {
    match n
    case Constant(_) =>
    case Variable =>
    case Sin(c) => SimplifyKeepsClosedAndDivFree(c);
    case Cos(c) => SimplifyKeepsClosedAndDivFree(c);
    case _ =>
      SimplifyKeepsClosedAndDivFree(n.left);
      SimplifyKeepsClosedAndDivFree(n.right);
  }

  /** `Add.simplify` on simplified operands `l`, `r`: a literal 0 on the left
      is tested first. */
  function AddRule(l: Node, r: Node): (s: Node)
    ensures Normal(l) && Normal(r) ==> Normal(s)
    ensures Size(s) <= 1 + Size(l) + Size(r)
    ensures Closed(l) && Closed(r) ==> Closed(s)
    ensures DivFree(l) && DivFree(r) ==> DivFree(s)
  {
    if IsLiteral(l, 0.0) then r
    else if IsLiteral(r, 0.0) then l
    else Add(l, r)
  }

  /** `Sub.simplify`: only a literal 0 on the right is removed. */
  function SubRule(l: Node, r: Node): (s: Node)
    ensures Normal(l) && Normal(r) ==> Normal(s)
    ensures Size(s) <= 1 + Size(l) + Size(r)
    ensures Closed(l) && Closed(r) ==> Closed(s)
    ensures DivFree(l) && DivFree(r) ==> DivFree(s)
  {
    if IsLiteral(r, 0.0) then l else Sub(l, r)
  }

  /** `Mult.simplify`: the two tests for 0 come before the two tests for 1. */
  function MultRule(l: Node, r: Node): (s: Node)
    ensures Normal(l) && Normal(r) ==> Normal(s)
    ensures Size(s) <= 1 + Size(l) + Size(r)
    ensures Closed(l) && Closed(r) ==> Closed(s)
    ensures DivFree(l) && DivFree(r) ==> DivFree(s)
  {
    if IsLiteral(l, 0.0) || IsLiteral(r, 0.0) then Constant(0.0)
    else if IsLiteral(l, 1.0) then r
    else if IsLiteral(r, 1.0) then l
    else Mult(l, r)
  }

  /** `Power.simplify`: exponent 1 is tested before exponent 0; the base is
      never inspected. */
  function PowerRule(l: Node, r: Node): (s: Node)
    ensures Normal(l) && Normal(r) ==> Normal(s)
    ensures Size(s) <= 1 + Size(l) + Size(r)
    ensures Closed(l) && Closed(r) ==> Closed(s)
    ensures DivFree(l) && DivFree(r) ==> DivFree(s)
  {
    if IsLiteral(r, 1.0) then l
    else if IsLiteral(r, 0.0) then Constant(1.0)
    else Power(l, r)
  }

  /** Over exact arithmetic, and with `pow(a, 0) == 1` and `pow(a, 1) == a`,
      simplifying never changes the value of the tree at any point. */
  lemma {:induction false} SimplifyPreservesEval(lib: Lib, n: Node, x: real)
    requires PowUnitLaws(lib)
    ensures Eval(lib, Simplify(n), x) == Eval(lib, n, x)
  {
    match n
    case Constant(_) =>
    case Variable =>
    case Add(l, r) =>
      SimplifyPreservesEval(lib, l, x);
      SimplifyPreservesEval(lib, r, x);
      AddRuleKeepsEval(lib, Simplify(l), Simplify(r), x);
    case Sub(l, r) =>
      SimplifyPreservesEval(lib, l, x);
      SimplifyPreservesEval(lib, r, x);
      SubRuleKeepsEval(lib, Simplify(l), Simplify(r), x);
    case Mult(l, r) =>
      SimplifyPreservesEval(lib, l, x);
      SimplifyPreservesEval(lib, r, x);
      MultRuleKeepsEval(lib, Simplify(l), Simplify(r), x);
      MultCongruent(lib, Simplify(l), Simplify(r), l, r, x);
    case Div(l, r) =>
      SimplifyPreservesEval(lib, l, x);
      SimplifyPreservesEval(lib, r, x);
    case Power(l, r) =>
      SimplifyPreservesEval(lib, l, x);
      SimplifyPreservesEval(lib, r, x);
      PowerRuleKeepsEval(lib, Simplify(l), Simplify(r), x);
    case Sin(c) =>
      SimplifyPreservesEval(lib, c, x);
    case Cos(c) =>
      SimplifyPreservesEval(lib, c, x);
  }

  lemma AddRuleKeepsEval(lib: Lib, l: Node, r: Node, x: real)
    ensures Eval(lib, AddRule(l, r), x) == Eval(lib, Add(l, r), x)
  {
  }

  lemma SubRuleKeepsEval(lib: Lib, l: Node, r: Node, x: real)
    ensures Eval(lib, SubRule(l, r), x) == Eval(lib, Sub(l, r), x)
  {
  }

  /** Dropping a factor 1 or collapsing a product with a factor 0 keeps the
      value over exact arithmetic. */
  lemma MultRuleKeepsEval(lib: Lib, l: Node, r: Node, x: real)
    ensures Eval(lib, MultRule(l, r), x) == Eval(lib, Mult(l, r), x)
  {
    EvalMult(lib, l, r, x);
  }

  /** Products of equal values are equal. */
  lemma MultCongruent(lib: Lib, a: Node, b: Node, c: Node, d: Node, x: real)
    requires Eval(lib, a, x) == Eval(lib, c, x) && Eval(lib, b, x) == Eval(lib, d, x)
    ensures Eval(lib, Mult(a, b), x) == Eval(lib, Mult(c, d), x)
  {
    EvalMult(lib, a, b, x);
    EvalMult(lib, c, d, x);
  }

  /** Exponents 0 and 1 are removed by the unit laws of `pow`. */
  lemma PowerRuleKeepsEval(lib: Lib, l: Node, r: Node, x: real)
    requires PowUnitLaws(lib)
    ensures Eval(lib, PowerRule(l, r), x) == Eval(lib, Power(l, r), x)
  {
    EvalPower(lib, l, r, x);
  }

  /** A tree in normal form is its own simplification. */
  lemma {:induction false} SimplifyFixesNormal(n: Node)
    requires Normal(n)
    ensures Simplify(n) == n
  {
    match n
    case Constant(_) =>
    case Variable =>
    case Sin(c) => SimplifyFixesNormal(c);
    case Cos(c) => SimplifyFixesNormal(c);
    case _ =>
      SimplifyFixesNormal(n.left);
      SimplifyFixesNormal(n.right);
  }

  /** `simplify` leaves a tree unchanged exactly when no rule applies in it. */
  lemma SimplifyUnchangedIffNormal(n: Node)
    ensures Simplify(n) == n <==> Normal(n)
  {
    if Normal(n) {
      SimplifyFixesNormal(n);
    }
  }

  /** A second pass changes nothing. */
  lemma SimplifyIdempotent(n: Node)
    ensures Simplify(Simplify(n)) == Simplify(n)
  {
    SimplifyFixesNormal(Simplify(n));
  }

  /** Literals and the variable are returned as they are. */
  lemma SimplifyLeaves(c: real)
    ensures Simplify(Constant(c)) == Constant(c)
    ensures Simplify(Variable) == Variable
  {
  }

  /** A sum of simplified operands: a literal 0 on the left gives the right
      operand, otherwise a literal 0 on the right gives the left operand,
      otherwise both stay under an `Add`; two literals are not folded. */
  lemma AddRuleCases(l: Node, r: Node)
    ensures IsLiteral(l, 0.0) ==> AddRule(l, r) == r
    ensures !IsLiteral(l, 0.0) && IsLiteral(r, 0.0) ==> AddRule(l, r) == l
    ensures !IsLiteral(l, 0.0) && !IsLiteral(r, 0.0) ==> AddRule(l, r) == Add(l, r)
    ensures Simplify(Add(Constant(3.0), Constant(4.0))) == Add(Constant(3.0), Constant(4.0))
  {
  }

  /** A difference drops only a zero subtrahend; `0 - x` is kept. */
  lemma SubRuleCases(l: Node, r: Node)
    ensures IsLiteral(r, 0.0) ==> SubRule(l, r) == l
    ensures !IsLiteral(r, 0.0) ==> SubRule(l, r) == Sub(l, r)
    ensures Simplify(Sub(Constant(0.0), Variable)) == Sub(Constant(0.0), Variable)
  {
  }

  /** A product: a literal 0 on either side gives the literal 0 before any
      test for 1; then a 1 on the left gives the right operand and a 1 on the
      right the left operand. */
  lemma MultRuleCases(l: Node, r: Node)
    ensures IsLiteral(l, 0.0) || IsLiteral(r, 0.0) ==> MultRule(l, r) == Constant(0.0)
    ensures !IsLiteral(r, 0.0) && IsLiteral(l, 1.0) ==> MultRule(l, r) == r
    ensures !IsLiteral(l, 0.0) && !IsLiteral(l, 1.0) && IsLiteral(r, 1.0) ==> MultRule(l, r) == l
  {
  }

  /** The product survives the rule exactly when neither factor is a literal
      0 or 1. */
  lemma MultSurvivors(l: Node, r: Node)
    ensures MultRule(l, r) == Mult(l, r)
        <==> !IsLiteral(l, 0.0) && !IsLiteral(l, 1.0) && !IsLiteral(r, 0.0) && !IsLiteral(r, 1.0)
  {
    if IsLiteral(l, 1.0) && !IsLiteral(r, 0.0) {
      assert Size(Mult(l, r)) > Size(r);
    }
    if IsLiteral(r, 1.0) && !IsLiteral(l, 0.0) {
      assert Size(Mult(l, r)) > Size(l);
    }
  }

  /** `1 * 0` is the literal 0: the test for 0 wins over the test for 1. */
  lemma ZeroBeatsOne()
    ensures Simplify(Mult(Constant(1.0), Constant(0.0))) == Constant(0.0)
    ensures Simplify(Mult(Constant(0.0), Constant(1.0))) == Constant(0.0)
  {
  }

  /** A power: exponent 1 gives the base, exponent 0 gives the literal 1
      whatever the base, and otherwise both are kept; numeric bases are not
      folded. */
  lemma PowerRuleCases(l: Node, r: Node)
    ensures IsLiteral(r, 1.0) ==> PowerRule(l, r) == l
    ensures IsLiteral(r, 0.0) ==> PowerRule(l, r) == Constant(1.0)
    ensures !IsLiteral(r, 0.0) && !IsLiteral(r, 1.0) ==> PowerRule(l, r) == Power(l, r)
    ensures Simplify(Power(Constant(2.0), Constant(3.0))) == Power(Constant(2.0), Constant(3.0))
  {
  }

  /** Quotients, sines and cosines are rebuilt around their simplified
      operands: the root keeps its kind, and a literal operand is not folded. */
  lemma SimplifyStructuralRules(l: Node, r: Node, c: Node)
    ensures Simplify(Div(l, r)).Div?
    ensures Simplify(Sin(c)).Sin?
    ensures Simplify(Cos(c)).Cos?
    ensures Simplify(Div(Constant(1.0), Constant(1.0))) == Div(Constant(1.0), Constant(1.0))
    ensures Simplify(Sin(Constant(0.0))) == Sin(Constant(0.0))
  {
  }
}
