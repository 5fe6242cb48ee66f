/** The typed expression tree: one constructor per node class of the
    calculator (`Constant`, `Variable`, `Add`, `Sub`, `Mult`, `Div`, `Power`,
    `Sin`, `Cos`) and its numeric evaluation. Trees are immutable; every
    operation builds a new one. */
module Ast {
  import opened Numerics

  datatype Node =
    | Constant(value: real)
    | Variable
    | Add(left: Node, right: Node)
    | Sub(left: Node, right: Node)
    | Mult(left: Node, right: Node)
    | Div(left: Node, right: Node)
    | Power(left: Node, right: Node)
    | Sin(child: Node)
    | Cos(child: Node)
  {
    predicate IsBinary() {
      Add? || Sub? || Mult? || Div? || Power?
    }
  }

  /** `node.eval(x)`: the value of the tree with the variable bound to `x`. */
  function Eval(lib: Lib, n: Node, x: real): real {
    match n
    case Constant(c) => c
    case Variable => x
    case Add(l, r) => Eval(lib, l, x) + Eval(lib, r, x)
    case Sub(l, r) => Eval(lib, l, x) - Eval(lib, r, x)
    case Mult(l, r) => Times(Eval(lib, l, x), Eval(lib, r, x))
    case Div(l, r) => Quot(lib, Eval(lib, l, x), Eval(lib, r, x))
    case Power(l, r) => lib.pow(Eval(lib, l, x), Eval(lib, r, x))
    case Sin(c) => lib.sin(Eval(lib, c, x))
    case Cos(c) => lib.cos(Eval(lib, c, x))
  }

  /** The tree does not mention the variable. */
  predicate Closed(n: Node) {
    match n
    case Constant(_) => true
    case Variable => false
    case Add(l, r) => Closed(l) && Closed(r)
    case Sub(l, r) => Closed(l) && Closed(r)
    case Mult(l, r) => Closed(l) && Closed(r)
    case Div(l, r) => Closed(l) && Closed(r)
    case Power(l, r) => Closed(l) && Closed(r)
    case Sin(c) => Closed(c)
    case Cos(c) => Closed(c)
  }

  /** The tree contains no quotient. */
  predicate DivFree(n: Node) {
    match n
    case Constant(_) => true
    case Variable => true
    case Add(l, r) => DivFree(l) && DivFree(r)
    case Sub(l, r) => DivFree(l) && DivFree(r)
    case Mult(l, r) => DivFree(l) && DivFree(r)
    case Div(_, _) => false
    case Power(l, r) => DivFree(l) && DivFree(r)
    case Sin(c) => DivFree(c)
    case Cos(c) => DivFree(c)
  }

  /** Every exponent in the tree is variable-free. */
  predicate ConstantExponents(n: Node) {
    match n
    case Constant(_) => true
    case Variable => true
    case Add(l, r) => ConstantExponents(l) && ConstantExponents(r)
    case Sub(l, r) => ConstantExponents(l) && ConstantExponents(r)
    case Mult(l, r) => ConstantExponents(l) && ConstantExponents(r)
    case Div(l, r) => ConstantExponents(l) && ConstantExponents(r)
    case Power(l, r) => ConstantExponents(l) && Closed(r)
    case Sin(c) => ConstantExponents(c)
    case Cos(c) => ConstantExponents(c)
  }

  function Size(n: Node): nat {
    match n
    case Constant(_) => 1
    case Variable => 1
    case Sin(c) => 1 + Size(c)
    case Cos(c) => 1 + Size(c)
    case _ => 1 + Size(n.left) + Size(n.right)
  }

  /** The node is the literal `c`, the test `n instanceof Constant && n.eval(0) == c`. */
  predicate IsLiteral(n: Node, c: real) {
    n.Constant? && n.value == c
  }

  /** A literal evaluates to its stored value whatever the argument. */
  lemma EvalConstant(lib: Lib, c: real, x: real)
    ensures Eval(lib, Constant(c), x) == c
  {
  }

  /** The variable evaluates to the argument. */
  lemma EvalVariable(lib: Lib, x: real)
    ensures Eval(lib, Variable, x) == x
  {
  }

  lemma EvalAdd(lib: Lib, l: Node, r: Node, x: real)
    ensures Eval(lib, Add(l, r), x) == Eval(lib, l, x) + Eval(lib, r, x)
  {
  }

  lemma EvalSub(lib: Lib, l: Node, r: Node, x: real)
    ensures Eval(lib, Sub(l, r), x) == Eval(lib, l, x) - Eval(lib, r, x)
  {
  }

  lemma EvalMult(lib: Lib, l: Node, r: Node, x: real)
    ensures Eval(lib, Mult(l, r), x) == Times(Eval(lib, l, x), Eval(lib, r, x))
  {
  }

  /** Exact quotient whenever the divisor's value is non-zero. */
  lemma EvalDiv(lib: Lib, l: Node, r: Node, x: real)
    requires Eval(lib, r, x) != 0.0
    ensures Times(Eval(lib, Div(l, r), x), Eval(lib, r, x)) == Eval(lib, l, x)
  {
    QuotExact(lib, Eval(lib, l, x), Eval(lib, r, x));
  }

  lemma EvalPower(lib: Lib, l: Node, r: Node, x: real)
    ensures Eval(lib, Power(l, r), x) == lib.pow(Eval(lib, l, x), Eval(lib, r, x))
  {
  }

  lemma EvalSin(lib: Lib, c: Node, x: real)
    ensures Eval(lib, Sin(c), x) == lib.sin(Eval(lib, c, x))
  {
  }

  lemma EvalCos(lib: Lib, c: Node, x: real)
    ensures Eval(lib, Cos(c), x) == lib.cos(Eval(lib, c, x))
  {
  }

  /** A variable-free tree has the same value at every point; in particular
      `right.eval(0)` is the exponent's value everywhere. */
  lemma {:induction false} ClosedEvalAnywhere(lib: Lib, n: Node, x: real, y: real)
    requires Closed(n)
    ensures Eval(lib, n, x) == Eval(lib, n, y)
  {
    match n
    case Constant(_) =>
    case Variable =>
    case Sin(c) => ClosedEvalAnywhere(lib, c, x, y);
    case Cos(c) => ClosedEvalAnywhere(lib, c, x, y);
    case _ =>
      ClosedEvalAnywhere(lib, n.left, x, y);
      ClosedEvalAnywhere(lib, n.right, x, y);
  }
}
