/** `FormatTranslator`: trees to fully parenthesised infix (AOS) text, parser
    parts to trees, and the reverse Polish (RPN) entry points, which are not
    implemented and always fail. */
module FormatTranslator {
  import opened Wrappers
  import opened Parens
  import opened Ast
  import opened AosParts

  /** `Double.toString` (`show`) and `Double.parseDouble` (`parse`, `None`
      where it throws), kept abstract. */
  datatype NumberText = NumberText(show: real -> string, parse: string -> Option<real>)

  /** No name or operator token reads as a number. */
  predicate TokensNotNumbers(nf: NumberText) {
    && nf.parse("x") == None && nf.parse("X") == None
    && nf.parse("sin") == None && nf.parse("cos") == None
    && nf.parse("+") == None && nf.parse("-") == None && nf.parse("*") == None
    && nf.parse("/") == None && nf.parse("^") == None
  }

  /** Every literal of the tree reads back as printed. `Double.toString`
      and `Double.parseDouble` round-trip every double, so this holds of
      every tree whose literals are doubles. */
  predicate ConstantsReadBack(nf: NumberText, n: Node) {
    match n
    case Constant(c) => nf.parse(nf.show(c)) == Some(c)
    case Variable => true
    case Sin(c) => ConstantsReadBack(nf, c)
    case Cos(c) => ConstantsReadBack(nf, c)
    case _ => ConstantsReadBack(nf, n.left) && ConstantsReadBack(nf, n.right)
  }

  /** A printed number contains no parenthesis. */
  ghost predicate PlainNumbers(nf: NumberText) {
    forall c :: NoParens(nf.show(c))
  }

  datatype ExpressionFormat = AOS | RPN

  /** The infix operator of a binary node, padded with one space each side. */
  function OperatorText(n: Node): string
    requires n.IsBinary()
  {
    match n
    case Add(_, _) => " + "
    case Sub(_, _) => " - "
    case Mult(_, _) => " * "
    case Div(_, _) => " / "
    case Power(_, _) => " ^ "
  }

  /** `buildStringFromAOS`: `x`, the number text of a literal, `sin(...)` and
      `cos(...)`, and every binary node inside one pair of parentheses. */
  function Print(nf: NumberText, n: Node): string {
    match n
    case Variable => "x"
    case Constant(c) => nf.show(c)
    case Sin(c) => "sin" + Paren(Print(nf, c))
    case Cos(c) => "cos" + Paren(Print(nf, c))
    case _ => Paren(Print(nf, n.left) + OperatorText(n) + Print(nf, n.right))
  }

  /** The head token of a binary node as the parser reports it. */
  function OperatorToken(n: Node): string
    requires n.IsBinary()
  {
    match n
    case Add(_, _) => "+"
    case Sub(_, _) => "-"
    case Mult(_, _) => "*"
    case Div(_, _) => "/"
    case Power(_, _) => "^"
  }

  /** The parts of a tree's printed text, each operand paired with its own
      printed text: the parser output that `Build` inverts. */
  function Decompose(nf: NumberText, n: Node): Parts {
    match n
    case Variable => Leaf("x")
    case Constant(c) => Leaf(nf.show(c))
    case Sin(c) => Unary("sin", Print(nf, c), Decompose(nf, c))
    case Cos(c) => Unary("cos", Print(nf, c), Decompose(nf, c))
    case _ =>
      Binary(OperatorToken(n), Print(nf, n.left), Decompose(nf, n.left),
             Print(nf, n.right), Decompose(nf, n.right))
  }

  /** `buildAOS`: a head that reads as a number is a literal, before any
      other test; then `x` in either case is the variable; `sin` and `cos`
      build their left operand only; any other head builds the left and then
      the right operand and only afterwards looks the operator up. */
  function Build(nf: NumberText, p: Parts): Result<Node, Fault>
    decreases p
  {
    match nf.parse(p.main)
    case Some(v) => Ok(Constant(v))
    case None =>
      if IsX(p.main) then Ok(Variable)
      else if p.main == "sin" then
        var c :- BuildOperand(nf, p.left);
        Ok(Sin(c))
      else if p.main == "cos" then
        var c :- BuildOperand(nf, p.left);
        Ok(Cos(c))
      else
        var l :- BuildOperand(nf, p.left);
        var r :- BuildOperand(nf, p.right);
        match p.main
        case "+" => Ok(Add(l, r))
        case "-" => Ok(Sub(l, r))
        case "*" => Ok(Mult(l, r))
        case "/" => Ok(Div(l, r))
        case "^" => Ok(Power(l, r))
        case _ => Err(UnknownOperator(p.main))
  }

  /** Building from an absent operand fails. */
  function BuildOperand(nf: NumberText, o: Operand): Result<Node, Fault>
    decreases o
  {
    match o
    case Missing => Err(MissingOperand)
    case Given(_, t) => Build(nf, t)
  }

  /** `fromAOS` applied to parts the parser produced. */
  function FromAos(nf: NumberText, p: Parts): Result<Node, Fault> {
    Build(nf, p)
  }

  /** `fromRPN`: not implemented, whatever the text. */
  function FromRpn(expression: string): (r: Result<Node, Fault>)
    ensures r == Err(NotImplemented)
  {
    Err(NotImplemented)
  }

  /** `toString(node, format)`: the AOS text, or a failure for RPN. */
  function Render(nf: NumberText, n: Node, format: ExpressionFormat): (r: Result<string, Fault>)
    ensures format == RPN <==> r == Err(NotImplemented)
    ensures format == AOS ==> r == Ok(Print(nf, n))
  {
    match format
    case AOS => Ok(Print(nf, n))
    case RPN => Err(NotImplemented)
  }

  /** The names and operators `Build` recognises. */
  predicate KnownHead(s: string) {
    s in {"sin", "cos", "+", "-", "*", "/", "^"}
  }

  /** Parts `Build` accepts: number heads and `x` anywhere, and known
      operators whose operands it needs are present and accepted. */
  predicate Buildable(nf: NumberText, p: Parts)
    decreases p
  {
    if nf.parse(p.main).Some? || IsX(p.main) then true
    else if p.main == "sin" || p.main == "cos" then OperandBuildable(nf, p.left)
    else OperandBuildable(nf, p.left) && OperandBuildable(nf, p.right) && KnownHead(p.main)
  }

  predicate OperandBuildable(nf: NumberText, o: Operand)
    decreases o
  {
    o.Given? && Buildable(nf, o.tree)
  }

  /** `Build` succeeds exactly on the parts it accepts, and every failure is
      an unknown operator or an absent operand. */
  lemma {:induction false} BuildSucceedsIffBuildable(nf: NumberText, p: Parts)
    ensures Build(nf, p).Ok? <==> Buildable(nf, p)
    ensures Build(nf, p).Err? ==> Build(nf, p).error.UnknownOperator? || Build(nf, p).error == MissingOperand
    decreases p
  {
    if nf.parse(p.main).None? && !IsX(p.main) {
      if p.left.Given? {
        BuildSucceedsIffBuildable(nf, p.left.tree);
      }
      if p.right.Given? && p.main != "sin" && p.main != "cos" {
        BuildSucceedsIffBuildable(nf, p.right.tree);
      }
    }
  }

  /** Building the parts of a printed tree gives the tree back, given that
      the tree's numbers read back as printed and no operator token reads as
      a number. */
  lemma {:induction false} BuildInvertsDecompose(nf: NumberText, n: Node)
    requires TokensNotNumbers(nf) && ConstantsReadBack(nf, n)
    ensures Build(nf, Decompose(nf, n)) == Ok(n)
  {
    match n
    case Variable =>
    case Constant(c) =>
    case Sin(c) =>
      BuildInvertsDecompose(nf, c);
      assert Build(nf, Decompose(nf, n)) == Ok(Sin(c));
    case Cos(c) =>
      BuildInvertsDecompose(nf, c);
      assert Build(nf, Decompose(nf, n)) == Ok(Cos(c));
    case _ =>
      BuildInvertsDecompose(nf, n.left);
      BuildInvertsDecompose(nf, n.right);
      BinaryBuildInverts(nf, n);
  }

  /** One binary step: once both operands build back, so does the node. */
  lemma BinaryBuildInverts(nf: NumberText, n: Node)
    requires n.IsBinary() && TokensNotNumbers(nf)
    requires Build(nf, Decompose(nf, n.left)) == Ok(n.left)
    requires Build(nf, Decompose(nf, n.right)) == Ok(n.right)
    ensures Build(nf, Decompose(nf, n)) == Ok(n)
  {
    var p := Decompose(nf, n);
    assert p.main == OperatorToken(n);
    assert BuildOperand(nf, p.left) == Ok(n.left);
    assert BuildOperand(nf, p.right) == Ok(n.right);
  }

  /** Printed text is balanced, given that printed numbers contain no
      parenthesis. */
  lemma {:induction false} PrintBalanced(nf: NumberText, n: Node)
    requires PlainNumbers(nf)
    ensures Balanced(Print(nf, n))
  {
    match n
    case Variable =>
      NoParensBalanced("x");
    case Constant(c) =>
      NoParensBalanced(nf.show(c));
    case Sin(c) =>
      PrintBalanced(nf, c);
      Call("sin", Print(nf, c));
    case Cos(c) =>
      PrintBalanced(nf, c);
      Call("cos", Print(nf, c));
    case _ =>
      PrintBalanced(nf, n.left);
      PrintBalanced(nf, n.right);
      BinaryPrintBalanced(nf, n);
  }

  lemma BinaryPrintBalanced(nf: NumberText, n: Node)
    requires n.IsBinary()
    requires Balanced(Print(nf, n.left)) && Balanced(Print(nf, n.right))
    ensures Balanced(Print(nf, n))
  {
    var a, op, b := Print(nf, n.left), OperatorText(n), Print(nf, n.right);
    assert Print(nf, n) == Paren(a + op + b);
    Join(a, op, b);
    ParenBalanced(a + op + b);
  }

  /** A binary node prints with the operator padded by single spaces:
      `(3 * (x + 2))` builds and prints as `(3.0 * (x + 2.0))` when the
      numbers print in Java's style. */
  lemma PrintExample(nf: NumberText)
    requires nf.show(3.0) == "3.0" && nf.show(2.0) == "2.0"
    requires nf.parse("3") == Some(3.0) && nf.parse("2") == Some(2.0)
    requires nf.parse("*") == None && nf.parse("+") == None && nf.parse("x") == None
    ensures
      var sum := Binary("+", "x", Leaf("x"), "2", Leaf("2"));
      var p := Binary("*", "3", Leaf("3"), "(x + 2)", sum);
      && Build(nf, p) == Ok(Mult(Constant(3.0), Add(Variable, Constant(2.0))))
      && Print(nf, Mult(Constant(3.0), Add(Variable, Constant(2.0)))) == "(3.0 * (x + 2.0))"
  {
    BuildProductExample(nf);
    PrintProductExample(nf);
  }

  lemma BuildProductExample(nf: NumberText)
    requires nf.parse("3") == Some(3.0) && nf.parse("2") == Some(2.0)
    requires nf.parse("*") == None && nf.parse("+") == None && nf.parse("x") == None
    ensures
      var sum := Binary("+", "x", Leaf("x"), "2", Leaf("2"));
      Build(nf, Binary("*", "3", Leaf("3"), "(x + 2)", sum)) == Ok(Mult(Constant(3.0), Add(Variable, Constant(2.0))))
  {
    BuildSumExample(nf);
    assert Build(nf, Leaf("3")) == Ok(Constant(3.0));
  }

  lemma PrintProductExample(nf: NumberText)
    requires nf.show(3.0) == "3.0" && nf.show(2.0) == "2.0"
    ensures Print(nf, Mult(Constant(3.0), Add(Variable, Constant(2.0)))) == "(3.0 * (x + 2.0))"
  {
    PrintSumExample(nf);
    assert Print(nf, Mult(Constant(3.0), Add(Variable, Constant(2.0))))
        == Paren("3.0" + " * " + "(x + 2.0)");
  }

  lemma BuildSumExample(nf: NumberText)
    requires nf.parse("2") == Some(2.0)
    requires nf.parse("+") == None && nf.parse("x") == None
    ensures Build(nf, Binary("+", "x", Leaf("x"), "2", Leaf("2"))) == Ok(Add(Variable, Constant(2.0)))
  {
    assert Build(nf, Leaf("x")) == Ok(Variable);
  }

  lemma PrintSumExample(nf: NumberText)
    requires nf.show(2.0) == "2.0"
    ensures Print(nf, Add(Variable, Constant(2.0))) == "(x + 2.0)"
  {
    assert Print(nf, Add(Variable, Constant(2.0))) == Paren("x" + " + " + "2.0");
  }

  /** `(3 ? 4)` fails with an unknown operator; `(3 + )`, whose right
      operand is absent, fails as well. */
  lemma BuildFailureExamples(nf: NumberText)
    requires nf.parse("3") == Some(3.0) && nf.parse("4") == Some(4.0)
    requires nf.parse("?") == None && nf.parse("+") == None
    ensures Build(nf, Binary("?", "3", Leaf("3"), "4", Leaf("4"))) == Err(UnknownOperator("?"))
    ensures Build(nf, Parts("+", Given("3", Leaf("3")), Missing)).Err?
  {
  }

  /** A numeric head wins over every other reading, even with operands. */
  lemma NumericHeadFirst(nf: NumberText, p: Parts)
    requires nf.parse(p.main).Some?
    ensures Build(nf, p) == Ok(Constant(nf.parse(p.main).value))
  {
  }
}
