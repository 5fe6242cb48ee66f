/** `MathPlot.calculateDerivativeAOS`: differentiation by string
    concatenation over the parser's parts. Derivatives of operands are
    computed from their parts; the operands themselves are copied as raw
    text. */
module TextDerivative {
  import opened Wrappers
  import opened Parens
  import opened JavaInt
  import opened AosParts

  /** The rules, in the order `calculateDerivativeAOS` tests them:
      - a leaf is `1` when it is `x` in either case and `0` otherwise;
      - `+` and `-` join the operands' derivatives around the operator;
      - `*` and `/` follow the product and quotient rules with the raw operand
        texts;
      - `^` with an int exponent `n` gives `(n * base^(n-1))`, with no chain
        factor and `n - 1` computed in 32 bits; any other exponent gives
        `d(base^exp)`;
      - every other head needs its left operand: `sin`, `cos`, `exp` and `ln`
        follow the chain rule, and an unknown name gives `d(name)`.
      Reading an absent operand fails. */
  function TextDerive(p: Parts): Result<string, Fault>
    decreases p
  {
    if IsLeaf(p) then Ok(if IsX(p.main) then "1" else "0")
    else
      var op, L, R := p.main, Raw(p.left), Raw(p.right);
      if op == "+" || op == "-" then
        var dl :- DeriveOperand(p.left);
        var dr :- DeriveOperand(p.right);
        Ok(Paren(dl + " " + op + " " + dr))
      else if op == "*" then
        var dl :- DeriveOperand(p.left);
        var dr :- DeriveOperand(p.right);
        Ok(Paren(Paren(dl + " * " + R) + " + " + Paren(L + " * " + dr)))
      else if op == "/" then
        var dl :- DeriveOperand(p.left);
        var dr :- DeriveOperand(p.right);
        Ok(Paren(Paren(Paren(dl + " * " + R) + " - " + Paren(L + " * " + dr)) + " / " + Paren(R + "^2")))
      else if op == "^" then
        Ok(PowerRuleText(L, R))
      else
        match p.left
        case Missing => Err(MissingOperand)
        case Given(_, arg) =>
          if op == "sin" then
            var d :- TextDerive(arg);
            Ok(Paren("cos" + Paren(L) + " * " + d))
          else if op == "cos" then
            var d :- TextDerive(arg);
            Ok(Paren("-sin" + Paren(L) + " * " + d))
          else if op == "exp" then
            var d :- TextDerive(arg);
            Ok(Paren("exp" + Paren(L) + " * " + d))
          else if op == "ln" then
            var d :- TextDerive(arg);
            Ok(Paren(d + " / " + L))
          else
            Ok("d" + Paren(op))
  }

  /** The `^` rule on the raw base and exponent texts. */
  function PowerRuleText(L: string, R: string): string {
    match Parse(R)
    case Some(n) => Paren(R + " * " + L + "^" + LoweredExponent(n))
    case None => "d" + Paren(L + "^" + R)
  }

  /** The exponent of the power rule's result, `n - 1` in int arithmetic. */
  function LoweredExponent(n: int): string {
    ToText(Wrap(n - 1))
  }

  /** Parsing an absent operand fails; a present one yields its parts. */
  function DeriveOperand(o: Operand): Result<string, Fault>
    decreases o
  {
    match o
    case Missing => Err(MissingOperand)
    case Given(_, t) => TextDerive(t)
  }

  /** Heads are plain tokens and every present operand's text is balanced. */
  predicate WellFormed(p: Parts)
    decreases p
  {
    NoParens(p.main) && OperandWellFormed(p.left) && OperandWellFormed(p.right)
  }

  predicate OperandWellFormed(o: Operand)
    decreases o
  {
    o.Missing? || (Balanced(o.text) && WellFormed(o.tree))
  }

  /** The parts whose every parsed operand is present: `+`, `-`, `*` and `/`
      parse both operands, `^` parses neither (it copies the raw texts),
      `sin`, `cos`, `exp` and `ln` parse and differentiate the left one, and
      any other head parses the left one without differentiating it. */
  predicate Derivable(p: Parts)
    decreases p
  {
    if IsLeaf(p) then true
    else if p.main in {"+", "-", "*", "/"} then OperandDerivable(p.left) && OperandDerivable(p.right)
    else if p.main == "^" then true
    else if p.main in {"sin", "cos", "exp", "ln"} then OperandDerivable(p.left)
    else p.left.Given?
  }

  predicate OperandDerivable(o: Operand)
    decreases o
  {
    o.Given? && Derivable(o.tree)
  }

  /** Differentiation succeeds exactly on derivable parts, and the only
      failure is a missing operand. */
  lemma {:induction false} TextDeriveFailsOnlyOnMissingOperand(p: Parts)
    ensures TextDerive(p).Err? ==> TextDerive(p).error == MissingOperand
    ensures TextDerive(p).Ok? <==> Derivable(p)
    decreases p
  {
    if !IsLeaf(p) {
      if p.left.Given? {
        TextDeriveFailsOnlyOnMissingOperand(p.left.tree);
      }
      if p.right.Given? {
        TextDeriveFailsOnlyOnMissingOperand(p.right.tree);
      }
    }
  }

  /** A `^` with no base and `tan` over an argument that could not be
      differentiated both succeed: their rules never differentiate an
      operand. */
  lemma UnreadOperandsExamples()
    ensures TextDerive(Parts("^", Missing, Given("2", Leaf("2")))) == Ok("(2 * null^1)")
    ensures
      var arg := Parts("+", Given("x", Leaf("x")), Missing);
      && TextDerive(arg).Err?
      && TextDerive(Parts("tan", Given("(x + null)", arg), Missing)) == Ok("d(tan)")
  {
    assert ToText(2) == "2";
    ParseInvertsToText(2);
    assert Wrap(2 - 1) == 1;
    assert LoweredExponent(2) == "1";
    assert PowerRuleText("null", "2") == Paren("2" + " * " + "null" + "^" + "1");
    var pw := Parts("^", Missing, Given("2", Leaf("2")));
    assert !IsLeaf(pw) && Raw(pw.left) == "null" && Raw(pw.right) == "2";
    assert TextDerive(pw) == Ok(PowerRuleText("null", "2"));
    assert Paren("2" + " * " + "null" + "^" + "1") == "(2 * null^1)";
    assert "d" + Paren("tan") == "d(tan)";
  }

  /** A leaf differentiates to `1` exactly when it is the variable. */
  lemma LeafDerivative(token: string)
    ensures TextDerive(Leaf(token)) == Ok("1") <==> IsX(token)
    ensures TextDerive(Leaf(token)) == Ok("0") <==> !IsX(token)
  {
  }

  lemma RawBalanced(o: Operand)
    requires OperandWellFormed(o)
    ensures Balanced(Raw(o))
  {
    if o.Missing? {
      NoParensBalanced("null");
    }
  }

  lemma NumeralBalanced(i: int)
    ensures Balanced(ToText(i))
  {
    var s := ToText(i);
    var digits := if i < 0 then Digits(-i) else Digits(i);
    assert forall k :: 0 <= k < |digits| ==> IsDigit(digits[k]);
    assert NoParens(s);
    NoParensBalanced(s);
  }

  /** `(a sep b)` is balanced when `a` and `b` are. */
  lemma Grouped(a: string, sep: string, b: string)
    requires Balanced(a) && NoParens(sep) && Balanced(b)
    ensures Balanced(Paren(a + sep + b))
  {
    Join(a, sep, b);
    ParenBalanced(a + sep + b);
  }

  /** The product-rule text `((dl * R) + (L * dr))` and its quotient-rule
      sibling are balanced when their pieces are. */
  lemma RuleTextsBalanced(dl: string, dr: string, L: string, R: string)
    requires Balanced(dl) && Balanced(dr) && Balanced(L) && Balanced(R)
    ensures Balanced(Paren(Paren(dl + " * " + R) + " + " + Paren(L + " * " + dr)))
    ensures Balanced(Paren(Paren(Paren(dl + " * " + R) + " - " + Paren(L + " * " + dr)) + " / " + Paren(R + "^2")))
  {
    Grouped(dl, " * ", R);
    Grouped(L, " * ", dr);
    Grouped(Paren(dl + " * " + R), " + ", Paren(L + " * " + dr));
    Grouped(Paren(dl + " * " + R), " - ", Paren(L + " * " + dr));
    NoParensBalanced("^2");
    BalancedAppend(R, "^2");
    ParenBalanced(R + "^2");
    Grouped(Paren(Paren(dl + " * " + R) + " - " + Paren(L + " * " + dr)), " / ", Paren(R + "^2"));
  }

  /** The chain-rule text `(name(L) * d)` is balanced when `L` and `d` are. */
  lemma ChainTextBalanced(name: string, L: string, d: string)
    requires NoParens(name) && Balanced(L) && Balanced(d)
    ensures Balanced(Paren(name + Paren(L) + " * " + d))
  {
    Call(name, L);
    Grouped(name + Paren(L), " * ", d);
  }

  /** A present operand's derivative, when there is one, is balanced. */
  predicate OperandDerivativeBalanced(o: Operand) {
    DeriveOperand(o).Ok? ==> Balanced(DeriveOperand(o).value)
  }

  lemma ArithmeticStepBalanced(p: Parts)
    requires !IsLeaf(p) && p.main in {"+", "-", "*", "/"}
    requires Balanced(Raw(p.left)) && Balanced(Raw(p.right))
    requires OperandDerivativeBalanced(p.left) && OperandDerivativeBalanced(p.right)
    ensures TextDerive(p).Ok? ==> Balanced(TextDerive(p).value)
  {
    var op, L, R := p.main, Raw(p.left), Raw(p.right);
    if TextDerive(p).Ok? {
      assert DeriveOperand(p.left).Ok? && DeriveOperand(p.right).Ok?;
      var dl, dr := DeriveOperand(p.left).value, DeriveOperand(p.right).value;
      if op == "+" || op == "-" {
        assert NoParens(" " + op + " ");
        assert dl + " " + op + " " + dr == dl + (" " + op + " ") + dr;
        Grouped(dl, " " + op + " ", dr);
      } else {
        RuleTextsBalanced(dl, dr, L, R);
      }
    }
  }

  lemma PowerRuleTextBalanced(L: string, R: string)
    requires Balanced(L) && Balanced(R)
    ensures Balanced(PowerRuleText(L, R))
  {
    match Parse(R)
    case Some(n) =>
      NumeralBalanced(Wrap(n - 1));
      PowerTextsBalanced(L, R, LoweredExponent(n));
    case None =>
      PowerTextsBalanced(L, R, "");
  }

  /** Both shapes of the `^` rule's text are balanced when their pieces are. */
  lemma PowerTextsBalanced(L: string, R: string, k: string)
    requires Balanced(L) && Balanced(R) && Balanced(k)
    ensures Balanced(Paren(R + " * " + L + "^" + k))
    ensures Balanced("d" + Paren(L + "^" + R))
  {
    Join(R, " * ", L);
    Grouped(R + " * " + L, "^", k);
    Join(L, "^", R);
    Call("d", L + "^" + R);
  }

  lemma FunctionStepBalanced(p: Parts)
    requires !IsLeaf(p) && p.main !in {"+", "-", "*", "/", "^"} && NoParens(p.main)
    requires Balanced(Raw(p.left)) && OperandDerivativeBalanced(p.left)
    ensures TextDerive(p).Ok? ==> Balanced(TextDerive(p).value)
  {
    var op, L := p.main, Raw(p.left);
    if TextDerive(p).Ok? {
      if op in {"sin", "cos", "exp", "ln"} {
        assert DeriveOperand(p.left).Ok?;
        var d := DeriveOperand(p.left).value;
        if op == "sin" {
          ChainTextBalanced("cos", L, d);
        } else if op == "cos" {
          ChainTextBalanced("-sin", L, d);
        } else if op == "exp" {
          ChainTextBalanced("exp", L, d);
        } else {
          Grouped(d, " / ", L);
        }
      } else {
        NoParensBalanced(op);
        Call("d", op);
      }
    }
  }

  /** On well-formed parts the derivative text has balanced parentheses, so
      the parser can read it back. */
  lemma {:induction false} TextDeriveBalanced(p: Parts)
    requires WellFormed(p)
    ensures TextDerive(p).Ok? ==> Balanced(TextDerive(p).value)
    decreases p
  {
    if IsLeaf(p) {
      NoParensBalanced("1");
      NoParensBalanced("0");
    } else {
      RawBalanced(p.left);
      RawBalanced(p.right);
      if p.left.Given? {
        TextDeriveBalanced(p.left.tree);
      }
      if p.right.Given? {
        TextDeriveBalanced(p.right.tree);
      }
      assert OperandDerivativeBalanced(p.left) && OperandDerivativeBalanced(p.right);
      if p.main in {"+", "-", "*", "/"} {
        ArithmeticStepBalanced(p);
      } else if p.main == "^" {
        PowerRuleTextBalanced(Raw(p.left), Raw(p.right));
      } else {
        FunctionStepBalanced(p);
      }
    }
  }

  /** With an int exponent `n`, the exponent printed into the derivative
      reads back as `n - 1` in 32-bit arithmetic: `x^-2147483648` yields
      exponent `2147483647`. */
  lemma PowerExponentText(base: string, b: Parts, exponent: string, e: Parts)
    requires Parse(exponent).Some?
    ensures
      var n := Parse(exponent).value;
      && TextDerive(Binary("^", base, b, exponent, e))
         == Ok(Paren(exponent + " * " + base + "^" + ToText(Wrap(n - 1))))
      && Parse(ToText(Wrap(n - 1))) == Some(Wrap(n - 1))
      && (n == MinInt ==> Wrap(n - 1) == MaxInt)
  {
    PowerNode(base, b, exponent, e);
    LoweredReadsBack(Parse(exponent).value);
  }

  /** A `^` node's derivative is the power rule on its operand texts. */
  lemma PowerNode(base: string, b: Parts, exponent: string, e: Parts)
    ensures TextDerive(Binary("^", base, b, exponent, e)) == Ok(PowerRuleText(base, exponent))
  {
  }

  lemma LoweredReadsBack(n: int)
    ensures Parse(LoweredExponent(n)) == Some(Wrap(n - 1))
    ensures n == MinInt ==> Wrap(n - 1) == MaxInt
  {
    ParseInvertsToText(Wrap(n - 1));
  }

  /** A non-integer exponent is left as an unevaluated `d(...)`. */
  lemma PowerSymbolicExponent(base: string, b: Parts, exponent: string, e: Parts)
    requires Parse(exponent).None?
    ensures TextDerive(Binary("^", base, b, exponent, e)) == Ok("d(" + base + "^" + exponent + ")")
  {
    assert "d" + Paren(base + "^" + exponent) == "d(" + base + "^" + exponent + ")";
  }

  /** `x^2` differentiates to `(2 * x^1)`. */
  lemma SquareOfX()
    ensures TextDerive(Binary("^", "x", Leaf("x"), "2", Leaf("2"))) == Ok("(2 * x^1)")
  {
    ParseInvertsToText(2);
    assert ToText(2) == "2";
    assert ToText(Wrap(2 - 1)) == "1";
    assert PowerRuleText("x", "2") == Paren("2" + " * " + "x" + "^" + "1");
    assert Paren("2" + " * " + "x" + "^" + "1") == "(2 * x^1)";
  }

  /** `sin(x)` differentiates to `(cos(x) * 1)`. */
  lemma SineOfX()
    ensures TextDerive(Unary("sin", "x", Leaf("x"))) == Ok("(cos(x) * 1)")
  {
    assert TextDerive(Leaf("x")) == Ok("1");
    assert Paren("cos" + Paren("x") + " * " + "1") == "(cos(x) * 1)";
  }

  /** `x^2 + sin(x)` differentiates to `((2 * x^1) + (cos(x) * 1))`, for
      the parts `+`, `x^2`, `sin(x)`. */
  lemma SumOfPowerAndSine()
    ensures
      var power := Binary("^", "x", Leaf("x"), "2", Leaf("2"));
      var sine := Unary("sin", "x", Leaf("x"));
      TextDerive(Binary("+", "x^2", power, "sin(x)", sine)) == Ok("((2 * x^1) + (cos(x) * 1))")
  {
    var power := Binary("^", "x", Leaf("x"), "2", Leaf("2"));
    var sine := Unary("sin", "x", Leaf("x"));
    SquareOfX();
    SineOfX();
    SumText("x^2", power, "sin(x)", sine);
    SumLiteral();
  }

  lemma SumLiteral()
    ensures Paren("(2 * x^1)" + " " + "+" + " " + "(cos(x) * 1)") == "((2 * x^1) + (cos(x) * 1))"
  {
  }

  /** A sum of two differentiable operands is the sum of their derivatives. */
  lemma SumText(left: string, l: Parts, right: string, r: Parts)
    requires TextDerive(l).Ok? && TextDerive(r).Ok?
    ensures TextDerive(Binary("+", left, l, right, r))
         == Ok(Paren(TextDerive(l).value + " " + "+" + " " + TextDerive(r).value))
  {
  }

  /** Leaf examples: a number gives `0`, the variable `1`. */
  lemma LeafExamples()
    ensures TextDerive(Leaf("5")) == Ok("0")
    ensures TextDerive(Leaf("x")) == Ok("1")
    ensures TextDerive(Leaf("X")) == Ok("1")
  {
  }

  /** An unknown function name is left as `d(name)`; a sum missing an
      operand fails. */
  lemma OtherHeads()
    ensures TextDerive(Unary("tan", "x", Leaf("x"))) == Ok("d(tan)")
    ensures TextDerive(Unary("ln", "x", Leaf("x"))) == Ok("(1 / x)")
    ensures TextDerive(Parts("+", Given("x", Leaf("x")), Missing)) == Err(MissingOperand)
  {
    assert TextDerive(Leaf("x")) == Ok("1");
    assert "d" + Paren("tan") == "d(tan)";
    assert Paren("1" + " / " + "x") == "(1 / x)";
  }
}
