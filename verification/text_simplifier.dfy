/** `MathPlot.simplify`: simplification by string rewriting over the
    parser's parts. Operands are simplified first; a result that reads as a
    Java `int` takes part in constant folding. */
module TextSimplifier {
  import opened Wrappers
  import opened Parens
  import opened JavaInt
  import opened AosParts
  import opened TextDerivative

  /** `String.valueOf` of `Math.pow`, `Math.sin`, `Math.cos`, `Math.exp` and
      `Math.log` on int arguments: floating point, kept abstract. */
  datatype FloatFolds = FloatFolds(
    pow: (int, int) -> string,
    sin: int -> string,
    cos: int -> string,
    exp: int -> string,
    ln: int -> string)

  /** Every folded floating-point text is free of parentheses, as Java's
      double spellings (`8.0`, `NaN`, `-Infinity`, `1.0E10`) are. */
  ghost predicate PlainFolds(ff: FloatFolds) {
    && (forall a, b :: NoParens(ff.pow(a, b)))
    && (forall a :: NoParens(ff.sin(a)))
    && (forall a :: NoParens(ff.cos(a)))
    && (forall a :: NoParens(ff.exp(a)))
    && (forall a :: NoParens(ff.ln(a)))
  }

  /** A possibly absent text as string concatenation renders it. */
  function Show(s: Option<string>): string {
    match s
    case None => "null"
    case Some(t) => t
  }

  /** `tryParseInteger`: absent text and text that is not an int give none. */
  function IntOf(s: Option<string>): (r: Option<int>)
    ensures s.None? ==> r.None?
    ensures r.Some? ==> InRange(r.value)
  {
    match s
    case None => None
    case Some(t) => Parse(t)
  }

  /** The rules below receive the simplified operand texts `ls`, `rs` and
      their int readings `L`, `R`.

      `+`: two ints fold with wrap-around; a literal 0 on either side gives
      the other side; otherwise the sum is kept. */
  function FoldSum(L: Option<int>, R: Option<int>, ls: Option<string>, rs: Option<string>): Option<string> {
    if L.Some? && R.Some? then Some(ToText(Wrap(L.value + R.value)))
    else if L == Some(0) then rs
    else if R == Some(0) then ls
    else Some(Paren(Show(ls) + " + " + Show(rs)))
  }

  /** `-`: two ints fold; only a 0 on the right is dropped. */
  function FoldDifference(L: Option<int>, R: Option<int>, ls: Option<string>, rs: Option<string>): Option<string> {
    if L.Some? && R.Some? then Some(ToText(Wrap(L.value - R.value)))
    else if R == Some(0) then ls
    else Some(Paren(Show(ls) + " - " + Show(rs)))
  }

  /** `*`: two ints fold; a 1 on the left, then a 1 on the right, is
      dropped; a 0 on either side gives `0`. */
  function FoldProduct(L: Option<int>, R: Option<int>, ls: Option<string>, rs: Option<string>): Option<string> {
    if L.Some? && R.Some? then Some(ToText(Wrap(L.value * R.value)))
    else if L == Some(1) then rs
    else if R == Some(1) then ls
    else if L == Some(0) || R == Some(0) then Some("0")
    else Some(Paren(Show(ls) + " * " + Show(rs)))
  }

  /** `/`: two ints fold with truncating division, and a zero divisor throws;
      a 1 on the right is dropped. */
  function FoldQuotient(L: Option<int>, R: Option<int>, ls: Option<string>, rs: Option<string>): Result<Option<string>, Fault>
    requires L.Some? ==> InRange(L.value)
    requires R.Some? ==> InRange(R.value)
  {
    if L.Some? && R.Some? then
      if R.value == 0 then Err(DivisionByZero) else Ok(Some(ToText(Div(L.value, R.value))))
    else if R == Some(1) then Ok(ls)
    else Ok(Some(Paren(Show(ls) + " / " + Show(rs))))
  }

  /** `^`: an int exponent 0 gives `1`, exponent 1 gives the base, and an
      int base with an int exponent folds in floating point. */
  function FoldPower(pow: (int, int) -> string, L: Option<int>, R: Option<int>, ls: Option<string>, rs: Option<string>): Option<string> {
    if R == Some(0) then Some("1")
    else if R == Some(1) then ls
    else if L.Some? && R.Some? then Some(pow(L.value, R.value))
    else Some(Paren(Show(ls) + "^" + Show(rs)))
  }

  /** `sin`, `cos`, `exp` and `ln`: an int argument folds in floating point. */
  function FoldCall(f: int -> string, name: string, L: Option<int>, ls: Option<string>): string {
    match L
    case Some(a) => f(a)
    case None => name + Paren(Show(ls))
  }

  /** Any other head is kept as `(name(left))` or `(name(left,right))`. */
  function OtherCall(name: string, ls: Option<string>, rs: Option<string>): string {
    Paren(name + Paren(Show(ls) + (if rs.Some? then "," + rs.value else "")))
  }

  /** One node's rewrite once its operands are simplified: both operands
      are read as ints once, then the node's rule applies. */
  function Rewrite(ff: FloatFolds, op: string, ls: Option<string>, rs: Option<string>): Result<Option<string>, Fault> {
    var L, R := IntOf(ls), IntOf(rs);
    if op == "+" then Ok(FoldSum(L, R, ls, rs))
    else if op == "-" then Ok(FoldDifference(L, R, ls, rs))
    else if op == "*" then Ok(FoldProduct(L, R, ls, rs))
    else if op == "/" then FoldQuotient(L, R, ls, rs)
    else if op == "^" then Ok(FoldPower(ff.pow, L, R, ls, rs))
    else if op == "sin" then Ok(Some(FoldCall(ff.sin, "sin", L, ls)))
    else if op == "cos" then Ok(Some(FoldCall(ff.cos, "cos", L, ls)))
    else if op == "exp" then Ok(Some(FoldCall(ff.exp, "exp", L, ls)))
    else if op == "ln" then Ok(Some(FoldCall(ff.ln, "ln", L, ls)))
    else Ok(Some(OtherCall(op, ls, rs)))
  }

  /** `simplify`: a leaf is its own text; otherwise the left and then the
      right operand are simplified (an absent one stays absent) and the node
      is rewritten. The result is absent when a rule returns an absent
      operand, as `0 + null` does. */
  function TextSimplify(ff: FloatFolds, p: Parts): Result<Option<string>, Fault>
    decreases p
  {
    if IsLeaf(p) then Ok(Some(p.main))
    else
      var ls :- SimplifyOperand(ff, p.left);
      var rs :- SimplifyOperand(ff, p.right);
      Rewrite(ff, p.main, ls, rs)
  }

  function SimplifyOperand(ff: FloatFolds, o: Operand): Result<Option<string>, Fault>
    decreases o
  {
    match o
    case Missing => Ok(None)
    case Given(_, t) => TextSimplify(ff, t)
  }

  /** Some node of the parts is a division. */
  predicate HasDivision(p: Parts)
    decreases p
  {
    || p.main == "/"
    || (p.left.Given? && HasDivision(p.left.tree))
    || (p.right.Given? && HasDivision(p.right.tree))
  }

  /** The only failure is an int division by zero, so parts without a
      division always simplify. */
  lemma {:induction false} TextSimplifyFailsOnlyOnDivision(ff: FloatFolds, p: Parts)
    ensures TextSimplify(ff, p).Err? ==> TextSimplify(ff, p).error == DivisionByZero
    ensures TextSimplify(ff, p).Err? ==> HasDivision(p)
    decreases p
  {
    if !IsLeaf(p) {
      if p.left.Given? {
        TextSimplifyFailsOnlyOnDivision(ff, p.left.tree);
      }
      if p.right.Given? {
        TextSimplifyFailsOnlyOnDivision(ff, p.right.tree);
      }
    }
  }

  /** A leaf is returned as it is, whatever it spells. */
  lemma LeafUnchanged(ff: FloatFolds, token: string)
    ensures TextSimplify(ff, Leaf(token)) == Ok(Some(token))
  {
  }

  /** Parts that are int arithmetic: int leaves under `+`, `-`, `*` and `/`
      nodes with both operands. */
  predicate IntExpr(p: Parts)
    decreases p
  {
    if IsLeaf(p) then Parse(p.main).Some?
    else
      && p.main in {"+", "-", "*", "/"}
      && p.left.Given? && p.right.Given?
      && IntExpr(p.left.tree) && IntExpr(p.right.tree)
  }

  /** Java's int `+`, `-`, `*` and `/` on two ints: wrap-around on
      overflow, truncating division, and a throw on a zero divisor. */
  function IntOp(op: string, a: int, b: int): (r: Result<int, Fault>)
    requires op in {"+", "-", "*", "/"}
    requires InRange(a) && InRange(b)
    ensures r.Err? <==> op == "/" && b == 0
    ensures r.Err? ==> r.error == DivisionByZero
    ensures r.Ok? ==> InRange(r.value)
  {
    if op == "+" then Ok(Wrap(a + b))
    else if op == "-" then Ok(Wrap(a - b))
    else if op == "*" then Ok(Wrap(a * b))
    else if b == 0 then Err(DivisionByZero)
    else Ok(Div(a, b))
  }

  /** The value Java's int arithmetic gives such parts, left operand first. */
  function IntValue(p: Parts): (r: Result<int, Fault>)
    requires IntExpr(p)
    ensures r.Ok? ==> InRange(r.value)
    decreases p
  {
    if IsLeaf(p) then Ok(Parse(p.main).value)
    else
      var a :- IntValue(p.left.tree);
      var b :- IntValue(p.right.tree);
      IntOp(p.main, a, b)
  }

  /** A node's result: the first failing operand's fault, or the rewrite
      of the simplified operands. */
  lemma TextSimplifyNode(ff: FloatFolds, p: Parts)
    requires !IsLeaf(p)
    ensures SimplifyOperand(ff, p.left).Err? ==> TextSimplify(ff, p) == Err(SimplifyOperand(ff, p.left).error)
    ensures SimplifyOperand(ff, p.left).Ok? && SimplifyOperand(ff, p.right).Err? ==>
      TextSimplify(ff, p) == Err(SimplifyOperand(ff, p.right).error)
    ensures SimplifyOperand(ff, p.left).Ok? && SimplifyOperand(ff, p.right).Ok? ==>
      TextSimplify(ff, p) == Rewrite(ff, p.main, SimplifyOperand(ff, p.left).value, SimplifyOperand(ff, p.right).value)
  {
  }

  /** Simplifying int arithmetic agrees with its int value: it fails when
      the evaluation does, and otherwise yields a text reading back as the
      value. */
  predicate FoldAgrees(ff: FloatFolds, p: Parts) {
    && IntExpr(p)
    && (TextSimplify(ff, p).Ok? <==> IntValue(p).Ok?)
    && (IntValue(p).Ok? ==>
          && TextSimplify(ff, p).value.Some?
          && IntOf(TextSimplify(ff, p).value) == Some(IntValue(p).value))
  }

  /** An int node's value: the first failing operand's fault, or the node's
      operation on the operands' values. */
  lemma IntValueNode(p: Parts)
    requires IntExpr(p) && !IsLeaf(p)
    ensures IntValue(p.left.tree).Err? ==> IntValue(p).Err?
    ensures IntValue(p.left.tree).Ok? && IntValue(p.right.tree).Err? ==> IntValue(p).Err?
    ensures IntValue(p.left.tree).Ok? && IntValue(p.right.tree).Ok? ==>
      IntValue(p) == IntOp(p.main, IntValue(p.left.tree).value, IntValue(p.right.tree).value)
  {
  }

  /** One inductive step: agreement on both operands gives agreement on
      the node. */
  lemma FoldStep(ff: FloatFolds, p: Parts)
    requires IntExpr(p) && !IsLeaf(p)
    requires FoldAgrees(ff, p.left.tree) && FoldAgrees(ff, p.right.tree)
    ensures FoldAgrees(ff, p)
  {
    var l, r := p.left.tree, p.right.tree;
    TextSimplifyNode(ff, p);
    IntValueNode(p);
    assert SimplifyOperand(ff, p.left) == TextSimplify(ff, l);
    assert SimplifyOperand(ff, p.right) == TextSimplify(ff, r);
    if IntValue(l).Ok? && IntValue(r).Ok? {
      FoldStepOnValues(ff, p);
    }
  }

  lemma FoldStepOnValues(ff: FloatFolds, p: Parts)
    requires IntExpr(p) && !IsLeaf(p)
    requires FoldAgrees(ff, p.left.tree) && FoldAgrees(ff, p.right.tree)
    requires IntValue(p.left.tree).Ok? && IntValue(p.right.tree).Ok?
    ensures FoldAgrees(ff, p)
  {
    var l, r := p.left.tree, p.right.tree;
    FoldOnInts(ff, p, TextSimplify(ff, l).value, TextSimplify(ff, r).value, IntValue(l).value, IntValue(r).value);
  }

  lemma FoldOnInts(ff: FloatFolds, p: Parts, ls: Option<string>, rs: Option<string>, a: int, b: int)
    requires IntExpr(p) && !IsLeaf(p)
    requires TextSimplify(ff, p.left.tree) == Ok(ls) && TextSimplify(ff, p.right.tree) == Ok(rs)
    requires IntValue(p.left.tree) == Ok(a) && IntValue(p.right.tree) == Ok(b)
    requires IntOf(ls) == Some(a) && IntOf(rs) == Some(b)
    ensures FoldAgrees(ff, p)
  {
    assert SimplifyOperand(ff, p.left) == Ok(ls);
    assert SimplifyOperand(ff, p.right) == Ok(rs);
    TextSimplifyNode(ff, p);
    IntValueNode(p);
    FoldOfInts(ff, p.main, ls, rs, a, b);
    var r := IntOp(p.main, a, b);
    assert IntValue(p) == r;
    assert TextSimplify(ff, p) == Rewrite(ff, p.main, ls, rs);
    if r.Ok? {
      ParseInvertsToText(r.value);
    }
  }

  /** Constant folding is int evaluation: int arithmetic simplifies to a
      text that reads back as its value, and fails exactly when the
      evaluation divides by zero. */
  lemma {:induction false} FoldingIsIntArithmetic(ff: FloatFolds, p: Parts)
    requires IntExpr(p)
    ensures TextSimplify(ff, p).Ok? <==> IntValue(p).Ok?
    ensures IntValue(p).Ok? ==>
      && TextSimplify(ff, p).value.Some?
      && IntOf(TextSimplify(ff, p).value) == Some(IntValue(p).value)
    decreases p
  {
    if !IsLeaf(p) {
      FoldingIsIntArithmetic(ff, p.left.tree);
      FoldingIsIntArithmetic(ff, p.right.tree);
      FoldStep(ff, p);
    }
  }

  /** One node over two int texts folds to the text of the node's int
      value, or fails when that value is a division by zero. */
  lemma FoldOfInts(ff: FloatFolds, op: string, ls: Option<string>, rs: Option<string>, a: int, b: int)
    requires op in {"+", "-", "*", "/"}
    requires IntOf(ls) == Some(a) && IntOf(rs) == Some(b)
    ensures IntOp(op, a, b).Err? ==> Rewrite(ff, op, ls, rs) == Err(DivisionByZero)
    ensures IntOp(op, a, b).Ok? ==> Rewrite(ff, op, ls, rs) == Ok(Some(ToText(IntOp(op, a, b).value)))
  {
    IntOpCases(op, a, b);
    if op == "+" {
      SumOfInts(ff, ls, rs, a, b);
    } else if op == "-" {
      DifferenceOfInts(ff, ls, rs, a, b);
    } else if op == "*" {
      ProductOfInts(ff, ls, rs, a, b);
    } else {
      QuotientOfInts(ff, ls, rs, a, b);
    }
  }

  lemma IntOpCases(op: string, a: int, b: int)
    requires op in {"+", "-", "*", "/"}
    requires InRange(a) && InRange(b)
    ensures op == "+" ==> IntOp(op, a, b) == Ok(Wrap(a + b))
    ensures op == "-" ==> IntOp(op, a, b) == Ok(Wrap(a - b))
    ensures op == "*" ==> IntOp(op, a, b) == Ok(Wrap(a * b))
    ensures op == "/" && b != 0 ==> IntOp(op, a, b) == Ok(Div(a, b))
  {
  }

  lemma SumOfInts(ff: FloatFolds, ls: Option<string>, rs: Option<string>, a: int, b: int)
    requires IntOf(ls) == Some(a) && IntOf(rs) == Some(b)
    ensures Rewrite(ff, "+", ls, rs) == Ok(Some(ToText(Wrap(a + b))))
  {
    assert Rewrite(ff, "+", ls, rs) == Ok(FoldSum(Some(a), Some(b), ls, rs));
  }

  lemma DifferenceOfInts(ff: FloatFolds, ls: Option<string>, rs: Option<string>, a: int, b: int)
    requires IntOf(ls) == Some(a) && IntOf(rs) == Some(b)
    ensures Rewrite(ff, "-", ls, rs) == Ok(Some(ToText(Wrap(a - b))))
  {
    assert Rewrite(ff, "-", ls, rs) == Ok(FoldDifference(Some(a), Some(b), ls, rs));
  }

  lemma ProductOfInts(ff: FloatFolds, ls: Option<string>, rs: Option<string>, a: int, b: int)
    requires IntOf(ls) == Some(a) && IntOf(rs) == Some(b)
    ensures Rewrite(ff, "*", ls, rs) == Ok(Some(ToText(Wrap(a * b))))
  {
    assert Rewrite(ff, "*", ls, rs) == Ok(FoldProduct(Some(a), Some(b), ls, rs));
  }

  lemma QuotientOfInts(ff: FloatFolds, ls: Option<string>, rs: Option<string>, a: int, b: int)
    requires IntOf(ls) == Some(a) && IntOf(rs) == Some(b)
    ensures b == 0 ==> Rewrite(ff, "/", ls, rs) == Err(DivisionByZero)
    ensures b != 0 ==> Rewrite(ff, "/", ls, rs) == Ok(Some(ToText(Div(a, b))))
  {
    assert Rewrite(ff, "/", ls, rs) == FoldQuotient(Some(a), Some(b), ls, rs);
  }

  /** Heads contain no parenthesis. */
  predicate PlainHeads(p: Parts)
    decreases p
  {
    && NoParens(p.main)
    && (p.left.Given? ==> PlainHeads(p.left.tree))
    && (p.right.Given? ==> PlainHeads(p.right.tree))
  }

  /** A text that may be absent, rendered, is balanced. */
  predicate ShowsBalanced(s: Option<string>) {
    s.Some? ==> Balanced(s.value)
  }

  lemma ShowBalanced(s: Option<string>)
    requires ShowsBalanced(s)
    ensures Balanced(Show(s))
  {
    if s.None? {
      NoParensBalanced("null");
    }
  }

  lemma SumFoldBalanced(L: Option<int>, R: Option<int>, ls: Option<string>, rs: Option<string>)
    requires ShowsBalanced(ls) && ShowsBalanced(rs)
    ensures ShowsBalanced(FoldSum(L, R, ls, rs))
  {
    if L.Some? && R.Some? {
      var v := Wrap(L.value + R.value);
      assert FoldSum(L, R, ls, rs) == Some(ToText(v));
      NumeralBalanced(v);
    } else if L == Some(0) {
      assert FoldSum(L, R, ls, rs) == rs;
    } else if R == Some(0) {
      assert FoldSum(L, R, ls, rs) == ls;
    } else {
      assert FoldSum(L, R, ls, rs) == Some(Paren(Show(ls) + " + " + Show(rs)));
      ShowBalanced(ls);
      ShowBalanced(rs);
      Grouped(Show(ls), " + ", Show(rs));
    }
  }

  lemma DifferenceFoldBalanced(L: Option<int>, R: Option<int>, ls: Option<string>, rs: Option<string>)
    requires ShowsBalanced(ls) && ShowsBalanced(rs)
    ensures ShowsBalanced(FoldDifference(L, R, ls, rs))
  {
    if L.Some? && R.Some? {
      var v := Wrap(L.value - R.value);
      assert FoldDifference(L, R, ls, rs) == Some(ToText(v));
      NumeralBalanced(v);
    } else if R == Some(0) {
      assert FoldDifference(L, R, ls, rs) == ls;
    } else {
      assert FoldDifference(L, R, ls, rs) == Some(Paren(Show(ls) + " - " + Show(rs)));
      ShowBalanced(ls);
      ShowBalanced(rs);
      Grouped(Show(ls), " - ", Show(rs));
    }
  }

  lemma ProductFoldBalanced(L: Option<int>, R: Option<int>, ls: Option<string>, rs: Option<string>)
    requires ShowsBalanced(ls) && ShowsBalanced(rs)
    ensures ShowsBalanced(FoldProduct(L, R, ls, rs))
  {
    if L.Some? && R.Some? {
      var v := Wrap(L.value * R.value);
      assert FoldProduct(L, R, ls, rs) == Some(ToText(v));
      NumeralBalanced(v);
    } else if L == Some(1) {
      assert FoldProduct(L, R, ls, rs) == rs;
    } else if R == Some(1) {
      assert FoldProduct(L, R, ls, rs) == ls;
    } else if L == Some(0) || R == Some(0) {
      assert FoldProduct(L, R, ls, rs) == Some("0");
      NoParensBalanced("0");
    } else {
      assert FoldProduct(L, R, ls, rs) == Some(Paren(Show(ls) + " * " + Show(rs)));
      ShowBalanced(ls);
      ShowBalanced(rs);
      Grouped(Show(ls), " * ", Show(rs));
    }
  }

  lemma QuotientFoldBalanced(L: Option<int>, R: Option<int>, ls: Option<string>, rs: Option<string>)
    requires L.Some? ==> InRange(L.value)
    requires R.Some? ==> InRange(R.value)
    requires ShowsBalanced(ls) && ShowsBalanced(rs)
    ensures FoldQuotient(L, R, ls, rs).Ok? ==> ShowsBalanced(FoldQuotient(L, R, ls, rs).value)
  {
    if L.Some? && R.Some? {
      if R.value != 0 {
        var v := Div(L.value, R.value);
        assert FoldQuotient(L, R, ls, rs) == Ok(Some(ToText(v)));
        NumeralBalanced(v);
      }
    } else if R == Some(1) {
      assert FoldQuotient(L, R, ls, rs) == Ok(ls);
    } else {
      assert FoldQuotient(L, R, ls, rs) == Ok(Some(Paren(Show(ls) + " / " + Show(rs))));
      ShowBalanced(ls);
      ShowBalanced(rs);
      Grouped(Show(ls), " / ", Show(rs));
    }
  }

  lemma PowerFoldBalanced(ff: FloatFolds, L: Option<int>, R: Option<int>, ls: Option<string>, rs: Option<string>)
    requires PlainFolds(ff)
    requires ShowsBalanced(ls) && ShowsBalanced(rs)
    ensures ShowsBalanced(FoldPower(ff.pow, L, R, ls, rs))
  {
    ShowBalanced(ls);
    ShowBalanced(rs);
    NoParensBalanced("1");
    if L.Some? && R.Some? {
      var a, b := L.value, R.value;
      assert NoParens(ff.pow(a, b));
      NoParensBalanced(ff.pow(a, b));
    }
    Grouped(Show(ls), "^", Show(rs));
  }

  lemma CallFoldBalanced(f: int -> string, name: string, L: Option<int>, ls: Option<string>)
    requires forall a :: NoParens(f(a))
    requires NoParens(name) && ShowsBalanced(ls)
    ensures Balanced(FoldCall(f, name, L, ls))
  {
    ShowBalanced(ls);
    match L
    case Some(a) => NoParensBalanced(f(a));
    case None => Call(name, Show(ls));
  }

  lemma OtherCallBalanced(name: string, ls: Option<string>, rs: Option<string>)
    requires NoParens(name) && ShowsBalanced(ls) && ShowsBalanced(rs)
    ensures Balanced(OtherCall(name, ls, rs))
  {
    ShowBalanced(ls);
    var tail := if rs.Some? then "," + rs.value else "";
    if rs.Some? {
      NoParensBalanced(",");
      BalancedAppend(",", rs.value);
    } else {
      NoParensBalanced("");
    }
    BalancedAppend(Show(ls), tail);
    Call(name, Show(ls) + tail);
    ParenBalanced(name + Paren(Show(ls) + tail));
  }

  lemma RewriteBalanced(ff: FloatFolds, op: string, ls: Option<string>, rs: Option<string>)
    requires PlainFolds(ff) && NoParens(op)
    requires ShowsBalanced(ls) && ShowsBalanced(rs)
    ensures Rewrite(ff, op, ls, rs).Ok? ==> ShowsBalanced(Rewrite(ff, op, ls, rs).value)
  {
    var L, R := IntOf(ls), IntOf(rs);
    if op == "+" {
      SumFoldBalanced(L, R, ls, rs);
    } else if op == "-" {
      DifferenceFoldBalanced(L, R, ls, rs);
    } else if op == "*" {
      ProductFoldBalanced(L, R, ls, rs);
    } else if op == "/" {
      QuotientFoldBalanced(L, R, ls, rs);
    } else if op == "^" {
      PowerFoldBalanced(ff, L, R, ls, rs);
    } else if op == "sin" {
      CallFoldBalanced(ff.sin, "sin", L, ls);
    } else if op == "cos" {
      CallFoldBalanced(ff.cos, "cos", L, ls);
    } else if op == "exp" {
      CallFoldBalanced(ff.exp, "exp", L, ls);
    } else if op == "ln" {
      CallFoldBalanced(ff.ln, "ln", L, ls);
    } else {
      OtherCallBalanced(op, ls, rs);
    }
  }

  /** With parenthesis-free leaves and heads, and floating-point folds that
      print without parentheses, the simplified text is balanced. */
  lemma {:induction false} TextSimplifyBalanced(ff: FloatFolds, p: Parts)
    requires PlainFolds(ff) && PlainHeads(p)
    ensures TextSimplify(ff, p).Ok? ==> ShowsBalanced(TextSimplify(ff, p).value)
    decreases p
  {
    if IsLeaf(p) {
      NoParensBalanced(p.main);
    } else {
      if p.left.Given? {
        TextSimplifyBalanced(ff, p.left.tree);
      }
      if p.right.Given? {
        TextSimplifyBalanced(ff, p.right.tree);
      }
      if SimplifyOperand(ff, p.left).Ok? && SimplifyOperand(ff, p.right).Ok? {
        RewriteBalanced(ff, p.main, SimplifyOperand(ff, p.left).value, SimplifyOperand(ff, p.right).value);
      }
    }
  }

  /** Identity elements are dropped on the documented side only:
      `x + 0` and `0 + x` give `x`, `x - 0` gives `x` but `0 - x` is kept,
      `1 * x` and `x * 1` give `x`, `x * 0` gives `0`, `x / 1` gives `x`,
      `x ^ 0` gives `1` and `x ^ 1` gives `x`. */
  lemma IdentityRules(ff: FloatFolds, x: string)
    requires Parse(x).None?
    ensures Rewrite(ff, "+", Some(x), Some("0")) == Ok(Some(x))
    ensures Rewrite(ff, "+", Some("0"), Some(x)) == Ok(Some(x))
    ensures Rewrite(ff, "-", Some(x), Some("0")) == Ok(Some(x))
    ensures Rewrite(ff, "-", Some("0"), Some(x)) == Ok(Some(Paren("0 - " + x)))
    ensures Rewrite(ff, "*", Some("1"), Some(x)) == Ok(Some(x))
    ensures Rewrite(ff, "*", Some(x), Some("1")) == Ok(Some(x))
    ensures Rewrite(ff, "*", Some(x), Some("0")) == Ok(Some("0"))
    ensures Rewrite(ff, "*", Some("0"), Some(x)) == Ok(Some("0"))
    ensures Rewrite(ff, "/", Some(x), Some("1")) == Ok(Some(x))
    ensures Rewrite(ff, "^", Some(x), Some("0")) == Ok(Some("1"))
    ensures Rewrite(ff, "^", Some(x), Some("1")) == Ok(Some(x))
  {
    SmallText(0, "0");
    SmallText(1, "1");
    assert "0" + " - " + x == "0 - " + x;
  }

  /** Folding wraps like Java ints: `2147483647 + 1` is `-2147483648`. */
  lemma SumOverflowExample(ff: FloatFolds)
    ensures Rewrite(ff, "+", Some("2147483647"), Some("1")) == Ok(Some("-2147483648"))
  {
    MaxIntText();
    MinIntText();
    SmallText(1, "1");
    assert Wrap(MaxInt + 1) == MinInt;
  }

  /** `-2147483648 / -1` is `-2147483648`, the one int quotient that wraps. */
  lemma QuotientOverflowExample(ff: FloatFolds)
    ensures Rewrite(ff, "/", Some("-2147483648"), Some("-1")) == Ok(Some("-2147483648"))
  {
    MinIntText();
    SmallText(-1, "-1");
    assert Div(MinInt, -1) == MinInt;
  }

  /** `7 / 0` throws. */
  lemma QuotientByZeroExample(ff: FloatFolds)
    ensures Rewrite(ff, "/", Some("7"), Some("0")) == Err(DivisionByZero)
  {
    SmallText(7, "7");
    SmallText(0, "0");
  }

  lemma MaxIntText()
    ensures ToText(MaxInt) == "2147483647" && Parse("2147483647") == Some(MaxInt)
  {
    MaxIntDigits();
    ParseInvertsToText(MaxInt);
  }

  lemma MinIntText()
    ensures ToText(MinInt) == "-2147483648" && Parse("-2147483648") == Some(MinInt)
  {
    MinIntDigits();
    ParseInvertsToText(MinInt);
  }

  lemma MaxIntDigits()
    ensures Digits(2147483647) == "2147483647"
  {
    assert Digits(2) == "2";
    assert Digits(21) == "21";
    assert Digits(214) == "214";
    assert Digits(2147) == "2147";
    assert Digits(21474) == "21474";
    assert Digits(214748) == "214748";
    assert Digits(2147483) == "2147483";
    assert Digits(21474836) == "21474836";
    assert Digits(214748364) == "214748364";
    assert Digits(2147483647) == "2147483647";
  }

  lemma MinIntDigits()
    ensures Digits(2147483648) == "2147483648"
  {
    assert Digits(2) == "2";
    assert Digits(21) == "21";
    assert Digits(214) == "214";
    assert Digits(2147) == "2147";
    assert Digits(21474) == "21474";
    assert Digits(214748) == "214748";
    assert Digits(2147483) == "2147483";
    assert Digits(21474836) == "21474836";
    assert Digits(214748364) == "214748364";
    assert Digits(2147483648) == "2147483648";
  }

  lemma SmallText(i: int, s: string)
    requires -9 <= i <= 9 && s == ToText(i)
    ensures Parse(s) == Some(i)
  {
    ParseInvertsToText(i);
  }

  /** A rule may return an absent operand: a `+` node with left operand `0`
      and no right operand simplifies to nothing. */
  lemma AbsentOperandExample(ff: FloatFolds)
    ensures TextSimplify(ff, Parts("+", Given("0", Leaf("0")), Missing)) == Ok(None)
  {
    SmallText(0, "0");
    assert SimplifyOperand(ff, Given("0", Leaf("0"))) == Ok(Some("0"));
    assert Rewrite(ff, "+", Some("0"), None) == Ok(FoldSum(Some(0), None, Some("0"), None));
  }

  /** An unknown head keeps its operands: `max(x,y)` and `f(x)`. */
  lemma UnknownHeadExamples()
    ensures OtherCall("max", Some("x"), Some("y")) == "(max(x,y))"
    ensures OtherCall("f", Some("x"), None) == "(f(x))"
  {
    assert "max" + Paren("x" + ("," + "y")) == "max(x,y)";
    assert "f" + Paren("x" + "") == "f(x)";
  }

}
