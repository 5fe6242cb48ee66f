# MathPlot expression engine in Dafny

MathPlot handles a one-variable function two ways. The first is a typed expression tree with the nodes `Constant`, `Variable`, `Add`, `Sub`, `Mult`, `Div`, `Power`, `Sin` and `Cos`. Each node evaluates itself, differentiates itself (`calculateDerivative`) and simplifies itself. The second is textual: `MathPlot` differentiates and simplifies the parser's output, the `AOS.Parts` triple of a head token and two operand texts, by string concatenation. It folds constants with Java `int` arithmetic. `FormatTranslator` prints a tree as fully parenthesised infix (AOS) text and builds a tree from parser parts. Its reverse Polish (RPN) entry points always throw. The plot reads the function through two index-driven sample iterators, one Cartesian and one polar.

The model is organised as follows:

- `wrappers.dfy` defines `Option` and `Result`. An `Err` models a Java exception.
- `numerics.dfy` defines the `Lib` record. It holds `sin`, `cos`, `pow` and the value of `a / 0`, and is passed as a parameter. The only facts assumed about it are the ones a lemma names: `PowUnitLaws`, which says `pow(a, 0) = 1` and `pow(a, 1) = a`, and `SquareIsProduct`, which says `pow(a, 2) = a * a`. Products of reals are written `Times(a, b)`, which is exactly `a * b`; the facts used about it (distribution, monotonicity) are lemmas next to it.
- `node.dfy`, `derivative.dfy` and `simplifier.dfy` model the typed tree and its three operations over exact reals.
- `forward_rules.dfy` and `calculus.dfy` relate the symbolic derivative to forward-mode (dual-number) differentiation and to the simplifier.
- `java_int.dfy` models Java `int`:
  - 32-bit wrap-around;
  - division truncating toward zero;
  - `Integer.parseInt`, with `None` for a `NumberFormatException`;
  - `Integer.toString`.
- `parens.dfy` defines when a string's parentheses are balanced.
- `aos_parts.dfy` models the parser's output. `Parts(main, left, right)` has operands that are either `Missing` (Java `null`) or `Given(text, tree)`. Each operand's text is paired with the parts that text parses to.
- `format_translator.dfy` models the printer, the builder and the RPN failures.
- `text_derivative.dfy` and `text_simplifier.dfy` model `calculateDerivativeAOS` and the textual `simplify`.
- `sampler.dfy` models `cartesianIterator` and `polarIterator`.

## Model

Paths are relative to the repository root.

| member | source | states |
|---|---|---|
| Ast.Eval | Exam/src/main/java/MathPlot/Calculators/Node.java:4 | `eval` of every node class; it has no contract of its own, and its per-class equations are the `Ast.Eval...` rows below |
| Ast.EvalConstant | Exam/src/main/java/MathPlot/Calculators/Operators/Constant.java:12-14 | a literal evaluates to its stored value whatever the argument |
| Ast.EvalVariable | Exam/src/main/java/MathPlot/Calculators/Operators/Variable.java:6-8 | the variable evaluates to the argument |
| Ast.EvalAdd | Exam/src/main/java/MathPlot/Calculators/Operators/BinaryOperations/Add.java:12-14 | a sum evaluates to the sum of its operands' values |
| Ast.EvalSub | Exam/src/main/java/MathPlot/Calculators/Operators/BinaryOperations/Sub.java:12-14 | a difference evaluates to the difference of the operands' values |
| Ast.EvalMult | Exam/src/main/java/MathPlot/Calculators/Operators/BinaryOperations/Mult.java:12-14 | a product evaluates to the product of the operands' values |
| Ast.EvalDiv | Exam/src/main/java/MathPlot/Calculators/Operators/BinaryOperations/Div.java:12-14 | with a non-zero divisor, the quotient's value times the divisor's value is the dividend's value |
| Ast.EvalPower | Exam/src/main/java/MathPlot/Calculators/Operators/BinaryOperations/Power.java:12-14 | a power evaluates to `pow` of the base's and the exponent's values |
| Ast.EvalSin | Exam/src/main/java/MathPlot/Calculators/Operators/Sin.java:13-15 | `sin(c)` evaluates to `sin` of the value of `c` |
| Ast.EvalCos | Exam/src/main/java/MathPlot/Calculators/Operators/Cos.java:13-15 | `cos(c)` evaluates to `cos` of the value of `c` |
| Numerics.QuotExact | Exam/src/main/java/MathPlot/Calculators/Operators/BinaryOperations/Div.java:12-14 | away from a zero divisor, the quotient times the divisor is the dividend |
| Ast.ClosedEvalAnywhere | Exam/src/main/java/MathPlot/Calculators/Operators/Constant.java:12-14 | a tree without the variable has the same value at every point |
| Derivative.Derive | Exam/src/main/java/MathPlot/Calculators/Node.java:6 | `calculateDerivative` of every node class (Constant.java:16-18, Variable.java:10-12, Add, Sub, Mult and Div at lines 16-18, Power.java:16-19, Sin.java:17-19, Cos.java:17-19); it has no contract of its own, and its partner is forward differentiation, in `ForwardRules.DeriveMatchesForward` |
| Derivative.DeriveKeepsClosedAndDivFree | Exam/src/main/java/MathPlot/Calculators/Node.java:6 | every class's `calculateDerivative` keeps a variable-free tree variable-free and a quotient-free tree quotient-free; Power.java:18 and Cos.java:18 copy an operand into the result, and Div.java:17 is the only rule that creates a quotient |
| Derivative.ConstantDerivative | Exam/src/main/java/MathPlot/Calculators/Operators/Constant.java:16-18 | a literal's derivative is the literal 0; so is its second derivative; and it evaluates to 0 everywhere |
| Derivative.VariableDerivative | Exam/src/main/java/MathPlot/Calculators/Operators/Variable.java:10-12 | the variable's derivative is the literal 1; it evaluates to 1 everywhere; the second derivative is the literal 0 |
| Derivative.PowerExponentReadAtZero | Exam/src/main/java/MathPlot/Calculators/Operators/BinaryOperations/Power.java:16-19 | the power rule reads the exponent's value at 0, even when the exponent mentions the variable |
| ForwardRules.DeriveMatchesForward | Exam/src/main/java/MathPlot/Calculators/Operators/BinaryOperations/Mult.java:16-18 | the symbolic derivative evaluates to the slope computed by forward (dual-number) differentiation; this holds at every point, for every tree whose exponents are variable-free, given `pow(a, 2) = a * a` |
| ForwardRules.ProductRule | Exam/src/main/java/MathPlot/Calculators/Operators/BinaryOperations/Mult.java:16-18 | `d(l) * r + l * d(r)` evaluates to the product's forward slope |
| ForwardRules.QuotientRule | Exam/src/main/java/MathPlot/Calculators/Operators/BinaryOperations/Div.java:16-18 | `(d(l) * r - l * d(r)) / r^2` evaluates to the quotient's forward slope |
| ForwardRules.PowerRule | Exam/src/main/java/MathPlot/Calculators/Operators/BinaryOperations/Power.java:16-19 | `(r * l^(e-1)) * d(l)` evaluates to the power's forward slope when `e` is the exponent's value |
| ForwardRules.CosineRule | Exam/src/main/java/MathPlot/Calculators/Operators/Cos.java:17-19 | `(-1 * sin(c)) * d(c)` evaluates to the forward slope of `cos(c)` |
| Simplifier.Simplify | Exam/src/main/java/MathPlot/Calculators/Operators/BinaryOperations/Add.java:20-26 | the result has no identity element left to remove; it is no larger than the input |
| Simplifier.SimplifyKeepsClosedAndDivFree | Exam/src/main/java/MathPlot/Calculators/Operators/BinaryOperations/Mult.java:20-28 | simplifying a variable-free tree gives a variable-free tree; simplifying a quotient-free tree gives a quotient-free tree |
| Simplifier.AddRule | Exam/src/main/java/MathPlot/Calculators/Operators/BinaryOperations/Add.java:20-26 | on simplified operands the sum rule yields a simplified tree that is no larger and keeps them variable-free or quotient-free |
| Simplifier.SubRule | Exam/src/main/java/MathPlot/Calculators/Operators/BinaryOperations/Sub.java:20-24 | the same for the difference rule |
| Simplifier.MultRule | Exam/src/main/java/MathPlot/Calculators/Operators/BinaryOperations/Mult.java:20-28 | the same for the product rule |
| Simplifier.PowerRule | Exam/src/main/java/MathPlot/Calculators/Operators/BinaryOperations/Power.java:21-26 | the same for the power rule |
| Simplifier.SimplifyPreservesEval | Exam/src/main/java/MathPlot/Calculators/Operators/BinaryOperations/Mult.java:20-28 | simplifying never changes a tree's value at any point, given `pow(a, 0) = 1` and `pow(a, 1) = a` |
| Simplifier.SimplifyFixesNormal | Exam/src/main/java/MathPlot/Calculators/Operators/BinaryOperations/Add.java:20-26 | a tree with no removable identity element is returned unchanged |
| Simplifier.SimplifyUnchangedIffNormal | Exam/src/main/java/MathPlot/Calculators/Operators/BinaryOperations/Add.java:20-26 | simplification leaves a tree unchanged exactly when it has no removable identity element |
| Simplifier.SimplifyIdempotent | Exam/src/main/java/MathPlot/Calculators/Operators/BinaryOperations/Mult.java:20-28 | simplifying twice is the same as simplifying once |
| Simplifier.SimplifyLeaves | Exam/src/main/java/MathPlot/Calculators/Operators/Constant.java:20-22 | literals and the variable simplify to themselves |
| Simplifier.AddRuleCases | Exam/src/main/java/MathPlot/Calculators/Operators/BinaryOperations/Add.java:21-25 | the rule's outcomes: a left 0 gives the right operand, then a right 0 gives the left, otherwise the sum stays; `3 + 4` is not folded |
| Simplifier.SubRuleCases | Exam/src/main/java/MathPlot/Calculators/Operators/BinaryOperations/Sub.java:21-23 | only a right 0 is dropped; `0 - x` stays a difference |
| Simplifier.MultRuleCases | Exam/src/main/java/MathPlot/Calculators/Operators/BinaryOperations/Mult.java:23-26 | a 0 on either side gives 0; otherwise a left 1 gives the right operand, then a right 1 gives the left |
| Simplifier.MultSurvivors | Exam/src/main/java/MathPlot/Calculators/Operators/BinaryOperations/Mult.java:21-27 | a product is kept exactly when neither operand is a literal 0 or 1 |
| Simplifier.ZeroBeatsOne | Exam/src/main/java/MathPlot/Calculators/Operators/BinaryOperations/Mult.java:23-26 | because the zero test comes before the one test, `1 * 0` and `0 * 1` give 0 |
| Simplifier.PowerRuleCases | Exam/src/main/java/MathPlot/Calculators/Operators/BinaryOperations/Power.java:22-25 | exponent 1 gives the base; exponent 0 gives the literal 1; otherwise the power stays, and `2 ^ 3` is not folded |
| Simplifier.SimplifyStructuralRules | Exam/src/main/java/MathPlot/Calculators/Operators/BinaryOperations/Div.java:20-22 | quotients, sines and cosines keep their root under simplification, with no folding |
| Calculus.ClosedDerivativeSimplifiesToZero | Exam/src/main/java/MathPlot/Calculators/Operators/Constant.java:16-18 | the derivative of a variable-free, quotient-free tree simplifies to the literal 0 |
| Calculus.QuotientDerivativeKeepsDiv | Exam/src/main/java/MathPlot/Calculators/Operators/BinaryOperations/Div.java:20-22 | the derivative of a quotient of literals still simplifies to a quotient, so the restriction above is needed |
| Calculus.SimplifiedDerivativeMatchesForward | Exam/src/main/java/MathPlot/Calculators/Operators/BinaryOperations/Div.java:16-22 | a simplified derivative still evaluates to the forward slope |
| NodeExamples.EvalExamples | Exam/src/test/java/MathPlot/NodeTest.java:14-119 | the evaluation examples: `7.5`; `3.14`; `3 + 4 = 7`; `10 - 4 = 6`; `3 * 4 = 12`; `12 / 3 = 4`; `5 / 0` is the library's value for division by zero; `2 ^ 3 = 8` |
| NodeExamples.SumDifferenceDerivatives | Exam/src/test/java/MathPlot/NodeTest.java:33-56 | `d(x + 5)` at 10 and `d(x - 3)` at 0 are 1 |
| NodeExamples.ProductDerivativeAtTwo | Exam/src/test/java/MathPlot/NodeTest.java:73-74 | `d(x * x)` is `1 * x + x * 1`, which is 4 at 2 |
| NodeExamples.QuotientDerivativeAtTen | Exam/src/test/java/MathPlot/NodeTest.java:106-107 | `d(x / 2)` at 10 is 0.5 |
| NodeExamples.PowerDerivativeAtThree | Exam/src/test/java/MathPlot/NodeTest.java:124-125 | `d(x ^ 4)` is `(4 * x^3) * 1`, which is 108 at 3 |
| NodeExamples.TrigDerivatives | Exam/src/test/java/MathPlot/NodeTest.java:146-164 | `d(sin x)` is `cos(x) * 1`, and `d(cos x)` evaluates to `-sin x` |
| NodeExamples.NestedDerivativeAtThree | Exam/src/test/java/MathPlot/NodeTest.java:176-178 | `d(sin(x^2))` at 3 is `cos(9) * 6` |
| NodeExamples.SimplifyExamples | Exam/src/test/java/MathPlot/NodeTest.java:38-135 | the simplifier examples for zero, one and the exponents 0 and 1 |
| JavaInt.Wrap | Exam/src/main/java/MathPlot/MathPlot.java:675-676 | the result is an int congruent to the exact result modulo 2^32, and equal to it when it fits |
| JavaInt.TruncDiv | Exam/src/main/java/MathPlot/MathPlot.java:693-694 | the remainder is smaller than the divisor and has the dividend's sign, as Java's `/` leaves it |
| JavaInt.TruncDivBounds | Exam/src/main/java/MathPlot/MathPlot.java:693-694 | the exact quotient of two ints is an int, except `MIN_VALUE / -1`, which is one more than `MAX_VALUE` |
| JavaInt.Div | Exam/src/main/java/MathPlot/MathPlot.java:693-694 | int division is an int, and it differs from truncating division only for `MIN_VALUE / -1` |
| JavaInt.Parse | Exam/src/main/java/MathPlot/MathPlot.java:729-736 | an accepted text is an int; it is an optional sign followed only by decimal digits |
| JavaInt.ParseInvertsToText | Exam/src/main/java/MathPlot/MathPlot.java:729-736 | reading back a printed int gives the int |
| JavaInt.ToTextCanonical | Exam/src/main/java/MathPlot/MathPlot.java:676 | `Integer.toString` spells an int canonically: an optional minus, then digits with no leading zero |
| JavaInt.ParseCanonicalIsToText | Exam/src/main/java/MathPlot/MathPlot.java:729-736 | conversely, a canonical text that `parseInt` accepts is the printed form of the value it reads |
| JavaInt.UnsignedLeadingZero | Exam/src/main/java/MathPlot/MathPlot.java:732 | a leading zero does not change the value read |
| JavaInt.Unsigned | Exam/src/main/java/MathPlot/MathPlot.java:732 | the digits after the sign: accepted only when non-empty and all decimal digits |
| JavaInt.ToText | Exam/src/main/java/MathPlot/MathPlot.java:676 | `Integer.toString` (`String.valueOf` of an int); no contract of its own; its partner `Parse` is related to it by `ParseInvertsToText` and `ParseCanonicalIsToText` |
| FormatTranslator.FromAos | Exam/src/main/java/MathPlot/FormatTranslator.java:10-12 | `fromAOS` is `buildAOS` on the parser's parts; no contract of its own |
| FormatTranslator.Print | Exam/src/main/java/MathPlot/FormatTranslator.java:56-92 | `buildStringFromAOS`; no contract of its own; `PrintBalanced` and `PrintExample` state its properties, and `BuildInvertsDecompose` shows `Build` inverts it |
| FormatTranslator.Decompose | Exam/src/main/java/MathPlot/FormatTranslator.java:24-26 | the parts the parser reports for a printed tree, each operand paired with its own printed text; no contract of its own |
| FormatTranslator.Build | Exam/src/main/java/MathPlot/FormatTranslator.java:24-54 | `buildAOS` on parser parts; no contract of its own; `BuildSucceedsIffBuildable`, `BuildInvertsDecompose` and `NumericHeadFirst` state its behaviour |
| FormatTranslator.BuildOperand | Exam/src/main/java/MathPlot/FormatTranslator.java:41-45 | the recursive `buildAOS` of an operand, failing on an absent one; no contract of its own |
| FormatTranslator.FromRpn | Exam/src/main/java/MathPlot/FormatTranslator.java:13-15 | reading RPN always fails |
| FormatTranslator.Render | Exam/src/main/java/MathPlot/FormatTranslator.java:16-22 | rendering fails exactly for RPN; AOS rendering yields the printed text |
| FormatTranslator.BuildSucceedsIffBuildable | Exam/src/main/java/MathPlot/FormatTranslator.java:24-54 | building succeeds exactly on parts with number, `x`, `sin`/`cos` or known-operator heads whose needed operands are present; every failure is an unknown operator or a missing operand |
| FormatTranslator.BuildInvertsDecompose | Exam/src/main/java/MathPlot/FormatTranslator.java:24-92 | building the parts of a printed tree gives the tree back, when the tree's literals read back as printed and no operator or name token reads as a number |
| FormatTranslator.PrintBalanced | Exam/src/main/java/MathPlot/FormatTranslator.java:56-92 | printed text has balanced parentheses when printed numbers have none |
| FormatTranslator.PrintExample | Exam/src/test/java/MathPlot/FormatTranslatorTest.java:15-17 | `(3 * (x + 2))` builds to `3 * (x + 2)` and prints as `(3.0 * (x + 2.0))` |
| FormatTranslator.BuildFailureExamples | Exam/src/test/java/MathPlot/FormatTranslatorTest.java:22-28 | `(3 ? 4)` fails as an unknown operator; `(3 + )` fails |
| FormatTranslator.NumericHeadFirst | Exam/src/main/java/MathPlot/FormatTranslator.java:28-33 | a head that reads as a number is a literal whatever its operands |
| TextDerivative.TextDerive | Exam/src/main/java/MathPlot/MathPlot.java:590-648 | `calculateDerivativeAOS` on parser parts; no contract of its own; the rows below state its failures, balance and rules |
| TextDerivative.PowerRuleText | Exam/src/main/java/MathPlot/MathPlot.java:624-631 | the `^` case on the raw operand texts; no contract of its own; `PowerExponentText` and `PowerSymbolicExponent` state it |
| TextDerivative.TextDeriveFailsOnlyOnMissingOperand | Exam/src/main/java/MathPlot/MathPlot.java:590-648 | differentiation succeeds exactly when every operand the rule parses is present: both for `+`, `-`, `*`, `/`, none for `^`, the left one for any other head, recursively where the rule differentiates it; the only failure is an absent operand |
| TextDerivative.UnreadOperandsExamples | Exam/src/main/java/MathPlot/MathPlot.java:624-644 | `^` with no base gives `(2 * null^1)`, and `tan` over an argument that would fail gives `d(tan)`, because neither rule differentiates an operand |
| TextDerivative.LeafDerivative | Exam/src/main/java/MathPlot/MathPlot.java:598-601 | a leaf differentiates to `1` exactly when it is `x` or `X`, and to `0` otherwise |
| TextDerivative.TextDeriveBalanced | Exam/src/main/java/MathPlot/MathPlot.java:604-646 | on parts with plain heads and balanced operand texts, the derivative text has balanced parentheses |
| TextDerivative.PowerExponentText | Exam/src/main/java/MathPlot/MathPlot.java:624-627 | with an int exponent `n`, the derivative is `(n * base^m)`, where `m` reads back as `n - 1` in 32-bit arithmetic, so `MIN_VALUE` wraps to `MAX_VALUE` |
| TextDerivative.PowerNode | Exam/src/main/java/MathPlot/MathPlot.java:624-627 | a `^` node differentiates to the power rule applied to its operand texts |
| TextDerivative.PowerSymbolicExponent | Exam/src/main/java/MathPlot/MathPlot.java:628-629 | a non-int exponent gives `d(base^exp)` |
| TextDerivative.SumOfPowerAndSine | Exam/src/test/java/MathPlot/TestMathPlot.java:31-33 | `x^2 + sin(x)` differentiates to `((2 * x^1) + (cos(x) * 1))` |
| TextDerivative.LeafExamples | Exam/src/test/java/MathPlot/TestMathPlot.java:40-51 | `5` gives `0`; `x` and `X` give `1` |
| TextDerivative.OtherHeads | Exam/src/main/java/MathPlot/MathPlot.java:632-645 | `tan(x)` gives `d(tan)`; `ln(x)` gives `(1 / x)`; a sum without a right operand fails |
| TextSimplifier.TextSimplify | Exam/src/main/java/MathPlot/MathPlot.java:650-727 | the textual `simplify` on parser parts; no contract of its own; its partner is Java int evaluation, in `FoldingIsIntArithmetic` |
| TextSimplifier.Rewrite | Exam/src/main/java/MathPlot/MathPlot.java:664-726 | one node's rewrite after its operands are simplified; no contract of its own |
| TextSimplifier.IntOf | Exam/src/main/java/MathPlot/MathPlot.java:729-736 | `tryParseInteger`: absent text reads as nothing, and an accepted reading is an int |
| TextSimplifier.FoldSum | Exam/src/main/java/MathPlot/MathPlot.java:675-679 | the `+` rule; no contract of its own; `IdentityRules`, `SumOverflowExample` and `SumFoldBalanced` state it |
| TextSimplifier.FoldDifference | Exam/src/main/java/MathPlot/MathPlot.java:681-684 | the `-` rule; no contract of its own; `IdentityRules` and `DifferenceFoldBalanced` state it |
| TextSimplifier.FoldProduct | Exam/src/main/java/MathPlot/MathPlot.java:686-691 | the `*` rule; no contract of its own; `IdentityRules` and `ProductFoldBalanced` state it |
| TextSimplifier.FoldQuotient | Exam/src/main/java/MathPlot/MathPlot.java:693-696 | the `/` rule; no contract of its own; `QuotientOverflowExample`, `QuotientByZeroExample` and `QuotientFoldBalanced` state it |
| TextSimplifier.FoldPower | Exam/src/main/java/MathPlot/MathPlot.java:698-704 | the `^` rule; no contract of its own; `IdentityRules` and `PowerFoldBalanced` state it |
| TextSimplifier.FoldCall | Exam/src/main/java/MathPlot/MathPlot.java:708-724 | the `sin`, `cos`, `exp` and `ln` rules; no contract of its own; `CallFoldBalanced` states it |
| TextSimplifier.OtherCall | Exam/src/main/java/MathPlot/MathPlot.java:726 | any other head; no contract of its own; `UnknownHeadExamples` and `OtherCallBalanced` state it |
| TextSimplifier.TextSimplifyFailsOnlyOnDivision | Exam/src/main/java/MathPlot/MathPlot.java:650-727 | the only failure is an int division by zero, so parts without a division always simplify |
| TextSimplifier.LeafUnchanged | Exam/src/main/java/MathPlot/MathPlot.java:655-656 | a leaf simplifies to its own text |
| TextSimplifier.FoldingIsIntArithmetic | Exam/src/main/java/MathPlot/MathPlot.java:674-696 | on int arithmetic, simplification fails exactly when Java int evaluation divides by zero, and otherwise yields a text that reads back as the wrapped int value |
| TextSimplifier.TextSimplifyBalanced | Exam/src/main/java/MathPlot/MathPlot.java:674-726 | with plain heads and float folds that print without parentheses, the simplified text is balanced |
| TextSimplifier.IdentityRules | Exam/src/main/java/MathPlot/MathPlot.java:675-704 | around a non-int operand: `x + 0` and `0 + x` give `x`; `x - 0` gives `x` but `0 - x` is kept; a 1 on either side of `*` is dropped and a 0 gives `0`; `x / 1` gives `x`; `x ^ 0` gives `1`; `x ^ 1` gives `x` |
| TextSimplifier.IntOp | Exam/src/main/java/MathPlot/MathPlot.java:675-694 | int `+`, `-`, `*`, `/` fail exactly on a zero divisor, with an arithmetic fault, and otherwise give an int |
| TextSimplifier.SumOverflowExample | Exam/src/main/java/MathPlot/MathPlot.java:675-676 | `2147483647 + 1` simplifies to `-2147483648` |
| TextSimplifier.QuotientOverflowExample | Exam/src/main/java/MathPlot/MathPlot.java:693-694 | `-2147483648 / -1` simplifies to `-2147483648` |
| TextSimplifier.QuotientByZeroExample | Exam/src/main/java/MathPlot/MathPlot.java:693-694 | `7 / 0` fails with an arithmetic fault |
| TextSimplifier.AbsentOperandExample | Exam/src/main/java/MathPlot/MathPlot.java:675-677 | `0 + null` simplifies to nothing |
| TextSimplifier.UnknownHeadExamples | Exam/src/main/java/MathPlot/MathPlot.java:726 | an unknown head keeps its operands as `(f(x))` or `(max(x,y))` |
| Sampler.Reset | Exam/src/main/java/MathPlot/MathPlot.java:414-417 | `reset`; no contract of its own |
| Sampler.HasNext | Exam/src/main/java/MathPlot/MathPlot.java:420-422 | `hasNext`; no contract of its own |
| Sampler.Position | Exam/src/main/java/MathPlot/MathPlot.java:431-432 | the parameter of sample `i`; no contract of its own; `PositionEndpoints`, `PositionsEvenlySpaced` and `PositionsInRange` state it |
| Sampler.Sample | Exam/src/main/java/MathPlot/MathPlot.java:435-445 | the point and break flag of one Cartesian sample, and of one polar sample as at lines 479-496; no contract of its own; `Next` and `PolarRadius` state it |
| Sampler.PositionEndpoints | Exam/src/main/java/MathPlot/MathPlot.java:431-432 | sample 0 is at `lo` and sample `steps` is at `hi` |
| Sampler.Next | Exam/src/main/java/MathPlot/MathPlot.java:430-446 | the cursor advances by one; it records a break exactly when the evaluator is not finite there; a Cartesian point keeps its abscissa; a break is drawn at value 0, or at the origin for a polar plot |
| Sampler.PositionsEvenlySpaced | Exam/src/main/java/MathPlot/MathPlot.java:431-432 | consecutive samples are `(hi - lo) / steps` apart |
| Sampler.PositionsInRange | Exam/src/main/java/MathPlot/MathPlot.java:476-477 | samples lie in `[lo, hi]` and increase with the index |
| Sampler.PolarRadius | Exam/src/main/java/MathPlot/MathPlot.java:487-489 | a finite polar sample lies at distance `r` from the origin |
| Sampler.Drain | Exam/src/main/java/MathPlot/MathPlot.java:414-446 | after `reset`, the iterator yields exactly `steps + 1` points, each the sample at its position; a break is flagged exactly where the evaluator is not finite; the Cartesian abscissas run from `lo` to `hi` |

## Left out

- IEEE arithmetic: values are exact reals.
  - `x / 0` is the abstract `Lib.overZero`, not an infinity.
  - `Simplifier.SimplifyPreservesEval` ignores that Java's `0 * Infinity` is NaN, so in Java dropping a factor can change a non-finite value.
  - The polar iterator flags a break exactly when `r` is not finite, because `r * cos` and `r * sin` of a finite `r` are finite.
- `sin`, `cos`, `pow`, `Double.toString`, `Double.parseDouble` and the textual simplifier's floating-point folds (`Math.pow`, `sin`, `cos`, `exp`, `log`) are abstract parameters. Lemmas state the facts they need about them.
- The AOS parser is not part of this model. Its output is taken as given, and re-parsing an operand's text is taken to yield the operand's parts. A null operand becomes the failure `MissingOperand`. Null texts are concatenated as `null`, as in Java.
- `calculateDerivativeAOS(null)` and `simplify(null)` return `""`. They are not modelled, because every caller passes parser output.
- `JavaInt.Parse` accepts ASCII digits only; `Integer.parseInt` also accepts other Unicode decimal digits.
- Sampler.PositionEndpoints: requires `steps > 0`. With `steps = 0` Java samples at NaN. Every caller passes 1200 (MathPlot.java:290 and 314).
- `hasBreak` is the cursor's `broken` field. The ordering of `nextPoint` and `hasBreak` is modelled by `Next` and `Drain`.
- Sampler.Drain: the evaluator is a function parameter. `ExpressionEvaluator` and the plot drawing code are outside this model.
- The textual `^` rule has no chain-rule factor (MathPlot.java:627). It is modelled as written.
- `setExpression`, `print`, `plot`, `area` and the area strategies are outside the core and are not modelled.
