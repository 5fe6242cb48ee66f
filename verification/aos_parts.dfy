/** The AOS parser's output, `AOS.Parts`: a head token and up to two operand
    texts. The parser itself is not part of this model; its result is taken
    as given, and re-parsing an operand's text is taken to yield the operand
    tree stored next to it. */
module AosParts {

  /** `main` is the head (a number, `x`, an operator or a function name);
      `left` and `right` are the operands, either absent (Java `null`) or
      present with their text and the parts that text parses to. */
  datatype Parts = Parts(main: string, left: Operand, right: Operand)

  datatype Operand = Missing | Given(text: string, tree: Parts)

  /** Why an operation on parts fails (the Java code throws). */
  datatype Fault =
    | UnknownOperator(op: string)
    | MissingOperand
    | NotImplemented
    | DivisionByZero

  /** Both operands absent: a number or a name. */
  predicate IsLeaf(p: Parts) {
    p.left.Missing? && p.right.Missing?
  }

  /** `s.equalsIgnoreCase("x")`. */
  predicate IsX(s: string) {
    s == "x" || s == "X"
  }

  /** An operand's text as string concatenation renders it: an absent
      operand is the four letters `null`. */
  function Raw(o: Operand): string {
    match o
    case Missing => "null"
    case Given(text, _) => text
  }

  function Leaf(token: string): Parts {
    Parts(token, Missing, Missing)
  }

  /** Two operand parts, each next to its own text. */
  function Binary(op: string, left: string, l: Parts, right: string, r: Parts): Parts {
    Parts(op, Given(left, l), Given(right, r))
  }

  /** A function application such as `sin(x)`: only the left operand. */
  function Unary(name: string, arg: string, a: Parts): Parts {
    Parts(name, Given(arg, a), Missing)
  }
}
