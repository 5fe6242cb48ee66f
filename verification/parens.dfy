/** Parenthesis balance of generated expression text. Every string the
    printers and the textual rewriters produce is meant to be read back by
    the AOS parser, which locates operands by matching parentheses. */
module Parens {

  function Step(c: char): int {
    if c == '(' then 1 else if c == ')' then -1 else 0
  }

  /** Number of `(` minus number of `)`. */
  function Depth(s: string): int {
    if |s| == 0 then 0 else Depth(s[..|s| - 1]) + Step(s[|s| - 1])
  }

  predicate NoParens(s: string) {
    forall i :: 0 <= i < |s| ==> s[i] != '(' && s[i] != ')'
  }

  /** Every `)` closes an earlier `(`, and every `(` is closed. */
  predicate Balanced(s: string) {
    && Depth(s) == 0
    && forall k :: 0 <= k <= |s| ==> Depth(s[..k]) >= 0
  }

  /** The text enclosed in one pair of parentheses. */
  function Paren(s: string): (r: string)
    ensures |r| == |s| + 2 && r[0] == '(' && r[|r| - 1] == ')'
  {
    "(" + s + ")"
  }

  lemma {:induction false} DepthAppend(a: string, b: string)
    ensures Depth(a + b) == Depth(a) + Depth(b)
    decreases |b|
  {
    if |b| > 0 {
      var ab := a + b;
      assert ab[..|ab| - 1] == a + b[..|b| - 1];
      DepthAppend(a, b[..|b| - 1]);
    } else {
      assert a + b == a;
    }
  }

  lemma {:induction false} NoParensDepth(s: string)
    requires NoParens(s)
    ensures Depth(s) == 0
    decreases |s|
  {
    if |s| > 0 {
      NoParensDepth(s[..|s| - 1]);
    }
  }

  lemma NoParensBalanced(s: string)
    requires NoParens(s)
    ensures Balanced(s)
  {
    forall k | 0 <= k <= |s|
      ensures Depth(s[..k]) >= 0
    {
      NoParensDepth(s[..k]);
    }
    NoParensDepth(s);
  }

  lemma BalancedAppend(a: string, b: string)
    requires Balanced(a) && Balanced(b)
    ensures Balanced(a + b)
  {
    var ab := a + b;
    DepthAppend(a, b);
    forall k | 0 <= k <= |ab|
      ensures Depth(ab[..k]) >= 0
    {
      if k <= |a| {
        assert ab[..k] == a[..k];
      } else {
        assert ab[..k] == a + b[..k - |a|];
        DepthAppend(a, b[..k - |a|]);
      }
    }
  }

  lemma ParenBalanced(s: string)
    requires Balanced(s)
    ensures Balanced(Paren(s))
  {
    var p := Paren(s);
    DepthAppend("(" + s, ")");
    DepthAppend("(", s);
    forall k | 0 <= k <= |p|
      ensures Depth(p[..k]) >= 0
    {
      if 0 < k <= |s| + 1 {
        assert p[..k] == "(" + s[..k - 1];
        DepthAppend("(", s[..k - 1]);
      } else if k == |p| {
        assert p[..k] == p;
      }
    }
  }

  /** Gluing balanced pieces with operator text keeps the balance. */
  lemma Join(a: string, sep: string, b: string)
    requires Balanced(a) && NoParens(sep) && Balanced(b)
    ensures Balanced(a + sep + b)
  {
    NoParensBalanced(sep);
    BalancedAppend(a, sep);
    BalancedAppend(a + sep, b);
  }

  /** A function call such as `sin(...)`: a plain name, then a group. */
  lemma Call(name: string, s: string)
    requires NoParens(name) && Balanced(s)
    ensures Balanced(name + Paren(s))
  {
    NoParensBalanced(name);
    ParenBalanced(s);
    BalancedAppend(name, Paren(s));
  }
}
