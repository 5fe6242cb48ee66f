/** Java's 32-bit `int`: its range, wrap-around arithmetic, truncating
    division, `Integer.parseInt` and `Integer.toString`. */
module JavaInt {
  import opened Wrappers

  const MinInt: int := -0x8000_0000
  const MaxInt: int := 0x7fff_ffff
  const Modulus: int := 0x1_0000_0000

  predicate InRange(i: int) {
    MinInt <= i <= MaxInt
  }

  /** Two's-complement wrap-around of an exact integer result. */
  function Wrap(i: int): (r: int)
    ensures InRange(r)
    ensures (r - i) % Modulus == 0
    ensures InRange(i) ==> r == i
  {
    (i - MinInt) % Modulus + MinInt
  }

  function Abs(i: int): nat {
    if i < 0 then -i else i
  }

  /** Integer division rounding toward zero, before wrap-around: the
      remainder is smaller than the divisor and has the dividend's sign. */
  function TruncDiv(a: int, b: int): (q: int)
    requires b != 0
    ensures Abs(a - q * b) < Abs(b)
    ensures (a - q * b) * a >= 0
  {
    var m := Abs(a) / Abs(b);
    TruncDivRemainder(a, b, m);
    if (a < 0) == (b < 0) then m else -m
  }

  lemma TruncDivRemainder(a: int, b: int, m: int)
    requires b != 0 && m == Abs(a) / Abs(b)
    ensures var q := if (a < 0) == (b < 0) then m else -m;
      a - q * b == (if a < 0 then -(Abs(a) % Abs(b)) else Abs(a) % Abs(b))
  {
    var A, B := Abs(a), Abs(b);
    var rem := A % B;
    assert A == m * B + rem;
    if b < 0 {
      assert m * b == -(m * B);
    } else {
      assert m * b == m * B;
    }
  }

  /** The int `a / b` of Java for a non-zero divisor: only `MinInt / -1` wraps. */
  function Div(a: int, b: int): (q: int)
    requires InRange(a) && InRange(b) && b != 0
    ensures InRange(q)
    ensures q != TruncDiv(a, b) <==> a == MinInt && b == -1
  {
    TruncDivBounds(a, b);
    Wrap(TruncDiv(a, b))
  }

  /** An exact int quotient is an int, except `MinInt / -1`, which is one
      more than `MaxInt`. */
  lemma TruncDivBounds(a: int, b: int)
    requires InRange(a) && InRange(b) && b != 0
    ensures a == MinInt && b == -1 ==> TruncDiv(a, b) == MaxInt + 1
    ensures !(a == MinInt && b == -1) ==> InRange(TruncDiv(a, b))
  {
    var m := Abs(a) / Abs(b);
    assert m <= Abs(a) by {
      QuotientAtMost(Abs(a), Abs(b));
    }
    if Abs(b) == 1 {
      assert m == Abs(a);
    } else {
      assert m <= Abs(a) / 2 by {
        QuotientShrinks(Abs(a), Abs(b));
      }
    }
  }

  lemma QuotientAtMost(n: nat, d: nat)
    requires d > 0
    ensures n / d <= n
  {
    var q := n / d;
    assert q * d + n % d == n;
    ProductAtLeast(q, d, 1);
  }

  /** `n / d * 2 <= n` for a divisor of at least 2. */
  lemma QuotientShrinks(n: nat, d: nat)
    requires d >= 2
    ensures n / d <= n / 2
  {
    var q := n / d;
    assert q * d + n % d == n;
    ProductAtLeast(q, d, 2);
  }

  lemma ProductAtLeast(q: nat, d: nat, k: nat)
    requires d >= k
    ensures q * d >= q * k
  {
    assert q * d - q * k == q * (d - k);
  }

  predicate IsDigit(c: char) {
    '0' <= c <= '9'
  }

  predicate AllDigits(s: string) {
    forall i :: 0 <= i < |s| ==> IsDigit(s[i])
  }

  function DigitChar(d: nat): (c: char)
    requires d < 10
    ensures IsDigit(c)
  {
    ('0' as int + d) as char
  }

  /** The value of a non-empty run of decimal digits, most significant
      first, and none for an empty text or one with a non-digit. */
  function Unsigned(s: string): (r: Option<nat>)
    ensures r.Some? ==> |s| > 0 && AllDigits(s)
  {
    if |s| == 0 || !IsDigit(s[|s| - 1]) then None
    else
      var d := s[|s| - 1] as int - '0' as int;
      if |s| == 1 then Some(d)
      else match Unsigned(s[..|s| - 1])
        case None => None
        case Some(v) => Some(10 * v + d)
  }

  /** The shortest decimal spelling of a natural number. */
  function Digits(n: nat): (s: string)
    ensures |s| > 0 && AllDigits(s)
    ensures n > 0 ==> s[0] != '0'
  {
    if n < 10 then [DigitChar(n)] else Digits(n / 10) + [DigitChar(n % 10)]
  }

  /** `Integer.toString(i)`: a minus sign for negatives, then the digits. */
  function ToText(i: int): string {
    if i < 0 then "-" + Digits(-i) else Digits(i)
  }

  function InRangeOrNone(v: int): (r: Option<int>)
    ensures r.Some? <==> InRange(v)
    ensures r.Some? ==> r.value == v
  {
    if InRange(v) then Some(v) else None
  }

  /** `Integer.parseInt(s)`, with `None` for a `NumberFormatException`: an
      optional sign, at least one decimal digit, and a value inside the int
      range. Leading zeros are accepted. */
  function Parse(s: string): (r: Option<int>)
    ensures r.Some? ==> InRange(r.value)
    ensures r.Some? ==> |s| > 0 && (s[0] == '-' || s[0] == '+' || IsDigit(s[0]))
    ensures r.Some? ==> AllDigits(if s[0] == '-' || s[0] == '+' then s[1..] else s)
  {
    if |s| == 0 then None
    else if s[0] == '-' || s[0] == '+' then
      match Unsigned(s[1..])
      case None => None
      case Some(v) => InRangeOrNone(if s[0] == '-' then -(v as int) else v)
    else
      match Unsigned(s)
      case None => None
      case Some(v) => InRangeOrNone(v)
  }

  lemma {:induction false} DigitsRoundTrip(n: nat)
    ensures Unsigned(Digits(n)) == Some(n)
  {
    if n >= 10 {
      var s := Digits(n);
      assert s[..|s| - 1] == Digits(n / 10);
      DigitsRoundTrip(n / 10);
    }
  }

  /** `Integer.parseInt(Integer.toString(i)) == i` for every int. */
  lemma ParseInvertsToText(i: int)
    requires InRange(i)
    ensures Parse(ToText(i)) == Some(i)
  {
    if i < 0 {
      ParseNegative(i);
    } else {
      ParseNonNegative(i);
    }
  }

  /** The spelling `Integer.toString` produces: an optional minus sign, then
      digits without a leading zero (a lone `0` excepted, and no `-0`). */
  predicate Canonical(s: string) {
    if |s| > 0 && s[0] == '-' then |s| > 1 && s[1] != '0' && AllDigits(s[1..])
    else |s| > 0 && AllDigits(s) && (|s| == 1 || s[0] != '0')
  }

  /** Printed ints are canonical. */
  lemma ToTextCanonical(i: int)
    ensures Canonical(ToText(i))
  {
    if i < 0 {
      var s := ToText(i);
      assert s[1..] == Digits(-i);
    } else if i < 10 {
      assert |ToText(i)| == 1;
    }
  }

  /** Conversely, an accepted canonical text is the printed form of its
      value, so on canonical texts `Parse` reads the decimal value that
      `ToText` spells. */
  lemma ParseCanonicalIsToText(s: string)
    requires Parse(s).Some? && Canonical(s)
    ensures s == ToText(Parse(s).value)
  {
    if s[0] == '-' {
      var t := s[1..];
      UnsignedCanonical(t);
      assert "-" + t == s;
    } else {
      UnsignedCanonical(s);
    }
  }

  /** A digit run without a leading zero is the spelling of its value. */
  lemma {:induction false} UnsignedCanonical(t: string)
    requires Unsigned(t).Some? && (|t| == 1 || t[0] != '0')
    ensures Digits(Unsigned(t).value) == t
    ensures |t| > 1 ==> Unsigned(t).value >= 10
    decreases |t|
  {
    var c := t[|t| - 1];
    var d := c as int - '0' as int;
    if |t| == 1 {
      assert DigitChar(d) == c;
      assert Digits(d) == [c];
      assert t == [c];
    } else {
      var front := t[..|t| - 1];
      assert front[0] == t[0];
      UnsignedCanonical(front);
      var w := Unsigned(front).value;
      if |front| == 1 {
        assert w == front[0] as int - '0' as int;
        assert w >= 1;
      }
      var v := 10 * w + d;
      assert Unsigned(t).value == v;
      assert v / 10 == w && v % 10 == d;
      assert DigitChar(d) == c;
      assert Digits(v) == Digits(w) + [c];
      assert front + [c] == t;
    }
  }

  /** Leading zeros do not change the value `Parse` reads. */
  lemma {:induction false} UnsignedLeadingZero(t: string)
    requires |t| > 0
    ensures Unsigned("0" + t) == Unsigned(t)
    decreases |t|
  {
    var z := "0" + t;
    assert z[|z| - 1] == t[|t| - 1];
    if |t| == 1 {
      assert z[..|z| - 1] == "0";
    } else {
      assert z[..|z| - 1] == "0" + t[..|t| - 1];
      UnsignedLeadingZero(t[..|t| - 1]);
    }
  }

  lemma ParseNegative(i: int)
    requires InRange(i) && i < 0
    ensures Parse("-" + Digits(-i)) == Some(i)
  {
    var d := Digits(-i);
    var s := "-" + d;
    assert s[0] == '-' && |s| > 1;
    assert s[1..] == d;
    DigitsRoundTrip(-i);
  }

  lemma ParseNonNegative(i: nat)
    requires InRange(i)
    ensures Parse(Digits(i)) == Some(i)
  {
    var s := Digits(i);
    assert IsDigit(s[0]);
    DigitsRoundTrip(i);
  }
}
