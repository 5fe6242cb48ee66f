/** The numeric library the expression nodes call into. Values are exact
    reals; the transcendental functions and the result of a division by
    zero (an IEEE infinity or NaN in Java) are left uninterpreted by making
    them fields of a record that every evaluation receives. */
module Numerics {

  /** `sin`, `cos` and `pow` stand for `Math.sin`, `Math.cos` and `Math.pow`;
      `overZero(a)` stands for the double `a / 0.0`. */
  datatype Lib = Lib(
    sin: real -> real,
    cos: real -> real,
    pow: (real, real) -> real,
    overZero: real -> real)

  /** `Math.pow(a, 0) == 1` and `Math.pow(a, 1) == a` for every base. */
  ghost predicate PowUnitLaws(lib: Lib) {
    && (forall a, e :: e == 0.0 ==> lib.pow(a, e) == 1.0)
    && (forall a, e :: e == 1.0 ==> lib.pow(a, e) == a)
  }

  /** Multiplication as the nodes perform it, exact over the reals. */
  function Times(a: real, b: real): real {
    a * b
  }

  /** Products distribute over differences. */
  lemma TimesDistributes(b: real, a: real, d: real)
    ensures Times(b, d) - Times(a, d) == Times(b - a, d)
  {
  }

  lemma TimesNonNegative(a: real, d: real)
    requires 0.0 <= a && 0.0 <= d
    ensures 0.0 <= Times(a, d)
  {
  }

  /** Scaling by a non-negative factor keeps order. */
  lemma TimesMonotone(a: real, b: real, d: real)
    requires a <= b && 0.0 <= d
    ensures Times(a, d) <= Times(b, d)
  {
    TimesDistributes(b, a, d);
    TimesNonNegative(b - a, d);
  }

  /** Squaring through `pow` agrees with multiplication. */
  ghost predicate SquareIsProduct(lib: Lib) {
    forall a, e :: e == 2.0 ==> lib.pow(a, e) == Times(a, a)
  }

  lemma SquareOf(lib: Lib, v: real)
    requires SquareIsProduct(lib)
    ensures lib.pow(v, 2.0) == Times(v, v)
  {
  }

  /** Division as the nodes perform it: the library's value over zero. */
  function Quot(lib: Lib, a: real, b: real): real {
    if b == 0.0 then lib.overZero(a) else a / b
  }

  /** Away from zero, division is exact: the quotient times the divisor is
      the dividend. */
  lemma QuotExact(lib: Lib, a: real, b: real)
    requires b != 0.0
    ensures Times(Quot(lib, a, b), b) == a
  {
  }
}
