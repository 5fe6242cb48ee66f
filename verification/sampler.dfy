/** The point iterators behind the plots (`cartesianIterator` and
    `polarIterator`): `steps + 1` evenly spaced samples of the parameter
    from `lo` to `hi`, each evaluated by the expression evaluator, with a
    break wherever the value is not finite. */
module Sampler {
  import opened Numerics

  /** What the evaluator yields at one point: a finite value, or anything
      that is not (NaN, an infinity, or a thrown exception). */
  datatype Reading = Finite(value: real) | NonFinite

  datatype Point = Point(x: real, y: real)

  datatype Mode = Cartesian | Polar

  /** The iterator's state: the next sample's index and whether the last
      point returned was a break. */
  datatype Cursor = Cursor(idx: nat, broken: bool)

  /** `reset`: back to the first sample, with no pending break. */
  function Reset(): Cursor {
    Cursor(0, false)
  }

  /** `hasNext`: samples `0` to `steps` inclusive. */
  predicate HasNext(c: Cursor, steps: nat) {
    c.idx <= steps
  }

  /** The parameter of sample `i`: `lo + (i / steps) * (hi - lo)`. */
  function Position(lo: real, hi: real, steps: nat, i: nat): real
    requires steps > 0
  {
    lo + Times(i as real / steps as real, hi - lo)
  }

  /** The first sample is at `lo` and the last at `hi`. */
  lemma PositionEndpoints(lo: real, hi: real, steps: nat)
    requires steps > 0
    ensures Position(lo, hi, steps, 0) == lo
    ensures Position(lo, hi, steps, steps) == hi
  {
    var n := steps as real;
    assert n / n == 1.0;
    assert Times(1.0, hi - lo) == hi - lo;
  }

  /** The point drawn for parameter `t`, and whether it is a break. A
      Cartesian point keeps its abscissa and puts a non-finite value at 0;
      a polar point is `(r cos t, r sin t)`, or the origin when `r` is not
      finite. */
  function Sample(mode: Mode, lib: Lib, f: real -> Reading, t: real): (Point, bool) {
    match (mode, f(t))
    case (Cartesian, Finite(y)) => (Point(t, y), false)
    case (Cartesian, NonFinite) => (Point(t, 0.0), true)
    case (Polar, Finite(r)) => (Point(Times(r, lib.cos(t)), Times(r, lib.sin(t))), false)
    case (Polar, NonFinite) => (Point(0.0, 0.0), true)
  }

  /** `nextPoint`: the sample at the cursor; the cursor moves on by one and
      records whether that sample was a break. It does not consult
      `hasNext`. */
  function Next(mode: Mode, lib: Lib, f: real -> Reading, lo: real, hi: real, steps: nat, c: Cursor): (r: (Point, Cursor))
    requires steps > 0
    ensures r.1.idx == c.idx + 1
    ensures r.1.broken <==> f(Position(lo, hi, steps, c.idx)).NonFinite?
    ensures mode == Cartesian ==> r.0.x == Position(lo, hi, steps, c.idx)
    ensures r.1.broken ==> (mode == Cartesian ==> r.0.y == 0.0) && (mode == Polar ==> r.0 == Point(0.0, 0.0))
  {
    var (p, broken) := Sample(mode, lib, f, Position(lo, hi, steps, c.idx));
    (p, Cursor(c.idx + 1, broken))
  }

  /** Consecutive samples are `(hi - lo) / steps` apart. */
  lemma {:induction false} PositionsEvenlySpaced(lo: real, hi: real, steps: nat, i: nat)
    requires steps > 0
    ensures Position(lo, hi, steps, i + 1) - Position(lo, hi, steps, i) == (hi - lo) / steps as real
  {
    var n := steps as real;
    assert (i + 1) as real / n - i as real / n == 1.0 / n;
    TimesDistributes((i + 1) as real / n, i as real / n, hi - lo);
    assert Times(1.0 / n, hi - lo) == (hi - lo) / n;
  }

  /** Samples stay inside `[lo, hi]` and increase with the index. */
  lemma PositionsInRange(lo: real, hi: real, steps: nat, i: nat, j: nat)
    requires steps > 0 && lo <= hi && i <= j <= steps
    ensures lo <= Position(lo, hi, steps, i) <= Position(lo, hi, steps, j) <= hi
  {
    var n := steps as real;
    FractionsOrdered(0, i, n);
    FractionsOrdered(i, j, n);
    FractionsOrdered(j, steps, n);
    TimesMonotone(0.0, i as real / n, hi - lo);
    TimesMonotone(i as real / n, j as real / n, hi - lo);
    TimesMonotone(j as real / n, 1.0, hi - lo);
  }

  lemma FractionsOrdered(i: nat, j: nat, n: real)
    requires n > 0.0 && i <= j
    ensures 0.0 <= i as real / n <= j as real / n
  {
  }

  /** A finite polar sample lies at distance `|r|` from the origin when the
      angle's sine and cosine satisfy `sin^2 + cos^2 = 1`. */
  lemma PolarRadius(lib: Lib, f: real -> Reading, t: real, r: real)
    requires f(t) == Finite(r)
    requires lib.sin(t) * lib.sin(t) + lib.cos(t) * lib.cos(t) == 1.0
    ensures
      var p := Sample(Polar, lib, f, t).0;
      p.x * p.x + p.y * p.y == r * r
  {
    var s, c := lib.sin(t), lib.cos(t);
    assert (r * c) * (r * c) == r * r * (c * c);
    assert (r * s) * (r * s) == r * r * (s * s);
    assert r * r * (c * c) + r * r * (s * s) == r * r * (s * s + c * c);
  }

  /** Draining a freshly reset iterator, as the plot does: `steps + 1`
      points, the `i`-th sampled at `Position(i)`, each break reported right
      after its point, exactly where the evaluator is not finite. */
  method Drain(mode: Mode, lib: Lib, f: real -> Reading, lo: real, hi: real, steps: nat)
    returns (points: seq<Point>, breaks: seq<bool>)
    requires steps > 0
    ensures |points| == steps + 1 && |breaks| == steps + 1
    ensures forall i :: 0 <= i <= steps ==>
      (points[i], breaks[i]) == Sample(mode, lib, f, Position(lo, hi, steps, i))
    ensures forall i :: 0 <= i <= steps ==>
      (breaks[i] <==> f(Position(lo, hi, steps, i)).NonFinite?)
    ensures mode == Cartesian ==> points[0].x == lo && points[steps].x == hi
  {
    PositionEndpoints(lo, hi, steps);
    var c := Reset();
    points, breaks := [], [];
    while HasNext(c, steps)
      invariant c.idx <= steps + 1
      invariant |points| == c.idx && |breaks| == c.idx
      invariant forall i :: 0 <= i < c.idx ==>
        (points[i], breaks[i]) == Sample(mode, lib, f, Position(lo, hi, steps, i))
      decreases steps + 1 - c.idx
    {
      var (p, next) := Next(mode, lib, f, lo, hi, steps, c);
      points, breaks := points + [p], breaks + [next.broken];
      c := next;
    }
  }
}
