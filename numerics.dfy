/** Real-number stand-ins for the f64 operations the operator catalog uses.
    Values are modelled as `real`; the transcendental functions are not
    defined here but supplied by the caller as a `Math` record, so every
    property proved about them holds for any implementation that meets the
    hypotheses the property states: `ExpLaws` for the sigmoid identities,
    and a law of `powf` for the two lemmas that relate powf to other rules. */
module Numerics {

  /** Optional value, used for the optional gradient identity. */
  datatype Option<+T> = None | Some(value: T)

  /** Success or failure; the failure carries GSPICE's diagnostic. */
  datatype Result<+T, +E> = Ok(value: T) | Err(error: E)

  /** The closest f64 value to pi (`std::f64::consts::PI`). */
  const PI: real := 3.141592653589793

  /** The transcendental functions, kept abstract. `divByZero(a)` is the
      IEEE-754 value of `a / 0.0` (an infinity or NaN), which a real cannot
      represent; it keeps every division total, as it is in f64. */
  datatype Math = Math(
    sin: real -> real,
    cos: real -> real,
    tan: real -> real,
    tanh: real -> real,
    exp: real -> real,
    ln: real -> real,
    sqrt: real -> real,
    erf: real -> real,
    powf: (real, real) -> real,
    divByZero: real -> real)

  /** The only facts about `exp` that the sigmoid identities rely on:
      it is positive and exp(x) * exp(-x) == 1. */
  ghost predicate ExpLaws(m: Math) {
    && (forall x :: m.exp(x) > 0.0)
    && (forall x, y :: x + y == 0.0 ==> m.exp(x) * m.exp(y) == 1.0)
  }

  /** f64 division `a / b`: ordinary division unless the divisor is zero. */
  function Quot(a: real, b: real, m: Math): (r: real)
    ensures b != 0.0 ==> r * b == a
  {
    if b == 0.0 then m.divByZero(a) else a / b
  }

  /** `f64::signum`: 1.0 for zero and positive values (+0.0 is sign-positive),
      -1.0 for negative ones. */
  function Signum(x: real): (r: real)
    ensures r == 1.0 || r == -1.0
    ensures r * x >= 0.0
    ensures (r == 1.0) <==> x >= 0.0
  {
    if x >= 0.0 then 1.0 else -1.0
  }

  /** `f64::abs`. */
  function Abs(x: real): (r: real)
    ensures r >= 0.0 && (r == x || r == -x)
  {
    if x >= 0.0 then x else -x
  }

  /** A real with no fractional part. */
  predicate IsInteger(r: real) {
    r.Floor as real == r
  }

  /** `f64::floor`: the greatest integer not above `x`. */
  function Floor(x: real): (r: real)
    ensures IsInteger(r)
    ensures r <= x < r + 1.0
  {
    x.Floor as real
  }

  /** `f64::ceil`: the least integer not below `x`. */
  function Ceil(x: real): (r: real)
    ensures IsInteger(r)
    ensures r - 1.0 < x <= r
  {
    NegatedInteger(Floor(-x));
    -Floor(-x)
  }

  lemma NegatedInteger(r: real)
    requires IsInteger(r)
    ensures IsInteger(-r)
  {
    var n := r.Floor;
    assert -r == (-n) as real;
  }

  /** Rounding a non-negative value half up: the integer nearest to it,
      the upper one on a tie. */
  lemma HalfUp(y: real)
    requires y >= 0.0
    ensures var r := Floor(y + 0.5);
      && r >= 0.0 && y - 0.5 < r <= y + 0.5
      && (Abs(r - y) == 0.5 ==> r == y + 0.5)
  {
  }

  /** `f64::round`: to the nearest integer, halves away from zero. */
  function Round(x: real): (r: real)
    ensures IsInteger(r)
    ensures Abs(r - x) <= 0.5
    ensures Abs(r - x) == 0.5 ==> Abs(r) > Abs(x)
    ensures x >= 0.0 ==> r >= 0.0
    ensures x <= 0.0 ==> r <= 0.0
  {
    if x >= 0.0 then
      HalfUp(x);
      Floor(x + 0.5)
    else
      HalfUp(-x);
      NegatedInteger(Floor(-x + 0.5));
      -Floor(-x + 0.5)
  }

  /** `f64::min` (NaN is out of scope). */
  function Min(a: real, b: real): (r: real)
    ensures r <= a && r <= b && (r == a || r == b)
  {
    if a <= b then a else b
  }

  /** `f64::max` (NaN is out of scope). */
  function Max(a: real, b: real): (r: real)
    ensures r >= a && r >= b && (r == a || r == b)
  {
    if a >= b then a else b
  }

  /** A value in the probability range [0, 1] that the logic operators and
      `cond` expect of their operands. */
  predicate InUnit(x: real) {
    0.0 <= x <= 1.0
  }
}
