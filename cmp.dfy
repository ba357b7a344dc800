/** The six comparison relations under the three smoothing methods:
    forward values and the lhs/rhs backward contributions. */
module CmpRules {
  import opened Numerics

  datatype CmpOp = Eq | Ne | Le | Ge | Lt | Gt

  /** The smoothing method of a comparison. Linear ramps across a band of
      half-width `epsilon`; Sigmoid uses a logistic curve of steepness `k`. */
  datatype CmpMethod = Discret | Linear(epsilon: real) | Sigmoid(k: real)

  /** `CmpMethod::differentiable`: only the smoothed methods have a
      gradient; Discret keeps the trait's default `false`. */
  predicate Differentiable(how: CmpMethod) {
    match how
    case Discret => false
    case Linear(_) => true
    case Sigmoid(_) => true
  }

  /** The parameter of a smoothed method is positive. */
  predicate WellFormed(how: CmpMethod) {
    match how
    case Discret => true
    case Linear(epsilon) => epsilon > 0.0
    case Sigmoid(k) => k > 0.0
  }

  /** `CmpMethod::new_linear`: asserts `epsilon.is_sign_positive()`, which
      over the reals is `epsilon >= 0`; a negative value is fatal. */
  function NewLinear(epsilon: real): (r: Result<CmpMethod, string>)
    ensures r.Ok? <==> epsilon >= 0.0
    ensures r.Ok? ==> r.value == Linear(epsilon) && Differentiable(r.value)
    ensures r.Ok? ==> (WellFormed(r.value) <==> epsilon > 0.0)
  {
    if epsilon >= 0.0 then Ok(Linear(epsilon)) else Err("assertion failed: epsilon.is_sign_positive()")
  }

  /** `CmpMethod::new_sigmoid`, with the same check on `k`. */
  function NewSigmoid(k: real): (r: Result<CmpMethod, string>)
    ensures r.Ok? <==> k >= 0.0
    ensures r.Ok? ==> r.value == Sigmoid(k) && Differentiable(r.value)
    ensures r.Ok? ==> (WellFormed(r.value) <==> k > 0.0)
  {
    if k >= 0.0 then Ok(Sigmoid(k)) else Err("assertion failed: k.is_sign_positive()")
  }

  function Indicator(b: bool): real {
    if b then 1.0 else 0.0
  }

  // ---------------------------------------------------------------- Discret

  /** `CmpMethodDiscret`: exact 0/1 results from the total order. */
  function DiscretForward(op: CmpOp, a: real, b: real): real {
    match op
    case Eq => Indicator(a == b)
    case Ne => Indicator(a != b)
    case Le => Indicator(a <= b)
    case Ge => Indicator(a >= b)
    case Lt => Indicator(a < b)
    case Gt => Indicator(a > b)
  }

  // ---------------------------------------------------------------- Linear

  /** `CmpMethodLinear::le_forward`: 1 below the band, 0 above it, and the
      ramp `1/2 - diff / (2 epsilon)` inside it. */
  function LinearLe(e: real, m: Math, a: real, b: real): real {
    var diff := a - b;
    if diff > e then 0.0
    else if diff < -e then 1.0
    else 0.5 - Quot(diff, 2.0 * e, m)
  }

  /** `CmpMethodLinear`: eq is a triangle of half-width epsilon, ne its
      complement; ge/gt swap the operands of le, and lt is le itself. */
  function LinearForward(e: real, m: Math, op: CmpOp, a: real, b: real): real {
    var abs := Numerics.Abs(a - b);
    match op
    case Eq => if abs < e then 1.0 - Quot(abs, e, m) else 0.0
    case Ne => if abs < e then Quot(abs, e, m) else 1.0
    case Le => LinearLe(e, m, a, b)
    case Ge => LinearLe(e, m, b, a)
    case Lt => LinearLe(e, m, a, b)
    case Gt => LinearLe(e, m, b, a)
  }

  /** The lhs contribution of `le_backward_lhs`: the band slope
      `-grad / (2 epsilon)` while `|a - b| <= epsilon`. */
  function LinearLeLhs(e: real, m: Math, a: real, b: real, grad: real): real {
    if Numerics.Abs(a - b) <= e then -Quot(grad, 2.0 * e, m) else 0.0
  }

  function LinearLeRhs(e: real, m: Math, a: real, b: real, grad: real): real {
    if Numerics.Abs(a - b) <= e then Quot(grad, 2.0 * e, m) else 0.0
  }

  /** The eq slope `grad * sign(a - b) / epsilon`, applied while the cached
      result says the pair is inside the band. */
  function LinearEqSlope(e: real, m: Math, a: real, b: real, grad: real): real {
    Quot(grad * Signum(a - b), e, m)
  }

  function LinearDeltaLhs(e: real, m: Math, op: CmpOp, a: real, b: real, res: real, grad: real): real {
    match op
    case Eq => if res != 0.0 then -LinearEqSlope(e, m, a, b, grad) else 0.0
    case Ne => if res != 1.0 then LinearEqSlope(e, m, a, b, grad) else 0.0
    case Le => LinearLeLhs(e, m, a, b, grad)
    case Ge => LinearLeRhs(e, m, a, b, grad)
    case Lt => LinearLeLhs(e, m, a, b, grad)
    case Gt => LinearLeRhs(e, m, a, b, grad)
  }

  function LinearDeltaRhs(e: real, m: Math, op: CmpOp, a: real, b: real, res: real, grad: real): real {
    match op
    case Eq => if res != 0.0 then LinearEqSlope(e, m, a, b, grad) else 0.0
    case Ne => if res != 1.0 then -LinearEqSlope(e, m, a, b, grad) else 0.0
    case Le => LinearLeRhs(e, m, a, b, grad)
    case Ge => LinearLeLhs(e, m, a, b, grad)
    case Lt => LinearLeRhs(e, m, a, b, grad)
    case Gt => LinearLeLhs(e, m, a, b, grad)
  }

  // ---------------------------------------------------------------- Sigmoid

  /** `CmpMethodSigmoid::le_forward`: `1 / (1 + exp(k (a - b)))`. */
  function SigmoidLe(k: real, m: Math, a: real, b: real): real {
    Quot(1.0, 1.0 + m.exp(k * (a - b)), m)
  }

  /** `CmpMethodSigmoid::eq_forward`: the Gaussian bump `exp(-k (a - b)^2)`. */
  function SigmoidEq(k: real, m: Math, a: real, b: real): real {
    var diff := a - b;
    m.exp(-k * diff * diff)
  }

  function SigmoidForward(k: real, m: Math, op: CmpOp, a: real, b: real): real {
    match op
    case Eq => SigmoidEq(k, m, a, b)
    case Ne => 1.0 - SigmoidEq(k, m, a, b)
    case Le => SigmoidLe(k, m, a, b)
    case Ge => SigmoidLe(k, m, b, a)
    case Lt => SigmoidLe(k, m, a, b)
    case Gt => SigmoidLe(k, m, b, a)
  }

  /** `eq_backward_lhs`: subtracts `grad * 2 k (a - b) exp(-k (a - b)^2)`. */
  function SigmoidEqLhs(k: real, m: Math, a: real, b: real, grad: real): real {
    var diff := a - b;
    var kdiff := k * diff;
    -(grad * 2.0 * kdiff * m.exp(-kdiff * diff))
  }

  function SigmoidEqRhs(k: real, m: Math, a: real, b: real, grad: real): real {
    var diff := a - b;
    var kdiff := k * diff;
    grad * 2.0 * kdiff * m.exp(-kdiff * diff)
  }

  /** `le_backward_lhs`: subtracts `grad * k * s * (1 - s)` for the logistic
      value `s` of the pair. */
  function SigmoidLeLhs(k: real, m: Math, a: real, b: real, grad: real): real {
    var sigma := SigmoidLe(k, m, a, b);
    -(grad * k * sigma * (1.0 - sigma))
  }

  function SigmoidLeRhs(k: real, m: Math, a: real, b: real, grad: real): real {
    var sigma := SigmoidLe(k, m, a, b);
    grad * k * sigma * (1.0 - sigma)
  }

  function SigmoidDeltaLhs(k: real, m: Math, op: CmpOp, a: real, b: real, grad: real): real {
    match op
    case Eq => SigmoidEqLhs(k, m, a, b, grad)
    case Ne => SigmoidEqRhs(k, m, a, b, grad)
    case Le => SigmoidLeLhs(k, m, a, b, grad)
    case Ge => SigmoidLeRhs(k, m, a, b, grad)
    case Lt => SigmoidLeLhs(k, m, a, b, grad)
    case Gt => SigmoidLeRhs(k, m, a, b, grad)
  }

  function SigmoidDeltaRhs(k: real, m: Math, op: CmpOp, a: real, b: real, grad: real): real {
    match op
    case Eq => SigmoidEqRhs(k, m, a, b, grad)
    case Ne => SigmoidEqLhs(k, m, a, b, grad)
    case Le => SigmoidLeRhs(k, m, a, b, grad)
    case Ge => SigmoidLeLhs(k, m, a, b, grad)
    case Lt => SigmoidLeRhs(k, m, a, b, grad)
    case Gt => SigmoidLeLhs(k, m, a, b, grad)
  }

  // ---------------------------------------------------------------- dispatch

  /** The forward value of relation `op` on the pair (a, b) under `how`. */
  function Forward(m: Math, how: CmpMethod, op: CmpOp, a: real, b: real): real {
    match how
    case Discret => DiscretForward(op, a, b)
    case Linear(e) => LinearForward(e, m, op, a, b)
    case Sigmoid(k) => SigmoidForward(k, m, op, a, b)
  }

  /** What the `*_backward_lhs` rule adds to the lhs accumulator. Discret
      keeps the trait's default rules, which add nothing. */
  function DeltaLhs(m: Math, how: CmpMethod, op: CmpOp, a: real, b: real, res: real, grad: real): real {
    match how
    case Discret => 0.0
    case Linear(e) => LinearDeltaLhs(e, m, op, a, b, res, grad)
    case Sigmoid(k) => SigmoidDeltaLhs(k, m, op, a, b, grad)
  }

  function DeltaRhs(m: Math, how: CmpMethod, op: CmpOp, a: real, b: real, res: real, grad: real): real {
    match how
    case Discret => 0.0
    case Linear(e) => LinearDeltaRhs(e, m, op, a, b, res, grad)
    case Sigmoid(k) => SigmoidDeltaRhs(k, m, op, a, b, grad)
  }

  // ---------------------------------------------------------------- properties

  /** ne is the complement of eq under every method. */
  lemma EqNeComplement(m: Math, how: CmpMethod, a: real, b: real)
    ensures Forward(m, how, Eq, a, b) + Forward(m, how, Ne, a, b) == 1.0
  {
  }

  /** ge and gt are le and lt with the operands swapped, under every method. */
  lemma GeGtAreSwapped(m: Math, how: CmpMethod, a: real, b: real)
    ensures Forward(m, how, Ge, a, b) == Forward(m, how, Le, b, a)
    ensures Forward(m, how, Gt, a, b) == Forward(m, how, Lt, b, a)
  {
  }

  /** The linear ramp and its swapped copy add up to one. */
  lemma LinearLeSwapSum(e: real, m: Math, a: real, b: real)
    requires e > 0.0
    ensures LinearLe(e, m, a, b) + LinearLe(e, m, b, a) == 1.0
  {
    var d := a - b;
    if -e <= d <= e {
      assert b - a == -d;
      assert Quot(d, 2.0 * e, m) + Quot(-d, 2.0 * e, m) == 0.0 by {
        assert Quot(-d, 2.0 * e, m) == -(d / (2.0 * e));
      }
    }
  }

  /** The logistic curve and its swapped copy add up to one, given only
      that exp is positive and exp(x) * exp(-x) == 1. */
  lemma SigmoidLeSwapSum(k: real, m: Math, a: real, b: real)
    requires ExpLaws(m)
    ensures SigmoidLe(k, m, a, b) + SigmoidLe(k, m, b, a) == 1.0
  {
    var x, y := k * (a - b), k * (b - a);
    assert x + y == 0.0;
    var p, q := m.exp(x), m.exp(y);
    assert p > 0.0 && q > 0.0;
    assert p * q == 1.0;
    var s, t := 1.0 / (1.0 + p), 1.0 / (1.0 + q);
    assert s * (1.0 + p) == 1.0 && t * (1.0 + q) == 1.0;
    assert t == p * s by {
      assert (p * s) * (1.0 + q) == s * (p + p * q);
      assert s * (p + p * q) == s * (1.0 + p);
    }
    assert s + t == s * (1.0 + p);
  }

  /** `le(a, b) + gt(a, b) == 1` and `lt(a, b) + ge(a, b) == 1` under every
      well-formed method. */
  lemma ComplementaryRelations(m: Math, how: CmpMethod, a: real, b: real)
    requires WellFormed(how)
    requires how.Sigmoid? ==> ExpLaws(m)
    ensures Forward(m, how, Le, a, b) + Forward(m, how, Gt, a, b) == 1.0
    ensures Forward(m, how, Lt, a, b) + Forward(m, how, Ge, a, b) == 1.0
  {
    match how
    case Discret =>
    case Linear(e) => LinearLeSwapSum(e, m, a, b);
    case Sigmoid(k) => SigmoidLeSwapSum(k, m, a, b);
  }

  /** The linear method: eq is 1 at a tie, falls linearly with |a - b| and
      is exactly 0 once |a - b| >= epsilon; le is exactly 1/2 at a tie; lt
      is the same ramp as le, so unlike Discret it is 1/2 at a tie too. */
  lemma LinearShape(e: real, m: Math, a: real, b: real)
    requires e > 0.0
    ensures Forward(m, Linear(e), Eq, a, a) == 1.0
    ensures Forward(m, Linear(e), Le, a, a) == 0.5 == Forward(m, Linear(e), Lt, a, a)
    ensures Numerics.Abs(a - b) >= e ==> Forward(m, Linear(e), Eq, a, b) == 0.0 && Forward(m, Linear(e), Ne, a, b) == 1.0
    ensures Numerics.Abs(a - b) < e ==> Forward(m, Linear(e), Eq, a, b) == 1.0 - Numerics.Abs(a - b) / e
    ensures a - b > e ==> Forward(m, Linear(e), Le, a, b) == 0.0
    ensures a - b < -e ==> Forward(m, Linear(e), Le, a, b) == 1.0
    ensures a - b > e ==> Forward(m, Linear(e), Lt, a, b) == 0.0
    ensures a - b < -e ==> Forward(m, Linear(e), Lt, a, b) == 1.0
  {
    assert a - a == 0.0;
  }

  /** Discret and Linear results are probabilities; the logistic sigmoid
      is strictly between 0 and 1. */
  lemma ForwardInUnit(m: Math, how: CmpMethod, op: CmpOp, a: real, b: real)
    requires WellFormed(how) && !how.Sigmoid?
    ensures InUnit(Forward(m, how, op, a, b))
  {
    match how
    case Discret =>
    case Linear(e) =>
      var abs := Numerics.Abs(a - b);
      if abs < e {
        RatioBelowOne(abs, e);
      }
      LinearLeInUnit(e, m, a, b);
      LinearLeInUnit(e, m, b, a);
  }

  lemma RatioBelowOne(x: real, e: real)
    requires 0.0 <= x < e
    ensures 0.0 <= x / e < 1.0
  {
    var q := x / e;
    assert q * e == x;
    assert (1.0 - q) * e == e - x;
  }

  lemma QuotientDifference(x: real, y: real, e: real)
    requires e != 0.0
    ensures x / e - y / e == (x - y) * (1.0 / e)
  {
    var p, q, u := x / e, y / e, 1.0 / e;
    assert p * e == x && q * e == y && u * e == 1.0;
    assert (p - q) * e == ((x - y) * u) * e;
  }

  lemma LinearLeInUnit(e: real, m: Math, a: real, b: real)
    requires e > 0.0
    ensures InUnit(LinearLe(e, m, a, b))
  {
    var d := a - b;
    if -e <= d <= e {
      var q := d / (2.0 * e);
      assert q * (2.0 * e) == d;
      assert -0.5 <= q <= 0.5;
    }
  }

  lemma SigmoidInOpenUnit(k: real, m: Math, a: real, b: real)
    requires ExpLaws(m)
    ensures 0.0 < SigmoidLe(k, m, a, b) < 1.0
  {
    var p := m.exp(k * (a - b));
    assert p > 0.0;
    var s := 1.0 / (1.0 + p);
    assert s * (1.0 + p) == 1.0;
  }

  /** Discret has no gradient: both backward rules add nothing. */
  lemma DiscretHasNoGradient(m: Math, op: CmpOp, a: real, b: real, res: real, grad: real)
    ensures DeltaLhs(m, Discret, op, a, b, res, grad) == 0.0 == DeltaRhs(m, Discret, op, a, b, res, grad)
  {
  }

  /** Every comparison depends on its operands only through `a - b`, so the
      lhs and rhs contributions are opposite under every method. */
  lemma LhsRhsOpposite(m: Math, how: CmpMethod, op: CmpOp, a: real, b: real, res: real, grad: real)
    ensures DeltaLhs(m, how, op, a, b, res, grad) + DeltaRhs(m, how, op, a, b, res, grad) == 0.0
  {
  }

  /** The linear backward rules are the slopes of the linear forward rules:
      inside the band, moving the lhs by `h` moves le by `h` times the lhs
      contribution for `grad == 1` ... */
  lemma LinearLeSlope(e: real, m: Math, a: real, b: real, h: real)
    requires e > 0.0
    requires Numerics.Abs(a - b) <= e && Numerics.Abs(a + h - b) <= e
    ensures Forward(m, Linear(e), Le, a + h, b) - Forward(m, Linear(e), Le, a, b)
         == h * DeltaLhs(m, Linear(e), Le, a, b, Forward(m, Linear(e), Le, a, b), 1.0)
  {
    var d, e2 := a - b, 2.0 * e;
    assert a + h - b == d + h;
    QuotientDifference(d + h, d, e2);
    assert LinearLe(e, m, a + h, b) == 0.5 - (d + h) / e2;
    assert LinearLe(e, m, a, b) == 0.5 - d / e2;
  }

  /** Outside the band the linear method has no gradient: given its
      cached result, every relation's lhs and rhs rules add nothing. */
  lemma LinearNoGradientOutsideBand(e: real, m: Math, op: CmpOp, a: real, b: real, grad: real)
    requires e > 0.0 && Numerics.Abs(a - b) > e
    ensures var res := Forward(m, Linear(e), op, a, b);
      && DeltaLhs(m, Linear(e), op, a, b, res, grad) == 0.0
      && DeltaRhs(m, Linear(e), op, a, b, res, grad) == 0.0
  {
  }

  /** ... and moving the lhs by `h` on one side of a tie moves eq by `h`
      times its lhs contribution. */
  lemma LinearEqSlope1(e: real, m: Math, a: real, b: real, h: real)
    requires e > 0.0
    requires (0.0 <= a - b && 0.0 <= a + h - b) || (a - b < 0.0 && a + h - b < 0.0)
    requires Numerics.Abs(a - b) < e && Numerics.Abs(a + h - b) < e
    ensures Forward(m, Linear(e), Eq, a + h, b) - Forward(m, Linear(e), Eq, a, b)
         == h * DeltaLhs(m, Linear(e), Eq, a, b, Forward(m, Linear(e), Eq, a, b), 1.0)
  {
    var d := a - b;
    var r0 := Forward(m, Linear(e), Eq, a, b);
    RatioBelowOne(Numerics.Abs(d), e);
    assert r0 == 1.0 - Numerics.Abs(d) / e && r0 != 0.0;
    if d >= 0.0 {
      QuotientDifference(d + h, d, e);
    } else {
      QuotientDifference(-(d + h), -d, e);
    }
  }
}
