/** The binary operator catalog: the operand-order pair of forward rules
    used for broadcasting and the independent lhs/rhs backward contributions. */
module BinaryRules {
  import opened Numerics

  datatype BinaryOp = Add | Sub | Mul | Div | Pow | Min | Max | LogicAnd | LogicOr

  /** `forward_lhs_rhs`: the operator applied as `lhs op rhs`. */
  function ForwardLhsRhs(m: Math, op: BinaryOp, lhs: real, rhs: real): real {
    match op
    case Add => lhs + rhs
    case Sub => lhs - rhs
    case Mul => lhs * rhs
    case Div => Quot(lhs, rhs, m)
    case Pow => m.powf(lhs, rhs)
    case Min => Numerics.Min(lhs, rhs)
    case Max => Numerics.Max(lhs, rhs)
    case LogicAnd => lhs * rhs
    case LogicOr => lhs + rhs - lhs * rhs
  }

  /** `forward_rhs_lhs`: the same operator with its arguments given in the
      order (rhs, lhs), so that a tensor on the right can be mapped with the
      constant on the left as the operator's left operand. */
  function ForwardRhsLhs(m: Math, op: BinaryOp, rhs: real, lhs: real): real {
    match op
    case Add => lhs + rhs
    case Sub => lhs - rhs
    case Mul => lhs * rhs
    case Div => Quot(lhs, rhs, m)
    case Pow => m.powf(lhs, rhs)
    case Min => Numerics.Min(lhs, rhs)
    case Max => Numerics.Max(lhs, rhs)
    case LogicAnd => lhs * rhs
    case LogicOr => lhs + rhs - lhs * rhs
  }

  /** `backward_lhs`: what is added to the lhs accumulator. */
  function DeltaLhs(m: Math, op: BinaryOp, lhs: real, rhs: real, res: real, grad: real): real {
    match op
    case Add => grad
    case Sub => grad
    case Mul => grad * rhs
    case Div => Quot(grad, rhs, m)
    case Pow => Quot(grad * rhs * res, lhs, m)
    case Min => if lhs < rhs then grad else if lhs == rhs then grad / 2.0 else 0.0
    case Max => if lhs < rhs then 0.0 else if lhs == rhs then grad / 2.0 else grad
    case LogicAnd => grad * rhs
    case LogicOr => grad * (1.0 - rhs)
  }

  /** `backward_rhs`: what is added to the rhs accumulator. */
  function DeltaRhs(m: Math, op: BinaryOp, lhs: real, rhs: real, res: real, grad: real): real {
    match op
    case Add => grad
    case Sub => -grad
    case Mul => grad * lhs
    case Div => -Quot(grad * lhs, rhs * rhs, m)
    case Pow => grad * res * m.ln(lhs)
    case Min => if rhs < lhs then grad else if rhs == lhs then grad / 2.0 else 0.0
    case Max => if rhs < lhs then 0.0 else if rhs == lhs then grad / 2.0 else grad
    case LogicAnd => grad * lhs
    case LogicOr => grad * (1.0 - lhs)
  }

  /** The swapped forward rule is the same operator: broadcasting a constant
      on the left keeps the operand order `const op element`. */
  lemma SwappedForwardAgrees(m: Math, op: BinaryOp, lhs: real, rhs: real)
    ensures ForwardRhsLhs(m, op, rhs, lhs) == ForwardLhsRhs(m, op, lhs, rhs)
  {
  }

  /** Min/Max tie splitting: a strict winner receives the whole upstream
      gradient and the loser nothing; on a tie each side receives half, so
      the two contributions always add up to `grad`. */
  lemma MinGradientSplit(m: Math, lhs: real, rhs: real, res: real, grad: real)
    ensures DeltaLhs(m, Min, lhs, rhs, res, grad) + DeltaRhs(m, Min, lhs, rhs, res, grad) == grad
    ensures lhs < rhs ==> DeltaLhs(m, Min, lhs, rhs, res, grad) == grad && DeltaRhs(m, Min, lhs, rhs, res, grad) == 0.0
    ensures rhs < lhs ==> DeltaRhs(m, Min, lhs, rhs, res, grad) == grad && DeltaLhs(m, Min, lhs, rhs, res, grad) == 0.0
    ensures lhs == rhs ==> DeltaLhs(m, Min, lhs, rhs, res, grad) == grad / 2.0 == DeltaRhs(m, Min, lhs, rhs, res, grad)
  {
  }

  lemma MaxGradientSplit(m: Math, lhs: real, rhs: real, res: real, grad: real)
    ensures DeltaLhs(m, Max, lhs, rhs, res, grad) + DeltaRhs(m, Max, lhs, rhs, res, grad) == grad
    ensures lhs > rhs ==> DeltaLhs(m, Max, lhs, rhs, res, grad) == grad && DeltaRhs(m, Max, lhs, rhs, res, grad) == 0.0
    ensures rhs > lhs ==> DeltaRhs(m, Max, lhs, rhs, res, grad) == grad && DeltaLhs(m, Max, lhs, rhs, res, grad) == 0.0
    ensures lhs == rhs ==> DeltaLhs(m, Max, lhs, rhs, res, grad) == grad / 2.0 == DeltaRhs(m, Max, lhs, rhs, res, grad)
  {
  }

  /** The gradient routed by Min goes to the operand that attains the
      minimum, and likewise for Max; `min(a, b) + max(a, b) == a + b`. */
  lemma MinMaxForward(m: Math, a: real, b: real)
    ensures ForwardLhsRhs(m, Min, a, b) + ForwardLhsRhs(m, Max, a, b) == a + b
    ensures DeltaLhs(m, Min, a, b, 0.0, 1.0) > 0.0 ==> ForwardLhsRhs(m, Min, a, b) == a
    ensures DeltaRhs(m, Min, a, b, 0.0, 1.0) > 0.0 ==> ForwardLhsRhs(m, Min, a, b) == b
    ensures DeltaLhs(m, Max, a, b, 0.0, 1.0) > 0.0 ==> ForwardLhsRhs(m, Max, a, b) == a
    ensures DeltaRhs(m, Max, a, b, 0.0, 1.0) > 0.0 ==> ForwardLhsRhs(m, Max, a, b) == b
  {
  }

  /** The product t-norm and the probabilistic sum keep probabilities in
      [0, 1]. */
  lemma LogicOpsInUnit(m: Math, a: real, b: real)
    requires InUnit(a) && InUnit(b)
    ensures InUnit(ForwardLhsRhs(m, LogicAnd, a, b))
    ensures InUnit(ForwardLhsRhs(m, LogicOr, a, b))
  {
    ProductInUnit(a, b);
    var p, q := 1.0 - a, 1.0 - b;
    ProductInUnit(p, q);
    assert a + b - a * b == 1.0 - p * q;
  }

  /** A product of two probabilities is a probability no larger than
      either factor. */
  lemma ProductInUnit(x: real, y: real)
    requires InUnit(x) && InUnit(y)
    ensures 0.0 <= x * y <= y
  {
    assert (1.0 - x) * y >= 0.0;
  }

  /** The two logic operators are de Morgan duals under `1 - x`. */
  lemma LogicDeMorgan(m: Math, a: real, b: real)
    ensures 1.0 - ForwardLhsRhs(m, LogicOr, a, b) == ForwardLhsRhs(m, LogicAnd, 1.0 - a, 1.0 - b)
  {
  }

  /** The backward rules of the polynomial operators are the exact partial
      derivatives: moving one operand by `h` moves the forward value by
      `h` times the contribution for `grad == 1` (up to `h^2` where the rule
      is not linear in that operand). */
  lemma PolynomialPartials(m: Math, a: real, b: real, h: real)
    ensures ForwardLhsRhs(m, Add, a + h, b) - ForwardLhsRhs(m, Add, a, b) == h * DeltaLhs(m, Add, a, b, a + b, 1.0)
    ensures ForwardLhsRhs(m, Add, a, b + h) - ForwardLhsRhs(m, Add, a, b) == h * DeltaRhs(m, Add, a, b, a + b, 1.0)
    ensures ForwardLhsRhs(m, Sub, a + h, b) - ForwardLhsRhs(m, Sub, a, b) == h * DeltaLhs(m, Sub, a, b, a - b, 1.0)
    ensures ForwardLhsRhs(m, Sub, a, b + h) - ForwardLhsRhs(m, Sub, a, b) == h * DeltaRhs(m, Sub, a, b, a - b, 1.0)
    ensures ForwardLhsRhs(m, Mul, a + h, b) - ForwardLhsRhs(m, Mul, a, b) == h * DeltaLhs(m, Mul, a, b, a * b, 1.0)
    ensures ForwardLhsRhs(m, Mul, a, b + h) - ForwardLhsRhs(m, Mul, a, b) == h * DeltaRhs(m, Mul, a, b, a * b, 1.0)
    ensures ForwardLhsRhs(m, LogicAnd, a + h, b) - ForwardLhsRhs(m, LogicAnd, a, b) == h * DeltaLhs(m, LogicAnd, a, b, a * b, 1.0)
    ensures ForwardLhsRhs(m, LogicAnd, a, b + h) - ForwardLhsRhs(m, LogicAnd, a, b) == h * DeltaRhs(m, LogicAnd, a, b, a * b, 1.0)
    ensures ForwardLhsRhs(m, LogicOr, a + h, b) - ForwardLhsRhs(m, LogicOr, a, b)
         == h * DeltaLhs(m, LogicOr, a, b, a + b - a * b, 1.0)
    ensures ForwardLhsRhs(m, LogicOr, a, b + h) - ForwardLhsRhs(m, LogicOr, a, b)
         == h * DeltaRhs(m, LogicOr, a, b, a + b - a * b, 1.0)
  {
    assert (a + h) * b - a * b == h * b;
    assert a * (b + h) - a * b == h * a;
    assert (a + h) + b - (a + h) * b - (a + b - a * b) == h * (1.0 - b);
    assert a + (b + h) - a * (b + h) - (a + b - a * b) == h * (1.0 - a);
  }

  /** Pow's lhs rule divides the cached result by the base instead of
      calling powf again; for a nonzero base and any powf obeying
      `x^n == x * x^(n-1)` there, it is the power rule `grad * n * x^(n-1)`. */
  lemma PowLhsMatchesPowerRule(m: Math, lhs: real, rhs: real, grad: real)
    requires lhs != 0.0
    requires m.powf(lhs, rhs) == lhs * m.powf(lhs, rhs - 1.0)
    ensures DeltaLhs(m, Pow, lhs, rhs, m.powf(lhs, rhs), grad) == grad * rhs * m.powf(lhs, rhs - 1.0)
  {
    var p := m.powf(lhs, rhs - 1.0);
    assert grad * rhs * (lhs * p) == (grad * rhs * p) * lhs;
  }

  /** Div: the lhs rule is the exact partial derivative `1 / b`; the rhs
      rule is the derivative `-a / b^2`: the difference quotient in `b`,
      scaled by `(b + h) / b`, is exactly that rule. */
  lemma DivPartials(m: Math, a: real, b: real, h: real)
    requires b != 0.0 && b + h != 0.0
    ensures ForwardLhsRhs(m, Div, a + h, b) - ForwardLhsRhs(m, Div, a, b) == h * DeltaLhs(m, Div, a, b, a / b, 1.0)
    ensures (ForwardLhsRhs(m, Div, a, b + h) - ForwardLhsRhs(m, Div, a, b)) * (b + h)
         == h * DeltaRhs(m, Div, a, b, a / b, 1.0) * b
  {
    assert (a + h) / b - a / b == h * (1.0 / b);
    var q0, q1 := a / b, a / (b + h);
    assert q0 * b == a && q1 * (b + h) == a;
    assert (q1 - q0) * (b + h) == -(q0 * h);
    assert b * b != 0.0;
    var r := a / (b * b);
    assert r * (b * b) == a;
    assert r * b == q0 by {
      assert (r * b) * b == q0 * b;
    }
    assert DeltaRhs(m, Div, a, b, a / b, 1.0) == -r;
  }
}
