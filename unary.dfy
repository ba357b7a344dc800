/** The unary operator catalog and `powf`: the forward value of each
    operator and the contribution its backward rule adds into the operand's
    gradient accumulator. */
module UnaryRules {
  import opened Numerics

  datatype UnaryOp =
    | LogicNot | Neg | Sin | Cos | Tanh | Tan | Ceil | Floor | Round | Sign
    | Sqrt | Sqr | Cubic | Log | Exp | Abs | Erf

  /** The operators whose backward rule is a declared non-differentiable
      point: it only logs a diagnostic and leaves the accumulator alone. */
  predicate NonDifferentiable(op: UnaryOp) {
    op.Ceil? || op.Floor? || op.Round? || op.Sign?
  }

  /** `UnaryOp::forward`: the operator applied to one element. */
  function Forward(m: Math, op: UnaryOp, x: real): real {
    match op
    case LogicNot => 1.0 - x
    case Neg => -x
    case Sin => m.sin(x)
    case Cos => m.cos(x)
    case Tanh => m.tanh(x)
    case Tan => m.tan(x)
    case Ceil => Numerics.Ceil(x)
    case Floor => Numerics.Floor(x)
    case Round => Numerics.Round(x)
    case Sign => Signum(x)
    case Sqrt => m.sqrt(x)
    case Sqr => x * x
    case Cubic => x * x * x
    case Log => m.ln(x)
    case Exp => m.exp(x)
    case Abs => Numerics.Abs(x)
    case Erf => m.erf(x)
  }

  /** The value `2 / sqrt(pi)` of the erf derivative. */
  function ErfScale(m: Math): real {
    Quot(2.0, m.sqrt(PI), m)
  }

  /** `UnaryOp::backward`: what the rule adds to `sum_grad`, given the
      operand `x`, the cached result `res` and the upstream gradient `grad`.
      Tan subtracts `grad * (1 + res^2)` and LogicNot adds the erf
      derivative; both are the rules as written. */
  function Delta(m: Math, op: UnaryOp, x: real, res: real, grad: real): real {
    match op
    case LogicNot => grad * (ErfScale(m) * m.exp(-x * x))
    case Neg => -grad
    case Sin => grad * m.cos(x)
    case Cos => -(grad * m.sin(x))
    case Tanh => -(grad * (res * res - 1.0))
    case Tan => -(grad * (res * res + 1.0))
    case Ceil => 0.0
    case Floor => 0.0
    case Round => 0.0
    case Sign => 0.0
    case Sqrt => Quot(grad * 0.5, res, m)
    case Sqr => grad * 2.0 * x
    case Cubic => grad * 3.0 * x * x
    case Log => Quot(grad, x, m)
    case Exp => grad * res
    case Abs => if x >= 0.0 then grad else -grad
    case Erf => grad * (ErfScale(m) * m.exp(-x * x))
  }

  /** `Powf::forward`. */
  function PowfForward(m: Math, x: real, n: real): real {
    m.powf(x, n)
  }

  /** `Powf::backward`: adds `grad * n * x^(n-1)`. */
  function PowfDelta(m: Math, x: real, n: real, grad: real): real {
    grad * n * m.powf(x, n - 1.0)
  }

  /** Floor, ceil, round and sign never change the accumulator. */
  lemma NonDifferentiableAddsNothing(m: Math, op: UnaryOp, x: real, res: real, grad: real)
    requires NonDifferentiable(op)
    ensures Delta(m, op, x, res, grad) == 0.0
  {
  }

  /** The backward rules of the polynomial operators are their exact
      derivatives: the forward value moves by `h * Delta(.., grad = 1)` up to
      a remainder of order `h^2`. */
  lemma NegDerivative(m: Math, x: real, h: real)
    ensures Forward(m, Neg, x + h) - Forward(m, Neg, x) == h * Delta(m, Neg, x, -x, 1.0)
  {
  }

  lemma SqrDerivative(m: Math, x: real, h: real)
    ensures Forward(m, Sqr, x + h) - Forward(m, Sqr, x) == h * Delta(m, Sqr, x, x * x, 1.0) + h * h
  {
    calc {
      Forward(m, Sqr, x + h) - Forward(m, Sqr, x);
      (x + h) * (x + h) - x * x;
      h * (2.0 * x) + h * h;
    }
  }

  lemma CubicDerivative(m: Math, x: real, h: real)
    ensures Forward(m, Cubic, x + h) - Forward(m, Cubic, x)
         == h * Delta(m, Cubic, x, x * x * x, 1.0) + h * h * (3.0 * x + h)
  {
    calc {
      Forward(m, Cubic, x + h) - Forward(m, Cubic, x);
      (x + h) * (x + h) * (x + h) - x * x * x;
      h * (3.0 * x * x) + h * h * (3.0 * x + h);
    }
  }

  /** Abs: on either side of zero the rule gives the slope of |x|. */
  lemma AbsDerivative(m: Math, x: real, h: real)
    requires (x >= 0.0 && x + h >= 0.0) || (x < 0.0 && x + h < 0.0)
    ensures Forward(m, Abs, x + h) - Forward(m, Abs, x) == h * Delta(m, Abs, x, Numerics.Abs(x), 1.0)
  {
  }

  /** Exp reuses the cached result: given `res == exp(x)` the contribution
      is `grad * exp(x)`. */
  lemma ExpUsesCachedResult(m: Math, x: real, grad: real)
    ensures Delta(m, Exp, x, Forward(m, Exp, x), grad) == grad * m.exp(x)
  {
  }

  /** Tanh reuses the cached result: given `res == tanh(x)` the
      contribution is `grad * (1 - tanh(x)^2)`. */
  lemma TanhUsesCachedResult(m: Math, x: real, grad: real)
    ensures Delta(m, Tanh, x, Forward(m, Tanh, x), grad) == grad * (1.0 - m.tanh(x) * m.tanh(x))
  {
  }

  /** As written, the Tan rule is the negation of the derivative
      `1 + tan(x)^2` that its comment names. */
  lemma TanAsWritten(m: Math, x: real, grad: real)
    ensures Delta(m, Tan, x, Forward(m, Tan, x), grad) == -(grad * (1.0 + m.tan(x) * m.tan(x)))
  {
  }

  /** As written, LogicNot's rule is the erf derivative rather than the
      constant -1 of `1 - x`. */
  lemma LogicNotAsWritten(m: Math, x: real, grad: real)
    ensures Delta(m, LogicNot, x, Forward(m, LogicNot, x), grad) == Delta(m, Erf, x, Forward(m, Erf, x), grad)
  {
  }

  /** LogicNot maps the probability range onto itself. */
  lemma LogicNotInUnit(m: Math, x: real)
    requires InUnit(x)
    ensures InUnit(Forward(m, LogicNot, x))
  {
  }

  /** Floor, ceil and round give integers; floor and ceil bracket the
      operand, round moves it by at most one half and breaks a tie away
      from zero, and sign times abs gives the operand back. */
  lemma PiecewiseForward(m: Math, x: real)
    ensures IsInteger(Forward(m, Floor, x)) && IsInteger(Forward(m, Ceil, x)) && IsInteger(Forward(m, Round, x))
    ensures Forward(m, Floor, x) <= x <= Forward(m, Ceil, x)
    ensures Forward(m, Ceil, x) - Forward(m, Floor, x) < 2.0
    ensures Numerics.Abs(Forward(m, Round, x) - x) <= 0.5
    ensures Numerics.Abs(Forward(m, Round, x) - x) == 0.5 ==> Numerics.Abs(Forward(m, Round, x)) > Numerics.Abs(x)
    ensures Forward(m, Sign, x) * Forward(m, Abs, x) == x
  {
  }

  /** The powf rule agrees with the sqr rule at exponent 2, for any powf
      with `powf(x, 1) == x`: both add `2 * grad * x`. */
  lemma PowfSquareMatchesSqr(m: Math, x: real, grad: real)
    requires m.powf(x, 1.0) == x
    ensures PowfDelta(m, x, 2.0, grad) == Delta(m, Sqr, x, x * x, grad)
  {
  }
}
