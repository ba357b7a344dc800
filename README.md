# GSPICE expression operators in Dafny

This project models the operator layer of GSPICE's differentiable
expression engine. An expression is one of three things: a constant, a
parameter, or an operation. A parameter is a caller-owned tensor. An
operation is a tensor derived from other expressions, and it records the
operator and operands that produced it.

Operators evaluate eagerly. A comparison can use one of three methods: the
exact `Discret`, the `Linear` ramp, or the `Sigmoid` curve. The project
models:

- how each operator combines constants and tensors (broadcasting, shape
  rules, and the length assertion);
- when a result receives a fresh gradient identity;
- the short-circuit of a constant `cond`;
- the silent downgrade of a comparison method to `Discret`;
- the forward value and the backward accumulator update of every unary,
  binary, `cond`, `powf` and comparison operator;
- the tensor / expression data model: `parameter`, `constant`, `value`
  and `update`.

Layout, one module per file:

- `numerics.dfy` (`Numerics`): the real-number stand-ins for the f64
  operations. Transcendental functions are passed in as a `Math` record.
  `ExpLaws` states the only facts about `exp` that are used: it is
  positive, and `exp(x) * exp(-x) == 1`.
- `unary.dfy` (`UnaryRules`), `binary.dfy` (`BinaryRules`), `cmp.dfy`
  (`CmpRules`) and `cond.dfy` (`CondRules`): the operator catalog. Each
  rule is a forward function plus a `Delta` function. The `Delta` function
  gives the amount the backward rule adds into an accumulator.
- `expression.dfy` (`Expressions`): the `Tensor` class and the
  gradient-identity counter. It also holds the `Expression`, `Op` and
  `ScalarTensor` datatypes and `parameter` / `constant` / `value` /
  `update`.
- `broadcast.dfy` (`Broadcast`): the dispatch rules as pure functions over
  operand snapshots, with their shape, gradient and downgrade lemmas.
- `dispatch.dfy` (`Operators`): the operator entry points. Each one
  allocates its result tensor and mints a gradient identity when one is
  needed. Its contract ties the result to the `Broadcast` rules.
- `backward.dfy` (`Backward`): the backward rules applied to mutable
  accumulators, and the comparison iterators that walk zipped buffers.

## Model

| member | source | states |
|---|---|---|
| `UnaryRules.Forward` | gspice-utils/src/expression/op.rs:311-571 | the forward rule of each unary operator, as `UnaryOp::forward` dispatches it; its properties are the lemmas below |
| `UnaryRules.Delta` | gspice-utils/src/expression/op.rs:311-593 | the amount each unary backward rule adds to `sum_grad`, as `UnaryOp::backward` dispatches it; tied to the derivatives by the lemmas below |
| `UnaryRules.PowfForward` | gspice-utils/src/expression/op.rs:65-67 | powf's forward rule `x.powf(n)` |
| `UnaryRules.PowfDelta` | gspice-utils/src/expression/op.rs:68-70 | powf's backward rule adds `grad * n * x^(n-1)` |
| `UnaryRules.PowfSquareMatchesSqr` | gspice-utils/src/expression/op.rs:68-70 | at exponent 2 the powf rule adds what the sqr rule adds, `2 * grad * x`, given `powf(x, 1) == x` |
| `Numerics.Signum` | gspice-utils/src/expression/op.rs:425-440 | sign is ±1, agrees with the operand's sign, and is +1 at zero |
| `Numerics.Floor` | gspice-utils/src/expression/op.rs:398-411 | floor is the greatest integer not above the operand |
| `Numerics.Ceil` | gspice-utils/src/expression/op.rs:384-397 | ceil is the least integer not below the operand |
| `Numerics.Round` | gspice-utils/src/expression/op.rs:412-424 | round gives an integer within one half of the operand, breaks a tie away from zero and keeps the sign |
| `UnaryRules.NonDifferentiableAddsNothing` | gspice-utils/src/expression/op.rs:384-440 | ceil, floor, round and sign add nothing to the accumulator |
| `UnaryRules.NegDerivative` | gspice-utils/src/expression/op.rs:311-322 | the neg rule is the exact slope of `-x` |
| `UnaryRules.SqrDerivative` | gspice-utils/src/expression/op.rs:453-464 | the sqr rule `2x` is the derivative of `x^2`; the difference quotient differs from it by exactly `h` |
| `UnaryRules.CubicDerivative` | gspice-utils/src/expression/op.rs:465-476 | the cubic rule `3x^2` is the derivative of `x^3`, up to an `h^2` remainder |
| `UnaryRules.AbsDerivative` | gspice-utils/src/expression/op.rs:502-517 | the abs rule is the slope of `abs` on either side of zero, and gives +grad at zero |
| `UnaryRules.ExpUsesCachedResult` | gspice-utils/src/expression/op.rs:490-501 | the exp rule, fed its cached result, adds `grad * exp(x)` |
| `UnaryRules.TanhUsesCachedResult` | gspice-utils/src/expression/op.rs:356-369 | the tanh rule, fed its cached result, adds `grad * (1 - tanh(x)^2)` |
| `UnaryRules.TanAsWritten` | gspice-utils/src/expression/op.rs:370-383 | the tan rule subtracts `grad * (1 + tan^2)`, the negation of the derivative its comment names |
| `UnaryRules.LogicNotAsWritten` | gspice-utils/src/expression/op.rs:533-547 | the logic_not rule is erf's rule, not the `-grad` of `1 - x` |
| `UnaryRules.LogicNotInUnit` | gspice-utils/src/expression/op.rs:533-541 | logic_not maps [0, 1] into [0, 1] |
| `UnaryRules.PiecewiseForward` | gspice-utils/src/expression/op.rs:384-517 | floor, ceil and round return integers; floor <= x <= ceil; round is within 1/2 and breaks ties away from zero; sign(x) * abs(x) == x |
| `BinaryRules.ForwardLhsRhs` | gspice-utils/src/expression/op.rs:1523-1793 | each operator's `forward_lhs_rhs`, as `BinaryOp::forward` dispatches it |
| `BinaryRules.ForwardRhsLhs` | gspice-utils/src/expression/op.rs:1523-1793 | each operator's `forward_rhs_lhs`, taking (rhs, lhs); `SwappedForwardAgrees` proves it is the same operator |
| `BinaryRules.DeltaLhs` | gspice-utils/src/expression/op.rs:1523-1807 | each operator's `backward_lhs` contribution, as `BinaryOp::backward` dispatches it |
| `BinaryRules.DeltaRhs` | gspice-utils/src/expression/op.rs:1523-1807 | each operator's `backward_rhs` contribution |
| `BinaryRules.SwappedForwardAgrees` | gspice-utils/src/expression/op.rs:1778-1807 | `forward_rhs_lhs(rhs, lhs)` is `lhs op rhs` for every operator |
| `BinaryRules.MinGradientSplit` | gspice-utils/src/expression/op.rs:1713-1744 | min: a strict winner gets `grad` and the loser 0; ties give `grad/2` each; the parts sum to `grad` |
| `BinaryRules.MaxGradientSplit` | gspice-utils/src/expression/op.rs:1745-1776 | the same split for max |
| `BinaryRules.MinMaxForward` | gspice-utils/src/expression/op.rs:1713-1776 | `min + max == a + b`, and gradient flows only to the operand min, resp. max, returns |
| `BinaryRules.LogicOpsInUnit` | gspice-utils/src/expression/op.rs:1523-1572 | logic_and and logic_or map [0, 1] pairs into [0, 1] |
| `BinaryRules.LogicDeMorgan` | gspice-utils/src/expression/op.rs:1523-1572 | `1 - or(a, b) == and(1 - a, 1 - b)` |
| `BinaryRules.PolynomialPartials` | gspice-utils/src/expression/op.rs:1523-1649 | the add, sub, mul, logic_and and logic_or rules are the exact partial derivatives on both sides |
| `BinaryRules.PowLhsMatchesPowerRule` | gspice-utils/src/expression/op.rs:1702-1707 | for a nonzero base and the cached result `res == powf(lhs, rhs)`, the pow lhs rule `grad * rhs * res / lhs` equals the power rule `grad * rhs * powf(lhs, rhs - 1)`, given `powf(x, n) == x * powf(x, n - 1)` |
| `BinaryRules.DivPartials` | gspice-utils/src/expression/op.rs:1658-1677 | the div rules are the partial derivatives `1/b` and `-a/b^2` |
| `CmpRules.NewLinear` | gspice-utils/src/expression/op.rs:38-42 | a linear method is built iff `epsilon` is sign-positive, otherwise the assertion fails; the method built is differentiable, and well-formed (as `ComplementaryRelations` requires) iff `epsilon > 0` |
| `CmpRules.NewSigmoid` | gspice-utils/src/expression/op.rs:33-37 | a sigmoid method is built iff `k` is sign-positive; it is differentiable, and well-formed iff `k > 0` |
| `CmpRules.Differentiable` | gspice-utils/src/expression/op.rs:43-49 | only Linear and Sigmoid are differentiable |
| `CmpRules.DiscretForward` | gspice-utils/src/expression/op.rs:875-926 | Discret's six relations as exact 0/1 indicators |
| `CmpRules.LinearForward` | gspice-utils/src/expression/op.rs:928-1090 | Linear's six forward rules: the eq triangle, its ne complement, the le ramp, and ge/gt/lt built from it |
| `CmpRules.SigmoidForward` | gspice-utils/src/expression/op.rs:1092-1216 | Sigmoid's six forward rules: the Gaussian eq, its ne complement, the logistic le, and ge/gt/lt built from it |
| `CmpRules.Forward` | gspice-utils/src/expression/op.rs:874-1217 | the forward value of a relation under a method; its properties are the lemmas below |
| `CmpRules.DeltaLhs` | gspice-utils/src/expression/op.rs:828-1217 | the `*_backward_lhs` contribution of a relation under a method; zero for Discret |
| `CmpRules.DeltaRhs` | gspice-utils/src/expression/op.rs:828-1217 | the `*_backward_rhs` contribution; zero for Discret |
| `CmpRules.EqNeComplement` | gspice-utils/src/expression/op.rs:874-1217 | `eq + ne == 1` under every method |
| `CmpRules.GeGtAreSwapped` | gspice-utils/src/expression/op.rs:1054-1089 | ge and gt are le and lt with the operands swapped, under every method |
| `CmpRules.LinearLeSwapSum` | gspice-utils/src/expression/op.rs:1005-1053 | the linear le ramp and its swapped copy add up to 1 |
| `CmpRules.SigmoidLeSwapSum` | gspice-utils/src/expression/op.rs:1150-1178 | the logistic le and its swapped copy add up to 1, given the exp laws |
| `CmpRules.ComplementaryRelations` | gspice-utils/src/expression/op.rs:894-1216 | `le + gt == 1` and `lt + ge == 1` under every well-formed method; only Sigmoid needs the exp laws |
| `CmpRules.LinearShape` | gspice-utils/src/expression/op.rs:941-1053 | linear eq is 1 at a tie, `1 - abs(a-b)/eps` inside the band and 0 outside it; ne is 1 outside it; le and lt are 1/2 at a tie and 0 or 1 outside the band |
| `CmpRules.ForwardInUnit` | gspice-utils/src/expression/op.rs:874-1090 | Discret and Linear results lie in [0, 1] |
| `CmpRules.LinearLeInUnit` | gspice-utils/src/expression/op.rs:1005-1053 | the linear le ramp lies in [0, 1] |
| `CmpRules.SigmoidInOpenUnit` | gspice-utils/src/expression/op.rs:1150-1178 | the logistic le lies strictly between 0 and 1 |
| `CmpRules.DiscretHasNoGradient` | gspice-utils/src/expression/op.rs:828-872 | Discret keeps the default backward rules, which add nothing |
| `CmpRules.LhsRhsOpposite` | gspice-utils/src/expression/op.rs:927-1217 | under every method, the lhs and rhs contributions of a comparison are opposite |
| `CmpRules.LinearLeSlope` | gspice-utils/src/expression/op.rs:1005-1053 | inside the band, the linear le backward rule is the exact slope of the forward ramp |
| `CmpRules.LinearNoGradientOutsideBand` | gspice-utils/src/expression/op.rs:941-1090 | outside the band (`abs(a - b) > eps`), fed its cached result, every linear backward rule adds nothing on either side |
| `CmpRules.LinearEqSlope1` | gspice-utils/src/expression/op.rs:941-972 | inside the band and on one side of a tie, the linear eq backward rule is the exact slope |
| `CondRules.Forward` | gspice-utils/src/expression/op.rs:96-100 | the blend `cond * on_true + (1 - cond) * on_false` |
| `CondRules.DeltaCond` | gspice-utils/src/expression/op.rs:101-109 | backward_cond adds `grad * (on_true - on_false)` |
| `CondRules.DeltaOnTrue` | gspice-utils/src/expression/op.rs:110-118 | backward_on_true adds `cond * grad` |
| `CondRules.DeltaOnFalse` | gspice-utils/src/expression/op.rs:119-128 | backward_on_false adds `(1 - cond) * grad` |
| `CondRules.SelectsAtEnds` | gspice-utils/src/expression/op.rs:90-100 | the blend gives on_true at cond = 1 and on_false at cond = 0 |
| `CondRules.BlendBetweenBranches` | gspice-utils/src/expression/op.rs:90-100 | for cond in [0, 1] the blend lies between the two branches |
| `CondRules.ExactPartials` | gspice-utils/src/expression/op.rs:101-128 | the three cond rules add `grad*(t-f)`, `cond*grad` and `(1-cond)*grad`, which are the exact partial derivatives of the blend |
| `CondRules.BranchGradientsSum` | gspice-utils/src/expression/op.rs:110-128 | the on_true and on_false contributions add up to `grad` |
| `Expressions.GradIdGen.Fresh` | gspice/src/expression/mod.rs:55-62 | each new gradient identity differs from every earlier one |
| `Expressions.Tensor.constructor` | gspice/src/expression/mod.rs:14 | a tensor holds its gradient identity, its values and an unset change marker |
| `Expressions.Tensor.Update` | gspice/src/expression/mod.rs:17-21 | update replaces the whole buffer and marks the change; the gradient identity is a constant |
| `Expressions.Tensor.WithGrad` | gspice-utils/src/expression/op.rs:606-616 | a tensor tracks gradients iff it holds a gradient identity |
| `Expressions.Value` | gspice/src/expression/mod.rs:49-54 | `Const(v)` is viewed as `Scalar(v)`; Parameter and Operation are viewed as their own tensor |
| `Expressions.Constant` | gspice/src/expression/mod.rs:63-65 | `constant(v)` is the constant `v` |
| `Expressions.NewParameter` | gspice/src/expression/mod.rs:55-62 | a fresh tensor holding the values, with a gradient identity iff `need_grad`, returned as a Parameter and as a handle to the same tensor |
| `Expressions.ParameterSeesUpdates` | gspice/src/expression/mod.rs:49-62 | values written through the handle are what `value()` of the Parameter shows |
| `Expressions.NewOperation` | gspice-utils/src/expression/op.rs:605-616 | a derived tensor is fresh, records its operation, and gets a gradient identity only when asked |
| `Broadcast.Snapshot` | gspice/src/expression/mod.rs:48-54 | an operator sees a Const as its value, and a Parameter or Operation as its tensor's current values and whether it has a gradient identity |
| `Broadcast.UnaryEval` | gspice-utils/src/expression/op.rs:595-705 | unary dispatch: fold a constant, map a tensor through the rule |
| `Broadcast.PowfEval` | gspice-utils/src/expression/op.rs:72-84 | powf dispatch: fold a constant, broadcast a tensor against the exponent |
| `Broadcast.IterBinary` | gspice-utils/src/expression/op.rs:1811-1821 | two buffers fail with "tensor length mismatch!" iff their lengths differ; otherwise element i is `f(xs[i], ys[i])` at their common length |
| `Broadcast.BinaryEval` | gspice-utils/src/expression/op.rs:1809-1937 | binary dispatch over the four constant/tensor shapes |
| `Broadcast.CmpMethodFor` | gspice-utils/src/expression/op.rs:1420-1495 | the method used is the requested one or Discret, and it is differentiable iff the requested one is and some operand tracks gradients |
| `Broadcast.CmpEval` | gspice-utils/src/expression/op.rs:1417-1496 | comparison dispatch over the four constant/tensor shapes |
| `Broadcast.CondEval` | gspice-utils/src/expression/op.rs:181-279 | cond dispatch: the constant short-circuit and the blends over the tensor shapes |
| `Broadcast.Map` | gspice-utils/src/expression/op.rs:596-604 | mapping keeps the length and applies the rule element by element |
| `Broadcast.Zip` | gspice-utils/src/expression/op.rs:143-166 | zipping two buffers stops at the shorter one |
| `Broadcast.Zip3` | gspice-utils/src/expression/op.rs:167-179 | zipping three buffers stops at the shortest one |
| `Broadcast.UnaryEvalShape` | gspice-utils/src/expression/op.rs:690-700 | a constant folds; a tensor maps elementwise to the same length, with a gradient identity iff the operand has one |
| `Broadcast.PowfEvalShape` | gspice-utils/src/expression/op.rs:72-84 | powf folds a constant and broadcasts a tensor against the exponent |
| `Broadcast.BinaryEvalErrors` | gspice-utils/src/expression/op.rs:1809-1862 | binary ops fail with "tensor length mismatch!" iff two tensors differ in length; the result is constant iff both operands are, and gets a gradient identity iff some operand has one |
| `Broadcast.BinaryEvalElements` | gspice-utils/src/expression/op.rs:1904-1937 | every element is `lhs op rhs` in the caller's operand order, with the constant on either side, at the tensor's length |
| `Broadcast.CmpEvalShape` | gspice-utils/src/expression/op.rs:1417-1496 | two constants compare with Discret; otherwise elements use the effective method, tensors zip to the shorter length, and a gradient identity is minted iff the effective method is not Discret |
| `Broadcast.CmpDowngrade` | gspice-utils/src/expression/op.rs:1420-1495 | the requested method survives iff it is Discret already or some operand tracks gradients; a result without a gradient identity holds only 0 and 1 |
| `Broadcast.CondShortCircuit` | gspice-utils/src/expression/op.rs:186-211 | a constant condition with a tensor branch returns on_false iff it is exactly zero, and on_true otherwise (0.5 included) |
| `Broadcast.CondHardConstantsAgree` | gspice-utils/src/expression/op.rs:188-190 | with three constants and cond 0 or 1, the blend gives the branch the short-circuit would pick |
| `Broadcast.CondEvalElements` | gspice-utils/src/expression/op.rs:212-278 | a tensor condition blends elementwise; the result is exactly as long as the shortest tensor operand, and gets a gradient identity iff some operand has one |
| `Operators.UnaryOperation` | gspice-utils/src/expression/op.rs:690-700 | the result is the folded constant or a fresh tensor recording `Unary(a, op)` |
| `Operators.PowfOperation` | gspice-utils/src/expression/op.rs:72-84 | the result is the folded constant or a fresh tensor recording `Powf(a, n)` |
| `Operators.BinaryOperation` | gspice-utils/src/expression/op.rs:1904-1937 | a length mismatch is an error with no id minted; otherwise a constant or a fresh tensor recording `Binary(a, b, op)` |
| `Operators.CmpOperation` | gspice-utils/src/expression/op.rs:1417-1496 | a constant or a fresh tensor whose recorded `Cmp` stores the effective method |
| `Operators.CondOperation` | gspice-utils/src/expression/op.rs:181-279 | a short-circuit returns the branch expression itself, sharing its tensor, without minting; otherwise a constant or a fresh tensor recording `Cond(c, t, f)` |
| `Operators.UnaryLeavesOperand` | gspice-utils/src/expression/op.rs:595-617 | a unary op leaves its operand's values alone and returns a distinct tensor holding the mapped values |
| `Backward.UnaryBackward` | gspice-utils/src/expression/op.rs:549-593 | adds the operator's rule into its slot only; non-differentiable operators leave the buffer unchanged |
| `Backward.PowfBackward` | gspice-utils/src/expression/op.rs:68-70 | adds `grad * n * x^(n-1)` into its slot only |
| `Backward.BinaryBackward` | gspice-utils/src/expression/op.rs:1778-1807 | adds the lhs or rhs rule into its slot only |
| `Backward.CondBackward` | gspice-utils/src/expression/op.rs:101-128 | adds the cond, on_true or on_false rule into its slot only |
| `Backward.CmpBackwardIter` | gspice-utils/src/expression/op.rs:765-825 | each zipped accumulator receives its item's contribution; those past the shortest iterator are untouched |
| `Backward.DiscretWalkAddsNothing` | gspice-utils/src/expression/op.rs:828-872 | a Discret walk adds zero at every item |
| `Backward.WalksAreOpposite` | gspice-utils/src/expression/op.rs:765-794 | the lhs and rhs walks over the same tensors add opposite amounts |

## Left out

- f64 itself is not modelled: values are `real`, so NaN, ±0, infinities,
  rounding and `OrderedFloat`'s ordering of NaN are out of scope.
  Division by zero yields an opaque `divByZero(a)` value.
- The function bodies of sin, cos, tan, tanh, exp, ln, sqrt, erf and
  powf are not modelled. They are parameters (`Math`). Only three groups of
  lemmas assume anything about them. The sigmoid identities assume
  `ExpLaws`: exp is positive and `exp(x) * exp(-x) == 1`.
  `UnaryRules.PowfSquareMatchesSqr` assumes `powf(x, 1) == x`.
  `BinaryRules.PowLhsMatchesPowerRule` assumes
  `powf(x, n) == x * powf(x, n - 1)`.
- Sharing and locking through `Arc` / `RwLock` is replaced by heap
  objects, and concurrency is not modelled.
- The Python bindings and the operator-overload impls, including the named
  per-operator wrappers such as `sin` and `add`, are not modelled. They
  call the generic entry points, which are modelled.
- `log::error!` diagnostics are treated as no-ops.
- `GradId::new` and `ChangeMarker` are not part of this model; they live in
  modules that are not included. They are a counter (`GradIdGen`) and a
  flag. A fresh marker is taken to be unset.
- The per-relation `CmpOpT` impls are not part of this model. The
  comparison iterators are modelled directly from the `CmpMethodT` rules.
- Range checks are not preconditions: the debug-only `assert_logic!` checks
  and the zero case of the `is_sign_positive` checks. The forward functions
  are total, as in a release build. The range and complement lemmas
  require logic operands in [0, 1] and `epsilon, k > 0`. `epsilon == 0`
  passes GSPICE's assertion, and the lemmas do not cover it.
- The sigmoid's limit behaviour for large `k` is not stated.
- Broadcast.BinaryEvalErrors, Operators.BinaryOperation: the Rust code
  panics on the length assertion after it has already drawn a gradient
  identity. The model returns an error, and `Operators.BinaryOperation`
  promises that no identity is drawn.
- The backward pass that walks the recorded graph and owns the gradient
  buffers is not part of this model. Only the rules and the comparison
  iterators that the operators expose are modelled.
- UnaryRules.TanAsWritten, UnaryRules.LogicNotAsWritten: these backward
  rules are modelled exactly as written, and no derivative property is
  claimed for them. The tan rule subtracts `1 + tan^2`. The derivative of
  `1 - x` is `-1`, but the logic_not rule applies erf's gradient instead;
  the model follows the code.
- Tensor operands inside a recorded `Op` are the operand expressions
  themselves. The tensor shape of the older expression type is mapped
  onto Parameter and Operation.
