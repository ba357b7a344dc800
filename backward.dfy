/** The backward rules as GSPICE applies them: each rule adds its
    contribution into a mutable gradient accumulator, and the comparison
    operators walk zipped iterators of inputs and accumulators. An
    accumulator is a slot of a gradient buffer, modelled as an array. */
module Backward {
  import opened Numerics
  import UnaryRules
  import BinaryRules
  import CmpRules
  import CondRules
  import Broadcast

  /** Adds `delta` into slot `i` and leaves every other slot alone. */
  method AddInto(acc: array<real>, i: nat, delta: real)
    requires i < acc.Length
    modifies acc
    ensures acc[i] == old(acc[i]) + delta
    ensures forall j :: 0 <= j < acc.Length && j != i ==> acc[j] == old(acc[j])
  {
    acc[i] := acc[i] + delta;
  }

  /** `UnaryOpT::backward`. The non-differentiable operators (ceil, floor,
      round, sign) only log and leave the accumulator as it was. */
  method UnaryBackward(m: Math, op: UnaryRules.UnaryOp, x: real, res: real, grad: real, acc: array<real>, i: nat)
    requires i < acc.Length
    modifies acc
    ensures acc[i] == old(acc[i]) + UnaryRules.Delta(m, op, x, res, grad)
    ensures UnaryRules.NonDifferentiable(op) ==> acc[..] == old(acc[..])
    ensures forall j :: 0 <= j < acc.Length && j != i ==> acc[j] == old(acc[j])
  {
    if !UnaryRules.NonDifferentiable(op) {
      AddInto(acc, i, UnaryRules.Delta(m, op, x, res, grad));
    } else {
      UnaryRules.NonDifferentiableAddsNothing(m, op, x, res, grad);
    }
  }

  /** `Powf::backward`. */
  method PowfBackward(m: Math, x: real, n: real, res: real, grad: real, acc: array<real>, i: nat)
    requires i < acc.Length
    modifies acc
    ensures acc[i] == old(acc[i]) + UnaryRules.PowfDelta(m, x, n, grad)
    ensures forall j :: 0 <= j < acc.Length && j != i ==> acc[j] == old(acc[j])
  {
    AddInto(acc, i, UnaryRules.PowfDelta(m, x, n, grad));
  }

  /** `BinaryOpT::backward_lhs` and `backward_rhs`. */
  method BinaryBackward(m: Math, op: BinaryRules.BinaryOp, lhs: real, rhs: real, res: real, grad: real,
                        onLhs: bool, acc: array<real>, i: nat)
    requires i < acc.Length
    modifies acc
    ensures acc[i] == old(acc[i]) + (if onLhs then BinaryRules.DeltaLhs(m, op, lhs, rhs, res, grad)
                                     else BinaryRules.DeltaRhs(m, op, lhs, rhs, res, grad))
    ensures forall j :: 0 <= j < acc.Length && j != i ==> acc[j] == old(acc[j])
  {
    if onLhs {
      AddInto(acc, i, BinaryRules.DeltaLhs(m, op, lhs, rhs, res, grad));
    } else {
      AddInto(acc, i, BinaryRules.DeltaRhs(m, op, lhs, rhs, res, grad));
    }
  }

  /** Which operand of a `cond` an accumulator belongs to. */
  datatype CondOperand = CondPart | OnTruePart | OnFalsePart

  /** `Cond::backward_cond`, `backward_on_true` and `backward_on_false`. */
  method CondBackward(c: real, t: real, f: real, grad: real, part: CondOperand, acc: array<real>, i: nat)
    requires i < acc.Length
    modifies acc
    ensures acc[i] == old(acc[i]) + (match part
      case CondPart => CondRules.DeltaCond(c, t, f, grad)
      case OnTruePart => CondRules.DeltaOnTrue(c, t, f, grad)
      case OnFalsePart => CondRules.DeltaOnFalse(c, t, f, grad))
    ensures forall j :: 0 <= j < acc.Length && j != i ==> acc[j] == old(acc[j])
  {
    match part
    case CondPart => AddInto(acc, i, CondRules.DeltaCond(c, t, f, grad));
    case OnTruePart => AddInto(acc, i, CondRules.DeltaOnTrue(c, t, f, grad));
    case OnFalsePart => AddInto(acc, i, CondRules.DeltaOnFalse(c, t, f, grad));
  }

  // ---------------------------------------------------------------------
  // The comparison iterators
  // ---------------------------------------------------------------------

  /** The number of items a zip of the given sequences and the accumulator
      yields: the shortest of them. */
  function Zipped4(a: nat, b: nat, c: nat, d: nat): nat {
    Broadcast.Shorter(Broadcast.Shorter(a, b), Broadcast.Shorter(c, d))
  }

  /** Which side of a comparison, and which operand is a fixed constant. */
  datatype CmpWalk =
    | LhsOfTwo      // backward_lhs_iter
    | RhsOfTwo      // backward_rhs_iter
    | LhsFixedRhs   // backward_lhs_iter_fix_rhs
    | RhsFixedLhs   // backward_rhs_iter_fix_lhs

  /** The number of zipped items a walk visits: the walked operand, the
      other operand when it is a tensor, the results, the upstream gradients
      and the accumulators, whichever runs out first. */
  function WalkLength(walk: CmpWalk, lhs: seq<real>, rhs: seq<real>, res: seq<real>, grad: seq<real>, accLen: nat): nat {
    match walk
    case LhsOfTwo => Broadcast.Shorter(Zipped4(|lhs|, |rhs|, |res|, |grad|), accLen)
    case RhsOfTwo => Broadcast.Shorter(Zipped4(|lhs|, |rhs|, |res|, |grad|), accLen)
    case LhsFixedRhs => Zipped4(|lhs|, |res|, |grad|, accLen)
    case RhsFixedLhs => Zipped4(|rhs|, |res|, |grad|, accLen)
  }

  /** The contribution the walk adds at item `i`; `fixed` is the constant
      operand of the two fixed walks. */
  function WalkDelta(m: Math, how: CmpRules.CmpMethod, op: CmpRules.CmpOp, walk: CmpWalk,
                     lhs: seq<real>, rhs: seq<real>, fixed: real, res: seq<real>, grad: seq<real>, accLen: nat, i: nat): real
    requires i < WalkLength(walk, lhs, rhs, res, grad, accLen)
  {
    match walk
    case LhsOfTwo => CmpRules.DeltaLhs(m, how, op, lhs[i], rhs[i], res[i], grad[i])
    case RhsOfTwo => CmpRules.DeltaRhs(m, how, op, lhs[i], rhs[i], res[i], grad[i])
    case LhsFixedRhs => CmpRules.DeltaLhs(m, how, op, lhs[i], fixed, res[i], grad[i])
    case RhsFixedLhs => CmpRules.DeltaRhs(m, how, op, fixed, rhs[i], res[i], grad[i])
  }

  /** `CmpOp::backward_lhs_iter`, `backward_rhs_iter`,
      `backward_lhs_iter_fix_rhs` and `backward_rhs_iter_fix_lhs`: every
      visited accumulator receives its item's contribution; accumulators
      past the end of the zip are untouched. `Discret` keeps the trait's
      default rules, which add nothing. */
  method CmpBackwardIter(m: Math, how: CmpRules.CmpMethod, op: CmpRules.CmpOp, walk: CmpWalk,
                         lhs: seq<real>, rhs: seq<real>, fixed: real, res: seq<real>, grad: seq<real>, acc: array<real>)
    modifies acc
    ensures var n := WalkLength(walk, lhs, rhs, res, grad, acc.Length);
      && n <= acc.Length
      && (forall i :: 0 <= i < n ==>
            acc[i] == old(acc[i]) + WalkDelta(m, how, op, walk, lhs, rhs, fixed, res, grad, acc.Length, i))
      && (forall i :: n <= i < acc.Length ==> acc[i] == old(acc[i]))
  {
    var n := WalkLength(walk, lhs, rhs, res, grad, acc.Length);
    var i := 0;
    while i < n
      invariant 0 <= i <= n <= acc.Length
      invariant forall j :: 0 <= j < i ==>
        acc[j] == old(acc[j]) + WalkDelta(m, how, op, walk, lhs, rhs, fixed, res, grad, acc.Length, j)
      invariant forall j :: i <= j < acc.Length ==> acc[j] == old(acc[j])
    {
      acc[i] := acc[i] + WalkDelta(m, how, op, walk, lhs, rhs, fixed, res, grad, acc.Length, i);
      i := i + 1;
    }
  }

  /** A `Discret` comparison contributes nothing to any accumulator, so a
      walk leaves the gradient buffer as it was. */
  lemma DiscretWalkAddsNothing(m: Math, op: CmpRules.CmpOp, walk: CmpWalk,
                               lhs: seq<real>, rhs: seq<real>, fixed: real, res: seq<real>, grad: seq<real>,
                               accLen: nat, i: nat)
    requires i < WalkLength(walk, lhs, rhs, res, grad, accLen)
    ensures WalkDelta(m, CmpRules.Discret, op, walk, lhs, rhs, fixed, res, grad, accLen, i) == 0.0
  {
    match walk
    case LhsOfTwo => CmpRules.DiscretHasNoGradient(m, op, lhs[i], rhs[i], res[i], grad[i]);
    case RhsOfTwo => CmpRules.DiscretHasNoGradient(m, op, lhs[i], rhs[i], res[i], grad[i]);
    case LhsFixedRhs => CmpRules.DiscretHasNoGradient(m, op, lhs[i], fixed, res[i], grad[i]);
    case RhsFixedLhs => CmpRules.DiscretHasNoGradient(m, op, fixed, rhs[i], res[i], grad[i]);
  }

  /** Walking the lhs and the rhs of the same pair of tensors adds opposite
      amounts at every item: a comparison depends only on `lhs - rhs`. */
  lemma WalksAreOpposite(m: Math, how: CmpRules.CmpMethod, op: CmpRules.CmpOp,
                         lhs: seq<real>, rhs: seq<real>, fixed: real, res: seq<real>, grad: seq<real>,
                         accLen: nat, i: nat)
    requires i < WalkLength(LhsOfTwo, lhs, rhs, res, grad, accLen)
    ensures WalkDelta(m, how, op, LhsOfTwo, lhs, rhs, fixed, res, grad, accLen, i)
          + WalkDelta(m, how, op, RhsOfTwo, lhs, rhs, fixed, res, grad, accLen, i) == 0.0
  {
    CmpRules.LhsRhsOpposite(m, how, op, lhs[i], rhs[i], res[i], grad[i]);
  }
}
