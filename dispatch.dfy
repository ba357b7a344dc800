/** The operator entry points on expressions. Each one reads its operands'
    tensors, decides the outcome by the rules of `Broadcast`, and, when the
    outcome is a new tensor, allocates it with the recorded operation and,
    if required, a freshly minted gradient identity. */
module Operators {
  import opened Numerics
  import UnaryRules
  import BinaryRules
  import CmpRules
  import opened Expressions
  import Broadcast

  /** The expression `r` carries outcome `o`: a folded constant, or a fresh
      tensor holding the outcome's values, recording `recorded`, with an
      unchanged marker and the next gradient identity iff one is minted. */
  twostate predicate Realized(gen: GradIdGen, o: Broadcast.Outcome, recorded: Op, new r: Expression)
    reads gen, if r.IsTensor() then {r.tensor} else {}
  {
    match o
    case Folded(x) => r == Const(x) && gen.next == old(gen.next)
    case Node(values, mint) =>
      && r.Operation? && fresh(r.tensor) && r.op == recorded
      && r.tensor.values == values && !r.tensor.changed
      && (r.tensor.WithGrad() <==> mint)
      && (if mint then r.tensor.gradId == Some(old(gen.next)) && gen.next == old(gen.next) + 1
          else gen.next == old(gen.next))
    case Select(_) => false
  }

  /** Builds the expression for a folded or tensor outcome. */
  method Realize(o: Broadcast.Outcome, recorded: Op, gen: GradIdGen) returns (r: Expression)
    requires !o.Select?
    modifies gen
    ensures Realized(gen, o, recorded, r)
  {
    if o.Folded? {
      r := Const(o.x);
    } else {
      r := NewOperation(o.mintsGrad, o.values, recorded, gen);
    }
  }

  /** `Expression::unary_op`. */
  method UnaryOperation(m: Math, a: Expression, op: UnaryRules.UnaryOp, gen: GradIdGen) returns (r: Expression)
    modifies gen
    ensures Realized(gen, Broadcast.UnaryEval(m, op, Broadcast.Snapshot(a)), Unary(a, op), r)
  {
    var o := Broadcast.UnaryEval(m, op, Broadcast.Snapshot(a));
    r := Realize(o, Unary(a, op), gen);
  }

  /** `Expression::powf`. */
  method PowfOperation(m: Math, a: Expression, n: real, gen: GradIdGen) returns (r: Expression)
    modifies gen
    ensures Realized(gen, Broadcast.PowfEval(m, Broadcast.Snapshot(a), n), Powf(a, n), r)
  {
    var o := Broadcast.PowfEval(m, Broadcast.Snapshot(a), n);
    r := Realize(o, Powf(a, n), gen);
  }

  /** `Expression::binary_op`; two tensors of different lengths are
      GSPICE's fatal "tensor length mismatch!" assertion, returned here as
      an error. */
  method BinaryOperation(m: Math, a: Expression, b: Expression, op: BinaryRules.BinaryOp, gen: GradIdGen)
    returns (r: Result<Expression, string>)
    modifies gen
    ensures match Broadcast.BinaryEval(m, op, Broadcast.Snapshot(a), Broadcast.Snapshot(b))
      case Err(msg) => r == Err(msg) && gen.next == old(gen.next)
      case Ok(o) => r.Ok? && Realized(gen, o, Binary(a, b, op), r.value)
  {
    var res := Broadcast.BinaryEval(m, op, Broadcast.Snapshot(a), Broadcast.Snapshot(b));
    match res
    case Err(msg) =>
      r := Err(msg);
    case Ok(o) =>
      var e := Realize(o, Binary(a, b, op), gen);
      r := Ok(e);
  }

  /** `Expression::cmp_op`: the recorded operation stores the method
      actually used, which is `Discret` unless the requested method is
      differentiable and some operand tracks gradients. */
  method CmpOperation(m: Math, a: Expression, b: Expression, op: CmpRules.CmpOp, how: CmpRules.CmpMethod, gen: GradIdGen)
    returns (r: Expression)
    modifies gen
    ensures Realized(gen, Broadcast.CmpEval(m, how, op, Broadcast.Snapshot(a), Broadcast.Snapshot(b)),
                     Cmp(a, b, op, Broadcast.CmpMethodFor(how, Broadcast.Snapshot(a), Broadcast.Snapshot(b))), r)
  {
    var sa, sb := Broadcast.Snapshot(a), Broadcast.Snapshot(b);
    var o := Broadcast.CmpEval(m, how, op, sa, sb);
    r := Realize(o, Cmp(a, b, op, Broadcast.CmpMethodFor(how, sa, sb)), gen);
  }

  /** `Expression::cond`: a short-circuit hands back the selected branch
      expression itself, sharing its tensor; otherwise the blend is folded
      or allocated. */
  method CondOperation(c: Expression, t: Expression, f: Expression, gen: GradIdGen) returns (r: Expression)
    modifies gen
    ensures var o := Broadcast.CondEval(Broadcast.Snapshot(c), Broadcast.Snapshot(t), Broadcast.Snapshot(f));
      if o.Select? then r == (if o.onTrue then t else f) && gen.next == old(gen.next)
      else Realized(gen, o, Cond(c, t, f), r)
  {
    var o := Broadcast.CondEval(Broadcast.Snapshot(c), Broadcast.Snapshot(t), Broadcast.Snapshot(f));
    if o.Select? {
      r := if o.onTrue then t else f;
    } else {
      r := Realize(o, Cond(c, t, f), gen);
    }
  }

  /** Operators never touch their operands: a tensor operand keeps its
      values after it has been used, and the result of a tensor-valued call
      is a tensor no operand shares. */
  method UnaryLeavesOperand(m: Math, a: Expression, op: UnaryRules.UnaryOp, gen: GradIdGen) returns (r: Expression)
    requires a.IsTensor()
    modifies gen
    ensures r.IsTensor() && r.tensor != a.tensor
    ensures a.tensor.values == old(a.tensor.values)
    ensures r.tensor.values == Broadcast.Map(x => UnaryRules.Forward(m, op, x), a.tensor.values)
  {
    r := UnaryOperation(m, a, op, gen);
  }
}
