/** The expression / tensor data model: a tensor is a shared, mutable value
    buffer with an optional gradient identity and a change marker; an
    expression is a constant, a caller-owned parameter, or a derived
    operation that records how its tensor was computed. */
module Expressions {
  import opened Numerics
  import UnaryRules
  import BinaryRules
  import CmpRules

  /** Gradient identities are minted from a counter. */
  type GradId = nat

  /** The counter that hands out fresh gradient identities (`GradId::new`). */
  class GradIdGen {
    var next: nat

    constructor ()
      ensures next == 0
    {
      next := 0;
    }

    /** Returns an identity no earlier call returned. */
    method Fresh() returns (id: GradId)
      modifies this
      ensures id == old(next) && next == old(next) + 1
    {
      id := next;
      next := next + 1;
    }
  }

  /** `Tensor`: the gradient identity is fixed at creation; the value
      buffer can be replaced; the change marker is a flag. */
  class Tensor {
    const gradId: Option<GradId>
    var values: seq<real>
    var changed: bool

    constructor (gradId: Option<GradId>, values: seq<real>)
      ensures this.gradId == gradId && this.values == values && !changed
    {
      this.gradId := gradId;
      this.values := values;
      this.changed := false;
    }

    /** `with_grad`: the tensor takes part in gradient tracking. */
    predicate WithGrad() {
      gradId.Some?
    }

    /** `Tensor::update`: replaces the whole buffer and marks the change;
        the gradient identity is untouched. */
    method Update(newValues: seq<real>)
      modifies this
      ensures values == newValues && changed
    {
      values := newValues;
      changed := true;
    }
  }

  /** `Expression`. Parameter and Operation are the tensor-valued kinds. */
  datatype Expression =
    | Const(x: real)
    | Parameter(tensor: Tensor)
    | Operation(tensor: Tensor, op: Op)
  {
    predicate IsTensor() {
      !Const?
    }
  }

  /** `Op`: the operator and the operand expressions a derived tensor was
      computed from. */
  datatype Op =
    | Assign
    | Powf(base: Expression, exponent: real)
    | Cond(cond: Expression, onTrue: Expression, onFalse: Expression)
    | Unary(operand: Expression, unaryOp: UnaryRules.UnaryOp)
    | Binary(lhs: Expression, rhs: Expression, binaryOp: BinaryRules.BinaryOp)
    | Cmp(lhs: Expression, rhs: Expression, cmpOp: CmpRules.CmpOp, how: CmpRules.CmpMethod)

  /** `ScalarTensor`: the read-only view `value()` returns. */
  datatype ScalarTensor = Scalar(x: real) | TensorView(tensor: Tensor)

  /** `Expression::value`. */
  function Value(e: Expression): (r: ScalarTensor)
    ensures r.Scalar? <==> e.Const?
    ensures e.Const? ==> r.x == e.x
    ensures e.IsTensor() ==> r.tensor == e.tensor
  {
    match e
    case Const(x) => Scalar(x)
    case Parameter(t) => TensorView(t)
    case Operation(t, _) => TensorView(t)
  }

  /** `Expression::constant`. */
  function Constant(v: real): (r: Expression)
    ensures !r.IsTensor() && Value(r) == Scalar(v)
  {
    Const(v)
  }

  /** `Expression::parameter`: a fresh tensor holding `values`, tracking
      gradients iff `needGrad`, returned both inside a Parameter expression
      and as a handle to the same tensor. */
  method NewParameter(values: seq<real>, needGrad: bool, gen: GradIdGen) returns (e: Expression, handle: Tensor)
    modifies gen
    ensures fresh(handle) && e == Parameter(handle) && Value(e) == TensorView(handle)
    ensures handle.values == values && !handle.changed
    ensures handle.WithGrad() <==> needGrad
    ensures needGrad ==> handle.gradId == Some(old(gen.next)) && gen.next == old(gen.next) + 1
    ensures !needGrad ==> gen.next == old(gen.next)
  {
    var gradId: Option<GradId> := None;
    if needGrad {
      var id := gen.Fresh();
      gradId := Some(id);
    }
    handle := new Tensor(gradId, values);
    e := Parameter(handle);
  }

  /** The handle and the expression share one tensor: what is written
      through the handle is what `value()` of the expression shows. */
  method ParameterSeesUpdates(values: seq<real>, newValues: seq<real>, needGrad: bool, gen: GradIdGen)
    returns (e: Expression)
    modifies gen
    ensures Value(e).TensorView? && Value(e).tensor.values == newValues && Value(e).tensor.changed
    ensures Value(e).tensor.WithGrad() <==> needGrad
  {
    var handle;
    e, handle := NewParameter(values, needGrad, gen);
    handle.Update(newValues);
  }

  /** `Tensor::new(grad_id, values, op)` as the operators call it: a fresh
      derived tensor, with a gradient identity minted only if `mint`. */
  method NewOperation(mint: bool, values: seq<real>, op: Op, gen: GradIdGen) returns (e: Expression)
    modifies gen
    ensures e.Operation? && fresh(e.tensor) && e.op == op
    ensures e.tensor.values == values && !e.tensor.changed
    ensures e.tensor.WithGrad() <==> mint
    ensures mint ==> e.tensor.gradId == Some(old(gen.next)) && gen.next == old(gen.next) + 1
    ensures !mint ==> gen.next == old(gen.next)
  {
    var gradId: Option<GradId> := None;
    if mint {
      var id := gen.Fresh();
      gradId := Some(id);
    }
    var t := new Tensor(gradId, values);
    e := Operation(t, op);
  }
}
