/** The dispatch and broadcast rules of the operators, as values: what an
    operator produces from constant and tensor operands (a folded constant,
    a new tensor with or without a gradient identity, or one of the operands
    returned as it is), before any tensor is allocated. */
module Broadcast {
  import opened Numerics
  import UnaryRules
  import BinaryRules
  import CmpRules
  import CondRules
  import Expressions

  /** What an operator sees of an operand: a constant, or the current
      contents of a tensor together with whether it tracks gradients. */
  datatype Operand = Scalar(x: real) | Vector(values: seq<real>, withGrad: bool)

  /** The operand an expression presents: Parameter and Operation are both
      tensors to the operators. */
  function Snapshot(e: Expressions.Expression): (o: Operand)
    reads if e.IsTensor() then {e.tensor} else {}
    ensures o.Scalar? <==> e.Const?
    ensures e.Const? ==> o.x == e.x
    ensures e.IsTensor() ==> o.values == e.tensor.values && (WithGrad(o) <==> e.tensor.WithGrad())
  {
    match e
    case Const(x) => Scalar(x)
    case Parameter(t) => Vector(t.values, t.WithGrad())
    case Operation(t, _) => Vector(t.values, t.WithGrad())
  }

  /** Whether an operand asks for gradients; a constant never does. */
  predicate WithGrad(a: Operand) {
    a.Vector? && a.withGrad
  }

  /** The operand's value at position `i`: a constant is the same everywhere. */
  function Elem(a: Operand, i: nat): real
    requires a.Vector? ==> i < |a.values|
  {
    if a.Scalar? then a.x else a.values[i]
  }

  /** What an operator call produces. `Node` is a new tensor with its values
      and whether it gets a fresh gradient identity; `Select` is the call
      handing back its on_true (`true`) or on_false operand unchanged. */
  datatype Outcome = Folded(x: real) | Node(values: seq<real>, mintsGrad: bool) | Select(onTrue: bool)

  const LengthMismatch: string := "tensor length mismatch!"

  function Shorter(a: nat, b: nat): nat {
    if a <= b then a else b
  }

  /** `iter().map(forward).collect()`. */
  function Map(f: real -> real, xs: seq<real>): (ys: seq<real>)
    ensures |ys| == |xs|
    ensures forall i :: 0 <= i < |xs| ==> ys[i] == f(xs[i])
  {
    if xs == [] then [] else [f(xs[0])] + Map(f, xs[1..])
  }

  /** `izip!(xs, ys).map(forward).collect()`: stops at the shorter input. */
  function Zip(f: (real, real) -> real, xs: seq<real>, ys: seq<real>): (zs: seq<real>)
    ensures |zs| == Shorter(|xs|, |ys|)
    ensures forall i :: 0 <= i < |zs| ==> zs[i] == f(xs[i], ys[i])
  {
    if xs == [] || ys == [] then [] else [f(xs[0], ys[0])] + Zip(f, xs[1..], ys[1..])
  }

  /** `izip!(xs, ys, zs).map(forward).collect()`: stops at the shortest input. */
  function Zip3(f: (real, real, real) -> real, xs: seq<real>, ys: seq<real>, zs: seq<real>): (ws: seq<real>)
    ensures |ws| == Shorter(Shorter(|xs|, |ys|), |zs|)
    ensures forall i :: 0 <= i < |ws| ==> ws[i] == f(xs[i], ys[i], zs[i])
  {
    if xs == [] || ys == [] || zs == [] then []
    else [f(xs[0], ys[0], zs[0])] + Zip3(f, xs[1..], ys[1..], zs[1..])
  }

  /** `Tensor::iter_binary_op`: both tensors must have the same length, or
      the call fails with "tensor length mismatch!". */
  function IterBinary(f: (real, real) -> real, xs: seq<real>, ys: seq<real>): (r: Result<seq<real>, string>)
    ensures r.Err? <==> |xs| != |ys|
    ensures r.Err? ==> r.error == LengthMismatch
    ensures r.Ok? ==> |r.value| == |xs| && forall i :: 0 <= i < |xs| ==> r.value[i] == f(xs[i], ys[i])
  {
    if |ys| != |xs| then Err(LengthMismatch) else Ok(Zip(f, xs, ys))
  }

  /** `Expression::unary_op`. */
  function UnaryEval(m: Math, op: UnaryRules.UnaryOp, a: Operand): Outcome {
    match a
    case Scalar(x) => Folded(UnaryRules.Forward(m, op, x))
    case Vector(xs, g) => Node(Map(x => UnaryRules.Forward(m, op, x), xs), g)
  }

  /** `Expression::powf`: a tensor base is broadcast against the exponent. */
  function PowfEval(m: Math, a: Operand, n: real): Outcome {
    match a
    case Scalar(x) => Folded(UnaryRules.PowfForward(m, x, n))
    case Vector(xs, g) => Node(Map(x => UnaryRules.PowfForward(m, x, n), xs), g)
  }

  /** `Expression::binary_op`. A constant on the left is broadcast over the
      right tensor with the swapped forward rule, so that each element is
      still the operator's right operand. */
  function BinaryEval(m: Math, op: BinaryRules.BinaryOp, a: Operand, b: Operand): Result<Outcome, string> {
    match (a, b)
    case (Scalar(x), Scalar(y)) => Ok(Folded(BinaryRules.ForwardLhsRhs(m, op, x, y)))
    case (Scalar(x), Vector(ys, g)) => Ok(Node(Map(v => BinaryRules.ForwardRhsLhs(m, op, v, x), ys), g))
    case (Vector(xs, g), Scalar(y)) => Ok(Node(Map(v => BinaryRules.ForwardLhsRhs(m, op, v, y), xs), g))
    case (Vector(xs, g), Vector(ys, h)) =>
      match IterBinary((v, w) => BinaryRules.ForwardLhsRhs(m, op, v, w), xs, ys)
      case Ok(zs) => Ok(Node(zs, g || h))
      case Err(e) => Err(e)
  }

  /** The comparison method a call actually uses and records: the requested
      one if it is differentiable and some operand asks for gradients,
      `Discret` otherwise. */
  function CmpMethodFor(how: CmpRules.CmpMethod, a: Operand, b: Operand): (used: CmpRules.CmpMethod)
    ensures used == how || used.Discret?
    ensures CmpRules.Differentiable(used) <==> CmpRules.Differentiable(how) && (WithGrad(a) || WithGrad(b))
  {
    if CmpRules.Differentiable(how) && (WithGrad(a) || WithGrad(b)) then how else CmpRules.Discret
  }

  /** `Expression::cmp_op`. Two constants always compare with `Discret`;
      otherwise the elements are compared with `CmpMethodFor`, zipping two
      tensors to the shorter one. */
  function CmpEval(m: Math, how: CmpRules.CmpMethod, op: CmpRules.CmpOp, a: Operand, b: Operand): Outcome {
    var used := CmpMethodFor(how, a, b);
    var mint := CmpRules.Differentiable(how) && (WithGrad(a) || WithGrad(b));
    match (a, b)
    case (Scalar(x), Scalar(y)) => Folded(CmpRules.Forward(m, CmpRules.Discret, op, x, y))
    case (Scalar(x), Vector(ys, _)) => Node(Map(v => CmpRules.Forward(m, used, op, x, v), ys), mint)
    case (Vector(xs, _), Scalar(y)) => Node(Map(v => CmpRules.Forward(m, used, op, v, y), xs), mint)
    case (Vector(xs, _), Vector(ys, _)) => Node(Zip((v, w) => CmpRules.Forward(m, used, op, v, w), xs, ys), mint)
  }

  /** `Expression::cond`. A constant condition with some tensor branch
      short-circuits: it returns on_false when the condition is exactly zero
      and on_true otherwise. Three constants are blended. A tensor condition
      is blended element by element, zipping to the shortest tensor. */
  function CondEval(c: Operand, t: Operand, f: Operand): Outcome {
    match (c, t, f)
    case (Scalar(cx), Scalar(tx), Scalar(fx)) => Folded(CondRules.Forward(cx, tx, fx))
    case (Scalar(cx), _, _) => Select(cx != 0.0)
    case (Vector(cs, g), Scalar(tx), Scalar(fx)) => Node(Map(v => CondRules.Forward(v, tx, fx), cs), g)
    case (Vector(cs, g), Scalar(tx), Vector(fs, h)) =>
      Node(Zip((v, w) => CondRules.Forward(v, tx, w), cs, fs), g || h)
    case (Vector(cs, g), Vector(ts, h), Scalar(fx)) =>
      Node(Zip((v, w) => CondRules.Forward(v, w, fx), cs, ts), g || h)
    case (Vector(cs, g), Vector(ts, h), Vector(fs, k)) =>
      Node(Zip3((u, v, w) => CondRules.Forward(u, v, w), cs, ts, fs), g || h || k)
  }

  // ---------------------------------------------------------------------
  // Properties of the dispatch rules
  // ---------------------------------------------------------------------

  /** Unary operators: a constant folds; a tensor gives a tensor of the same
      length, element by element, with a fresh gradient identity iff the
      operand has one. */
  lemma UnaryEvalShape(m: Math, op: UnaryRules.UnaryOp, a: Operand)
    ensures UnaryEval(m, op, a).Folded? <==> a.Scalar?
    ensures a.Scalar? ==> UnaryEval(m, op, a).x == UnaryRules.Forward(m, op, a.x)
    ensures a.Vector? ==>
      var r := UnaryEval(m, op, a);
      && r.Node? && |r.values| == |a.values| && (r.mintsGrad <==> WithGrad(a))
      && forall i :: 0 <= i < |a.values| ==> r.values[i] == UnaryRules.Forward(m, op, a.values[i])
  {
  }

  /** Powf: the same shape rule, with the exponent as the fixed right operand. */
  lemma PowfEvalShape(m: Math, a: Operand, n: real)
    ensures PowfEval(m, a, n).Folded? <==> a.Scalar?
    ensures a.Scalar? ==> PowfEval(m, a, n).x == m.powf(a.x, n)
    ensures a.Vector? ==>
      var r := PowfEval(m, a, n);
      && r.Node? && |r.values| == |a.values| && (r.mintsGrad <==> WithGrad(a))
      && forall i :: 0 <= i < |a.values| ==> r.values[i] == m.powf(a.values[i], n)
  {
  }

  /** Binary operators fail exactly when two tensors differ in length, with
      GSPICE's message; otherwise the result is a constant iff both
      operands are, and it gets a gradient identity iff some operand has one. */
  lemma BinaryEvalErrors(m: Math, op: BinaryRules.BinaryOp, a: Operand, b: Operand)
    ensures BinaryEval(m, op, a, b).Err? <==> a.Vector? && b.Vector? && |a.values| != |b.values|
    ensures BinaryEval(m, op, a, b).Err? ==> BinaryEval(m, op, a, b).error == "tensor length mismatch!"
    ensures BinaryEval(m, op, a, b).Ok? ==>
      && (BinaryEval(m, op, a, b).value.Folded? <==> a.Scalar? && b.Scalar?)
      && (BinaryEval(m, op, a, b).value.Node? ==>
            (BinaryEval(m, op, a, b).value.mintsGrad <==> WithGrad(a) || WithGrad(b)))
  {
  }

  /** Every element of a binary result is `lhs op rhs` in the caller's
      operand order, whichever side the constant was on; the result is as
      long as its tensor operand(s). */
  lemma BinaryEvalElements(m: Math, op: BinaryRules.BinaryOp, a: Operand, b: Operand)
    requires BinaryEval(m, op, a, b).Ok? && BinaryEval(m, op, a, b).value.Node?
    ensures var r := BinaryEval(m, op, a, b).value;
      && (a.Vector? ==> |r.values| == |a.values|)
      && (b.Vector? ==> |r.values| == |b.values|)
      && forall i :: 0 <= i < |r.values| ==> r.values[i] == BinaryRules.ForwardLhsRhs(m, op, Elem(a, i), Elem(b, i))
  {
    var r := BinaryEval(m, op, a, b).value;
    forall i | 0 <= i < |r.values|
      ensures r.values[i] == BinaryRules.ForwardLhsRhs(m, op, Elem(a, i), Elem(b, i))
    {
      if a.Scalar? {
        BinaryRules.SwappedForwardAgrees(m, op, a.x, b.values[i]);
      }
    }
  }

  /** Comparisons: a tensor result is as long as the shorter tensor operand;
      each element is compared with `CmpMethodFor`; a gradient identity is
      minted exactly when that method is not `Discret`, and two constants
      fold with `Discret`. */
  lemma CmpEvalShape(m: Math, how: CmpRules.CmpMethod, op: CmpRules.CmpOp, a: Operand, b: Operand)
    ensures CmpEval(m, how, op, a, b).Folded? <==> a.Scalar? && b.Scalar?
    ensures a.Scalar? && b.Scalar? ==>
      CmpEval(m, how, op, a, b).x == CmpRules.DiscretForward(op, a.x, b.x)
    ensures CmpEval(m, how, op, a, b).Node? ==>
      var r := CmpEval(m, how, op, a, b);
      && (r.mintsGrad <==> !CmpMethodFor(how, a, b).Discret?)
      && (a.Vector? && b.Scalar? ==> |r.values| == |a.values|)
      && (a.Scalar? && b.Vector? ==> |r.values| == |b.values|)
      && (a.Vector? && b.Vector? ==> |r.values| == Shorter(|a.values|, |b.values|))
      && forall i :: 0 <= i < |r.values| ==>
           r.values[i] == CmpRules.Forward(m, CmpMethodFor(how, a, b), op, Elem(a, i), Elem(b, i))
  {
  }

  /** The downgrade rule: the recorded method is the requested one iff it is
      differentiable and some operand tracks gradients; a Discret result
      never gets a gradient identity and holds only 0 and 1. */
  lemma CmpDowngrade(m: Math, how: CmpRules.CmpMethod, op: CmpRules.CmpOp, a: Operand, b: Operand)
    ensures CmpMethodFor(how, a, b) == how <==> how.Discret? || WithGrad(a) || WithGrad(b)
    ensures !CmpMethodFor(how, a, b).Discret? ==> CmpMethodFor(how, a, b) == how
    ensures CmpEval(m, how, op, a, b).Node? && !CmpEval(m, how, op, a, b).mintsGrad ==>
      forall i :: 0 <= i < |CmpEval(m, how, op, a, b).values| ==>
        CmpEval(m, how, op, a, b).values[i] == 0.0 || CmpEval(m, how, op, a, b).values[i] == 1.0
  {
    var r := CmpEval(m, how, op, a, b);
    if r.Node? && !r.mintsGrad {
      assert CmpMethodFor(how, a, b).Discret?;
      forall i | 0 <= i < |r.values|
        ensures r.values[i] == 0.0 || r.values[i] == 1.0
      {
        CmpEvalShape(m, how, op, a, b);

      }
    }
  }

  /** Cond with a constant condition and some tensor branch returns a branch
      unchanged: on_false for a zero condition, on_true for any other value
      (a soft condition such as 0.5 included). */
  lemma CondShortCircuit(c: Operand, t: Operand, f: Operand)
    requires c.Scalar? && (t.Vector? || f.Vector?)
    ensures CondEval(c, t, f) == Select(c.x != 0.0)
  {
  }

  /** For a hard constant condition the blend of three constants agrees with
      the short-circuit: both give the selected branch. */
  lemma CondHardConstantsAgree(c: real, t: real, f: real)
    requires c == 0.0 || c == 1.0
    ensures CondEval(Scalar(c), Scalar(t), Scalar(f)) == Folded(if c != 0.0 then t else f)
  {
    CondRules.SelectsAtEnds(t, f);
  }

  /** A tensor condition blends element by element over the shortest of the
      tensor operands, and mints a gradient identity iff some operand has
      one. */
  lemma CondEvalElements(c: Operand, t: Operand, f: Operand)
    requires c.Vector?
    ensures var r := CondEval(c, t, f);
      && r.Node?
      && (r.mintsGrad <==> WithGrad(c) || WithGrad(t) || WithGrad(f))
      && (t.Scalar? && f.Scalar? ==> |r.values| == |c.values|)
      && (t.Scalar? && f.Vector? ==> |r.values| == Shorter(|c.values|, |f.values|))
      && (t.Vector? && f.Scalar? ==> |r.values| == Shorter(|c.values|, |t.values|))
      && (t.Vector? && f.Vector? ==> |r.values| == Shorter(Shorter(|c.values|, |t.values|), |f.values|))
      && forall i :: 0 <= i < |r.values| ==>
           r.values[i] == CondRules.Forward(c.values[i], Elem(t, i), Elem(f, i))
  {
  }
}
