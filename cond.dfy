/** The smoothed select `(cond) ? on_true : on_false`, evaluated as the
    blend `cond * on_true + (1 - cond) * on_false`. */
module CondRules {
  import opened Numerics

  /** `Cond::forward`. */
  function Forward(c: real, t: real, f: real): real {
    c * t + (1.0 - c) * f
  }

  /** `Cond::backward_cond`: adds `grad * (on_true - on_false)`. */
  function DeltaCond(c: real, t: real, f: real, grad: real): real {
    grad * (t - f)
  }

  /** `Cond::backward_on_true`: adds `cond * grad`. */
  function DeltaOnTrue(c: real, t: real, f: real, grad: real): real {
    c * grad
  }

  /** `Cond::backward_on_false`: adds `(1 - cond) * grad`. */
  function DeltaOnFalse(c: real, t: real, f: real, grad: real): real {
    (1.0 - c) * grad
  }

  /** A hard condition selects a branch exactly. */
  lemma SelectsAtEnds(t: real, f: real)
    ensures Forward(1.0, t, f) == t
    ensures Forward(0.0, t, f) == f
  {
  }

  /** A probability condition gives a value between the two branches. */
  lemma BlendBetweenBranches(c: real, t: real, f: real)
    requires InUnit(c)
    ensures Min(t, f) <= Forward(c, t, f) <= Max(t, f)
  {
    var d := t - f;
    assert Forward(c, t, f) == f + c * d == t - (1.0 - c) * d;
    if d >= 0.0 {
      assert c * d >= 0.0 && (1.0 - c) * d >= 0.0;
    } else {
      assert c * d <= 0.0 && (1.0 - c) * d <= 0.0;
    }
  }

  /** The three backward rules are the exact partial derivatives of the
      blend, which is linear in each argument. */
  lemma ExactPartials(c: real, t: real, f: real, h: real)
    ensures Forward(c + h, t, f) - Forward(c, t, f) == h * DeltaCond(c, t, f, 1.0)
    ensures Forward(c, t + h, f) - Forward(c, t, f) == h * DeltaOnTrue(c, t, f, 1.0)
    ensures Forward(c, t, f + h) - Forward(c, t, f) == h * DeltaOnFalse(c, t, f, 1.0)
  {
    assert (c + h) * t + (1.0 - (c + h)) * f - (c * t + (1.0 - c) * f) == h * (t - f);
    assert c * (t + h) - c * t == h * c;
    assert (1.0 - c) * (f + h) - (1.0 - c) * f == h * (1.0 - c);
  }

  /** The upstream gradient is shared between the branches: the on_true and
      on_false contributions add up to `grad`. */
  lemma BranchGradientsSum(c: real, t: real, f: real, grad: real)
    ensures DeltaOnTrue(c, t, f, grad) + DeltaOnFalse(c, t, f, grad) == grad
  {
  }
}
