/** The residual-based BDF time scheme of the shallow-water solver.  The
    unknowns of a node are the momentum components MOMENTUM_X, MOMENTUM_Y
    and the free-surface HEIGHT; their first time derivatives are stored in
    ACCELERATION_X, ACCELERATION_Y and VELOCITY_Z.  Every variable keeps a
    buffer of past values, index 0 being the current step and index k the
    value k steps back.  The BDF coefficients mBDF[0..order] come from the
    generic BDF scheme this one specialises. */
module ShallowWaterBdfScheme {
  import opened Algebra

  /** The solution-step data of one node. */
  datatype SwNodeData = SwNodeData(
    momentum: seq<Vec3>,       // MOMENTUM, by step
    height: seq<real>,         // HEIGHT, by step
    acceleration: seq<Vec3>,   // ACCELERATION, by step
    velocity: seq<Vec3>,       // VELOCITY, by step; its z component is the height rate
    fixed: seq<bool>)          // whether MOMENTUM_X, MOMENTUM_Y and HEIGHT are fixed

  /** Every buffer holds the current step and at least order past ones
      (and at least one past step, which the predictor reads). */
  predicate WellFormed(d: SwNodeData, order: nat) {
    && |d.momentum| > order && |d.momentum| >= 2
    && |d.height| == |d.momentum| && |d.acceleration| == |d.momentum| && |d.velocity| == |d.momentum|
    && |d.fixed| == 3
  }

  /** Component j of the unknowns: MOMENTUM_X, MOMENTUM_Y, HEIGHT. */
  function Value(d: SwNodeData, j: nat, step: nat): real
    requires WellFormed(d, 0) && j < 3 && step < |d.momentum|
  {
    if j == 0 then d.momentum[step][0] else if j == 1 then d.momentum[step][1] else d.height[step]
  }

  /** The derivative paired with component j: ACCELERATION_X,
      ACCELERATION_Y, VELOCITY_Z. */
  function Derivative(d: SwNodeData, j: nat, step: nat): real
    requires WellFormed(d, 0) && j < 3 && step < |d.momentum|
  {
    if j == 0 then d.acceleration[step][0] else if j == 1 then d.acceleration[step][1] else d.velocity[step][2]
  }

  /** The node with the current value of component j replaced by x. */
  function WithValue(d: SwNodeData, j: nat, x: real): (e: SwNodeData)
    requires WellFormed(d, 0) && j < 3
    ensures WellFormed(e, 0) && |e.momentum| == |d.momentum| && e.fixed == d.fixed
  {
    if j == 0 then d.(momentum := d.momentum[0 := d.momentum[0][0 := x]])
    else if j == 1 then d.(momentum := d.momentum[0 := d.momentum[0][1 := x]])
    else d.(height := d.height[0 := x])
  }

  /** The previous value advanced over dt with the previous derivative. */
  function Extrapolated(d: SwNodeData, j: nat, dt: real): real
    requires WellFormed(d, 0) && j < 3
  {
    Value(d, j, 1) + dt * Derivative(d, j, 1)
  }

  /** The predictor for components 0..m-1: a free component is
      extrapolated from the previous step with the previous derivative, a
      fixed one is left alone. */
  function PredictedUpTo(d: SwNodeData, m: nat, dt: real): (e: SwNodeData)
    requires WellFormed(d, 0) && m <= 3
    ensures WellFormed(e, 0) && |e.momentum| == |d.momentum| && e.fixed == d.fixed
  {
    if m == 0 then d
    else
      var e := PredictedUpTo(d, m - 1, dt);
      if d.fixed[m - 1] then e else WithValue(e, m - 1, Extrapolated(d, m - 1, dt))
  }

  lemma {:induction false} PredictedStep(d: SwNodeData, j: nat, dt: real)
    requires WellFormed(d, 0) && j < 3
    ensures PredictedUpTo(d, j + 1, dt)
         == if d.fixed[j] then PredictedUpTo(d, j, dt)
            else WithValue(PredictedUpTo(d, j, dt), j, Extrapolated(d, j, dt))
  {
    var e := PredictedUpTo(d, j, dt);
    if d.fixed[j] {
      assert PredictedUpTo(d, j + 1, dt) == e;
    } else {
      assert PredictedUpTo(d, j + 1, dt) == WithValue(e, j, Extrapolated(d, j, dt));
    }
  }

  function Predicted(d: SwNodeData, dt: real): (e: SwNodeData)
    requires WellFormed(d, 0)
    ensures WellFormed(e, 0) && |e.momentum| == |d.momentum|
  {
    PredictedUpTo(d, 3, dt)
  }

  /** What the predictor does to a node: every fixed component keeps its
      value, every free one becomes previous + dt * previous derivative, and
      the past values and all derivatives are untouched. */
  lemma {:induction false} PredictedValues(d: SwNodeData, m: nat, dt: real)
    requires WellFormed(d, 0) && m <= 3
    ensures var e := PredictedUpTo(d, m, dt);
      && (forall j :: 0 <= j < 3 ==>
            Value(e, j, 0) == if j < m && !d.fixed[j] then Value(d, j, 1) + dt * Derivative(d, j, 1) else Value(d, j, 0))
      && (forall j, k :: 0 <= j < 3 && 1 <= k < |d.momentum| ==> Value(e, j, k) == Value(d, j, k))
      && e.acceleration == d.acceleration && e.velocity == d.velocity
      && (forall k :: 0 <= k < |d.momentum| ==> e.momentum[k][2] == d.momentum[k][2])
  {
    if m > 0 {
      PredictedValues(d, m - 1, dt);
    }
  }

  /** The history of one scalar, oldest last: a component of MOMENTUM or
      HEIGHT. */
  function MomentumHistory(d: SwNodeData, c: nat): (h: seq<real>)
    requires c < 3
    ensures |h| == |d.momentum|
  {
    seq(|d.momentum|, k requires 0 <= k < |d.momentum| => d.momentum[k][c])
  }

  /** The sum of bdf[k] * h[k] for k < m. */
  function Combination(bdf: seq<real>, h: seq<real>, m: nat): real
    requires m <= |bdf| && m <= |h|
  {
    if m == 0 then 0.0 else Combination(bdf, h, m - 1) + bdf[m - 1] * h[m - 1]
  }

  /** The BDF derivative of a history: sum of bdf[k] * h[k] for k = 0..order. */
  function BdfCombination(bdf: seq<real>, h: seq<real>, order: nat): real
    requires order < |bdf| && order < |h|
  {
    Combination(bdf, h, order + 1)
  }

  /** The node after UpdateFirstDerivative: ACCELERATION becomes the BDF
      derivative of MOMENTUM, VELOCITY_Z that of HEIGHT, and nothing else
      changes. */
  function WithFirstDerivative(d: SwNodeData, bdf: seq<real>, order: nat): (e: SwNodeData)
    requires WellFormed(d, order) && |bdf| == order + 1
    ensures WellFormed(e, order)
  {
    var dotU := [BdfCombination(bdf, MomentumHistory(d, 0), order),
                 BdfCombination(bdf, MomentumHistory(d, 1), order),
                 BdfCombination(bdf, MomentumHistory(d, 2), order)];
    var dotH := BdfCombination(bdf, d.height, order);
    d.(acceleration := d.acceleration[0 := dotU], velocity := d.velocity[0 := d.velocity[0][2 := dotH]])
  }

  /** The sum and the first moment of the coefficients below m. */
  function CoefficientSum(bdf: seq<real>, m: nat): real
    requires m <= |bdf|
  {
    if m == 0 then 0.0 else CoefficientSum(bdf, m - 1) + bdf[m - 1]
  }

  function Moment(bdf: seq<real>, m: nat): real
    requires m <= |bdf|
  {
    if m == 0 then 0.0 else Moment(bdf, m - 1) + (m - 1) as real * bdf[m - 1]
  }

  /** The BDF derivative of a history that moves linearly in time,
      h[k] = a + k * b, is a times the sum of the coefficients plus b times
      their first moment. */
  lemma {:induction false} CombinationOfLinearHistory(bdf: seq<real>, h: seq<real>, a: real, b: real, m: nat)
    requires m <= |bdf| && m <= |h|
    requires forall k :: 0 <= k < m ==> h[k] == a + k as real * b
    ensures Combination(bdf, h, m) == a * CoefficientSum(bdf, m) + b * Moment(bdf, m)
  {
    if m > 0 {
      CombinationOfLinearHistory(bdf, h, a, b, m - 1);
      var k := m - 1;
      assert bdf[k] * h[k] == a * bdf[k] + b * (k as real * bdf[k]);
    }
  }

  /** A node after Predict: extrapolated, then differentiated. */
  function PredictedNode(d: SwNodeData, bdf: seq<real>, order: nat, dt: real): SwNodeData
    requires WellFormed(d, order) && |bdf| == order + 1
  {
    WithFirstDerivative(Predicted(d, dt), bdf, order)
  }

  /** The coefficients of the first- and second-order BDF formulas for a
      constant step dt. */
  function BdfCoefficients(order: nat, dt: real): (bdf: seq<real>)
    requires (order == 1 || order == 2) && dt != 0.0
    ensures |bdf| == order + 1
  {
    if order == 1 then [1.0 / dt, -1.0 / dt]
    else [1.5 / dt, -2.0 / dt, 0.5 / dt]
  }

  /** Both formulas differentiate a history that changes at the constant
      rate s exactly: its BDF derivative is s. */
  lemma {:induction false} BdfExactOnLinearHistory(order: nat, dt: real, h: seq<real>, u: real, s: real)
    requires (order == 1 || order == 2) && dt != 0.0 && order < |h|
    requires forall k :: 0 <= k <= order ==> h[k] == u - k as real * dt * s
    ensures BdfCombination(BdfCoefficients(order, dt), h, order) == s
  {
    var bdf := BdfCoefficients(order, dt);
    forall k | 0 <= k < order + 1
      ensures h[k] == u + k as real * (-dt * s)
    {
      assert k as real * dt * s == -(k as real * (-dt * s));
    }
    CombinationOfLinearHistory(bdf, h, u, -dt * s, order + 1);
    if order == 1 {
      assert CoefficientSum(bdf, 1) == bdf[0];
      assert CoefficientSum(bdf, 2) == 0.0;
      assert Moment(bdf, 1) == 0.0;
      assert Moment(bdf, 2) == -1.0 / dt;
    } else {
      assert CoefficientSum(bdf, 1) == bdf[0];
      assert CoefficientSum(bdf, 2) == bdf[0] + bdf[1];
      assert CoefficientSum(bdf, 3) == 0.0;
      assert Moment(bdf, 1) == 0.0;
      assert Moment(bdf, 2) == bdf[1];
      assert Moment(bdf, 3) == -1.0 / dt;
    }
    assert -dt * s * (-1.0 / dt) == s;
  }

  /** With the first-order formula, predicting a free component and then
      differentiating gives back the previous derivative: the predictor and
      the derivative update agree. */
  lemma {:induction false} PredictionKeepsFirstOrderRate(d: SwNodeData, dt: real, j: nat)
    requires WellFormed(d, 1) && dt != 0.0 && j < 3 && !d.fixed[j]
    ensures var e := WithFirstDerivative(Predicted(d, dt), BdfCoefficients(1, dt), 1);
      Derivative(e, j, 0) == Derivative(d, j, 1)
  {
    var p := Predicted(d, dt);
    PredictedValues(d, 3, dt);
    var bdf := BdfCoefficients(1, dt);
    var h := if j < 2 then MomentumHistory(p, j) else p.height;
    assert h[0] == Value(d, j, 1) + dt * Derivative(d, j, 1) && h[1] == Value(d, j, 1);
    FirstOrderRate(h, dt, Value(d, j, 1), Derivative(d, j, 1));
  }

  /** The first-order formula applied to a history whose newest entry moved
      by dt * v from the one before gives back v. */
  lemma {:induction false} FirstOrderRate(h: seq<real>, dt: real, u: real, v: real)
    requires |h| >= 2 && dt != 0.0 && h[0] == u + dt * v && h[1] == u
    ensures BdfCombination(BdfCoefficients(1, dt), h, 1) == v
  {
    var bdf := BdfCoefficients(1, dt);
    calc {
      BdfCombination(bdf, h, 1);
      Combination(bdf, h, 1) + bdf[1] * h[1];
      1.0 / dt * h[0] + -1.0 / dt * h[1];
      (h[0] - h[1]) / dt;
      v;
    }
  }

  /** The dynamic part of the residual: -M times the BDF derivative, whose
      current-step part is bdf0 * u and whose history part is rest. */
  function DynamicResidual(m: Mat, rows: nat, bdf0: real, u: seq<real>, rest: seq<real>): (r: seq<real>)
    requires IsMatrix(m, rows, |u|) && |rest| == |u|
    ensures |r| == rows
  {
    VecScale(-1.0, MatVec(m, VecAdd(VecScale(bdf0, u), rest), rows, |u|))
  }

  /** The left-hand-side contribution bdf0 * M is the exact derivative of
      the dynamic residual with respect to the current unknowns: moving
      them from u to v changes the residual by -(bdf0 * M)(v - u). */
  lemma {:induction false} LhsIsResidualDerivative(m: Mat, rows: nat, bdf0: real, u: seq<real>, v: seq<real>, rest: seq<real>)
    requires IsMatrix(m, rows, |u|) && |v| == |u| && |rest| == |u|
    ensures VecSub(DynamicResidual(m, rows, bdf0, v, rest), DynamicResidual(m, rows, bdf0, u, rest))
         == VecScale(-1.0, MatVec(MatScale(bdf0, m, rows, |u|), VecSub(v, u), rows, |u|))
  {
    var x0 := VecAdd(VecScale(bdf0, u), rest);
    var x1 := VecAdd(VecScale(bdf0, v), rest);
    var dv := VecSub(v, u);
    forall i | 0 <= i < |u|
      ensures x1[i] == VecAdd(x0, VecScale(bdf0, dv))[i]
    {
      assert bdf0 * v[i] == bdf0 * u[i] + bdf0 * (v[i] - u[i]);
    }
    assert x1 == VecAdd(x0, VecScale(bdf0, dv));
    forall r | 0 <= r < rows
      ensures Dot(m[r], x1) - Dot(m[r], x0) == Dot(VecScale(bdf0, m[r]), dv)
    {
      DotSymmetric(m[r], x1);
      DotSymmetric(m[r], x0);
      DotSymmetric(m[r], dv);
      DotLinearLeft(x0, dv, bdf0, m[r]);
      DotScaleLeft(bdf0, m[r], dv);
    }
  }

  class SwNode {
    var data: SwNodeData

    constructor (initial: SwNodeData)
      ensures data == initial
    {
      data := initial;
    }
  }

  predicate DistinctNodes(nodes: seq<SwNode>) {
    forall i, j :: 0 <= i < j < |nodes| ==> nodes[i] != nodes[j]
  }

  class BdfScheme {
    const order: nat
    const bdf: seq<real>   // mBDF

    /** The order the scheme is built with when none is given. */
    static const DefaultOrder: nat := 2

    predicate Valid()
      reads this
    {
      |bdf| == order + 1
    }

    constructor (order: nat, bdf: seq<real>)
      requires |bdf| == order + 1
      ensures Valid() && this.order == order && this.bdf == bdf
    {
      this.order := order;
      this.bdf := bdf;
    }

    /** Sets ACCELERATION and VELOCITY_Z of the current step to the BDF
        derivatives of MOMENTUM and HEIGHT, accumulated over the orders. */
    method UpdateFirstDerivative(node: SwNode)
      requires Valid() && WellFormed(node.data, order)
      modifies node
      ensures node.data == WithFirstDerivative(old(node.data), bdf, order)
    {
      var d := node.data;
      var dotU := [bdf[0] * d.momentum[0][0], bdf[0] * d.momentum[0][1], bdf[0] * d.momentum[0][2]];
      var dotH := bdf[0] * d.height[0];
      var i := 1;
      while i < order + 1
        invariant 1 <= i <= order + 1
        invariant |dotU| == 3
        invariant dotU[0] == Combination(bdf, MomentumHistory(d, 0), i)
        invariant dotU[1] == Combination(bdf, MomentumHistory(d, 1), i)
        invariant dotU[2] == Combination(bdf, MomentumHistory(d, 2), i)
        invariant dotH == Combination(bdf, d.height, i)
      {
        dotU := [dotU[0] + bdf[i] * d.momentum[i][0], dotU[1] + bdf[i] * d.momentum[i][1],
                 dotU[2] + bdf[i] * d.momentum[i][2]];
        dotH := dotH + bdf[i] * d.height[i];
        i := i + 1;
      }
      assert dotU == [dotU[0], dotU[1], dotU[2]];
      node.data := d.(acceleration := d.acceleration[0 := dotU], velocity := d.velocity[0 := d.velocity[0][2 := dotH]]);
    }

    /** The scheme keeps no second derivative of its own. */
    method UpdateSecondDerivative(node: SwNode)
      ensures node.data == old(node.data)
    {
    }

    /** Predicts every node: each free component is extrapolated with the
        previous derivative, fixed ones are kept, and then the derivatives
        of the node are updated, fixed or not. */
    method Predict(nodes: seq<SwNode>, dt: real)
      requires Valid() && DistinctNodes(nodes)
      requires forall i :: 0 <= i < |nodes| ==> WellFormed(nodes[i].data, order)
      modifies set i | 0 <= i < |nodes| :: nodes[i]
      ensures forall i :: 0 <= i < |nodes| ==>
        nodes[i].data == PredictedNode(old(nodes[i].data), bdf, order, dt)
    {
      var i := 0;
      while i < |nodes|
        invariant 0 <= i <= |nodes|
        invariant forall q :: 0 <= q < i ==>
          nodes[q].data == PredictedNode(old(nodes[q].data), bdf, order, dt)
        invariant forall q :: i <= q < |nodes| ==> nodes[q].data == old(nodes[q].data)
      {
        PredictNode(nodes[i], dt);
        i := i + 1;
      }
    }

    /** The body of the predictor's loop for one node. */
    method PredictNode(node: SwNode, dt: real)
      requires Valid() && WellFormed(node.data, order)
      modifies node
      ensures node.data == PredictedNode(old(node.data), bdf, order, dt)
    {
      var d := node.data;
      var e := d;
      var j: nat := 0;
      while j < 3
        invariant 0 <= j <= 3
        invariant e == PredictedUpTo(d, j, dt)
      {
        PredictedStep(d, j, dt);
        if !d.fixed[j] {
          e := WithValue(e, j, Extrapolated(d, j, dt));
        }
        j := j + 1;
      }
      node.data := e;
      UpdateFirstDerivative(node);
    }

    /** The mass matrix, when the element declares one, enters the
        left-hand side scaled by bdf[0]. */
    method AddDynamicsToLhs(lhs: array2<real>, m: Mat)
      requires Valid()
      requires |m| != 0 ==> IsMatrix(m, lhs.Length0, lhs.Length1)
      modifies lhs
      ensures |m| == 0 ==> Entries(lhs) == old(Entries(lhs))
      ensures |m| != 0 ==>
        Entries(lhs) == MatAdd(old(Entries(lhs)), MatScale(bdf[0], m, lhs.Length0, lhs.Length1), lhs.Length0, lhs.Length1)
    {
      if |m| != 0 {
        ghost var before := Entries(lhs);
        var scaled := MatScale(bdf[0], m, lhs.Length0, lhs.Length1);
        forall r, c | 0 <= r < lhs.Length0 && 0 <= c < lhs.Length1 {
          lhs[r, c] := lhs[r, c] + scaled[r][c];
        }
        MatrixEquality(Entries(lhs), MatAdd(before, scaled, lhs.Length0, lhs.Length1), lhs.Length0, lhs.Length1);
      }
    }

    /** The inertia of an element or a condition, when it declares a mass
        matrix: the right-hand side loses M times the current first
        derivatives dotUn0 of its nodes. */
    method AddDynamicsToRhs(rhs: array<real>, m: Mat, dotUn0: seq<real>)
      requires Valid()
      requires |m| != 0 ==> IsMatrix(m, rhs.Length, |dotUn0|)
      modifies rhs
      ensures |m| == 0 ==> rhs[..] == old(rhs[..])
      ensures |m| != 0 ==> rhs[..] == VecSub(old(rhs[..]), MatVec(m, dotUn0, rhs.Length, |dotUn0|))
    {
      if |m| != 0 {
        var inertia := MatVec(m, dotUn0, rhs.Length, |dotUn0|);
        forall k | 0 <= k < rhs.Length {
          rhs[k] := rhs[k] - inertia[k];
        }
      }
    }
  }
}
