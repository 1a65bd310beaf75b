/**
 Laws of the matrix stack over whole sequences of mutations: only the top entry
 changes, the newest matrix acts on points first, a bound context receives one
 `setTransform` per mutation, and `pushMatrix; …; popMatrix` restores the stack.
 */
module StackLaws {
  import opened Affine
  import opened MatrixStack

  /** A call that multiplies a matrix into the current one. */
  datatype Mutation =
    | MultBy(m: Matrix)
    | TranslateBy(x: real, y: real)
    | ScaleBy(x: real, y: real)
    | RotateBy(cosR: real, sinR: real)

  /** The matrix a mutation multiplies in. */
  function MatrixOf(op: Mutation): Matrix {
    match op
    case MultBy(m) => m
    case TranslateBy(x, y) => Translation(x, y)
    case ScaleBy(x, y) => Scaling(x, y)
    case RotateBy(cosR, sinR) => Rotation(cosR, sinR)
  }

  /** Every mutation is a `multMatrix` with its own matrix. */
  function Perform(s: State, op: Mutation): (r: Result<State>)
    ensures r == MultMatrix(s, MatrixOf(op))
  {
    match op
    case MultBy(m) => MultMatrix(s, m)
    case TranslateBy(x, y) => Translate(s, x, y)
    case ScaleBy(x, y) => Scale(s, x, y)
    case RotateBy(cosR, sinR) => Rotate(s, cosR, sinR)
  }

  /** Performs the mutations in order, stopping at the first failure. */
  function Run(s: State, ops: seq<Mutation>): Result<State>
    decreases |ops|
  {
    if |ops| == 0 then Ok(s)
    else
      match Perform(s, ops[0])
      case Failure(e) => Failure(e)
      case Ok(t) => Run(t, ops[1..])
  }

  /** The product of the mutations' matrices, the first mutation leftmost. */
  function Composite(ops: seq<Mutation>): Matrix
    decreases |ops|
  {
    if |ops| == 0 then Identity else Mul(MatrixOf(ops[0]), Composite(ops[1..]))
  }

  /** The point reached by applying the mutations' matrices, the newest one first. */
  function ApplyNewestFirst(ops: seq<Mutation>, p: Point): Point
    decreases |ops|
  {
    if |ops| == 0 then p else Apply(MatrixOf(ops[0]), ApplyNewestFirst(ops[1..], p))
  }

  lemma {:induction false} CompositeAppliesNewestFirst(ops: seq<Mutation>, p: Point)
    ensures Apply(Composite(ops), p) == ApplyNewestFirst(ops, p)
    decreases |ops|
  {
    if |ops| == 0 {
      IdentityFixesPoints(p);
    } else {
      CompositeAppliesNewestFirst(ops[1..], p);
      ApplyMul(MatrixOf(ops[0]), Composite(ops[1..]), p);
    }
  }

  /** A run of mutations on a non-empty stack succeeds, keeps the depth, the binding
      and every entry below the top, and leaves the old current matrix times the
      composite of the mutations on top. */
  lemma {:induction false} RunTouchesOnlyTop(s: State, ops: seq<Mutation>)
    requires Depth(s) > 0
    ensures Run(s, ops).Ok?
    ensures Depth(Run(s, ops).value) == Depth(s) && Below(Run(s, ops).value) == Below(s)
    ensures Current(Run(s, ops).value) == Some(Mul(Current(s).value, Composite(ops)))
    ensures Run(s, ops).value.context == s.context
    decreases |ops|
  {
    var top := Current(s).value;
    if |ops| == 0 {
      IdentityIsUnit(top);
    } else {
      var t := Perform(s, ops[0]).value;
      assert Run(s, ops) == Run(t, ops[1..]);
      RunTouchesOnlyTop(t, ops[1..]);
      MulAssociative(top, MatrixOf(ops[0]), Composite(ops[1..]));
    }
  }

  /** The composite of the first j + 1 mutations, split after the first one. */
  lemma CompositeOfPrefix(ops: seq<Mutation>, j: nat)
    requires j < |ops|
    ensures Composite(ops[..j + 1]) == Mul(MatrixOf(ops[0]), Composite(ops[1..][..j]))
  {
    assert ops[..j + 1][0] == ops[0];
    assert ops[..j + 1][1..] == ops[1..][..j];
  }

  /** The calls a context `k` should receive during a run from current matrix `top`:
      the j-th carries `top` times the composite of the first j + 1 mutations. */
  function AppliedCalls(k: ContextId, top: Matrix, ops: seq<Mutation>): seq<Call> {
    seq(|ops|, j requires 0 <= j < |ops| => Call(k, ColumnMajor(Mul(top, Composite(ops[..j + 1])))))
  }

  /** The first expected call is for `top × m0`; the rest are those of the remaining run from there. */
  lemma AppliedCallsUnfold(k: ContextId, top: Matrix, ops: seq<Mutation>)
    requires |ops| > 0
    ensures AppliedCalls(k, top, ops)
         == [Call(k, ColumnMajor(Mul(top, MatrixOf(ops[0]))))] + AppliedCalls(k, Mul(top, MatrixOf(ops[0])), ops[1..])
  {
    var m0 := MatrixOf(ops[0]);
    var lhs := AppliedCalls(k, top, ops);
    var rhs := [Call(k, ColumnMajor(Mul(top, m0)))] + AppliedCalls(k, Mul(top, m0), ops[1..]);
    forall j | 0 <= j < |ops|
      ensures lhs[j] == rhs[j]
    {
      CompositeOfPrefix(ops, j);
      if j == 0 {
        IdentityIsUnit(m0);
      } else {
        MulAssociative(top, m0, Composite(ops[1..][..j]));
        assert rhs[j] == AppliedCalls(k, Mul(top, m0), ops[1..])[j - 1];
      }
    }
  }

  /** During a run on a non-empty stack, a bound context receives exactly one call per
      mutation: the j-th new call goes to that context and carries the current matrix
      as it stands after the first j + 1 mutations. Earlier calls are kept, and an
      unbound stack makes no calls. */
  lemma {:induction false} RunAppliesOncePerMutation(s: State, ops: seq<Mutation>)
    requires Depth(s) > 0
    ensures Run(s, ops).Ok?
    ensures s.context.None? ==> Run(s, ops).value.calls == s.calls
    ensures s.context.Some? ==>
      Run(s, ops).value.calls == s.calls + AppliedCalls(s.context.value, Current(s).value, ops)
    decreases |ops|
  {
    RunTouchesOnlyTop(s, ops);
    if |ops| > 0 {
      var top, m0 := Current(s).value, MatrixOf(ops[0]);
      var t := Perform(s, ops[0]).value;
      assert Run(s, ops) == Run(t, ops[1..]);
      RunAppliesOncePerMutation(t, ops[1..]);
      if s.context.Some? {
        var k := s.context.value;
        assert t.calls == s.calls + [Call(k, ColumnMajor(Mul(top, m0)))];
        AppliedCallsUnfold(k, top, ops);
      }
    }
  }

  /** After a non-empty run on a bound stack, the context's last call carries the final
      current matrix, so the canvas and the stack agree. */
  lemma RunLastCallCarriesCurrent(s: State, ops: seq<Mutation>)
    requires Depth(s) > 0 && s.context.Some? && |ops| > 0
    ensures Run(s, ops).Ok? && Depth(Run(s, ops).value) > 0
    ensures |Run(s, ops).value.calls| == |s.calls| + |ops|
    ensures Run(s, ops).value.calls[|s.calls| + |ops| - 1]
         == Call(s.context.value, ColumnMajor(Current(Run(s, ops).value).value))
  {
    RunTouchesOnlyTop(s, ops);
    RunAppliesOncePerMutation(s, ops);
    assert ops[..|ops| - 1 + 1] == ops;
    assert AppliedCalls(s.context.value, Current(s).value, ops)[|ops| - 1]
        == Call(s.context.value, ColumnMajor(Mul(Current(s).value, Composite(ops))));
  }

  /** After a run, the current matrix maps a point by applying the newest mutation
      first and the matrix that was current before the run last. */
  lemma RunAppliesNewestFirst(s: State, ops: seq<Mutation>, p: Point)
    requires Depth(s) > 0
    ensures Run(s, ops).Ok? && Depth(Run(s, ops).value) > 0
    ensures Apply(Current(Run(s, ops).value).value, p) == Apply(Current(s).value, ApplyNewestFirst(ops, p))
  {
    RunTouchesOnlyTop(s, ops);
    ApplyMul(Current(s).value, Composite(ops), p);
    CompositeAppliesNewestFirst(ops, p);
  }

  /** `pushMatrix; mutations; popMatrix` gives back exactly the stack, and so the current
      matrix, that was there before the push. */
  lemma PushRunPopRestores(s: State, ops: seq<Mutation>)
    requires Depth(s) > 0
    ensures PushMatrix(s).Ok? && Run(PushMatrix(s).value, ops).Ok?
    ensures PopMatrix(Run(PushMatrix(s).value, ops).value).stack == s.stack
    ensures Current(PopMatrix(Run(PushMatrix(s).value, ops).value)) == Current(s)
    ensures PopMatrix(Run(PushMatrix(s).value, ops).value).context == s.context
  {
    RunTouchesOnlyTop(PushMatrix(s).value, ops);
  }

  /** `popMatrix` does not re-apply: after `pushMatrix; translate(x, y); popMatrix` on a
      bound stack, the stack is restored but the context's last call still carries the
      translated matrix. */
  lemma PopLeavesContextStale(s: State, x: real, y: real)
    requires Depth(s) > 0 && s.context.Some?
    ensures PushMatrix(s).Ok? && Translate(PushMatrix(s).value, x, y).Ok?
    ensures PopMatrix(Translate(PushMatrix(s).value, x, y).value).stack == s.stack
    ensures PopMatrix(Translate(PushMatrix(s).value, x, y).value).calls
         == s.calls + [Call(s.context.value, ColumnMajor(Mul(Current(s).value, Translation(x, y))))]
  {
  }

  /** `pushMatrix; popMatrix` is the identity on the whole state, call log included. */
  lemma PushThenPop(s: State)
    requires Depth(s) > 0
    ensures PushMatrix(s).Ok? && PopMatrix(PushMatrix(s).value) == s
  {
    assert PopMatrix(PushMatrix(s).value).stack == s.stack;
  }

  lemma TranslateTwice(s: State, x1: real, y1: real, x2: real, y2: real)
    requires Depth(s) > 0
    ensures Translate(s, x1, y1).Ok? && Translate(s, x1 + x2, y1 + y2).Ok?
    ensures Translate(Translate(s, x1, y1).value, x2, y2).Ok?
    ensures Translate(Translate(s, x1, y1).value, x2, y2).value.stack
         == Translate(s, x1 + x2, y1 + y2).value.stack
  {
    var top := Current(s).value;
    MulAssociative(top, Translation(x1, y1), Translation(x2, y2));
    TranslationsAdd(x1, y1, x2, y2);
  }

  lemma ScaleTwice(s: State, x1: real, y1: real, x2: real, y2: real)
    requires Depth(s) > 0
    ensures Scale(s, x1, y1).Ok? && Scale(s, x1 * x2, y1 * y2).Ok?
    ensures Scale(Scale(s, x1, y1).value, x2, y2).Ok?
    ensures Scale(Scale(s, x1, y1).value, x2, y2).value.stack
         == Scale(s, x1 * x2, y1 * y2).value.stack
  {
    var top := Current(s).value;
    MulAssociative(top, Scaling(x1, y1), Scaling(x2, y2));
    ScalingsMultiply(x1, y1, x2, y2);
  }

  lemma RotateTwice(s: State, cos1: real, sin1: real, cos2: real, sin2: real)
    requires Depth(s) > 0
    ensures Rotate(s, cos1, sin1).Ok?
    ensures Rotate(Rotate(s, cos1, sin1).value, cos2, sin2).Ok?
    ensures Rotate(Rotate(s, cos1, sin1).value, cos2, sin2).value.stack
         == Rotate(s, cos1 * cos2 - sin1 * sin2, sin1 * cos2 + cos1 * sin2).value.stack
  {
    var top := Current(s).value;
    MulAssociative(top, Rotation(cos1, sin1), Rotation(cos2, sin2));
    RotationsCompose(cos1, sin1, cos2, sin2);
  }

  /** From an identity current matrix (a new stack, or after `loadIdentity`),
      `translate(3, 4)` sends the origin to (3, 4). */
  lemma TranslateScenario(s: State)
    requires Current(s) == Some(Identity)
    ensures Translate(s, 3.0, 4.0).Ok?
    ensures Apply(Current(Translate(s, 3.0, 4.0).value).value, Point(0.0, 0.0)) == Point(3.0, 4.0)
  {
    TranslateMovesFirst(s, 3.0, 4.0, Point(0.0, 0.0));
    IdentityFixesPoints(Point(3.0, 4.0));
  }

  /** From an identity current matrix, `scale(2, 3); translate(1, 1)` sends (1, 1)
      to (4, 6): the translation, being newer, acts first. */
  lemma ScaleThenTranslateScenario(s: State)
    requires Current(s) == Some(Identity)
    ensures Scale(s, 2.0, 3.0).Ok? && Translate(Scale(s, 2.0, 3.0).value, 1.0, 1.0).Ok?
    ensures Apply(Current(Translate(Scale(s, 2.0, 3.0).value, 1.0, 1.0).value).value, Point(1.0, 1.0))
         == Point(4.0, 6.0)
  {
    var scaled := Scale(s, 2.0, 3.0).value;
    TranslateMovesFirst(scaled, 1.0, 1.0, Point(1.0, 1.0));
    ScaleStretchesFirst(s, 2.0, 3.0, Point(2.0, 2.0));
    IdentityFixesPoints(Point(4.0, 6.0));
  }

  /** From an identity current matrix, a quarter turn (cos = 0, sin = 1) sends (1, 0)
      to (0, -1). */
  lemma QuarterTurnScenario(s: State)
    requires Current(s) == Some(Identity)
    ensures Rotate(s, 0.0, 1.0).Ok?
    ensures Apply(Current(Rotate(s, 0.0, 1.0).value).value, Point(1.0, 0.0)) == Point(0.0, -1.0)
  {
    var q := Point(1.0, 0.0);
    RotateTurnsFirst(s, 0.0, 1.0, q);
    assert Point(0.0 * q.x + 1.0 * q.y, 0.0 * q.y - 1.0 * q.x) == Point(0.0, -1.0);
    IdentityFixesPoints(Point(0.0, -1.0));
  }

  /** `rotate; translate` translates a point first and rotates it afterwards. */
  lemma RotateThenTranslateOrder(s: State, cosR: real, sinR: real, x: real, y: real, p: Point)
    requires Depth(s) > 0
    ensures Rotate(s, cosR, sinR).Ok? && Translate(Rotate(s, cosR, sinR).value, x, y).Ok?
    ensures Apply(Current(Translate(Rotate(s, cosR, sinR).value, x, y).value).value, p)
         == Apply(Current(s).value, Apply(Rotation(cosR, sinR), Point(p.x + x, p.y + y)))
  {
    var rotated := Rotate(s, cosR, sinR).value;
    TranslateMovesFirst(rotated, x, y, p);
    ApplyMul(Current(s).value, Rotation(cosR, sinR), Point(p.x + x, p.y + y));
  }
}
