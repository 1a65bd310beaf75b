/**
 The MatrixStack object as a value: the stack of saved matrices (bottom first),
 the bound canvas context if any, and the log of every `setTransform` call made
 on a context. The current matrix is the top of the stack, not a second copy.

 Reading the current matrix of an empty stack is a TypeError in matrix-stack.js
 (after popping the base entry); operations that do so return `Failure` and the
 caller keeps its unchanged state.
 */
module MatrixStack {
  import opened Affine

  /** Identity of a canvas context; the context itself is not modelled. */
  type ContextId = nat

  datatype Option<T> = None | Some(value: T)

  datatype Error = UndefinedCurrent

  datatype Result<T> = Ok(value: T) | Failure(error: Error)

  /** One `setTransform` call on a context. */
  datatype Call = Call(target: ContextId, args: Transform)

  datatype State = State(stack: seq<Matrix>, context: Option<ContextId>, calls: seq<Call>)

  function Depth(s: State): nat {
    |s.stack|
  }

  /** The current matrix: the top of the stack, undefined once the stack is empty. */
  function Current(s: State): Option<Matrix> {
    if |s.stack| == 0 then None else Some(s.stack[|s.stack| - 1])
  }

  /** The stack below the top entry. */
  function Below(s: State): seq<Matrix>
    requires |s.stack| > 0
  {
    s.stack[..|s.stack| - 1]
  }

  /** The calls an automatic apply of `m` adds: one when a context is bound, none otherwise. */
  function AutoApplied(context: Option<ContextId>, m: Matrix): seq<Call> {
    match context
    case None => []
    case Some(k) => [Call(k, ColumnMajor(m))]
  }

  /** `new MatrixStack(context)`: the identity state, bound only to a context that is given. */
  function New(context: Option<ContextId>): (s: State)
    ensures Depth(s) == 1 && Current(s) == Some(Identity)
    ensures forall p :: Apply(Current(s).value, p) == p
    ensures s.context == context && s.calls == []
  {
    LoadIdentity(State([], context, []))
  }

  /** `loadIdentity`: the whole stack is replaced by one identity matrix; nothing is applied. */
  function LoadIdentity(s: State): (r: State)
    ensures Depth(r) == 1 && Current(r) == Some(Identity)
    ensures forall p :: Apply(Current(r).value, p) == p
    ensures r.context == s.context && r.calls == s.calls
  {
    s.(stack := [Identity])
  }

  /** `multMatrix(m)`: the top slot becomes `current × m`, then a bound context gets it. */
  function MultMatrix(s: State, m: Matrix): (r: Result<State>)
    ensures r.Failure? <==> Depth(s) == 0
    ensures r.Ok? ==>
      && Depth(r.value) == Depth(s)
      && Below(r.value) == Below(s)
      && Current(r.value) == Some(Mul(Current(s).value, m))
      && r.value.context == s.context
      && r.value.calls == s.calls + AutoApplied(s.context, Current(r.value).value)
    ensures r.Ok? ==> forall p :: Apply(Current(r.value).value, p) == Apply(Current(s).value, Apply(m, p))
  {
    if |s.stack| == 0 then Failure(UndefinedCurrent)
    else
      var product := Mul(s.stack[|s.stack| - 1], m);
      var t := s.(stack := s.stack[..|s.stack| - 1] + [product]);
      assert forall p :: Apply(product, p) == Apply(s.stack[|s.stack| - 1], Apply(m, p)) by {
        forall p { ApplyMul(s.stack[|s.stack| - 1], m, p); }
      }
      if t.context.None? then Ok(t) else ApplyToContext(t, t.context.value)
  }

  /** `pushMatrix`: a copy of the current matrix becomes the new top. */
  function PushMatrix(s: State): (r: Result<State>)
    ensures r.Failure? <==> Depth(s) == 0
    ensures r.Ok? ==>
      && Depth(r.value) == Depth(s) + 1
      && Below(r.value) == s.stack
      && Current(r.value) == Current(s)
      && r.value.context == s.context && r.value.calls == s.calls
  {
    if |s.stack| == 0 then Failure(UndefinedCurrent)
    else Ok(s.(stack := s.stack + [s.stack[|s.stack| - 1]]))
  }

  /** `popMatrix`: drops the top entry when there is one; popping the base entry leaves
      no current matrix, and popping an empty stack changes nothing. */
  function PopMatrix(s: State): (r: State)
    ensures Depth(s) > 0 ==> r.stack == Below(s) && Depth(r) == Depth(s) - 1
    ensures Depth(s) == 0 ==> r == s
    ensures Depth(s) >= 2 ==> Current(r) == Some(s.stack[|s.stack| - 2])
    ensures Depth(s) <= 1 ==> Current(r) == None
    ensures r.context == s.context && r.calls == s.calls
  {
    if |s.stack| > 0 then s.(stack := s.stack[..|s.stack| - 1]) else s
  }

  /** `translate(x, y)`: `multMatrix` with the translation matrix [1, 0, x, 0, 1, y]. */
  function Translate(s: State, x: real, y: real): (r: Result<State>)
    ensures r.Failure? <==> Depth(s) == 0
    ensures r.Ok? ==> Depth(r.value) == Depth(s) && Below(r.value) == Below(s) && r.value.context == s.context
    ensures r.Ok? ==> Current(r.value) == Some(Mul(Current(s).value, Translation(x, y)))
    ensures r.Ok? ==> r.value.calls == s.calls + AutoApplied(s.context, Current(r.value).value)
  {
    MultMatrix(s, Translation(x, y))
  }

  /** `scale(x, y)`: `multMatrix` with the scale matrix [x, 0, 0, 0, y, 0]. */
  function Scale(s: State, x: real, y: real): (r: Result<State>)
    ensures r.Failure? <==> Depth(s) == 0
    ensures r.Ok? ==> Depth(r.value) == Depth(s) && Below(r.value) == Below(s) && r.value.context == s.context
    ensures r.Ok? ==> Current(r.value) == Some(Mul(Current(s).value, Scaling(x, y)))
    ensures r.Ok? ==> r.value.calls == s.calls + AutoApplied(s.context, Current(r.value).value)
  {
    MultMatrix(s, Scaling(x, y))
  }

  /** `rotate(θ)`, given cos θ and sin θ: `multMatrix` with [cos θ, sin θ, 0, -sin θ, cos θ, 0]. */
  function Rotate(s: State, cosR: real, sinR: real): (r: Result<State>)
    ensures r.Failure? <==> Depth(s) == 0
    ensures r.Ok? ==> Depth(r.value) == Depth(s) && Below(r.value) == Below(s) && r.value.context == s.context
    ensures r.Ok? ==> Current(r.value) == Some(Mul(Current(s).value, Rotation(cosR, sinR)))
    ensures r.Ok? ==> r.value.calls == s.calls + AutoApplied(s.context, Current(r.value).value)
  {
    MultMatrix(s, Rotation(cosR, sinR))
  }

  /** After `translate(x, y)` points are moved by (x, y) before the previous current matrix acts. */
  lemma TranslateMovesFirst(s: State, x: real, y: real, p: Point)
    requires Depth(s) > 0
    ensures Translate(s, x, y).Ok?
    ensures Apply(Current(Translate(s, x, y).value).value, p) == Apply(Current(s).value, Point(p.x + x, p.y + y))
  {
    ApplyMul(Current(s).value, Translation(x, y), p);
    TranslationMoves(x, y, p);
  }

  /** After `scale(x, y)` points are stretched by (x, y) before the previous current matrix acts. */
  lemma ScaleStretchesFirst(s: State, x: real, y: real, p: Point)
    requires Depth(s) > 0
    ensures Scale(s, x, y).Ok?
    ensures Apply(Current(Scale(s, x, y).value).value, p) == Apply(Current(s).value, Point(x * p.x, y * p.y))
  {
    ApplyMul(Current(s).value, Scaling(x, y), p);
    ScalingStretches(x, y, p);
  }

  /** After `rotate` points are turned before the previous current matrix acts; with this
      layout (1, 0) goes to (cos θ, -sin θ). */
  lemma RotateTurnsFirst(s: State, cosR: real, sinR: real, p: Point)
    requires Depth(s) > 0
    ensures Rotate(s, cosR, sinR).Ok?
    ensures Apply(Current(Rotate(s, cosR, sinR).value).value, p)
         == Apply(Current(s).value, Point(cosR * p.x + sinR * p.y, cosR * p.y - sinR * p.x))
  {
    ApplyMul(Current(s).value, Rotation(cosR, sinR), p);
    RotationTurns(cosR, sinR, p);
  }

  /** `bindToContext(context)`: replaces the bound context (an absent one unbinds); nothing is applied. */
  function BindToContext(s: State, context: Option<ContextId>): (r: State)
    ensures r.context == context
    ensures r.stack == s.stack && r.calls == s.calls
  {
    s.(context := context)
  }

  /** `applyToContext(context)`: one `setTransform` call with the current matrix in
      column-major order, whether or not a context is bound; the stack is untouched. */
  function ApplyToContext(s: State, target: ContextId): (r: Result<State>)
    ensures r.Failure? <==> Depth(s) == 0
    ensures r.Ok? ==>
      && r.value.stack == s.stack && r.value.context == s.context
      && |r.value.calls| == |s.calls| + 1 && r.value.calls[..|s.calls|] == s.calls
      && r.value.calls[|s.calls|].target == target
    ensures r.Ok? ==> FromColumnMajor(r.value.calls[|s.calls|].args) == Current(s).value
    ensures r.Ok? ==> forall p :: CanvasApply(r.value.calls[|s.calls|].args, p) == Apply(Current(s).value, p)
  {
    if |s.stack| == 0 then Failure(UndefinedCurrent)
    else Ok(s.(calls := s.calls + [Call(target, ColumnMajor(s.stack[|s.stack| - 1]))]))
  }
}
