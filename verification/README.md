# matrix-stack in Dafny

A model of `MatrixStack` from `matrix-stack.js`: a stack of 2D affine matrices kept in
row-major 3x2 form `[a, b, c, d, e, f]`, with the implicit third row `[0, 0, 1]`. The stack
can be bound to a canvas context. `multMatrix` right-multiplies the current matrix by its
argument and overwrites the top slot. `translate`, `scale` and `rotate` each build a matrix
and pass it to `multMatrix`. `pushMatrix` saves a copy of the current matrix and
`popMatrix` drops it again. `loadIdentity` resets the stack to a single identity matrix.
`applyToContext` calls the context's `setTransform` with the current matrix in
column-major argument order. When a context is bound, every `multMatrix` also calls
`applyToContext` on it.

Layout:

- `affine.dfy` (module `Affine`): `Matrix`, `Point`, the product `Mul`, the translation,
  scale and rotation matrices, and the `setTransform` argument order `ColumnMajor`. It also
  holds the algebra: applying a product, identity as a unit, associativity, and how
  translations, scales and rotations compose.
- `product.dfy` (module `Product`): the triple loop of `multMatrix`, run over the two
  operands extended to nine entries. It is proved to compute `Mul`.
- `matrix_stack.dfy` (module `MatrixStack`): the object as an immutable `State`, with one
  function per method of the prototype.
- `stack_laws.dfy` (module `StackLaws`): laws over sequences of mutations, and the
  concrete composition-order scenarios.

The state has three parts:

- `stack`: the saved matrices, bottom first. The current matrix is always the top entry,
  never a second copy.
- `context`: the bound canvas context, as an optional `ContextId`.
- `calls`: a log of every `setTransform` call, with its target context and its six
  arguments.

`matrix-stack.js` throws a TypeError when it reads the current matrix of an empty stack. This
happens in `multMatrix`, `pushMatrix` and `applyToContext` after the base entry has been
popped. Here those operations return `Failure(UndefinedCurrent)`, and the caller keeps its
unchanged state. In each of them the throw comes before any mutation.

Where the prose and the code disagree, the model follows the code:

- The layout comment at matrix-stack.js:5 reads `d f g`. The code stores `d e f`.
- The comment at matrix-stack.js:116 says `applyToContext` applies only when no context is
  bound. The code applies unconditionally.
- The doc comments at matrix-stack.js:13-14 and 108-109 say that all transformations of
  the current matrix are applied to a bound context. In the code only `multMatrix` (and so
  `translate`, `scale` and `rotate`) applies. `popMatrix` and `loadIdentity` change the
  current matrix without applying it. So after `pushMatrix; translate; popMatrix` a bound
  canvas keeps the translated transform while the stack is restored
  (`StackLaws.PopLeavesContextStale`).

Consequences of the code worth stating, because a reader may expect otherwise:

- The product is `current × m`, so the newest matrix acts on points first. From identity,
  `scale(2,3); translate(1,1)` sends (1, 1) to (4, 6)
  (`StackLaws.ScaleThenTranslateScenario`).
- With the rotation matrix `[cos, sin, 0, -sin, cos, 0]`, a quarter turn (cos 0, sin 1)
  sends (1, 0) to (0, -1) (`StackLaws.QuarterTurnScenario`).
- The code has no length check on the argument of `multMatrix`; a `Matrix` here has
  exactly six components by construction.
- The code lets the base entry be popped: popping it empties the stack, and popping an
  empty stack changes nothing.

## Model

| member | source | states |
|---|---|---|
| MatrixStack.New | matrix-stack.js:19-22 | a new stack holds exactly one identity matrix, which maps every point to itself; it is bound to the given context, if any, and has made no calls |
| MatrixStack.LoadIdentity | matrix-stack.js:64-71 | the stack becomes exactly one identity matrix, which fixes every point; the context and call log are untouched, so nothing is applied |
| MatrixStack.MultMatrix | matrix-stack.js:27-45 | fails exactly on an empty stack; otherwise the depth and every entry below the top are unchanged, the new current is `old current × m`, and it maps each point as `m` followed by the old current; a bound context receives exactly one call, with the new current, and an unbound stack makes none |
| Product.MultiplyLoop | matrix-stack.js:30-41 | the source's row/col/i loop over the nine-entry homogeneous operands computes exactly the product `Mul` |
| Product.FullSumIsMulEntry | matrix-stack.js:35-39 | each three-term running sum of the loop equals the matching entry of the product |
| Product.Homogeneous | matrix-stack.js:31-32 | extending a matrix with `0, 0, 1` gives the nine entries of its 3x3 homogeneous form |
| Affine.MulIsHomogeneousProduct | matrix-stack.js:33-41 | every entry of `Mul`, including the implicit bottom row, is a row of the left operand times a column of the right one |
| Affine.ApplyMul | matrix-stack.js:33-42 | applying a product to a point applies the right operand first, then the left one |
| Affine.MulAssociative | matrix-stack.js:33-42 | the product is associative, so successive `multMatrix` calls compose into one matrix |
| Affine.IdentityIsUnit | matrix-stack.js:65-68 | the identity matrix is a left and a right unit of the product |
| Affine.IdentityFixesPoints | matrix-stack.js:65-68 | the identity matrix maps every point to itself |
| MatrixStack.PushMatrix | matrix-stack.js:49-53 | fails exactly on an empty stack; otherwise the depth grows by one, every previous entry is kept, the new top equals the old current, and nothing is applied |
| MatrixStack.PopMatrix | matrix-stack.js:57-60 | on a non-empty stack exactly the top is removed; at depth 2 or more the current becomes the entry below, at depth 1 there is no current; an empty stack is left as it was; nothing is applied |
| MatrixStack.Translate | matrix-stack.js:77-83 | fails exactly on an empty stack; otherwise the depth, the binding and every entry below the top are unchanged, the top becomes `old current × [1,0,x,0,1,y]`, and a bound context receives exactly one call with it, an unbound stack none |
| MatrixStack.Scale | matrix-stack.js:89-95 | fails exactly on an empty stack; otherwise the depth, the binding and every entry below the top are unchanged, the top becomes `old current × [x,0,0,0,y,0]`, and a bound context receives exactly one call with it, an unbound stack none |
| MatrixStack.Rotate | matrix-stack.js:100-106 | fails exactly on an empty stack; otherwise the depth, the binding and every entry below the top are unchanged, the top becomes `old current × [cos,sin,0,-sin,cos,0]`, and a bound context receives exactly one call with it, an unbound stack none |
| MatrixStack.TranslateMovesFirst | matrix-stack.js:77-83 | after `translate(x, y)` the current matrix moves a point by (x, y) and then applies the old current |
| MatrixStack.ScaleStretchesFirst | matrix-stack.js:89-95 | after `scale(x, y)` the current matrix stretches a point by (x, y) and then applies the old current |
| MatrixStack.RotateTurnsFirst | matrix-stack.js:100-106 | after `rotate` the current matrix turns a point, sending (px, py) to (cos·px + sin·py, cos·py − sin·px), and then applies the old current |
| Affine.TranslationMoves | matrix-stack.js:78-81 | the translation matrix moves every point by (x, y) |
| Affine.ScalingStretches | matrix-stack.js:90-93 | the scale matrix multiplies the coordinates by x and y |
| Affine.RotationTurns | matrix-stack.js:101-104 | the rotation matrix sends (px, py) to (cos·px + sin·py, cos·py − sin·px) |
| Affine.TranslationsAdd | matrix-stack.js:78-81 | two translation matrices multiply to the translation by the summed offsets |
| Affine.ScalingsMultiply | matrix-stack.js:90-93 | two scale matrices multiply to the scale by the products of the factors |
| Affine.RotationsCompose | matrix-stack.js:101-104 | two rotation matrices multiply to the rotation given by the angle-addition formulas |
| MatrixStack.BindToContext | matrix-stack.js:112-114 | the bound context becomes the given one, or none; the stack and call log are untouched, so nothing is applied |
| MatrixStack.ApplyToContext | matrix-stack.js:119-122 | fails exactly on an empty stack; otherwise the stack and binding are untouched and exactly one call is appended, to the given context, whether bound or not; its arguments read back in row-major order give the current matrix, and the canvas maps every point as the current matrix does |
| Affine.ColumnMajor | matrix-stack.js:121 | under the canvas's column-major reading, the `setTransform` arguments map every point as the row-major matrix does |
| Affine.ColumnMajorRoundTrip | matrix-stack.js:121 | the permutation `(c0, c3, c1, c4, c2, c5)` and its inverse undo each other |
| StackLaws.Perform | matrix-stack.js:77-106 | each of `multMatrix`, `translate`, `scale` and `rotate` is `multMatrix` with that mutation's matrix |
| StackLaws.RunTouchesOnlyTop | matrix-stack.js:42-43 | a run of mutations on a non-empty stack succeeds; it keeps the depth, the binding and every entry below the top, and the top becomes the old current times the product of the mutations' matrices |
| StackLaws.RunAppliesOncePerMutation | matrix-stack.js:44 | during a run, a bound context receives exactly one call per mutation and earlier calls are kept: the j-th new call goes to that context with the old current times the composite of the first j + 1 mutations; an unbound stack makes no calls |
| StackLaws.RunLastCallCarriesCurrent | matrix-stack.js:42-44 | after a non-empty run on a bound stack, exactly one call per mutation was added and the last one carries the final current matrix, so the canvas matches the stack |
| StackLaws.CompositeAppliesNewestFirst | matrix-stack.js:37-42 | the product of a run's matrices applies the newest matrix to a point first |
| StackLaws.RunAppliesNewestFirst | matrix-stack.js:37-42 | after a run, the current matrix applies the newest mutation first and the matrix current before the run last |
| StackLaws.PushRunPopRestores | matrix-stack.js:49-60 | `pushMatrix`, then any mutations, then `popMatrix` gives back exactly the previous stack, current matrix and binding |
| StackLaws.PopLeavesContextStale | matrix-stack.js:57-60 | on a bound stack, `pushMatrix; translate(x, y); popMatrix` restores the stack, but the only call made carries the translated matrix, and the pop applies nothing |
| StackLaws.PushThenPop | matrix-stack.js:49-60 | `pushMatrix` directly followed by `popMatrix` gives back the whole state, binding and call log included |
| StackLaws.TranslateTwice | matrix-stack.js:77-83 | two `translate` calls leave the same stack as one translate by the summed offsets |
| StackLaws.ScaleTwice | matrix-stack.js:89-95 | two `scale` calls leave the same stack as one scale by the multiplied factors |
| StackLaws.RotateTwice | matrix-stack.js:100-106 | two `rotate` calls leave the same stack as one rotation by the summed angle, in cosine/sine form |
| StackLaws.TranslateScenario | matrix-stack.js:77-83 | from identity, `translate(3, 4)` sends the origin to (3, 4) |
| StackLaws.ScaleThenTranslateScenario | matrix-stack.js:37-42 | from identity, `scale(2, 3); translate(1, 1)` sends (1, 1) to (4, 6) |
| StackLaws.QuarterTurnScenario | matrix-stack.js:100-106 | from identity, a rotation with cos 0 and sin 1 sends (1, 0) to (0, -1) |
| StackLaws.RotateThenTranslateOrder | matrix-stack.js:37-42 | after `rotate; translate` a point is translated first, then rotated, then mapped by the old current |

## Left out

- `Math.cos` and `Math.sin` in `rotate` (matrix-stack.js:102-103): `Rotate` takes the cosine and sine of the angle as real parameters.
- IEEE-754 rounding: all arithmetic is over `real`. Translate additivity, associativity and the other composition laws hold exactly only there.
- The `CanvasRenderingContext2D` object: it is represented only by a `ContextId` and the log of `setTransform` calls made on it. What the canvas then draws is not modelled.
- JavaScript truthiness of the context argument: the constructor binds only a present context and `bindToContext` accepts an absent one, both as `Option<ContextId>`. Other falsy values are not distinguished.
- `applyToContext` with a missing context argument throws in JavaScript; the model's target is always a context.
- Array aliasing in `multMatrix` (matrix-stack.js:31-32): the code appends `0, 0, 1` to the caller's argument array and grows the current array to nine entries before replacing it. Matrices here are values, and every stored matrix has exactly six components.
- Arguments that are not six numbers (shorter or longer arrays, `NaN`, non-numbers): the code does not check them, and `Matrix` has six real fields by construction.
