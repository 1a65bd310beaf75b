/**
 2D affine matrices in the row-major layout used by the matrix stack:

   | a b c |
   | d e f |
   | 0 0 1 |   (implicit, never stored)

 A matrix maps the point (x, y) to (a*x + b*y + c, d*x + e*y + f).
 Everything is over `real`; floating-point rounding is not modelled.
 */
module Affine {

  datatype Matrix = Matrix(a: real, b: real, c: real, d: real, e: real, f: real)

  datatype Point = Point(x: real, y: real)

  /** Arguments of one `setTransform(a, b, c, d, e, f)` call on a canvas context,
      which reads them column-major: (x, y) maps to (a*x + c*y + e, b*x + d*y + f). */
  datatype Transform = Transform(a: real, b: real, c: real, d: real, e: real, f: real)

  const Identity := Matrix(1.0, 0.0, 0.0, 0.0, 1.0, 0.0)

  /** The point a row-major matrix maps `p` to. */
  function Apply(m: Matrix, p: Point): Point {
    Point(m.a * p.x + m.b * p.y + m.c, m.d * p.x + m.e * p.y + m.f)
  }

  /** Entry (row, col) of the 3x3 homogeneous matrix; row 2 is always [0, 0, 1]. */
  function Entry(m: Matrix, row: nat, col: nat): real
    requires row < 3 && col < 3
  {
    if row == 0 then [m.a, m.b, m.c][col]
    else if row == 1 then [m.d, m.e, m.f][col]
    else [0.0, 0.0, 1.0][col]
  }

  /** The homogeneous product `c × m`, written out for the two stored rows. */
  function Mul(c: Matrix, m: Matrix): Matrix {
    Matrix(c.a * m.a + c.b * m.d, c.a * m.b + c.b * m.e, c.a * m.c + c.b * m.f + c.c,
           c.d * m.a + c.e * m.d, c.d * m.b + c.e * m.e, c.d * m.c + c.e * m.f + c.f)
  }

  /** `Mul` is the full 3x3 homogeneous product: every entry, including the implicit
      bottom row [0, 0, 1], is the row of `c` times the column of `m`. */
  lemma MulIsHomogeneousProduct(c: Matrix, m: Matrix, row: nat, col: nat)
    requires row < 3 && col < 3
    ensures Entry(Mul(c, m), row, col)
         == Entry(c, row, 0) * Entry(m, 0, col)
          + Entry(c, row, 1) * Entry(m, 1, col)
          + Entry(c, row, 2) * Entry(m, 2, col)
  {}

  function Translation(x: real, y: real): Matrix {
    Matrix(1.0, 0.0, x, 0.0, 1.0, y)
  }

  function Scaling(x: real, y: real): Matrix {
    Matrix(x, 0.0, 0.0, 0.0, y, 0.0)
  }

  /** The rotation matrix built from the cosine and sine of the angle. */
  function Rotation(cosR: real, sinR: real): Matrix {
    Matrix(cosR, sinR, 0.0, -sinR, cosR, 0.0)
  }

  /** The argument order handed to `setTransform`: the row-major matrix read column by column. */
  function ColumnMajor(m: Matrix): (t: Transform)
    ensures forall p :: CanvasApply(t, p) == Apply(m, p)
  {
    Transform(m.a, m.d, m.b, m.e, m.c, m.f)
  }

  /** The point a canvas context maps `p` to under `setTransform(t)`. */
  function CanvasApply(t: Transform, p: Point): Point {
    Point(t.a * p.x + t.c * p.y + t.e, t.b * p.x + t.d * p.y + t.f)
  }

  /** Reads `setTransform` arguments back into the row-major layout. */
  function FromColumnMajor(t: Transform): Matrix {
    Matrix(t.a, t.c, t.e, t.b, t.d, t.f)
  }

  lemma ColumnMajorRoundTrip(m: Matrix, t: Transform)
    ensures FromColumnMajor(ColumnMajor(m)) == m
    ensures ColumnMajor(FromColumnMajor(t)) == t
  {}

  lemma IdentityFixesPoints(p: Point)
    ensures Apply(Identity, p) == p
  {}

  lemma IdentityIsUnit(m: Matrix)
    ensures Mul(Identity, m) == m
    ensures Mul(m, Identity) == m
  {}

  /** Applying a product applies the right operand first, then the left one. */
  lemma ApplyMul(c: Matrix, m: Matrix, p: Point)
    ensures Apply(Mul(c, m), p) == Apply(c, Apply(m, p))
  {
    var q := Apply(m, p);
    var lhs := Apply(Mul(c, m), p);
    RowTimesColumn(c.a, c.b, c.c, m, p);
    RowTimesColumn(c.d, c.e, c.f, m, p);
    assert lhs.x == c.a * q.x + c.b * q.y + c.c;
    assert lhs.y == c.d * q.x + c.e * q.y + c.f;
  }

  /** One output coordinate of `ApplyMul`: the row (u, v, w) of the left operand
      distributes over the point `m` produces. */
  lemma RowTimesColumn(u: real, v: real, w: real, m: Matrix, p: Point)
    ensures (u * m.a + v * m.d) * p.x + (u * m.b + v * m.e) * p.y + (u * m.c + v * m.f + w)
         == u * (m.a * p.x + m.b * p.y + m.c) + v * (m.d * p.x + m.e * p.y + m.f) + w
  {
    assert (u * m.a + v * m.d) * p.x == u * (m.a * p.x) + v * (m.d * p.x);
    assert (u * m.b + v * m.e) * p.y == u * (m.b * p.y) + v * (m.e * p.y);
    assert u * (m.a * p.x + m.b * p.y + m.c) == u * (m.a * p.x) + u * (m.b * p.y) + u * m.c;
    assert v * (m.d * p.x + m.e * p.y + m.f) == v * (m.d * p.x) + v * (m.e * p.y) + v * m.f;
  }

  /** Product of matrices is associative, shown through the points the two sides map alike. */
  lemma MulAssociative(x: Matrix, y: Matrix, z: Matrix)
    ensures Mul(Mul(x, y), z) == Mul(x, Mul(y, z))
  {
    forall p: Point | p in {Point(0.0, 0.0), Point(1.0, 0.0), Point(0.0, 1.0)}
      ensures Apply(Mul(Mul(x, y), z), p) == Apply(Mul(x, Mul(y, z)), p)
    {
      ApplyMul(Mul(x, y), z, p);
      ApplyMul(x, y, Apply(z, p));
      ApplyMul(y, z, p);
      ApplyMul(x, Mul(y, z), p);
    }
    EqualOnBasis(Mul(Mul(x, y), z), Mul(x, Mul(y, z)));
  }

  /** An affine matrix is determined by where it sends the origin and the two unit points. */
  lemma EqualOnBasis(m: Matrix, n: Matrix)
    requires Apply(m, Point(0.0, 0.0)) == Apply(n, Point(0.0, 0.0))
    requires Apply(m, Point(1.0, 0.0)) == Apply(n, Point(1.0, 0.0))
    requires Apply(m, Point(0.0, 1.0)) == Apply(n, Point(0.0, 1.0))
    ensures m == n
  {}

  lemma TranslationMoves(x: real, y: real, p: Point)
    ensures Apply(Translation(x, y), p) == Point(p.x + x, p.y + y)
  {}

  lemma ScalingStretches(x: real, y: real, p: Point)
    ensures Apply(Scaling(x, y), p) == Point(x * p.x, y * p.y)
  {}

  lemma RotationTurns(cosR: real, sinR: real, p: Point)
    ensures Apply(Rotation(cosR, sinR), p) == Point(cosR * p.x + sinR * p.y, cosR * p.y - sinR * p.x)
  {}

  lemma TranslationsAdd(x1: real, y1: real, x2: real, y2: real)
    ensures Mul(Translation(x1, y1), Translation(x2, y2)) == Translation(x1 + x2, y1 + y2)
  {}

  lemma ScalingsMultiply(x1: real, y1: real, x2: real, y2: real)
    ensures Mul(Scaling(x1, y1), Scaling(x2, y2)) == Scaling(x1 * x2, y1 * y2)
  {}

  /** Two rotations compose by the angle-addition formulas. */
  lemma RotationsCompose(cos1: real, sin1: real, cos2: real, sin2: real)
    ensures Mul(Rotation(cos1, sin1), Rotation(cos2, sin2))
         == Rotation(cos1 * cos2 - sin1 * sin2, sin1 * cos2 + cos1 * sin2)
  {}
}
