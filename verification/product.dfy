/**
 The product loop of `multMatrix`: both operands are extended with the implicit
 bottom row [0, 0, 1] to nine entries, and each of the six stored result entries
 is accumulated as a three-term sum.
 */
module Product {
  import opened Affine

  /** The nine row-major entries of a matrix's homogeneous 3x3 form. */
  function Homogeneous(m: Matrix): (s: seq<real>)
    ensures |s| == 9
    ensures forall row: nat, col: nat :: row < 3 && col < 3 ==> s[3 * row + col] == Entry(m, row, col)
  {
    [m.a, m.b, m.c, m.d, m.e, m.f, 0.0, 0.0, 1.0]
  }

  /** The first `n` terms of the running sum for entry (row, col). */
  function PartialSum(cs: seq<real>, ms: seq<real>, row: nat, col: nat, n: nat): real
    requires |cs| == 9 && |ms| == 9
    requires row < 3 && col < 3 && n <= 3
  {
    if n == 0 then 0.0
    else PartialSum(cs, ms, row, col, n - 1) + cs[3 * row + n - 1] * ms[3 * (n - 1) + col]
  }

  /** The entries the loop stores, written with `PartialSum`; they are those of `Mul`. */
  lemma FullSumIsMulEntry(c: Matrix, m: Matrix, row: nat, col: nat)
    requires row < 2 && col < 3
    ensures PartialSum(Homogeneous(c), Homogeneous(m), row, col, 3) == Entry(Mul(c, m), row, col)
  {
    var cs, ms := Homogeneous(c), Homogeneous(m);
    assert PartialSum(cs, ms, row, col, 1) == cs[3 * row] * ms[col];
    assert PartialSum(cs, ms, row, col, 2) == cs[3 * row] * ms[col] + cs[3 * row + 1] * ms[3 + col];
    assert PartialSum(cs, ms, row, col, 3)
        == cs[3 * row] * ms[col] + cs[3 * row + 1] * ms[3 + col] + cs[3 * row + 2] * ms[6 + col];
    MulIsHomogeneousProduct(c, m, row, col);
  }

  /** Computes `current × m` exactly as the source's triple loop does. */
  method MultiplyLoop(c: Matrix, m: Matrix) returns (r: Matrix)
    ensures r == Mul(c, m)
  {
    var cs := Homogeneous(c);
    var ms := Homogeneous(m);
    var out: seq<real> := [0.0, 0.0, 0.0, 0.0, 0.0, 0.0];
    var row := 0;
    while row < 2
      invariant 0 <= row <= 2 && |out| == 6
      invariant forall rr: nat, cc: nat :: rr < row && cc < 3 ==>
        out[3 * rr + cc] == PartialSum(cs, ms, rr, cc, 3)
    {
      var col := 0;
      while col < 3
        invariant 0 <= col <= 3 && |out| == 6
        invariant forall rr: nat, cc: nat :: (rr < row && cc < 3) || (rr == row && cc < col) ==>
          out[3 * rr + cc] == PartialSum(cs, ms, rr, cc, 3)
      {
        var sum := 0.0;
        var i := 0;
        while i < 3
          invariant 0 <= i <= 3
          invariant sum == PartialSum(cs, ms, row, col, i)
        {
          sum := sum + cs[3 * row + i] * ms[3 * i + col];
          i := i + 1;
        }
        out := out[3 * row + col := sum];
        col := col + 1;
      }
      row := row + 1;
    }
    r := Matrix(out[0], out[1], out[2], out[3], out[4], out[5]);
    forall row: nat, col: nat | row < 2 && col < 3
      ensures out[3 * row + col] == Entry(Mul(c, m), row, col)
    {
      FullSumIsMulEntry(c, m, row, col);
    }
    assert out[0] == Entry(Mul(c, m), 0, 0) && out[1] == Entry(Mul(c, m), 0, 1);
    assert out[2] == Entry(Mul(c, m), 0, 2) && out[3] == Entry(Mul(c, m), 1, 0);
    assert out[4] == Entry(Mul(c, m), 1, 1) && out[5] == Entry(Mul(c, m), 1, 2);
  }
}
