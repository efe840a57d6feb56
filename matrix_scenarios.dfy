/** Concrete uses of the Matrix operations, verified against their
    contracts. */
module MatrixScenarios {
  import opened Outcomes
  import opened Matrices

  /** The transpose of a 2x3 matrix lists its columns. */
  lemma TransposeOfTwoByThree(d: seq<real>)
    requires |d| == 6
    ensures Transpose(d, 2, 3) == [d[0], d[3], d[1], d[4], d[2], d[5]]
  {
    var t := Transpose(d, 2, 3);
    assert t[0] == d[0] && t[1] == d[3] && t[2] == d[1];
    assert t[3] == d[4] && t[4] == d[2] && t[5] == d[5];
  }

  /** T on a 2x3 matrix gives the 3x2 matrix of its columns. */
  method TransposeTwoByThree()
  {
    var d := new real[] [1.0, 2.0, 3.0, 4.0, 5.0, 6.0];
    var m := new Matrix.Literal(2, 3, d);
    TransposeOfTwoByThree(d[..]);
    var _ := m.T();
    assert m.Rows == 3 && m.Cols == 2;
    assert m.Data[..] == [1.0, 4.0, 2.0, 5.0, 3.0, 6.0];
  }

  /** Argmax returns the first of two equal maxima. */
  method ArgmaxFirstOfTies()
  {
    var d := new real[] [1.0, 3.0, 3.0, 2.0];
    var m := new Matrix.Literal(1, 4, d);
    var a := m.Argmax();
    assert d[1] == 3.0;
    assert a == 1;
  }

  /** Mismatched inner dimensions are refused. */
  method MatMulMismatch(add: (real, real) -> real, mul: (real, real) -> real)
  {
    var xd := new real[2];
    var yd := new real[3];
    var x := new Matrix.Literal(1, 2, xd);
    var y := new Matrix.Literal(3, 1, yd);
    var r := MatMul(x, y, add, mul);
    assert r == Err(InvalidDimensions);
  }

  /** The single entry of a 1x2 by 2x1 product, unfolded. */
  lemma EntryOfPair(xs: seq<real>, ys: seq<real>, add: (real, real) -> real, mul: (real, real) -> real)
    requires |xs| == 2 && |ys| == 2
    ensures Entry(xs, 1, 2, ys, 1, 0, 0, 2, add, mul) == add(add(0.0, mul(xs[0], ys[0])), mul(xs[1], ys[1]))
  {
    var e1 := Entry(xs, 1, 2, ys, 1, 0, 0, 1, add, mul);
    assert e1 == add(Entry(xs, 1, 2, ys, 1, 0, 0, 0, add, mul), mul(xs[0], ys[0]));
  }

  /** A 1x2 by 2x1 product is its single entry. */
  lemma ProductOfPair(xs: seq<real>, ys: seq<real>, add: (real, real) -> real, mul: (real, real) -> real)
    requires |xs| == 2 && |ys| == 2
    ensures Product(xs, 1, 2, ys, 1, add, mul) == [add(add(0.0, mul(xs[0], ys[0])), mul(xs[1], ys[1]))]
  {
    ProductAt(xs, 1, 2, ys, 1, add, mul, 0, 0);
    assert Cell(0, 0, 1) == 0;
    EntryOfPair(xs, ys, add, mul);
  }

  /** A 1x2 by 2x1 product of ordinary sums and products. */
  method MatMulDot()
  {
    var xd := new real[] [1.0, 2.0];
    var yd := new real[] [3.0, 4.0];
    var x := new Matrix.Literal(1, 2, xd);
    var y := new Matrix.Literal(2, 1, yd);
    var add := (a: real, b: real) => a + b;
    var mul := (a: real, b: real) => a * b;
    var r := MatMul(x, y, add, mul);
    var z := r.value;
    assert z.Rows == 1 && z.Cols == 1;
    ProductOfPair(xd[..], yd[..], add, mul);
    assert z.Data[..] == [11.0];
  }

  /** A write through a Row slice is a write to the matrix. */
  method RowAliases()
  {
    var d := new real[] [1.0, 2.0, 3.0, 4.0];
    var m := new Matrix.Literal(2, 2, d);
    var row := m.Row(1);
    assert row.Elements() == [3.0, 4.0];
    row.buf[row.lo + 1] := 9.0;
    assert m.Data[3] == 9.0;
  }
}
