/** The scenarios of tensor/tensor_test.go, and the quirks of the package,
    written as verified client code against the contracts of Tensors. */
module TensorScenarios {
  import opened Outcomes
  import opened Tensors

  method EightElements() returns (d: array<real>)
    ensures fresh(d) && d[..] == [1.0, 2.0, 3.0, 4.0, 5.0, 6.0, 7.0, 8.0]
  {
    d := new real[] [1.0, 2.0, 3.0, 4.0, 5.0, 6.0, 7.0, 8.0];
  }

  lemma Dot1(a: int, x: int)
    ensures Dot([a], [x]) == a * x
  {
    assert [a][1..] == [] && [x][1..] == [];
  }

  lemma Dot2(a: int, b: int, x: int, y: int)
    ensures Dot([a, b], [x, y]) == a * x + b * y
  {
    assert [a, b][1..] == [b] && [x, y][1..] == [y];
    Dot1(b, y);
  }

  lemma Dot3(a: int, b: int, c: int, x: int, y: int, z: int)
    ensures Dot([a, b, c], [x, y, z]) == a * x + b * y + c * z
  {
    assert [a, b, c][1..] == [b, c] && [x, y, z][1..] == [y, z];
    Dot2(b, c, y, z);
  }

  lemma Strides222()
    ensures RowMajorStrides([2, 2, 2]) == [4, 2, 1] && Product([2, 2, 2]) == 8
  {
    assert [2, 2, 2][1..] == [2, 2] && [2, 2, 2][2..] == [2] && [2, 2, 2][3..] == [];
    assert [2, 2][1..] == [2] && [2][1..] == [];
  }

  lemma Strides42()
    ensures RowMajorStrides([4, 2]) == [2, 1] && Product([4, 2]) == 8
  {
    assert [4, 2][1..] == [2] && [4, 2][2..] == [] && [2][1..] == [];
  }

  /** TestNewMatrix: an empty buffer never fails and gives the empty tensor,
      even when sizes are given. */
  method NewEmpty()
  {
    var none := new real[0];
    var a := new Tensor.NewTensor(none, []);
    assert a.Data.Length == 0 && a.Sizes == [] && a.Strides == [] && a.Offset == 0;
    var b := new Tensor.NewTensor(none, [2, 2]);
    assert b.Sizes == [] && b.Strides == [];
  }

  /** NewTensor does not compare the shape with the buffer: three values
      under a 2x2 shape are accepted, and At(1,1) is then caught only by the
      flat-index check. */
  method NewUncheckedShape()
  {
    var d := new real[] [1.0, 2.0, 3.0];
    var a := new Tensor.NewTensor(d, [2, 2]);
    assert [2, 2][1..] == [2] && [2, 2][2..] == [] && [2][1..] == [];
    assert a.Strides == [2, 1];
    Dot2(1, 1, 2, 1);
    var r := a.At([1, 1]);
    assert r == Err(IndexTooHigh);
  }

  /** TestMatrixAt, first case. */
  method AtRowMajor()
  {
    var d := new real[] [1.0, 2.0, 3.0, 4.0];
    var a := new Tensor.NewTensor(d, [2, 2]);
    assert [2, 2][1..] == [2] && [2, 2][2..] == [] && [2][1..] == [];
    assert a.Strides == [2, 1];
    Dot2(1, 0, 2, 1);
    var r := a.At([1, 0]);
    assert r == Ok(3.0);
  }

  /** TestMatrixAt, second case, and an index tuple of the wrong arity. */
  method AtRowMajorThreeAxes()
  {
    var e := EightElements();
    var b := new Tensor.NewTensor(e, [2, 2, 2]);
    Strides222();
    Dot3(1, 0, 1, 4, 2, 1);
    var r := b.At([1, 0, 1]);
    assert r == Ok(6.0);
    r := b.At([1, 0]);
    assert r == Err(ArityMismatch);
  }

  /** TestMatrixView: View(4,2).At(2,1), and a write through the source seen
      through the view. */
  method ViewSharesStorage()
  {
    var e := EightElements();
    var a := new Tensor.NewTensor(e, [2, 2, 2]);
    Strides222();
    Strides42();
    var v := a.View([4, 2]);
    var b := v.value;
    Dot2(2, 1, 2, 1);
    var r := b.At([2, 1]);
    assert r == Ok(6.0);
    assert [1, 0, 1][..3] == [1, 0, 1];
    a.Set(12.0, [1, 0, 1]);
    Dot2(2, 1, 2, 1);
    r := b.At([2, 1]);
    assert r == Ok(12.0);
    var bad := a.View([3, 2]);
    assert [3, 2][1..] == [2] && [2][1..] == [];
    assert bad == Err(ShapeMismatch);
  }

  /** TestDimSlice: the four slices of a 2x2x2 tensor. */
  method DimSlices()
  {
    var e := EightElements();
    var a := new Tensor.NewTensor(e, [2, 2, 2]);
    Strides222();
    var b := a.DimSlice(0, 1);
    assert b.Strides == [2, 1] && b.Offset == 4;
    Dot2(1, 1, 2, 1);
    var r := b.At([1, 1]);
    assert r == Ok(8.0);
    b := a.DimSlice(1, 1);
    assert b.Strides == [4, 1] && b.Offset == 2;
    Dot2(1, 0, 4, 1);
    r := b.At([1, 0]);
    assert r == Ok(7.0);
    b := a.DimSlice(2, 1);
    assert b.Strides == [4, 2] && b.Offset == 1;
    Dot2(1, 0, 4, 2);
    r := b.At([1, 0]);
    assert r == Ok(6.0);
    b := a.DimSlice(2, 0);
    assert b.Strides == [4, 2] && b.Offset == 0;
    Dot2(1, 0, 4, 2);
    r := b.At([1, 0]);
    assert r == Ok(5.0);
  }

  /** DimSlice drops the source's offset: slicing the slice [[5,6],[7,8]]
      at row 1 gives [3,4], not [7,8]. */
  method ChainedSliceLosesOffset()
  {
    var e := EightElements();
    var a := new Tensor.NewTensor(e, [2, 2, 2]);
    Strides222();
    var b := a.DimSlice(0, 1);
    assert b.Strides == [2, 1] && b.Offset == 4;
    Dot2(1, 0, 2, 1);
    var r := b.At([1, 0]);
    assert r == Ok(7.0);
    var c := b.DimSlice(0, 1);
    assert c.Strides == [1] && c.Offset == 2;
    Dot1(0, 1);
    r := c.At([0]);
    assert r == Ok(3.0);
  }

  /** DimSlice keeps the first rank-1 sizes: slicing a 2x3 tensor at row 0
      records sizes [2] although the row has 3 entries, which puts index 2
      out of range; At checks no per-axis bound, so it does not notice and
      reads the row's third entry. */
  method SliceKeepsLeadingSizes()
  {
    var d := new real[] [1.0, 2.0, 3.0, 4.0, 5.0, 6.0];
    var a := new Tensor.NewTensor(d, [2, 3]);
    assert [2, 3][1..] == [3] && [2, 3][2..] == [] && [3][1..] == [];
    assert a.Strides == [3, 1];
    var row := a.DimSlice(0, 0);
    assert row.Sizes == [2] && row.Strides == [1] && row.Offset == 0;
    Dot1(2, 1);
    var r := row.At([2]);
    assert r == Ok(3.0);
  }

  /** View measures the whole buffer, not the slice it is called on. */
  method ViewOfSliceIsWholeBuffer()
  {
    var e := EightElements();
    var a := new Tensor.NewTensor(e, [2, 2, 2]);
    Strides222();
    var b := a.DimSlice(0, 1);
    assert [2, 2][1..] == [2] && [2][1..] == [];
    var v := b.View([2, 2]);
    assert v == Err(ShapeMismatch);
    assert [8][1..] == [];
    v := b.View([8]);
    var w := v.value;
    assert w.Offset == 0 && w.Strides == [1];
    Dot1(0, 1);
    var r := w.At([0]);
    assert r == Ok(1.0);
  }
}
