/** Package tensor: a strided descriptor (sizes, strides, offset) over a flat
    buffer of float64 values that several descriptors may share. The values
    are only loaded and stored, so they are modelled as `real`. */
module Tensors {
  import opened Outcomes
  import opened IndexArith

  /** The conditions on which the package calls log.Fatal. */
  datatype Error =
    | ArityMismatch  // At: the number of indices is not the rank
    | IndexTooHigh   // At: the flat index, offset not included, reaches len(Data)
    | ShapeMismatch  // View: prod(newSizes) is not len(Data)

  // ---------------------------------------------------------------------
  // Index arithmetic, as pure specification functions
  // ---------------------------------------------------------------------

  /** The product of a list of sizes; the empty product is 1. */
  function Product(s: seq<int>): int
  {
    if s == [] then 1 else s[0] * Product(s[1..])
  }

  /** Canonical row-major strides: axis i advances by the product of the
      sizes of the axes after it. */
  function RowMajorStrides(sizes: seq<int>): (r: seq<int>)
    ensures |r| == |sizes|
  {
    seq(|sizes|, i requires 0 <= i < |sizes| => Product(sizes[i + 1..]))
  }

  /** The flat offset of an index tuple: the sum of idx[i] * strides[i]. */
  function Dot(idx: seq<int>, strides: seq<int>): int
    requires |idx| == |strides|
  {
    if idx == [] then 0 else idx[0] * strides[0] + Dot(idx[1..], strides[1..])
  }

  predicate PositiveSizes(sizes: seq<int>)
  {
    forall i :: 0 <= i < |sizes| ==> sizes[i] > 0
  }

  /** An index tuple of the right arity, each coordinate within its axis. */
  predicate ValidIndex(idx: seq<int>, sizes: seq<int>)
  {
    |idx| == |sizes| && forall i :: 0 <= i < |idx| ==> 0 <= idx[i] < sizes[i]
  }

  function RemoveAt(s: seq<int>, k: nat): (r: seq<int>)
    requires k < |s|
    ensures |r| == |s| - 1
  {
    s[..k] + s[k + 1..]
  }

  function InsertAt(s: seq<int>, k: nat, x: int): (r: seq<int>)
    requires k <= |s|
    ensures |r| == |s| + 1
  {
    s[..k] + [x] + s[k..]
  }

  // ---------------------------------------------------------------------
  // Lemmas about the index arithmetic
  // ---------------------------------------------------------------------

  lemma {:induction false} ProductSnoc(s: seq<int>, x: int)
    ensures Product(s + [x]) == Product(s) * x
  {
    if s == [] {
      assert [x][1..] == [];
    } else {
      assert (s + [x])[1..] == s[1..] + [x];
      ProductSnoc(s[1..], x);
    }
  }

  lemma ProductFrom(s: seq<int>, i: nat)
    requires i < |s|
    ensures Product(s[i..]) == Product(s[i + 1..]) * s[i]
  {
    assert s[i..][1..] == s[i + 1..];
  }

  lemma {:induction false} ProductPositive(s: seq<int>)
    requires PositiveSizes(s)
    ensures Product(s) > 0
  {
    if s != [] {
      ProductPositive(s[1..]);
    }
  }

  /** The rule the strides follow: the last is 1, each is the next one times
      the next size, and the first times the first size is the element count. */
  lemma StridesRecurrence(sizes: seq<int>)
    ensures RowMajorStrides([]) == [] && Product([]) == 1
    ensures sizes != [] ==> RowMajorStrides(sizes)[|sizes| - 1] == 1
    ensures sizes != [] ==> RowMajorStrides(sizes)[0] * sizes[0] == Product(sizes)
    ensures forall i :: 0 <= i < |sizes| - 1 ==>
      RowMajorStrides(sizes)[i] == RowMajorStrides(sizes)[i + 1] * sizes[i + 1]
  {
    var r := RowMajorStrides(sizes);
    if sizes != [] {
      assert r[|sizes| - 1] == Product(sizes[|sizes|..]);
      assert sizes[|sizes|..] == [];
      assert r[0] == Product(sizes[1..]);
    }
    forall i | 0 <= i < |sizes| - 1
      ensures r[i] == r[i + 1] * sizes[i + 1]
    {
      var tail := sizes[i + 1..];
      assert r[i] == Product(tail);
      assert r[i + 1] == Product(sizes[i + 2..]);
      assert tail[0] == sizes[i + 1];
      assert tail[1..] == sizes[i + 2..];
    }
  }

  /** The strides of a shape are its first stride followed by the strides of
      the shape without its first axis. */
  lemma StridesTail(sizes: seq<int>)
    requires sizes != []
    ensures RowMajorStrides(sizes) == [Product(sizes[1..])] + RowMajorStrides(sizes[1..])
  {
    var r, t := RowMajorStrides(sizes), RowMajorStrides(sizes[1..]);
    var u := [Product(sizes[1..])] + t;
    forall i | 0 <= i < |r|
      ensures r[i] == u[i]
    {
      if i > 0 {
        assert sizes[i + 1..] == sizes[1..][i..];
        assert r[i] == Product(sizes[1..][i..]) == t[i - 1];
      }
    }
  }

  lemma {:induction false} DotSnoc(a: seq<int>, b: seq<int>, x: int, y: int)
    requires |a| == |b|
    ensures Dot(a + [x], b + [y]) == Dot(a, b) + x * y
  {
    if a == [] {
      assert [x][1..] == [] && [y][1..] == [];
    } else {
      assert (a + [x])[1..] == a[1..] + [x];
      assert (b + [y])[1..] == b[1..] + [y];
      DotSnoc(a[1..], b[1..], x, y);
    }
  }

  /** Fixing axis k at x contributes x * strides[k]; the other axes keep
      their strides. */
  lemma {:induction false} DotInsert(j: seq<int>, s: seq<int>, k: nat, x: int)
    requires |j| + 1 == |s| && k < |s|
    ensures Dot(InsertAt(j, k, x), s) == Dot(j, RemoveAt(s, k)) + x * s[k]
  {
    if k == 0 {
      assert InsertAt(j, 0, x) == [x] + j;
      assert RemoveAt(s, 0) == s[1..];
      assert ([x] + j)[1..] == j;
    } else {
      assert InsertAt(j, k, x)[1..] == InsertAt(j[1..], k - 1, x);
      assert RemoveAt(s, k)[1..] == RemoveAt(s[1..], k - 1);
      DotInsert(j[1..], s[1..], k - 1, x);
    }
  }

  lemma ValidIndexPositive(idx: seq<int>, sizes: seq<int>)
    requires ValidIndex(idx, sizes)
    ensures PositiveSizes(sizes)
  {
    forall i | 0 <= i < |sizes|
      ensures sizes[i] > 0
    {
      assert 0 <= idx[i] < sizes[i];
    }
  }

  lemma ValidIndexInsert(j: seq<int>, sizes: seq<int>, k: nat, x: int)
    requires k < |sizes| && ValidIndex(j, RemoveAt(sizes, k)) && 0 <= x < sizes[k]
    ensures ValidIndex(InsertAt(j, k, x), sizes)
  {
    var t, rs := InsertAt(j, k, x), RemoveAt(sizes, k);
    forall i | 0 <= i < |t|
      ensures 0 <= t[i] < sizes[i]
    {
      if i < k {
        assert t[i] == j[i] && rs[i] == sizes[i];
      } else if i > k {
        assert t[i] == j[i - 1] && rs[i - 1] == sizes[i];
      }
    }
  }

  /** Every valid index tuple lands inside the element count of its shape. */
  lemma {:induction false} RowMajorBound(idx: seq<int>, sizes: seq<int>)
    requires ValidIndex(idx, sizes)
    ensures 0 <= Dot(idx, RowMajorStrides(sizes)) < Product(sizes)
  {
    if sizes != [] {
      var rest := sizes[1..];
      StridesTail(sizes);
      assert ValidIndex(idx[1..], rest) by {
        forall i | 0 <= i < |rest| ensures 0 <= idx[1..][i] < rest[i] {
          assert idx[1..][i] == idx[i + 1];
        }
      }
      RowMajorBound(idx[1..], rest);
      assert RowMajorStrides(sizes)[1..] == RowMajorStrides(rest);
      MulStrictBound(idx[0], Dot(idx[1..], RowMajorStrides(rest)), Product(rest), sizes[0]);
    }
  }

  /** Prefixing a coordinate in range for the first axis to an index tuple
      for the other axes gives an index tuple for the whole shape, whose
      flat index adds the coordinate times the first stride. */
  lemma ConsIndex(x: int, tail: seq<int>, sizes: seq<int>)
    requires sizes != [] && 0 <= x < sizes[0] && ValidIndex(tail, sizes[1..])
    ensures ValidIndex([x] + tail, sizes)
    ensures Dot([x] + tail, RowMajorStrides(sizes))
         == x * Product(sizes[1..]) + Dot(tail, RowMajorStrides(sizes[1..]))
  {
    var idx := [x] + tail;
    forall i | 0 <= i < |idx|
      ensures 0 <= idx[i] < sizes[i]
    {
      if i > 0 {
        assert idx[i] == tail[i - 1] && sizes[1..][i - 1] == sizes[i];
      }
    }
    StridesTail(sizes);
    assert idx[1..] == tail;
    assert RowMajorStrides(sizes)[1..] == RowMajorStrides(sizes[1..]);
  }

  /** The index tuple at row-major position p: the inverse of Dot against
      the canonical strides. */
  function Unravel(p: int, sizes: seq<int>): (idx: seq<int>)
    requires PositiveSizes(sizes) && 0 <= p < Product(sizes)
    ensures ValidIndex(idx, sizes)
    ensures Dot(idx, RowMajorStrides(sizes)) == p
    decreases |sizes|
  {
    if sizes == [] then []
    else
      var rest := sizes[1..];
      ProductPositive(rest);
      var P := Product(rest);
      DivBelow(p, P, sizes[0]);
      var tail := Unravel(p % P, rest);
      ConsIndex(p / P, tail, sizes);
      [p / P] + tail
  }

  /** Row-major positions determine their index tuple. */
  lemma {:induction false} UnravelDot(idx: seq<int>, sizes: seq<int>)
    requires ValidIndex(idx, sizes)
    ensures PositiveSizes(sizes) && 0 <= Dot(idx, RowMajorStrides(sizes)) < Product(sizes)
    ensures Unravel(Dot(idx, RowMajorStrides(sizes)), sizes) == idx
  {
    ValidIndexPositive(idx, sizes);
    RowMajorBound(idx, sizes);
    if sizes != [] {
      var rest := sizes[1..];
      StridesTail(sizes);
      assert ValidIndex(idx[1..], rest) by {
        forall i | 0 <= i < |rest| ensures 0 <= idx[1..][i] < rest[i] {
          assert idx[1..][i] == idx[i + 1];
        }
      }
      RowMajorBound(idx[1..], rest);
      UnravelDot(idx[1..], rest);
      var d := Dot(idx[1..], RowMajorStrides(rest));
      assert RowMajorStrides(sizes)[1..] == RowMajorStrides(rest);
      assert Dot(idx, RowMajorStrides(sizes)) == idx[0] * Product(rest) + d;
      DivModOf(idx[0], d, Product(rest));
      assert idx == [idx[0]] + idx[1..];
    }
  }

  // ---------------------------------------------------------------------
  // The helpers prod and calcualteStrides, as loops
  // ---------------------------------------------------------------------

  /** prod: left-to-right running product of the sizes. */
  method Prod(s: seq<int>) returns (res: int)
    ensures res == Product(s)
  {
    res := 1;
    for i := 0 to |s|
      invariant res == Product(s[..i])
    {
      assert s[..i + 1] == s[..i] + [s[i]];
      ProductSnoc(s[..i], s[i]);
      res := res * s[i];
    }
    assert s[..|s|] == s;
  }

  /** calcualteStrides: fills the strides right to left with a running
      product of the sizes already passed. */
  method CalculateStrides(sizes: seq<int>) returns (strides: seq<int>)
    ensures strides == RowMajorStrides(sizes)
  {
    var a := new int[|sizes|];
    var interStride := 1;
    var i := |sizes| - 1;
    while i >= 0
      invariant -1 <= i < |sizes|
      invariant interStride == Product(sizes[i + 1..])
      invariant forall k :: i < k < |sizes| ==> a[k] == Product(sizes[k + 1..])
    {
      a[i] := interStride;
      ProductFrom(sizes, i);
      interStride := interStride * sizes[i];
      assert interStride == Product(sizes[i..]);
      i := i - 1;
    }
    strides := a[..];
    assert forall k :: 0 <= k < |sizes| ==> strides[k] == RowMajorStrides(sizes)[k];
  }

  // ---------------------------------------------------------------------
  // The descriptor
  // ---------------------------------------------------------------------

  /** A descriptor over a shared buffer. No operation of the package
      reassigns a descriptor's fields, so they are constants; `Set` writes
      the buffer they point at. */
  class Tensor {
    const Sizes: seq<int>
    const Strides: seq<int>
    const Offset: int
    const Data: array<real>

    /** One stride per axis; every descriptor the package builds has it. */
    predicate Valid()
    {
      |Strides| == |Sizes|
    }

    /** A descriptor as NewTensor and View build it when the shape matches
        the buffer: canonical strides, no offset, prod(Sizes) == len(Data). */
    predicate IsRowMajor()
    {
      Valid() && Offset == 0 && Strides == RowMajorStrides(Sizes) && Product(Sizes) == Data.Length
    }

    /** NewTensor: an empty buffer gives the empty tensor whatever the sizes
        say; otherwise the buffer is kept by reference with canonical strides.
        prod(sizes) == len(data) is not checked. */
    constructor NewTensor(data: array<real>, sizes: seq<int>)
      ensures Valid()
      ensures data.Length == 0 ==>
        fresh(Data) && Data.Length == 0 && Sizes == [] && Strides == [] && Offset == 0
      ensures data.Length != 0 ==>
        Data == data && Sizes == sizes && Strides == RowMajorStrides(sizes) && Offset == 0
    {
      if data.Length == 0 {
        Data := new real[0];
        Sizes := [];
        Offset := 0;
        Strides := [];
      } else {
        Data := data;
        Sizes := sizes;
        Offset := 0;
        var strides := CalculateStrides(sizes);
        Strides := strides;
      }
    }

    /** The composite literal &Tensor{...} that View and DimSlice return. */
    constructor Literal(data: array<real>, sizes: seq<int>, strides: seq<int>, offset: int)
      ensures Data == data && Sizes == sizes && Strides == strides && Offset == offset
    {
      Data, Sizes, Strides, Offset := data, sizes, strides, offset;
    }

    /** The buffer position At reads for an index tuple of the right arity. */
    function Position(idx: seq<int>): int
      requires Valid() && |idx| == |Sizes|
    {
      Offset + Dot(idx, Strides)
    }

    /** Reading Data[Offset+ind] after At's own check is in range: Go panics
        otherwise, since the check leaves Offset out. */
    predicate InBuffer(idx: seq<int>)
      requires Valid()
    {
      |idx| == |Sizes| && Dot(idx, Strides) < Data.Length ==> 0 <= Position(idx) < Data.Length
    }

    /** What At returns for an index tuple. */
    function Read(idx: seq<int>): Result<real, Error>
      reads Data
      requires Valid() && InBuffer(idx)
    {
      if |idx| != |Sizes| then Err(ArityMismatch)
      else if Dot(idx, Strides) >= Data.Length then Err(IndexTooHigh)
      else Ok(Data[Position(idx)])
    }

    /** At: checks the arity, accumulates the flat index, checks it (without
        the offset) against the buffer and reads at offset plus index. */
    method At(idx: seq<int>) returns (r: Result<real, Error>)
      requires Valid() && InBuffer(idx)
      ensures r == Read(idx)
    {
      if |idx| != |Sizes| {
        return Err(ArityMismatch);
      }
      var ind := 0;
      for i := 0 to |Sizes|
        invariant ind == Dot(idx[..i], Strides[..i])
      {
        assert idx[..i + 1] == idx[..i] + [idx[i]];
        assert Strides[..i + 1] == Strides[..i] + [Strides[i]];
        DotSnoc(idx[..i], Strides[..i], idx[i], Strides[i]);
        ind := ind + idx[i] * Strides[i];
      }
      assert idx[..|Sizes|] == idx && Strides[..|Sizes|] == Strides;
      if ind >= Data.Length {
        return Err(IndexTooHigh);
      }
      return Ok(Data[Offset + ind]);
    }

    /** Set: writes at the flat index of the first rank-many indices, with
        neither the offset nor any check of arity or bounds. Go panics when
        idx is shorter than the rank or the position is outside the buffer. */
    method Set(val: real, idx: seq<int>)
      requires Valid() && |Sizes| <= |idx|
      requires 0 <= Dot(idx[..|Sizes|], Strides) < Data.Length
      modifies Data
      ensures Data[..] == old(Data[..])[Dot(idx[..|Sizes|], Strides) := val]
    {
      var ind := 0;
      for i := 0 to |Sizes|
        invariant ind == Dot(idx[..i], Strides[..i])
        invariant Data[..] == old(Data[..])
      {
        assert idx[..i + 1] == idx[..i] + [idx[i]];
        assert Strides[..i + 1] == Strides[..i] + [Strides[i]];
        DotSnoc(idx[..i], Strides[..i], idx[i], Strides[i]);
        ind := ind + idx[i] * Strides[i];
      }
      assert Strides[..|Sizes|] == Strides;
      Data[ind] := val;
      assert Data[..] == old(Data[..])[ind := val];
    }

    /** View: the whole buffer (not the current view) reinterpreted with new
        sizes and canonical strides, sharing Data; fails unless
        prod(newSizes) == len(Data). */
    method View(newSizes: seq<int>) returns (r: Result<Tensor, Error>)
      ensures Product(newSizes) != Data.Length ==> r == Err(ShapeMismatch)
      ensures Product(newSizes) == Data.Length ==>
        r.Ok? && fresh(r.value) && r.value.IsRowMajor() && r.value.Data == Data &&
        r.value.Sizes == newSizes && r.value.Strides == RowMajorStrides(newSizes) &&
        r.value.Offset == 0
    {
      var n := Prod(newSizes);
      if n != Data.Length {
        return Err(ShapeMismatch);
      }
      var strides := CalculateStrides(newSizes);
      var t := new Tensor.Literal(Data, newSizes, strides, 0);
      return Ok(t);
    }

    /** DimSlice: one rank lower, sharing Data. The sizes are the first
        rank-1 sizes (not those without axis dim), the strides drop axis dim,
        and the offset is Strides[dim]*ind with this descriptor's own offset
        left out. */
    method DimSlice(dim: int, ind: int) returns (r: Tensor)
      requires Valid() && 0 <= dim < |Sizes|
      ensures fresh(r) && r.Valid() && r.Data == Data
      ensures r.Sizes == Sizes[..|Sizes| - 1]
      ensures r.Strides == RemoveAt(Strides, dim)
      ensures r.Offset == Strides[dim] * ind
    {
      var n := |Sizes|;
      var newSizes := new int[n - 1];
      for i := 0 to n - 1
        invariant newSizes[..i] == Sizes[..i]
      {
        newSizes[i] := Sizes[i];
      }
      var sizesHead := newSizes[..];
      assert sizesHead == Sizes[..n - 1];
      var newStrides := new int[n - 1];
      var ii := 0;
      for i := 0 to n
        invariant ii == if i <= dim then i else i - 1
        invariant i <= dim ==> newStrides[..ii] == Strides[..i]
        invariant i > dim ==> newStrides[..ii] == Strides[..dim] + Strides[dim + 1..i]
      {
        if i != dim {
          newStrides[ii] := Strides[i];
          ii := ii + 1;
        }
      }
      assert Strides[dim + 1..n] == Strides[dim + 1..];
      var newOffset := Strides[dim] * ind;
      assert newStrides[..] == newStrides[..ii];
      r := new Tensor.Literal(Data, sizesHead, newStrides[..], newOffset);
    }
  }

  // ---------------------------------------------------------------------
  // What reads through descriptors mean
  // ---------------------------------------------------------------------

  /** On a row-major descriptor every valid index tuple is read at its
      row-major position, which lies inside the buffer. */
  lemma RowMajorRead(t: Tensor, idx: seq<int>)
    requires t.IsRowMajor() && ValidIndex(idx, t.Sizes)
    ensures 0 <= Dot(idx, t.Strides) < t.Data.Length
    ensures t.InBuffer(idx) && t.Read(idx) == Ok(t.Data[Dot(idx, t.Strides)])
  {
    RowMajorBound(idx, t.Sizes);
  }

  /** Reading a row-major descriptor at every index tuple reproduces the
      buffer in row-major order: position p is the tuple Unravel(p), and no
      other valid tuple reads position p. */
  lemma RowMajorEnumerates(t: Tensor, p: int, idx: seq<int>)
    requires t.IsRowMajor() && PositiveSizes(t.Sizes) && 0 <= p < t.Data.Length
    ensures t.InBuffer(Unravel(p, t.Sizes)) && t.Read(Unravel(p, t.Sizes)) == Ok(t.Data[p])
    ensures ValidIndex(idx, t.Sizes) && Dot(idx, t.Strides) == p ==> idx == Unravel(p, t.Sizes)
  {
    RowMajorRead(t, Unravel(p, t.Sizes));
    if ValidIndex(idx, t.Sizes) {
      UnravelDot(idx, t.Sizes);
    }
  }

  /** Two row-major descriptors over one buffer (a tensor and a View of it)
      agree element by element in row-major order. */
  lemma ReshapeKeepsOrder(a: Tensor, b: Tensor, p: int)
    requires a.IsRowMajor() && b.IsRowMajor() && a.Data == b.Data
    requires PositiveSizes(a.Sizes) && PositiveSizes(b.Sizes) && 0 <= p < a.Data.Length
    ensures a.InBuffer(Unravel(p, a.Sizes)) && b.InBuffer(Unravel(p, b.Sizes))
    ensures b.Read(Unravel(p, b.Sizes)) == a.Read(Unravel(p, a.Sizes)) == Ok(a.Data[p])
  {
    RowMajorEnumerates(a, p, []);
    RowMajorEnumerates(b, p, []);
  }

  /** A DimSlice reads, at j, the position its source reads at j with ind
      inserted at dim, less the source's offset (which DimSlice drops). */
  lemma DimSlicePosition(a: Tensor, b: Tensor, dim: nat, ind: int, j: seq<int>)
    requires a.Valid() && dim < |a.Sizes| && |j| == |a.Sizes| - 1
    requires b.Sizes == a.Sizes[..|a.Sizes| - 1] && b.Strides == RemoveAt(a.Strides, dim)
    requires b.Offset == a.Strides[dim] * ind
    ensures b.Valid()
    ensures b.Position(j) == a.Position(InsertAt(j, dim, ind)) - a.Offset
  {
    DotInsert(j, a.Strides, dim, ind);
  }

  /** On a row-major source, a DimSlice at a valid coordinate reads exactly
      the source's element with that coordinate inserted at dim, for every
      index tuple valid for the source's other axes. */
  lemma DimSliceRead(a: Tensor, b: Tensor, dim: nat, ind: int, j: seq<int>)
    requires a.IsRowMajor() && dim < |a.Sizes| && 0 <= ind < a.Sizes[dim]
    requires b.Data == a.Data && b.Sizes == a.Sizes[..|a.Sizes| - 1]
    requires b.Strides == RemoveAt(a.Strides, dim) && b.Offset == a.Strides[dim] * ind
    requires ValidIndex(j, RemoveAt(a.Sizes, dim))
    ensures b.Valid() && b.InBuffer(j) && a.InBuffer(InsertAt(j, dim, ind))
    ensures b.Read(j).Ok? && b.Read(j) == a.Read(InsertAt(j, dim, ind))
  {
    var k := InsertAt(j, dim, ind);
    ValidIndexInsert(j, a.Sizes, dim, ind);
    RowMajorRead(a, k);
    DimSlicePosition(a, b, dim, ind, j);
    ValidIndexPositive(k, a.Sizes);
    assert PositiveSizes(a.Sizes[dim + 1..]);
    ProductPositive(a.Sizes[dim + 1..]);
    assert a.Strides[dim] > 0;
    assert a.Strides[dim] * ind >= 0;
  }

  /** A write by Set is seen through every descriptor over the same buffer
      that reads the written position, and no other read changes. */
  twostate lemma SetSeenThroughAliases(u: Tensor, pos: int, val: real, j: seq<int>)
    requires u.Valid() && u.InBuffer(j) && 0 <= pos < u.Data.Length
    requires u.Data[..] == old(u.Data[..])[pos := val]
    ensures u.Read(j) ==
      if |j| == |u.Sizes| && Dot(j, u.Strides) < u.Data.Length && u.Position(j) == pos
      then Ok(val)
      else old(u.Read(j))
  {
    if |j| == |u.Sizes| && Dot(j, u.Strides) < u.Data.Length {
      assert u.Data[u.Position(j)] == u.Data[..][u.Position(j)];
      assert old(u.Data[u.Position(j)]) == old(u.Data[..])[u.Position(j)];
    }
  }
}
