/** The row-major Matrix of simple_transformer/simple_attn.go: its shape
    check and product loop, in-place transpose, row slicing and argmax. The
    float32 entries are modelled as `real`; MatMul takes the element
    addition and multiplication as parameters. */
module Matrices {
  import opened Outcomes
  import opened IndexArith

  /** MatMul's panic on mismatched inner dimensions. */
  datatype Error = InvalidDimensions

  /** The flat position of (row, col) in a row-major matrix with `cols`
      columns. */
  function Cell(row: int, col: int, cols: int): int
  {
    row * cols + col
  }

  lemma CellBound(i: int, j: int, rows: int, cols: int)
    requires 0 <= i < rows && 0 <= j < cols
    ensures 0 <= Cell(i, j, cols) < rows * cols
  {
    MulStrictBound(i, j, cols, rows);
  }

  /** The position of a cell gives back its row and column. */
  lemma CellParts(i: int, j: int, cols: int)
    requires 0 <= j < cols
    ensures Cell(i, j, cols) / cols == i && Cell(i, j, cols) % cols == j
  {
    DivModOf(i, j, cols);
  }

  lemma CellOfPosition(p: int, rows: int, cols: int)
    requires 0 <= rows && 0 <= p < rows * cols
    ensures cols > 0 && 0 <= p / cols < rows && 0 <= p % cols < cols
    ensures Cell(p / cols, p % cols, cols) == p
  {
    MulMonotone(cols, 0, rows);
    DivBelow(p, cols, rows);
  }

  /** Position p of a transpose (rows x cols source, so p's column of the
      source is p % rows and its row p / rows) has been written once the
      source's loops have passed row i, column j. */
  predicate Visited(p: int, rows: int, i: int, j: int)
  {
    rows > 0 && (p % rows < i || (p % rows == i && p / rows < j))
  }

  /** r agrees with t at every position the transpose loops have written
      once they have passed row i, column j. */
  predicate AgreesOn(r: seq<real>, t: seq<real>, rows: int, i: int, j: int)
  {
    |r| == |t| && forall p :: 0 <= p < |r| && Visited(p, rows, i, j) ==> r[p] == t[p]
  }

  /** Writing position (j, i) of the transpose extends the agreement to
      column j + 1 of row i. */
  lemma AgreesOnStep(r: seq<real>, t: seq<real>, rows: nat, cols: nat, i: int, j: int)
    requires |r| == rows * cols && 0 <= i < rows && 0 <= j < cols && AgreesOn(r, t, rows, i, j)
    ensures 0 <= Cell(j, i, rows) < |r|
    ensures AgreesOn(r[Cell(j, i, rows) := t[Cell(j, i, rows)]], t, rows, i, j + 1)
  {
    CellBound(j, i, cols, rows);
    CellParts(j, i, rows);
    var r' := r[Cell(j, i, rows) := t[Cell(j, i, rows)]];
    forall p | 0 <= p < |r'| && Visited(p, rows, i, j + 1)
      ensures r'[p] == t[p]
    {
      CellOfPosition(p, cols, rows);
    }
  }

  /** Finishing row i of the source is starting row i + 1. */
  lemma AgreesOnRow(r: seq<real>, t: seq<real>, rows: nat, cols: nat, i: int)
    requires |r| == rows * cols && AgreesOn(r, t, rows, i, cols)
    ensures AgreesOn(r, t, rows, i + 1, 0)
  {
    forall p | 0 <= p < |r| && Visited(p, rows, i + 1, 0)
      ensures r[p] == t[p]
    {
      CellOfPosition(p, cols, rows);
    }
  }

  /** Once every row is done, r is t. */
  lemma AgreesOnAll(r: seq<real>, t: seq<real>, rows: nat, cols: nat)
    requires |r| == rows * cols && AgreesOn(r, t, rows, rows, 0)
    ensures r == t
  {
    forall p | 0 <= p < |r|
      ensures r[p] == t[p]
    {
      CellOfPosition(p, cols, rows);
    }
  }

  // ---------------------------------------------------------------------
  // Specification functions
  // ---------------------------------------------------------------------

  /** The rows x cols matrix stored in d, transposed (row-major, cols x rows). */
  function Transpose(d: seq<real>, rows: nat, cols: nat): (t: seq<real>)
    requires rows * cols <= |d|
    ensures |t| == rows * cols
  {
    seq(rows * cols, p requires 0 <= p < rows * cols =>
      CellOfPosition(p, cols, rows);
      CellBound(p % rows, p / rows, rows, cols);
      d[Cell(p % rows, p / rows, cols)])
  }

  /** Entry (i, j) of the transpose is entry (j, i) of the matrix. */
  lemma TransposeAt(d: seq<real>, rows: nat, cols: nat, i: int, j: int)
    requires rows * cols <= |d| && 0 <= i < rows && 0 <= j < cols
    ensures 0 <= Cell(j, i, rows) < rows * cols && 0 <= Cell(i, j, cols) < rows * cols
    ensures Transpose(d, rows, cols)[Cell(j, i, rows)] == d[Cell(i, j, cols)]
  {
    CellBound(j, i, cols, rows);
    CellBound(i, j, rows, cols);
    CellParts(j, i, rows);
  }

  /** Transposing twice gives back the matrix. */
  lemma TransposeTwice(d: seq<real>, rows: nat, cols: nat)
    requires |d| == rows * cols
    ensures Transpose(Transpose(d, rows, cols), cols, rows) == d
  {
    var t := Transpose(d, rows, cols);
    var u := Transpose(t, cols, rows);
    forall p | 0 <= p < |d|
      ensures u[p] == d[p]
    {
      CellOfPosition(p, rows, cols);
      var i, j := p / cols, p % cols;
      TransposeAt(t, cols, rows, j, i);
      TransposeAt(d, rows, cols, i, j);
    }
  }

  /** The sum, in the order the source's innermost loop accumulates it, of
      the first k products of row i of x (x has xCols columns) and column j
      of y (y has yCols columns), starting from the zero of make. */
  function Entry(x: seq<real>, xRows: nat, xCols: nat, y: seq<real>, yCols: nat,
                 i: int, j: int, k: nat,
                 add: (real, real) -> real, mul: (real, real) -> real): real
    requires xRows * xCols <= |x| && xCols * yCols <= |y|
    requires 0 <= i < xRows && 0 <= j < yCols && k <= xCols
    decreases k
  {
    if k == 0 then 0.0
    else
      CellBound(i, k - 1, xRows, xCols);
      CellBound(k - 1, j, xCols, yCols);
      add(Entry(x, xRows, xCols, y, yCols, i, j, k - 1, add, mul),
          mul(x[Cell(i, k - 1, xCols)], y[Cell(k - 1, j, yCols)]))
  }

  /** The product of an xRows x xCols and an xCols x yCols matrix, row-major. */
  function Product(x: seq<real>, xRows: nat, xCols: nat, y: seq<real>, yCols: nat,
                   add: (real, real) -> real, mul: (real, real) -> real): (r: seq<real>)
    requires xRows * xCols <= |x| && xCols * yCols <= |y|
    ensures |r| == xRows * yCols
  {
    seq(xRows * yCols, p requires 0 <= p < xRows * yCols =>
      CellOfPosition(p, xRows, yCols);
      Entry(x, xRows, xCols, y, yCols, p / yCols, p % yCols, xCols, add, mul))
  }

  /** Entry (i, j) of the product is the full row-by-column sum. */
  lemma ProductAt(x: seq<real>, xRows: nat, xCols: nat, y: seq<real>, yCols: nat,
                  add: (real, real) -> real, mul: (real, real) -> real, i: int, j: int)
    requires xRows * xCols <= |x| && xCols * yCols <= |y|
    requires 0 <= i < xRows && 0 <= j < yCols
    ensures 0 <= Cell(i, j, yCols) < xRows * yCols
    ensures Product(x, xRows, xCols, y, yCols, add, mul)[Cell(i, j, yCols)]
         == Entry(x, xRows, xCols, y, yCols, i, j, xCols, add, mul)
  {
    CellBound(i, j, xRows, yCols);
    CellParts(i, j, yCols);
  }

  /** A Go slice expression buf[lo:hi]: a window onto a shared buffer. */
  datatype Slice = Slice(buf: array<real>, lo: int, hi: int)
  {
    predicate Valid()
    {
      0 <= lo <= hi <= buf.Length
    }

    function Elements(): seq<real>
      reads buf
      requires Valid()
    {
      buf[lo..hi]
    }
  }

  // ---------------------------------------------------------------------
  // The matrix
  // ---------------------------------------------------------------------

  class Matrix {
    var Rows: int
    var Cols: int
    var Data: array<real>

    /** The composite literal Matrix{Rows, Cols, Data}. */
    constructor Literal(rows: int, cols: int, data: array<real>)
      ensures Rows == rows && Cols == cols && Data == data
    {
      Rows, Cols, Data := rows, cols, data;
    }

    /** Non-negative dimensions and at least Rows*Cols entries: the shapes
        every caller passes to T and MatMul, and within which their loops
        index. It also rules out degenerate shapes (a negative dimension, or
        a short buffer no loop reads) on which Go returns normally. */
    predicate WellFormed()
      reads this
    {
      0 <= Rows && 0 <= Cols && Rows * Cols <= Data.Length
    }

    /** T: fills a fresh buffer with the transpose, then makes it the
        receiver's Data and swaps Rows and Cols; returns a copy of the
        receiver (sharing the new buffer). */
    method T() returns (copy: Matrix)
      requires WellFormed()
      modifies this
      ensures Rows == old(Cols) && Cols == old(Rows) && WellFormed()
      ensures fresh(Data) && Data.Length == old(Rows) * old(Cols)
      ensures Data[..] == Transpose(old(Data[..]), old(Rows), old(Cols))
      ensures fresh(copy) && copy.Rows == Rows && copy.Cols == Cols && copy.Data == Data
    {
      var res := TransposeLoops(Data, Rows, Cols);
      Data := res;
      Rows, Cols := Cols, Rows;
      assert Rows * Cols == Cols * Rows;
      copy := new Matrix.Literal(Rows, Cols, Data);
    }

    /** Row: the slice Data[i*Cols : (i+1)*Cols], sharing the buffer. Go
        bounds a slice expression by the capacity of Data; the model bounds
        it by the length, which is the capacity at the only call of Row. */
    function Row(i: int): (s: Slice)
      reads this, Data
      requires 0 <= i * Cols <= (i + 1) * Cols <= Data.Length
      ensures s.Valid() && s.buf == Data
      ensures |s.Elements()| == Cols
      ensures forall k :: 0 <= k < Cols ==> s.Elements()[k] == Data[i * Cols + k]
    {
      Slice(Data, i * Cols, (i + 1) * Cols)
    }

    /** Argmax: the first position of a largest entry of Data; Go panics on
        an empty buffer. */
    method Argmax() returns (argmax: int)
      requires Data.Length > 0
      ensures 0 <= argmax < Data.Length
      ensures forall k :: 0 <= k < Data.Length ==> Data[k] <= Data[argmax]
      ensures forall k :: 0 <= k < argmax ==> Data[k] < Data[argmax]
    {
      var max := Data[0];
      argmax := 0;
      for i := 1 to Data.Length
        invariant 0 <= argmax < i && max == Data[argmax]
        invariant forall k :: 0 <= k < i ==> Data[k] <= max
        invariant forall k :: 0 <= k < argmax ==> Data[k] < max
      {
        if Data[i] > max {
          max := Data[i];
          argmax := i;
        }
      }
    }
  }

  /** The nested loops of T: a fresh buffer whose entry j*rows + i is entry
      i*cols + j of src. */
  method TransposeLoops(src: array<real>, rows: nat, cols: nat) returns (res: array<real>)
    requires rows * cols <= src.Length
    ensures fresh(res) && res[..] == Transpose(src[..], rows, cols)
  {
    ghost var target := Transpose(src[..], rows, cols);
    res := new real[rows * cols](_ => 0.0);
    for i := 0 to rows
      invariant AgreesOn(res[..], target, rows, i, 0)
    {
      for j := 0 to cols
        invariant AgreesOn(res[..], target, rows, i, j)
      {
        TransposeAt(src[..], rows, cols, i, j);
        AgreesOnStep(res[..], target, rows, cols, i, j);
        ghost var before := res[..];
        res[Cell(j, i, rows)] := src[Cell(i, j, cols)];
        assert res[..] == before[Cell(j, i, rows) := target[Cell(j, i, rows)]];
      }
      AgreesOnRow(res[..], target, rows, cols, i);
    }
    AgreesOnAll(res[..], target, rows, cols);
  }

  /** On a well-formed matrix the rows tile the first Rows*Cols entries in
      order: entry p is column p % Cols of row p / Cols. */
  lemma RowsTile(m: Matrix, p: int)
    requires m.WellFormed() && 0 <= p < m.Rows * m.Cols
    ensures 0 <= (p / m.Cols) * m.Cols <= (p / m.Cols + 1) * m.Cols <= m.Data.Length
    ensures 0 <= p % m.Cols < m.Cols && m.Row(p / m.Cols).Elements()[p % m.Cols] == m.Data[p]
  {
    var i := p / m.Cols;
    CellOfPosition(p, m.Rows, m.Cols);
    MulStrictBound(i, 0, m.Cols, m.Rows);
    MulMonotone(i + 1, m.Rows, m.Cols);
  }

  /** The innermost loop of MatMul: accumulates row i of x times column j
      of y into res[i*y.Cols + j], leaving every other entry of res alone. */
  method AccumulateEntry(res: array<real>, x: Matrix, y: Matrix, i: int, j: int,
                         add: (real, real) -> real, mul: (real, real) -> real)
    requires x.WellFormed() && y.WellFormed() && x.Cols == y.Rows
    requires res != x.Data && res != y.Data && res.Length == x.Rows * y.Cols
    requires 0 <= i < x.Rows && 0 <= j < y.Cols
    requires 0 <= Cell(i, j, y.Cols) < res.Length && res[Cell(i, j, y.Cols)] == 0.0
    modifies res
    ensures res[Cell(i, j, y.Cols)] ==
      Entry(x.Data[..], x.Rows, x.Cols, y.Data[..], y.Cols, i, j, x.Cols, add, mul)
    ensures forall p :: 0 <= p < res.Length && p != Cell(i, j, y.Cols) ==> res[p] == old(res[p])
  {
    var n, m, k := x.Rows, x.Cols, y.Cols;
    ghost var xs, ys := x.Data[..], y.Data[..];
    ghost var q := Cell(i, j, k);
    for l := 0 to m
      invariant res[q] == Entry(xs, n, m, ys, k, i, j, l, add, mul)
      invariant forall p :: 0 <= p < res.Length && p != q ==> res[p] == old(res[p])
    {
      CellBound(i, l, n, m);
      CellBound(l, j, m, k);
      res[i * k + j] := add(res[i * k + j], mul(x.Data[i * m + l], y.Data[l * k + j]));
    }
  }

  /** MatMul: panics unless x.Cols == y.Rows; otherwise an x.Rows x y.Cols
      matrix whose entry (i, j) accumulates add(acc, mul(x[i][k], y[k][j]))
      over k from the zero value. x and y are only read. */
  method MatMul(x: Matrix, y: Matrix, add: (real, real) -> real, mul: (real, real) -> real)
    returns (r: Result<Matrix, Error>)
    requires x.Cols == y.Rows ==> x.WellFormed() && y.WellFormed()
    ensures r.Err? <==> x.Cols != y.Rows
    ensures r.Err? ==> r.error == InvalidDimensions
    ensures r.Ok? ==>
      fresh(r.value) && fresh(r.value.Data) &&
      r.value.Rows == x.Rows && r.value.Cols == y.Cols && r.value.Data.Length == x.Rows * y.Cols &&
      r.value.Data[..] == Product(x.Data[..], x.Rows, x.Cols, y.Data[..], y.Cols, add, mul)
  {
    if x.Cols != y.Rows {
      return Err(InvalidDimensions);
    }
    var n, m, k := x.Rows, x.Cols, y.Cols;
    ghost var target := Product(x.Data[..], n, m, y.Data[..], k, add, mul);
    var res := new real[n * k](_ => 0.0);
    ghost var q := 0;  // the position i*k + j the loops are at
    for i := 0 to n
      invariant q == Cell(i, 0, k)
      invariant forall p :: 0 <= p < res.Length ==> res[p] == if p < q then target[p] else 0.0
    {
      for j := 0 to k
        invariant q == Cell(i, j, k)
        invariant forall p :: 0 <= p < res.Length ==> res[p] == if p < q then target[p] else 0.0
      {
        CellBound(i, j, n, k);
        AccumulateEntry(res, x, y, i, j, add, mul);
        ProductAt(x.Data[..], n, m, y.Data[..], k, add, mul, i, j);
        q := q + 1;
      }
      MulSucc(i, k);
    }
    assert q == n * k;
    assert res[..] == target;
    var product := new Matrix.Literal(n, k, res);
    return Ok(product);
  }

  /** Calling T twice on a matrix whose buffer holds exactly Rows*Cols
      entries restores its Rows, Cols and entries (in a new buffer). */
  method TransposeTwiceRestores(m: Matrix)
    requires m.WellFormed() && m.Data.Length == m.Rows * m.Cols
    modifies m
    ensures m.Rows == old(m.Rows) && m.Cols == old(m.Cols)
    ensures m.Data[..] == old(m.Data[..])
  {
    ghost var d, r, c := m.Data[..], m.Rows, m.Cols;
    var _ := m.T();
    var _ := m.T();
    TransposeTwice(d, r, c);
  }
}
