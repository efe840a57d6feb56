# Strided tensors and row-major matrices of deep-learning-go, in Dafny

This project models two small pieces of the deep-learning-go repository. It
proves what their index arithmetic does.

- Package `tensor` (tensor/tensor.go). A `Tensor` is a descriptor made of
  `Sizes`, `Strides` and an `Offset`. It sits over a flat `float64` buffer
  that several descriptors may share. The package has:
  - `NewTensor`, which builds a descriptor with row-major strides;
  - `At`, a checked read;
  - `Set`, an unchecked write;
  - `View`, a reshape that copies nothing;
  - `DimSlice`, which fixes one axis;
  - the helpers `prod` and `calcualteStrides`.

  Module `Tensors` (tensor.dfy) models it as a class `Tensor`:
  - the descriptor fields are constants, since no operation reassigns them;
  - `Data` is an `array<real>` that views share;
  - `Set` writes into `Data`.

  Each loop is proved against a pure specification function:
  `Product`, `RowMajorStrides`, `Dot`, and `Read` for what `At` returns.
  `Unravel` inverts `Dot` against the row-major strides. The lemmas build on it:
  - reading a row-major descriptor enumerates its buffer in order, one index
    tuple per position;
  - a `View` of a row-major descriptor agrees with it element by element;
  - a `DimSlice` of a row-major descriptor (offset 0) reads it with the fixed
    coordinate inserted;
  - a `Set` is seen through every descriptor over the same buffer, and no
    other read changes.
- The `Matrix` of simple_transformer/simple_attn.go. This is a row-major
  `float32` matrix, modelled in module `Matrices` (matrix.dfy) as a class:
  - `MatMul`, with its shape check and triple product loop. The element
    addition and multiplication are parameters;
  - the in-place transpose `T`;
  - `Row` slicing, where the result is a window (`Slice`) onto the matrix's
    own buffer;
  - `Argmax`, the first position of a maximum.

  `Transpose` and `Product` are the specification functions for `T` and
  `MatMul`. Transposing twice restores the matrix when its buffer holds
  exactly `Rows*Cols` entries (`T` keeps only that many). The nested loops of `T`
  and the innermost loop of `MatMul` are separate methods
  (`TransposeLoops`, `AccumulateEntry`), each proved on its own.

The package's own behaviour is reproduced as written, including these quirks:
- `At` compares the flat index with `len(Data)` before adding `Offset`
  (tensor/tensor.go:39-42). The read itself also needs `Offset + index` in
  range. Go panics when it is not, so `At` requires it (`Tensor.InBuffer`).
- `Set` ignores `Offset` and checks neither arity nor bounds
  (tensor/tensor.go:45-51).
- `DimSlice` keeps the first rank-1 sizes, not the sizes with axis `dim`
  removed. It also drops the source's `Offset` (tensor/tensor.go:68-71, 80).
  A slice of a slice whose source has a non-zero offset therefore reads the
  wrong elements. The scenario
  `ChainedSliceLosesOffset` shows this.
- `NewTensor` never compares `prod(sizes)` with `len(data)`
  (tensor/tensor.go:23-28).
- `View` measures the whole buffer, not the descriptor it is called on
  (tensor/tensor.go:54).

Aborts are modelled in two ways:
- `log.Fatal` and explicit `panic` calls become an `Err` value of
  `Outcomes.Result`;
- Go's own runtime panics (index out of range, negative `make` length) become
  preconditions.

The test cases of tensor/tensor_test.go, plus one concrete case per matrix
operation, are written as verified client methods. They are in
`TensorScenarios` (tensor_scenarios.dfy) and `MatrixScenarios`
(matrix_scenarios.dfy). `IndexArith` (arith.dfy) holds the lemmas about
multiplication, division and remainder that both index schemes use.

## Model

| member | source | states |
|---|---|---|
| Tensors.Prod | tensor/tensor.go:89-95 | the running product over the sizes is `Product(s)`, the product of all sizes, 1 for none |
| Tensors.CalculateStrides | tensor/tensor.go:97-105 | the right-to-left loop yields exactly `RowMajorStrides(sizes)`: one stride per axis, each the product of the later sizes |
| Tensors.StridesRecurrence | tensor/tensor.go:89-105 | the last stride is 1; each stride is the next one times the next size; the first stride times the first size is `prod(sizes)`; the empty product is 1 and empty sizes give empty strides |
| Tensors.ProductSnoc | tensor/tensor.go:89-95 | appending a size multiplies the product by it, which is the step `prod` takes |
| Tensors.RowMajorBound | tensor/tensor.go:97-105 | under row-major strides every in-range index tuple maps into `[0, prod(sizes))` |
| Tensors.Unravel | tensor/tensor.go:97-105 | every position below `prod(sizes)` is reached by an in-range index tuple under the row-major strides |
| Tensors.UnravelDot | tensor/tensor.go:97-105 | distinct in-range index tuples reach distinct positions: `Unravel` recovers the tuple from its position |
| Tensors.Tensor.NewTensor | tensor/tensor.go:14-29 | an empty buffer gives a fresh empty buffer, empty sizes and strides, offset 0, whatever the sizes; otherwise the buffer is kept by reference with the given sizes, row-major strides and offset 0, and the shape is not checked against the buffer |
| Tensors.Tensor.At | tensor/tensor.go:31-43 | fails on wrong arity; fails when `Σ idx[i]*Strides[i] >= len(Data)`, offset not included; otherwise returns `Data[Offset + Σ idx[i]*Strides[i]]`, changing nothing |
| Tensors.Tensor.Set | tensor/tensor.go:45-51 | the buffer afterwards is the old buffer with only position `Σ idx[i]*Strides[i]` over the first rank-many indices replaced by `val`, offset ignored |
| Tensors.Tensor.View | tensor/tensor.go:53-64 | fails exactly when `prod(newSizes) != len(Data)`; otherwise a new descriptor sharing `Data` with the new sizes, row-major strides and offset 0 |
| Tensors.Tensor.DimSlice | tensor/tensor.go:66-87 | a new descriptor sharing `Data`; sizes are the first rank-1 sizes; strides are the old ones with position `dim` removed, order kept; offset is `Strides[dim]*ind` |
| Tensors.DotInsert | tensor/tensor.go:72-80 | fixing axis `k` at `x` adds `x*strides[k]` to the flat index of the other axes under the remaining strides |
| Tensors.RowMajorRead | tensor/tensor.go:31-43 | on a row-major descriptor every in-range index tuple passes both checks and reads the buffer at its row-major position |
| Tensors.RowMajorEnumerates | tensor/tensor.go:14-43 | on a row-major descriptor each buffer position is read by exactly one in-range index tuple, so `At` reads the data in row-major order |
| Tensors.ReshapeKeepsOrder | tensor/tensor.go:53-64 | a row-major descriptor and a View of it over the same buffer read the same element at every row-major position |
| Tensors.DimSlicePosition | tensor/tensor.go:66-87 | a slice reads at `j` the position its source reads at `j` with `ind` inserted at `dim`, less the source's offset |
| Tensors.DimSliceRead | tensor/tensor.go:66-87 | on a row-major source, a slice at an in-range `ind` succeeds and reads the source's element with `ind` inserted at `dim`, for every tuple in range for the other axes |
| Tensors.SetSeenThroughAliases | tensor/tensor.go:45-51 | after a write at one buffer position, any descriptor over that buffer reads the new value at tuples that reach the position and the old result everywhere else |
| Matrices.MatMul | simple_transformer/simple_attn.go:39-56 | fails exactly when `x.Cols != y.Rows`; otherwise a new x.Rows by y.Cols matrix over a new buffer of `x.Rows*y.Cols` entries holding the row-by-column product; the inputs are not written |
| Matrices.AccumulateEntry | simple_transformer/simple_attn.go:46-48 | the innermost loop leaves entry `i*y.Cols + j` holding the accumulated row-by-column sum and every other entry of the result buffer as it was |
| Matrices.ProductAt | simple_transformer/simple_attn.go:44-50 | entry (i, j) of the product is the accumulation, from zero, of `x[i][k] * y[k][j]` for k in order |
| Matrices.Matrix.T | simple_transformer/simple_attn.go:58-68 | Rows and Cols are swapped in place; Data becomes a new buffer of `Rows*Cols` entries holding the transpose; the returned copy shows the new dimensions and buffer |
| Matrices.TransposeLoops | simple_transformer/simple_attn.go:59-64 | the nested loops fill a new buffer of `rows*cols` entries with exactly the transpose of the source |
| Matrices.TransposeAt | simple_transformer/simple_attn.go:60-64 | new `Data[j*oldRows + i]` is old `Data[i*oldCols + j]` for every `i < oldRows`, `j < oldCols` |
| Matrices.TransposeTwice | simple_transformer/simple_attn.go:58-68 | transposing a rows by cols buffer and then the cols by rows result gives back the buffer |
| Matrices.TransposeTwiceRestores | simple_transformer/simple_attn.go:58-68 | calling T twice restores Rows, Cols and the entries of a matrix whose buffer holds exactly Rows*Cols values |
| Matrices.Matrix.Row | simple_transformer/simple_attn.go:144-146 | the slice is a window onto the matrix's own buffer with exactly Cols elements, element k being `Data[i*Cols + k]` |
| Matrices.RowsTile | simple_transformer/simple_attn.go:144-146 | the rows tile the matrix: entry p is element `p % Cols` of row `p / Cols` |
| Matrices.Matrix.Argmax | simple_transformer/simple_attn.go:148-158 | on a non-empty buffer the result is in range, its entry is at least every entry, and every earlier entry is strictly smaller: it is the first maximum |

## Left out

- `Softmax`, `LayerNorm`, `Normalize`, `Apply`, `Add` and `SelfAttention` are float32 numerics built on exp, sqrt and rounding. They are not part of this model.
- Matrices.MatMul: the element arithmetic is abstracted as the `add` and `mul` parameters, so float32 rounding is not modelled. The accumulation order and the zero start value are modelled.
- `loadDataset`, `LoadPretrainedWeights` and `main` do file, CSV and binary I/O. They are not modelled.
- `RandomMatrix` and `NewModelWeights` depend on a random number generator. They are not modelled.
- The root simple_attn.go wraps the gonum `mat` library, which is not part of this model. simple_transformer/transformer.py is a PyTorch training script and is not modelled.
- Go's `int` is 64 bits wide, but the model uses unbounded integers. Products of sizes, strides and flat indices that would wrap around in Go are not modelled.
- Matrices.Matrix.Argmax: the entries are reals, so float32 NaN comparisons are not modelled.
- Tensors.Tensor.At: it requires that `Offset + index` lies within `Data` whenever the package's own check passes, because Go panics otherwise.
- Tensors.Tensor.Set: it requires at least rank-many indices and a flat index within `Data`, because Go panics otherwise.
- Tensors.Tensor.DimSlice: it requires `0 <= dim < rank`, because Go panics otherwise.
- Matrices.Matrix.T and Matrices.MatMul: they require well-formed shapes (non-negative dimensions and at least `Rows*Cols` buffer entries), which every caller in simple_attn.go meets (`SelfAttention`, `Forward`, `main`). This also excludes degenerate shapes on which Go returns without panicking: a negative dimension whose product with the other is non-negative (`make` accepts it and no loop runs), or a short buffer that an empty loop never reads.
- Go nil slices are represented as empty arrays.
- Matrices.Matrix.Row: slice capacity is not modelled. A Go slice expression may reach up to `cap(Data)`, but `Row` is bounded by `len(Data)`. The two are equal at the only call of `Row` (`LayerNorm`, whose receivers are a `MatMul` result and, in simple_attn_test.go, a composite literal).
- The `Sizes` slice a caller passes to `NewTensor` or `View` is kept as an immutable sequence. Later writes by the caller to that slice are not modelled. `Data` itself is a shared array, so aliasing of the buffer is modelled.
- Matrices.Matrix.T: the Go method returns the receiver's struct by value. The model returns a fresh `Matrix` with the same fields.
- `Matrix` values in Go are copied structs that share their buffer. The model passes them as references. None of the modelled operations writes to its matrix arguments, so this makes no difference. (`Tensor` is only ever used through `*Tensor`, so references model it exactly.)
