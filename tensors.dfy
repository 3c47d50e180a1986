/**
 * Tensors as the model sees them: a dtype, a shape and the contiguous
 * row-major bytes of the elements, plus whether they live on the CPU; and the
 * two torch operations the package relies on, stack along dimension 1 and
 * unbind along the last dimension.
 */
module Tensors {

  import opened Wrappers
  import opened Seqs
  import opened Text
  import opened DTypes

  /** The number of elements of a shape. */
  function Numel(shape: seq<nat>): nat
  {
    if |shape| == 0 then 1 else shape[0] * Numel(shape[1..])
  }

  datatype RawTensor = RawTensor(dtype: DType, shape: seq<nat>, data: seq<byte>, onCpu: bool)

  /** A tensor holds exactly one item of its dtype's width per element of its shape. */
  type Tensor = t: RawTensor | |t.data| == Numel(t.shape) * ItemSize(t.dtype)
    witness RawTensor(UInt8, [], [0], true)

  function Rank(t: Tensor): nat { |t.shape| }

  /** Bytes per element of the first dimension: everything below it. */
  function RowSize(t: Tensor): nat
    requires Rank(t) > 0
  {
    Numel(t.shape[1..]) * ItemSize(t.dtype)
  }

  lemma RowsFill(t: Tensor)
    requires Rank(t) > 0
    ensures |t.data| == t.shape[0] * RowSize(t)
  {
    assert Numel(t.shape) == t.shape[0] * Numel(t.shape[1..]);
  }

  /** The bytes of row r of t. */
  function Row(t: Tensor, r: nat): (b: seq<byte>)
    requires Rank(t) > 0 && r < t.shape[0]
    ensures |b| == RowSize(t)
  {
    RowsFill(t);
    MulLe(r + 1, t.shape[0], RowSize(t));
    Chunk(t.data, RowSize(t), r)
  }

  predicate SameLayout(a: Tensor, b: Tensor)
  {
    a.shape == b.shape && a.dtype == b.dtype && a.onCpu == b.onCpu
  }

  predicate Stackable(ts: seq<Tensor>)
  {
    |ts| > 0 && Rank(ts[0]) > 0 && forall j | 0 <= j < |ts| :: SameLayout(ts[j], ts[0])
  }

  /** Row r of each input, in input order. */
  function RowParts(ts: seq<Tensor>, r: nat): (parts: seq<seq<byte>>)
    requires Stackable(ts) && r < ts[0].shape[0]
    ensures |parts| == |ts| && AllOfLength(parts, RowSize(ts[0]))
    ensures |Flatten(parts)| == |ts| * RowSize(ts[0])
  {
    var parts := seq(|ts|, j requires 0 <= j < |ts| => Row(ts[j], r));
    FlattenUniformLength(parts, RowSize(ts[0]));
    parts
  }

  /** The rows of a stack: for each row index, the rows of the inputs side by side. */
  function StackRows(ts: seq<Tensor>): (rows: seq<seq<byte>>)
    requires Stackable(ts)
    ensures |rows| == ts[0].shape[0] && AllOfLength(rows, |ts| * RowSize(ts[0]))
  {
    seq(ts[0].shape[0], r requires 0 <= r < ts[0].shape[0] => Flatten(RowParts(ts, r)))
  }

  function StackData(ts: seq<Tensor>): (data: seq<byte>)
    requires Stackable(ts)
    ensures |data| == ts[0].shape[0] * (|ts| * RowSize(ts[0]))
  {
    FlattenUniformLength(StackRows(ts), |ts| * RowSize(ts[0]));
    Flatten(StackRows(ts))
  }

  lemma StackShapeSize(n: nat, m: nat, rest: seq<nat>, s: nat)
    ensures Numel([n, m] + rest) * s == n * (m * (Numel(rest) * s))
  {
    var shape := [n, m] + rest;
    assert shape[1..] == [m] + rest;
    assert ([m] + rest)[1..] == rest;
  }

  /**
   * torch.stack(ts, dim=1): absent (torch raises) for no tensors, 0-dimensional
   * tensors, or tensors that differ in shape, dtype or device.
   */
  function Stack(ts: seq<Tensor>): (r: Option<Tensor>)
    ensures r.Some? <==> Stackable(ts)
    ensures r.Some? ==>
      && r.value.shape == [ts[0].shape[0], |ts|] + ts[0].shape[1..]
      && r.value.dtype == ts[0].dtype && r.value.onCpu == ts[0].onCpu
  {
    if !Stackable(ts) then None
    else
      var t0 := ts[0];
      var shape := [t0.shape[0], |ts|] + t0.shape[1..];
      StackShapeSize(t0.shape[0], |ts|, t0.shape[1..], ItemSize(t0.dtype));
      Some(RawTensor(t0.dtype, shape, StackData(ts), t0.onCpu))
  }

  /** Entry j of row r of a stack is row r of the j-th input. */
  lemma StackRow(ts: seq<Tensor>, r: nat, j: nat)
    requires Stackable(ts) && r < ts[0].shape[0] && j < |ts|
    ensures var w := RowSize(ts[0]);
      && (r * |ts| + j + 1) * w <= |Stack(ts).value.data|
      && Chunk(Stack(ts).value.data, w, r * |ts| + j) == Row(ts[j], r)
  {
    var m, w := |ts|, RowSize(ts[0]);
    ChunkOfFlatten(StackRows(ts), m * w, r);
    ChunkOfFlatten(RowParts(ts, r), w, j);
    ChunkInChunk(Stack(ts).value.data, w, m, r, j);
  }

  /** The outer dimensions of t, above the last one. */
  function Outer(t: Tensor): seq<nat>
    requires Rank(t) > 0
  {
    t.shape[..Rank(t) - 1]
  }

  function Last(t: Tensor): nat
    requires Rank(t) > 0
  {
    t.shape[Rank(t) - 1]
  }

  lemma {:induction false} NumelSnoc(a: seq<nat>, k: nat)
    ensures Numel(a + [k]) == Numel(a) * k
  {
    if |a| > 0 {
      assert (a + [k])[1..] == a[1..] + [k];
      NumelSnoc(a[1..], k);
    } else {
      assert a + [k] == [k];
    }
  }

  lemma LastSplit(t: Tensor)
    requires Rank(t) > 0
    ensures |t.data| == Numel(Outer(t)) * (Last(t) * ItemSize(t.dtype))
  {
    assert t.shape == Outer(t) + [Last(t)];
    NumelSnoc(Outer(t), Last(t));
  }

  /** Item o * m + j of t, for each o: the items at index j of the last dimension. */
  function ColumnCells(t: Tensor, j: nat): (cells: seq<seq<byte>>)
    requires Rank(t) > 0 && j < Last(t)
    ensures |cells| == Numel(Outer(t)) && AllOfLength(cells, ItemSize(t.dtype))
  {
    var outer, m, s := Numel(Outer(t)), Last(t), ItemSize(t.dtype);
    LastSplit(t);
    seq(outer, o requires 0 <= o < outer => GridBound(o, outer, j, m, s); Chunk(t.data, s, o * m + j))
  }

  /** Element j of t.unbind(dim=-1): the slice at index j of the last dimension. */
  function Column(t: Tensor, j: nat): (c: Tensor)
    requires Rank(t) > 0 && j < Last(t)
    ensures c.shape == Outer(t) && c.dtype == t.dtype && c.onCpu == t.onCpu
  {
    FlattenUniformLength(ColumnCells(t, j), ItemSize(t.dtype));
    RawTensor(t.dtype, Outer(t), Flatten(ColumnCells(t, j)), t.onCpu)
  }

  /** Item o of a column is item o * m + j of the tensor it was taken from. */
  lemma ColumnItem(t: Tensor, j: nat, o: nat)
    requires Rank(t) > 0 && j < Last(t) && o < Numel(Outer(t))
    ensures var s, m := ItemSize(t.dtype), Last(t);
      && (o + 1) * s <= |Column(t, j).data|
      && (o * m + j + 1) * s <= |t.data|
      && Chunk(Column(t, j).data, s, o) == Chunk(t.data, s, o * m + j)
  {
    var outer, m, s := Numel(Outer(t)), Last(t), ItemSize(t.dtype);
    LastSplit(t);
    GridBound(o, outer, j, m, s);
    ChunkOfFlatten(ColumnCells(t, j), s, o);
  }

  /** The columns of a matrix, t.unbind(-1). */
  function Columns(t: Tensor): (cs: seq<Tensor>)
    requires Rank(t) > 0
    ensures |cs| == Last(t)
  {
    seq(Last(t), j requires 0 <= j < Last(t) => Column(t, j))
  }

  predicate IsMatrix(t: Tensor) { Rank(t) == 2 && t.shape[1] > 0 }

  lemma MatrixFacts(t: Tensor)
    requires IsMatrix(t)
    ensures Outer(t) == [t.shape[0]] && Numel(Outer(t)) == t.shape[0]
    ensures |t.data| == t.shape[0] * (t.shape[1] * ItemSize(t.dtype))
    ensures forall j | 0 <= j < t.shape[1] :: Rank(Column(t, j)) == 1 && RowSize(Column(t, j)) == ItemSize(t.dtype)
  {
    LastSplit(t);
    assert Numel([t.shape[0]]) == t.shape[0];
    forall j | 0 <= j < t.shape[1] ensures RowSize(Column(t, j)) == ItemSize(t.dtype) {
      assert Column(t, j).shape[1..] == [];
    }
  }

  /** Entry j of row r of the columns is item r * m + j of the matrix. */
  lemma ColumnsRowEntry(t: Tensor, r: nat, j: nat)
    requires IsMatrix(t) && r < t.shape[0] && j < t.shape[1]
    ensures Stackable(Columns(t)) && Columns(t)[0].shape[0] == t.shape[0]
    ensures var m, s := t.shape[1], ItemSize(t.dtype);
      && 0 <= r * m
      && (r * m + j + 1) * s <= |t.data|
      && RowParts(Columns(t), r)[j] == Chunk(t.data, s, r * m + j)
  {
    var n, m, s := t.shape[0], t.shape[1], ItemSize(t.dtype);
    MulNonneg(r, m);
    MatrixFacts(t);
    ColumnItem(t, j, r);
  }

  /** Row r of the columns is the m items of row r of the matrix. */
  lemma ColumnsRowParts(t: Tensor, r: nat)
    requires IsMatrix(t) && r < t.shape[0]
    ensures Stackable(Columns(t)) && Columns(t)[0].shape[0] == t.shape[0]
    ensures var m, s := t.shape[1], ItemSize(t.dtype);
      && (r * m + m) * s <= |t.data|
      && RowParts(Columns(t), r) == Chunks(t.data, s, r * m, m)
  {
    var n, m, s := t.shape[0], t.shape[1], ItemSize(t.dtype);
    MatrixFacts(t);
    GridBound(r, n, m - 1, m, s);
    MulNonneg(r, m);
    var cols := Columns(t);
    var parts, chunks := RowParts(cols, r), Chunks(t.data, s, r * m, m);
    forall j | 0 <= j < m
      ensures parts[j] == chunks[j]
    {
      ColumnsRowEntry(t, r, j);
    }
    SeqExt(parts, chunks);
  }

  /** Row r of the columns, laid side by side, is row r of the matrix. */
  lemma ColumnsRow(t: Tensor, r: nat)
    requires IsMatrix(t) && r < t.shape[0]
    ensures Stackable(Columns(t))
    ensures var m, s := t.shape[1], ItemSize(t.dtype);
      && (r + 1) * (m * s) <= |t.data|
      && Flatten(RowParts(Columns(t), r)) == Chunk(t.data, m * s, r)
  {
    var m, s := t.shape[1], ItemSize(t.dtype);
    ColumnsRowParts(t, r);
    MulNonneg(r, m);
    FlattenChunks(t.data, s, r * m, m);
    RowSpan(r, m, s);
  }

  /**
   * Stacking the columns of an N-by-m matrix (m > 0) along dimension 1 gives
   * the matrix back: column j of the stack is column j of the original.
   */
  lemma StackColumns(t: Tensor)
    requires IsMatrix(t)
    ensures Stack(Columns(t)) == Some(t)
  {
    var n, m, s := t.shape[0], t.shape[1], ItemSize(t.dtype);
    var cols := Columns(t);
    MatrixFacts(t);
    assert Stackable(cols);
    forall r | 0 <= r < n
      ensures StackRows(cols)[r] == Chunks(t.data, m * s, 0, n)[r]
    {
      ColumnsRow(t, r);
    }
    SeqExt(StackRows(cols), Chunks(t.data, m * s, 0, n));
    FlattenChunks(t.data, m * s, 0, n);
    assert t.data[0..n * (m * s)] == t.data;
    var st := Stack(cols).value;
    assert st.data == t.data;
    assert st.shape == [n, m] + [];
    assert t.shape == [n, m];
    assert st.shape == t.shape;
  }
}
