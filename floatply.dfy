/**
 * The float-only fast path of main.cpp: write_float_ply writes a fixed
 * header for one element "vertex" of float properties and then the raw
 * float32 matrix; read_float_ply takes the property names from the parsed
 * header and the matrix from the last rows * columns * 4 bytes of the file.
 */
module FloatPly {

  import opened Wrappers
  import opened Seqs
  import opened Text
  import opened Errors
  import opened DTypes
  import opened Tensors
  import opened PlyRead
  import PlyWrite

  const FloatFormat: string := "format binary_little_endian 1.0"

  function VertexLine(rows: nat): string
  {
    "element vertex " + NatToString(rows)
  }

  function FloatPropLines(props: seq<string>): (lines: seq<string>)
    ensures |lines| == |props|
  {
    seq(|props|, i requires 0 <= i < |props| => "property float " + props[i])
  }

  /** The header of write_float_ply, one line per std::endl. */
  function FloatHeaderLines(rows: nat, props: seq<string>): seq<string>
  {
    ["ply", FloatFormat, VertexLine(rows)] + FloatPropLines(props) + ["end_header"]
  }

  /**
   * write_float_ply as a value: the output must open, the data be a
   * two-dimensional float32 matrix on the CPU with one column per name;
   * the checks run in that order. The file is the header, then the matrix.
   */
  function WriteFloatPlySpec(isOpen: bool, data: Tensor, props: seq<string>): Result<seq<byte>, CodecError>
  {
    if !isOpen then Failure(CannotCreate)
    else if Rank(data) != 2 then Failure(NotTwoDimensional)
    else if data.shape[1] != |props| then Failure(ColumnCountMismatch)
    else if !data.onCpu then Failure(NotOnCpu)
    else if data.dtype != Float32 then Failure(NotFloat32)
    else Success(Utf8(JoinLines(FloatHeaderLines(data.shape[0], props))) + data.data)
  }

  /** A float32 matrix holds 4 bytes per entry. */
  lemma FloatMatrixSize(data: Tensor)
    requires Rank(data) == 2 && data.dtype == Float32
    ensures |data.data| == 4 * data.shape[0] * data.shape[1]
  {
    var rows, cols := data.shape[0], data.shape[1];
    FloatShapeSize(rows, cols);
    assert data.shape == [rows, cols];
  }

  /** A property line more in the loop of write_float_ply. */
  lemma FloatPropStep(first: seq<string>, props: seq<string>, i: nat)
    requires i < |props|
    ensures JoinLines(first + FloatPropLines(props[..i + 1]))
         == JoinLines(first + FloatPropLines(props[..i])) + "property float " + props[i] + "\n"
  {
    var line := "property float " + props[i];
    assert FloatPropLines(props[..i + 1]) == FloatPropLines(props[..i]) + [line];
    assert first + FloatPropLines(props[..i + 1]) == (first + FloatPropLines(props[..i])) + [line];
    JoinLinesAppend(first + FloatPropLines(props[..i]), [line]);
    assert [line][1..] == [];
  }

  /** The three fixed lines before the property lines. */
  lemma FloatHeaderStart(rows: nat)
    ensures "ply\n" + FloatFormat + "\n" + VertexLine(rows) + "\n"
         == JoinLines(["ply", FloatFormat, VertexLine(rows)] + FloatPropLines([]))
  {
    var first := ["ply", FloatFormat, VertexLine(rows)];
    assert first + FloatPropLines([]) == first;
    assert first[1..] == [FloatFormat, VertexLine(rows)];
    assert first[1..][1..] == [VertexLine(rows)];
    assert first[1..][1..][1..] == [];
    assert JoinLines(first[1..][1..]) == VertexLine(rows) + "\n";
    assert JoinLines(first[1..]) == FloatFormat + "\n" + VertexLine(rows) + "\n";
    assert JoinLines(first) == "ply" + "\n" + (FloatFormat + "\n" + VertexLine(rows) + "\n");
    assert "ply" + "\n" == "ply\n";
  }

  /** end_header closes the header. */
  lemma FloatHeaderEnd(rows: nat, props: seq<string>)
    ensures JoinLines(FloatHeaderLines(rows, props))
         == JoinLines(["ply", FloatFormat, VertexLine(rows)] + FloatPropLines(props)) + "end_header\n"
  {
    var lines := ["ply", FloatFormat, VertexLine(rows)] + FloatPropLines(props);
    JoinLinesAppend(lines, ["end_header"]);
    assert ["end_header"][1..] == [];
    assert "end_header" + "\n" == "end_header\n";
  }

  /** write_float_ply: the checks, the header lines, then data_size = 4 * rows * columns bytes of the matrix. */
  method WriteFloatPly(isOpen: bool, data: Tensor, props: seq<string>) returns (r: Result<seq<byte>, CodecError>)
    ensures r == WriteFloatPlySpec(isOpen, data, props)
  {
    if !isOpen {
      return Failure(CannotCreate);
    }
    if Rank(data) != 2 {
      return Failure(NotTwoDimensional);
    }
    if data.shape[1] != |props| {
      return Failure(ColumnCountMismatch);
    }
    if !data.onCpu {
      return Failure(NotOnCpu);
    }
    if data.dtype != Float32 {
      return Failure(NotFloat32);
    }
    ghost var first := ["ply", FloatFormat, VertexLine(data.shape[0])];
    var text := "ply\n" + FloatFormat + "\n" + "element vertex " + NatToString(data.shape[0]) + "\n";
    FloatHeaderStart(data.shape[0]);
    assert text == "ply\n" + FloatFormat + "\n" + VertexLine(data.shape[0]) + "\n";
    var i := 0;
    while i < |props|
      invariant 0 <= i <= |props|
      invariant text == JoinLines(first + FloatPropLines(props[..i]))
    {
      FloatPropStep(first, props, i);
      text := text + "property float " + props[i] + "\n";
      i := i + 1;
    }
    assert props[..i] == props;
    FloatHeaderEnd(data.shape[0], props);
    text := text + "end_header\n";
    FloatMatrixSize(data);
    var dataSize := 4 * data.shape[0] * data.shape[1];
    assert data.data[..dataSize] == data.data;
    r := Success(Utf8(text) + data.data[..dataSize]);
  }

  // ---------------------------------------------------------------------
  // read_float_ply

  /** The names of properties ps, in declaration order. */
  function PropertyNames(ps: seq<ParsedProperty>): (names: seq<string>)
    ensures |names| == |ps|
  {
    seq(|ps|, i requires 0 <= i < |ps| => ps[i].name)
  }

  /** The number of bytes in read_float_ply's matrix: count * properties * 4 for a single element. */
  function TailSize(f: ParsedFile): (size: nat)
    ensures |f.elements| == 1 ==> size == f.elements[0].count * |f.elements[0].properties| * 4
  {
    if |f.elements| == 1 then f.elements[0].count * |f.elements[0].properties| * 4 else 0
  }

  /**
   * read_float_ply as a value over the parsed header and the file's bytes:
   * the file must open, hold exactly one element and be binary; the matrix is
   * the last count * properties * 4 bytes. uninit stands for what torch::empty
   * leaves in the matrix: when the file is shorter than the matrix, seeking back
   * from the end fails, nothing is read, and the matrix keeps those contents.
   */
  function ReadFloatPlySpec(f: ParsedFile, file: seq<byte>, uninit: seq<byte>): Result<(Tensor, seq<string>), CodecError>
    requires |uninit| == TailSize(f)
  {
    if !f.valid then Failure(OpenFailed)
    else if |f.elements| != 1 then Failure(InvalidPly)
    else if f.fileType != Binary then Failure(UnsupportedEncoding)
    else
      var e := f.elements[0];
      var n := |e.properties|;
      var size := e.count * n * 4;
      FloatShapeSize(e.count, n);
      if size > |file| then Success((RawTensor(Float32, [e.count, n], uninit, true), PropertyNames(e.properties)))
      else Success((RawTensor(Float32, [e.count, n], file[|file| - size..], true), PropertyNames(e.properties)))
  }

  lemma FloatShapeSize(rows: nat, cols: nat)
    ensures Numel([rows, cols]) * ItemSize(Float32) == rows * cols * 4 == 4 * rows * cols
  {
    assert [rows, cols][1..] == [cols];
    assert [cols][1..] == [];
    assert Numel([cols]) == cols;
    assert Numel([rows, cols]) == rows * cols;
  }

  /** read_float_ply: the checks, the names copied one by one, then the tail of the file. */
  method ReadFloatPly(f: ParsedFile, file: seq<byte>, uninit: seq<byte>) returns (r: Result<(Tensor, seq<string>), CodecError>)
    requires |uninit| == TailSize(f)
    ensures r == ReadFloatPlySpec(f, file, uninit)
  {
    if !f.valid {
      return Failure(OpenFailed);
    }
    if |f.elements| != 1 {
      return Failure(InvalidPly);
    }
    var e := f.elements[0];
    if f.fileType != Binary {
      return Failure(UnsupportedEncoding);
    }
    var props: seq<string> := [];
    var i := 0;
    while i != |e.properties|
      invariant 0 <= i <= |e.properties|
      invariant props == PropertyNames(e.properties[..i])
    {
      assert PropertyNames(e.properties[..i + 1]) == PropertyNames(e.properties[..i]) + [e.properties[i].name];
      props := props + [e.properties[i].name];
      i := i + 1;
    }
    assert e.properties[..i] == e.properties;
    var size := e.count * |e.properties| * 4;
    FloatShapeSize(e.count, |e.properties|);
    var data := RawTensor(Float32, [e.count, |e.properties|], uninit, true);
    if size <= |file| {
      data := data.(data := file[|file| - size..]);
    }
    r := Success((data, props));
  }

  /** What a PLY parser reports for the header write_float_ply writes: one binary element of rows records named by props. */
  predicate Describes(f: ParsedFile, rows: nat, props: seq<string>)
  {
    && f.valid && f.fileType == Binary && |f.elements| == 1
    && f.elements[0].count == rows
    && PropertyNames(f.elements[0].properties) == props
  }

  /** Reading back what write_float_ply wrote gives the matrix and the names it was given. */
  lemma FloatRoundTrip(data: Tensor, props: seq<string>, file: seq<byte>, f: ParsedFile, uninit: seq<byte>)
    requires WriteFloatPlySpec(true, data, props) == Success(file)
    requires Describes(f, data.shape[0], props) && |uninit| == TailSize(f)
    ensures ReadFloatPlySpec(f, file, uninit) == Success((data, props))
  {
    var header := Utf8(JoinLines(FloatHeaderLines(data.shape[0], props)));
    FloatMatrixSize(data);
    assert file == header + data.data;
    var size := data.shape[0] * |props| * 4;
    assert size == |data.data|;
    assert file[|file| - size..] == data.data;
    assert data.shape == [data.shape[0], |props|];
  }

  /** Each written header line is free of line feeds when the names are. */
  lemma FloatHeaderLinesClean(rows: nat, props: seq<string>)
    requires forall i | 0 <= i < |props| :: '\n' !in props[i]
    ensures NoneContains(FloatHeaderLines(rows, props), '\n')
  {
    var lines := FloatHeaderLines(rows, props);
    forall i | 0 <= i < |lines| ensures '\n' !in lines[i] {
      if 3 <= i < 3 + |props| {
        assert lines[i] == "property float " + props[i - 3];
      } else if i == 2 {
        assert lines[i] == "element vertex " + NatToString(rows);
      }
    }
  }

  /** Split at line feeds, the written file gives back the header lines, the last one followed by the matrix bytes. */
  lemma FloatHeaderSplits(data: Tensor, props: seq<string>, file: seq<byte>)
    requires WriteFloatPlySpec(true, data, props) == Success(file)
    requires forall i | 0 <= i < |props| :: '\n' !in props[i]
    ensures var lines := FloatHeaderLines(data.shape[0], props);
      Split(JoinLines(lines), '\n') == lines + [""]
  {
    var lines := FloatHeaderLines(data.shape[0], props);
    FloatHeaderLinesClean(data.shape[0], props);
    SplitJoinLines(lines, "");
    assert JoinLines(lines) + "" == JoinLines(lines);
  }

  // ---------------------------------------------------------------------
  // write_float_ply is write_ply on one element of float columns

  /** A float32 matrix as a single element "vertex" for write_ply, column j named props[j]. */
  function VertexElement(data: Tensor, props: seq<string>): PlyWrite.Element
    requires IsMatrix(data) && data.shape[1] == |props|
  {
    PlyWrite.Element("vertex", seq(|props|, j requires 0 <= j < |props| => PlyWrite.Column(props[j], Columns(data)[j])))
  }

  /** The inputs on which the two writers are compared: what write_float_ply accepts, with fewer than 2^32 rows. */
  predicate FloatMatrix(data: Tensor, props: seq<string>)
  {
    && IsMatrix(data) && data.dtype == Float32 && data.onCpu
    && data.shape[1] == |props| && data.shape[0] < PlyWrite.RowLimit
  }

  /** Column j of a float32 matrix is a scalar float column of one 4-byte item per row. */
  lemma FloatColumn(data: Tensor, j: nat)
    requires IsMatrix(data) && data.dtype == Float32 && j < data.shape[1]
    ensures var c := Columns(data)[j];
      && Rank(c) == 1 && c.shape[0] == data.shape[0] && c.onCpu == data.onCpu
      && !PlyWrite.IsListColumn(c) && PlyWrite.Payload(c) == 4 && RowSize(c) == 4
      && |c.data| == data.shape[0] * 4
  {
    var c := Columns(data)[j];
    MatrixFacts(data);
    assert c.shape == [data.shape[0]];
    RowsFill(c);
  }

  /** Each column of the element is a scalar float property with one 4-byte item per row. */
  lemma VertexColumns(data: Tensor, props: seq<string>)
    requires FloatMatrix(data, props)
    ensures var el := VertexElement(data, props);
      && |el.columns| == |props|
      && (forall p | 0 <= p < |props| :: el.columns[p] == PlyWrite.Column(props[p], Columns(data)[p]))
      && PlyWrite.Rows(el) == data.shape[0]
      && PlyWrite.Readable(el)
  {
    var el, n := VertexElement(data, props), data.shape[0];
    assert el.columns[0].tensor == Columns(data)[0];
    FloatColumn(data, 0);
    assert PlyWrite.Rows(el) == n;
    forall p | 0 <= p < |props|
      ensures el.columns[p].tensor.onCpu
      ensures PlyWrite.Rows(el) * PlyWrite.Payload(el.columns[p].tensor) <= |el.columns[p].tensor.data|
    {
      var c := Columns(data)[p];
      assert el.columns[p].tensor == c;
      FloatColumn(data, p);
      assert PlyWrite.Rows(el) * PlyWrite.Payload(c) == n * 4;
    }
  }

  /** The columns of a matrix can be stacked again: they share shape, dtype and device. */
  lemma ColumnsStackable(data: Tensor)
    requires IsMatrix(data)
    ensures Stackable(Columns(data)) && Columns(data)[0].shape[0] == data.shape[0]
  {
    MatrixFacts(data);
  }

  /** Row r from property p on, as write_ply emits it, is row r of columns p.. side by side. */
  lemma {:induction false} VertexCells(data: Tensor, props: seq<string>, r: nat, p: nat)
    requires FloatMatrix(data, props) && r < data.shape[0] && p <= |props|
    ensures PlyWrite.Readable(VertexElement(data, props)) && Stackable(Columns(data))
    ensures Columns(data)[0].shape[0] == data.shape[0]
    ensures PlyWrite.CellsFrom(VertexElement(data, props), r, p) == Flatten(RowParts(Columns(data), r)[p..])
    decreases |props| - p
  {
    var el := VertexElement(data, props);
    VertexColumns(data, props);
    ColumnsStackable(data);
    var parts := RowParts(Columns(data), r);
    if p == |props| {
      assert parts[p..] == [];
    } else {
      VertexCells(data, props, r, p + 1);
      FloatColumn(data, p);
      PlyWrite.CellsStep(el, r, p);
      assert PlyWrite.Cell(Columns(data)[p], r) == parts[p];
      FlattenFrom(parts, p);
    }
  }

  /** Rows r.. as write_ply emits them are the matrix bytes from row r on. */
  lemma {:induction false} VertexRows(data: Tensor, props: seq<string>, r: nat)
    requires FloatMatrix(data, props) && r <= data.shape[0]
    ensures PlyWrite.Readable(VertexElement(data, props))
    ensures var w := data.shape[1] * 4; 0 <= r * w <= |data.data|
    ensures PlyWrite.RowsFrom(VertexElement(data, props), r) == data.data[r * (data.shape[1] * 4)..]
    decreases data.shape[0] - r
  {
    var el, n, w := VertexElement(data, props), data.shape[0], data.shape[1] * 4;
    VertexColumns(data, props);
    MatrixFacts(data);
    MulNonneg(r, w);
    MulLe(r, n, w);
    if r == n {
      assert data.data[r * w..] == [];
    } else {
      VertexRows(data, props, r + 1);
      VertexCells(data, props, r, 0);
      ColumnsRow(data, r);
      assert RowParts(Columns(data), r)[0..] == RowParts(Columns(data), r);
      ChunkThenRest(data.data, w, r);
    }
  }

  /** The property list of the element declares every column as "property float <name>". */
  lemma VertexDeclared(data: Tensor, props: seq<string>)
    requires FloatMatrix(data, props)
    ensures var el := VertexElement(data, props);
      PlyWrite.DeclareColumns(el.columns, |props|) == Success(FloatDecls(props))
  {
    var el := VertexElement(data, props);
    var ps := FloatDecls(props);
    VertexColumns(data, props);
    forall j | 0 <= j < |props|
      ensures PlyWrite.Declarable(el.columns[j])
      ensures PlyWrite.DeclareColumn(el.columns[j]) == Success(ps[j])
    {
      FloatColumn(data, j);
      FloatDeclaration(el.columns[j]);
    }
    PlyWrite.ColumnsDeclared(el.columns, |props|);
    var hs := PlyWrite.DeclareColumns(el.columns, |props|).value;
    forall j | 0 <= j < |props| ensures hs[j] == ps[j] {
      PlyWrite.ColumnsValue(el.columns, |props|, j);
    }
    SeqExt(hs, ps);
  }

  /** A scalar float column is declared "property float <name>". */
  lemma FloatDeclaration(c: PlyWrite.Column)
    requires c.tensor.dtype == Float32 && !PlyWrite.IsListColumn(c.tensor)
    ensures PlyWrite.Declarable(c)
    ensures PlyWrite.DeclareColumn(c) == Success(PlyWrite.PropHeader(c.name, "float", false))
  {}

  /** The float property declarations, one per name. */
  function FloatDecls(props: seq<string>): (ps: seq<PlyWrite.PropHeader>)
    ensures |ps| == |props|
  {
    seq(|props|, j requires 0 <= j < |props| => PlyWrite.PropHeader(props[j], "float", false))
  }

  /** write_ply declares the element as "vertex" with one row per matrix row and a float property per name. */
  lemma VertexDeclaredAll(data: Tensor, props: seq<string>)
    requires FloatMatrix(data, props)
    ensures PlyWrite.HasColumns([VertexElement(data, props)])
    ensures PlyWrite.DeclareAll([VertexElement(data, props)], 1)
         == Success([PlyWrite.ElementHeader("vertex", data.shape[0], FloatDecls(props))])
  {
    var el := VertexElement(data, props);
    VertexColumns(data, props);
    VertexDeclared(data, props);
    FloatColumn(data, 0);
    var h := PlyWrite.ElementHeader("vertex", data.shape[0], FloatDecls(props));
    assert PlyWrite.DeclareElement(el) == Success(h);
    assert PlyWrite.DeclareAll([el], 0) == Success([]);
    assert [] + [h] == [h];
  }

  /** The header lines of that declaration are the lines of the float header. */
  lemma VertexLines(rows: nat, props: seq<string>)
    ensures PlyWrite.HeaderLines(false, [PlyWrite.ElementHeader("vertex", rows, FloatDecls(props))])
         == FloatHeaderLines(rows, props)
  {
    var h := PlyWrite.ElementHeader("vertex", rows, FloatDecls(props));
    assert [h][1..] == [];
    assert PlyWrite.DeclLines([h]) == PlyWrite.ElementLines(h) + [];
    assert "element " + "vertex" + " " == "element vertex ";
    assert PlyWrite.ElementLine(h) == VertexLine(rows);
    VertexPropLines(props, FloatDecls(props));
  }

  /** The header write_ply writes for the element on a little-endian host is the header of write_float_ply. */
  lemma VertexHeader(data: Tensor, props: seq<string>)
    requires FloatMatrix(data, props)
    ensures PlyWrite.HasColumns([VertexElement(data, props)])
    ensures PlyWrite.HeaderSpec(false, [VertexElement(data, props)])
         == Success(JoinLines(FloatHeaderLines(data.shape[0], props)))
  {
    VertexDeclaredAll(data, props);
    VertexLines(data.shape[0], props);
  }

  lemma VertexPropLines(props: seq<string>, ps: seq<PlyWrite.PropHeader>)
    requires ps == FloatDecls(props)
    ensures PlyWrite.PropLines(ps) == FloatPropLines(props)
  {
    var a, b := PlyWrite.PropLines(ps), FloatPropLines(props);
    forall j | 0 <= j < |props| ensures a[j] == b[j] {
      PropLinesAt(ps, j);
      assert "property " + "float" + " " == "property float ";
    }
    SeqExt(a, b);
  }

  lemma {:induction false} PropLinesAt(ps: seq<PlyWrite.PropHeader>, j: nat)
    requires j < |ps|
    ensures PlyWrite.PropLines(ps)[j] == PlyWrite.PropLine(ps[j])
  {
    if j > 0 {
      PropLinesAt(ps[1..], j - 1);
    }
  }

  /**
   * On a little-endian host, write_float_ply writes for a float32 matrix of
   * fewer than 2^32 rows exactly the bytes write_ply writes for one element
   * "vertex" holding the matrix's columns under the given names.
   */
  lemma FloatAgreesWithWritePly(data: Tensor, props: seq<string>)
    requires FloatMatrix(data, props)
    ensures PlyWrite.WriteReady([VertexElement(data, props)])
    ensures WriteFloatPlySpec(true, data, props) == PlyWrite.WritePlySpec(false, [VertexElement(data, props)])
  {
    var el := VertexElement(data, props);
    VertexColumns(data, props);
    VertexHeader(data, props);
    VertexRows(data, props, 0);
    assert data.data[0 * (data.shape[1] * 4)..] == data.data;
    assert PlyWrite.BodyFrom([el], 1) == [];
    assert PlyWrite.BodyFrom([el], 0) == data.data + [] == data.data;
    var text := JoinLines(FloatHeaderLines(data.shape[0], props));
    assert WriteFloatPlySpec(true, data, props) == Success(Utf8(text) + data.data);
    assert PlyWrite.WritePlySpec(false, [el]) == Success(Utf8(text) + PlyWrite.BodyFrom([el], 0));
  }
}
