# plytorch core, modelled in Dafny

plytorch loads and saves PLY point clouds and meshes as PyTorch tensors. A
native extension (`main.cpp`) reads a PLY file into a map from element names
to maps from property names to tensors, writes such a map back as a binary
PLY file, and has a fast path for one float32 matrix. On top of it,
`plytorch/plydata.py` wraps the maps as `PLYData`/`PLYElement` dictionaries,
and `plytorch/basic_geometry.py` and `plytorch/point_cloud.py` declare
geometry classes whose annotated fields name an element and its properties.
`from_data` projects a PLY store into the fields and `to_data` splits the
fields back into a store.

The modules follow the source, one file each:

- `wrappers.dfy`, `seqs.dfy`, `text.dfy`: Option/Result, sequence
  flattening and chunking, UTF-8 encoding of header text, and decimal
  printing of counts.
- `errors.dfy`: the exceptions raised, as constructors without message texts.
- `dtypes.dfy`: the three dtype tables of `main.cpp` and their lookups.
- `tensors.dfy`: a tensor is a dtype, a shape, its flat row-major bytes and
  whether it is on the CPU. `torch.stack(dim=1)` and `unbind(dim=-1)` are
  defined on those bytes.
- `plyread.dfy`: `read_ply_element` and `read_ply` over the schema the PLY
  parser reports. The row-count check is an in-place sort and dedup on an
  array, like `std::sort`/`std::unique`.
- `plywrite.dfy`: `write_ply`. The header is built line by line. The body is
  written row by row from the per-property tables (`src_ptrs`, `strides`,
  `is_list`, `list_sizes`), which are arrays the loop updates.
- `floatply.dfy`: `write_float_ply` and `read_float_ply`, their round trip,
  and the fact that `write_float_ply` writes exactly the file `write_ply`
  writes for a single element `vertex` on a little-endian host.
- `plydata.py` → `plydata.dfy`; `basic_geometry.py` → `geometry.dfy` (a
  `Geometry` class for instance attributes and an `AnnotationCache` class for
  the module-level cache); `point_cloud.py` → `pointcloud.dfy`.

Each imperative operation is a method proved equal to a specification
function (`ReadPly` to `ReadPlySpec`, `WritePly` to `WritePlySpec`, `FromData`
to `FromDataSpec`, …). Lemmas then prove the properties of those functions:
which keys the result has, which value wins, which error comes first, and the
round trips `to_data`→`from_data` and `write_float_ply`→`read_float_ply`.

A few places where the code's behaviour is not what a reader of the
description would expect:

- A PLY `char` property is read into a `uint8` tensor (`main.cpp:20`). It is
  written back as `uchar` (`DTypes.TypeNameRoundTrip`).
- `PLYElement.__getitem__` with a single name as a `str` calls itself without
  end (`plytorch/plydata.py:26-27`). So every field declared with one
  property name fails to load, and `Mesh.from_data` can never succeed
  (`PointCloud.MeshNeverLoads`).
- `write_ply` prints the row count in full in the header but loops over
  `num_rows`, a `uint32_t`, in the body (`main.cpp:164`, `main.cpp:182`). The
  model writes `shape[0] mod 2^32` rows (`PlyWrite.Rows`).

## Model

| member | source | states |
|---|---|---|
| DTypes.GetTorchDtype | main.cpp:53-60 | Lookup in the PLY-to-torch table (lines 19-28). It fails with UnknownPlyType exactly for a tag the table lacks. Otherwise the dtype has the PLY type's width and signedness, except that `char` maps to `uint8`. |
| DTypes.GetPlyDtype | main.cpp:62-69 | Lookup in the torch-to-PLY table (lines 30-39). It succeeds exactly for the eight PLY-typed dtypes and otherwise fails with NoPlyType. |
| DTypes.GetTorchDtypeSize | main.cpp:71-78 | Lookup in the size table (lines 41-50). It succeeds exactly where GetPlyDtype does, and the value is the dtype's item size: 1 for (u)int8, 2 for (u)int16, 4 for (u)int32 and float32, 8 for float64. |
| DTypes.PlyTokenWidth | main.cpp:30-50 | The token written for a dtype names a PLY type whose width is the size the body writes per item. The token has no blank or line feed and is not `list`. |
| DTypes.TypeNameRoundTrip | main.cpp:19-39 | A property read with PLY type t is declared with t's own token when written back, except that `char` comes back as `uchar`. |
| DTypes.ReadTypesAreWritable | main.cpp:19-50 | Every dtype the reader produces has a body size, and that size is the PLY width it was read with. |
| PlyRead.SortCounts | main.cpp:96 | The row counts sorted in place: ascending and a permutation of the input. |
| PlyRead.UniqueCounts | main.cpp:97-98 | `std::unique` then `erase`: the kept prefix is strictly increasing and holds exactly the values of the sorted input. |
| PlyRead.DistinctCounts | main.cpp:94-98 | Copy, sort and dedup of a property's row counts: strictly increasing, with the same values as the counts. |
| PlyRead.OneDistinct | main.cpp:99-103 | Exactly one distinct count iff every record has the same list length and there is a record; that count is the first record's. |
| PlyRead.PropertyTensor | main.cpp:91-112 | An unknown value type gives UnknownPlyType, checked before the row counts. A list with varying row counts gives IrregularList. Otherwise the result is a CPU tensor of the mapped dtype holding the parser's bytes, shaped [N, k] for a list and [N] for a scalar. It succeeds exactly in that last case. |
| PlyRead.ReadProperty | main.cpp:91-112 | The loop body for one property computes PropertyTensor. |
| PlyRead.ElementSpec | main.cpp:80-117 | A successful element read is named as the parsed element, and it succeeds exactly when its property map does. |
| PlyRead.ElementRead | main.cpp:87-114 | An element reads successfully iff each of its properties does. |
| PlyRead.PropsKeys | main.cpp:87-116 | The property map's keys are exactly the declared property names. |
| PlyRead.PropsLastWins | main.cpp:103-111 | Under a repeated property name the last declaration's tensor is kept. |
| PlyRead.PropsFirstFailure | main.cpp:87-114 | The element fails with the error of its first failing property. |
| PlyRead.ReadPlyElement | main.cpp:80-117 | The property loop computes ElementSpec. |
| PlyRead.ReadPlySpec | main.cpp:119-124 | A file the reader cannot open gives OpenFailed. |
| PlyRead.FileRead | main.cpp:128-133 | An opened file reads successfully iff every element does. |
| PlyRead.ElementsKeys | main.cpp:126-134 | The result's keys are exactly the element names. |
| PlyRead.ElementsLastWins | main.cpp:130-131 | Under a repeated element name the last element's properties are kept. |
| PlyRead.ElementsFirstFailure | main.cpp:128-133 | The read fails with the error of the first failing element. |
| PlyRead.ReadPly | main.cpp:119-135 | The element loop computes ReadPlySpec. |
| PlyWrite.DeclareColumn | main.cpp:166-171 | It succeeds iff the dtype has a PLY token and the list width fits the one-byte count. |
| PlyWrite.DeclareColumnFacts | main.cpp:166-171 | An untyped dtype gives NoPlyType, checked first. A list of 256 items or more gives ListTooLong. Otherwise the declaration carries the property's name, whether it is a list (rank > 1 and size(1) > 1) and a token whose PLY width is the stride. |
| PlyWrite.ColumnsDeclared | main.cpp:165-172 | An element's property lines are produced iff every property is declarable. |
| PlyWrite.ColumnsValue | main.cpp:165-172 | Declaration p is the declaration of property p, in enumeration order. |
| PlyWrite.ColumnsFirstFailure | main.cpp:165-172 | The first undeclarable property's error is the element's error. |
| PlyWrite.DeclareElementFacts | main.cpp:164-172 | A 0-dimensional first property gives NoDimensions. Otherwise the element is declared iff all its properties are, with the element's name and count size(0) of the first property. That count mod 2^32 is the number of body rows. |
| PlyWrite.AllDeclared | main.cpp:163-173 | The header's element part succeeds iff every element is declared. |
| PlyWrite.AllValue | main.cpp:163-173 | Declaration e is element e's, in enumeration order. |
| PlyWrite.AllFirstFailure | main.cpp:163-173 | The first failing element's error is the header's error. |
| PlyWrite.WriteElementHeader | main.cpp:164-172 | The per-element loop yields the element line and its property lines, or the first error. |
| PlyWrite.HeaderDone | main.cpp:156-174 | The header is `ply`, the format line for the host's byte order, each element's lines, then `end_header`, each line ended by a line feed. |
| PlyWrite.WriteHeader | main.cpp:156-174 | The header loop computes HeaderSpec. |
| PlyWrite.HeaderDeclarable | main.cpp:171-187 | Once the header is written, every property's dtype has a body size, so `get_torch_dtype_size` does not throw. |
| PlyWrite.Cell | main.cpp:197-205 | A row of a property is one item, or for a list a count byte followed by k items. |
| PlyWrite.ListCellAsWritten | main.cpp:202-204 | As written: a list row starts with the count kept as a `char`, k mod 256, followed by (k mod 256) items. |
| PlyWrite.ListCountWraps | main.cpp:188-204 | A one-row uint8 list of 256 items is written as the single byte 0. The model's declaration of it fails with ListTooLong. |
| PlyWrite.ListCellCounts | main.cpp:201-205 | For a width below 256 the count byte is k, it is followed by row r's k items, and this agrees with the as-written cell. |
| PlyWrite.PropertyTables | main.cpp:177-193 | Fresh tables: each pointer at offset 0, each stride the item size, each list flag an `is_list` test and each list size the width. |
| PlyWrite.FillEntry | main.cpp:186-191 | Entry i of the four tables is filled and the earlier entries are kept. |
| PlyWrite.CopyCell | main.cpp:197-205 | The bytes written for one property of one row are that row's cell, and the pointer advances by its payload. |
| PlyWrite.CopyStep | main.cpp:197-205 | One pass of the property loop: property p's cell is written, its read pointer moves to the next row and the others stay. |
| PlyWrite.WriteRow | main.cpp:196-206 | One row is the cells of all properties in order, and every pointer moves to the next row. |
| PlyWrite.WriteElementBody | main.cpp:177-207 | An element's body is its rows 0 to num_rows - 1, in order. |
| PlyWrite.WriteBody | main.cpp:176-208 | The body is the element bodies in enumeration order. |
| PlyWrite.CellsLength | main.cpp:196-205 | The cells of properties p.. of one row take, per property, one count byte if it is a list plus stride * k bytes (stride for a scalar). |
| PlyWrite.RowsLength | main.cpp:195-206 | Rows r.. of an element take (num_rows - r) row widths. |
| PlyWrite.BodyLength | main.cpp:176-208 | The body takes, per element, num_rows times the sum over properties of stride * k plus 1 for a list, or stride for a scalar. |
| PlyWrite.FileLength | main.cpp:153-212 | A written file is its header's bytes followed by exactly that many body bytes. |
| PlyWrite.WritePly | main.cpp:153-212 | The file is the UTF-8 header followed by the body, or the first header error. The header is the corrected one from the Findings row: a list of 256 items or more fails with ListTooLong, where the source writes the count mod 256. |
| Text.ParseNatToString | main.cpp:164 | A row count printed in decimal parses back to the same count. |
| FloatPly.WriteFloatPly | main.cpp:247-282 | The checks run in order: CannotCreate, NotTwoDimensional, ColumnCountMismatch, NotOnCpu, NotFloat32. On success the file is the fixed vertex header followed by the matrix bytes. |
| FloatPly.FloatMatrixSize | main.cpp:279-280 | A two-dimensional float32 tensor holds exactly 4 * size(0) * size(1) bytes, the number written. |
| FloatPly.ReadFloatPly | main.cpp:215-245 | The checks run in order: OpenFailed, InvalidPly (not one element), UnsupportedEncoding. After them the call always succeeds. The names are copied in declaration order, and the matrix has shape [count, properties]. It holds the last count * properties * 4 bytes of the file. When the file is shorter than that, the seek back from the end fails, nothing is read, and the matrix keeps the contents `torch::empty` left in it (the parameter `uninit`). |
| FloatPly.FloatRoundTrip | main.cpp:215-282 | Reading what `write_float_ply` wrote, with the header parsed as written, gives back the same matrix and names. |
| FloatPly.FloatHeaderSplits | main.cpp:270-277 | When no name holds a line feed, the written header splits into exactly its lines. |
| FloatPly.FloatAgreesWithWritePly | main.cpp:270-280 | On a little-endian host, `write_float_ply` of a matrix writes the same bytes as `write_ply` of one element `vertex` whose float columns are the matrix's. |
| Tensors.Stack | plytorch/plydata.py:25 | `torch.stack(dim=1)` succeeds iff there is at least one tensor, of rank 1 or more, and all are equal in dtype, shape and device. The result has shape [n, count] + rest, with the first tensor's dtype and device. |
| Tensors.StackRow | plytorch/plydata.py:25 | In the stacked tensor, entry (r, j) is row r of tensor j. |
| Tensors.Column | plytorch/basic_geometry.py:120 | `unbind(dim=-1)`, column j, has the outer shape, dtype and device of the tensor. |
| Tensors.ColumnItem | plytorch/basic_geometry.py:120 | Item o of column j is item o * m + j of the tensor. |
| Tensors.StackColumns | plytorch/basic_geometry.py:120 | Stacking a matrix's columns along dimension 1 gives back the matrix. |
| PlyData.Lookup | plytorch/plydata.py:20-27 | A single name never returns: it gives Recursion. A list of names gives None iff some name is missing. |
| PlyData.LookupFound | plytorch/plydata.py:21-25 | The lookup finds a tensor iff all names are present and their tensors stack. Present tensors that do not stack give StackFailed. |
| PlyData.LookupColumns | plytorch/plydata.py:25 | The found tensor has shape [N, len(names)] + rest, and entry (r, j) is row r of property names[j]. |
| PlyData.GetAttr | plytorch/plydata.py:8 | `dict.get`: a value iff the key is present, and it is the stored one. |
| PlyData.SortSet | plytorch/plydata.py:18 | `sorted` of a set of names: ascending, with the same members and the same size. |
| PlyData.AscendingUnique | plytorch/plydata.py:18 | Two ascending sequences with the same members are equal, so the sorted list is unique. |
| PlyData.PropertyNames | plytorch/plydata.py:15-18 | `properties`: the element's property names, ascending. |
| PlyData.PropertyNamesUnique | plytorch/plydata.py:15-18 | Any ascending listing of the property names is `properties`. |
| PlyData.ElementNames | plytorch/plydata.py:39-41 | `elements`: the element names, ascending. |
| PlyData.ElementNamesUnique | plytorch/plydata.py:39-41 | Any ascending listing of the element names is `elements`. |
| PlyData.BareDirname | plytorch/plydata.py:50 | The dirname of a name without `/` is the empty string. |
| PlyData.DirnameOfJoin | plytorch/plydata.py:50 | The dirname of `d/name` is d. |
| PlyData.Load | plytorch/plydata.py:43-47 | A path that is not a file gives FileNotFound. |
| PlyData.LoadPassesThrough | plytorch/plydata.py:43-47 | For an existing file, read errors surface as RuntimeError. Otherwise the result is `read_ply`'s, keyed by the element names. |
| PlyData.ToCpu | plytorch/plydata.py:56 | `.cpu().contiguous()` keeps dtype, shape and bytes and puts the tensor on the CPU. |
| PlyData.Save | plytorch/plydata.py:49-51 | A parent directory that does not exist gives FileNotFound, whatever the store holds. The store must be writable only when the directory exists. |
| PlyData.SaveBareName | plytorch/plydata.py:50-51 | Saving to a bare file name without `/` always raises FileNotFound, whatever the store holds, because its dirname is empty and so is not a directory. |
| PlyData.SavePassesThrough | plytorch/plydata.py:53-61 | With the directory present, the file is `write_ply`'s, with the corrected list header of PlyWrite.WritePly, or its error as RuntimeError. Its header names every element of the store and each element's properties, in the enumeration order. |
| Geometry.VertexFieldIsField | plytorch/basic_geometry.py:8-13 | `vertex_field(*names)` is `field('vertex', names)` with a tuple of names. |
| Geometry.OwnReversedIsReversed | plytorch/basic_geometry.py:21-23 | The fields appended by walking a class body in reverse are its Annotated fields, reversed. |
| Geometry.BasesReversed | plytorch/basic_geometry.py:25-27 | What the bases append, reversed, is their field lists in reverse `__bases__` order (the last base's fields first). |
| Geometry.FieldOrder | plytorch/basic_geometry.py:18-34 | `gather_annotations(cls)` is the bases' field lists in reverse `__bases__` order (the last base's fields first), then the class's own Annotated fields in declaration order. |
| Geometry.FieldsAreAnnotated | plytorch/basic_geometry.py:21-23 | A class contributes a field iff its body annotates that name with Annotated metadata. |
| Geometry.GatherInto | plytorch/basic_geometry.py:18-27 | `_gather_annotations` appends to the list passed in exactly the class's collected fields. |
| Geometry.AnnotationCache.constructor | plytorch/basic_geometry.py:15 | The cache starts empty. |
| Geometry.AnnotationCache.GatherAnnotations | plytorch/basic_geometry.py:30-36 | It returns the class's field list. A miss stores the list; a hit leaves the cache unchanged. |
| Geometry.Annots | plytorch/basic_geometry.py:48 | `dict(gather_annotations(cls))` has every field name as a key. |
| Geometry.AnnotsKeys | plytorch/basic_geometry.py:48 | The keys are exactly the field names. |
| Geometry.AnnotsValues | plytorch/basic_geometry.py:48 | Under a repeated name the last field's metadata wins. |
| Geometry.DefaultsFacts | plytorch/basic_geometry.py:49-56 | The first pass sets to None exactly the field names not given as keywords. |
| Geometry.InitOutcome | plytorch/basic_geometry.py:47-64 | `__init__` succeeds iff no required field is missing and no keyword is unknown. A missing required field raises first. On success every keyword's value is set, and every other field is optional and None. |
| Geometry.InitMissing | plytorch/basic_geometry.py:50-54 | A missing required field raises ValueError (MissingRequired). |
| Geometry.InitUnknown | plytorch/basic_geometry.py:58-63 | Otherwise, an unknown keyword raises ValueError (UnknownAttribute). |
| Geometry.InitPasses | plytorch/basic_geometry.py:47-64 | With no such error, the attributes are the None defaults overlaid by the keywords. |
| Geometry.Geometry.Init | plytorch/basic_geometry.py:47-64 | The two loops over the instance's attributes yield InitSpec's error, or add its attributes. |
| Geometry.Geometry.SetDefaults | plytorch/basic_geometry.py:49-56 | The first loop reports a missing required field or sets the None defaults. |
| Geometry.Geometry.SetKeywords | plytorch/basic_geometry.py:58-64 | The second loop reports an unknown keyword or sets every keyword. |
| Geometry.Split | plytorch/basic_geometry.py:114-121 | `_split`: no columns for None, the whole tensor under a single `str` name, UnbindFailed exactly for a 0-dimensional tensor with a list of names. |
| Geometry.SplitColumns | plytorch/basic_geometry.py:114-121 | On a 0-dimensional tensor `unbind(-1)` fails. Otherwise the names are zipped with the last-dimension columns up to the shorter of the two, and a repeated name keeps its last column. |
| Geometry.SplitMatrix | plytorch/basic_geometry.py:118-121 | A matrix with one column per distinct name splits into exactly those names, name a holding column a. |
| Geometry.SplitThenLookup | plytorch/basic_geometry.py:114-121 | Looking up the names of a split matrix gives back the matrix. |
| Geometry.LookupColumnsOf | plytorch/plydata.py:21-25 | An element holding a matrix's columns under the names returns that matrix for the name list. |
| Geometry.Project | plytorch/basic_geometry.py:156 | A field's value in the store: None without its element, RecursionError for a single `str` name, and None exactly when some name is missing. |
| Geometry.FromDataSucceeds | plytorch/basic_geometry.py:155-165 | `from_data` succeeds iff no lookup raises and every required field is found. |
| Geometry.FromDataKeys | plytorch/basic_geometry.py:155-157 | The result's keys are exactly the names of the fields that are found. |
| Geometry.FromDataValues | plytorch/basic_geometry.py:156-157 | A found field not shadowed by a later field of the same name maps to its lookup result. |
| Geometry.FromDataStep | plytorch/basic_geometry.py:155-165 | One field's outcome: a raising lookup or a missing required field ends the call with that error, an optional missing one is skipped, a found one is stored. |
| Geometry.FromDataStops | plytorch/basic_geometry.py:159-165 | After the first error no later field changes the outcome. |
| Geometry.FromData | plytorch/basic_geometry.py:151-166 | The field loop computes FromDataSpec. |
| Geometry.ToDataSucceeds | plytorch/basic_geometry.py:172-180 | `to_data` succeeds iff every present value can be split and every required field has a value. |
| Geometry.ToDataElements | plytorch/basic_geometry.py:170-174 | The result's elements are exactly those of the fields with a value. |
| Geometry.ToDataStops | plytorch/basic_geometry.py:176-180 | After the first error no later field changes the outcome. |
| Geometry.ToDataStep | plytorch/basic_geometry.py:172-180 | One field's outcome: a missing required field or a failing split ends the call, an absent optional field is skipped, and a present one merges its columns into its element's map, later names overwriting. |
| Geometry.ToData | plytorch/basic_geometry.py:168-182 | The field loop computes ToDataSpec. |
| Geometry.ToDataHolds | plytorch/basic_geometry.py:168-182 | For columnar fields holding fitting matrices, every property of the result comes from some field with a value, and every such field's columns sit under its names in its element. |
| Geometry.ProjectOfToData | plytorch/basic_geometry.py:156-157 | On `to_data`'s output each field's lookup gives its own value, or None when it has none. |
| Geometry.FromDataOfExpected | plytorch/basic_geometry.py:151-166 | When every lookup gives the field's own value and required fields have one, `from_data` returns exactly the present values. |
| Geometry.RoundTrip | plytorch/basic_geometry.py:151-182 | Columnar fields holding matrices with one column per name survive `to_data` then `from_data`: the result is the fields with a value, keyed by field name. `from_data` reads `to_data`'s maps as `PLYElement`s, as `PLYData.load` wraps them (`plytorch/plydata.py:47`); a plain dict indexed by a tuple would raise KeyError instead. |
| PointCloud.PointCloudFieldList | plytorch/point_cloud.py:4-8 | BasicGeometry gathers no field. PointCloud gathers points, normals, colors and uv, in that order. |
| PointCloud.MeshFieldList | plytorch/point_cloud.py:15-16 | Mesh gathers PointCloud's fields, then faces. |
| PointCloud.PointCloudAnnots | plytorch/point_cloud.py:4-8 | PointCloud's annotation dict maps each of its four names to its metadata. |
| PointCloud.MeshAnnots | plytorch/point_cloud.py:15-16 | Mesh's annotation dict adds faces. |
| PointCloud.PointCloudColumnar | plytorch/point_cloud.py:5-8 | PointCloud's fields name distinct property lists on `vertex` that do not overlap. |
| PointCloud.Len | plytorch/point_cloud.py:10-12 | `len()` raises TypeError for None and for a 0-dimensional tensor, and is size(0) otherwise. |
| PointCloud.NumVertices | plytorch/point_cloud.py:10-12 | `num_vertices` is size(0) of points, and TypeError when points is None or 0-dimensional. |
| PointCloud.NumFaces | plytorch/point_cloud.py:18-20 | `num_faces` is size(0) of faces, and TypeError when faces is None or 0-dimensional. |
| PointCloud.LoadedVertices | plytorch/point_cloud.py:5-12 | A loaded PointCloud's points are the vertex element's x, y and z stacked, with shape [N, 3] + the shape of x after its first dimension (so [N, 3] for a scalar x), and `num_vertices` is N. |
| PointCloud.PointCloudInit | plytorch/point_cloud.py:4-12 | A PointCloud is constructed iff points is among the keywords and no other keyword is used. Then `num_vertices` is len of what was passed. |
| PointCloud.MeshInit | plytorch/point_cloud.py:15-20 | A Mesh needs points and faces among the keywords. Then `num_faces` is len of what was passed, so faces=None gives a Mesh whose `num_faces` raises. |
| PointCloud.MeshNeverLoads | plytorch/point_cloud.py:15-16 | Mesh.from_data always raises. When PointCloud's part succeeds, the error is RecursionError when a face element exists and the missing-field ValueError when it does not. |
| PointCloud.PointCloudRoundTrip | plytorch/point_cloud.py:4-8 | A PointCloud whose present fields are matrices with one column per property name, points among them, is returned unchanged by `to_data` then `from_data`, with the maps wrapped as `PLYElement`s as for Geometry.RoundTrip. |

## Left out

- The PLY parser (miniply) is not part of this model. Its result is an input: element names, counts, property types, list row counts, the extracted bytes, validity and file type. ASCII and big-endian parsing are therefore not modelled.
- File I/O is not modelled. The files and directories that exist are sets of paths, and whether an output stream opened is a boolean. The bytes written are the result, not a file. A failure writes nothing in the model. In the source, `write_float_ply` opens its output (`main.cpp:253`) before any check, so every failure still creates or truncates the file, and `write_ply` leaves the header written so far when `get_ply_dtype` throws (`main.cpp:171`).
- `is_big_endian` is a parameter of the writer, because the host byte order cannot be observed here.
- Tensor values are bytes only. No float arithmetic and no device other than "on the CPU or not" is modelled. `to`, `cuda` and `cpu` of BasicGeometry are not modelled, and ToCpu only sets the flag.
- Every tensor is taken to be contiguous and row-major. `contiguous()` is the identity.
- The pybind11 bindings, `pyprint`, `BasicGeometry.load`/`save` (compositions of modelled calls), and the `__repr__` methods are not modelled. Error message texts are not modelled either.
- Python reflection (`__annotations__`, `__bases__`, `get_origin`) is replaced by an explicit class table of annotations and base indices.
- `PLYData`/`PLYElement` attribute access is `dict.get` on the name. A name that is also a `dict` method (for example `items`) would find the method instead; that is not modelled.
- `torch.stack` with mixed dtypes is a StackFailed failure. Type promotion is not modelled.
- The `dtype` of `field`/`vertex_field` is never read by the code and is dropped.
- The iteration order of the `unordered_map`s that `write_ply` receives is an explicit enumeration. PlyData.Save takes the enumeration as a parameter, constrained to list every element and property of the store exactly once.
- Keyword arguments are a map. Their order affects only which error message is raised.
- PlyRead.PropertyTensor: a list property of an element with no records counts as irregular. The source then reads `rowcounts[0]` of an empty vector (`main.cpp:100`), which is undefined behaviour.
- PlyWrite.WritePly: callers must give every element a property and buffers long enough for the rows the body reads, because the source reads out of bounds otherwise. The same holds for tensors of rank above 2: rank-3 and higher lists are written from a payload of size(1) items per row, misaligned with the data, and the model requires the buffer to cover what is read.
- PlyWrite.WritePly: the whole-file writer uses the corrected header of the Findings row, so a list of 256 items or more fails with ListTooLong (PlyWrite.DeclareColumn). The source raises nothing there; it declares `list uchar` and writes the count mod 256 and that many items per row (PlyWrite.ListCellAsWritten). PlyData.SavePassesThrough inherits the same correction.
- PlyWrite.ListCellAsWritten: `list_sizes` is a `char`. On a signed-char target a width of 128 to 255 becomes negative and the multiplication wraps, so the write is enormous. The model treats the count as unsigned.
- PointCloud.Len: None and a 0-dimensional tensor raise the same TypeError. The message texts differ, and the model does not tell them apart.

## Findings

| source | as written | input that shows it | evidently intended | confidence | as-written member | corrected member |
|---|---|---|---|---|---|---|
| main.cpp:180-204 | The list count is kept in a `char`, so a list of width k writes the count byte and the payload for k mod 256 items. | A one-row uint8 list property of 256 items is written as the single byte 0, and every later row and property is misaligned. | Reject lists wider than 255 (the `uchar` count type declared in the header), or use a wider count type. | not executed | PlyWrite.ListCellAsWritten, PlyWrite.ListCountWraps | PlyWrite.DeclareColumn, PlyWrite.ListCellCounts |
