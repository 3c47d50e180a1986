/**
 * write_ply of main.cpp: a text header declaring every element and property,
 * followed by a binary body that interleaves the properties row by row.
 *
 * The two unordered maps the writer receives are enumerated here as
 * sequences; header and body both follow that one enumeration.
 */
module PlyWrite {

  import opened Wrappers
  import opened Seqs
  import opened Text
  import opened Errors
  import opened DTypes
  import opened Tensors

  /** A property to write: its name and its tensor. */
  datatype Column = Column(name: string, tensor: Tensor)

  /** An element to write: its name and its properties. */
  datatype Element = Element(name: string, columns: seq<Column>)

  /** num_rows is a uint32_t. */
  const RowLimit: nat := 0x1_0000_0000

  /** A property is written as a list when it has a second dimension longer than 1. */
  predicate IsListColumn(t: Tensor) { Rank(t) > 1 && t.shape[1] > 1 }

  /** The list length of a list property (list_sizes), 0 for a scalar one. */
  function ListWidth(t: Tensor): nat { if IsListColumn(t) then t.shape[1] else 0 }

  function Stride(t: Tensor): nat { ItemSize(t.dtype) }

  /** The data bytes of one row of a property: k items for a list, one item otherwise. */
  function Payload(t: Tensor): nat
  {
    if IsListColumn(t) then Stride(t) * t.shape[1] else Stride(t)
  }

  /** The number of rows the body holds: size(0) of the first property, truncated to 32 bits. */
  function Rows(el: Element): nat
    requires |el.columns| > 0
  {
    var t := el.columns[0].tensor;
    if Rank(t) == 0 then 0 else t.shape[0] % RowLimit
  }

  /**
   * What the writer takes for granted of its callers: every element has a
   * property, every buffer is on the CPU and holds the rows the body reads.
   */
  predicate Readable(el: Element)
  {
    && |el.columns| > 0
    && forall p | 0 <= p < |el.columns| ::
         el.columns[p].tensor.onCpu && Rows(el) * Payload(el.columns[p].tensor) <= |el.columns[p].tensor.data|
  }

  predicate WriteReady(els: seq<Element>)
  {
    forall e | 0 <= e < |els| :: Readable(els[e])
  }

  // ---------------------------------------------------------------------
  // The header

  datatype PropHeader = PropHeader(name: string, token: string, isList: bool)

  datatype ElementHeader = ElementHeader(name: string, count: nat, props: seq<PropHeader>)

  /** A property write_ply can declare: get_ply_dtype knows its type, and a list fits the uchar count. */
  predicate Declarable(c: Column)
  {
    HasPlyType(c.tensor.dtype) && ListWidth(c.tensor) < 256
  }

  /**
   * The declaration of one property: its type token, which get_ply_dtype
   * must know; a list longer than the uchar count can hold is refused.
   */
  function DeclareColumn(c: Column): (r: Result<PropHeader, CodecError>)
    ensures r.Success? <==> Declarable(c)
  {
    var token :- GetPlyDtype(c.tensor.dtype);
    if ListWidth(c.tensor) > 255 then Failure(ListTooLong)
    else Success(PropHeader(c.name, token, IsListColumn(c.tensor)))
  }

  /**
   * An unknown type is reported as such, a list too long otherwise; a
   * declaration keeps the name and the list flag and names a type token of
   * the property's own width that holds no space or line feed.
   */
  lemma DeclareColumnFacts(c: Column)
    ensures !HasPlyType(c.tensor.dtype) ==> DeclareColumn(c) == Failure(NoPlyType)
    ensures HasPlyType(c.tensor.dtype) && ListWidth(c.tensor) >= 256 ==> DeclareColumn(c) == Failure(ListTooLong)
    ensures Declarable(c) ==>
      var h := DeclareColumn(c).value;
      && h.name == c.name
      && h.isList == IsListColumn(c.tensor)
      && TokenWidth(h.token) == Some(Stride(c.tensor))
      && ' ' !in h.token && '\n' !in h.token
  {
    if HasPlyType(c.tensor.dtype) {
      PlyTokenWidth(c.tensor.dtype);
    }
  }

  /** The declarations of the first k properties, or the first error among them. */
  function DeclareColumns(cs: seq<Column>, k: nat): (r: Result<seq<PropHeader>, CodecError>)
    requires k <= |cs|
    ensures r.Success? ==> |r.value| == k
  {
    if k == 0 then Success([])
    else
      var hs :- DeclareColumns(cs, k - 1);
      var h :- DeclareColumn(cs[k - 1]);
      Success(hs + [h])
  }

  /** The first k properties can be declared exactly when each of them can. */
  lemma {:induction false} ColumnsDeclared(cs: seq<Column>, k: nat)
    requires k <= |cs|
    ensures DeclareColumns(cs, k).Success? <==> forall p | 0 <= p < k :: Declarable(cs[p])
  {
    if k > 0 {
      ColumnsDeclared(cs, k - 1);
    }
  }

  /** Declaration p of a successful run is the declaration of property p. */
  lemma {:induction false} ColumnsValue(cs: seq<Column>, k: nat, p: nat)
    requires p < k <= |cs| && DeclareColumns(cs, k).Success?
    ensures Declarable(cs[p]) && DeclareColumns(cs, k).value[p] == DeclareColumn(cs[p]).value
  {
    if p < k - 1 {
      ColumnsValue(cs, k - 1, p);
    }
  }

  /** A run of declarations stops at the first property that cannot be declared, with its error. */
  lemma {:induction false} ColumnsFirstFailure(cs: seq<Column>, k: nat, j: nat)
    requires j < k <= |cs|
    requires forall l | 0 <= l < j :: Declarable(cs[l])
    requires !Declarable(cs[j])
    ensures DeclareColumns(cs, k) == Failure(DeclareColumn(cs[j]).error)
  {
    if j < k - 1 {
      ColumnsFirstFailure(cs, k - 1, j);
    } else {
      ColumnsDeclared(cs, j);
    }
  }

  /** Every element has a property, so has a first property to count rows by. */
  predicate HasColumns(els: seq<Element>)
  {
    forall e | 0 <= e < |els| :: |els[e].columns| > 0
  }

  /**
   * The declaration of one element: its row count is size(0) of its first
   * property, which a 0-dimensional tensor does not have.
   */
  function DeclareElement(el: Element): (r: Result<ElementHeader, CodecError>)
    requires |el.columns| > 0
    ensures r.Success? ==> Rank(el.columns[0].tensor) > 0 && |r.value.props| == |el.columns|
  {
    var first := el.columns[0].tensor;
    if Rank(first) == 0 then Failure(NoDimensions)
    else
      var props :- DeclareColumns(el.columns, |el.columns|);
      Success(ElementHeader(el.name, first.shape[0], props))
  }

  /**
   * An element is declared when its first property has a dimension and
   * every property can be declared; its count is size(0) of the first
   * property, which the body truncates to 32 bits.
   */
  lemma DeclareElementFacts(el: Element)
    requires |el.columns| > 0
    ensures Rank(el.columns[0].tensor) == 0 ==> DeclareElement(el) == Failure(NoDimensions)
    ensures DeclareElement(el).Success? <==>
      Rank(el.columns[0].tensor) > 0 && forall p | 0 <= p < |el.columns| :: Declarable(el.columns[p])
    ensures DeclareElement(el).Success? ==>
      var h := DeclareElement(el).value;
      && h.name == el.name
      && h.count == el.columns[0].tensor.shape[0]
      && h.count % RowLimit == Rows(el)
      && h.props == DeclareColumns(el.columns, |el.columns|).value
  {
    ColumnsDeclared(el.columns, |el.columns|);
  }

  /** The declarations of the first k elements, or the first error among them. */
  function DeclareAll(els: seq<Element>, k: nat): (r: Result<seq<ElementHeader>, CodecError>)
    requires k <= |els| && HasColumns(els)
    ensures r.Success? ==> |r.value| == k
  {
    if k == 0 then Success([])
    else
      var hs :- DeclareAll(els, k - 1);
      var h :- DeclareElement(els[k - 1]);
      Success(hs + [h])
  }

  /** The first k elements can be declared exactly when each of them can. */
  lemma {:induction false} AllDeclared(els: seq<Element>, k: nat)
    requires k <= |els| && HasColumns(els)
    ensures DeclareAll(els, k).Success? <==> forall e | 0 <= e < k :: DeclareElement(els[e]).Success?
  {
    if k > 0 {
      AllDeclared(els, k - 1);
    }
  }

  /** Declaration e of a successful run is the declaration of element e. */
  lemma {:induction false} AllValue(els: seq<Element>, k: nat, e: nat)
    requires e < k <= |els| && HasColumns(els) && DeclareAll(els, k).Success?
    ensures DeclareElement(els[e]).Success? && DeclareAll(els, k).value[e] == DeclareElement(els[e]).value
  {
    if e < k - 1 {
      AllValue(els, k - 1, e);
    }
  }

  /** A run of element declarations stops at the first element that cannot be declared, with its error. */
  lemma {:induction false} AllFirstFailure(els: seq<Element>, k: nat, j: nat)
    requires j < k <= |els| && HasColumns(els)
    requires forall l | 0 <= l < j :: DeclareElement(els[l]).Success?
    requires DeclareElement(els[j]).Failure?
    ensures DeclareAll(els, k) == Failure(DeclareElement(els[j]).error)
  {
    if j < k - 1 {
      AllFirstFailure(els, k - 1, j);
    } else {
      AllDeclared(els, j);
    }
  }

  /** The format line names the byte order of the host. */
  function FormatLine(bigEndian: bool): string
  {
    if bigEndian then "format binary_big_endian 1.0" else "format binary_little_endian 1.0"
  }

  function ElementLine(h: ElementHeader): string
  {
    "element " + h.name + " " + NatToString(h.count)
  }

  function PropLine(h: PropHeader): string
  {
    if h.isList then "property list uchar " + h.token + " " + h.name
    else "property " + h.token + " " + h.name
  }

  function PropLines(ps: seq<PropHeader>): (lines: seq<string>)
    ensures |lines| == |ps|
  {
    if |ps| == 0 then [] else [PropLine(ps[0])] + PropLines(ps[1..])
  }

  function ElementLines(h: ElementHeader): seq<string>
  {
    [ElementLine(h)] + PropLines(h.props)
  }

  function DeclLines(hs: seq<ElementHeader>): seq<string>
  {
    if |hs| == 0 then [] else ElementLines(hs[0]) + DeclLines(hs[1..])
  }

  /** The header's lines: ply, the format, every element with its properties, end_header. */
  function HeaderLines(bigEndian: bool, hs: seq<ElementHeader>): seq<string>
  {
    ["ply", FormatLine(bigEndian)] + DeclLines(hs) + ["end_header"]
  }

  function HeaderText(bigEndian: bool, hs: seq<ElementHeader>): string
  {
    JoinLines(HeaderLines(bigEndian, hs))
  }

  /** The header write_ply emits, or the error that stops it. */
  function HeaderSpec(bigEndian: bool, els: seq<Element>): Result<string, CodecError>
    requires HasColumns(els)
  {
    var hs :- DeclareAll(els, |els|);
    Success(HeaderText(bigEndian, hs))
  }

  lemma {:induction false} PropLinesSnoc(ps: seq<PropHeader>, p: PropHeader)
    ensures PropLines(ps + [p]) == PropLines(ps) + [PropLine(p)]
  {
    if |ps| == 0 {
      assert ps + [p] == [p];
    } else {
      assert (ps + [p])[1..] == ps[1..] + [p];
      PropLinesSnoc(ps[1..], p);
    }
  }

  lemma {:induction false} DeclLinesSnoc(hs: seq<ElementHeader>, h: ElementHeader)
    ensures DeclLines(hs + [h]) == DeclLines(hs) + ElementLines(h)
  {
    if |hs| == 0 {
      assert hs + [h] == [h];
    } else {
      assert (hs + [h])[1..] == hs[1..] + [h];
      DeclLinesSnoc(hs[1..], h);
    }
  }

  lemma JoinLinesSnoc(lines: seq<string>, line: string)
    ensures JoinLines(lines + [line]) == JoinLines(lines) + line + "\n"
  {
    JoinLinesAppend(lines, [line]);
    assert [line][1..] == [];
  }

  /** The header lines of one element, or the error that stops it. */
  function ElementText(el: Element): Result<string, CodecError>
    requires |el.columns| > 0
  {
    var h :- DeclareElement(el);
    Success(JoinLines(ElementLines(h)))
  }

  /** The element line as write_ply prints it, before any property line. */
  lemma ElementStart(el: Element, count: nat)
    ensures "element " + el.name + " " + NatToString(count) + "\n"
         == JoinLines([ElementLine(ElementHeader(el.name, count, []))] + PropLines([]))
  {
    var line := ElementLine(ElementHeader(el.name, count, []));
    JoinLinesSnoc([], line);
    assert [line] + PropLines([]) == [] + [line];
  }

  /**
   * Property p, declared after the first p: it ends the element with its
   * error, or its declaration follows the ones so far and its line the lines so far.
   */
  lemma ColumnStep(el: Element, p: nat, ps: seq<PropHeader>, token: Result<string, CodecError>)
    requires p < |el.columns| && Rank(el.columns[0].tensor) > 0
    requires DeclareColumns(el.columns, p) == Success(ps)
    requires token == GetPlyDtype(el.columns[p].tensor.dtype)
    ensures var c := el.columns[p];
      (token.Failure? || ListWidth(c.tensor) > 255) ==> ElementText(el) == Failure(DeclareColumn(c).error)
    ensures var c := el.columns[p];
      token.Success? && ListWidth(c.tensor) <= 255 ==>
        var ph := PropHeader(c.name, token.value, IsListColumn(c.tensor));
        DeclareColumns(el.columns, p + 1) == Success(ps + [ph])
  {
    var c := el.columns[p];
    if token.Failure? || ListWidth(c.tensor) > 255 {
      ColumnsDeclared(el.columns, p);
      ColumnsFirstFailure(el.columns, |el.columns|, p);
    }
  }

  /** One more property line after the lines so far. */
  lemma PropTextStep(first: string, ps: seq<PropHeader>, ph: PropHeader)
    ensures JoinLines([first] + PropLines(ps + [ph])) == JoinLines([first] + PropLines(ps)) + PropLine(ph) + "\n"
  {
    PropLinesSnoc(ps, ph);
    JoinLinesSnoc([first] + PropLines(ps), PropLine(ph));
    assert [first] + PropLines(ps + [ph]) == ([first] + PropLines(ps)) + [PropLine(ph)];
  }

  /** Once every property is declared, the element's lines are its element line and property lines. */
  lemma ElementDone(el: Element, ps: seq<PropHeader>)
    requires |el.columns| > 0 && Rank(el.columns[0].tensor) > 0
    requires DeclareColumns(el.columns, |el.columns|) == Success(ps)
    ensures var first := el.columns[0].tensor;
      ElementText(el) == Success(JoinLines([ElementLine(ElementHeader(el.name, first.shape[0], []))] + PropLines(ps)))
  {
    var h := ElementHeader(el.name, el.columns[0].tensor.shape[0], ps);
    assert DeclareElement(el) == Success(h);
    assert ElementLine(h) == ElementLine(ElementHeader(el.name, el.columns[0].tensor.shape[0], []));
  }

  /** The header loop of write_ply for one element: its element line, then one line per property. */
  method WriteElementHeader(el: Element) returns (r: Result<string, CodecError>)
    requires |el.columns| > 0
    ensures r == ElementText(el)
  {
    var first := el.columns[0].tensor;
    if Rank(first) == 0 {
      return Failure(NoDimensions);
    }
    ghost var eh := ElementHeader(el.name, first.shape[0], []);
    var text := "element " + el.name + " " + NatToString(first.shape[0]) + "\n";
    ElementStart(el, first.shape[0]);
    ghost var ps: seq<PropHeader> := [];
    var p := 0;
    while p < |el.columns|
      invariant 0 <= p <= |el.columns|
      invariant DeclareColumns(el.columns, p) == Success(ps)
      invariant text == JoinLines([ElementLine(eh)] + PropLines(ps))
    {
      var c := el.columns[p];
      var token := GetPlyDtype(c.tensor.dtype);
      ColumnStep(el, p, ps, token);
      if token.Failure? || ListWidth(c.tensor) > 255 {
        return Failure(DeclareColumn(c).error);
      }
      ghost var ph := PropHeader(c.name, token.value, IsListColumn(c.tensor));
      var line := if IsListColumn(c.tensor) then "property list uchar " else "property ";
      line := line + token.value + " " + c.name;
      assert line == PropLine(ph);
      PropTextStep(ElementLine(eh), ps, ph);
      text := text + line + "\n";
      ps := ps + [ph];
      p := p + 1;
    }
    ElementDone(el, ps);
    r := Success(text);
  }

  /** The lines of the first elements' declarations, joined, extend by one element's lines. */
  lemma DeclTextSnoc(head: seq<string>, hs: seq<ElementHeader>, h: ElementHeader)
    ensures JoinLines(head + DeclLines(hs + [h])) == JoinLines(head + DeclLines(hs)) + JoinLines(ElementLines(h))
  {
    DeclLinesSnoc(hs, h);
    var a, b := head + DeclLines(hs), ElementLines(h);
    assert head + DeclLines(hs + [h]) == a + b;
    JoinLinesAppend(a, b);
  }

  /**
   * Element e, declared after the first e: it ends the header with its
   * error, or its lines follow the lines written so far.
   */
  lemma HeaderStep(bigEndian: bool, els: seq<Element>, e: nat, hs: seq<ElementHeader>)
    requires HasColumns(els) && e < |els| && DeclareAll(els, e) == Success(hs)
    ensures var d, t, head := DeclareElement(els[e]), ElementText(els[e]), ["ply", FormatLine(bigEndian)];
      && (d.Failure? ==> t.Failure? && HeaderSpec(bigEndian, els) == Failure(t.error))
      && (d.Success? ==>
            && t == Success(JoinLines(ElementLines(d.value)))
            && DeclareAll(els, e + 1) == Success(hs + [d.value])
            && JoinLines(head + DeclLines(hs + [d.value])) == JoinLines(head + DeclLines(hs)) + t.value)
  {
    var d, head := DeclareElement(els[e]), ["ply", FormatLine(bigEndian)];
    if d.Failure? {
      AllDeclared(els, e);
      AllFirstFailure(els, |els|, e);
    } else {
      DeclTextSnoc(head, hs, d.value);
    }
  }

  /** Before any element, the header is its first two lines. */
  lemma HeaderStart(bigEndian: bool)
    ensures "ply\n" + FormatLine(bigEndian) + "\n" == JoinLines(["ply", FormatLine(bigEndian)] + DeclLines([]))
  {
    var head := ["ply", FormatLine(bigEndian)];
    JoinLinesSnoc([], "ply");
    JoinLinesSnoc(["ply"], FormatLine(bigEndian));
    assert ["ply"] + [FormatLine(bigEndian)] == head == head + DeclLines([]);
    assert "ply" + "\n" == "ply\n";
  }

  /** The header text is the lines so far, then end_header. */
  lemma HeaderTextSnoc(bigEndian: bool, hs: seq<ElementHeader>)
    ensures HeaderText(bigEndian, hs) == JoinLines(["ply", FormatLine(bigEndian)] + DeclLines(hs)) + "end_header\n"
  {
    var lines := ["ply", FormatLine(bigEndian)] + DeclLines(hs);
    JoinLinesSnoc(lines, "end_header");
    assert HeaderLines(bigEndian, hs) == lines + ["end_header"];
    assert "end_header" + "\n" == "end_header\n";
  }

  /** Once every element is declared, end_header closes the header. */
  lemma HeaderDone(bigEndian: bool, els: seq<Element>, hs: seq<ElementHeader>)
    requires HasColumns(els) && DeclareAll(els, |els|) == Success(hs)
    ensures HeaderSpec(bigEndian, els) == Success(JoinLines(["ply", FormatLine(bigEndian)] + DeclLines(hs)) + "end_header\n")
  {
    HeaderTextSnoc(bigEndian, hs);
  }

  /** The header of write_ply: ply, the format line, every element's lines, end_header. */
  method WriteHeader(bigEndian: bool, els: seq<Element>) returns (r: Result<string, CodecError>)
    requires HasColumns(els)
    ensures r == HeaderSpec(bigEndian, els)
  {
    ghost var head := ["ply", FormatLine(bigEndian)];
    var text := "ply\n" + FormatLine(bigEndian) + "\n";
    HeaderStart(bigEndian);
    ghost var hs: seq<ElementHeader> := [];
    var e := 0;
    while e < |els|
      invariant 0 <= e <= |els|
      invariant DeclareAll(els, e) == Success(hs)
      invariant text == JoinLines(head + DeclLines(hs))
    {
      var piece := WriteElementHeader(els[e]);
      HeaderStep(bigEndian, els, e, hs);
      if piece.Failure? {
        return Failure(piece.error);
      }
      ghost var h := DeclareElement(els[e]).value;
      text := text + piece.value;
      hs := hs + [h];
      e := e + 1;
    }
    HeaderDone(bigEndian, els, hs);
    text := text + "end_header\n";
    r := Success(text);
  }

  // ---------------------------------------------------------------------
  // The body

  /** Row r of a property fits its buffer. */
  lemma CellBounds(el: Element, p: nat, r: nat)
    requires Readable(el) && p < |el.columns| && r < Rows(el)
    ensures var t := el.columns[p].tensor;
      && (r + 1) * Payload(t) <= |t.data|
      && r * Payload(t) + Payload(t) == (r + 1) * Payload(t)
  {
    var t := el.columns[p].tensor;
    MulLe(r + 1, Rows(el), Payload(t));
    Distrib(r, 1, Payload(t));
  }

  /**
   * The bytes of row r of a property: for a list, its length in one byte
   * (char(k), k modulo 256), then its items; otherwise the one item.
   */
  function Cell(t: Tensor, r: nat): (c: seq<byte>)
    requires (r + 1) * Payload(t) <= |t.data|
    ensures |c| == (if IsListColumn(t) then 1 else 0) + Payload(t)
  {
    var items := Chunk(t.data, Payload(t), r);
    if IsListColumn(t) then [(ListWidth(t) % 256) as byte] + items else items
  }

  /**
   * The cell of a list property as the loop of main.cpp is written: the
   * width passes through a char (list_sizes), so width k is stored, and
   * copied and advanced over, as k mod 256 items (an unsigned char assumed).
   */
  function ListCellAsWritten(t: Tensor, r: nat): (c: seq<byte>)
    requires IsListColumn(t) && (r + 1) * (Stride(t) * (ListWidth(t) % 256)) <= |t.data|
    ensures |c| == 1 + Stride(t) * (ListWidth(t) % 256)
    ensures c[0] as int == ListWidth(t) % 256
  {
    var k := ListWidth(t) % 256;
    [k as byte] + Chunk(t.data, Stride(t) * k, r)
  }

  /** One row holding a list of 256 one-byte items. */
  function WideList(): Tensor
  {
    assert Numel([1, 256]) == 256 by {
      assert Numel([256]) == 256 * Numel([]);
      assert [1, 256][1..] == [256];
    }
    RawTensor(UInt8, [1, 256], seq(256, _ => 0 as byte), true)
  }

  /**
   * As written, a row of 256 items is emitted as the single byte 0: the
   * count claims an empty list and none of the 256 items reach the file,
   * the reader's next cell starting where this row's items should be.
   * The model refuses such a property before anything is written.
   */
  lemma ListCountWraps()
    ensures IsListColumn(WideList()) && ListWidth(WideList()) == 256 && Payload(WideList()) == 256
    ensures ListCellAsWritten(WideList(), 0) == [0 as byte]
    ensures DeclareColumn(Column("vertex_indices", WideList())) == Failure(ListTooLong)
  {
    var t := WideList();
    assert Chunk(t.data, 0, 0) == [];
  }

  /**
   * For every list property the header can declare, the cell's count byte
   * is the list's width, the items after it are exactly row r's items, and
   * the cell agrees with the loop as written.
   */
  lemma ListCellCounts(t: Tensor, r: nat)
    requires IsListColumn(t) && ListWidth(t) < 256 && (r + 1) * Payload(t) <= |t.data|
    ensures Cell(t, r)[0] as int == ListWidth(t)
    ensures Cell(t, r)[1..] == Chunk(t.data, Payload(t), r)
    ensures |Cell(t, r)| == 1 + Stride(t) * ListWidth(t)
    ensures Cell(t, r) == ListCellAsWritten(t, r)
  {
  }

  /** The cells of properties p.. of row r, in property order. */
  function CellsFrom(el: Element, r: nat, p: nat): seq<byte>
    requires Readable(el) && r < Rows(el) && p <= |el.columns|
    decreases |el.columns| - p
  {
    if p == |el.columns| then []
    else
      CellBounds(el, p, r);
      Cell(el.columns[p].tensor, r) + CellsFrom(el, r, p + 1)
  }

  /** Rows r.. of an element, in row order. */
  function RowsFrom(el: Element, r: nat): seq<byte>
    requires Readable(el)
    decreases Rows(el) - r
  {
    if r >= Rows(el) then [] else CellsFrom(el, r, 0) + RowsFrom(el, r + 1)
  }

  /** Row r follows the rows before it. */
  lemma RowsStep(el: Element, r: nat, before: seq<byte>)
    requires Readable(el) && r < Rows(el)
    ensures before + RowsFrom(el, r) == (before + CellsFrom(el, r, 0)) + RowsFrom(el, r + 1)
  {}

  /** The bodies of elements e.., in element order. */
  function BodyFrom(els: seq<Element>, e: nat): seq<byte>
    requires WriteReady(els)
    decreases |els| - e
  {
    if e >= |els| then [] else RowsFrom(els[e], 0) + BodyFrom(els, e + 1)
  }

  /** The bytes one row of properties p.. takes: a count byte for each list, then each payload. */
  function WidthFrom(el: Element, p: nat): nat
    requires p <= |el.columns|
    decreases |el.columns| - p
  {
    if p == |el.columns| then 0
    else
      var t := el.columns[p].tensor;
      (if IsListColumn(t) then 1 else 0) + Payload(t) + WidthFrom(el, p + 1)
  }

  /** The bytes one row of an element takes: the sum over its properties of stride * k plus 1 for a list, stride for a scalar. */
  function RowWidth(el: Element): nat
  {
    WidthFrom(el, 0)
  }

  /** The cells of properties p.. of a row take WidthFrom(el, p) bytes. */
  lemma {:induction false} CellsLength(el: Element, r: nat, p: nat)
    requires Readable(el) && r < Rows(el) && p <= |el.columns|
    ensures |CellsFrom(el, r, p)| == WidthFrom(el, p)
    decreases |el.columns| - p
  {
    if p < |el.columns| {
      CellsLength(el, r, p + 1);
    }
  }

  /** Rows r.. of an element take one row width each. */
  lemma {:induction false} RowsLength(el: Element, r: nat)
    requires Readable(el) && r <= Rows(el)
    ensures |RowsFrom(el, r)| == (Rows(el) - r) * RowWidth(el)
    decreases Rows(el) - r
  {
    if r < Rows(el) {
      CellsLength(el, r, 0);
      RowsLength(el, r + 1);
      Distrib(Rows(el) - (r + 1), 1, RowWidth(el));
    }
  }

  /** The body size of elements e..: num_rows row widths per element. */
  function BodySize(els: seq<Element>, e: nat): nat
    requires WriteReady(els)
    decreases |els| - e
  {
    if e >= |els| then 0 else Rows(els[e]) * RowWidth(els[e]) + BodySize(els, e + 1)
  }

  /** The bodies of elements e.. take BodySize(els, e) bytes. */
  lemma {:induction false} BodyLength(els: seq<Element>, e: nat)
    requires WriteReady(els)
    ensures |BodyFrom(els, e)| == BodySize(els, e)
    decreases |els| - e
  {
    if e < |els| {
      RowsLength(els[e], 0);
      BodyLength(els, e + 1);
    }
  }

  /** write_ply as a value: the UTF-8 header followed by the body, or the header's error. */
  function WritePlySpec(bigEndian: bool, els: seq<Element>): Result<seq<byte>, CodecError>
    requires WriteReady(els)
  {
    var text :- HeaderSpec(bigEndian, els);
    Success(Utf8(text) + BodyFrom(els, 0))
  }

  /** A written file is its header's bytes followed by exactly BodySize(els, 0) body bytes. */
  lemma FileLength(bigEndian: bool, els: seq<Element>)
    requires WriteReady(els) && HeaderSpec(bigEndian, els).Success?
    ensures WritePlySpec(bigEndian, els).Success?
    ensures |WritePlySpec(bigEndian, els).value| == |Utf8(HeaderSpec(bigEndian, els).value)| + BodySize(els, 0)
  {
    BodyLength(els, 0);
  }

  /** A header that could be written names only types with a width, and lists the count byte can hold. */
  lemma {:induction false} DeclaredTypes(els: seq<Element>, e: nat)
    requires HasColumns(els)
    requires DeclareAll(els, |els|).Success? && e < |els|
    ensures AllDeclarable(els[e])
  {
    AllValue(els, |els|, e);
    DeclareElementFacts(els[e]);
  }

  /** Every property of the element can be declared. */
  predicate AllDeclarable(el: Element)
  {
    forall p | 0 <= p < |el.columns| :: Declarable(el.columns[p])
  }

  /** The strides, list flags and list lengths write_ply tabulates for the properties cols. */
  predicate Tables(cols: seq<Column>, strides: array<nat>, isList: array<bool>, listSizes: array<nat>)
    reads strides, isList, listSizes
  {
    && strides.Length == isList.Length == listSizes.Length == |cols|
    && forall q | 0 <= q < |cols| ::
         && strides[q] == Stride(cols[q].tensor)
         && isList[q] == IsListColumn(cols[q].tensor)
         && listSizes[q] == ListWidth(cols[q].tensor)
  }

  /** Every read offset stands at the start of row r of its property. */
  predicate OffsetsAt(cols: seq<Column>, src: array<nat>, r: nat)
    reads src
  {
    src.Length == |cols| && forall q | 0 <= q < |cols| :: src[q] == r * Payload(cols[q].tensor)
  }

  /** The tables hold the entries of the first i properties; the list lengths after them are still 0. */
  predicate FilledUpTo(cols: seq<Column>, i: nat, src: array<nat>, strides: array<nat>, isList: array<bool>, listSizes: array<nat>)
    reads src, strides, isList, listSizes
  {
    && i <= |cols|
    && src.Length == strides.Length == isList.Length == listSizes.Length == |cols|
    && (forall q | 0 <= q < i ::
          && src[q] == 0
          && strides[q] == Stride(cols[q].tensor)
          && isList[q] == IsListColumn(cols[q].tensor)
          && listSizes[q] == ListWidth(cols[q].tensor))
    && (forall q | i <= q < |cols| :: listSizes[q] == 0)
  }

  /** The table entries of property i: offset 0, its item width, whether it is a list and how long. */
  method FillEntry(cols: seq<Column>, i: nat, src: array<nat>, strides: array<nat>, isList: array<bool>, listSizes: array<nat>)
    requires i < |cols| && Declarable(cols[i])
    requires src != strides && src != listSizes && strides != listSizes
    requires FilledUpTo(cols, i, src, strides, isList, listSizes)
    modifies src, strides, isList, listSizes
    ensures FilledUpTo(cols, i + 1, src, strides, isList, listSizes)
  {
    var t := cols[i].tensor;
    src[i] := 0;
    var size := GetTorchDtypeSize(t.dtype);
    strides[i] := size.value;
    isList[i] := Rank(t) > 1 && t.shape[1] > 1;
    if isList[i] {
      listSizes[i] := t.shape[1];
    }
  }

  /** The per-property tables of write_ply: read offsets, strides, list flags and list lengths. */
  method PropertyTables(cols: seq<Column>) returns (src: array<nat>, strides: array<nat>, isList: array<bool>, listSizes: array<nat>)
    requires forall p | 0 <= p < |cols| :: Declarable(cols[p])
    ensures fresh(src) && fresh(strides) && fresh(isList) && fresh(listSizes)
    ensures src != strides && src != listSizes
    ensures OffsetsAt(cols, src, 0) && Tables(cols, strides, isList, listSizes)
  {
    var n := |cols|;
    src := new nat[n];
    strides := new nat[n];
    isList := new bool[n];
    listSizes := new nat[n](_ => 0);
    var i := 0;
    while i < n
      invariant 0 <= i <= n
      invariant FilledUpTo(cols, i, src, strides, isList, listSizes)
    {
      FillEntry(cols, i, src, strides, isList, listSizes);
      i := i + 1;
    }
  }

  /** The bytes one property contributes to row r, copied from read offset off, and the offset after them. */
  method CopyCell(t: Tensor, r: nat, off: nat, stride: nat, list: bool, k: nat) returns (piece: seq<byte>, next: nat)
    requires (r + 1) * Payload(t) <= |t.data|
    requires off == r * Payload(t) && stride == Stride(t) && list == IsListColumn(t) && k == ListWidth(t)
    ensures piece == Cell(t, r)
    ensures next == (r + 1) * Payload(t)
  {
    Distrib(r, 1, Payload(t));
    if !list {
      piece := t.data[off..off + stride];
      next := off + stride;
    } else {
      piece := [(k % 256) as byte] + t.data[off..off + stride * k];
      next := off + stride * k;
    }
  }

  /** Row r from property p on: property p's cell, then the rest. */
  lemma CellsStep(el: Element, r: nat, p: nat)
    requires Readable(el) && r < Rows(el) && p < |el.columns|
    ensures (r + 1) * Payload(el.columns[p].tensor) <= |el.columns[p].tensor.data|
    ensures CellsFrom(el, r, p) == Cell(el.columns[p].tensor, r) + CellsFrom(el, r, p + 1)
  {
    CellBounds(el, p, r);
  }

  /** Where row r of each property starts in its tensor's data. */
  ghost function Offsets(cols: seq<Column>, r: nat): (o: seq<nat>)
    ensures |o| == |cols|
    ensures forall q | 0 <= q < |cols| :: o[q] == r * Payload(cols[q].tensor)
  {
    seq(|cols|, q requires 0 <= q < |cols| => MulNonneg(r, Payload(cols[q].tensor)); r * Payload(cols[q].tensor))
  }

  /** Moves read offset p to its value after the row: offsets up to p stand after it, the rest before it. */
  method Advance(src: array<nat>, p: nat, next: nat, ghost before: seq<nat>, ghost after: seq<nat>)
    requires p < src.Length == |before| == |after| && next == after[p]
    requires forall q | 0 <= q < p :: src[q] == after[q]
    requires forall q | p <= q < src.Length :: src[q] == before[q]
    modifies src
    ensures forall q | 0 <= q < p + 1 :: src[q] == after[q]
    ensures forall q | p + 1 <= q < src.Length :: src[q] == before[q]
  {
    src[p] := next;
  }

  /** One row of the body: every property's cell, advancing its read offset. */
  method WriteRow(el: Element, r: nat, src: array<nat>, strides: array<nat>, isList: array<bool>, listSizes: array<nat>)
    returns (row: seq<byte>)
    requires Readable(el) && r < Rows(el)
    requires src != strides && src != listSizes
    requires OffsetsAt(el.columns, src, r) && Tables(el.columns, strides, isList, listSizes)
    modifies src
    ensures row == CellsFrom(el, r, 0)
    ensures OffsetsAt(el.columns, src, r + 1)
  {
    var cols := el.columns;
    var n := |cols|;
    row := [];
    ghost var before := Offsets(cols, r);
    ghost var after := Offsets(cols, r + 1);
    var p := 0;
    while p != n
      invariant 0 <= p <= n
      invariant row + CellsFrom(el, r, p) == CellsFrom(el, r, 0)
      invariant forall q | 0 <= q < p :: src[q] == after[q]
      invariant forall q | p <= q < n :: src[q] == before[q]
    {
      var piece := CopyStep(el, r, p, src, strides, isList, listSizes, before, after);
      row := row + piece;
      p := p + 1;
    }
  }

  /** One pass of the row loop: property p's cell is written and its read offset moved to row r + 1. */
  method CopyStep(el: Element, r: nat, p: nat, src: array<nat>, strides: array<nat>, isList: array<bool>, listSizes: array<nat>,
                  ghost before: seq<nat>, ghost after: seq<nat>)
    returns (piece: seq<byte>)
    requires Readable(el) && r < Rows(el) && p < |el.columns|
    requires src != strides && src != listSizes && Tables(el.columns, strides, isList, listSizes)
    requires before == Offsets(el.columns, r) && after == Offsets(el.columns, r + 1) && src.Length == |el.columns|
    requires forall q | 0 <= q < p :: src[q] == after[q]
    requires forall q | p <= q < src.Length :: src[q] == before[q]
    modifies src
    ensures forall q | 0 <= q < p + 1 :: src[q] == after[q]
    ensures forall q | p + 1 <= q < src.Length :: src[q] == before[q]
    ensures CellsFrom(el, r, p) == piece + CellsFrom(el, r, p + 1)
  {
    CellsStep(el, r, p);
    var next;
    piece, next := CopyCell(el.columns[p].tensor, r, src[p], strides[p], isList[p], listSizes[p]);
    Advance(src, p, next, before, after);
  }

  /** The body of one element: the per-property tables, then rows by properties. */
  method WriteElementBody(el: Element) returns (out: seq<byte>)
    requires Readable(el) && AllDeclarable(el)
    ensures out == RowsFrom(el, 0)
  {
    var cols := el.columns;
    var n := |cols|;
    var src, strides, isList, listSizes := PropertyTables(cols);
    var first := cols[0].tensor;
    var numRows := if Rank(first) == 0 then 0 else first.shape[0] % RowLimit;
    out := [];
    var r := 0;
    while r != numRows
      invariant 0 <= r <= numRows == Rows(el)
      invariant out + RowsFrom(el, r) == RowsFrom(el, 0)
      invariant OffsetsAt(cols, src, r) && Tables(cols, strides, isList, listSizes)
    {
      var row := WriteRow(el, r, src, strides, isList, listSizes);
      RowsStep(el, r, out);
      out := out + row;
      r := r + 1;
    }
  }

  /** The body loop of write_ply: every element's rows, in element order. */
  method WriteBody(els: seq<Element>) returns (out: seq<byte>)
    requires WriteReady(els) && forall e | 0 <= e < |els| :: AllDeclarable(els[e])
    ensures out == BodyFrom(els, 0)
  {
    out := [];
    var e := 0;
    while e < |els|
      invariant 0 <= e <= |els|
      invariant out + BodyFrom(els, e) == BodyFrom(els, 0)
    {
      var b := WriteElementBody(els[e]);
      assert BodyFrom(els, e) == b + BodyFrom(els, e + 1);
      assert (out + b) + BodyFrom(els, e + 1) == out + BodyFrom(els, e);
      out := out + b;
      e := e + 1;
    }
    assert out + BodyFrom(els, e) == out;
  }

  /** A header that could be written declares only properties the body can write. */
  lemma HeaderDeclarable(bigEndian: bool, els: seq<Element>)
    requires HasColumns(els) && HeaderSpec(bigEndian, els).Success?
    ensures forall e | 0 <= e < |els| :: AllDeclarable(els[e])
  {
    forall e | 0 <= e < |els| ensures AllDeclarable(els[e]) {
      DeclaredTypes(els, e);
    }
  }

  /** write_ply: the header, then the body of every element in the same order. */
  method WritePly(bigEndian: bool, els: seq<Element>) returns (r: Result<seq<byte>, CodecError>)
    requires WriteReady(els)
    ensures r == WritePlySpec(bigEndian, els)
  {
    var header := WriteHeader(bigEndian, els);
    if header.Failure? {
      return Failure(header.error);
    }
    HeaderDeclarable(bigEndian, els);
    var body := WriteBody(els);
    r := Success(Utf8(header.value) + body);
  }
}
