/**
 * plytorch/plydata.py: PLYElement, a dict from property names to tensors,
 * and PLYData, a dict from element names to PLYElements, with the composite
 * column lookup, sorted enumeration, attribute access and the path checks
 * load and save make before calling the native reader and writer.
 */
module PlyData {

  import opened Wrappers
  import opened Seqs
  import opened Text
  import opened Errors
  import opened Tensors
  import opened PlyRead
  import PlyWrite

  // ---------------------------------------------------------------------
  // PLYElement.__getitem__

  /** What __getitem__ is given: a single name, or a list or tuple of names. */
  datatype Key = Name(name: string) | Names(names: seq<string>)

  predicate AllPresent(el: Properties, ns: seq<string>)
  {
    forall j | 0 <= j < |ns| :: ns[j] in el
  }

  /** The tensors of the requested names, in request order. */
  function Requested(el: Properties, ns: seq<string>): (ts: seq<Tensor>)
    requires AllPresent(el, ns)
    ensures |ts| == |ns|
  {
    seq(|ns|, j requires 0 <= j < |ns| => el[ns[j]])
  }

  /**
   * el[key]: for names, None as soon as one is missing, else torch.stack of
   * their tensors along dimension 1; a single name re-enters __getitem__
   * with the same key and never returns, which Python ends with a RecursionError.
   */
  function Lookup(el: Properties, key: Key): (r: Result<Option<Tensor>, PyError>)
    ensures key.Name? ==> r == Failure(Recursion)
    ensures r == Success(None) <==> key.Names? && !AllPresent(el, key.names)
  {
    match key
    case Name(_) => Failure(Recursion)
    case Names(ns) =>
      if !AllPresent(el, ns) then Success(None)
      else
        match Stack(Requested(el, ns))
        case None => Failure(StackFailed)
        case Some(t) => Success(Some(t))
  }

  /** A lookup of names gives a tensor exactly when every name is present and their tensors can be stacked. */
  lemma LookupFound(el: Properties, ns: seq<string>)
    ensures Lookup(el, Names(ns)).Success? && Lookup(el, Names(ns)).value.Some?
        <==> AllPresent(el, ns) && Stackable(Requested(el, ns))
    ensures AllPresent(el, ns) && !Stackable(Requested(el, ns)) ==> Lookup(el, Names(ns)) == Failure(StackFailed)
  {}

  /**
   * The tensor found for names ns has one row per record and |ns| columns,
   * and entry j of row r is row r of property ns[j].
   */
  lemma LookupColumns(el: Properties, ns: seq<string>, r: nat, j: nat)
    requires Lookup(el, Names(ns)).Success? && Lookup(el, Names(ns)).value.Some?
    ensures AllPresent(el, ns) && |ns| > 0 && Rank(el[ns[0]]) > 0
    ensures var t := Lookup(el, Names(ns)).value.value;
      && t.shape == [el[ns[0]].shape[0], |ns|] + el[ns[0]].shape[1..]
      && t.dtype == el[ns[0]].dtype
    ensures r < el[ns[0]].shape[0] && j < |ns| ==>
      var t, w := Lookup(el, Names(ns)).value.value, RowSize(el[ns[0]]);
      && Rank(el[ns[j]]) > 0 && el[ns[j]].shape[0] == el[ns[0]].shape[0]
      && (r * |ns| + j + 1) * w <= |t.data|
      && Chunk(t.data, w, r * |ns| + j) == Row(el[ns[j]], r)
  {
    LookupFound(el, ns);
    var ts := Requested(el, ns);
    assert ts[0] == el[ns[0]];
    if r < el[ns[0]].shape[0] && j < |ns| {
      assert ts[j] == el[ns[j]];
      StackRow(ts, r, j);
    }
  }

  // ---------------------------------------------------------------------
  // Attribute access: __getattr__ = dict.get

  /** getattr(d, name) for a name that is no attribute of the dict class: the value, or None for an absent key. */
  function GetAttr<V>(d: map<string, V>, name: string): (r: Option<V>)
    ensures r.Some? <==> name in d
    ensures r.Some? ==> r.value == d[name]
  {
    if name in d then Some(d[name]) else None
  }

  // ---------------------------------------------------------------------
  // properties and elements: sorted(keys)

  /** Python's ordering of str: code point by code point, a proper prefix first. */
  predicate Less(a: string, b: string)
  {
    if |a| == 0 then |b| > 0
    else if |b| == 0 then false
    else if a[0] == b[0] then Less(a[1..], b[1..])
    else a[0] < b[0]
  }

  lemma {:induction false} LessIrreflexive(a: string)
    ensures !Less(a, a)
  {
    if |a| > 0 {
      LessIrreflexive(a[1..]);
    }
  }

  lemma {:induction false} LessTransitive(a: string, b: string, c: string)
    requires Less(a, b) && Less(b, c)
    ensures Less(a, c)
  {
    if |a| > 0 && |b| > 0 && |c| > 0 && a[0] == b[0] && b[0] == c[0] {
      LessTransitive(a[1..], b[1..], c[1..]);
    }
  }

  lemma {:induction false} LessTotal(a: string, b: string)
    requires a != b
    ensures Less(a, b) || Less(b, a)
  {
    if |a| > 0 && |b| > 0 && a[0] == b[0] {
      assert a == [a[0]] + a[1..] && b == [b[0]] + b[1..];
      LessTotal(a[1..], b[1..]);
    }
  }

  lemma {:induction false} LessAsymmetric(a: string, b: string)
    requires Less(a, b)
    ensures !Less(b, a)
  {
    if |a| > 0 && |b| > 0 && a[0] == b[0] {
      LessAsymmetric(a[1..], b[1..]);
    }
  }

  /** Ascending with no repetition. */
  predicate Ascending(s: seq<string>)
  {
    forall i, j | 0 <= i < j < |s| :: Less(s[i], s[j])
  }

  /** k placed into an ascending sequence at its place. */
  function Insert(k: string, s: seq<string>): (r: seq<string>)
    requires Ascending(s) && k !in s
    ensures Ascending(r) && |r| == |s| + 1
    ensures forall x :: x in r <==> x == k || x in s
  {
    if |s| == 0 then [k]
    else if Less(k, s[0]) then
      assert forall j | 0 < j < |s| :: Less(k, s[j]) by {
        forall j | 0 < j < |s| ensures Less(k, s[j]) { LessTransitive(k, s[0], s[j]); }
      }
      [k] + s
    else
      LessTotal(k, s[0]);
      var rest := Insert(k, s[1..]);
      assert forall j | 0 <= j < |rest| :: Less(s[0], rest[j]) by {
        forall j | 0 <= j < |rest| ensures Less(s[0], rest[j]) {
          assert rest[j] in rest;
          if rest[j] != k {
            var l :| 0 <= l < |s[1..]| && s[1..][l] == rest[j];
            assert s[l + 1] == rest[j];
          }
        }
      }
      assert forall x :: x in s <==> x == s[0] || x in s[1..] by {
        assert s == [s[0]] + s[1..];
      }
      [s[0]] + rest
  }

  /** The members of a finite set of names, ascending. */
  ghost function SortSet(names: set<string>): (r: seq<string>)
    ensures Ascending(r) && |r| == |names|
    ensures forall x :: x in r <==> x in names
    decreases names
  {
    if names == {} then []
    else
      var k :| k in names;
      Insert(k, SortSet(names - {k}))
  }

  /** An ascending sequence is fixed by its members: the sorted listing does not depend on how it was built. */
  lemma {:induction false} AscendingUnique(a: seq<string>, b: seq<string>)
    requires Ascending(a) && Ascending(b)
    requires forall x :: x in a <==> x in b
    ensures a == b
    decreases |a|
  {
    if |a| > 0 && |b| > 0 {
      assert a[0] in b && b[0] in a;
      if a[0] != b[0] {
        var i :| 0 <= i < |b| && b[i] == a[0];
        var j :| 0 <= j < |a| && a[j] == b[0];
        LessAsymmetric(a[0], a[j]);
        assert false;
      }
      forall x ensures x in a[1..] <==> x in b[1..] {
        TailMembers(a, x);
        TailMembers(b, x);
      }
      AscendingUnique(a[1..], b[1..]);
      assert a == [a[0]] + a[1..] && b == [b[0]] + b[1..];
    } else if |a| > 0 {
      FirstMember(a);
      assert false;
    } else if |b| > 0 {
      FirstMember(b);
      assert false;
    }
  }

  lemma FirstMember(s: seq<string>)
    requires |s| > 0
    ensures s[0] in s
  {}

  /** The members of the tail of an ascending sequence are its members other than the first. */
  lemma TailMembers(s: seq<string>, x: string)
    requires Ascending(s) && |s| > 0
    ensures x in s[1..] <==> x in s && x != s[0]
  {
    assert s == [s[0]] + s[1..];
    if x in s[1..] {
      var i :| 0 <= i < |s[1..]| && s[1..][i] == x;
      assert Less(s[0], s[i + 1]);
      LessIrreflexive(s[0]);
    }
  }

  /** PLYElement.properties: the property names, ascending. */
  ghost function PropertyNames(el: Properties): (r: seq<string>)
    ensures Ascending(r) && forall x :: x in r <==> x in el
  {
    SortSet(el.Keys)
  }

  /** PLYData.elements: the element names, ascending. */
  ghost function ElementNames(data: Elements): (r: seq<string>)
    ensures Ascending(r) && forall x :: x in r <==> x in data
  {
    SortSet(data.Keys)
  }

  /** Any ascending listing of an element's names is its properties. */
  lemma PropertyNamesUnique(el: Properties, s: seq<string>)
    requires Ascending(s) && forall x :: x in s <==> x in el
    ensures PropertyNames(el) == s
  {
    AscendingUnique(PropertyNames(el), s);
  }

  /** Any ascending listing of the element names is the elements. */
  lemma ElementNamesUnique(data: Elements, s: seq<string>)
    requires Ascending(s) && forall x :: x in s <==> x in data
    ensures ElementNames(data) == s
  {
    AscendingUnique(ElementNames(data), s);
  }

  // ---------------------------------------------------------------------
  // Paths: os.path.dirname, isfile and isdir

  /** p[:p.rfind('/') + 1]: p up to and including its last '/', empty when it has none. */
  function SlashHead(p: string): (h: string)
    ensures |h| <= |p| && h == p[..|h|]
    ensures |h| > 0 ==> h[|h| - 1] == '/'
  {
    if |p| == 0 then ""
    else if p[|p| - 1] == '/' then p
    else SlashHead(p[..|p| - 1])
  }

  function StripSlashes(h: string): (r: string)
    ensures |r| <= |h| && r == h[..|r|]
  {
    if |h| > 0 && h[|h| - 1] == '/' then StripSlashes(h[..|h| - 1]) else h
  }

  predicate AllSlashes(h: string)
  {
    forall i | 0 <= i < |h| :: h[i] == '/'
  }

  /** os.path.dirname (posixpath): the head before the last '/', trailing slashes removed unless it is only slashes. */
  function Dirname(p: string): string
  {
    var head := SlashHead(p);
    if head != "" && !AllSlashes(head) then StripSlashes(head) else head
  }

  /** A name with no '/' has an empty directory part. */
  lemma {:induction false} SlashHeadBare(p: string)
    requires '/' !in p
    ensures SlashHead(p) == ""
  {
    if |p| > 0 {
      assert p[|p| - 1] in p;
      assert forall c | c in p[..|p| - 1] :: c in p;
      SlashHeadBare(p[..|p| - 1]);
    }
  }

  /** A trailing name with no '/' does not move the last '/'. */
  lemma {:induction false} SlashHeadAppend(d: string, name: string)
    requires '/' !in name
    ensures SlashHead(d + name) == SlashHead(d)
    decreases |name|
  {
    if |name| > 0 {
      var p := d + name;
      assert p[|p| - 1] == name[|name| - 1];
      assert name[|name| - 1] in name;
      assert p[..|p| - 1] == d + name[..|name| - 1];
      assert forall c | c in name[..|name| - 1] :: c in name;
      SlashHeadAppend(d, name[..|name| - 1]);
    } else {
      assert d + name == d;
    }
  }

  lemma BareDirname(p: string)
    requires '/' !in p
    ensures Dirname(p) == ""
  {
    SlashHeadBare(p);
  }

  /** The directory of d + "/" + name is d itself, for a directory not ending in '/' and a name with no '/'. */
  lemma DirnameOfJoin(d: string, name: string)
    requires d != "" && d[|d| - 1] != '/' && '/' !in name
    ensures Dirname(d + "/" + name) == d
  {
    SlashHeadAppend(d + "/", name);
    var head := d + "/";
    assert SlashHead(head) == head;
    assert head[|d| - 1] != '/';
    assert head[..|head| - 1] == d;
    assert StripSlashes(d) == d;
  }

  /** os.path.isdir: the empty path is never a directory. */
  predicate IsDir(dirs: set<string>, p: string)
  {
    p != "" && p in dirs
  }

  // ---------------------------------------------------------------------
  // PLYData.load

  /**
   * PLYData.load(path) for a file the native parser reads as f:
   * FileNotFoundError unless path is an existing file, else every element
   * read_ply returns, under the same name, or read_ply's error.
   */
  function Load(files: set<string>, path: string, f: ParsedFile): (r: Result<Elements, PyError>)
    requires WellFormedFile(f)
    ensures path !in files ==> r == Failure(FileNotFound)
  {
    if path !in files then Failure(FileNotFound)
    else
      match ReadPlySpec(f)
      case Failure(e) => Failure(Runtime(e))
      case Success(elements) => Success(elements)
  }

  /**
   * For an existing file, load returns what read_ply returns, element by
   * element and name by name, or raises its error; the names are those of
   * the file's elements.
   */
  lemma LoadPassesThrough(files: set<string>, path: string, f: ParsedFile)
    requires WellFormedFile(f) && path in files
    ensures ReadPlySpec(f).Failure? ==> Load(files, path, f) == Failure(Runtime(ReadPlySpec(f).error))
    ensures ReadPlySpec(f).Success? ==>
      && Load(files, path, f) == Success(ReadPlySpec(f).value)
      && Load(files, path, f).value.Keys == set j | 0 <= j < |f.elements| :: f.elements[j].name
  {
    if ReadPlySpec(f).Success? {
      ElementsKeys(f);
    }
  }

  // ---------------------------------------------------------------------
  // PLYData.save

  /** prop.cpu().contiguous(): the same tensor on the CPU (every model tensor is contiguous). */
  function ToCpu(t: Tensor): (c: Tensor)
    ensures c.onCpu && c.shape == t.shape && c.dtype == t.dtype && c.data == t.data
  {
    t.(onCpu := true)
  }

  function ColumnNames(cs: seq<PlyWrite.Column>): (ns: seq<string>)
    ensures |ns| == |cs|
  {
    seq(|cs|, p requires 0 <= p < |cs| => cs[p].name)
  }

  function ElementNamesOf(els: seq<PlyWrite.Element>): (ns: seq<string>)
    ensures |ns| == |els|
  {
    seq(|els|, e requires 0 <= e < |els| => els[e].name)
  }

  predicate Distinct(ns: seq<string>)
  {
    forall i, j | 0 <= i < j < |ns| :: ns[i] != ns[j]
  }

  /** cs lists the properties of el once each, in some order, moved to the CPU. */
  predicate EnumeratesElement(cs: seq<PlyWrite.Column>, el: Properties)
  {
    && Distinct(ColumnNames(cs))
    && (forall k | k in el :: k in ColumnNames(cs))
    && forall p | 0 <= p < |cs| :: cs[p].name in el && cs[p].tensor == ToCpu(el[cs[p].name])
  }

  /** els lists the elements of data once each, in some order (the iteration order of the C++ unordered_map). */
  predicate Enumerates(els: seq<PlyWrite.Element>, data: Elements)
  {
    && Distinct(ElementNamesOf(els))
    && (forall k | k in data :: k in ElementNamesOf(els))
    && forall e | 0 <= e < |els| :: els[e].name in data && EnumeratesElement(els[e].columns, data[els[e].name])
  }

  /**
   * PLYData.save(path): FileNotFoundError unless dirname(path) is an existing
   * directory, else the bytes write_ply writes for every element and
   * property under its own name, on the CPU, or write_ply's error.
   */
  function Save(dirs: set<string>, path: string, data: Elements, els: seq<PlyWrite.Element>, bigEndian: bool)
    : (r: Result<seq<byte>, PyError>)
    requires IsDir(dirs, Dirname(path)) ==> Enumerates(els, data) && PlyWrite.WriteReady(els)
    ensures !IsDir(dirs, Dirname(path)) ==> r == Failure(FileNotFound)
  {
    if !IsDir(dirs, Dirname(path)) then Failure(FileNotFound)
    else
      match PlyWrite.WritePlySpec(bigEndian, els)
      case Failure(e) => Failure(Runtime(e))
      case Success(bytes) => Success(bytes)
  }

  /** A bare file name has no directory part, so save refuses it whatever the store holds. */
  lemma SaveBareName(dirs: set<string>, path: string, data: Elements, els: seq<PlyWrite.Element>, bigEndian: bool)
    requires '/' !in path
    ensures !IsDir(dirs, Dirname(path))
    ensures Save(dirs, path, data, els, bigEndian) == Failure(FileNotFound)
  {
    BareDirname(path);
  }

  /**
   * When the directory exists, save writes exactly what write_ply writes,
   * and the header write_ply declares carries every element and property
   * name unchanged, in the enumeration's order.
   */
  lemma SavePassesThrough(dirs: set<string>, path: string, data: Elements, els: seq<PlyWrite.Element>, bigEndian: bool)
    requires Enumerates(els, data) && PlyWrite.WriteReady(els)
    requires IsDir(dirs, Dirname(path))
    ensures PlyWrite.HasColumns(els)
    ensures PlyWrite.WritePlySpec(bigEndian, els).Failure? ==>
      Save(dirs, path, data, els, bigEndian) == Failure(Runtime(PlyWrite.WritePlySpec(bigEndian, els).error))
    ensures PlyWrite.WritePlySpec(bigEndian, els).Success? ==>
      && Save(dirs, path, data, els, bigEndian) == Success(PlyWrite.WritePlySpec(bigEndian, els).value)
      && PlyWrite.DeclareAll(els, |els|).Success?
      && var hs := PlyWrite.DeclareAll(els, |els|).value;
         forall e | 0 <= e < |els| ::
           && hs[e].name == els[e].name && hs[e].name in data
           && |hs[e].props| == |els[e].columns|
           && forall p | 0 <= p < |hs[e].props| :: hs[e].props[p].name == els[e].columns[p].name
  {
    assert PlyWrite.HasColumns(els);
    if PlyWrite.WritePlySpec(bigEndian, els).Success? {
      var hs := PlyWrite.DeclareAll(els, |els|).value;
      forall e | 0 <= e < |els|
        ensures hs[e].name == els[e].name && |hs[e].props| == |els[e].columns|
        ensures forall p | 0 <= p < |hs[e].props| :: hs[e].props[p].name == els[e].columns[p].name
      {
        HeaderNames(els, e);
      }
    }
  }

  /** Declaration e of a written header names element e and its properties as given. */
  lemma HeaderNames(els: seq<PlyWrite.Element>, e: nat)
    requires PlyWrite.HasColumns(els) && e < |els| && PlyWrite.DeclareAll(els, |els|).Success?
    ensures var h := PlyWrite.DeclareAll(els, |els|).value[e];
      && h.name == els[e].name && |h.props| == |els[e].columns|
      && forall p | 0 <= p < |h.props| :: h.props[p].name == els[e].columns[p].name
  {
    PlyWrite.AllValue(els, |els|, e);
    PlyWrite.DeclareElementFacts(els[e]);
    var cs := els[e].columns;
    forall p | 0 <= p < |cs|
      ensures PlyWrite.DeclareColumns(cs, |cs|).value[p].name == cs[p].name
    {
      PlyWrite.ColumnsValue(cs, |cs|, p);
      PlyWrite.DeclareColumnFacts(cs[p]);
    }
  }
}
