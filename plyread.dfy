/**
 * read_ply_element and read_ply of main.cpp, over the schema the PLY parser
 * hands back: each element has a name, a record count and its properties in
 * declaration order; each property has a value type, a count type (NoneType
 * for a scalar property), the per-record list lengths and the bytes the
 * parser extracts for it.
 */
module PlyRead {

  import opened Wrappers
  import opened Seqs
  import opened Text
  import opened Errors
  import opened DTypes
  import opened Tensors

  datatype FileType = Ascii | Binary | BinaryBigEndian

  datatype ParsedProperty = ParsedProperty(
    name: string,
    ptype: PlyPropertyType,
    countType: PlyPropertyType,
    rowCount: seq<nat>,
    values: seq<byte>)

  datatype ParsedElement = ParsedElement(name: string, count: nat, properties: seq<ParsedProperty>)

  datatype ParsedFile = ParsedFile(valid: bool, fileType: FileType, elements: seq<ParsedElement>)

  type Properties = map<string, Tensor>
  type Elements = map<string, Properties>

  predicate IsList(p: ParsedProperty) { p.countType != NoneType }

  /** Every record of a list property has the same length (and there is a record). */
  predicate Uniform(counts: seq<nat>)
  {
    |counts| > 0 && forall i | 0 <= i < |counts| :: counts[i] == counts[0]
  }

  /**
   * What the parser guarantees: one list length per record, and as many
   * extracted bytes as the destination buffer has room for.
   */
  predicate WellFormedProperty(n: nat, p: ParsedProperty)
  {
    && (IsList(p) ==> |p.rowCount| == n)
    && (!IsList(p) ==> |p.values| == n * PlyWidth(p.ptype))
    && (IsList(p) && Uniform(p.rowCount) ==> |p.values| == n * p.rowCount[0] * PlyWidth(p.ptype))
  }

  predicate WellFormedElement(e: ParsedElement)
  {
    forall i | 0 <= i < |e.properties| :: WellFormedProperty(e.count, e.properties[i])
  }

  predicate WellFormedFile(f: ParsedFile)
  {
    forall i | 0 <= i < |f.elements| :: WellFormedElement(f.elements[i])
  }

  // ---------------------------------------------------------------------
  // The distinct list lengths: sort, then unique, in place

  predicate Sorted(s: seq<nat>) { forall i, j | 0 <= i < j < |s| :: s[i] <= s[j] }

  predicate StrictlyIncreasing(s: seq<nat>) { forall i, j | 0 <= i < j < |s| :: s[i] < s[j] }

  /** Exchange a[j - 1] and a[j]. */
  method SwapDown(a: array<nat>, j: nat)
    requires 0 < j < a.Length
    modifies a
    ensures a[..] == old(a[..])[j - 1 := old(a[j])][j := old(a[j - 1])]
    ensures multiset(a[..]) == multiset(old(a[..]))
  {
    a[j - 1], a[j] := a[j], a[j - 1];
  }

  /** One step of the sort: a[i] moves down into the sorted a[..i]. */
  method InsertAt(a: array<nat>, i: nat)
    requires i < a.Length && Sorted(a[..i])
    modifies a
    ensures Sorted(a[..i + 1])
    ensures multiset(a[..]) == multiset(old(a[..]))
  {
    var j := i;
    while j > 0 && a[j - 1] > a[j]
      invariant 0 <= j <= i
      invariant multiset(a[..]) == multiset(old(a[..]))
      invariant forall k, l | 0 <= k < l <= i && k != j && l != j :: a[k] <= a[l]
      invariant forall l | j < l <= i :: a[j] < a[l]
    {
      SwapDown(a, j);
      j := j - 1;
    }
    forall k, l | 0 <= k < l <= i ensures a[k] <= a[l] {
      if l == j && k < j - 1 {
        assert a[k] <= a[j - 1];
      }
    }
    assert forall k, l | 0 <= k < l < |a[..i + 1]| :: a[..i + 1][k] == a[k] && a[..i + 1][l] == a[l];
  }

  /** std::sort on the copied row counts (an insertion sort). */
  method SortCounts(a: array<nat>)
    modifies a
    ensures Sorted(a[..]) && multiset(a[..]) == multiset(old(a[..]))
  {
    var i := 0;
    while i < a.Length
      invariant 0 <= i <= a.Length
      invariant Sorted(a[..i])
      invariant multiset(a[..]) == multiset(old(a[..]))
    {
      InsertAt(a, i);
      i := i + 1;
    }
    assert a[..a.Length] == a[..];
  }

  /** std::unique on a sorted array: the distinct values move to the front, in order. */
  method UniqueCounts(a: array<nat>) returns (len: nat)
    requires Sorted(a[..])
    modifies a
    ensures len <= a.Length
    ensures StrictlyIncreasing(a[..len])
    ensures forall x :: x in a[..len] <==> x in old(a[..])
  {
    if a.Length == 0 {
      return 0;
    }
    ghost var orig := a[..];
    var w, r := 1, 1;
    while r < a.Length
      invariant 1 <= w <= r <= a.Length
      invariant StrictlyIncreasing(a[..w])
      invariant forall k | r <= k < a.Length :: a[k] == orig[k]
      invariant a[w - 1] == orig[r - 1]
      invariant forall x :: x in a[..w] <==> x in orig[..r]
    {
      if a[r] != a[w - 1] {
        a[w] := a[r];
        w := w + 1;
        assert a[..w] == a[..w - 1] + [orig[r]];
      }
      assert orig[..r + 1] == orig[..r] + [orig[r]];
      r := r + 1;
    }
    assert orig[..r] == orig;
    len := w;
  }

  /** The sorted distinct list lengths of a property. */
  method DistinctCounts(counts: seq<nat>) returns (d: seq<nat>)
    ensures StrictlyIncreasing(d)
    ensures forall x :: x in d <==> x in counts
  {
    var a := new nat[|counts|](i requires 0 <= i < |counts| => counts[i]);
    assert a[..] == counts;
    SortCounts(a);
    assert forall x :: x in a[..] <==> x in multiset(a[..]);
    var len := UniqueCounts(a);
    d := a[..len];
  }

  /**
   * Exactly one distinct length means every record has that length; an
   * empty property, or one with two lengths, has a different number.
   */
  lemma OneDistinct(counts: seq<nat>, d: seq<nat>)
    requires StrictlyIncreasing(d)
    requires forall x :: x in d <==> x in counts
    ensures |d| == 1 <==> Uniform(counts)
    ensures |d| == 1 ==> d[0] == counts[0]
  {
    if |d| == 1 {
      assert d[0] in counts;
      assert counts[0] in d;
      forall i | 0 <= i < |counts| ensures counts[i] == counts[0] {
        assert counts[i] in d;
      }
    }
    if Uniform(counts) {
      assert counts[0] in d;
      assert |d| > 1 ==> d[0] < d[1];
      forall i | 0 <= i < |d| ensures d[i] == counts[0] {
        assert d[i] in counts;
      }
    }
  }

  // ---------------------------------------------------------------------
  // One property, one element

  lemma ListShapeSize(n: nat, k: nat, w: nat)
    ensures Numel([n, k]) * w == n * k * w
  {
    assert [n, k][1..] == [k];
    assert Numel([k]) == k;
  }

  /**
   * The tensor read for one property of an element with n records: the dtype
   * lookup comes first; a list property needs one common length k and gives
   * an n-by-k tensor, a scalar property a tensor of length n; the bytes are
   * the ones extracted for that property; the tensor is on the CPU.
   */
  function PropertyTensor(n: nat, p: ParsedProperty): (r: Result<Tensor, CodecError>)
    requires WellFormedProperty(n, p)
    ensures p.ptype == NoneType ==> r == Failure(UnknownPlyType)
    ensures p.ptype != NoneType && IsList(p) && !Uniform(p.rowCount) ==> r == Failure(IrregularList)
    ensures r.Success? <==> p.ptype != NoneType && (IsList(p) ==> Uniform(p.rowCount))
    ensures r.Success? ==>
      && r.value.dtype == GetTorchDtype(p.ptype).value
      && r.value.onCpu
      && r.value.data == p.values
      && r.value.shape == if IsList(p) then [n, p.rowCount[0]] else [n]
  {
    var dt :- GetTorchDtype(p.ptype);
    if IsList(p) then
      if !Uniform(p.rowCount) then Failure(IrregularList)
      else
        ListShapeSize(n, p.rowCount[0], ItemSize(dt));
        Success(RawTensor(dt, [n, p.rowCount[0]], p.values, true))
    else
      assert Numel([n]) == n;
      Success(RawTensor(dt, [n], p.values, true))
  }

  // ---------------------------------------------------------------------
  // Filling a map by name, in order, stopping at the first error

  /**
   * The map built from the first k named results, each stored under its name
   * (a later one replacing an earlier one of the same name), or the first error.
   */
  function Gather<V>(items: seq<(string, Result<V, CodecError>)>, k: nat): Result<map<string, V>, CodecError>
    requires k <= |items|
  {
    if k == 0 then Success(map[])
    else
      var m :- Gather(items, k - 1);
      var v :- items[k - 1].1;
      Success(m[items[k - 1].0 := v])
  }

  /** One more result that is not an error is stored under its name. */
  lemma GatherStep<V>(items: seq<(string, Result<V, CodecError>)>, k: nat, m: map<string, V>, v: V)
    requires k < |items| && Gather(items, k) == Success(m) && items[k].1 == Success(v)
    ensures Gather(items, k + 1) == Success(m[items[k].0 := v])
  {}

  /** The first k results are gathered exactly when none of them is an error. */
  lemma {:induction false} GatherSucceeds<V>(items: seq<(string, Result<V, CodecError>)>, k: nat)
    requires k <= |items|
    ensures Gather(items, k).Success? <==> forall j | 0 <= j < k :: items[j].1.Success?
  {
    if k > 0 {
      GatherSucceeds(items, k - 1);
    }
  }

  function NamesUpTo<V>(items: seq<(string, V)>, k: nat): set<string>
    requires k <= |items|
  {
    set j | 0 <= j < k :: items[j].0
  }

  lemma NamesSnoc<V>(items: seq<(string, V)>, k: nat)
    requires 0 < k <= |items|
    ensures NamesUpTo(items, k) == NamesUpTo(items, k - 1) + {items[k - 1].0}
  {
    var before, after := NamesUpTo(items, k - 1), NamesUpTo(items, k);
    forall x | x in after ensures x in before + {items[k - 1].0} {
      var j :| 0 <= j < k && items[j].0 == x;
      if j < k - 1 { assert x in before; }
    }
  }

  /** The keys are the names gathered so far. */
  lemma {:induction false} GatherKeys<V>(items: seq<(string, Result<V, CodecError>)>, k: nat)
    requires k <= |items| && Gather(items, k).Success?
    ensures Gather(items, k).value.Keys == NamesUpTo(items, k)
  {
    if k > 0 {
      GatherKeys(items, k - 1);
      NamesSnoc(items, k);
    }
  }

  /** Of several results with one name, the last one is the one kept. */
  lemma {:induction false} GatherLastWins<V>(items: seq<(string, Result<V, CodecError>)>, k: nat, j: nat)
    requires j < k <= |items| && Gather(items, k).Success?
    requires forall l | j < l < k :: items[l].0 != items[j].0
    ensures items[j].1.Success?
    ensures items[j].0 in Gather(items, k).value
    ensures Gather(items, k).value[items[j].0] == items[j].1.value
  {
    if j < k - 1 {
      GatherLastWins(items, k - 1, j);
    }
  }

  /** The first error decides the outcome. */
  lemma {:induction false} GatherFirstFailure<V>(items: seq<(string, Result<V, CodecError>)>, k: nat, j: nat)
    requires j < k <= |items|
    requires forall l | 0 <= l < j :: items[l].1.Success?
    requires items[j].1.Failure?
    ensures Gather(items, k) == Failure(items[j].1.error)
  {
    if j < k - 1 {
      GatherFirstFailure(items, k - 1, j);
    } else {
      GatherSucceeds(items, j);
    }
  }

  // ---------------------------------------------------------------------
  // read_ply_element

  /** Each property of e under its name, with the tensor read for it. */
  function PropertyItems(e: ParsedElement): seq<(string, Result<Tensor, CodecError>)>
    requires WellFormedElement(e)
  {
    seq(|e.properties|, i requires 0 <= i < |e.properties| =>
      (e.properties[i].name, PropertyTensor(e.count, e.properties[i])))
  }

  function ElementProperties(e: ParsedElement): Result<Properties, CodecError>
    requires WellFormedElement(e)
  {
    Gather(PropertyItems(e), |e.properties|)
  }

  /** read_ply_element as a value: the element's name and its properties, or the first error. */
  function ElementSpec(e: ParsedElement): (r: Result<(string, Properties), CodecError>)
    requires WellFormedElement(e)
    ensures r.Success? ==> r.value.0 == e.name
    ensures r.Success? <==> ElementProperties(e).Success?
  {
    var m :- ElementProperties(e);
    Success((e.name, m))
  }

  /** An element is read exactly when each of its properties is. */
  lemma ElementRead(e: ParsedElement)
    requires WellFormedElement(e)
    ensures ElementSpec(e).Success? <==> forall j | 0 <= j < |e.properties| :: PropertyTensor(e.count, e.properties[j]).Success?
  {
    var items := PropertyItems(e);
    GatherSucceeds(items, |items|);
    assert forall j | 0 <= j < |items| :: items[j].1 == PropertyTensor(e.count, e.properties[j]);
  }

  /** The properties read are keyed by the declared property names. */
  lemma PropsKeys(e: ParsedElement)
    requires WellFormedElement(e) && ElementSpec(e).Success?
    ensures ElementSpec(e).value.1.Keys == set j | 0 <= j < |e.properties| :: e.properties[j].name
  {
    var items := PropertyItems(e);
    GatherKeys(items, |items|);
    assert forall j | 0 <= j < |items| :: items[j].0 == e.properties[j].name;
  }

  /** Of several properties with one name, the last one declared is the one kept. */
  lemma PropsLastWins(e: ParsedElement, j: nat)
    requires WellFormedElement(e) && j < |e.properties| && ElementSpec(e).Success?
    requires forall l | j < l < |e.properties| :: e.properties[l].name != e.properties[j].name
    ensures PropertyTensor(e.count, e.properties[j]).Success?
    ensures e.properties[j].name in ElementSpec(e).value.1
    ensures ElementSpec(e).value.1[e.properties[j].name] == PropertyTensor(e.count, e.properties[j]).value
  {
    var items := PropertyItems(e);
    GatherLastWins(items, |items|, j);
  }

  /** The first property that cannot be read decides the error. */
  lemma PropsFirstFailure(e: ParsedElement, j: nat)
    requires WellFormedElement(e) && j < |e.properties|
    requires forall l | 0 <= l < j :: PropertyTensor(e.count, e.properties[l]).Success?
    requires PropertyTensor(e.count, e.properties[j]).Failure?
    ensures ElementSpec(e) == Failure(PropertyTensor(e.count, e.properties[j]).error)
  {
    var items := PropertyItems(e);
    assert forall l | 0 <= l < j :: items[l].1 == PropertyTensor(e.count, e.properties[l]);
    GatherFirstFailure(items, |items|, j);
  }

  /** One property, as read_ply_element reads it: the dtype first, then the sorted distinct list lengths. */
  method ReadProperty(n: nat, p: ParsedProperty) returns (r: Result<Tensor, CodecError>)
    requires WellFormedProperty(n, p)
    ensures r == PropertyTensor(n, p)
  {
    var dt :- GetTorchDtype(p.ptype);
    if IsList(p) {
      var d := DistinctCounts(p.rowCount);
      OneDistinct(p.rowCount, d);
      if |d| != 1 {
        return Failure(IrregularList);
      }
      ListShapeSize(n, d[0], ItemSize(dt));
      r := Success(RawTensor(dt, [n, d[0]], p.values, true));
    } else {
      assert Numel([n]) == n;
      r := Success(RawTensor(dt, [n], p.values, true));
    }
  }

  /** Property i, read after the first i: it ends the read with its error or is stored under its name. */
  lemma PropertyStep(e: ParsedElement, i: nat, m: Properties)
    requires WellFormedElement(e) && i < |e.properties| && Gather(PropertyItems(e), i) == Success(m)
    ensures var p := e.properties[i]; var t := PropertyTensor(e.count, p);
      && (t.Failure? ==> ElementSpec(e) == Failure(t.error))
      && (t.Success? ==> Gather(PropertyItems(e), i + 1) == Success(m[p.name := t.value]))
  {
    var items, t := PropertyItems(e), PropertyTensor(e.count, e.properties[i]);
    if t.Failure? {
      GatherSucceeds(items, i);
      GatherFirstFailure(items, |items|, i);
    } else {
      GatherStep(items, i, m, t.value);
    }
  }

  /** read_ply_element: the properties in declaration order, the counter i naming the one extracted. */
  method ReadPlyElement(e: ParsedElement) returns (r: Result<(string, Properties), CodecError>)
    requires WellFormedElement(e)
    ensures r == ElementSpec(e)
  {
    ghost var items := PropertyItems(e);
    var props: Properties := map[];
    var i := 0;
    while i < |e.properties|
      invariant 0 <= i <= |e.properties|
      invariant Gather(items, i) == Success(props)
    {
      var p := e.properties[i];
      var t := ReadProperty(e.count, p);
      PropertyStep(e, i, props);
      if t.Failure? {
        return Failure(t.error);
      }
      props := props[p.name := t.value];
      i := i + 1;
    }
    r := Success((e.name, props));
  }

  // ---------------------------------------------------------------------
  // read_ply

  /** Each element of f under its name, with the properties read for it. */
  function ElementItems(f: ParsedFile): seq<(string, Result<Properties, CodecError>)>
    requires WellFormedFile(f)
  {
    seq(|f.elements|, i requires 0 <= i < |f.elements| =>
      (f.elements[i].name, ElementProperties(f.elements[i])))
  }

  /** read_ply as a value: OpenFailed for a file the parser cannot open, else every element by name. */
  function ReadPlySpec(f: ParsedFile): (r: Result<Elements, CodecError>)
    requires WellFormedFile(f)
    ensures !f.valid ==> r == Failure(OpenFailed)
  {
    if !f.valid then Failure(OpenFailed) else Gather(ElementItems(f), |f.elements|)
  }

  /** A valid file is read exactly when each of its elements is. */
  lemma FileRead(f: ParsedFile)
    requires WellFormedFile(f) && f.valid
    ensures ReadPlySpec(f).Success? <==> forall j | 0 <= j < |f.elements| :: ElementSpec(f.elements[j]).Success?
  {
    var items := ElementItems(f);
    GatherSucceeds(items, |items|);
    assert forall j | 0 <= j < |items| :: items[j].1 == ElementProperties(f.elements[j]);
  }

  /** The elements read are keyed by the element names of the file. */
  lemma ElementsKeys(f: ParsedFile)
    requires WellFormedFile(f) && ReadPlySpec(f).Success?
    ensures ReadPlySpec(f).value.Keys == set j | 0 <= j < |f.elements| :: f.elements[j].name
  {
    var items := ElementItems(f);
    GatherKeys(items, |items|);
    assert forall j | 0 <= j < |items| :: items[j].0 == f.elements[j].name;
  }

  /** Of several elements with one name, the last one in the file is the one kept. */
  lemma ElementsLastWins(f: ParsedFile, j: nat)
    requires WellFormedFile(f) && j < |f.elements| && ReadPlySpec(f).Success?
    requires forall l | j < l < |f.elements| :: f.elements[l].name != f.elements[j].name
    ensures ElementSpec(f.elements[j]).Success?
    ensures f.elements[j].name in ReadPlySpec(f).value
    ensures ReadPlySpec(f).value[f.elements[j].name] == ElementSpec(f.elements[j]).value.1
  {
    var items := ElementItems(f);
    GatherLastWins(items, |items|, j);
  }

  /** The first element that cannot be read decides the error. */
  lemma ElementsFirstFailure(f: ParsedFile, j: nat)
    requires WellFormedFile(f) && f.valid && j < |f.elements|
    requires forall l | 0 <= l < j :: ElementSpec(f.elements[l]).Success?
    requires ElementSpec(f.elements[j]).Failure?
    ensures ReadPlySpec(f) == Failure(ElementSpec(f.elements[j]).error)
  {
    var items := ElementItems(f);
    assert forall l | 0 <= l < j :: items[l].1.Success?;
    GatherFirstFailure(items, |items|, j);
  }

  /** Element i of a valid file, read after the first i: it ends the read with its error or is stored under its name. */
  lemma ReadStep(f: ParsedFile, i: nat, m: Elements)
    requires WellFormedFile(f) && f.valid && i < |f.elements| && Gather(ElementItems(f), i) == Success(m)
    ensures var el := ElementSpec(f.elements[i]);
      && (el.Failure? ==> ReadPlySpec(f) == Failure(el.error))
      && (el.Success? ==> Gather(ElementItems(f), i + 1) == Success(m[el.value.0 := el.value.1]))
  {
    var items, el := ElementItems(f), ElementSpec(f.elements[i]);
    if el.Failure? {
      GatherSucceeds(items, i);
      GatherFirstFailure(items, |items|, i);
    } else {
      GatherStep(items, i, m, el.value.1);
    }
  }

  /** read_ply: each element in file order, stored under its own name. */
  method ReadPly(f: ParsedFile) returns (r: Result<Elements, CodecError>)
    requires WellFormedFile(f)
    ensures r == ReadPlySpec(f)
  {
    if !f.valid {
      return Failure(OpenFailed);
    }
    ghost var items := ElementItems(f);
    var result: Elements := map[];
    var i := 0;
    while i != |f.elements|
      invariant 0 <= i <= |f.elements|
      invariant Gather(items, i) == Success(result)
    {
      var el := ReadPlyElement(f.elements[i]);
      ReadStep(f, i, result);
      if el.Failure? {
        return Failure(el.error);
      }
      result := result[el.value.0 := el.value.1];
      i := i + 1;
    }
    r := Success(result);
  }
}
