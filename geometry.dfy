/**
 * plytorch/basic_geometry.py: the declarative field tables of geometry
 * classes, the inheritance order in which their fields are gathered (and
 * cached), the constructor's keyword checks, and the projection of a PLY
 * store into fields (from_data) and back (to_data, _split).
 *
 * Python reflection is replaced by an explicit class table: class c lists
 * its own annotations in declaration order and the indices of its bases in
 * the order of __bases__ (object left out); every base comes before the
 * class in the table.
 */
module Geometry {

  import opened Wrappers
  import opened Seqs
  import opened Errors
  import opened Tensors
  import opened PlyRead
  import opened PlyData

  // ---------------------------------------------------------------------
  // field and vertex_field

  /** The property names of a field: one name as a str, or a list or tuple of names. */
  datatype Props = One(name: string) | Many(names: seq<string>)

  /** The metadata of an Annotated field: element, property names, list_t and required (dtype is never read). */
  datatype FieldSpec = FieldSpec(element: string, props: Props, isList: bool, required: bool)

  /** field(element, props, list_t, required): the metadata exactly as given. */
  function MakeField(element: string, props: Props, isList: bool, required: bool): FieldSpec
  {
    FieldSpec(element, props, isList, required)
  }

  /** vertex_field(*names, list_t, required): the names as a tuple, on element "vertex". */
  function VertexField(names: seq<string>, isList: bool, required: bool): FieldSpec
  {
    FieldSpec("vertex", Many(names), isList, required)
  }

  /** vertex_field(*names) is field('vertex', names): never a single str, even for one name. */
  lemma VertexFieldIsField(names: seq<string>, isList: bool, required: bool)
    ensures VertexField(names, isList, required) == MakeField("vertex", Many(names), isList, required)
    ensures !VertexField(names, isList, required).props.One?
  {}

  // ---------------------------------------------------------------------
  // The class table and _gather_annotations / gather_annotations

  /** An annotation of a class body; spec is None for one that is not Annotated[...]. */
  datatype Annotation = Annotation(name: string, spec: Option<FieldSpec>)

  datatype Field = Field(name: string, spec: FieldSpec)

  datatype ClassDef = ClassDef(own: seq<Annotation>, bases: seq<nat>)

  type ClassTable = seq<ClassDef>

  /** Every base of a class is an earlier class of the table. */
  predicate WellFormed(table: ClassTable)
  {
    forall c, i | 0 <= c < |table| && 0 <= i < |table[c].bases| :: table[c].bases[i] < c
  }

  /** The field an annotation declares, if it is Annotated. */
  function Keep(a: Annotation): (r: seq<Field>)
    ensures |r| <= 1
  {
    if a.spec.Some? then [Field(a.name, a.spec.value)] else []
  }

  /** The Annotated fields of a class body, in declaration order. */
  function OwnFields(own: seq<Annotation>): seq<Field>
  {
    if |own| == 0 then [] else Keep(own[0]) + OwnFields(own[1..])
  }

  /** What the loop over reversed(cur_anno.items()) appends: the Annotated fields, last first. */
  function OwnReversed(own: seq<Annotation>): seq<Field>
  {
    if |own| == 0 then [] else OwnReversed(own[1..]) + Keep(own[0])
  }

  /** What _gather_annotations(c, result) appends to result. */
  function Collected(table: ClassTable, c: nat): seq<Field>
    requires WellFormed(table) && c < |table|
    decreases c, 1, 0
  {
    OwnReversed(table[c].own) + BasesCollected(table, c, |table[c].bases|)
  }

  /** What the recursive calls for the first k bases of c append. */
  function BasesCollected(table: ClassTable, c: nat, k: nat): seq<Field>
    requires WellFormed(table) && c < |table| && k <= |table[c].bases|
    decreases c, 0, k
  {
    if k == 0 then []
    else BasesCollected(table, c, k - 1) + Collected(table, table[c].bases[k - 1])
  }

  /** gather_annotations(c): what _gather_annotations collects, reversed. */
  function FieldList(table: ClassTable, c: nat): seq<Field>
    requires WellFormed(table) && c < |table|
  {
    Reverse(Collected(table, c))
  }

  /** The field lists of the first k bases, the later base first. */
  function BaseFields(table: ClassTable, c: nat, k: nat): seq<Field>
    requires WellFormed(table) && c < |table| && k <= |table[c].bases|
  {
    if k == 0 then [] else FieldList(table, table[c].bases[k - 1]) + BaseFields(table, c, k - 1)
  }

  lemma {:induction false} OwnReversedIsReversed(own: seq<Annotation>)
    ensures Reverse(OwnReversed(own)) == OwnFields(own)
  {
    if |own| > 0 {
      OwnReversedIsReversed(own[1..]);
      ReverseAppend(OwnReversed(own[1..]), Keep(own[0]));
      var k := Keep(own[0]);
      if |k| == 1 {
        assert k[1..] == [];
        assert Reverse(k) == Reverse(k[1..]) + [k[0]] == k;
      } else {
        assert k == [];
      }
    }
  }

  lemma {:induction false} BasesReversed(table: ClassTable, c: nat, k: nat)
    requires WellFormed(table) && c < |table| && k <= |table[c].bases|
    ensures Reverse(BasesCollected(table, c, k)) == BaseFields(table, c, k)
  {
    if k > 0 {
      BasesReversed(table, c, k - 1);
      ReverseAppend(BasesCollected(table, c, k - 1), Collected(table, table[c].bases[k - 1]));
    }
  }

  /**
   * The fields of a class: those of its bases, the last base's first (each
   * in its own order), then its own Annotated fields in declaration order.
   */
  lemma FieldOrder(table: ClassTable, c: nat)
    requires WellFormed(table) && c < |table|
    ensures FieldList(table, c) == BaseFields(table, c, |table[c].bases|) + OwnFields(table[c].own)
  {
    ReverseAppend(OwnReversed(table[c].own), BasesCollected(table, c, |table[c].bases|));
    OwnReversedIsReversed(table[c].own);
    BasesReversed(table, c, |table[c].bases|);
  }

  /** The fields a class body contributes are exactly its Annotated annotations. */
  lemma {:induction false} FieldsAreAnnotated(own: seq<Annotation>, f: Field)
    ensures f in OwnFields(own) <==> exists i | 0 <= i < |own| :: own[i] == Annotation(f.name, Some(f.spec))
  {
    if |own| > 0 {
      FieldsAreAnnotated(own[1..], f);
      assert forall i | 0 < i < |own| :: own[i] == own[1..][i - 1];
      assert forall i | 0 <= i < |own[1..]| :: own[1..][i] == own[i + 1];
    }
  }

  /** _gather_annotations(c, result): result with what c contributes appended, as the recursive Python code builds it. */
  method GatherInto(table: ClassTable, c: nat, acc: seq<Field>) returns (result: seq<Field>)
    requires WellFormed(table) && c < |table|
    ensures result == acc + Collected(table, c)
    decreases c
  {
    var own := table[c].own;
    result := acc;
    var i := |own|;
    while i > 0
      invariant 0 <= i <= |own|
      invariant result == acc + OwnReversed(own[i..])
    {
      i := i - 1;
      OwnReversedStep(own, i);
      if own[i].spec.Some? {
        result := result + [Field(own[i].name, own[i].spec.value)];
      }
    }
    assert own[0..] == own;
    ghost var prefix := acc + OwnReversed(own);
    var bases := table[c].bases;
    var k := 0;
    while k < |bases|
      invariant 0 <= k <= |bases|
      invariant result == prefix + BasesCollected(table, c, k)
    {
      result := GatherInto(table, bases[k], result);
      k := k + 1;
    }
    assert prefix + BasesCollected(table, c, |bases|) == acc + Collected(table, c);
  }

  /** Walking the class body backwards from i appends the field of annotation i after those beyond it. */
  lemma OwnReversedStep(own: seq<Annotation>, i: nat)
    requires i < |own|
    ensures OwnReversed(own[i..]) == OwnReversed(own[i + 1..]) + Keep(own[i])
  {
    assert own[i..][1..] == own[i + 1..];
  }

  /** The module-level __field_annotations cache of gather_annotations, for one class table. */
  class AnnotationCache {
    const table: ClassTable
    var cache: map<nat, seq<Field>>

    /** Every cached list is the field list of its class. */
    predicate Valid()
      reads this
    {
      WellFormed(table) && forall c | c in cache :: c < |table| && cache[c] == FieldList(table, c)
    }

    constructor(table: ClassTable)
      requires WellFormed(table)
      ensures Valid() && this.table == table && cache == map[]
    {
      this.table := table;
      cache := map[];
    }

    /** gather_annotations(c): computed and cached on the first call, the cached list afterwards. */
    method GatherAnnotations(c: nat) returns (fields: seq<Field>)
      requires Valid() && c < |table|
      modifies this
      ensures Valid()
      ensures fields == FieldList(table, c)
      ensures c in old(cache) ==> cache == old(cache)
      ensures c !in old(cache) ==> cache == old(cache)[c := fields]
    {
      if c !in cache {
        var result := GatherInto(table, c, []);
        assert result == Collected(table, c);
        cache := cache[c := Reverse(result)];
      }
      fields := cache[c];
    }
  }

  // ---------------------------------------------------------------------
  // BasicGeometry.__init__

  /** dict(fields): each name with the metadata of its last occurrence. */
  function Annots(fields: seq<Field>): (m: map<string, FieldSpec>)
    ensures forall j | 0 <= j < |fields| :: fields[j].name in m
  {
    if |fields| == 0 then map[]
    else
      var m := Annots(fields[..|fields| - 1]);
      assert forall j | 0 <= j < |fields| - 1 :: fields[..|fields| - 1][j] == fields[j];
      m[fields[|fields| - 1].name := fields[|fields| - 1].spec]
  }

  /** The keys of dict(fields) are the field names. */
  lemma {:induction false} AnnotsKeys(fields: seq<Field>)
    ensures forall n :: n in Annots(fields) <==> exists j | 0 <= j < |fields| :: fields[j].name == n
  {
    if |fields| > 0 {
      var init, last := fields[..|fields| - 1], fields[|fields| - 1];
      AnnotsKeys(init);
      forall n ensures n in Annots(fields) <==> exists j | 0 <= j < |fields| :: fields[j].name == n {
        if n != last.name && n in Annots(init) {
          var j :| 0 <= j < |init| && init[j].name == n;
          assert fields[j].name == n;
        } else if n != last.name {
          forall j | 0 <= j < |fields| ensures fields[j].name != n {
            if j < |init| { assert init[j] == fields[j]; }
          }
        }
      }
    }
  }

  /** Each name of dict(fields) holds the metadata of the name's last occurrence. */
  lemma {:induction false} AnnotsValues(fields: seq<Field>)
    ensures forall j | 0 <= j < |fields| && (forall l | j < l < |fields| :: fields[l].name != fields[j].name) ::
      Annots(fields)[fields[j].name] == fields[j].spec
  {
    if |fields| > 0 {
      var init := fields[..|fields| - 1];
      AnnotsValues(init);
      forall j | 0 <= j < |fields| && (forall l | j < l < |fields| :: fields[l].name != fields[j].name)
        ensures Annots(fields)[fields[j].name] == fields[j].spec
      {
        if j < |init| {
          assert init[j] == fields[j];
          assert forall l | j < l < |init| :: init[l] == fields[l];
        }
      }
    }
  }

  /** A required field the keywords do not give. */
  predicate MissesRequired(fields: seq<Field>, kwargs: map<string, Option<Tensor>>)
  {
    exists j | 0 <= j < |fields| :: fields[j].name !in kwargs && Annots(fields)[fields[j].name].required
  }

  /** A keyword that is not a field. */
  predicate HasUnknown(fields: seq<Field>, kwargs: map<string, Option<Tensor>>)
  {
    exists k | k in kwargs :: k !in Annots(fields)
  }

  /** What the first loop of __init__ sets over the first i fields: None for each one not given. */
  function Defaults(fields: seq<Field>, kwargs: map<string, Option<Tensor>>, i: nat): map<string, Option<Tensor>>
    requires i <= |fields|
  {
    if i == 0 then map[]
    else
      var m := Defaults(fields, kwargs, i - 1);
      if fields[i - 1].name in kwargs then m else m[fields[i - 1].name := None]
  }

  /** The keywords among done. */
  function Restrict(kwargs: map<string, Option<Tensor>>, done: set<string>): map<string, Option<Tensor>>
  {
    map k | k in done && k in kwargs :: kwargs[k]
  }

  /**
   * The attributes __init__ gives an instance, or the ValueError it raises:
   * a missing required field first, then an unknown keyword; otherwise None
   * for every field not given, then every keyword's value.
   */
  function InitSpec(fields: seq<Field>, kwargs: map<string, Option<Tensor>>): Result<map<string, Option<Tensor>>, PyError>
  {
    if MissesRequired(fields, kwargs) then Failure(MissingRequired)
    else if HasUnknown(fields, kwargs) then Failure(UnknownAttribute)
    else Success(Defaults(fields, kwargs, |fields|) + kwargs)
  }

  lemma {:induction false} DefaultsFacts(fields: seq<Field>, kwargs: map<string, Option<Tensor>>, i: nat)
    requires i <= |fields|
    ensures forall n :: n in Defaults(fields, kwargs, i) <==> n !in kwargs && exists j | 0 <= j < i :: fields[j].name == n
    ensures forall n | n in Defaults(fields, kwargs, i) :: Defaults(fields, kwargs, i)[n] == None
  {
    if i > 0 {
      DefaultsFacts(fields, kwargs, i - 1);
    }
  }

  /**
   * The constructor succeeds exactly when every required field is given and
   * every keyword names a field; the instance then has an attribute per
   * field and no other: the given value, or None for an optional field left out.
   */
  lemma InitOutcome(fields: seq<Field>, kwargs: map<string, Option<Tensor>>)
    ensures InitSpec(fields, kwargs).Success? <==> !MissesRequired(fields, kwargs) && !HasUnknown(fields, kwargs)
    ensures MissesRequired(fields, kwargs) ==> InitSpec(fields, kwargs) == Failure(MissingRequired)
    ensures InitSpec(fields, kwargs).Success? ==>
      var attrs := InitSpec(fields, kwargs).value;
      && (forall n :: n in attrs <==> exists j | 0 <= j < |fields| :: fields[j].name == n)
      && (forall k | k in kwargs :: attrs[k] == kwargs[k])
      && (forall j | 0 <= j < |fields| && fields[j].name !in kwargs ::
            !Annots(fields)[fields[j].name].required && attrs[fields[j].name] == None)
  {
    DefaultsFacts(fields, kwargs, |fields|);
    AnnotsKeys(fields);
    AnnotsValues(fields);
  }

  /** The three exits of __init__, one lemma each. */
  lemma InitMissing(fields: seq<Field>, kwargs: map<string, Option<Tensor>>, i: nat)
    requires i < |fields| && fields[i].name !in kwargs && Annots(fields)[fields[i].name].required
    ensures InitSpec(fields, kwargs) == Failure(MissingRequired)
  {}

  lemma InitUnknown(fields: seq<Field>, kwargs: map<string, Option<Tensor>>, key: string)
    requires !MissesRequired(fields, kwargs) && key in kwargs && key !in Annots(fields)
    ensures InitSpec(fields, kwargs) == Failure(UnknownAttribute)
  {}

  lemma InitPasses(fields: seq<Field>, kwargs: map<string, Option<Tensor>>)
    requires !MissesRequired(fields, kwargs) && forall k | k in kwargs :: k in Annots(fields)
    ensures InitSpec(fields, kwargs) == Success(Defaults(fields, kwargs, |fields|) + kwargs)
  {}

  lemma DefaultsStep(a: map<string, Option<Tensor>>, fields: seq<Field>, kwargs: map<string, Option<Tensor>>, i: nat)
    requires i < |fields|
    ensures fields[i].name in kwargs ==> a + Defaults(fields, kwargs, i + 1) == a + Defaults(fields, kwargs, i)
    ensures fields[i].name !in kwargs ==>
      a + Defaults(fields, kwargs, i + 1) == (a + Defaults(fields, kwargs, i))[fields[i].name := None]
  {}

  lemma RestrictStep(a: map<string, Option<Tensor>>, kwargs: map<string, Option<Tensor>>, done: set<string>, key: string)
    requires key in kwargs && done <= kwargs.Keys
    ensures (a + Restrict(kwargs, done))[key := kwargs[key]] == a + Restrict(kwargs, done + {key})
  {}

  lemma RestrictAll(a: map<string, Option<Tensor>>, d: map<string, Option<Tensor>>, kwargs: map<string, Option<Tensor>>)
    ensures (a + d) + Restrict(kwargs, kwargs.Keys) == a + (d + kwargs)
  {
    assert Restrict(kwargs, kwargs.Keys) == kwargs;
  }

  /** An instance of a geometry class: its attributes, set by the constructor. */
  class Geometry {
    var attrs: map<string, Option<Tensor>>

    constructor()
      ensures attrs == map[]
    {
      attrs := map[];
    }

    /**
     * BasicGeometry.__init__(**kwargs) for a class with the given field list:
     * the required check over the fields, then the check and assignment
     * of every keyword.
     */
    method Init(fields: seq<Field>, kwargs: map<string, Option<Tensor>>) returns (r: Outcome<PyError>)
      modifies this
      ensures InitSpec(fields, kwargs).Failure? ==> r == Fail(InitSpec(fields, kwargs).error)
      ensures InitSpec(fields, kwargs).Success? ==> r == Pass && attrs == old(attrs) + InitSpec(fields, kwargs).value
    {
      var missing := SetDefaults(fields, kwargs);
      if missing {
        return Fail(MissingRequired);
      }
      var unknown := SetKeywords(fields, kwargs);
      if unknown {
        return Fail(UnknownAttribute);
      }
      RestrictAll(old(attrs), Defaults(fields, kwargs, |fields|), kwargs);
      InitPasses(fields, kwargs);
      r := Pass;
    }

    /** The loop over the fields: a required field not given raises, an optional one is set to None. */
    method SetDefaults(fields: seq<Field>, kwargs: map<string, Option<Tensor>>) returns (missing: bool)
      modifies this
      ensures missing ==> InitSpec(fields, kwargs) == Failure(MissingRequired)
      ensures !missing ==> !MissesRequired(fields, kwargs) && attrs == old(attrs) + Defaults(fields, kwargs, |fields|)
    {
      var annots := Annots(fields);
      var i := 0;
      while i < |fields|
        invariant 0 <= i <= |fields|
        invariant forall j | 0 <= j < i :: fields[j].name in kwargs || !annots[fields[j].name].required
        invariant attrs == old(attrs) + Defaults(fields, kwargs, i)
      {
        var name := fields[i].name;
        DefaultsStep(old(attrs), fields, kwargs, i);
        if name !in kwargs {
          if annots[name].required {
            InitMissing(fields, kwargs, i);
            return true;
          }
          attrs := attrs[name := None];
        }
        i := i + 1;
      }
      missing := false;
    }

    /** The loop over the keywords: one that is not a field raises, the others are set. */
    method SetKeywords(fields: seq<Field>, kwargs: map<string, Option<Tensor>>) returns (unknown: bool)
      requires !MissesRequired(fields, kwargs)
      modifies this
      ensures unknown ==> InitSpec(fields, kwargs) == Failure(UnknownAttribute)
      ensures !unknown ==> (forall k | k in kwargs :: k in Annots(fields))
      ensures !unknown ==> attrs == old(attrs) + Restrict(kwargs, kwargs.Keys)
    {
      var annots := Annots(fields);
      var keys := kwargs.Keys;
      ghost var done: set<string> := {};
      while keys != {}
        invariant keys <= kwargs.Keys && done == kwargs.Keys - keys
        invariant forall k | k in done :: k in annots
        invariant attrs == old(attrs) + Restrict(kwargs, done)
        decreases keys
      {
        var key :| key in keys;
        if key !in annots {
          InitUnknown(fields, kwargs, key);
          return true;
        }
        RestrictStep(old(attrs), kwargs, done, key);
        attrs := attrs[key := kwargs[key]];
        keys := keys - {key};
        done := done + {key};
      }
      unknown := false;
    }
  }

  // ---------------------------------------------------------------------
  // _split

  /** dict(zip(names, columns)) over the first k pairs: a later equal name overwrites. */
  function Zip(names: seq<string>, cols: seq<Tensor>, k: nat): (m: Properties)
    requires k <= |names| && k <= |cols|
  {
    if k == 0 then map[] else Zip(names, cols, k - 1)[names[k - 1] := cols[k - 1]]
  }

  function Min(a: nat, b: nat): nat { if a <= b then a else b }

  /**
   * _split: no columns for None, the tensor itself under a single str name,
   * otherwise the tensor unbound along its last dimension, column j under
   * name j, as far as the shorter of the two goes.
   */
  function Split(t: Option<Tensor>, props: Props): (r: Result<Properties, PyError>)
    ensures t.None? ==> r == Success(map[])
    ensures t.Some? && props.One? ==> r == Success(map[props.name := t.value])
    ensures r.Failure? <==> t.Some? && props.Many? && Rank(t.value) == 0
    ensures r.Failure? ==> r.error == UnbindFailed
  {
    match t
    case None => Success(map[])
    case Some(v) =>
      match props
      case One(n) => Success(map[n := v])
      case Many(ns) =>
        if Rank(v) == 0 then Failure(UnbindFailed)
        else Success(Zip(ns, Columns(v), Min(|ns|, Last(v))))
  }

  lemma {:induction false} ZipKeys(names: seq<string>, cols: seq<Tensor>, k: nat)
    requires k <= |names| && k <= |cols|
    ensures forall n :: n in Zip(names, cols, k) <==> exists j | 0 <= j < k :: names[j] == n
  {
    if k > 0 {
      ZipKeys(names, cols, k - 1);
    }
  }

  lemma {:induction false} ZipValue(names: seq<string>, cols: seq<Tensor>, k: nat, j: nat)
    requires j < k <= |names| && k <= |cols|
    requires forall l | j < l < k :: names[l] != names[j]
    ensures names[j] in Zip(names, cols, k) && Zip(names, cols, k)[names[j]] == cols[j]
  {
    if j < k - 1 {
      ZipValue(names, cols, k - 1, j);
    }
  }

  /**
   * What _split gives for names: rank 0 cannot be unbound; otherwise the
   * keys are the first min(|names|, columns) names, and each name not
   * repeated later among them holds its column of the tensor.
   */
  lemma SplitColumns(t: Tensor, ns: seq<string>)
    ensures Rank(t) == 0 ==> Split(Some(t), Many(ns)) == Failure(UnbindFailed)
    ensures Rank(t) > 0 ==>
      var k := Min(|ns|, Last(t));
      && Split(Some(t), Many(ns)).Success?
      && (forall n :: n in Split(Some(t), Many(ns)).value <==> exists j | 0 <= j < k :: ns[j] == n)
      && forall j | 0 <= j < k && (forall l | j < l < k :: ns[l] != ns[j]) ::
           Split(Some(t), Many(ns)).value[ns[j]] == Column(t, j)
  {
    if Rank(t) > 0 {
      var k := Min(|ns|, Last(t));
      ZipKeys(ns, Columns(t), k);
      forall j | 0 <= j < k && (forall l | j < l < k :: ns[l] != ns[j])
        ensures Split(Some(t), Many(ns)).value[ns[j]] == Column(t, j)
      {
        ZipValue(ns, Columns(t), k, j);
      }
    }
  }

  function KeyOf(props: Props): Key
  {
    match props
    case One(n) => Name(n)
    case Many(ns) => Names(ns)
  }

  /** Names whose entries are the columns of a matrix, looked up together, stack back into the matrix. */
  lemma LookupColumnsOf(el: Properties, t: Tensor, ns: seq<string>)
    requires IsMatrix(t) && |ns| == t.shape[1]
    requires forall a | 0 <= a < |ns| :: ns[a] in el && el[ns[a]] == Column(t, a)
    ensures Lookup(el, Names(ns)) == Success(Some(t))
  {
    var req := Requested(el, ns);
    forall a | 0 <= a < |ns| ensures req[a] == Columns(t)[a] {}
    SeqExt(req, Columns(t));
    StackColumns(t);
  }

  /** _split of a matrix with one distinct name per column: each name holds its column, and there are no other keys. */
  lemma SplitMatrix(t: Tensor, ns: seq<string>)
    requires IsMatrix(t) && |ns| == t.shape[1] && Distinct(ns)
    ensures Split(Some(t), Many(ns)).Success?
    ensures forall n :: n in Split(Some(t), Many(ns)).value <==> n in ns
    ensures forall a | 0 <= a < |ns| :: Split(Some(t), Many(ns)).value[ns[a]] == Column(t, a)
  {
    SplitColumns(t, ns);
    assert Min(|ns|, Last(t)) == |ns|;
    var parts := Split(Some(t), Many(ns)).value;
    forall n ensures n in parts <==> n in ns {
      if n in ns {
        var a :| 0 <= a < |ns| && ns[a] == n;
      }
    }
  }

  /**
   * Splitting a matrix into one column per distinct name and looking the
   * names up again stacks the columns back into the same matrix.
   */
  lemma SplitThenLookup(t: Tensor, ns: seq<string>)
    requires IsMatrix(t) && |ns| == t.shape[1] && Distinct(ns)
    ensures Split(Some(t), Many(ns)).Success?
    ensures Lookup(Split(Some(t), Many(ns)).value, Names(ns)) == Success(Some(t))
  {
    SplitMatrix(t, ns);
    LookupColumnsOf(Split(Some(t), Many(ns)).value, t, ns);
  }

  // ---------------------------------------------------------------------
  // from_data

  /** The field's value in the store: absent without its element, else the composite lookup. */
  function Project(f: Field, data: Elements): (r: Result<Option<Tensor>, PyError>)
    ensures f.spec.element !in data ==> r == Success(None)
    ensures f.spec.element in data && f.spec.props.One? ==> r == Failure(Recursion)
    ensures f.spec.element in data && f.spec.props.Many? ==>
      (r == Success(None) <==> !AllPresent(data[f.spec.element], f.spec.props.names))
  {
    match GetAttr(data, f.spec.element)
    case None => Success(None)
    case Some(el) => Lookup(el, KeyOf(f.spec.props))
  }

  /**
   * from_data over the first k fields: a field is kept when its element
   * exists and the lookup finds it, an absent required field raises, an
   * absent optional one is left out.
   */
  function FromDataSpec(fields: seq<Field>, data: Elements, k: nat): Result<map<string, Tensor>, PyError>
    requires k <= |fields|
  {
    if k == 0 then Success(map[])
    else
      var result :- FromDataSpec(fields, data, k - 1);
      var f := fields[k - 1];
      var v :- Project(f, data);
      if v.Some? then Success(result[f.name := v.value])
      else if f.spec.required then Failure(MissingRequired)
      else Success(result)
  }

  /** The field's lookup finds a tensor. */
  predicate Found(f: Field, data: Elements)
  {
    Project(f, data).Success? && Project(f, data).value.Some?
  }

  /** from_data succeeds exactly when no lookup raises and every required field is found. */
  lemma {:induction false} FromDataSucceeds(fields: seq<Field>, data: Elements, k: nat)
    requires k <= |fields|
    ensures FromDataSpec(fields, data, k).Success? <==>
      forall j | 0 <= j < k :: Project(fields[j], data).Success? && (fields[j].spec.required ==> Found(fields[j], data))
  {
    if k > 0 {
      FromDataSucceeds(fields, data, k - 1);
    }
  }

  /** Some field among the first k named n is found. */
  predicate FoundAmong(fields: seq<Field>, data: Elements, k: nat, n: string)
    requires k <= |fields|
  {
    exists j | 0 <= j < k :: fields[j].name == n && Found(fields[j], data)
  }

  /** The fields from_data returns are the ones found. */
  lemma {:induction false} FromDataKeys(fields: seq<Field>, data: Elements, k: nat)
    requires k <= |fields| && FromDataSpec(fields, data, k).Success?
    ensures forall n :: n in FromDataSpec(fields, data, k).value <==> FoundAmong(fields, data, k, n)
  {
    if k > 0 {
      var result := FromDataSpec(fields, data, k - 1).value;
      FromDataKeys(fields, data, k - 1);
      FromDataStep(fields, data, k - 1, result);
      var f, v := fields[k - 1], Project(fields[k - 1], data);
      assert FromDataSpec(fields, data, k).value == if Found(f, data) then result[f.name := v.value.value] else result;
      forall n ensures n in FromDataSpec(fields, data, k).value <==> FoundAmong(fields, data, k, n) {
        FoundAmongStep(fields, data, k - 1, n);
      }
    }
  }

  lemma FoundAmongStep(fields: seq<Field>, data: Elements, k: nat, n: string)
    requires k < |fields|
    ensures FoundAmong(fields, data, k + 1, n) <==>
      FoundAmong(fields, data, k, n) || (fields[k].name == n && Found(fields[k], data))
  {
    if FoundAmong(fields, data, k + 1, n) && !(fields[k].name == n && Found(fields[k], data)) {
      var j :| 0 <= j < k + 1 && fields[j].name == n && Found(fields[j], data);
      assert j < k;
    }
  }

  /** Each field found, and not shadowed by a later field of the same name, is returned with what its lookup found. */
  lemma {:induction false} FromDataValues(fields: seq<Field>, data: Elements, k: nat)
    requires k <= |fields| && FromDataSpec(fields, data, k).Success?
    ensures forall j | 0 <= j < k && Found(fields[j], data) && (forall l | j < l < k :: fields[l].name != fields[j].name) ::
      && fields[j].name in FromDataSpec(fields, data, k).value
      && FromDataSpec(fields, data, k).value[fields[j].name] == Project(fields[j], data).value.value
  {
    if k > 0 {
      FromDataValues(fields, data, k - 1);
    }
  }

  /** Field k, after the first k: it raises, is left out or is stored under its name. */
  lemma FromDataStep(fields: seq<Field>, data: Elements, k: nat, result: map<string, Tensor>)
    requires k < |fields| && FromDataSpec(fields, data, k) == Success(result)
    ensures var f, v := fields[k], Project(fields[k], data);
      && (v.Failure? ==> FromDataSpec(fields, data, |fields|) == Failure(v.error))
      && (v == Success(None) && f.spec.required ==> FromDataSpec(fields, data, |fields|) == Failure(MissingRequired))
      && (v == Success(None) && !f.spec.required ==> FromDataSpec(fields, data, k + 1) == Success(result))
      && (v.Success? && v.value.Some? ==> FromDataSpec(fields, data, k + 1) == Success(result[f.name := v.value.value]))
  {
    var v := Project(fields[k], data);
    if v.Failure? || (v == Success(None) && fields[k].spec.required) {
      FromDataStops(fields, data, k + 1, |fields|);
    }
  }

  /** A failure after k fields is the failure after all of them. */
  lemma {:induction false} FromDataStops(fields: seq<Field>, data: Elements, k: nat, n: nat)
    requires k <= n <= |fields| && FromDataSpec(fields, data, k).Failure?
    ensures FromDataSpec(fields, data, n) == FromDataSpec(fields, data, k)
    decreases n - k
  {
    if k < n {
      FromDataStops(fields, data, k, n - 1);
    }
  }

  /** BasicGeometry.from_data(data) for a class with the given field list. */
  method FromData(fields: seq<Field>, data: Elements) returns (r: Result<map<string, Tensor>, PyError>)
    ensures r == FromDataSpec(fields, data, |fields|)
  {
    var result: map<string, Tensor> := map[];
    var i := 0;
    while i < |fields|
      invariant 0 <= i <= |fields|
      invariant FromDataSpec(fields, data, i) == Success(result)
    {
      var f := fields[i];
      FromDataStep(fields, data, i, result);
      var v := Project(f, data);
      if v.Failure? {
        return Failure(v.error);
      }
      if v.value.Some? {
        result := result[f.name := v.value.value];
      } else if f.spec.required {
        return Failure(MissingRequired);
      }
      i := i + 1;
    }
    r := Success(result);
  }

  // ---------------------------------------------------------------------
  // to_data

  /** hasattr(self, name) and the value is not None. */
  predicate HasValue(f: Field, attrs: map<string, Option<Tensor>>)
  {
    f.name in attrs && attrs[f.name].Some?
  }

  /**
   * to_data over the first k fields: each field with a value merges its
   * split columns into its element's map (later property names overwrite),
   * a required field without a value raises.
   */
  function ToDataSpec(fields: seq<Field>, attrs: map<string, Option<Tensor>>, k: nat): Result<Elements, PyError>
    requires k <= |fields|
  {
    if k == 0 then Success(map[])
    else
      var result :- ToDataSpec(fields, attrs, k - 1);
      var f := fields[k - 1];
      if HasValue(f, attrs) then
        var parts :- Split(attrs[f.name], f.spec.props);
        var prior := if f.spec.element in result then result[f.spec.element] else map[];
        Success(result[f.spec.element := prior + parts])
      else if f.spec.required then Failure(MissingRequired)
      else Success(result)
  }

  /** to_data succeeds exactly when every value can be split and every required field has a value. */
  lemma {:induction false} ToDataSucceeds(fields: seq<Field>, attrs: map<string, Option<Tensor>>, k: nat)
    requires k <= |fields|
    ensures ToDataSpec(fields, attrs, k).Success? <==>
      forall j | 0 <= j < k ::
        && (HasValue(fields[j], attrs) ==> Split(attrs[fields[j].name], fields[j].spec.props).Success?)
        && (fields[j].spec.required ==> HasValue(fields[j], attrs))
  {
    if k > 0 {
      ToDataSucceeds(fields, attrs, k - 1);
    }
  }

  /** The elements to_data returns are exactly those of the fields with a value. */
  lemma {:induction false} ToDataElements(fields: seq<Field>, attrs: map<string, Option<Tensor>>, k: nat)
    requires k <= |fields| && ToDataSpec(fields, attrs, k).Success?
    ensures forall e :: e in ToDataSpec(fields, attrs, k).value <==>
      exists j | 0 <= j < k :: fields[j].spec.element == e && HasValue(fields[j], attrs)
  {
    if k > 0 {
      ToDataElements(fields, attrs, k - 1);
    }
  }

  /** A failure after k fields is the failure after all of them. */
  lemma {:induction false} ToDataStops(fields: seq<Field>, attrs: map<string, Option<Tensor>>, k: nat, n: nat)
    requires k <= n <= |fields| && ToDataSpec(fields, attrs, k).Failure?
    ensures ToDataSpec(fields, attrs, n) == ToDataSpec(fields, attrs, k)
    decreases n - k
  {
    if k < n {
      ToDataStops(fields, attrs, k, n - 1);
    }
  }

  /** Field k, after the first k: it raises, is skipped or merges its columns into its element. */
  lemma ToDataStep(fields: seq<Field>, attrs: map<string, Option<Tensor>>, k: nat, result: Elements)
    requires k < |fields| && ToDataSpec(fields, attrs, k) == Success(result)
    ensures var f := fields[k];
      && (!HasValue(f, attrs) && f.spec.required ==> ToDataSpec(fields, attrs, |fields|) == Failure(MissingRequired))
      && (!HasValue(f, attrs) && !f.spec.required ==> ToDataSpec(fields, attrs, k + 1) == Success(result))
      && (HasValue(f, attrs) && Split(attrs[f.name], f.spec.props).Failure? ==>
            ToDataSpec(fields, attrs, |fields|) == Failure(Split(attrs[f.name], f.spec.props).error))
      && (HasValue(f, attrs) && Split(attrs[f.name], f.spec.props).Success? ==>
            ToDataSpec(fields, attrs, k + 1) == Success(Merged(result, f.spec.element, Split(attrs[f.name], f.spec.props).value)))
  {
    if ToDataSpec(fields, attrs, k + 1).Failure? {
      ToDataStops(fields, attrs, k + 1, |fields|);
    }
  }

  /** BasicGeometry.to_data() for an instance with the given attributes and field list. */
  method ToData(fields: seq<Field>, attrs: map<string, Option<Tensor>>) returns (r: Result<Elements, PyError>)
    ensures r == ToDataSpec(fields, attrs, |fields|)
  {
    var result: Elements := map[];
    var i := 0;
    while i < |fields|
      invariant 0 <= i <= |fields|
      invariant ToDataSpec(fields, attrs, i) == Success(result)
    {
      var f := fields[i];
      ToDataStep(fields, attrs, i, result);
      if f.name in attrs && attrs[f.name].Some? {
        var parts := Split(attrs[f.name], f.spec.props);
        if parts.Failure? {
          return Failure(parts.error);
        }
        var prior := if f.spec.element in result then result[f.spec.element] else map[];
        result := result[f.spec.element := prior + parts.value];
      } else if f.spec.required {
        return Failure(MissingRequired);
      }
      i := i + 1;
    }
    r := Success(result);
  }

  // ---------------------------------------------------------------------
  // from_data after to_data

  /**
   * Fields that round-trip: each names its properties as a sequence of
   * distinct names, no two fields share a name, and two fields of one
   * element share no property name.
   */
  predicate Columnar(fields: seq<Field>)
  {
    && (forall j | 0 <= j < |fields| ::
          fields[j].spec.props.Many? && |fields[j].spec.props.names| > 0 && Distinct(fields[j].spec.props.names))
    && (forall i, j | 0 <= i < j < |fields| :: fields[i].name != fields[j].name)
    && (forall i, j, a, b |
          && 0 <= i < |fields| && 0 <= j < |fields| && i != j
          && fields[i].spec.element == fields[j].spec.element
          && fields[i].spec.props.Many? && fields[j].spec.props.Many?
          && 0 <= a < |fields[i].spec.props.names| && 0 <= b < |fields[j].spec.props.names| ::
          fields[i].spec.props.names[a] != fields[j].spec.props.names[b])
  }

  /** Every value present is a matrix with one column per property name. */
  predicate Fits(fields: seq<Field>, attrs: map<string, Option<Tensor>>)
    requires Columnar(fields)
  {
    forall j | 0 <= j < |fields| && HasValue(fields[j], attrs) ::
      IsMatrix(attrs[fields[j].name].value) && attrs[fields[j].name].value.shape[1] == |fields[j].spec.props.names|
  }

  /** The present values among the first k fields, by field name. */
  function Values(fields: seq<Field>, attrs: map<string, Option<Tensor>>, k: nat): map<string, Tensor>
    requires k <= |fields|
  {
    if k == 0 then map[]
    else
      var f := fields[k - 1];
      if HasValue(f, attrs) then Values(fields, attrs, k - 1)[f.name := attrs[f.name].value]
      else Values(fields, attrs, k - 1)
  }

  /** Property p of element e comes from one of the first k fields that has a value. */
  predicate Origin(fields: seq<Field>, attrs: map<string, Option<Tensor>>, k: nat, e: string, p: string)
    requires Columnar(fields) && k <= |fields|
  {
    exists i | 0 <= i < k :: HasValue(fields[i], attrs) && fields[i].spec.element == e && p in fields[i].spec.props.names
  }

  /** Field i, when it has a value, has column a of that value under its a-th property name. */
  predicate Placed(fields: seq<Field>, attrs: map<string, Option<Tensor>>, d: Elements, i: nat)
    requires Columnar(fields) && Fits(fields, attrs) && i < |fields|
  {
    var f := fields[i];
    HasValue(f, attrs) ==>
      && f.spec.element in d
      && forall a | 0 <= a < |f.spec.props.names| ::
           && f.spec.props.names[a] in d[f.spec.element]
           && d[f.spec.element][f.spec.props.names[a]] == Column(attrs[f.name].value, a)
  }

  /**
   * What to_data has built after k fields: every property of an element
   * comes from a field with a value among them, and column a of each such
   * field sits under its a-th name.
   */
  predicate Holds(fields: seq<Field>, attrs: map<string, Option<Tensor>>, d: Elements, k: nat)
    requires Columnar(fields) && Fits(fields, attrs) && k <= |fields|
  {
    && (forall e, p | e in d && p in d[e] :: Origin(fields, attrs, k, e, p))
    && (forall i | 0 <= i < k :: Placed(fields, attrs, d, i))
  }

  lemma {:induction false} ToDataHolds(fields: seq<Field>, attrs: map<string, Option<Tensor>>, k: nat)
    requires Columnar(fields) && Fits(fields, attrs) && k <= |fields| && ToDataSpec(fields, attrs, k).Success?
    ensures Holds(fields, attrs, ToDataSpec(fields, attrs, k).value, k)
  {
    if k > 0 {
      var d := ToDataSpec(fields, attrs, k - 1).value;
      ToDataHolds(fields, attrs, k - 1);
      HoldsStep(fields, attrs, k - 1, d);
    }
  }

  /** Field k keeps the invariant: its columns are merged in, or nothing changes. */
  lemma HoldsStep(fields: seq<Field>, attrs: map<string, Option<Tensor>>, k: nat, d: Elements)
    requires Columnar(fields) && Fits(fields, attrs) && k < |fields|
    requires ToDataSpec(fields, attrs, k) == Success(d) && Holds(fields, attrs, d, k)
    requires ToDataSpec(fields, attrs, k + 1).Success?
    ensures Holds(fields, attrs, ToDataSpec(fields, attrs, k + 1).value, k + 1)
  {
    ToDataStep(fields, attrs, k, d);
    var f := fields[k];
    if HasValue(f, attrs) {
      SplitMatrix(attrs[f.name].value, f.spec.props.names);
      var parts := Split(attrs[f.name], f.spec.props).value;
      assert ToDataSpec(fields, attrs, k + 1).value == Merged(d, f.spec.element, parts);
      MergeHolds(fields, attrs, d, k, parts);
    } else {
      assert ToDataSpec(fields, attrs, k + 1).value == d;
      HoldsSkip(fields, attrs, d, k);
    }
  }

  /** A field without a value adds nothing to the store. */
  lemma HoldsSkip(fields: seq<Field>, attrs: map<string, Option<Tensor>>, d: Elements, k: nat)
    requires Columnar(fields) && Fits(fields, attrs) && k < |fields| && Holds(fields, attrs, d, k)
    requires !HasValue(fields[k], attrs)
    ensures Holds(fields, attrs, d, k + 1)
  {
    forall e, p | e in d && p in d[e] ensures Origin(fields, attrs, k + 1, e, p) {
      assert Origin(fields, attrs, k, e, p);
      var i :| 0 <= i < k && HasValue(fields[i], attrs) && fields[i].spec.element == e && p in fields[i].spec.props.names;
      assert 0 <= i < k + 1;
    }
  }

  /** The store with parts merged into element e's properties, as to_data merges them. */
  function Merged(d: Elements, e: string, parts: Properties): Elements
  {
    d[e := (if e in d then d[e] else map[]) + parts]
  }

  /** Merging the columns of field k keeps what earlier fields put in place and adds field k's columns. */
  lemma MergeHolds(fields: seq<Field>, attrs: map<string, Option<Tensor>>, d: Elements, k: nat, parts: Properties)
    requires Columnar(fields) && Fits(fields, attrs) && k < |fields| && Holds(fields, attrs, d, k)
    requires HasValue(fields[k], attrs)
    requires forall n :: n in parts <==> n in fields[k].spec.props.names
    requires forall a | 0 <= a < |fields[k].spec.props.names| ::
      parts[fields[k].spec.props.names[a]] == Column(attrs[fields[k].name].value, a)
    ensures var e := fields[k].spec.element;
      Holds(fields, attrs, Merged(d, e, parts), k + 1)
  {
    var e := fields[k].spec.element;
    var d' := Merged(d, e, parts);
    MergeSound(fields, attrs, d, k, parts);
    MergeAllPlaced(fields, attrs, d, k, parts);
  }

  lemma MergeAllPlaced(fields: seq<Field>, attrs: map<string, Option<Tensor>>, d: Elements, k: nat, parts: Properties)
    requires Columnar(fields) && Fits(fields, attrs) && k < |fields| && HasValue(fields[k], attrs)
    requires forall i | 0 <= i < k :: Placed(fields, attrs, d, i)
    requires forall n :: n in parts <==> n in fields[k].spec.props.names
    requires forall a | 0 <= a < |fields[k].spec.props.names| ::
      parts[fields[k].spec.props.names[a]] == Column(attrs[fields[k].name].value, a)
    ensures forall i | 0 <= i < k + 1 :: Placed(fields, attrs, Merged(d, fields[k].spec.element, parts), i)
  {
    var d' := Merged(d, fields[k].spec.element, parts);
    forall i | 0 <= i < k + 1 ensures Placed(fields, attrs, d', i) {
      if i < k {
        MergeKeeps(fields, attrs, d, k, parts, i);
      } else {
        MergePlaces(fields, attrs, d, k, parts);
      }
    }
  }

  /** Field k's columns are in place after its merge. */
  lemma MergePlaces(fields: seq<Field>, attrs: map<string, Option<Tensor>>, d: Elements, k: nat, parts: Properties)
    requires Columnar(fields) && Fits(fields, attrs) && k < |fields| && HasValue(fields[k], attrs)
    requires forall n :: n in parts <==> n in fields[k].spec.props.names
    requires forall a | 0 <= a < |fields[k].spec.props.names| ::
      parts[fields[k].spec.props.names[a]] == Column(attrs[fields[k].name].value, a)
    ensures var e := fields[k].spec.element;
      Placed(fields, attrs, Merged(d, e, parts), k)
  {
  }

  lemma MergeSound(fields: seq<Field>, attrs: map<string, Option<Tensor>>, d: Elements, k: nat, parts: Properties)
    requires Columnar(fields) && Fits(fields, attrs) && k < |fields|
    requires forall e, p | e in d && p in d[e] :: Origin(fields, attrs, k, e, p)
    requires HasValue(fields[k], attrs)
    requires forall n :: n in parts ==> n in fields[k].spec.props.names
    ensures var e := fields[k].spec.element;
      var d' := Merged(d, e, parts);
      forall e2, p | e2 in d' && p in d'[e2] :: Origin(fields, attrs, k + 1, e2, p)
  {
    var e := fields[k].spec.element;
    var d' := Merged(d, e, parts);
    forall e2, p | e2 in d' && p in d'[e2] ensures Origin(fields, attrs, k + 1, e2, p) {
      if e2 == e && p in parts {
        assert HasValue(fields[k], attrs) && fields[k].spec.element == e2 && p in fields[k].spec.props.names;
      } else {
        assert Origin(fields, attrs, k, e2, p);
        var i :| 0 <= i < k && HasValue(fields[i], attrs) && fields[i].spec.element == e2 && p in fields[i].spec.props.names;
        assert 0 <= i < k + 1;
      }
    }
  }

  /** An earlier field's columns survive the merge: field k's names are not its names. */
  lemma MergeKeeps(fields: seq<Field>, attrs: map<string, Option<Tensor>>, d: Elements, k: nat, parts: Properties, i: nat)
    requires Columnar(fields) && Fits(fields, attrs) && i < k < |fields|
    requires Placed(fields, attrs, d, i)
    requires forall n :: n in parts ==> n in fields[k].spec.props.names
    ensures var e := fields[k].spec.element;
      Placed(fields, attrs, Merged(d, e, parts), i)
  {
    var e := fields[k].spec.element;
    if HasValue(fields[i], attrs) && fields[i].spec.element == e {
      var ms := fields[i].spec.props.names;
      forall a | 0 <= a < |ms| ensures ms[a] !in parts {
      }
    }
  }


  /** What from_data's lookup of a field should find: its value, or nothing. */
  function Expected(f: Field, attrs: map<string, Option<Tensor>>): Result<Option<Tensor>, PyError>
  {
    if HasValue(f, attrs) then Success(Some(attrs[f.name].value)) else Success(None)
  }

  /** from_data, when each lookup finds what it should and every required field has a value, returns the values. */
  lemma {:induction false} FromDataOfExpected(fields: seq<Field>, attrs: map<string, Option<Tensor>>, d: Elements, k: nat)
    requires k <= |fields|
    requires forall j | 0 <= j < |fields| :: Project(fields[j], d) == Expected(fields[j], attrs)
    requires forall j | 0 <= j < |fields| && fields[j].spec.required :: HasValue(fields[j], attrs)
    ensures FromDataSpec(fields, d, k) == Success(Values(fields, attrs, k))
  {
    if k > 0 {
      FromDataOfExpected(fields, attrs, d, k - 1);
      assert Project(fields[k - 1], d) == Expected(fields[k - 1], attrs);
    }
  }

  /** The lookup of field j in a store to_data built finds its value, or nothing when it had none. */
  lemma ProjectOfToData(fields: seq<Field>, attrs: map<string, Option<Tensor>>, d: Elements, j: nat)
    requires Columnar(fields) && Fits(fields, attrs) && j < |fields| && Holds(fields, attrs, d, |fields|)
    ensures Project(fields[j], d) == Expected(fields[j], attrs)
  {
    var f := fields[j];
    var ns, e := f.spec.props.names, f.spec.element;
    if HasValue(f, attrs) {
      assert Placed(fields, attrs, d, j);
      LookupColumnsOf(d[e], attrs[f.name].value, ns);
    } else if e in d && ns[0] in d[e] {
      assert false;
    }
  }

  /**
   * For fields that name their properties as sequences of distinct names,
   * with no property name shared within an element, and values that are
   * matrices of one column per name: when every required field has a
   * value, to_data succeeds and from_data of its result gives back exactly
   * the fields that had a value.
   */
  lemma RoundTrip(fields: seq<Field>, attrs: map<string, Option<Tensor>>)
    requires Columnar(fields) && Fits(fields, attrs)
    requires forall j | 0 <= j < |fields| && fields[j].spec.required :: HasValue(fields[j], attrs)
    ensures ToDataSpec(fields, attrs, |fields|).Success?
    ensures FromDataSpec(fields, ToDataSpec(fields, attrs, |fields|).value, |fields|) == Success(Values(fields, attrs, |fields|))
  {
    forall j | 0 <= j < |fields| && HasValue(fields[j], attrs)
      ensures Split(attrs[fields[j].name], fields[j].spec.props).Success?
    {
      SplitMatrix(attrs[fields[j].name].value, fields[j].spec.props.names);
    }
    ToDataSucceeds(fields, attrs, |fields|);
    ToDataHolds(fields, attrs, |fields|);
    var d := ToDataSpec(fields, attrs, |fields|).value;
    forall j | 0 <= j < |fields| ensures Project(fields[j], d) == Expected(fields[j], attrs) {
      ProjectOfToData(fields, attrs, d, j);
    }
    FromDataOfExpected(fields, attrs, d, |fields|);
  }
}
