/**
 * plytorch/point_cloud.py: the two geometry classes built on BasicGeometry.
 * PointCloud declares four vertex fields, points required; Mesh adds a
 * required list field of face indices.
 */
module PointCloud {

  import opened Wrappers
  import opened Errors
  import opened Tensors
  import opened PlyRead
  import opened PlyData
  import opened Geometry

  const BasicGeometryClass: nat := 0
  const PointCloudClass: nat := 1
  const MeshClass: nat := 2

  const Points := Field("points", VertexField(["x", "y", "z"], false, true))
  const Normals := Field("normals", VertexField(["nx", "ny", "nz"], false, false))
  const Colors := Field("colors", VertexField(["red", "green", "blue"], false, false))
  const Uv := Field("uv", VertexField(["s", "t"], false, false))
  const Faces := Field("faces", MakeField("face", One("vertex_index"), true, true))

  /** A class body annotating each of fs, in order. */
  function Declares(fs: seq<Field>): seq<Annotation>
  {
    if |fs| == 0 then [] else [Annotation(fs[0].name, Some(fs[0].spec))] + Declares(fs[1..])
  }

  lemma {:induction false} DeclaredFields(fs: seq<Field>)
    ensures OwnFields(Declares(fs)) == fs
  {
    if |fs| > 0 {
      DeclaredFields(fs[1..]);
      assert Declares(fs)[1..] == Declares(fs[1..]);
    }
  }

  /** BasicGeometry, PointCloud(BasicGeometry) and Mesh(PointCloud), in that order. */
  function Classes(): ClassTable
  {
    [ ClassDef([], []),
      ClassDef(Declares(PointCloudFields()), [BasicGeometryClass]),
      ClassDef(Declares([Faces]), [PointCloudClass]) ]
  }

  function PointCloudFields(): seq<Field>
  {
    [Points, Normals, Colors, Uv]
  }

  function MeshFields(): seq<Field>
  {
    PointCloudFields() + [Faces]
  }

  lemma ClassesWellFormed()
    ensures WellFormed(Classes())
  {
    var t := Classes();
    forall c, i | 0 <= c < |t| && 0 <= i < |t[c].bases| ensures t[c].bases[i] < c {
      assert c == 1 || c == 2;
    }
  }

  /** BasicGeometry declares no field; PointCloud's are its four, in declaration order. */
  lemma PointCloudFieldList()
    ensures WellFormed(Classes())
    ensures FieldList(Classes(), BasicGeometryClass) == []
    ensures FieldList(Classes(), PointCloudClass) == PointCloudFields()
  {
    ClassesWellFormed();
    var t := Classes();
    FieldOrder(t, BasicGeometryClass);
    FieldOrder(t, PointCloudClass);
    DeclaredFields(PointCloudFields());
    assert BaseFields(t, PointCloudClass, 1) == FieldList(t, BasicGeometryClass) + BaseFields(t, PointCloudClass, 0);
  }

  /** A Mesh has PointCloud's fields, then faces. */
  lemma MeshFieldList()
    ensures WellFormed(Classes())
    ensures FieldList(Classes(), MeshClass) == MeshFields()
  {
    PointCloudFieldList();
    var t := Classes();
    FieldOrder(t, MeshClass);
    DeclaredFields([Faces]);
    assert BaseFields(t, MeshClass, 1) == FieldList(t, PointCloudClass) + BaseFields(t, MeshClass, 0);
  }

  /** len(tensor): TypeError for None and for a 0-dimensional tensor, else the size of dimension 0. */
  function Len(t: Option<Tensor>): (r: Result<nat, PyError>)
    ensures r.Failure? ==> r.error == LenOfNone
  {
    if t.None? || Rank(t.value) == 0 then Failure(LenOfNone) else Success(t.value.shape[0])
  }

  /** PointCloud.num_vertices: len(self.points). */
  function NumVertices(attrs: map<string, Option<Tensor>>): (r: Result<nat, PyError>)
    requires "points" in attrs
    ensures r.Success? <==> attrs["points"].Some? && Rank(attrs["points"].value) > 0
    ensures r.Success? ==> r.value == attrs["points"].value.shape[0]
    ensures r.Failure? ==> r.error == LenOfNone
  {
    Len(attrs["points"])
  }

  /** Mesh.num_faces: len(self.faces). */
  function NumFaces(attrs: map<string, Option<Tensor>>): (r: Result<nat, PyError>)
    requires "faces" in attrs
    ensures r.Success? <==> attrs["faces"].Some? && Rank(attrs["faces"].value) > 0
    ensures r.Success? ==> r.value == attrs["faces"].value.shape[0]
    ensures r.Failure? ==> r.error == LenOfNone
  {
    Len(attrs["faces"])
  }

  /**
   * A PointCloud read from PLY data has points, stacked from the vertex
   * element's x, y and z, and num_vertices is the vertex element's number
   * of rows.
   */
  lemma LoadedVertices(data: Elements)
    requires FromDataSpec(PointCloudFields(), data, 4).Success?
    ensures var attrs := FromDataSpec(PointCloudFields(), data, 4).value;
      && "vertex" in data && "x" in data["vertex"] && "points" in attrs
      && Rank(data["vertex"]["x"]) > 0
      && attrs["points"].shape == [data["vertex"]["x"].shape[0], 3] + data["vertex"]["x"].shape[1..]
      && NumVertices(map n | n in attrs :: Some(attrs[n])) == Success(data["vertex"]["x"].shape[0])
  {
    var fields := PointCloudFields();
    FromDataSucceeds(fields, data, 4);
    assert fields[0].spec.required;
    assert Found(fields[0], data);
    FromDataValues(fields, data, 4);
    assert forall l | 0 < l < 4 :: fields[l].name != fields[0].name;
    LookupColumns(data["vertex"], ["x", "y", "z"], 0, 0);
  }

  /** dict(gather_annotations(PointCloud)). */
  lemma PointCloudAnnots()
    ensures Annots(PointCloudFields()) ==
      map["points" := Points.spec, "normals" := Normals.spec, "colors" := Colors.spec, "uv" := Uv.spec]
  {
    var f := PointCloudFields();
    assert f[..3][..2][..1][..0] == [];
    assert Annots(f[..3][..2][..1]) == map["points" := Points.spec];
    assert Annots(f[..3][..2]) == map["points" := Points.spec, "normals" := Normals.spec];
    assert f[..3][..2] == [Points, Normals];
    assert Annots(f[..3]) == map["points" := Points.spec, "normals" := Normals.spec, "colors" := Colors.spec];
  }

  /** dict(gather_annotations(Mesh)). */
  lemma MeshAnnots()
    ensures Annots(MeshFields()) ==
      map["points" := Points.spec, "normals" := Normals.spec, "colors" := Colors.spec, "uv" := Uv.spec, "faces" := Faces.spec]
  {
    PointCloudAnnots();
    assert MeshFields()[..4] == PointCloudFields();
  }

  /** PointCloud's four fields are all columnar, on one element, with eleven distinct property names. */
  lemma PointCloudColumnar()
    ensures Columnar(PointCloudFields())
  {
    var fields := PointCloudFields();
    assert forall j | 0 <= j < |fields| ::
      fields[j].spec.props.Many? && |fields[j].spec.props.names| > 0 && Distinct(fields[j].spec.props.names);
    assert forall i, j | 0 <= i < j < |fields| :: fields[i].name != fields[j].name;
    forall i, j, a, b |
      && 0 <= i < |fields| && 0 <= j < |fields| && i != j
      && fields[i].spec.element == fields[j].spec.element
      && fields[i].spec.props.Many? && fields[j].spec.props.Many?
      && 0 <= a < |fields[i].spec.props.names| && 0 <= b < |fields[j].spec.props.names|
      ensures fields[i].spec.props.names[a] != fields[j].spec.props.names[b]
    {
      NamesApart(i, j, a, b);
    }
  }

  /** Property names of two different PointCloud fields differ. */
  lemma NamesApart(i: nat, j: nat, a: nat, b: nat)
    requires i < 4 && j < 4 && i != j
    requires a < |PointCloudFields()[i].spec.props.names| && b < |PointCloudFields()[j].spec.props.names|
    ensures PointCloudFields()[i].spec.props.names[a] != PointCloudFields()[j].spec.props.names[b]
  {
    var n, m := PointCloudFields()[i].spec.props.names[a], PointCloudFields()[j].spec.props.names[b];
    assert n in {"x", "y", "z", "nx", "ny", "nz", "red", "green", "blue", "s", "t"};
  }

  /**
   * A PointCloud from explicit keywords needs points among them (possibly
   * None) and no keyword other than its four fields; num_vertices is then
   * len of what was passed for points.
   */
  lemma PointCloudInit(kwargs: map<string, Option<Tensor>>)
    ensures InitSpec(PointCloudFields(), kwargs).Success? <==>
      "points" in kwargs && forall k | k in kwargs :: k in {"points", "normals", "colors", "uv"}
    ensures InitSpec(PointCloudFields(), kwargs).Success? ==>
      var attrs := InitSpec(PointCloudFields(), kwargs).value;
      "points" in attrs && NumVertices(attrs) == Len(kwargs["points"])
  {
    var fields := PointCloudFields();
    InitOutcome(fields, kwargs);
    PointCloudAnnots();
    if "points" !in kwargs {
      assert fields[0].name !in kwargs && Annots(fields)[fields[0].name].required;
    }
  }

  /**
   * A Mesh from explicit keywords needs points and faces among them; its
   * num_faces is len of what was passed for faces, so faces=None gives a
   * Mesh whose num_faces raises.
   */
  lemma MeshInit(kwargs: map<string, Option<Tensor>>)
    ensures InitSpec(MeshFields(), kwargs).Success? <==>
      "points" in kwargs && "faces" in kwargs && forall k | k in kwargs :: k in {"points", "normals", "colors", "uv", "faces"}
    ensures InitSpec(MeshFields(), kwargs).Success? ==>
      var attrs := InitSpec(MeshFields(), kwargs).value;
      "faces" in attrs && NumFaces(attrs) == Len(kwargs["faces"])
  {
    var fields := MeshFields();
    InitOutcome(fields, kwargs);
    MeshAnnots();
    if "points" !in kwargs {
      assert fields[0].name !in kwargs && Annots(fields)[fields[0].name].required;
    }
    if "faces" !in kwargs {
      assert fields[4].name !in kwargs && Annots(fields)[fields[4].name].required;
    }
  }

  /**
   * Mesh.from_data never succeeds: faces names its property as one str, for
   * which PLYElement.__getitem__ recurses, and without a face element the
   * required faces is missing.
   */
  lemma MeshNeverLoads(data: Elements)
    ensures FromDataSpec(MeshFields(), data, 5).Failure?
    ensures FromDataSpec(PointCloudFields(), data, 4).Success? ==>
      FromDataSpec(MeshFields(), data, 5).error == (if "face" in data then Recursion else MissingRequired)
  {
    var fields := MeshFields();
    assert fields[4] == Faces;
    FromDataSame(data, 4);
  }

  /** from_data over Mesh's first k fields is from_data over PointCloud's. */
  lemma {:induction false} FromDataSame(data: Elements, k: nat)
    requires k <= 4
    ensures FromDataSpec(MeshFields(), data, k) == FromDataSpec(PointCloudFields(), data, k)
  {
    if k > 0 {
      FromDataSame(data, k - 1);
      assert MeshFields()[k - 1] == PointCloudFields()[k - 1];
    }
  }

  /**
   * A PointCloud whose present fields are matrices with one column per
   * property name, points among them, survives to_data then from_data.
   */
  lemma PointCloudRoundTrip(attrs: map<string, Option<Tensor>>)
    requires forall j | 0 <= j < 4 && HasValue(PointCloudFields()[j], attrs) ::
      IsMatrix(attrs[PointCloudFields()[j].name].value)
      && attrs[PointCloudFields()[j].name].value.shape[1] == |PointCloudFields()[j].spec.props.names|
    requires HasValue(Points, attrs)
    ensures ToDataSpec(PointCloudFields(), attrs, 4).Success?
    ensures FromDataSpec(PointCloudFields(), ToDataSpec(PointCloudFields(), attrs, 4).value, 4)
      == Success(Values(PointCloudFields(), attrs, 4))
  {
    PointCloudColumnar();
    RoundTrip(PointCloudFields(), attrs);
  }
}
