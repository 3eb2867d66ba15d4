/** Values shared by the mesh loader: tokens of the input files, vectors,
    materials, faces and the per-material polygon batches. */
module MeshTypes {

  datatype Option<+T> = None | Some(value: T)

  /** Why loading a mesh or a material library aborts. */
  datatype Error =
    | BadNumber          // a token that float() or int() rejects
    | WrongArity         // a record with the wrong number of fields to unpack
    | MissingField       // a record without the token the loader indexes
    | IndexOutOfRange    // a face index outside the vertex or normal table
    | UnknownMaterial    // `usemtl` names a material that no library defined
    | BadColorKey        // a colour record whose raw second character is no slot letter
    | NoPendingMaterial  // a colour record before any `newmtl`
    | MalformedColor     // a saved material holds a colour that is not a quadruple
    | MissingFile        // `mtllib` names a file that cannot be opened
    | NoDisplayList      // the rendering backend handed out display list 0

  datatype Result<+T> = Success(value: T) | Failure(error: Error)

  datatype Outcome = Pass | Fail(error: Error)

  /** One whitespace-separated token, as the loader's conversions see it:
      a keyword or name, a number that float() accepts, or a face
      component containing '/': its text, and its pieces split at every
      '/', each with the value int() gives it (None where int() rejects the
      piece). The text keeps names and paths containing '/' apart. */
  datatype Token =
    | Word(text: string)
    | Num(value: real)
    | Slashed(text: string, pieces: seq<Option<int>>)

  /** A vertex position or a vertex normal: three coordinates. */
  datatype Vec3 = Vec3(x: real, y: real, z: real)

  /** One slot of the vertex or normal table. Slot 0 holds the sentinel None. */
  type Entry = Option<Vec3>

  /** An RGBA colour as the loader stores it; only length 4 is a valid colour. */
  type Color = seq<real>

  /** A saved material. `serial` stands for the identity of the Python object:
      two saves make two materials even when their colours agree. */
  datatype Material = Material(serial: nat, ambient: Color, diffuse: Color, specular: Color, emission: Color)

  /** The key of a polygon batch: the material in use, or None before any `usemtl`. */
  type MatKey = Option<Material>

  /** One corner of a face: the table slots of its vertex and of its normal.
      A face holds slots, not copies, so a vertex scaled in place is seen by
      every face that uses it. */
  datatype Point = Point(v: nat, n: nat)

  type Face = seq<Point>

  /** The three buckets of one material: triangles, quadrilaterals and all other faces. */
  datatype Batch = Batch(triangles: seq<Face>, quads: seq<Face>, polygons: seq<Face>)

  const EmptyBatch := Batch([], [], [])

  /** Python list indexing: a negative index counts back from the end. */
  function PyIndex(len: nat, i: int): (r: Option<nat>)
    ensures r.Some? <==> -(len as int) <= i < len
    ensures r.Some? ==> r.value < len && (r.value as int == i || r.value as int == len + i)
  {
    if 0 <= i < len then Some(i)
    else if -(len as int) <= i < 0 then Some(len + i)
    else None
  }

  /** The Material constructor: every colour must be a quadruple. */
  function NewMaterial(serial: nat, colors: seq<Color>): (r: Result<Material>)
    requires |colors| == 4
    ensures r.Success? <==> forall k :: 0 <= k < 4 ==> |colors[k]| == 4
    ensures r.Failure? ==> r.error == MalformedColor
    ensures r.Success? ==> r.value.serial == serial && [r.value.ambient, r.value.diffuse, r.value.specular, r.value.emission] == colors
  {
    if |colors[0]| == 4 && |colors[1]| == 4 && |colors[2]| == 4 && |colors[3]| == 4 then
      Success(Material(serial, colors[0], colors[1], colors[2], colors[3]))
    else
      Failure(MalformedColor)
  }

  /** The batch for `key`, or an empty one when no face has used it yet. */
  function BatchAt(polys: map<MatKey, Batch>, key: MatKey): Batch
  {
    if key in polys then polys[key] else EmptyBatch
  }

  /** Every bucket holds only faces of its own size. */
  predicate Bucketed(b: Batch)
  {
    && (forall f :: f in b.triangles ==> |f| == 3)
    && (forall f :: f in b.quads ==> |f| == 4)
    && (forall f :: f in b.polygons ==> |f| != 3 && |f| != 4)
  }

  /** Appends a face to the bucket its size selects. */
  function AddFace(b: Batch, f: Face): (r: Batch)
    ensures Bucketed(b) ==> Bucketed(r)
    ensures |r.triangles| + |r.quads| + |r.polygons| == |b.triangles| + |b.quads| + |b.polygons| + 1
    ensures |f| == 3 <==> r.triangles == b.triangles + [f]
    ensures |f| == 4 <==> r.quads == b.quads + [f]
    ensures (|f| != 3 && |f| != 4) <==> r.polygons == b.polygons + [f]
    ensures |f| != 3 ==> r.triangles == b.triangles
    ensures |f| != 4 ==> r.quads == b.quads
    ensures (|f| == 3 || |f| == 4) ==> r.polygons == b.polygons
  {
    if |f| == 3 then b.(triangles := b.triangles + [f])
    else if |f| == 4 then b.(quads := b.quads + [f])
    else b.(polygons := b.polygons + [f])
  }
}
