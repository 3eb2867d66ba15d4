/** The geometry parser: `v` and `vn` records fill the 1-based vertex and
    normal tables, `mtllib` loads material files, `usemtl` selects the
    material, and `f` resolves a face against the tables and files it under
    the current material in the bucket its size selects. */
module Geometry {
  import opened MeshTypes
  import MaterialLibrary

  /** The tokens of one line of the mesh file. */
  type Line = seq<Token>

  /** The material files `mtllib` can open, by the token that names them. */
  type Library = map<Token, seq<MaterialLibrary.MtlLine>>

  /** The parser's state: the two tables, the materials loaded so far, the
      polygon batches by material, and the material in use. */
  datatype State = State(
    vertices: seq<Entry>,
    normals: seq<Entry>,
    reg: MaterialLibrary.Registry,
    polys: map<MatKey, Batch>,
    current: MatKey)

  /** Both tables start with the sentinel in slot 0; no material is in use. */
  const Start := State([None], [None], MaterialLibrary.Registry(map[], 0), map[], None)

  /** A table whose slot 0 is the sentinel and whose other slots hold vectors. */
  predicate IsTable(t: seq<Entry>)
  {
    |t| >= 1 && t[0] == None && forall k :: 1 <= k < |t| ==> t[k].Some?
  }

  /** Every point of a batch refers to a slot of both tables. */
  predicate PointsWithin(b: Batch, vlen: nat, nlen: nat)
  {
    && (forall f, p :: f in b.triangles && p in f ==> p.v < vlen && p.n < nlen)
    && (forall f, p :: f in b.quads && p in f ==> p.v < vlen && p.n < nlen)
    && (forall f, p :: f in b.polygons && p in f ==> p.v < vlen && p.n < nlen)
  }

  /** The invariant the parser keeps: sentinel-headed tables, every batch
      bucketed by face size, and every face point within the tables. */
  predicate WellFormed(st: State)
  {
    && IsTable(st.vertices)
    && IsTable(st.normals)
    && forall key :: key in st.polys ==>
         Bucketed(st.polys[key]) && PointsWithin(st.polys[key], |st.vertices|, |st.normals|)
  }

  /** The three coordinates of a `v` or `vn` record: exactly three fields
      after the keyword, each accepted by float(). */
  function ReadVec(line: Line): (r: Result<Vec3>)
    ensures r.Success? <==> |line| == 4 && line[1].Num? && line[2].Num? && line[3].Num?
    ensures r.Failure? ==> r.error == if |line| != 4 then WrongArity else BadNumber
    ensures r.Success? ==> r.value == Vec3(line[1].value, line[2].value, line[3].value)
  {
    if |line| != 4 then Failure(WrongArity)
    else if !(line[1].Num? && line[2].Num? && line[3].Num?) then Failure(BadNumber)
    else Success(Vec3(line[1].value, line[2].value, line[3].value))
  }

  /** One face component `v/t/n`: exactly three pieces, the vertex and normal
      pieces converted with int() and looked up as Python list indices; the
      texture piece is never looked at. */
  function ResolvePoint(vlen: nat, nlen: nat, comp: Token): (r: Result<Point>)
    ensures r.Success? <==>
      && comp.Slashed? && |comp.pieces| == 3 && comp.pieces[0].Some? && comp.pieces[2].Some?
      && PyIndex(vlen, comp.pieces[0].value).Some? && PyIndex(nlen, comp.pieces[2].value).Some?
    ensures r.Success? ==>
      r.value == Point(PyIndex(vlen, comp.pieces[0].value).value, PyIndex(nlen, comp.pieces[2].value).value)
    ensures r.Success? ==> r.value.v < vlen && r.value.n < nlen
  {
    if !comp.Slashed? || |comp.pieces| != 3 then Failure(WrongArity)
    else if comp.pieces[0].None? then Failure(BadNumber)
    else match PyIndex(vlen, comp.pieces[0].value)
      case None => Failure(IndexOutOfRange)
      case Some(v) =>
        if comp.pieces[2].None? then Failure(BadNumber)
        else match PyIndex(nlen, comp.pieces[2].value)
          case None => Failure(IndexOutOfRange)
          case Some(n) => Success(Point(v, n))
  }

  /** The components of a face, resolved left to right; the first bad one aborts. */
  function ResolvePoints(vlen: nat, nlen: nat, comps: seq<Token>): (r: Result<Face>)
    ensures r.Success? <==> forall k :: 0 <= k < |comps| ==> ResolvePoint(vlen, nlen, comps[k]).Success?
    ensures r.Success? ==> |r.value| == |comps|
    ensures r.Success? ==> forall k :: 0 <= k < |comps| ==> r.value[k] == ResolvePoint(vlen, nlen, comps[k]).value
  {
    if comps == [] then Success([])
    else match ResolvePoints(vlen, nlen, comps[..|comps| - 1])
      case Failure(e) => Failure(e)
      case Success(pts) =>
        match ResolvePoint(vlen, nlen, comps[|comps| - 1])
        case Failure(e) => Failure(e)
        case Success(p) => Success(pts + [p])
  }

  /** The files of one `mtllib` record, merged into the registry in order. */
  function LoadLibraries(reg: MaterialLibrary.Registry, names: seq<Token>, lib: Library): Result<MaterialLibrary.Registry>
  {
    if names == [] then Success(reg)
    else match LoadLibraries(reg, names[..|names| - 1], lib)
      case Failure(e) => Failure(e)
      case Success(mid) =>
        var name := names[|names| - 1];
        if name !in lib then Failure(MissingFile) else MaterialLibrary.Parse(mid, lib[name])
  }

  /** One line of the mesh file. */
  function Step(st: State, line: Line, lib: Library): Result<State>
  {
    if line == [] then Success(st)
    else if line[0] == Word("v") then
      match ReadVec(line)
      case Failure(e) => Failure(e)
      case Success(p) => Success(st.(vertices := st.vertices + [Some(p)]))
    else if line[0] == Word("vn") then
      match ReadVec(line)
      case Failure(e) => Failure(e)
      case Success(p) => Success(st.(normals := st.normals + [Some(p)]))
    else if line[0] == Word("mtllib") then
      match LoadLibraries(st.reg, line[1..], lib)
      case Failure(e) => Failure(e)
      case Success(reg) => Success(st.(reg := reg))
    else if line[0] == Word("usemtl") then
      if |line| < 2 then Failure(MissingField)
      else if line[1] !in st.reg.byName then Failure(UnknownMaterial)
      else Success(st.(current := Some(st.reg.byName[line[1]])))
    else if line[0] == Word("f") then
      if |line| < 2 then Failure(MissingField)
      else match ResolvePoints(|st.vertices|, |st.normals|, line[1..])
        case Failure(e) => Failure(e)
        case Success(face) =>
          Success(st.(polys := st.polys[st.current := AddFace(BatchAt(st.polys, st.current), face)]))
    else Success(st)
  }

  /** The lines read in order from `st`; the first failing line aborts. */
  function RunFrom(st: State, lines: seq<Line>, lib: Library): Result<State>
  {
    if lines == [] then Success(st)
    else match RunFrom(st, lines[..|lines| - 1], lib)
      case Failure(e) => Failure(e)
      case Success(mid) => Step(mid, lines[|lines| - 1], lib)
  }

  /** A whole mesh file. */
  function Parse(lines: seq<Line>, lib: Library): Result<State>
  {
    RunFrom(Start, lines, lib)
  }

  /** How many lines are records of the given keyword. */
  function CountRecords(lines: seq<Line>, keyword: string): nat
  {
    if lines == [] then 0
    else
      var last := lines[|lines| - 1];
      CountRecords(lines[..|lines| - 1], keyword) + if |last| > 0 && last[0] == Word(keyword) then 1 else 0
  }

  /** Once a prefix of the file fails, the file fails with the same error. */
  lemma {:induction false} FailurePersists(st: State, lines: seq<Line>, lib: Library, j: nat)
    requires j <= |lines| && RunFrom(st, lines[..j], lib).Failure?
    ensures RunFrom(st, lines, lib) == RunFrom(st, lines[..j], lib)
    decreases |lines|
  {
    if j < |lines| {
      var init := lines[..|lines| - 1];
      assert init[..j] == lines[..j];
      FailurePersists(st, init, lib, j);
    } else {
      assert lines[..j] == lines;
    }
  }

  /** Once a prefix of a face fails to resolve, the face fails with the same error. */
  lemma {:induction false} ResolveFailurePersists(vlen: nat, nlen: nat, comps: seq<Token>, j: nat)
    requires j <= |comps| && ResolvePoints(vlen, nlen, comps[..j]).Failure?
    ensures ResolvePoints(vlen, nlen, comps) == ResolvePoints(vlen, nlen, comps[..j])
    decreases |comps|
  {
    if j < |comps| {
      var init := comps[..|comps| - 1];
      assert init[..j] == comps[..j];
      ResolveFailurePersists(vlen, nlen, init, j);
    } else {
      assert comps[..j] == comps;
    }
  }

  /** Once one file of an `mtllib` record fails, the record fails with the same error. */
  lemma {:induction false} LoadFailurePersists(reg: MaterialLibrary.Registry, names: seq<Token>, lib: Library, j: nat)
    requires j <= |names| && LoadLibraries(reg, names[..j], lib).Failure?
    ensures LoadLibraries(reg, names, lib) == LoadLibraries(reg, names[..j], lib)
    decreases |names|
  {
    if j < |names| {
      var init := names[..|names| - 1];
      assert init[..j] == names[..j];
      LoadFailurePersists(reg, init, lib, j);
    } else {
      assert names[..j] == names;
    }
  }

  /** Blank lines and records of any other keyword leave the state as it is. */
  lemma IgnoredLine(st: State, line: Line, lib: Library)
    requires line == [] || line[0] !in {Word("v"), Word("vn"), Word("mtllib"), Word("usemtl"), Word("f")}
    ensures Step(st, line, lib) == Success(st)
  {
  }

  /** A `v` record appends exactly one vertex and a `vn` record exactly one
      normal, leaving everything else as it is. */
  lemma VectorRecord(st: State, line: Line, lib: Library)
    requires |line| == 4 && (line[0] == Word("v") || line[0] == Word("vn"))
    requires line[1].Num? && line[2].Num? && line[3].Num?
    ensures Step(st, line, lib).Success?
    ensures var s := Step(st, line, lib).value; var p := Some(Vec3(line[1].value, line[2].value, line[3].value));
      && s.reg == st.reg && s.polys == st.polys && s.current == st.current
      && (line[0] == Word("v") ==> s.vertices == st.vertices + [p] && s.normals == st.normals)
      && (line[0] == Word("vn") ==> s.normals == st.normals + [p] && s.vertices == st.vertices)
  {
  }

  /** The texture piece of a component plays no part in resolving it. */
  lemma TextureIgnored(vlen: nat, nlen: nat, s1: string, s2: string, a: Option<int>, t1: Option<int>, t2: Option<int>, b: Option<int>)
    ensures ResolvePoint(vlen, nlen, Slashed(s1, [a, t1, b])) == ResolvePoint(vlen, nlen, Slashed(s2, [a, t2, b]))
  {
  }

  /** How a component fails: a token that does not split into exactly three
      pieces, or a vertex or normal index past the table, whose last slot
      is the number of entries defined so far. */
  lemma BadComponent(vlen: nat, nlen: nat, comp: Token)
    ensures !comp.Slashed? || |comp.pieces| != 3 ==> ResolvePoint(vlen, nlen, comp) == Failure(WrongArity)
    ensures comp.Slashed? && |comp.pieces| == 3 && comp.pieces[0].Some? && comp.pieces[0].value >= vlen
      ==> ResolvePoint(vlen, nlen, comp) == Failure(IndexOutOfRange)
    ensures comp.Slashed? && |comp.pieces| == 3 && comp.pieces[0].Some? && comp.pieces[2].Some?
      && PyIndex(vlen, comp.pieces[0].value).Some? && comp.pieces[2].value >= nlen
      ==> ResolvePoint(vlen, nlen, comp) == Failure(IndexOutOfRange)
  {
  }

  /** A positive index within the table resolves to its own slot: the face
      point refers to the vertex and normal of those record numbers. */
  lemma PositiveIndices(vlen: nat, nlen: nat, s: string, t: Option<int>, i: int, j: int)
    requires 1 <= i < vlen && 1 <= j < nlen
    ensures ResolvePoint(vlen, nlen, Slashed(s, [Some(i), t, Some(j)])) == Success(Point(i, j))
  {
  }

  /** Index 0 is not rejected: it resolves to the sentinel slot 0. A negative
      index counts back from the end of the table. */
  lemma ZeroAndNegativeIndices(vlen: nat, nlen: nat, s: string, i: int, j: int)
    requires vlen >= 1 && nlen >= 1
    requires -(vlen as int) <= i <= 0 && -(nlen as int) <= j <= 0
    ensures ResolvePoint(vlen, nlen, Slashed(s, [Some(i), None, Some(j)])).Success?
    ensures var p := ResolvePoint(vlen, nlen, Slashed(s, [Some(i), None, Some(j)])).value;
      p.v == (if i == 0 then 0 else vlen + i) && p.n == (if j == 0 then 0 else nlen + j)
  {
  }

  /** A malformed `v` or `vn` record fails: other than three fields is the
      unpacking error, a field float() rejects is BadNumber. */
  lemma MalformedVector(st: State, line: Line, lib: Library)
    requires |line| >= 1 && (line[0] == Word("v") || line[0] == Word("vn"))
    ensures |line| != 4 ==> Step(st, line, lib) == Failure(WrongArity)
    ensures |line| == 4 && !(line[1].Num? && line[2].Num? && line[3].Num?) ==> Step(st, line, lib) == Failure(BadNumber)
  {
  }

  /** A `usemtl` or `f` record without arguments fails with MissingField. */
  lemma BareRecords(st: State, lib: Library)
    ensures Step(st, [Word("usemtl")], lib) == Failure(MissingField)
    ensures Step(st, [Word("f")], lib) == Failure(MissingField)
  {
  }

  /** Loading libraries keeps every material name known before, and every
      name each loaded file defines becomes known. */
  lemma {:induction false} LoadKeepsNames(reg: MaterialLibrary.Registry, names: seq<Token>, lib: Library)
    requires LoadLibraries(reg, names, lib).Success?
    ensures reg.byName.Keys <= LoadLibraries(reg, names, lib).value.byName.Keys
    ensures forall k :: 0 <= k < |names| ==>
      names[k] in lib && MaterialLibrary.NamesOf(lib[names[k]]) <= LoadLibraries(reg, names, lib).value.byName.Keys
  {
    if names != [] {
      var init := names[..|names| - 1];
      var last := names[|names| - 1];
      LoadKeepsNames(reg, init, lib);
      var mid := LoadLibraries(reg, init, lib).value;
      MaterialLibrary.ParseSavesEveryName(mid, lib[last]);
      forall k | 0 <= k < |names| - 1
        ensures names[k] == init[k]
      {
      }
    }
  }

  /** An `mtllib` record succeeds exactly when its files load, changes only
      the materials, and afterwards every name those files define, and
      every name known before, is known. */
  lemma MtllibRecord(st: State, line: Line, lib: Library)
    requires |line| >= 1 && line[0] == Word("mtllib")
    ensures var loaded := LoadLibraries(st.reg, line[1..], lib);
      && (Step(st, line, lib).Success? <==> loaded.Success?)
      && (loaded.Failure? ==> Step(st, line, lib) == Failure(loaded.error))
      && (loaded.Success? ==> Step(st, line, lib) == Success(st.(reg := loaded.value)))
    ensures Step(st, line, lib).Success? ==> var s := Step(st, line, lib).value;
      && st.reg.byName.Keys <= s.reg.byName.Keys
      && forall k :: 1 <= k < |line| ==> line[k] in lib && MaterialLibrary.NamesOf(lib[line[k]]) <= s.reg.byName.Keys
  {
    if LoadLibraries(st.reg, line[1..], lib).Success? {
      LoadKeepsNames(st.reg, line[1..], lib);
      forall k | 1 <= k < |line|
        ensures line[k] == line[1..][k - 1]
      {
      }
    }
  }

  /** A face record resolves its components in order and, when all resolve,
      appends the face to the end of the bucket its size selects under the
      current material. No other batch and no table changes. */
  lemma FaceRecord(st: State, line: Line, lib: Library)
    requires |line| >= 2 && line[0] == Word("f")
    ensures var pts := ResolvePoints(|st.vertices|, |st.normals|, line[1..]);
      Step(st, line, lib).Success? <==> pts.Success?
    ensures Step(st, line, lib).Success? ==>
      var s := Step(st, line, lib).value;
      var face := ResolvePoints(|st.vertices|, |st.normals|, line[1..]).value;
      && |face| == |line| - 1
      && s.polys.Keys == st.polys.Keys + {st.current}
      && s.polys[st.current] == AddFace(BatchAt(st.polys, st.current), face)
      && (forall key :: key in st.polys && key != st.current ==> s.polys[key] == st.polys[key])
      && s.vertices == st.vertices && s.normals == st.normals && s.reg == st.reg && s.current == st.current
  {
  }

  /** A component that does not resolve makes its face record fail. */
  lemma FaceWithBadComponentFails(st: State, line: Line, lib: Library, k: nat)
    requires |line| >= 2 && line[0] == Word("f")
    requires 1 <= k < |line| && ResolvePoint(|st.vertices|, |st.normals|, line[k]).Failure?
    ensures Step(st, line, lib).Failure?
  {
    assert line[1..][k - 1] == line[k];
  }

  /** `usemtl` selects a material by name; an unknown name fails. */
  lemma UseMaterialRecord(st: State, line: Line, lib: Library)
    requires |line| >= 2 && line[0] == Word("usemtl")
    ensures Step(st, line, lib).Success? <==> line[1] in st.reg.byName
    ensures Step(st, line, lib).Failure? ==> Step(st, line, lib).error == UnknownMaterial
    ensures Step(st, line, lib).Success? ==>
      Step(st, line, lib) == Success(st.(current := Some(st.reg.byName[line[1]])))
  {
  }

  /** Adding a face of in-range points keeps a batch's points in range. */
  lemma AddFaceWithin(b: Batch, face: Face, vlen: nat, nlen: nat)
    requires PointsWithin(b, vlen, nlen)
    requires forall k :: 0 <= k < |face| ==> face[k].v < vlen && face[k].n < nlen
    ensures PointsWithin(AddFace(b, face), vlen, nlen)
  {
    forall p | p in face
      ensures p.v < vlen && p.n < nlen
    {
      var k :| 0 <= k < |face| && face[k] == p;
    }
  }

  /** Growing the tables keeps every batch's points in range. */
  lemma TablesGrowWithin(polys: map<MatKey, Batch>, vlen: nat, nlen: nat, vlen': nat, nlen': nat)
    requires vlen <= vlen' && nlen <= nlen'
    requires forall key :: key in polys ==> PointsWithin(polys[key], vlen, nlen)
    ensures forall key :: key in polys ==> PointsWithin(polys[key], vlen', nlen')
  {
  }

  /** Every step keeps the parser's invariant. */
  lemma StepKeepsWellFormed(st: State, line: Line, lib: Library)
    requires WellFormed(st)
    requires Step(st, line, lib).Success?
    ensures WellFormed(Step(st, line, lib).value)
  {
    var s := Step(st, line, lib).value;
    if line == [] {
    } else if line[0] == Word("v") || line[0] == Word("vn") {
      assert s.polys == st.polys && IsTable(s.vertices) && IsTable(s.normals);
      GrownTablesKeepWellFormed(st, s);
    } else if line[0] == Word("mtllib") || line[0] == Word("usemtl") {
      assert s.polys == st.polys && s.vertices == st.vertices && s.normals == st.normals;
      GrownTablesKeepWellFormed(st, s);
    } else if line[0] == Word("f") {
      var face := ResolvePoints(|st.vertices|, |st.normals|, line[1..]).value;
      assert s == st.(polys := st.polys[st.current := AddFace(BatchAt(st.polys, st.current), face)]);
      FaceKeepsWellFormed(st, face);
    }
  }

  /** Tables that only grow, with the batches kept, keep the invariant. */
  lemma GrownTablesKeepWellFormed(st: State, s: State)
    requires WellFormed(st)
    requires IsTable(s.vertices) && IsTable(s.normals) && s.polys == st.polys
    requires |st.vertices| <= |s.vertices| && |st.normals| <= |s.normals|
    ensures WellFormed(s)
  {
    TablesGrowWithin(st.polys, |st.vertices|, |st.normals|, |s.vertices|, |s.normals|);
  }

  /** Filing a face of in-range points keeps the invariant. */
  lemma FaceKeepsWellFormed(st: State, face: Face)
    requires WellFormed(st)
    requires forall k :: 0 <= k < |face| ==> face[k].v < |st.vertices| && face[k].n < |st.normals|
    ensures WellFormed(st.(polys := st.polys[st.current := AddFace(BatchAt(st.polys, st.current), face)]))
  {
    AddFaceWithin(BatchAt(st.polys, st.current), face, |st.vertices|, |st.normals|);
  }

  /** Reading any lines keeps the invariant; the start state has it. */
  lemma {:induction false} RunKeepsWellFormed(st: State, lines: seq<Line>, lib: Library)
    requires WellFormed(st)
    requires RunFrom(st, lines, lib).Success?
    ensures WellFormed(RunFrom(st, lines, lib).value)
  {
    if lines != [] {
      var init := lines[..|lines| - 1];
      RunKeepsWellFormed(st, init, lib);
      StepKeepsWellFormed(RunFrom(st, init, lib).value, lines[|lines| - 1], lib);
    }
  }

  /** The tables only grow, by one entry per `v` or `vn` record, and earlier
      entries stay where they are. */
  lemma {:induction false} TablesGrowByRecords(st: State, lines: seq<Line>, lib: Library)
    requires RunFrom(st, lines, lib).Success?
    ensures var s := RunFrom(st, lines, lib).value;
      && |s.vertices| == |st.vertices| + CountRecords(lines, "v")
      && |s.normals| == |st.normals| + CountRecords(lines, "vn")
      && s.vertices[..|st.vertices|] == st.vertices
      && s.normals[..|st.normals|] == st.normals
  {
    if lines != [] {
      var init := lines[..|lines| - 1];
      TablesGrowByRecords(st, init, lib);
      var mid := RunFrom(st, init, lib).value;
      var s := RunFrom(st, lines, lib).value;
      assert s == Step(mid, lines[|lines| - 1], lib).value;
    }
  }

  /** After a successful parse the vertex table holds the sentinel and one
      entry per `v` record, the normal table the sentinel and one entry per
      `vn` record, and the result keeps the parser's invariant. */
  lemma ParsedTables(lines: seq<Line>, lib: Library)
    requires Parse(lines, lib).Success?
    ensures var s := Parse(lines, lib).value;
      && |s.vertices| == 1 + CountRecords(lines, "v") && s.vertices[0] == None
      && |s.normals| == 1 + CountRecords(lines, "vn") && s.normals[0] == None
      && WellFormed(s)
  {
    TablesGrowByRecords(Start, lines, lib);
    RunKeepsWellFormed(Start, lines, lib);
  }

  /** Whether some line is a `usemtl` record. */
  predicate SelectsMaterial(lines: seq<Line>)
  {
    exists k :: 0 <= k < |lines| && |lines[k]| > 0 && lines[k][0] == Word("usemtl")
  }

  /** Without any `usemtl`, every face lands under the None key. */
  lemma {:induction false} NoMaterialKey(st: State, lines: seq<Line>, lib: Library)
    requires st.current == None && st.polys.Keys <= {None}
    requires !SelectsMaterial(lines)
    requires RunFrom(st, lines, lib).Success?
    ensures RunFrom(st, lines, lib).value.current == None
    ensures RunFrom(st, lines, lib).value.polys.Keys <= {None}
  {
    if lines != [] {
      var init := lines[..|lines| - 1];
      assert !SelectsMaterial(init) by {
        forall k | 0 <= k < |init| ensures !(|init[k]| > 0 && init[k][0] == Word("usemtl")) {
          assert init[k] == lines[k];
        }
      }
      NoMaterialKey(st, init, lib);
    }
  }

  /** Faces read before any `usemtl` are stored under the None key. */
  lemma FacesBeforeUsemtl(lines: seq<Line>, lib: Library)
    requires !SelectsMaterial(lines)
    requires Parse(lines, lib).Success?
    ensures Parse(lines, lib).value.polys.Keys <= {None}
  {
    NoMaterialKey(Start, lines, lib);
  }
}
