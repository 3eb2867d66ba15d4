/** The loader object: parsing fills its tables, materials and polygon
    batches step by step; the display list is compiled once from the render
    trace and replayed by `Draw`; the asteroid variant scales every vertex in
    place between parsing and compiling. */
module ObjLoader {
  import opened MeshTypes
  import MaterialLibrary
  import Geometry
  import RenderTrace

  /** `order` visits every key of the set exactly once: the iteration order of
      the batch dictionary, which the model leaves open. */
  predicate Enumerates(order: seq<MatKey>, keys: set<MatKey>)
  {
    && (forall key :: key in keys ==> key in order)
    && (forall k :: 0 <= k < |order| ==> order[k] in keys)
    && (forall i, j :: 0 <= i < j < |order| ==> order[i] != order[j])
  }

  /** A vector with every coordinate multiplied by one factor. */
  function ScaleVec(p: Vec3, s: real): Vec3
  {
    Vec3(p.x * s, p.y * s, p.z * s)
  }

  /** The vertex table after the asteroid perturbation: slot k >= 1 is scaled
      by factor k - 1, the sentinel stays. */
  function Scaled(vs: seq<Entry>, factors: seq<real>): (r: seq<Entry>)
    requires Geometry.IsTable(vs) && |factors| >= |vs| - 1
    ensures Geometry.IsTable(r) && |r| == |vs|
  {
    seq(|vs|, k requires 0 <= k < |vs| => if k == 0 then vs[0] else Some(ScaleVec(vs[k].value, factors[k - 1])))
  }

  /** Factors that are all 1 leave the vertex table as it was. */
  lemma UnitFactorsKeepTable(vs: seq<Entry>, factors: seq<real>)
    requires Geometry.IsTable(vs) && |factors| >= |vs| - 1
    requires forall k :: 0 <= k < |factors| ==> factors[k] == 1.0
    ensures Scaled(vs, factors) == vs
  {
    forall k | 0 <= k < |vs|
      ensures Scaled(vs, factors)[k] == vs[k]
    {
      if k > 0 {
        assert factors[k - 1] == 1.0;
      }
    }
  }

  /** Faces refer to table slots, so after the perturbation every face that
      uses a vertex draws the scaled vertex, with the same normals as before. */
  lemma FacesSeeScaledVertices(vs: seq<Entry>, ns: seq<Entry>, factors: seq<real>, face: Face)
    requires Geometry.IsTable(vs) && |factors| >= |vs| - 1
    requires RenderTrace.FaceWithin(face, |vs|, |ns|)
    ensures var before, after := RenderTrace.PointEvents(vs, ns, face), RenderTrace.PointEvents(Scaled(vs, factors), ns, face);
      && |after| == |before| == 2 * |face|
      && forall k :: 0 <= k < |face| ==>
        && after[2 * k] == before[2 * k]
        && after[2 * k + 1] == RenderTrace.Vertex(if face[k].v == 0 then None else Some(ScaleVec(vs[face[k].v].value, factors[face[k].v - 1])))
  {
    RenderTrace.PointEventsAt(vs, ns, face);
    RenderTrace.PointEventsAt(Scaled(vs, factors), ns, face);
  }

  /** The rendering backend: the display lists compiled so far, by handle,
      and everything drawn. */
  class Backend {
    var lists: map<int, seq<RenderTrace.Event>>
    var drawn: seq<RenderTrace.Event>

    constructor ()
      ensures lists == map[] && drawn == []
    {
      lists := map[];
      drawn := [];
    }
  }

  class ObjModel {
    var vertices: seq<Entry>
    var normals: seq<Entry>
    var reg: MaterialLibrary.Registry
    var polys: map<MatKey, Batch>
    var renderlist: int

    /** The parser state these fields hold, with `current` the material in use. */
    function Snapshot(current: MatKey): Geometry.State
      reads this
    {
      Geometry.State(vertices, normals, reg, polys, current)
    }

    /** The parser's invariant, and every batch within the tables. */
    ghost predicate Valid()
      reads this
    {
      && Geometry.WellFormed(Snapshot(None))
      && forall key :: key in polys ==> RenderTrace.BatchWithin(polys[key], |vertices|, |normals|)
    }

    constructor ()
      ensures Valid()
      ensures vertices == [None] && normals == [None] && polys == map[]
      ensures reg == MaterialLibrary.Registry(map[], 0) && renderlist == 0
    {
      vertices := [None];
      normals := [None];
      reg := MaterialLibrary.Registry(map[], 0);
      polys := map[];
      renderlist := 0;
    }

    /** One line of a material file, with `pending` the material being read. */
    method ReadMtlLine(line: MaterialLibrary.MtlLine, pending: Option<MaterialLibrary.Pending>)
      returns (r: Result<Option<MaterialLibrary.Pending>>)
      requires MaterialLibrary.Valid(MaterialLibrary.State(reg, pending))
      modifies this`reg
      ensures match MaterialLibrary.Step(MaterialLibrary.State(old(reg), pending), line)
        case Success(s) => r == Success(s.pending) && reg == s.reg
        case Failure(e) => r == Failure(e)
    {
      var t := line.tokens;
      if t == [] {
        return Success(pending);
      }
      if t[0] == Word("newmtl") {
        if pending.Some? {
          // save the material read so far
          var m := NewMaterial(reg.made, pending.value.colors);
          if m.Failure? {
            return Failure(m.error);
          }
          reg := MaterialLibrary.Registry(reg.byName[pending.value.name := m.value], reg.made + 1);
        }
        if |t| < 2 {
          return Failure(MissingField);
        }
        return Success(Some(MaterialLibrary.Pending(t[1], MaterialLibrary.Blank)));
      }
      if MaterialLibrary.IsColorKeyword(t[0]) {
        var read := MaterialLibrary.ReadReals(t[1..]);
        if read.Failure? {
          return Failure(read.error);
        }
        var color := read.value;
        if |color| == 1 {
          color := color + color + color;
          color := color + [0.0];
        } else if |color| == 3 {
          color := color + [0.0];
        }
        // the slot comes from the raw line's second character
        var slot := MaterialLibrary.ColorSlotAsWritten(line);
        if slot.Failure? {
          return Failure(slot.error);
        }
        if pending.None? {
          return Failure(NoPendingMaterial);
        }
        var p := pending.value;
        return Success(Some(p.(colors := p.colors[slot.value := color])));
      }
      return Success(pending);
    }

    /** A material file merged into the materials known so far. */
    method ParseMat(lines: seq<MaterialLibrary.MtlLine>) returns (o: Outcome)
      modifies this`reg
      ensures match MaterialLibrary.Parse(old(reg), lines)
        case Success(r) => o == Pass && reg == r
        case Failure(e) => o == Fail(e)
    {
      ghost var start := MaterialLibrary.State(reg, None);
      var pending: Option<MaterialLibrary.Pending> := None;
      for i := 0 to |lines|
        invariant MaterialLibrary.RunFrom(start, lines[..i]) == Success(MaterialLibrary.State(reg, pending))
      {
        assert lines[..i + 1][..i] == lines[..i];
        var r := ReadMtlLine(lines[i], pending);
        if r.Failure? {
          MaterialLibrary.FailurePersists(start, lines, i + 1);
          return Fail(r.error);
        }
        pending := r.value;
      }
      assert lines[..|lines|] == lines;
      if pending.Some? {
        // save the final one
        var m := NewMaterial(reg.made, pending.value.colors);
        if m.Failure? {
          return Fail(m.error);
        }
        reg := MaterialLibrary.Registry(reg.byName[pending.value.name := m.value], reg.made + 1);
      }
      return Pass;
    }

    /** The components of a face, resolved in order against the tables. */
    method ResolveFace(comps: seq<Token>) returns (r: Result<Face>)
      ensures r == Geometry.ResolvePoints(|vertices|, |normals|, comps)
    {
      var points: Face := [];
      for k := 0 to |comps|
        invariant Geometry.ResolvePoints(|vertices|, |normals|, comps[..k]) == Success(points)
      {
        assert comps[..k + 1][..k] == comps[..k];
        var p := Geometry.ResolvePoint(|vertices|, |normals|, comps[k]);
        if p.Failure? {
          Geometry.ResolveFailurePersists(|vertices|, |normals|, comps, k + 1);
          return Failure(p.error);
        }
        points := points + [p.value];
      }
      assert comps[..|comps|] == comps;
      return Success(points);
    }

    /** The files of an `mtllib` record, parsed in order. */
    method LoadLibraries(names: seq<Token>, lib: Geometry.Library) returns (o: Outcome)
      modifies this`reg
      ensures match Geometry.LoadLibraries(old(reg), names, lib)
        case Success(r) => o == Pass && reg == r
        case Failure(e) => o == Fail(e)
    {
      ghost var start := reg;
      for k := 0 to |names|
        invariant Geometry.LoadLibraries(start, names[..k], lib) == Success(reg)
      {
        assert names[..k + 1][..k] == names[..k];
        if names[k] !in lib {
          Geometry.LoadFailurePersists(start, names, lib, k + 1);
          return Fail(MissingFile);
        }
        var r := ParseMat(lib[names[k]]);
        if r.Fail? {
          Geometry.LoadFailurePersists(start, names, lib, k + 1);
          return Fail(r.error);
        }
      }
      assert names[..|names|] == names;
      return Pass;
    }

    /** One line of the mesh file, with `current` the material in use. */
    method ReadLine(line: Geometry.Line, lib: Geometry.Library, current: MatKey) returns (r: Result<MatKey>)
      modifies this`vertices, this`normals, this`reg, this`polys
      ensures match Geometry.Step(old(Snapshot(current)), line, lib)
        case Success(s) => r == Success(s.current) && Snapshot(s.current) == s
        case Failure(e) => r == Failure(e)
    {
      if line == [] {
        return Success(current);
      }
      if line[0] == Word("v") || line[0] == Word("vn") {
        if |line| != 4 {
          return Failure(WrongArity);
        }
        if !(line[1].Num? && line[2].Num? && line[3].Num?) {
          return Failure(BadNumber);
        }
        var p := Vec3(line[1].value, line[2].value, line[3].value);
        if line[0] == Word("v") {
          vertices := vertices + [Some(p)];
        } else {
          normals := normals + [Some(p)];
        }
      } else if line[0] == Word("mtllib") {
        var o := LoadLibraries(line[1..], lib);
        if o.Fail? {
          return Failure(o.error);
        }
      } else if line[0] == Word("usemtl") {
        if |line| < 2 {
          return Failure(MissingField);
        }
        if line[1] !in reg.byName {
          return Failure(UnknownMaterial);
        }
        return Success(Some(reg.byName[line[1]]));
      } else if line[0] == Word("f") {
        if |line| < 2 {
          return Failure(MissingField);
        }
        var face := ResolveFace(line[1..]);
        if face.Failure? {
          return Failure(face.error);
        }
        var points := face.value;
        var b := if current in polys then polys[current] else EmptyBatch;
        if |points| == 3 {
          b := b.(triangles := b.triangles + [points]);
        } else if |points| == 4 {
          b := b.(quads := b.quads + [points]);
        } else {
          b := b.(polygons := b.polygons + [points]);
        }
        polys := polys[current := b];
      }
      return Success(current);
    }

    /** Parses a whole mesh file into the tables and batches. */
    method ParseModel(lines: seq<Geometry.Line>, lib: Geometry.Library) returns (o: Outcome)
      modifies this`vertices, this`normals, this`reg, this`polys
      ensures match Geometry.Parse(lines, lib)
        case Success(st) => o == Pass && Snapshot(st.current) == st && Valid()
        case Failure(e) => o == Fail(e)
    {
      vertices := [None];
      normals := [None];
      reg := MaterialLibrary.Registry(map[], 0);
      polys := map[];
      var current: MatKey := None;
      for i := 0 to |lines|
        invariant Geometry.RunFrom(Geometry.Start, lines[..i], lib) == Success(Snapshot(current))
      {
        assert lines[..i + 1][..i] == lines[..i];
        var r := ReadLine(lines[i], lib, current);
        if r.Failure? {
          Geometry.FailurePersists(Geometry.Start, lines, lib, i + 1);
          return Fail(r.error);
        }
        current := r.value;
      }
      assert lines[..|lines|] == lines;
      Geometry.ParsedTables(lines, lib);
      forall key | key in polys
        ensures RenderTrace.BatchWithin(polys[key], |vertices|, |normals|)
      {
        RenderTrace.BatchWithinFromParse(polys[key], |vertices|, |normals|);
      }
      return Pass;
    }

    /** The triangle bucket as one triangle block, three points per face. */
    method EmitTriangles(tris: seq<Face>) returns (evs: seq<RenderTrace.Event>)
      requires RenderTrace.FacesWithin(tris, |vertices|, |normals|)
      requires forall j :: 0 <= j < |tris| ==> |tris[j]| == 3
      ensures evs == RenderTrace.Block(RenderTrace.Triangles, vertices, normals, tris)
    {
      evs := [];
      if tris != [] {
        evs := [RenderTrace.Begin(RenderTrace.Triangles)];
        for j := 0 to |tris|
          invariant evs == [RenderTrace.Begin(RenderTrace.Triangles)] + RenderTrace.FaceEvents(vertices, normals, tris[..j])
        {
          assert tris[..j + 1][..j] == tris[..j];
          var f := tris[j];
          RenderTrace.TrianglePoints(vertices, normals, f);
          evs := evs + [RenderTrace.Normal(normals[f[0].n]), RenderTrace.Vertex(vertices[f[0].v]),
                        RenderTrace.Normal(normals[f[1].n]), RenderTrace.Vertex(vertices[f[1].v]),
                        RenderTrace.Normal(normals[f[2].n]), RenderTrace.Vertex(vertices[f[2].v])];
        }
        assert tris[..|tris|] == tris;
        evs := evs + [RenderTrace.End];
      }
    }

    /** The quadrilateral bucket as one quad block, four points per face. */
    method EmitQuads(quads: seq<Face>) returns (evs: seq<RenderTrace.Event>)
      requires RenderTrace.FacesWithin(quads, |vertices|, |normals|)
      requires forall j :: 0 <= j < |quads| ==> |quads[j]| == 4
      ensures evs == RenderTrace.Block(RenderTrace.Quads, vertices, normals, quads)
    {
      evs := [];
      if quads != [] {
        evs := [RenderTrace.Begin(RenderTrace.Quads)];
        for j := 0 to |quads|
          invariant evs == [RenderTrace.Begin(RenderTrace.Quads)] + RenderTrace.FaceEvents(vertices, normals, quads[..j])
        {
          assert quads[..j + 1][..j] == quads[..j];
          var f := quads[j];
          RenderTrace.QuadPoints(vertices, normals, f);
          evs := evs + [RenderTrace.Normal(normals[f[0].n]), RenderTrace.Vertex(vertices[f[0].v]),
                        RenderTrace.Normal(normals[f[1].n]), RenderTrace.Vertex(vertices[f[1].v]),
                        RenderTrace.Normal(normals[f[2].n]), RenderTrace.Vertex(vertices[f[2].v]),
                        RenderTrace.Normal(normals[f[3].n]), RenderTrace.Vertex(vertices[f[3].v])];
        }
        assert quads[..|quads|] == quads;
        evs := evs + [RenderTrace.End];
      }
    }

    /** Each other polygon in a block of its own, point by point. */
    method EmitPolygons(faces: seq<Face>) returns (evs: seq<RenderTrace.Event>)
      requires RenderTrace.FacesWithin(faces, |vertices|, |normals|)
      ensures evs == RenderTrace.PolygonBlocks(vertices, normals, faces)
    {
      evs := [];
      for j := 0 to |faces|
        invariant evs == RenderTrace.PolygonBlocks(vertices, normals, faces[..j])
      {
        assert faces[..j + 1][..j] == faces[..j];
        var f := faces[j];
        var block := [RenderTrace.Begin(RenderTrace.Polygon)];
        for k := 0 to |f|
          invariant block == [RenderTrace.Begin(RenderTrace.Polygon)] + RenderTrace.PointEvents(vertices, normals, f[..k])
        {
          assert f[..k + 1][..k] == f[..k];
          block := block + [RenderTrace.Normal(normals[f[k].n]), RenderTrace.Vertex(vertices[f[k].v])];
        }
        assert f[..|f|] == f;
        evs := evs + (block + [RenderTrace.End]);
      }
      assert faces[..|faces|] == faces;
    }

    /** One material entry: its activation, then its triangle, quad and
        polygon blocks. */
    method EmitBatch(key: MatKey, b: Batch) returns (evs: seq<RenderTrace.Event>)
      requires Bucketed(b) && RenderTrace.BatchWithin(b, |vertices|, |normals|)
      ensures evs == RenderTrace.BatchEvents(vertices, normals, key, b)
    {
      evs := [];
      if key.Some? {
        evs := RenderTrace.Activate(key.value);
      }
      var tri := EmitTriangles(b.triangles);
      var quad := EmitQuads(b.quads);
      var poly := EmitPolygons(b.polygons);
      evs := evs + tri + quad + poly;
    }

    /** Renders every material entry in the dictionary's order. */
    method Render(order: seq<MatKey>) returns (trace: seq<RenderTrace.Event>)
      requires Valid()
      requires Enumerates(order, polys.Keys)
      ensures RenderTrace.Renderable(vertices, normals, polys, order)
      ensures trace == RenderTrace.Trace(vertices, normals, polys, order)
    {
      assert RenderTrace.Renderable(vertices, normals, polys, order);
      assert forall k :: 0 <= k < |order| ==> Bucketed(polys[order[k]]);
      trace := [];
      for i := 0 to |order|
        invariant RenderTrace.Renderable(vertices, normals, polys, order[..i])
        invariant trace == RenderTrace.Trace(vertices, normals, polys, order[..i])
      {
        RenderTrace.TraceStep(vertices, normals, polys, order, i);
        var evs := EmitBatch(order[i], polys[order[i]]);
        trace := trace + evs;
      }
      assert order[..|order|] == order;
    }

    /** Compiles the render trace into display list `handle`, the one the
        backend allocated; handle 0 means allocation failed. */
    method CreateDisplayList(gl: Backend, handle: int, order: seq<MatKey>) returns (o: Outcome)
      requires Valid()
      requires Enumerates(order, polys.Keys)
      modifies this`renderlist, gl`lists
      ensures RenderTrace.Renderable(vertices, normals, polys, order)
      ensures renderlist == handle
      ensures handle == 0 ==> o == Fail(NoDisplayList) && gl.lists == old(gl.lists)
      ensures handle != 0 ==> o == Pass && gl.lists == old(gl.lists)[handle := RenderTrace.Trace(vertices, normals, polys, order)]
    {
      renderlist := handle;
      if renderlist == 0 {
        return Fail(NoDisplayList);
      }
      var trace := Render(order);
      gl.lists := gl.lists[renderlist := trace];
      return Pass;
    }

    /** Replays the display list; nothing but the backend's output changes. */
    method Draw(gl: Backend)
      modifies gl`drawn
      ensures gl.drawn == old(gl.drawn) + if renderlist in gl.lists then gl.lists[renderlist] else []
    {
      if renderlist in gl.lists {
        gl.drawn := gl.drawn + gl.lists[renderlist];
      }
    }

    /** Loading a mesh: parse, then compile the display list, visiting the
        material entries in the order `iterate` gives their key set. */
    method Load(lines: seq<Geometry.Line>, lib: Geometry.Library, gl: Backend, handle: int,
                iterate: set<MatKey> -> seq<MatKey>) returns (o: Outcome)
      requires forall keys :: Enumerates(iterate(keys), keys)
      modifies this, gl`lists
      ensures match Geometry.Parse(lines, lib)
        case Failure(e) => o == Fail(e)
        case Success(st) =>
          && Snapshot(st.current) == st && Valid() && renderlist == handle
          && RenderTrace.Renderable(vertices, normals, polys, iterate(polys.Keys))
          && (handle == 0 ==> o == Fail(NoDisplayList))
          && (handle != 0 ==> o == Pass && gl.lists == old(gl.lists)[handle := RenderTrace.Trace(vertices, normals, polys, iterate(polys.Keys))])
    {
      o := ParseModel(lines, lib);
      if o.Fail? {
        return;
      }
      o := CreateDisplayList(gl, handle, iterate(polys.Keys));
    }

    /** Scales every vertex after the sentinel in place by its own factor. */
    method Perturb(factors: seq<real>)
      requires Valid()
      requires |factors| >= |vertices| - 1
      requires forall k :: 0 <= k < |factors| ==> 0.7 <= factors[k] <= 1.3
      modifies this`vertices
      ensures Valid()
      ensures vertices == Scaled(old(vertices), factors)
    {
      ghost var original := vertices;
      for i := 1 to |vertices|
        invariant |vertices| == |original|
        invariant vertices[..i] == Scaled(original, factors)[..i]
        invariant vertices[i..] == original[i..]
      {
        vertices := vertices[i := Some(ScaleVec(vertices[i].value, factors[i - 1]))];
      }
      assert vertices == vertices[..|vertices|];
      assert Scaled(original, factors) == Scaled(original, factors)[..|original|];
    }

    /** The asteroid: the base mesh parsed, every vertex scaled by a factor in
        [0.7, 1.3], then compiled. */
    method LoadAsteroid(lines: seq<Geometry.Line>, lib: Geometry.Library, factors: seq<real>, gl: Backend, handle: int,
                        iterate: set<MatKey> -> seq<MatKey>) returns (o: Outcome)
      requires forall keys :: Enumerates(iterate(keys), keys)
      requires |factors| >= Geometry.CountRecords(lines, "v")
      requires forall k :: 0 <= k < |factors| ==> 0.7 <= factors[k] <= 1.3
      modifies this, gl`lists
      ensures match Geometry.Parse(lines, lib)
        case Failure(e) => o == Fail(e)
        case Success(st) =>
          && Geometry.IsTable(st.vertices) && |st.vertices| == 1 + Geometry.CountRecords(lines, "v")
          && vertices == Scaled(st.vertices, factors)
          && normals == st.normals && polys == st.polys && reg == st.reg
          && Valid() && renderlist == handle
          && RenderTrace.Renderable(vertices, normals, polys, iterate(polys.Keys))
          && (handle == 0 ==> o == Fail(NoDisplayList))
          && (handle != 0 ==> o == Pass && gl.lists == old(gl.lists)[handle := RenderTrace.Trace(vertices, normals, polys, iterate(polys.Keys))])
    {
      o := ParseModel(lines, lib);
      if o.Fail? {
        return;
      }
      Geometry.ParsedTables(lines, lib);
      Perturb(factors);
      o := CreateDisplayList(gl, handle, iterate(polys.Keys));
    }
  }
}
