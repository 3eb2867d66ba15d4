/** What rendering a parsed mesh emits, as a sequence of abstract events in
    place of the rendering backend's calls: per material, its activation,
    one triangle block, one quad block and one block per other polygon. */
module RenderTrace {
  import opened MeshTypes
  import Geometry

  datatype Primitive = Triangles | Quads | Polygon

  /** The material properties the backend knows. */
  datatype Param = Ambient | Diffuse | Specular | Emission

  datatype Event =
    | SetMaterial(param: Param, color: Color)
    | Begin(kind: Primitive)
    | Normal(normal: Entry)
    | Vertex(vertex: Entry)
    | End

  /** Activating a material sets its ambient and diffuse colours and nothing else. */
  function Activate(m: Material): (evs: seq<Event>)
    ensures forall e :: e in evs ==> e.SetMaterial? && e.param in {Ambient, Diffuse}
    ensures SetMaterial(Ambient, m.ambient) in evs && SetMaterial(Diffuse, m.diffuse) in evs
  {
    [SetMaterial(Ambient, m.ambient), SetMaterial(Diffuse, m.diffuse)]
  }

  /** Every point of a face refers to a slot of both tables. */
  predicate FaceWithin(face: Face, vlen: nat, nlen: nat)
  {
    forall k :: 0 <= k < |face| ==> face[k].v < vlen && face[k].n < nlen
  }

  predicate FacesWithin(faces: seq<Face>, vlen: nat, nlen: nat)
  {
    forall k :: 0 <= k < |faces| ==> FaceWithin(faces[k], vlen, nlen)
  }

  /** The points of a face, each as its normal followed by its vertex. */
  function PointEvents(vs: seq<Entry>, ns: seq<Entry>, face: Face): seq<Event>
    requires FaceWithin(face, |vs|, |ns|)
  {
    if face == [] then []
    else
      var p := face[|face| - 1];
      PointEvents(vs, ns, face[..|face| - 1]) + [Normal(ns[p.n]), Vertex(vs[p.v])]
  }

  /** The points of several faces inside one block. */
  function FaceEvents(vs: seq<Entry>, ns: seq<Entry>, faces: seq<Face>): seq<Event>
    requires FacesWithin(faces, |vs|, |ns|)
  {
    if faces == [] then []
    else FaceEvents(vs, ns, faces[..|faces| - 1]) + PointEvents(vs, ns, faces[|faces| - 1])
  }

  /** One block of the given kind around all faces, or nothing when there are none. */
  function Block(kind: Primitive, vs: seq<Entry>, ns: seq<Entry>, faces: seq<Face>): seq<Event>
    requires FacesWithin(faces, |vs|, |ns|)
  {
    if faces == [] then [] else [Begin(kind)] + FaceEvents(vs, ns, faces) + [End]
  }

  /** A separate polygon block per face. */
  function PolygonBlocks(vs: seq<Entry>, ns: seq<Entry>, faces: seq<Face>): seq<Event>
    requires FacesWithin(faces, |vs|, |ns|)
  {
    if faces == [] then []
    else PolygonBlocks(vs, ns, faces[..|faces| - 1]) + ([Begin(Polygon)] + PointEvents(vs, ns, faces[|faces| - 1]) + [End])
  }

  predicate BatchWithin(b: Batch, vlen: nat, nlen: nat)
  {
    FacesWithin(b.triangles, vlen, nlen) && FacesWithin(b.quads, vlen, nlen) && FacesWithin(b.polygons, vlen, nlen)
  }

  /** Everything one material entry emits. */
  function BatchEvents(vs: seq<Entry>, ns: seq<Entry>, key: MatKey, b: Batch): seq<Event>
    requires BatchWithin(b, |vs|, |ns|)
  {
    (if key.Some? then Activate(key.value) else [])
      + Block(Triangles, vs, ns, b.triangles)
      + Block(Quads, vs, ns, b.quads)
      + PolygonBlocks(vs, ns, b.polygons)
  }

  /** The order lists material keys of `polys` whose batches are within the tables. */
  predicate Renderable(vs: seq<Entry>, ns: seq<Entry>, polys: map<MatKey, Batch>, order: seq<MatKey>)
  {
    forall k :: 0 <= k < |order| ==> order[k] in polys && BatchWithin(polys[order[k]], |vs|, |ns|)
  }

  /** A prefix of a renderable order is renderable. */
  lemma RenderablePrefix(vs: seq<Entry>, ns: seq<Entry>, polys: map<MatKey, Batch>, order: seq<MatKey>, i: nat)
    requires Renderable(vs, ns, polys, order) && i <= |order|
    ensures Renderable(vs, ns, polys, order[..i])
  {
    forall k | 0 <= k < i ensures order[..i][k] == order[k] { }
  }

  /** The whole render, visiting the material entries in the given order. */
  function Trace(vs: seq<Entry>, ns: seq<Entry>, polys: map<MatKey, Batch>, order: seq<MatKey>): seq<Event>
    requires Renderable(vs, ns, polys, order)
  {
    if order == [] then []
    else Trace(vs, ns, polys, order[..|order| - 1]) + BatchEvents(vs, ns, order[|order| - 1], polys[order[|order| - 1]])
  }

  /** Rendering one more entry appends that entry's events. */
  lemma TraceStep(vs: seq<Entry>, ns: seq<Entry>, polys: map<MatKey, Batch>, order: seq<MatKey>, i: nat)
    requires Renderable(vs, ns, polys, order) && i < |order|
    ensures Renderable(vs, ns, polys, order[..i]) && Renderable(vs, ns, polys, order[..i + 1])
    ensures Trace(vs, ns, polys, order[..i + 1]) == Trace(vs, ns, polys, order[..i]) + BatchEvents(vs, ns, order[i], polys[order[i]])
  {
    RenderablePrefix(vs, ns, polys, order, i);
    RenderablePrefix(vs, ns, polys, order, i + 1);
    assert order[..i + 1][..i] == order[..i];
  }

  /** A parsed batch, whose points lie within the tables, can be rendered. */
  lemma BatchWithinFromParse(b: Batch, vlen: nat, nlen: nat)
    requires Geometry.PointsWithin(b, vlen, nlen)
    ensures BatchWithin(b, vlen, nlen)
  {
    forall k, j | 0 <= k < |b.triangles| && 0 <= j < |b.triangles[k]|
      ensures b.triangles[k][j].v < vlen && b.triangles[k][j].n < nlen
    {
      assert b.triangles[k][j] in b.triangles[k];
    }
    forall k, j | 0 <= k < |b.quads| && 0 <= j < |b.quads[k]|
      ensures b.quads[k][j].v < vlen && b.quads[k][j].n < nlen
    {
      assert b.quads[k][j] in b.quads[k];
    }
    forall k, j | 0 <= k < |b.polygons| && 0 <= j < |b.polygons[k]|
      ensures b.polygons[k][j].v < vlen && b.polygons[k][j].n < nlen
    {
      assert b.polygons[k][j] in b.polygons[k];
    }
  }

  /** Within a block each point emits its normal and then its vertex, in
      the order of the face's points. */
  lemma {:induction false} PointEventsAt(vs: seq<Entry>, ns: seq<Entry>, face: Face)
    requires FaceWithin(face, |vs|, |ns|)
    ensures |PointEvents(vs, ns, face)| == 2 * |face|
    ensures forall k :: 0 <= k < |face| ==>
      && PointEvents(vs, ns, face)[2 * k] == Normal(ns[face[k].n])
      && PointEvents(vs, ns, face)[2 * k + 1] == Vertex(vs[face[k].v])
  {
    if face != [] {
      var init := face[..|face| - 1];
      PointEventsAt(vs, ns, init);
      forall k | 0 <= k < |init| ensures init[k] == face[k] { }
    }
  }

  /** A triangle emits its three points, normal before vertex. */
  lemma TrianglePoints(vs: seq<Entry>, ns: seq<Entry>, face: Face)
    requires |face| == 3 && FaceWithin(face, |vs|, |ns|)
    ensures PointEvents(vs, ns, face) ==
      [Normal(ns[face[0].n]), Vertex(vs[face[0].v]), Normal(ns[face[1].n]), Vertex(vs[face[1].v]),
       Normal(ns[face[2].n]), Vertex(vs[face[2].v])]
  {
    PointEventsAt(vs, ns, face);
    var evs := PointEvents(vs, ns, face);
    assert evs[2 * 0] == Normal(ns[face[0].n]) && evs[2 * 0 + 1] == Vertex(vs[face[0].v]);
    assert evs[2 * 1] == Normal(ns[face[1].n]) && evs[2 * 1 + 1] == Vertex(vs[face[1].v]);
    assert evs[2 * 2] == Normal(ns[face[2].n]) && evs[2 * 2 + 1] == Vertex(vs[face[2].v]);
  }

  /** A quadrilateral emits its four points, normal before vertex. */
  lemma QuadPoints(vs: seq<Entry>, ns: seq<Entry>, face: Face)
    requires |face| == 4 && FaceWithin(face, |vs|, |ns|)
    ensures PointEvents(vs, ns, face) ==
      [Normal(ns[face[0].n]), Vertex(vs[face[0].v]), Normal(ns[face[1].n]), Vertex(vs[face[1].v]),
       Normal(ns[face[2].n]), Vertex(vs[face[2].v]), Normal(ns[face[3].n]), Vertex(vs[face[3].v])]
  {
    PointEventsAt(vs, ns, face);
    var evs := PointEvents(vs, ns, face);
    assert evs[2 * 0] == Normal(ns[face[0].n]) && evs[2 * 0 + 1] == Vertex(vs[face[0].v]);
    assert evs[2 * 1] == Normal(ns[face[1].n]) && evs[2 * 1 + 1] == Vertex(vs[face[1].v]);
    assert evs[2 * 2] == Normal(ns[face[2].n]) && evs[2 * 2 + 1] == Vertex(vs[face[2].v]);
    assert evs[2 * 3] == Normal(ns[face[3].n]) && evs[2 * 3 + 1] == Vertex(vs[face[3].v]);
  }

  /** How often an event occurs in a trace. */
  function Count(evs: seq<Event>, e: Event): nat
  {
    if evs == [] then 0
    else Count(evs[..|evs| - 1], e) + if evs[|evs| - 1] == e then 1 else 0
  }

  lemma {:induction false} CountConcat(a: seq<Event>, b: seq<Event>, e: Event)
    ensures Count(a + b, e) == Count(a, e) + Count(b, e)
    decreases |b|
  {
    if b != [] {
      var init := b[..|b| - 1];
      assert (a + b)[..|a + b| - 1] == a + init;
      CountConcat(a, init, e);
    } else {
      assert a + b == a;
    }
  }

  /** The points of a face emit no block boundary and no material. */
  lemma {:induction false} PointEventsArePoints(vs: seq<Entry>, ns: seq<Entry>, face: Face)
    requires FaceWithin(face, |vs|, |ns|)
    ensures forall e :: e in PointEvents(vs, ns, face) ==> e.Normal? || e.Vertex?
  {
    if face != [] {
      PointEventsArePoints(vs, ns, face[..|face| - 1]);
    }
  }

  lemma {:induction false} FaceEventsArePoints(vs: seq<Entry>, ns: seq<Entry>, faces: seq<Face>)
    requires FacesWithin(faces, |vs|, |ns|)
    ensures forall e :: e in FaceEvents(vs, ns, faces) ==> e.Normal? || e.Vertex?
  {
    if faces != [] {
      FaceEventsArePoints(vs, ns, faces[..|faces| - 1]);
      PointEventsArePoints(vs, ns, faces[|faces| - 1]);
    }
  }

  /** An event that occurs nowhere in a trace is counted zero times. */
  lemma {:induction false} CountAbsent(evs: seq<Event>, e: Event)
    requires e !in evs
    ensures Count(evs, e) == 0
  {
    if evs != [] {
      CountAbsent(evs[..|evs| - 1], e);
    }
  }

  /** A block opens once and closes once, and only when it has faces. */
  lemma BlockCounts(kind: Primitive, vs: seq<Entry>, ns: seq<Entry>, faces: seq<Face>, other: Primitive)
    requires FacesWithin(faces, |vs|, |ns|)
    ensures Count(Block(kind, vs, ns, faces), Begin(kind)) == if faces == [] then 0 else 1
    ensures Count(Block(kind, vs, ns, faces), End) == if faces == [] then 0 else 1
    ensures other != kind ==> Count(Block(kind, vs, ns, faces), Begin(other)) == 0
  {
    if faces != [] {
      var body := FaceEvents(vs, ns, faces);
      FaceEventsArePoints(vs, ns, faces);
      CountAbsent(body, Begin(kind));
      CountAbsent(body, Begin(other));
      CountAbsent(body, End);
      CountConcat([Begin(kind)] + body, [End], Begin(kind));
      CountConcat([Begin(kind)], body, Begin(kind));
      CountConcat([Begin(kind)] + body, [End], Begin(other));
      CountConcat([Begin(kind)], body, Begin(other));
      CountConcat([Begin(kind)] + body, [End], End);
      CountConcat([Begin(kind)], body, End);
      assert Count([Begin(kind)], Begin(kind)) == 1 by { assert [Begin(kind)][..0] == []; }
      assert Count([End], End) == 1 by { assert [End][..0] == []; }
      if other != kind {
        assert Count([Begin(kind)], Begin(other)) == 0 by { assert [Begin(kind)][..0] == []; }
      }
      assert Count([Begin(kind)], End) == 0 by { assert [Begin(kind)][..0] == []; }
      assert Count([End], Begin(kind)) == 0 by { assert [End][..0] == []; }
      assert Count([End], Begin(other)) == 0 by { assert [End][..0] == []; }
    }
  }

  /** Every other polygon gets a block of its own. */
  lemma {:induction false} PolygonBlockCounts(vs: seq<Entry>, ns: seq<Entry>, faces: seq<Face>)
    requires FacesWithin(faces, |vs|, |ns|)
    ensures Count(PolygonBlocks(vs, ns, faces), Begin(Polygon)) == |faces|
    ensures Count(PolygonBlocks(vs, ns, faces), End) == |faces|
    ensures Count(PolygonBlocks(vs, ns, faces), Begin(Triangles)) == 0
    ensures Count(PolygonBlocks(vs, ns, faces), Begin(Quads)) == 0
  {
    if faces != [] {
      var init := faces[..|faces| - 1];
      PolygonBlockCounts(vs, ns, init);
      var one := [Begin(Polygon)] + PointEvents(vs, ns, faces[|faces| - 1]) + [End];
      assert one == Block(Polygon, vs, ns, [faces[|faces| - 1]]) by {
        var f := [faces[|faces| - 1]];
        assert f[..0] == [];
        assert FaceEvents(vs, ns, f) == [] + PointEvents(vs, ns, faces[|faces| - 1]);
      }
      BlockCounts(Polygon, vs, ns, [faces[|faces| - 1]], Triangles);
      BlockCounts(Polygon, vs, ns, [faces[|faces| - 1]], Quads);
      CountConcat(PolygonBlocks(vs, ns, init), one, Begin(Polygon));
      CountConcat(PolygonBlocks(vs, ns, init), one, End);
      CountConcat(PolygonBlocks(vs, ns, init), one, Begin(Triangles));
      CountConcat(PolygonBlocks(vs, ns, init), one, Begin(Quads));
    }
  }

  /** The blocks of one material entry: one triangle block when it has
      triangles, one quad block when it has quadrilaterals, and one polygon
      block per other face; every block is closed. */
  lemma BatchBlocks(vs: seq<Entry>, ns: seq<Entry>, key: MatKey, b: Batch)
    requires BatchWithin(b, |vs|, |ns|)
    ensures var evs := BatchEvents(vs, ns, key, b);
      && Count(evs, Begin(Triangles)) == (if b.triangles == [] then 0 else 1)
      && Count(evs, Begin(Quads)) == (if b.quads == [] then 0 else 1)
      && Count(evs, Begin(Polygon)) == |b.polygons|
      && Count(evs, End) == Count(evs, Begin(Triangles)) + Count(evs, Begin(Quads)) + Count(evs, Begin(Polygon))
  {
    var act := if key.Some? then Activate(key.value) else [];
    var tri := Block(Triangles, vs, ns, b.triangles);
    var quad := Block(Quads, vs, ns, b.quads);
    var poly := PolygonBlocks(vs, ns, b.polygons);
    forall e: Event | e.Begin? || e.End? ensures Count(act, e) == 0 {
      CountAbsent(act, e);
    }
    BlockCounts(Triangles, vs, ns, b.triangles, Quads);
    BlockCounts(Triangles, vs, ns, b.triangles, Polygon);
    BlockCounts(Quads, vs, ns, b.quads, Triangles);
    BlockCounts(Quads, vs, ns, b.quads, Polygon);
    PolygonBlockCounts(vs, ns, b.polygons);
    forall e: Event | e.Begin? || e.End?
      ensures Count(act + tri + quad + poly, e) == Count(act, e) + Count(tri, e) + Count(quad, e) + Count(poly, e)
    {
      CountConcat(act + tri + quad, poly, e);
      CountConcat(act + tri, quad, e);
      CountConcat(act, tri, e);
    }
  }

  /** A material entry starts by activating its material, and an entry
      without material sets no material at all. */
  lemma BatchActivation(vs: seq<Entry>, ns: seq<Entry>, key: MatKey, b: Batch)
    requires BatchWithin(b, |vs|, |ns|)
    ensures key.Some? ==> BatchEvents(vs, ns, key, b)[..2] == Activate(key.value)
    ensures key.None? ==> forall e :: e in BatchEvents(vs, ns, key, b) ==> !e.SetMaterial?
  {
    FaceEventsArePoints(vs, ns, b.triangles);
    FaceEventsArePoints(vs, ns, b.quads);
    PolygonBlocksNoMaterial(vs, ns, b.polygons);
  }

  lemma {:induction false} PolygonBlocksNoMaterial(vs: seq<Entry>, ns: seq<Entry>, faces: seq<Face>)
    requires FacesWithin(faces, |vs|, |ns|)
    ensures forall e :: e in PolygonBlocks(vs, ns, faces) ==> !e.SetMaterial?
  {
    if faces != [] {
      PolygonBlocksNoMaterial(vs, ns, faces[..|faces| - 1]);
      PointEventsArePoints(vs, ns, faces[|faces| - 1]);
    }
  }

  /** Rendering never sets a specular or emission colour: only ambient and
      diffuse are ever applied. */
  lemma {:induction false} OnlyAmbientAndDiffuse(vs: seq<Entry>, ns: seq<Entry>, polys: map<MatKey, Batch>, order: seq<MatKey>)
    requires Renderable(vs, ns, polys, order)
    ensures forall e :: e in Trace(vs, ns, polys, order) && e.SetMaterial? ==> e.param == Ambient || e.param == Diffuse
  {
    if order != [] {
      var key := order[|order| - 1];
      OnlyAmbientAndDiffuse(vs, ns, polys, order[..|order| - 1]);
      FaceEventsArePoints(vs, ns, polys[key].triangles);
      FaceEventsArePoints(vs, ns, polys[key].quads);
      PolygonBlocksNoMaterial(vs, ns, polys[key].polygons);
    }
  }
}
