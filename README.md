# Asteroids: mesh loader and ship control, in Dafny

This project models two parts of the asteroids game.

**The mesh loader** (`model.py`):
- It reads a Wavefront-style mesh file. `v` and `vn` records fill the vertex and normal tables. Both tables are 1-based, with a `None` sentinel in slot 0.
- `mtllib` loads material libraries and `usemtl` selects the current material.
- `f` resolves each `v/t/n` component against the tables, using Python list indexing, so negative indices count back from the end. It then files the face under the current material in the triangle, quad or polygon bucket.
- Material libraries are parsed with `newmtl` and the `Ka`/`Kd`/`Ks`/`Ke` colour records. One-value and three-value colours are expanded. A material is saved at the next `newmtl` and at the end of input.
- Rendering is an event trace that stands in for the drawing calls. The display list is compiled once from that trace, and `draw` replays it.
- The asteroid variant scales every vertex in place by its own random factor before compiling. Faces refer to table slots, so they see the scaled vertices.

**The player ship** (`ship.py`):
- States: 0 is under control, 1 is in play, 2 is flying in and 3 is flying out.
- Thrust and turn commands are obeyed only in states 0 and 1.
- A frame under control moves the ship by its speed and wraps x and y around the screen, widened by 20 units. A frame in flight samples the flight curve and returns to state 1 when the curve ends.
- After either step, thrust adds 0.1 times the heading to the speed, and turning adds 4 degrees per unit of turn to theta.

Modules:
- `MeshTypes`: shared values such as tokens, vectors, materials, faces and batches.
- `MaterialLibrary`: the material-file parser as pure functions.
- `Geometry`: the mesh parser as pure functions.
- `RenderTrace`: the render as an event sequence.
- `ObjLoader`: the `ObjModel` class, whose methods change its fields step by step. Each method is proved to end in the state the pure functions give.
- `ShipControl`: the pure frame functions and the `Ship` class, proved against them.

The model keeps these behaviours of the code, which a reader might not expect:
- A face index of 0 is accepted and resolves to the sentinel slot.
- A negative index counts back from the end of the table.
- A face with fewer than three points goes to the polygon bucket instead of being rejected.
- An indented colour record such as `  Kd 1 0 0` aborts its material library, because the slot is looked up from the raw line (see "## Findings").

## Model

| member | source | states |
|---|---|---|
| MeshTypes.PyIndex | model.py:110-111 | a table index is accepted exactly when it lies in -len..len-1; it denotes a slot below len that is the index itself or, for a negative index, len plus the index |
| MeshTypes.NewMaterial | model.py:33-41 | a material is made exactly when all four colours are quadruples, and it holds them in the order ambient, diffuse, specular, emission; otherwise it fails with MalformedColor |
| MeshTypes.AddFace | model.py:116-122 | a face of 3 points is appended to the triangles, of 4 to the quads, of any other count to the polygons; the other buckets are unchanged, exactly one face is added, and bucketing by size is preserved |
| MaterialLibrary.ColorSlot | model.py:145-146 | Ka, Kd, Ks, Ke select slots 0, 1, 2, 3, each if and only if |
| MaterialLibrary.SlotAsWrittenUnindented | model.py:154 | for a line without leading whitespace, the slot read from the raw line's second character is the keyword's slot |
| MaterialLibrary.SlotAsWrittenIndented | model.py:154 | for a line with leading blanks, the raw second character is no slot letter and the lookup fails |
| MaterialLibrary.IndentedDiffuseRejected | model.py:154 | `  Kd 1 0 0` fails as written, where the keyword names slot 1 |
| MaterialLibrary.ReadReals | model.py:147 | the values convert exactly when every token is numeric, in order and one per token; otherwise BadNumber |
| MaterialLibrary.ExpandColor | model.py:148-152 | one value c gives [c,c,c,0], three values get alpha 0, any other count is kept; the result is a quadruple exactly for 1, 3 or 4 values |
| MaterialLibrary.Save | model.py:156-157 | saving succeeds exactly when every colour is a quadruple; the name then maps to a new material with those colours, replacing any earlier one, and no other name changes |
| MaterialLibrary.ColorSlotAsWritten | model.py:154 | the raw line's second character selects a slot exactly when it is a, d, s or e, and the slot is below 4; any other character fails with BadColorKey |
| MaterialLibrary.Step | model.py:130-154 | every line keeps the material being read at four colour slots; its cases are stated by IgnoredLine, NewmtlSavesAndStarts, BareNewmtl, ColorRecordSetsOneSlot and ColourBadNumber |
| MaterialLibrary.StepCorrected | model.py:145-154 | the intended step: a colour record is read as the same record without indentation, and the material being read keeps four slots |
| MaterialLibrary.Flush | model.py:155-157 | saves the material being read, if any; its effect is stated by Save and NewmtlSavesAndStarts |
| MaterialLibrary.Parse | model.py:124-159 | the lines read in order, then the final save; what it keeps is stated by ParseSavesEveryName |
| MaterialLibrary.RunFrom | model.py:130-154 | reading lines keeps the material being read at four colour slots |
| MaterialLibrary.FailurePersists | model.py:130-154 | once a line fails, the file fails with the same error |
| MaterialLibrary.IgnoredLine | model.py:131-145 | blank lines and records other than newmtl and the colour keywords change nothing |
| MaterialLibrary.ColorRecordSetsOneSlot | model.py:145-154 | a numeric colour record fails with BadColorKey when the raw line's second character is no slot letter, checked before the missing material; before any newmtl it fails with NoPendingMaterial; otherwise it sets exactly the looked-up slot to the expanded colour and keeps the other slots, the name and the saved materials; without indentation that slot is the keyword's |
| MaterialLibrary.CorrectedColorRecord | model.py:145-154 | the corrected step sets the slot the keyword names for any indentation, keeps the other slots, and agrees with the step as written on unindented lines |
| MaterialLibrary.IndentedDiffuseDiverges | model.py:154 | `  Kd 1 0 0` fails with BadColorKey as written and succeeds in the corrected step |
| MaterialLibrary.ColourBadNumber | model.py:147 | a colour record with a value float() rejects fails with BadNumber, before the slot is looked up |
| MaterialLibrary.BareNewmtl | model.py:135-141 | a newmtl without a name first saves the material being read, failing with MalformedColor if that fails, and otherwise fails with MissingField |
| MaterialLibrary.NewmtlSavesAndStarts | model.py:135-143 | newmtl saves the material being read, failing exactly when one of its colours is not a quadruple, and starts the named material with four zero colours |
| MaterialLibrary.RunKeepsNames | model.py:135-143 | no saved name is lost, and every newmtl name is saved or still being read |
| MaterialLibrary.ParseSavesEveryName | model.py:155-157 | after a successful parse every name of the file and every earlier name maps to a material, the last one included |
| MaterialLibrary.RedefinitionOverwrites | model.py:135-157 | a newmtl that repeats the name being read saves that material under the name with a fresh serial, replacing any earlier one, and starts the name blank; saving the new definition replaces the first in turn |
| Geometry.ReadVec | model.py:85-92 | a vector record succeeds exactly with three numeric fields and gives those coordinates; otherwise WrongArity or BadNumber |
| Geometry.ResolvePoint | model.py:109-111 | a component resolves exactly when it has three pieces whose vertex and normal pieces are integers that are valid list indices of their tables; the point is then the pair of slots those indices denote, each within its table |
| Geometry.PositiveIndices | model.py:110-111 | a positive index within the table resolves to its own slot, for vertex and normal alike |
| Geometry.ResolvePoints | model.py:103-112 | a face resolves exactly when each component does, keeps their number and order, and its k-th point is the k-th component resolved |
| Geometry.LoadLibraries | model.py:94-96 | the files of an mtllib record merged in order; a name with no file fails with MissingFile; stated by LoadKeepsNames, MtllibRecord and LoadFailurePersists |
| Geometry.Step | model.py:80-122 | one mesh line; its cases are stated by IgnoredLine, VectorRecord, MalformedVector, MtllibRecord, UseMaterialRecord, FaceRecord and BareRecords, and StepKeepsWellFormed |
| Geometry.RunFrom | model.py:80-122 | the lines read in order, the first failure aborting; stated by FailurePersists, RunKeepsWellFormed and TablesGrowByRecords |
| Geometry.Parse | model.py:58-122 | a whole mesh file from the empty tables; stated by ParsedTables and FacesBeforeUsemtl |
| Geometry.FailurePersists | model.py:80-122 | once a line fails, the file fails with the same error |
| Geometry.ResolveFailurePersists | model.py:107-112 | once a component fails, the face fails with the same error |
| Geometry.LoadFailurePersists | model.py:94-96 | once a library of an mtllib record fails, the record fails with the same error |
| Geometry.IgnoredLine | model.py:80-101 | blank lines and other keywords leave the parser state unchanged |
| Geometry.VectorRecord | model.py:85-92 | a v record appends exactly one vertex and a vn record exactly one normal, and nothing else changes |
| Geometry.TextureIgnored | model.py:109-111 | the texture piece of a component plays no part |
| Geometry.BadComponent | model.py:109-111 | a component without exactly three pieces fails with WrongArity; a vertex or normal index past the table fails with IndexOutOfRange |
| Geometry.ZeroAndNegativeIndices | model.py:110-111 | index 0 resolves to the sentinel slot and a negative index counts back from the end |
| Geometry.FaceRecord | model.py:101-122 | a face record succeeds exactly when its components resolve; the face is appended to its bucket under the current material; no other material's batch, table or material changes |
| Geometry.FaceWithBadComponentFails | model.py:107-111 | any unresolvable component makes the face record fail |
| Geometry.MalformedVector | model.py:85-92 | a v or vn record without exactly three fields fails with WrongArity, and one with a field float() rejects fails with BadNumber |
| Geometry.BareRecords | model.py:98-103 | usemtl and f without arguments fail with MissingField |
| Geometry.LoadKeepsNames | model.py:94-96 | loading the files of an mtllib record succeeds only when each is available, keeps every name known before, and makes every name each file defines known |
| Geometry.MtllibRecord | model.py:94-96 | an mtllib record succeeds exactly when its files load, fails with their error otherwise, changes only the materials, and afterwards every earlier name and every name its files define is known |
| Geometry.UseMaterialRecord | model.py:98-99 | usemtl succeeds exactly for a known name, selects that material, and otherwise fails with UnknownMaterial |
| Geometry.StepKeepsWellFormed | model.py:80-122 | every line keeps sentinel-headed tables, size-bucketed faces and in-range points |
| Geometry.RunKeepsWellFormed | model.py:64-122 | any run of lines keeps that invariant |
| Geometry.TablesGrowByRecords | model.py:85-92 | the tables grow by one entry per v or vn record, and earlier entries stay in place |
| Geometry.ParsedTables | model.py:64-92 | after parsing, the vertex table has 1 + (number of v records) entries with the sentinel in slot 0, and the same for normals |
| Geometry.NoMaterialKey | model.py:78-122 | without usemtl the current material stays None and faces are filed only under None |
| Geometry.FacesBeforeUsemtl | model.py:77-122 | a file without usemtl files all its faces under the None key |
| RenderTrace.PointEvents | model.py:191-195 | the normal then the vertex of each point, looked up at render time; stated by PointEventsAt |
| RenderTrace.FaceEvents | model.py:169-188 | the point events of each face in turn |
| RenderTrace.Block | model.py:167-189 | one begin/end block holding the faces of a bucket, absent for an empty bucket; stated by BlockCounts |
| RenderTrace.PolygonBlocks | model.py:191-196 | one block per remaining polygon; stated by PolygonBlockCounts |
| RenderTrace.BatchEvents | model.py:163-196 | one dictionary entry's activation and blocks; stated by BatchBlocks and BatchActivation |
| RenderTrace.Trace | model.py:161-196 | every entry's events in the given dictionary order; stated by OnlyAmbientAndDiffuse |
| RenderTrace.Activate | model.py:46-50 | activation sets the ambient and the diffuse colour and nothing else |
| RenderTrace.PointEventsAt | model.py:191-195 | each point emits its normal, then its vertex, in the face's order, and the values are looked up in the current tables |
| RenderTrace.TrianglePoints | model.py:169-175 | a triangle emits its three normal/vertex pairs in order |
| RenderTrace.QuadPoints | model.py:180-188 | a quad emits its four normal/vertex pairs in order |
| RenderTrace.BlockCounts | model.py:167-189 | a bucket block opens and closes once when the bucket has faces, and never otherwise |
| RenderTrace.PolygonBlockCounts | model.py:191-196 | each other polygon gets its own block, opened and closed once |
| RenderTrace.BatchBlocks | model.py:163-196 | per material entry: one triangle block if it has triangles, one quad block if it has quads, one polygon block per polygon, every block closed |
| RenderTrace.BatchActivation | model.py:164-165 | a material entry starts with its activation; the None entry sets no material |
| RenderTrace.OnlyAmbientAndDiffuse | model.py:46-50 | the whole render never sets a specular or emission colour |
| ObjLoader.Scaled | model.py:205-206 | the perturbed table keeps its length and its sentinel-headed shape |
| ObjLoader.UnitFactorsKeepTable | model.py:205-206 | factors that are all 1 leave the vertices unchanged |
| ObjLoader.FacesSeeScaledVertices | model.py:205-206 | after the perturbation every face draws the scaled vertex of each slot it uses, with the same normals |
| ObjLoader.ObjModel.constructor | model.py:63-77 | empty tables holding only the sentinel, no materials, no batches, no display list |
| ObjLoader.ObjModel.ReadMtlLine | model.py:131-154 | one material line updates the saved materials and the material being read as the library step does, the slot taken from the raw line |
| ObjLoader.ObjModel.ParseMat | model.py:124-159 | the loop leaves the materials the library parse gives, or returns its error |
| ObjLoader.ObjModel.ResolveFace | model.py:103-112 | the component loop returns the resolved face or the first error |
| ObjLoader.ObjModel.LoadLibraries | model.py:94-96 | each library of an mtllib record is parsed in order; a missing one fails with MissingFile |
| ObjLoader.ObjModel.ReadLine | model.py:81-122 | one mesh line updates the tables, materials, batches and current material as the parser step does |
| ObjLoader.ObjModel.ParseModel | model.py:58-122 | the line loop leaves the fields the parse gives, which keep the parser's invariant, or returns its error |
| ObjLoader.ObjModel.EmitTriangles | model.py:167-176 | the unrolled triangle loop emits exactly the triangle block |
| ObjLoader.ObjModel.EmitQuads | model.py:178-189 | the unrolled quad loop emits exactly the quad block |
| ObjLoader.ObjModel.EmitPolygons | model.py:191-196 | the polygon loop emits one block per polygon |
| ObjLoader.ObjModel.EmitBatch | model.py:164-196 | one material entry emits its activation and its blocks |
| ObjLoader.ObjModel.Render | model.py:161-196 | visiting each material entry once, in the dictionary's order, the render emits the trace of every entry |
| ObjLoader.ObjModel.CreateDisplayList | model.py:10-19 | handle 0 fails with NoDisplayList and compiles nothing; otherwise the render trace is compiled once under the handle and no other list changes |
| ObjLoader.ObjModel.Draw | model.py:28-29 | drawing appends the compiled list to the output and changes nothing else |
| ObjLoader.ObjModel.Load | model.py:54-56 | loading parses, then compiles the trace of the parsed mesh, or stops at the first error |
| ObjLoader.ObjModel.Perturb | model.py:205-206 | every vertex after the sentinel is scaled in place by its own factor; normals and faces are untouched |
| ObjLoader.ObjModel.LoadAsteroid | model.py:200-208 | the asteroid parses the base mesh, scales every vertex, and compiles the trace of the scaled mesh |
| ShipControl.Wrap | ship.py:113-122 | a wrapped coordinate lies within the field widened by 20 on each side; one already inside is unchanged; one past an edge reappears just beyond the other edge |
| ShipControl.Initial | ship.py:24-45 | the pose the constructor sets before the fly-in: centre of the screen, state 0, theta 30; stated with FlownIn by FreshShipFliesIn |
| ShipControl.FlownIn | ship.py:173-209 | state 2 at frame 0 of 100, behind the camera, theta 90 and phi -90; stated by FreshShipFliesIn and FlyInLands |
| ShipControl.FlownOut | ship.py:211-238 | state 3 at frame 0 of 200, the position kept |
| ShipControl.Thrusted | ship.py:134-138 | the thrust flag set only under control; stated by CommandsOnlyUnderControl |
| ShipControl.Turned | ship.py:140-144 | the turn set only under control; stated by CommandsOnlyUnderControl |
| ShipControl.NormalStep | ship.py:109-122 | move by the speed, then wrap x and y; stated by NormalStepStaysOnField and NormalStepWithoutWrap |
| ShipControl.BezierStep | ship.py:124-132 | the next curve sample and state 1 at the curve's end; stated by BezierStepAdvances and FlightLength |
| ShipControl.Tick | ship.py:92-104 | a frame keeps the state in 0..3 |
| ShipControl.Ticks | ship.py:92-97 | any number of frames keeps the state in 0..3 |
| ShipControl.FreshShipFliesIn | ship.py:39-66 | a new ship is flying in, at frame 0 of a 100-frame curve, neither thrusting nor turning |
| ShipControl.CommandsOnlyUnderControl | ship.py:134-144 | thrust and turn change nothing in states 2 and 3, and otherwise set only their own field |
| ShipControl.NormalStepStaysOnField | ship.py:109-122 | after a frame under control x and y lie within the widened field, z has moved by the speed, and the speed is unchanged |
| ShipControl.NormalStepWithoutWrap | ship.py:109-122 | a ship that stays on the field moves by exactly its speed |
| ShipControl.BezierStepAdvances | ship.py:124-132 | a flight frame adds 1 to the frame counter and 2 to the spin, takes the position, theta and phi of the curve's next sample, and enters state 1 exactly when the counter reaches the curve's length |
| ShipControl.TickDispatch | ship.py:92-97 | states 0 and 1 take the normal step, and 2 and 3 the flight step |
| ShipControl.TickThrust | ship.py:99-101 | thrust adds 0.1 times the heading for the angles after the step; without thrust the speed stays |
| ShipControl.TickTurn | ship.py:102-104 | turning adds 4 degrees per unit of turn to theta and sets the spin to theta; without turning both come from the step |
| ShipControl.OnlyFlightEndEntersPlay | ship.py:131-132 | the only way into state 1 from another state is a flight frame that reaches the curve's end |
| ShipControl.FlightLength | ship.py:124-132 | a flight started at frame t lasts until frame tmax and then enters state 1, counting one frame per update |
| ShipControl.FlyInLands | ship.py:206-209 | a fly-in is still in flight after 99 frames and in play after 100 |
| ShipControl.Ship.constructor | ship.py:24-66 | a new ship has the initial pose and is flying in |
| ShipControl.Ship.FlyIn | ship.py:173-209 | state 2 at frame 0 of a 100-frame curve, placed behind the camera with theta 90 and phi -90 |
| ShipControl.Ship.FlyOut | ship.py:211-238 | state 3 at frame 0 of a 200-frame curve, starting where the ship is |
| ShipControl.Ship.Thrust | ship.py:134-138 | sets the thrust flag only under control |
| ShipControl.Ship.Turn | ship.py:140-144 | sets the turn only under control |
| ShipControl.Ship.UpdateNormal | ship.py:109-122 | moves by the speed and wraps x and y, as the normal step does |
| ShipControl.Ship.UpdateBezier | ship.py:124-132 | advances along the curve as the flight step does |
| ShipControl.Ship.Update | ship.py:92-107 | one frame does what the frame function gives and keeps the state in 0..3 |

## Left out

- The drawing library: each call becomes an event in a trace. The display-list handle is a parameter, and the backend holds compiled lists by handle. The face argument of the material calls and what the backend does with a `None` vertex or normal are not modelled.
- File access: files arrive as lines of tokens. The libraries that `mtllib` can open are a map from name to lines, and a name absent from it fails with MissingFile.
- Text conversion: `float()` and `int()` are applied in advance through the token kinds. Material names and library paths are tokens. A token containing '/' keeps its text, so such names stay distinct. A numeral keeps only its value, so two numerals that `float()` maps to the same value name the same material here but different ones in the source.
- Floating point and array semantics: coordinates are `real`.
- Random numbers: the asteroid's factors are an input sequence, one per vertex, each in [0.7, 1.3].
- Dictionary order: the order of material entries in the render is an input that visits each key once. Only per-entry structure is stated.
- `Ship.direction`: this trigonometry is a function parameter from theta and phi to the heading.
- The flight curve: it is a function parameter from frame to sample. The control points `fly_in` and `fly_out` compute for it are not modelled, apart from the fly-in's starting pose.
- Screen constants: `WIDTH`, `HEIGHT` and the camera distance come from a module that is not part of this model, so they are a `Screen` parameter.
- Ship drawing, bullets, the base entity and the ship's own mesh: the ship keeps no mesh, bullets, `scale` or `accel` field. `ship.py:26`, `62`, `107` and `146-171` are not part of this model.
- ShipControl.Ship.Thrust: the flag is a `bool`. The source stores any value and tests only whether it is truthy.
- ObjLoader.ObjModel.ParseModel: on failure it states only the error, not the partly filled fields at the moment the exception left.
- ObjLoader.ObjModel.ParseMat: on failure it states only the error, not the materials saved before it.
- ObjLoader.ObjModel.Load: on failure it states only the error.
- ObjLoader.ObjModel.LoadAsteroid: on failure it states only the error.
- ObjLoader.ObjModel.Draw: when no list is compiled under the model's handle it replays nothing, as an unused list does in the drawing library. In the source, `draw` before `_create_displaylist` raises AttributeError, but the constructor always creates the list first or raises.
- `_Material.__repr__` and the abstract `Model.render` are not modelled.

## Findings

| source | as written | input that shows it | evidently intended | confidence | as-written member | corrected member |
|---|---|---|---|---|---|---|
| model.py:154 | the colour slot is looked up by the second character of the raw line, not of the keyword | an indented record such as `  Kd 1 0 0`: the second character is a blank, the lookup raises KeyError and the whole library aborts | the slot named by the keyword's second letter (Ka 0, Kd 1, Ks 2, Ke 3), whatever whitespace precedes it | high, not executed | MaterialLibrary.Step (with ColorSlotAsWritten and IndentedDiffuseDiverges) | MaterialLibrary.StepCorrected (with ColorSlot and CorrectedColorRecord) |
