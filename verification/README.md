# mg-cad core in Dafny

This project models the geometric and combinatorial core of mg-cad, an
interactive editor for curves and surfaces. The editor shows a scene of
points, tori, B-spline and interpolating curves, C0 Bézier and C2 B-spline
surfaces, Gregory patches and trimmable domains. The model keeps the parts
of that editor that decide *what* gets built and leaves out how it is drawn:

- the settings clamps of the GUI helpers and the small matrix and vector algebra;
- the Bernstein and B-spline basis arithmetic and the de Boor / Bézier conversions;
- the vertex and index buffers that the torus, the curves and the surfaces generate,
  as exact sequences with their sizes and index ranges;
- the patch-net combinatorics of the surface templates: the wrap-around of cylinder
  nets, the point grids, and the shared-edge and gap search of the gap-filling
  controller;
- the Bresenham raster with which the trimming domain draws a curve;
- the state machines of the application, the tools, the gizmo, the selection group,
  the point families and permissions, and the serializer's object lists.

Floating-point values are exact `real`s. Graphics buffers are sequences, and
objects referenced through weak pointers become ids with a liveness flag.
Each operation is a pure function or a short method over immutable
datatypes. Its contract is stated against an independent definition: an
inverse, a reference enumeration, or a predicate that the operation keeps.

The source is C++. The model follows the implementation files. Where a
header of the modelled code declares a member differently or declares one
the implementation never defines, "## Left out" says so; the polygon
setter whose header and body disagree is under "## Findings".

## Model

| member | source | states |
|---|---|---|
| Gui.Clamp | include/gui.hpp:14-20 | the result is the value when it lies in [min, max], min when below, max when above, and always one of the three |
| Gui.ClampReal | include/gui.hpp:14-20 | the same clamp on real-valued settings |
| Gui.ClampIdempotent | include/gui.hpp:14-20 | clamping an already clamped setting again leaves it unchanged |
| Gui.ClampRealIdempotent | include/gui.hpp:14-20 | the same idempotence for real-valued settings |
| Algebra.Fill | include/algebra.hpp:39-50 | the buffer copies the list's leading entries while both last, and every entry past the list is zero |
| Algebra.VectorFromList | include/algebra.hpp:39-50 | component i of the vector is list element i when the list has it, zero otherwise |
| Algebra.MatrixFromList | include/algebra.hpp:110-121 | entry i of the matrix is list element i when the list has it, zero otherwise |
| Algebra.TransposeInvolution | include/algebra.hpp:163-170 | transposing twice gives the original matrix |
| Algebra.Transpose | include/algebra.hpp:163-170 | entry (i, j) of the transpose is entry (j, i) of the matrix |
| Algebra.DotSymmetricIgnoresW | include/algebra.hpp:84-86 | the dot product is symmetric and ignores the fourth component of either vector |
| Algebra.Dot | include/algebra.hpp:84-86 | the dot product is the sum of the products of the first three components |
| Algebra.Cross | include/algebra.hpp:88-94 | the cross product is orthogonal to both inputs and keeps the first input's fourth component |
| Algebra.CrossProperties | include/algebra.hpp:88-94 | the cross product is anti-commutative and zero on a vector with itself |
| Algebra.AddSubInverse | include/algebra.hpp:173-179 | subtraction undoes addition and the other way round, and both keep the left operand's fourth component |
| Algebra.ScaleVectorProperties | include/algebra.hpp:181-183 | scaling multiplies the first three components, keeps the fourth, scales the dot product, and scaling by one is the identity |
| Algebra.ScaleMatrixProperties | include/algebra.hpp:185-192 | scaling multiplies all sixteen entries, commutes with transposition and scales every matrix-vector product |
| Algebra.MatVec | include/algebra.hpp:194-201 | each component of the matrix-vector product equals the reference row sum of row times vector |
| Algebra.MatMul | include/algebra.hpp:203-223 | each of the sixteen written-out entries equals the reference sum of row i of a times column j of b |
| Algebra.ProductEntries | include/algebra.hpp:203-223 | entry 4i + j of the sixteen written-out entries is the reference sum of row i of a times column j of b |
| Algebra.IdentityNeutral | include/algebra.hpp:203-223 | the identity matrix is neutral on both sides of the product and for the matrix-vector product |
| Algebra.TransposeOfProduct | include/algebra.hpp:203-223 | the transpose of a product is the product of the transposes in reverse order |
| Basis.BasisChangesInverse | include/bspline.hpp:5-17 | the B-spline-to-Bézier and Bézier-to-B-spline matrices are inverse to each other, composed either way |
| Basis.BasisRoundTrip | include/bspline.hpp:5-17 | converting de Boor weights to Bézier weights and back, or the other way round, gives the original weights |
| Basis.BSplineToBezierFormula | include/bspline.hpp:5-10 | the Bézier points of a uniform cubic B-spline segment are (p0+4p1+p2)/6, (2p1+p2)/3, (p1+2p2)/3 and (p1+4p2+p3)/6 |
| Basis.BasisChangesAffine | include/bspline.hpp:5-17 | every output weight of both matrices sums to one, so moving all four inputs by t moves every output by t |
| Basis.PowerToBernsteinFormula | src/interpolate.cpp:150-160 | the Bernstein coefficients of a + bt + ct^2 + dt^3 start at the value at t = 0 and end at the value at t = 1 |
| Interpolation.Bernstein | src/interpolate.cpp:149-167 | whatever the solver returns, segment i's Bézier form starts at point i and ends at point i+1 |
| Interpolation.PolygonCorner | src/interpolate.cpp:189-212 | polygon vertex j of a segment repeats Bézier point (j+1)/2, giving the line pairs (b0,b1), (b1,b2), (b2,b3) |
| Interpolation.BezierBuffer | src/interpolate.cpp:169-187 | the buffer holds 12 reals per segment and entry 12i+3m+k is coordinate k of Bézier point m of segment i |
| Interpolation.PolygonBuffer | src/interpolate.cpp:170-212 | the buffer holds 18 reals per segment and entry 18i+3j+k is coordinate k of the Bézier point polygon vertex j repeats |
| Interpolation.Rebuild | src/interpolate.cpp:54-216 | fewer than four points or any expired point leaves both buffers empty and the curve not ready; otherwise the curve is ready with 12(N-1) and 18(N-1) entries, each segment runs from its point to the next, and the polygon repeats the segment's Bézier points |
| Interpolation.BuffersLayout | src/interpolate.cpp:169-212 | in the buffers built from live points each segment starts at its point and ends at the next, and every polygon vertex equals the Bézier point it repeats |
| Interpolation.SegmentsJoin | src/interpolate.cpp:169-187 | consecutive segments meet: the last Bézier point of segment i is the first of segment i+1 |
| BSplineCurve.Live | src/bspline.cpp:51-56 | the live references are a subsequence-sized selection holding only live stored references |
| BSplineCurve.BezierPoints | src/bspline.cpp:63-90 | point 4k+j of the list is Bézier point j of window k, obtained by the B-spline-to-Bézier matrix |
| BSplineCurve.SlideLength | src/bspline.cpp:51-61 | a sequence of n >= 4 elements has n-3 runs of four, run k being elements k..k+3 |
| BSplineCurve.WindowsSlide | src/bspline.cpp:51-61 | the corrected window loop emits exactly the runs of four consecutive live points |
| BSplineCurve.Rebuild | src/bspline.cpp:40-97 | as intended, where the code as written emits a full window again after an expired reference: fewer than four stored references give no segments; otherwise segment k is live points k..k+3, there are max(0, live-3) segments, and each has its four Bézier points |
| BSplineCurve.ExpiredPointDuplicatesSegment | src/bspline.cpp:51-61 | with four live points then an expired one, the loop as written emits the same window twice while the corrected loop emits it once |
| BSplineCurve.WindowsAsWritten | src/bspline.cpp:51-61 | the window loop as written emits only windows of four references |
| BSplineCurve.RebuildWindowsAsWritten | src/bspline.cpp:40-61 | as written, every emitted window holds four references, and when every stored reference is live the windows are exactly those of the corrected loop |
| BSplineCurve.AsWrittenAgreesWhenLive | src/bspline.cpp:51-61 | over live references only, the loop as written and the corrected loop emit the same windows |
| Polyline.RebuildBuffers | src/curve.cpp:157-207 | with no points only the ready flag is cleared; otherwise the positions are the points' coordinates in order, index pair i joins point i to i+1, the index end is the index count and the curve is ready |
| Polyline.BuiltIsPath | src/curve.cpp:180-186 | consecutive index pairs share a point and no index refers past the last point |
| Polyline.AppendPosition | src/curve.cpp:56-59 | the point is added at the end and the buffers describe the new points |
| Polyline.PrependPosition | src/curve.cpp:61-64 | the point is added at the front and the buffers describe the new points |
| Polyline.AppendPositions | src/curve.cpp:66-69 | the positions are added at the end in order and the buffers describe the new points when there are any |
| Polyline.PrependPositions | src/curve.cpp:71-74 | the positions are added at the front in order and the buffers describe the new points when there are any |
| Polyline.EraseHead | src/curve.cpp:76-83 | an empty curve is left unchanged; otherwise exactly the first point is removed, and removing the only point leaves the curve not ready |
| Polyline.EraseTail | src/curve.cpp:85-92 | an empty curve is left unchanged; otherwise exactly the last point is removed, and removing the only point leaves the curve not ready |
| Polyline.ClampIndexEndAsWritten | src/curve.cpp:103-113 | the signed-unsigned comparison sends every negative entry to the full index count |
| Polyline.ClampIndexEnd | src/curve.cpp:103-113 | as intended, where the code as written sends a negative entry to the full count: the index end is clamped into [0, count], kept when in range, 0 when negative, the count when too large |
| Polyline.NegativeIndexEndDrawsEverything | src/curve.cpp:107-111 | entering -1 with four indices draws all four as written and none as intended |
| Polyline.Configure | src/curve.cpp:94-119 | as intended: the line width ends in [1, 25]; an unedited index end is kept and an edited one is clamped into range, a negative entry giving 0 where the code as written gives the full count; nothing else changes |
| Torus.QuadTriangles | src/torus.cpp:143-159 | each quad contributes six indices |
| Torus.QuadInRange | src/torus.cpp:143-151 | the four corners of every quad are vertices of the (div_u+1) x (div_v+1) grid, the property the source asserts |
| Torus.Triangles | src/torus.cpp:140-161 | six indices per quad in order, each quad's being its two triangles, and every index names a grid vertex |
| Torus.Topology | src/torus.cpp:140-161 | the index buffer has 6 div_u div_v entries, all naming grid vertices |
| Torus.TopologyQuad | src/torus.cpp:140-161 | quad (vi, ui) occupies the six slots from 6(vi div_u + ui) and holds triangles (v0,v1,v2) and (v1,v3,v2) |
| Torus.Uvs | src/torus.cpp:125-132 | each vertex gets texture coordinates (ui mod 2, vi mod 2), all 0 or 1 |
| Torus.VertexGridLayout | src/torus.cpp:112-134 | vertex (ui, vi) sits at vi(div_u+1) + ui of the (div_u+1)(div_v+1) vertices |
| Torus.Generate | src/torus.cpp:83-165 | the geometry has (div_u+1)(div_v+1) vertices and 6 div_u div_v indices, every index naming a vertex |
| Torus.Create | src/torus.cpp:7-21 | a new torus keeps the given radii and has fifteen divisions each way |
| Torus.Configure | src/torus.cpp:53-81 | without an edit nothing changes; after one the outer radius lies in [0.2, 30], both divisions in [4, 100] (kept when already there), and the inner radius in [0.1, outer-0.5] whenever that range is non-empty |
| Torus.SmallOuterRadiusGivesNegativeInner | src/torus.cpp:74-75 | when the clamped outer radius is below 0.6 the inner clamp's upper bound wins and the inner radius can become negative |
| Gizmo.Create | src/gizmo.cpp:13-19 | a new gizmo is in translation mode |
| Gizmo.SetModeAsWritten | src/gizmo.cpp:9-11 | the setter as written leaves the mode unchanged |
| Gizmo.SetMode | src/gizmo.cpp:9-11 | the intended setter stores the requested mode and is a no-op when it is already set |
| Gizmo.SetModeIsIgnored | src/gizmo.cpp:9-11 | asking a new gizmo for rotation mode leaves it in translation mode as written, and switches it as intended |
| Gizmo.GetAction | src/gizmo.cpp:43-77 | only a translation gizmo reacts; it picks x when the x arrow is hit, y when only y and z could be, z when only z is, and nothing otherwise |
| Gizmo.Cap | src/gizmo.cpp:177-181 | a cap of n triangles has 3n indices, triangle i at 3i |
| Gizmo.Band | src/gizmo.cpp:183-201 | a band of n quads has 6n indices, quad i at 6i |
| Gizmo.CapVertices | src/gizmo.cpp:177-181 | every cap index is the cap's apex or a vertex of its ring |
| Gizmo.BandVertices | src/gizmo.cpp:183-201 | every band index lies on one of the band's two rings |
| Gizmo.ArrowIndices | src/gizmo.cpp:170-207 | the arrow has 18 res indices, each naming one of its 3 res + 2 vertices |
| Gizmo.ArrowCaps | src/gizmo.cpp:177-207 | every tip triangle ends at the tip vertex and every bottom triangle has the bottom vertex in its middle |
| Gizmo.ArrowMeshSize | src/gizmo.cpp:124-132 | the arrow built with res = 20 has 62 vertices, 186 coordinates and 360 indices |
| Tools.Create | src/tool.cpp:70-82 | a concrete tool over a selection remembers its transform and is live; without a selection it is disposable at once; a bare base tool is neither; no tool starts applied or axis-locked |
| Tools.AxisOf | src/tool.cpp:96-110 | a key locks an axis exactly when it is X, Y or Z |
| Tools.OnKeyEvent | src/tool.cpp:29-35 | the base tool never consumes a key and disposes itself on release of Escape; a concrete tool consumes keys exactly when it has a selection, and then releasing X, Y or Z restores the remembered transform and locks that axis while releasing Escape disposes it |
| Tools.OnMouseButton | src/tool.cpp:120-129 | concrete tools consume every button event and the base tool none; a left press with a selection applies the edit and finishes the tool, and nothing else sets either flag |
| Tools.OnUpdate | src/tool.cpp:131-172 | an update is consumed exactly by a concrete tool with a selection, which then moves the selection; a concrete tool without one disposes itself |
| Tools.Destroy | src/tool.cpp:84-88 | the remembered transform is put back exactly when there is a selection and the edit was never applied |
| Tools.EventsAreMonotone | src/tool.cpp:90-172 | no event handler clears the disposable or applied flags or changes what the tool edits, and each keeps a consistent tool consistent |
| Tools.CreateConsistent | src/tool.cpp:70-82 | every created tool is consistent |
| Tools.CancelReverts | src/tool.cpp:84-118 | cancelling a fresh tool and destroying it restores the transform the selection had when the tool was created |
| Tools.ClickApplies | src/tool.cpp:84-129 | clicking with a tool over a selection keeps the dragged transform through destruction |
| Point.NewFamily | src/point.cpp:12-21 | a new family is live and grants exactly the permissions it was constructed with |
| Point.SetDestroyAllowed | src/point.cpp:23-25 | the setter stores the deletion permission and leaves the merge permission alone |
| Point.SetMergeAllowed | src/point.cpp:27-29 | the setter stores the merge permission and leaves the deletion permission alone |
| Point.PermissionsPersist | src/point.cpp:4-29 | each permission reads back as constructed until its own setter overwrites it |
| Point.NewPoint | src/point.cpp:69-78 | a new point has no families, is mergeable and unselected, holds the default colours and keeps its billboard's initial white tint |
| Point.AddParent | src/point.cpp:137-147 | the family is appended; each flag is cleared exactly when the family forbids it and is never raised; colours and selection are untouched |
| Point.CheckDeletableAsWritten | src/point.cpp:188-201 | as written, both flags always end true |
| Point.OrAll | src/point.cpp:191-197 | ORing live families into a flag that starts true leaves it true |
| Point.ProtectedPointBecomesDeletable | src/point.cpp:149-161 | a point kept by a live family that forbids deletion is declared deletable as written after another family detaches, breaking the permission discipline the corrected recomputation keeps |
| Point.CheckDeletable | src/point.cpp:188-201 | as intended, each flag is true exactly when no live family forbids it; nothing else changes |
| Point.AndAll | src/point.cpp:191-197 | the walk over families yields exactly "every live family allows it" for both permissions |
| Point.Detach | src/point.cpp:149-158 | the remaining families are exactly the live ones with another id |
| Point.DetachConcat | src/point.cpp:149-158 | detaching keeps the surviving families in their order: it distributes over concatenation |
| Point.ClearParent | src/point.cpp:149-161 | as intended, where the code as written ORs the permissions so both flags stay true: the family and all expired ones are dropped, the rest kept in order, and the flags recomputed so that the point satisfies the permission discipline |
| Point.ClearParentAsWritten | src/point.cpp:149-161 | as written, the family and all expired ones are dropped and both flags end true whatever the remaining families allow |
| Point.AddParentGuarded | src/point.cpp:137-147 | attaching a family keeps the permission discipline |
| Point.LiveIds | src/point.cpp:166-173 | the ids listed are exactly those of the live families |
| Point.Merge | src/point.cpp:163-178 | every live family is told in order, all families are forgotten, and the point ends deletable and mergeable |
| Point.SetColor | src/point.cpp:53-59 | the colour is stored and the tint follows it only when the point is unselected |
| Point.SetSelectColor | src/point.cpp:61-67 | the selection colour is stored and the tint follows it only when the point is selected |
| Point.OnSelection | src/point.cpp:180-186 | after a selection change the tint is the colour matching the new selection state |
| Point.ColorsKeepTint | src/point.cpp:53-67 | the colour setters keep a billboard that shows the right colour showing the right colour |
| Group.SweepAsWritten | src/group.cpp:91-99 | as written, the erase loop never lengthens the list |
| Group.SweepSkipsFollower | src/group.cpp:27-38 | as written, the element after each erased one is never examined: of two doomed members one survives, and an object listed twice survives one removal, where the corrected sweep erases both |
| Group.Sweep | src/group.cpp:91-99 | as intended, a value survives exactly when it was present and not doomed |
| Group.SweepConcat | src/group.cpp:91-99 | the sweep works element by element, so survivors keep their order |
| Group.SweepCounts | src/group.cpp:91-99 | each surviving value keeps its multiplicity and each doomed value disappears |
| Group.SweepAsWrittenAgrees | src/group.cpp:91-99 | when no doomed member directly follows another, the loop as written erases exactly what was intended |
| Group.Deselect | src/group.cpp:49-51 | the given objects end unselected with their destroy flags kept, and no other object's flags change |
| Group.Add | src/group.cpp:10-21 | the object is appended at the end and no flags change |
| Group.Remove | src/group.cpp:23-44 | as intended, where the erase loop as written skips the element after each erase: the object leaves the group and is deselected, every other member keeps its multiplicity and flags, and a non-member leaves the group unchanged |
| Group.Clear | src/group.cpp:46-57 | the group becomes empty and every former member is deselected; other objects' flags are kept |
| Group.DestroyAll | src/group.cpp:59-63 | every member is marked for destruction and stays in the group with its selection kept |
| Group.Pop | src/group.cpp:77-84 | the last member is returned without removing it, and nothing for an empty group |
| Group.Size | src/group.cpp:69-71 | the count is cast to 32 bits and equals the member count when that fits |
| Group.AddThenPop | src/group.cpp:10-84 | adding an object then popping returns it, and the size grows by one when it fits |
| Group.Update | src/group.cpp:86-102 | as intended, where the erase loop as written skips the element after each erase: members that were deselected or marked for destruction leave the group, the others keep their multiplicity, and no flags change |
| Group.UpdateKeepsOrder | src/group.cpp:86-102 | the update keeps the survivors in their original order |
| Group.ApplyAll | src/group.cpp:117-127 | a group of at most one member is left alone; otherwise every member gets the pushed transform and non-members keep theirs |
| Group.Iterate | src/group.cpp:187-190 | a fresh iterator stands on the first member |
| Group.Has | src/group.cpp:200-202 | the iterator stands on a member exactly when it is not at the end |
| Group.Next | src/group.cpp:192-198 | the iterator advances by one unless already at the end |
| Group.Get | src/group.cpp:204-210 | the current member is returned when the iterator stands on one, and nothing at the end |
| Group.AdvanceVisits | src/group.cpp:187-210 | k steps from the start reach member k and never run past the end, so the members are visited in order, each once |
| Application.Decimal | src/app.cpp:485 | every number has a non-empty decimal numeral |
| Application.DecimalRoundTrip | src/app.cpp:485 | reading back the numeral written for a number gives the number |
| Application.CandidateInjective | src/app.cpp:485 | different suffixes give different candidate names |
| Application.Names | src/app.cpp:490-494 | the names list holds the entries' names in order |
| Application.FirstFreeNameUnique | src/app.cpp:478-497 | the naming rule determines the chosen name: at most one name satisfies it |
| Application.CandidatesSize | src/app.cpp:483-495 | the first m candidate names are m distinct names |
| Application.DistinctBound | src/app.cpp:490-494 | a list of names holds at most as many distinct names as entries |
| Application.TakenBound | src/app.cpp:483-495 | if the first m candidates are all taken there are at least m names, so the naming loop ends |
| Application.ChooseName | src/app.cpp:478-495 | the loop chooses the requested name when it is free, and otherwise name_i for the least i whose name is free |
| Application.AddObject | src/app.cpp:478-497 | the object is appended unselected under the chosen name and every earlier entry is kept |
| Application.AddKeepsNamesUnique | src/app.cpp:478-497 | adding an object keeps all entry names distinct |
| Application.Write | src/tool.cpp:84-88 | a tool writes the part of the pose its kind edits and leaves the other part |
| Application.Store | src/tool.cpp:84-110 | storing a new value into the tool's selection makes the selection hold it and leaves every other object's pose alone |
| Application.DropTool | src/app.cpp:189-193 | releasing the tool leaves no active tool and keeps the scene list and selected object |
| Application.ResetSelection | src/app.cpp:500-507 | the tool and the selected object are cleared and every entry is deselected, keeping objects and names |
| Application.OfferKey | src/app.cpp:67-72 | with no tool the key is not consumed and nothing changes; the scene list and selected object never change |
| Application.ClickIsExclusive | src/app.cpp:392-416 | a click on entry k toggles it, deselects every other entry, selects k's object or nothing if k was deselected, and keeps names and objects |
| Application.ListClick | src/app.cpp:392-416 | the clicked entry is toggled, every selected entry holds the clicked object, the selected object is the clicked one or nothing, and the tool, names and objects are kept |
| Application.OperationsKeepExclusive | src/app.cpp:478-507 | adding an object and resetting the selection keep the discipline that only entries of the selected object are marked |
| Application.ConsumedKeyStaysWithTool | src/app.cpp:67-72 | a key the active tool consumes goes no further: the result is the tool's and the scene list and selected object stay |
| Application.KeyDispatch | src/app.cpp:74-91 | with no tool, releasing T or R starts a translation or rotation tool over the selection, releasing Escape resets the selection, and any other key or action changes nothing |
| Application.Install | src/app.cpp:74-82 | the new tool has the requested kind, works on the selection, starts unapplied, is disposable exactly when nothing is selected, and remembers the part of the selected object's pose that its kind edits; the scene list and selected object stay |
| Application.KeyEvent | src/app.cpp:67-91 | the scene list keeps its objects and names and the selected object is kept or cleared; an unconsumed release of T starts a translation tool over the selection, and an unconsumed release of Escape leaves no tool and nothing selected |
| Application.FrameDropsFinishedTool | src/app.cpp:187-201 | a frame releases a finished tool first, and a frame without a tool hands the mouse to the camera |
| Application.Integrate | src/app.cpp:187-201 | a frame keeps the scene list and the selected object, and an active tool that survives the frame is not finished and keeps its kind |
| Application.CancelledEditRestores | src/app.cpp:67-201 | starting a translation, dragging, cancelling with Escape and letting a frame pass puts the object back where it was |
| Application.ClickedEditSticks | src/app.cpp:187-288 | starting a translation, dragging and clicking keeps the dragged position once the tool is released |
| Surface.Adopt | src/surface.cpp:99-103 | the surface keeps the given points in order and marks each one not deletable |
| Surface.Create | src/surface.cpp:65-104 | a new surface has resolution 25 x 25, draws solid and wireframe but no polygon, has no index buffer and has an update queued |
| Surface.CreateWithTopology | src/surface.cpp:106-151 | a surface built from a loaded topology keeps that index buffer as given and shows its polygon |
| Surface.NumPatches | src/surface.cpp:29-31 | the patch count is the product of the counts whenever that fits in 32 bits, and always below 2^32 |
| Surface.NumPoints | src/surface.cpp:25-27 | the point count is the number of points whenever it fits in 32 bits |
| Surface.SerializePoints | src/surface.cpp:254-263 | the serialised points are the ids of the points, one per point and in order |
| Surface.SerializePatches | src/surface.cpp:265-281 | the serialised patches cut the index buffer into 16-entry blocks and give, for each entry, the id of the point it names |
| Surface.GetPatch | src/surface.cpp:283-300 | entry i of patch (x, y)'s index block lands in column i % 4, row i / 4 of the 4 x 4 patch |
| Surface.PatchMatchesSerialization | src/surface.cpp:265-300 | looking patch (x, y) up and serialising the patches agree on every point id |
| Surface.OnPointMerge | src/surface.cpp:455-469 | every slot holding the merged point now holds the merge target, other slots and the index buffer are kept, and an update is queued |
| Surface.MergeReplacesAll | src/surface.cpp:455-460 | after a merge into another point no slot holds the merged-away point, so repeating the merge changes nothing |
| Surface.OnPointDestroy | src/surface.cpp:451-453 | deleting a point of a surface always fails |
| Surface.Configure | src/surface.cpp:161-185 | after the settings panel both resolutions lie in [4, 64], an edited value in range is kept, and the points are untouched |
| Surface.OnMoved | src/surface.cpp:438-440 | a moved point queues an update |
| Surface.FirstGap | src/surface.cpp:386-397 | the first empty slot: every slot before it holds a point |
| Surface.CalcPosBuffer | src/surface.cpp:384-400 | the copy succeeds exactly when no slot is empty; every point before the first gap has its coordinates at 3i..3i+2 and later slots keep their old contents |
| Surface.Integrate | src/surface.cpp:330-417 | a queued update without buffers rebuilds them and is ready exactly when no slot is empty, taking the built index buffer only when none is held; with buffers it refreshes positions and a gap makes it not ready; without a queued update nothing changes |
| BezierSurface.NewPatch | src/beziersurf.cpp:24-35 | a new C0 surface keeps its patch counts and its points in the order given |
| BezierSurface.SetShowingPolygonAsWritten | src/beziersurf.cpp:12-14 | the setter as written stores true whatever it is given, and changes nothing else |
| BezierSurface.PolygonCannotBeHidden | src/beziersurf.cpp:8-14 | asking the as-written setter to hide the polygon leaves it shown, while the intended setter hides it |
| BezierSurface.SetShowingPolygon | include/beziersurf.hpp:43-44 | the intended setter makes the getter return its argument and changes no other field |
| BezierSurface.AccessorsReadBack | src/beziersurf.cpp:4-22 | the getters return the constructed patch counts and points and the last value set |
| BezierSurface.GridIsCentred | src/beziersurf.cpp:77-95 | the template's points lie at height 0, mirror-image points average to the centre's x and z, and neighbours are 0.75 apart |
| BezierSurface.Pos | src/beziersurf.cpp:86-88 | point (x, y)'s slot y * points_x + x lies inside the grid |
| BezierSurface.PosInjective | src/beziersurf.cpp:86-88 | distinct grid points have distinct slots |
| BezierSurface.PosCovers | src/beziersurf.cpp:75-88 | every slot of the resized grid belongs to some grid point |
| BezierSurface.PutStep | src/beziersurf.cpp:87-97 | one inner iteration creates point (x, y) in its own slot and touches no other slot |
| BezierSurface.FillColumn | src/beziersurf.cpp:87-98 | the inner loop creates every point of column x, each written once |
| BezierSurface.FillGrid | src/beziersurf.cpp:64-100 | the template grid has (3 * patches_x + 1) x (3 * patches_y + 1) slots, each written exactly once with the fresh point of its own column and row at its grid position |
| Serializer.AddObject | src/serializer.cpp:57-71 | a point is appended to the points list and anything else to the geometry list, the other list is kept, the cache maps the object to its id and keeps other entries, and adding reports success |
| Serializer.Reset | src/serializer.cpp:73-77 | a reset empties both lists and the cache |
| Serializer.SerializeBase | src/serializer.cpp:90-110 | the common part holds the id, type "undefined" and name, and holds the position, rotation and scale exactly when the object supports that transform |
| Serializer.SerializeEmpty | src/serializer.cpp:80-88 | an unsaved object is written as exactly its id, type "unknown" and name |
| Serializer.SerializeCube | src/serializer.cpp:117-123 | a cube is typed "ext.eter.cube" |
| Serializer.SerializeTorus | src/serializer.cpp:125-144 | a torus adds its samples and radii and is typed "torus"; an object that is not a torus gets the common part only |
| Serializer.Serialize | src/serializer.cpp:80-144 | every serializer writes the object's id and name and a type, and the type is "unknown" exactly for an object that was never given a writer |
| Serializer.CubeRetagsBase | src/serializer.cpp:117-123 | the cube entry has the common part's keys and values except the type |
| Serializer.TorusExtendsBase | src/serializer.cpp:125-144 | the torus entry adds exactly three keys to the common part and keeps its other values except the type |
| Serializer.PointEntry | src/serializer.cpp:29-35 | a point entry holds exactly its id and position |
| Serializer.PushAll | src/serializer.cpp:27-48 | pushing no element leaves the value as it was, null included; pushing some makes it an array of the old elements followed by the new ones in order |
| Serializer.GetData | src/serializer.cpp:24-55 | the document lists one entry per collected point and one per geometry object, each in insertion order; a list with no entry is written as null, not as an empty array |
| Serializer.AddedObjectIsSaved | src/serializer.cpp:24-71 | an added object appears last in its array of the next document, which is an array from then on, and the other value is unchanged |
| Serializer.ResetEmptiesDocument | src/serializer.cpp:24-77 | after a reset both values of the document are null |
| Serializer.AddAllPartitions | src/serializer.cpp:57-71 | each added object lands in exactly one of the two lists |
| BSplineSurface.Window | src/bsplinesurf.cpp:54-65 | a patch's window lists the 16 net points (row + j / 4, col + j % 4), rows outer |
| BSplineSurface.WindowAt | src/bsplinesurf.cpp:57-63 | entry 4y + x of a window is point (row + y) * width + col + x |
| BSplineSurface.Windows | src/bsplinesurf.cpp:51-67 | the windows of the patches are written one after another, 16 entries each |
| BSplineSurface.WindowInNet | src/bsplinesurf.cpp:48-63 | every index of a patch's window names a point of the (patches_x + 3) x (patches_y + 3) net |
| BSplineSurface.PatchIndicesLayout | src/bsplinesurf.cpp:45-67 | the index buffer holds 16 * patches_x * patches_y entries and patch (px, py) writes (py + y) * width + px + x at slot 16 * (py * patches_x + px) + 4y + x |
| BSplineSurface.PatchIndices | src/bsplinesurf.cpp:45-67 | the index buffer holds 16 entries per patch and every entry names a point of the net |
| BSplineSurface.NeighboursShareColumns | src/bsplinesurf.cpp:51-63 | horizontally adjacent patches share three columns of control points |
| BSplineSurface.RowSegments | src/bsplinesurf.cpp:76-82 | a row contributes the segments (i, i + 1) for every point of the row but the last |
| BSplineSurface.ColumnSegments | src/bsplinesurf.cpp:88-94 | a row contributes the segments (i, i + width) down to the next row, one per column |
| BSplineSurface.SegmentsConcat | src/bsplinesurf.cpp:73-95 | joining two lists of net segments gives a list of net segments |
| BSplineSurface.RowSegmentsValid | src/bsplinesurf.cpp:76-82 | every pair a row writes joins two horizontally neighbouring points of the net |
| BSplineSurface.ColumnSegmentsValid | src/bsplinesurf.cpp:84-94 | every pair written below a row that is not the last joins two vertically neighbouring points |
| BSplineSurface.GridFromLength | src/bsplinesurf.cpp:73-95 | from row cy on the grid loop writes 2 * ((w - 1) * (h - cy) + w * (h - 1 - cy)) entries |
| BSplineSurface.GridFromValid | src/bsplinesurf.cpp:73-95 | from row cy on the grid loop writes only segments between neighbouring net points |
| BSplineSurface.GridIndices | src/bsplinesurf.cpp:70-95 | the grid loop fills exactly the 2 * ((w - 1) * h + w * (h - 1)) entries the buffer is resized to, each pair a segment between neighbouring net points |
| BSplineSurface.NetAt | src/bsplinesurf.cpp:123-135 | slot y * points_x + x of the built net holds what column x, row y resolves to |
| BSplineSurface.NetLayout | src/bsplinesurf.cpp:106-135 | outside cylinder mode, and in the first patches_x columns, each slot holds its own fresh point; in cylinder mode with at least three patches across the last three columns reuse the points of the first three; with none across those slots stay empty |
| SurfaceTemplate.ToSigned | src/surfacetpl.cpp:56-61 | an unsigned 32-bit patch count stored in a signed int keeps its value modulo 2^32 and lies in the signed range |
| SurfaceTemplate.New | src/surfacetpl.cpp:53-69 | a new template uses the default shape and radius 2, is not added, has a rebuild pending, and keeps counts that fit in a signed int |
| SurfaceTemplate.SetPatchesX | src/surfacetpl.cpp:29-32 | the count is stored, a rebuild is requested, and nothing else changes |
| SurfaceTemplate.SetPatchesY | src/surfacetpl.cpp:34-37 | the count is stored, a rebuild is requested, and nothing else changes |
| SurfaceTemplate.SetRadius | src/surfacetpl.cpp:39-42 | the radius is stored, a rebuild is requested, and nothing else changes |
| SurfaceTemplate.SetBuildMode | src/surfacetpl.cpp:48-51 | the mode is stored, a rebuild is requested, and nothing else changes |
| SurfaceTemplate.SetRebuildNeeded | src/surfacetpl.cpp:44-46 | the flag is stored as given, lowered as well as raised, and nothing else changes |
| SurfaceTemplate.Integrate | src/surfacetpl.cpp:124-134 | a frame rebuilds the preview, with the current mode, exactly when a rebuild is pending, and always leaves none pending |
| SurfaceTemplate.IntegrateSettles | src/surfacetpl.cpp:124-129 | a second frame rebuilds nothing and changes nothing |
| SurfaceTemplate.EditsReachTheBuilder | src/surfacetpl.cpp:29-129 | after any setter the next frame rebuilds, in the mode current then, and clearing the flag by hand cancels the rebuild |
| SurfaceTemplate.ModeOf | src/surfacetpl.cpp:77-82 | combo item 1 is the cylinder, item 2 the hat, and every other item the default shape |
| SurfaceTemplate.PickShape | src/surfacetpl.cpp:76-88 | a picked item is stored and selects its shape, asking for a rebuild exactly when the shape changes |
| SurfaceTemplate.TypeValues | src/surfacetpl.cpp:90-105 | typed patch counts are stored and ask for a rebuild; the radius field exists only in cylinder mode |
| SurfaceTemplate.ClampAll | src/surfacetpl.cpp:107-114 | after the clamps patches across lie in [3, 15] for a cylinder and [1, 15] otherwise, patches down in [1, 15] and the radius in [0.5, 4]; values already in range are kept |
| SurfaceTemplate.Configure | src/surfacetpl.cpp:71-122 | a closed panel changes nothing; an open one applies the picked shape and typed values, raises the rebuild flag exactly when something was edited, keeps the settings in range and requests adding exactly when Create Surface is pressed |
| SurfaceTemplate.IdlePanelIsStable | src/surfacetpl.cpp:71-122 | an open panel left alone changes nothing on its second frame and asks for no rebuild of its own |
| SurfaceTemplate.SameShapeNoRebuild | src/surfacetpl.cpp:84-87 | picking the shape already in use asks for no rebuild |
| SurfaceTemplate.NeverAdded | src/surfacetpl.cpp:21-23 | no operation of the template changes its added flag, so it stays false |
| SurfaceTemplate.FrameClears | src/surfacetpl.cpp:124-129 | whatever came before, a frame leaves no rebuild pending |
| NormalDebugger.AddSampleStep | src/diffdebug.cpp:145-156 | writing sample k puts its base in slot 2k, its tip in 2k + 1, adds the segment joining them and touches no later slot |
| NormalDebugger.FillRow | src/diffdebug.cpp:144-157 | the inner loop writes every sample of row iu to its own two slots |
| NormalDebugger.NothingWritten | src/diffdebug.cpp:136 | the fresh array of 2 * res_u * res_v slots holds no sample and no segment |
| NormalDebugger.BuildSegments | src/diffdebug.cpp:136-158 | the array holds 2 * res_u * res_v points, sample (iu, iv) in slots 2 * (iu * res_v + iv) and the next, and one segment per sample in loop order |
| NormalDebugger.SampleSlots | src/diffdebug.cpp:143-157 | sample (iu, iv)'s two slots lie in the array, hold its base and tip, and are joined by a segment |
| NormalDebugger.SegmentsDisjoint | src/diffdebug.cpp:145-156 | different samples' segments share no endpoint |
| NormalDebugger.Rebuild | src/diffdebug.cpp:132-162 | with the surface alive the array is rebuilt; with it gone the old array is kept, and without one the rebuild fails on the null array |
| NormalDebugger.New | src/diffdebug.cpp:5-41 | a new debugger samples 25 x 25 at unit scale, queues nothing, has its signals unwired and its array built, and fails exactly when the surface is gone |
| NormalDebugger.SetRes | src/diffdebug.cpp:53-59 | the resolution setters store their values and change nothing else |
| NormalDebugger.Integrate | src/diffdebug.cpp:61-73 | a frame clamps both resolutions to [0, 64], wires the signals once, and runs and dequeues a queued rebuild at the clamped resolution; without one the array is kept |
| NormalDebugger.ClampRes | src/diffdebug.cpp:62-63 | both resolutions end in [0, 64], values in range kept, nothing else changed |
| NormalDebugger.Listen | src/diffdebug.cpp:110-122 | signals are wired once: the first time the debugger listens exactly when the surface is alive, later nothing changes |
| NormalDebugger.Configure | src/diffdebug.cpp:80-102 | a closed panel changes nothing; an open one queues a rebuild exactly when a value was edited and clamps an edited scale to [0.1, 5] |
| NormalDebugger.OnSignal | src/diffdebug.cpp:27-40 | a change, move, rotation or scaling of the surface queues a rebuild and a topology change disposes the debugger |
| NormalDebugger.OnObjectDeleted | src/diffdebug.cpp:104-108 | the debugger is disposed exactly when the deleted object is its surface, and nothing else changes |
| NormalDebugger.SignalReachesBuffer | src/diffdebug.cpp:61-162 | once built, a signalled change is rebuilt into the array at the next frame without failing |
| NormalDebugger.EditReachesBuffer | src/diffdebug.cpp:61-102 | an edited resolution reaches the array at the next frame, clamped to [0, 64] |
| Trimming.IndexInRange | src/trimmable.cpp:68 | the cell a point inside the grid is written to, y * width + x, lies in the buffer |
| Trimming.Fill | src/trimmable.cpp:79 | filling gives n cells, each holding the given value |
| Trimming.Create | src/trimmable.cpp:8-21 | a new domain has the given sides and width * height cells (taken modulo 2^32), every one visible (255) |
| Trimming.MinorBounded | src/trimmable.cpp:65-73 | while the error term stays in [0, major) the minor axis is never overshot and is reached exactly when the major one is |
| Trimming.Setup | src/trimmable.cpp:63-65 | the distances, step directions and initial error agree with the two ends, the error being half the longer distance, negative when y is longer, truncated toward zero |
| Trimming.SetupOnTrack | src/trimmable.cpp:63-67 | the loop starts on track at the start cell |
| Trimming.TrackInside | src/trimmable.cpp:67-70 | the cursor stays between the ends, hence inside the grid, and reaches the end exactly when the longer axis is exhausted |
| Trimming.AxisStep | src/trimmable.cpp:72-73 | a coordinate moves by its step sign only when its step count grows, and never past the end |
| Trimming.ErrorStays | src/trimmable.cpp:71-73 | one pass keeps the error term in [0, dx) when x is longer and in (-dy, 0] otherwise |
| Trimming.AdvanceOnTrack | src/trimmable.cpp:70-73 | a pass away from the end moves to a neighbouring cell toward the end, one step further along the longer axis, and stays on track |
| Trimming.Paint | src/trimmable.cpp:68 | the write colours the cursor's cell and no other |
| Trimming.TrailExtends | src/trimmable.cpp:67-74 | a step from the cursor's cell extends the trail of written cells |
| Trimming.TrailCompletes | src/trimmable.cpp:68-70 | writing the end cell completes the trail from start to end |
| Trimming.Pass | src/trimmable.cpp:67-74 | one pass writes the cursor's cell and either stops at the end with the line finished or advances one step along the longer axis |
| Trimming.DrawLine | src/trimmable.cpp:62-75 | the line writes start first and end last, one cell per step along the longer axis, each a neighbour of the last moving toward the end; exactly those cells take the colour and every other cell keeps its value |
| Trimming.Truncate | src/trimmable.cpp:32-35 | the float-to-integer conversion truncates toward zero |
| Trimming.FarEdgeFallsOutside | src/trimmable.cpp:32-35 | a curve point with coordinate 1.0 maps to column width, one past the last |
| Trimming.PairsAsWritten | src/trimmable.cpp:28 | the loop bound size() - 1 is computed modulo 2^64, so it is one less than the size modulo 2^64 |
| Trimming.EmptyCurveRunsPastEnd | src/trimmable.cpp:28-30 | for an empty curve the loop bound as written wraps to 2^64 - 1 instead of 0, so the first pass reads past the end of the empty vector |
| Trimming.Pairs | src/trimmable.cpp:28-30 | the intended count is one pass per pair of consecutive points, so the last pass reads the last point |
| Trimming.PairsAsWrittenAgrees | src/trimmable.cpp:28 | on every non-empty curve the bound as written is the intended count |
| Trimming.TrimCurve | src/trimmable.cpp:27-39 | as intended, where the code as written loops size() - 1 times, wrapping on an empty curve: one line is drawn per consecutive pair of points, each a Bresenham path from the first point's cell to the second's; a cell ends in the curve colour (128) exactly when some line passes through it and every other cell is kept; a point outside the grid makes the model fail, a case the source does not check |
| Gregory.OffsetOperators | src/gregory.cpp:4-18 | the offset operators: == is componentwise equality, != its negation, and + and - undo each other |
| Gregory.TruncDivExact | src/gregory.cpp:110-113 | dividing three times q by three gives q |
| Gregory.TruncDivNegate | src/gregory.cpp:110-113 | the truncating division by three commutes with negation |
| Gregory.ThirdTurn | src/gregory.cpp:104-113 | turning a direction by a quarter and then dividing by three equals dividing and then turning |
| Gregory.VStepTurnsUStep | src/gregory.cpp:93-113 | the v step is the u step turned a quarter, one way for clockwise edges and the other way otherwise |
| Gregory.StepsOf | src/gregory.cpp:93-113 | for an edge spanning three unit steps the u step is that unit step and the v step its quarter turn |
| Gregory.EdgeFrame | src/gregory.cpp:93-113 | such an edge's steps form a frame: unit steps at right angles, three u steps from start to end, three v steps staying in the net |
| Gregory.ValidDirections | src/gregory.cpp:86-113 | for each of the eight directed boundary edges the computed steps form a frame |
| Gregory.RepeatClosed | src/gregory.cpp:126-129 | n additions of a unit step move by n times that step |
| Gregory.WalkClosed | src/gregory.cpp:115-131 | the offset after u outer and v inner steps is start + u du + v dv |
| Gregory.WalkInNet | src/gregory.cpp:119-123 | within a frame every (u, v) in [0, 3]^2 reads a point of the 4 x 4 net |
| Gregory.WalkEnds | src/gregory.cpp:115-129 | the first column of the walk runs from the edge's start to its end |
| Gregory.CoordinatesOfWalk | src/gregory.cpp:115-131 | projecting the offset reached by a walk onto the steps recovers its step counts |
| Gregory.CoordinatesInRange | src/gregory.cpp:115-131 | every net point has step counts in [0, 3]^2 |
| Gregory.WalkOfCoordinates | src/gregory.cpp:115-131 | every net point is reached by walking its step counts |
| Gregory.SourceInNet | src/gregory.cpp:119-123 | for a valid edge every cell of the re-indexed surface reads a point of the net |
| Gregory.SourceEnds | src/gregory.cpp:90-123 | column v = 0 of the re-indexed surface starts at the edge's start and ends at its end |
| Gregory.TargetOfSource | src/gregory.cpp:115-131 | distinct cells of the re-indexed surface read distinct net points |
| Gregory.FrameCovers | src/gregory.cpp:115-131 | within a frame every net point is reached from some cell |
| Gregory.SourceOfTarget | src/gregory.cpp:115-131 | the re-indexing reads every net point: it is a bijection of the 4 x 4 net |
| Gregory.At | src/gregory.cpp:46-48 | at(x, y) = 4y + x lies in [0, 16) for x, y in [0, 4) |
| Gregory.AtBijective | src/gregory.cpp:46-48 | at numbers the sixteen cells one to one |
| Gregory.Directions | src/gregory.cpp:86-113 | the table search with its early exit, the quarter turn and the division by three give the u and v steps |
| Gregory.ReadIsCell | src/gregory.cpp:115-131 | reading by walking from the edge's start is reading the re-indexed cell |
| Gregory.Column | src/gregory.cpp:120-127 | the inner loop fills column u with the net points read along v and leaves the other columns |
| Gregory.Fill | src/gregory.cpp:115-131 | the outer loop fills every cell (u, v) with the net point read by walking u and v steps |
| Gregory.Reindex | src/gregory.cpp:90-131 | cell (u, v) of the quarter surface receives the net point u steps along the shared edge and v steps into the patch |
| Gregory.BezierPower | src/gregory.cpp:134-159 | the Bernstein form of a cubic equals its power-basis form |
| Gregory.PowerScaled | src/gregory.cpp:134-159 | substituting t / 2 halves the power coefficients once more each degree |
| Gregory.PowerShifted | src/gregory.cpp:134-159 | the power coefficients after substituting (1 + t) / 2 |
| Gregory.HalfLeft | src/gregory.cpp:141-153 | the first half's control values from de Casteljau at one half trace the curve on [0, 1/2] |
| Gregory.HalfRight | src/gregory.cpp:141-158 | the second half's control values trace the curve on [1/2, 1] |
| Gregory.Halve | src/gregory.cpp:136-158 | de Casteljau at one half gives four control points for each half |
| Gregory.HalveJoins | src/gregory.cpp:141-158 | the halves keep the curve's end points and meet at its point at t = 1/2 |
| Gregory.HalveSubdivides | src/gregory.cpp:135-159 | the first half at t is the row's curve at t / 2 and the second half at t is the curve at (1 + t) / 2 |
| Gregory.Row | src/gregory.cpp:136-139 | row v of a quarter surface is its four points at(0..3, v) |
| Gregory.WriteRow | src/gregory.cpp:150-158 | writing row v sets its four points and leaves the other rows |
| Gregory.Split | src/gregory.cpp:135-159 | every row of both halves holds the de Casteljau halves of the matching row |
| Gregory.AdjacentSurf | src/gregory.cpp:80-160 | the two quarter surfaces are the halves, row by row, of the adjacent patch re-indexed along the shared edge |
| GapFilling.MakeTriangle | src/gapfilling.cpp:14-30 | the three compare-and-swap steps leave the three corners in ascending order, as an arrangement of the arguments |
| GapFilling.OrderedArrangementUnique | src/gapfilling.cpp:14-30 | an ascending arrangement of three values is unique |
| GapFilling.MakeTriangleIgnoresOrder | src/gapfilling.cpp:14-30 | the constructor gives the same triangle for all six orders of its arguments |
| GapFilling.LessIsStrictTotalOrder | src/gapfilling.cpp:33-35 | the triangle comparison is irreflexive, asymmetric, transitive and total, so the set's equivalence is equality |
| GapFilling.Insert | src/gapfilling.cpp:120 | inserting into the ordered set gives the old elements and the new one |
| GapFilling.InsertSorted | src/gapfilling.cpp:120 | insertion keeps the set strictly ascending, leaves it unchanged when the triangle is present and grows it by one otherwise |
| GapFilling.VertexMap | src/gapfilling.cpp:89-94 | the corner id at position k of the vertex array maps to k, and exactly the listed ids are mapped |
| GapFilling.VertexMapBijective | src/gapfilling.cpp:89-94 | the vertex map is one to one onto the array's positions and the vertex array inverts it |
| GapFilling.PatchAt | src/gapfilling.cpp:6-9 | a marked cell yields its patch id and an unmarked cell the value-initialised 0 |
| GapFilling.ListedAt | src/gapfilling.cpp:86 | a pair that is listed occurs at some position of the edge list, in one orientation or the other |
| GapFilling.Zeros | src/gapfilling.cpp:71 | the filled degree array has one zero per corner |
| GapFilling.EmptyGraph | src/gapfilling.cpp:65-71 | before any patch the graph has no edge, all degrees zero and an empty list, and keeps the invariants |
| GapFilling.SumIncrement | src/gapfilling.cpp:82-83 | raising one degree raises the degree sum by one |
| GapFilling.JoinedDegrees | src/gapfilling.cpp:82-86 | joining a new pair keeps the degree sum at twice the number of listed edges |
| GapFilling.JoinedListed | src/gapfilling.cpp:85-86 | after a join every listed pair is marked in the matrix |
| GapFilling.JoinedComplete | src/gapfilling.cpp:85-86 | after a join every marked cell is listed in one orientation |
| GapFilling.JoinedWellFormed | src/gapfilling.cpp:77-87 | joining an unjoined pair keeps all the graph's invariants |
| GapFilling.SetEdgeSpec | src/gapfilling.cpp:77-87 | set_edge leaves an existing edge alone; otherwise it raises both degrees, tags both cells with the patch and appends (u, v) to the list; other cells keep their flag and patch id |
| GapFilling.SetEdgeWellFormed | src/gapfilling.cpp:77-87 | set_edge keeps the matrix symmetric, the list and matrix in step and the degree sum at twice the edge count |
| GapFilling.SetEdgeSymmetric | src/gapfilling.cpp:85 | set_edge keeps the matrix symmetric |
| GapFilling.SetEdgeSymmetricIdempotent | src/gapfilling.cpp:78-80 | joining a pair again, in either orientation, changes nothing |
| GapFilling.SetEdgeKeeps | src/gapfilling.cpp:78-85 | set_edge keeps every earlier edge with its patch id |
| GapFilling.ExtendsStep | src/gapfilling.cpp:85 | the only new edge set_edge makes is the given side, tagged with its patch |
| GapFilling.SideOf | src/gapfilling.cpp:104-107 | the corner loop joins p00-p03, p03-p33, p33-p30 and p30-p00, each a boundary side of the patch |
| GapFilling.AddPatchWellFormed | src/gapfilling.cpp:97-108 | adding a patch's four sides keeps the graph's invariants |
| GapFilling.AddPatchSides | src/gapfilling.cpp:104-107 | after a patch is added its four sides are edges |
| GapFilling.AddPatchKeeps | src/gapfilling.cpp:104-107 | adding a patch keeps the patch id of every earlier edge |
| GapFilling.AddPatchExtends | src/gapfilling.cpp:104-107 | every edge a patch adds is one of its sides, tagged with that patch |
| GapFilling.SidesKept | src/gapfilling.cpp:97-108 | sides already joined stay joined when another patch is added |
| GapFilling.TaggedExtended | src/gapfilling.cpp:97-108 | every edge stays tagged with a patch that has it as a side |
| GapFilling.InsertPatch | src/gapfilling.cpp:98-107 | one pass of the corner loop keeps the invariants, makes the new patch's sides edges and keeps every tag a side |
| GapFilling.BuildGraph | src/gapfilling.cpp:97-108 | after the corner loop the graph is well formed, every side of every patch is an edge, and every edge is tagged with a patch having it as a side |
| GapFilling.ClosesIsGap | src/gapfilling.cpp:116-120 | a candidate passing the loop's test gives a triangle of pairwise joined corners, one of degree below four |
| GapFilling.Visit | src/gapfilling.cpp:117-120 | a candidate's triangle is added exactly when it passes the test |
| GapFilling.ScanVerticesSorted | src/gapfilling.cpp:116-122 | the inner loop keeps the set strictly ascending |
| GapFilling.ScanVerticesSound | src/gapfilling.cpp:116-122 | the inner loop adds only gaps |
| GapFilling.ScanVerticesComplete | src/gapfilling.cpp:116-122 | the inner loop adds the triangle of every candidate that passes the test |
| GapFilling.WellFormedList | src/gapfilling.cpp:86-113 | every listed edge joins two corners and is marked in the matrix |
| GapFilling.SetEdge | src/gapfilling.cpp:77-87 | afterwards the pair is joined; a pair already joined leaves the graph unchanged, otherwise both cells name the patch and the pair is appended to the edge list |
| GapFilling.ScanEdgesSorted | src/gapfilling.cpp:113-123 | the outer loop keeps the set strictly ascending |
| GapFilling.ScanEdgesSound | src/gapfilling.cpp:113-123 | the outer loop adds only gaps |
| GapFilling.ScanEdgesComplete | src/gapfilling.cpp:113-123 | the outer loop adds every triangle that closes on a listed edge |
| GapFilling.Triangles | src/gapfilling.cpp:111-123 | the triangle set is strictly ascending, hence without repetition |
| GapFilling.TrianglesSound | src/gapfilling.cpp:111-123 | every triangle found bounds a gap: three pairwise joined corners, one of degree below four |
| GapFilling.TrianglesComplete | src/gapfilling.cpp:111-123 | every such triple of corners is found |
| GapFilling.GapAsWritten | src/gapfilling.cpp:125-131 | the gap record as written reads all three patch ids from the same cell (u, v) |
| GapFilling.GapRecordRepeatsOnePatch | src/gapfilling.cpp:125-131 | for three patches closing a hole the record as written names patch 0 three times where the intended record names patches 0, 1 and 2 |
| GapFilling.GapOf | src/gapfilling.cpp:125-131 | as intended: the record's first patch is the one the code as written reads, and the record equals the as-written one exactly when it names one patch three times |
| GapFilling.Lookup | src/gapfilling.cpp:99-102 | a listed corner id maps to the vertex-array position holding it |
| GapFilling.QuadOf | src/gapfilling.cpp:99-102 | a patch's four corners translate to vertex indices that the vertex array sends back to their ids |
| GapFilling.Quads | src/gapfilling.cpp:97-102 | every patch's corners are translated, one quad per patch |
| GapFilling.Gaps | src/gapfilling.cpp:125-131 | as intended, where the code as written reads all three ids from edge (u, v): one gap record per triangle, in the set's order |
| GapFilling.GapsBoundedBy | src/gapfilling.cpp:125-131 | as intended, where the code as written reads all three ids from edge (u, v): each gap record names, for each side of its triangle, a patch having that side |
| GapFilling.Controller | src/gapfilling.cpp:37-132 | as intended, where the code as written reads one patch id three times: the constructor's graph is well formed with every patch side an edge, the triangle set holds exactly the gaps in ascending order, each gap record names, per side, a patch bounding it, and its first patch is the one the code as written records |

## Left out

- All OpenGL, shader, texture and ImGui code: buffers are modelled as sequences and widgets as clamps on the values they edit.
- Floating point: every coordinate is an exact real, so rounding and `float` truncation are not modelled.
- Algebra: the source's vectors and matrices hold 32-bit ints, whose sums and products can overflow (undefined behaviour in C++); the model's integers are unbounded.
- Trigonometry, `exp` and square roots: torus and cylinder vertex positions, gizmo rotations and the tool drag geometry depend on them; the model states the index structure and counts instead.
- The camera, scrolling, resizing, viewport and picking code of the application, and the hit tests of the tools.
- The tridiagonal solve of the interpolating curve: its solution (`curvature`) is an input, and so are the chord parameters, which the source fixes to 1.
- The Gregory patch's `m_calculate_patch` and the gap-filling controller's `create_surfaces`: both bodies are empty in the source.
- The debug printing in the Gregory adjacency search.
- Gregory.AdjacentSurf: it requires a consistent edge indexing of the three patches. Some other indexings make the source's walk leave the 4×4 net; others stay in range, such as a degenerate one with start equal to end, but those are excluded as well.
- The trimming domain's members that are declared but never defined, and its texture upload.
- The base scene object (object.cpp is not part of this model): a new point is taken to be deletable, and the `added` flag is never set by the modelled code.
- Signal and slot wiring between objects: handlers are modelled as functions that the caller applies.
- The templates' `t_add_to_scene`, which creates scene objects through the scene manager, and the B-spline template's vertex positions.
- The Bézier template's `configure` and `integrate`: both are empty. The colours of its template points are not modelled either.
- BezierSurface.NewPatch: the constructor leaves the polygon flag uninitialised, so its first value is a parameter.
- NormalDebugger: the surface id is never initialised in the source, so it is a parameter; one liveness flag stands for both weak pointers; sampling the surface is a parameter; resolutions are natural numbers.
- Serializer: the JSON text form is not modelled; documents are maps from keys to values.
- Serializer.Serialize: include/serializer.hpp declares a two-argument `serialize (id, object)` and a plain `generic_object_serializer`, while src/serializer.cpp defines a three-argument `serialize (id, object, cache)` on a class template specialised per object type. The model follows the implementation; none of its specialisations reads the cache, so the cache is not a parameter.
- BezierSurface: include/beziersurf.hpp declares `get_num_points`, `get_num_patches`, `configure`, `integrate` and `render` for the C0 surface, and src/beziersurf.cpp defines none of them, so they are not modelled.
- Trimming.TrimCurve: the source never checks that a point lies in the domain, and an outside point makes it write into the next row or past the buffer; the model instead reports such a point as a failure and discards the lines already drawn. Each line is stated as a Bresenham path (a start, an end and unit steps), not cell by cell as Trimming.DrawLine states it.
- The origin and decomposition arithmetic of the selection group.
- Torus: negative division counts are treated as 0.
- Surface.OnPointMerge: an empty point slot is treated as not matching, where the source would dereference a null pointer.
- Surface.SerializePatches: requires the point list to consist of whole 16-entry patches, as every constructor leaves it.
- GapFilling: the patch corners and the iteration order of the hash set of corner ids are inputs (the triangles themselves go into an ordered set); walking the selection to enumerate the patches is not modelled.
- The milling, intersection, camera and file-dialog parts of the repository.

## Findings

| source | as written | input that shows it | evidently intended | confidence | as-written member | corrected member |
|---|---|---|---|---|---|---|
| src/point.cpp:188-201 | both flags start true and each live family's permission is ORed in, so they always stay true | a point whose only live family forbids deletion | a flag is true only when every live family allows it | not executed | Point.CheckDeletableAsWritten, Point.ProtectedPointBecomesDeletable | Point.CheckDeletable, Point.ClearParent |
| src/gizmo.cpp:9-11 | the body is the bare expression `m_mode`, so the mode is never stored | asking a new gizmo for rotation mode | the mode is stored | not executed | Gizmo.SetModeAsWritten, Gizmo.SetModeIsIgnored | Gizmo.SetMode |
| src/beziersurf.cpp:12-14 | the setter stores `true` whatever it is given | hiding the polygon of any surface | the setter stores its argument, as the header declares | not executed | BezierSurface.SetShowingPolygonAsWritten, BezierSurface.PolygonCannotBeHidden | BezierSurface.SetShowingPolygon, BezierSurface.AccessorsReadBack |
| src/gapfilling.cpp:125-131 | all three patch ids of a gap are read from the edge (u, v) | three patches closing a triangular hole | one patch id per side of the triangle: (u, v), (v, w), (w, u) | not executed | GapFilling.GapAsWritten, GapFilling.GapRecordRepeatsOnePatch | GapFilling.Gaps, GapFilling.GapsBoundedBy, GapFilling.GapOf, GapFilling.Controller |
| src/bspline.cpp:51-61 | when a point reference has expired, the window that is already full is emitted again | four live points followed by an expired one | one segment per new live point | not executed | BSplineCurve.ExpiredPointDuplicatesSegment | BSplineCurve.Rebuild |
| src/curve.cpp:107 | `idx_end > m_indices.size()` compares as unsigned, so every negative entry becomes the full count | an index end of -1 with four indices | a negative entry is clamped to 0 | not executed | Polyline.ClampIndexEndAsWritten, Polyline.NegativeIndexEndDrawsEverything | Polyline.ClampIndexEnd, Polyline.Configure |
| src/group.cpp:27-38 | after an erase the loop's increment skips the element that moved into place | an object listed twice, removed once | every occurrence of the object is erased | not executed | Group.SweepAsWritten, Group.SweepSkipsFollower | Group.Remove |
| src/group.cpp:91-99 | after an erase the loop's increment skips the element that moved into place | two doomed members next to each other | every doomed member is erased | not executed | Group.SweepAsWritten, Group.SweepSkipsFollower | Group.Sweep, Group.Update |
| src/trimmable.cpp:28 | `curve_points.size() - 1` wraps to 2^64 - 1 on an empty curve, so the first pass reads past the end of the empty vector | an empty curve | no segment is drawn for an empty curve | not executed | Trimming.PairsAsWritten, Trimming.EmptyCurveRunsPastEnd | Trimming.Pairs, Trimming.TrimCurve |
