# Sodium Scene File add-on, modelled in Dafny

This project models the core of the Blender add-on `tools/blender/sodiumSceneFile.py`,
which imports and exports Sodium Scene Files: JSON documents that hold a frame rate,
mesh and light resources keyed by data name, and a tree of scene nodes keyed by object
name. The model covers these parts of the add-on:

- **The animation codec.** `write_animation` turns a host property and its F-curves into
  JSON channels. `read_animation` turns the channels back into F-curves and a rest value.
  Files: `animation.dfy`, `animation_export.dfy`, `animation_import.dfy`,
  `animation_properties.dfy`.
- **The mesh exporter.** It flattens a host mesh into a location list without duplicates
  and a map from material name to polygons given as indices. Files: `meshes.dfy`,
  `mesh_export.dfy`, `mesh_export_properties.dfy`.
- **The mesh importer.** It rebuilds a host mesh from a mesh resource. There is also an
  export-then-import round trip over faces. Files: `mesh_import.dfy`,
  `mesh_round_trip.dfy`.
- **The light exporter.** It validates a lamp and builds a light resource. File:
  `lights.dfy`.
- **The export walk.** It covers:
  - the parent-inverse identity test with tolerance 0.001;
  - the transform channels;
  - the insertion of the scene node;
  - the light and mesh branches, memoised by data name;
  - the children;
  - the roots loop and the unit guard.

  Files: `scene_export.dfy`, `scene_export_properties.dfy`, `document_properties.dfy`.
  Shared wrappers are in `outcomes.dfy`, `problems.dfy` and `sequences.dfy`.

The code is imperative: loops that append to lists and update dictionaries. Each such
routine is a Dafny `method` with a `while` loop and invariants. The method is proved equal
to a recursive specification function, and lemmas about that function state what the
add-on promises. State is passed in and returned as values. Examples are the exporter's
`meshes`/`lights` dictionaries (a `Context`) and the collection a node is inserted into.

How values and the host are represented:

- **JSON** is a typed tree. A property is one bare channel (one axis) or a list of channels.
- **Host reads** are parameters:
  - the lamp and mesh data and their F-curves;
  - a material lookup by name (`existing`);
  - the host's default interpolation for a keyframe type it does not recognise (`hostDefault`).
- **The parent rebase**: the host computes the basis an object gets after its parent inverse
  is reset. The model takes it as the field `rebasedBasis` and does not compute it.
- **Errors**: the model records the first error that stops an export or an import, as
  `ExportError` or `ImportError`.

Where the add-on behaves in a way one might not expect, the model keeps the code's behaviour:

- An export that stops early writes no file. The operator still returns `FINISHED`.
- A scene node is put into its collection before its data is validated.
- A light's multiplier and negative flag are stored without being checked. A value that
  could not be written is stored as `false` (`None` in the model).
- A one-axis radius or spot size whose matched curve has no keyframes encodes to the empty
  list. That list is falsy, so the export stops without a message (`EmptyChannel`).
- A root whose parent inverse is not the identity dereferences a missing parent. Python
  raises an exception there; the model uses the problem `NoParent`.
- A material slot index past the last slot raises an exception in Python; the model uses
  `MaterialSlotOutOfRange`.
- The "unsupported lamp type" message names `object.type`, which is always `LAMP` on that
  path. The lamp's own type is not named.

## Model

| member | source | states |
|---|---|---|
| AnimationImport.ReadAnimation | tools/blender/sodiumSceneFile.py:42-53 | the reader loop yields exactly the decoding specification: no channels or an empty axis is the error, otherwise the created curves and the rest value |
| AnimationImport.FirstEmptyAxis | tools/blender/sodiumSceneFile.py:45-46 | none exactly when every axis has a keyframe; otherwise the first axis without one, where `axis[0]` raises |
| AnimationProperties.DecodeCharacterised | tools/blender/sodiumSceneFile.py:42-53 | on success every axis had a keyframe. The rest value is the list of first values, or a scalar for exactly one axis. An axis gets a curve exactly when it is not a single constant keyframe on frame 0. That curve has the property's path and holds the axis's keyframes in order: frames, values as floats, constant and linear mapped to the host's modes |
| AnimationProperties.DecodeBareChannel | tools/blender/sodiumSceneFile.py:43-53 | a bare channel is read as one axis whose first value becomes the scalar rest value |
| AnimationProperties.CurvesForSound | tools/blender/sodiumSceneFile.py:45-52 | every created curve belongs to an axis that is not static and is exactly the curve built from that axis's keyframes |
| AnimationProperties.CurvesForOrdered | tools/blender/sodiumSceneFile.py:45-48 | curves are created in strictly increasing axis order, so no axis gets two |
| AnimationProperties.CurvesForComplete | tools/blender/sodiumSceneFile.py:45-48 | every non-static axis gets a curve |
| AnimationProperties.ReimportedAreOriginals | tools/blender/sodiumSceneFile.py:49-52 | for a non-boolean property whose curves are representable, every curve recreated on import is the first matching host curve itself |
| AnimationExport.FindCurveIsFirst | tools/blender/sodiumSceneFile.py:151-154 | the curve used for an axis is the first with that path and index; none is used only when none matches |
| AnimationExport.WriteCurve | tools/blender/sodiumSceneFile.py:155-175 | the keyframe loop produces exactly the curve's encoding: fails on a non-constant extrapolation or the first unrepresentable interpolation |
| AnimationExport.WriteAnimation | tools/blender/sodiumSceneFile.py:143-186 | the axis loop produces exactly the encoded property: one channel per axis, returned bare for one axis |
| AnimationExport.EncodeKeysFailureSticks | tools/blender/sodiumSceneFile.py:161-172 | once a keyframe is rejected, the whole curve's encoding is that rejection |
| AnimationExport.EncodeAxesFailureSticks | tools/blender/sodiumSceneFile.py:148-158 | once an axis is rejected, every longer run of axes fails with the same problem |
| AnimationProperties.EncodeKeysCharacterised | tools/blender/sodiumSceneFile.py:160-173 | keyframes are written one for one in order, booleans as `value != 0`. The write succeeds exactly when every interpolation is constant or linear, and each keyframe's type is then that interpolation's name |
| AnimationProperties.EncodedShape | tools/blender/sodiumSceneFile.py:143-186 | on success: a bare channel exactly for one axis; an axis without a curve is one constant keyframe of the current value on frame 0; otherwise the first matching curve's keyframes |
| AnimationProperties.EncodeAxesPrefix | tools/blender/sodiumSceneFile.py:147-184 | each axis of a successful run is that axis's own channel |
| AnimationProperties.EncodeAxesRejects | tools/blender/sodiumSceneFile.py:148-178 | encoding the axes fails exactly when some axis's first matching curve is not representable |
| AnimationProperties.EncodedRejects | tools/blender/sodiumSceneFile.py:143-186 | `write_animation` returns False exactly when an axis's curve has a non-constant extrapolation or an interpolation other than constant or linear |
| AnimationProperties.CurvesForReimported | tools/blender/sodiumSceneFile.py:42-53 | reading a written property back creates one curve per axis whose curve is not a single constant keyframe on frame 0, with its points re-read |
| AnimationProperties.EncodeDecodeRoundTrip | tools/blender/sodiumSceneFile.py:143-186 | write then read: the read creates the curves of the axes whose curve is not a single constant keyframe on frame 0, with the same points (booleans as 0 or 1). Each axis's rest value is its current value when it had no curve, else its curve's first value |
| AnimationProperties.FallbackIsStaticShortcut | tools/blender/sodiumSceneFile.py:180-184 | an axis without a curve is written as a channel the reader takes as static: it creates no curve and sets the same value back |
| MeshExport.InternPositions | tools/blender/sodiumSceneFile.py:292-300 | the vertex loop leaves the locations as the distinct positions seen so far, in first-use order, and rewrites each corner as the index of its position |
| MeshExport.FlattenMesh | tools/blender/sodiumSceneFile.py:281-305 | the polygon loop yields exactly the flattened mesh, or the first polygon's material problem |
| MeshExport.MaterialNamesFailureSticks | tools/blender/sodiumSceneFile.py:283-290 | once a polygon's material is refused, the whole mesh is refused with that problem |
| MeshExportProperties.MaterialNamesPointwise | tools/blender/sodiumSceneFile.py:283-290 | the materials are accepted exactly when every polygon's is, in polygon order; otherwise the error is the first refused polygon's problem |
| MeshExportProperties.MaterialRule | tools/blender/sodiumSceneFile.py:284-290 | a polygon's material is accepted exactly when the mesh has slots, the slot exists and holds a material, and its name is occluder, walk or none. No slots means faces without materials |
| MeshExportProperties.FlattenedLocations | tools/blender/sodiumSceneFile.py:281-300 | the locations hold every position some polygon corner uses, once each, and nothing else |
| MeshExportProperties.SelectResolves | tools/blender/sodiumSceneFile.py:292-301 | every index list of a group is in range and resolves to the corner positions of the polygon it came from |
| MeshExportProperties.FlattenedGroups | tools/blender/sodiumSceneFile.py:282-305 | each material key is listed once, and the keys are exactly the materials some polygon uses. Each group holds its material's polygons in order, each index valid and naming that polygon's corner positions |
| Sequences.DistinctMembers | tools/blender/sodiumSceneFile.py:299 | appending a position only when it is absent keeps exactly the positions seen |
| Sequences.DistinctNoDuplicates | tools/blender/sodiumSceneFile.py:299 | appending only when absent never lists a position twice |
| Sequences.IndexOf | tools/blender/sodiumSceneFile.py:300 | `list.index` returns a position holding the element with no earlier occurrence |
| MeshImport.CheckPolygon | tools/blender/sodiumSceneFile.py:70-71 | the vertex loop finds the first vertex index that names no location, or none when all are in range |
| MeshImport.BuildGroup | tools/blender/sodiumSceneFile.py:68-73 | the polygon loop of one group yields exactly that group's faces, or the first bad vertex index |
| MeshImport.BuildMesh | tools/blender/sodiumSceneFile.py:60-79 | the import loop body yields exactly the rebuilt mesh: one vertex per location, one slot per key in key order, the faces of every group |
| MeshImport.GroupFacesCharacterised | tools/blender/sodiumSceneFile.py:68-73 | a group's faces are built exactly when all its indices are valid: its polygons in order, each in the group's slot. Otherwise the error names a bad index of the group |
| MeshImport.FacesCharacterised | tools/blender/sodiumSceneFile.py:66-73 | the faces of the first groups are built exactly when their indices are valid. Every face then sits in its group's slot and holds one of that group's index lists, whose indices all name locations. Otherwise the error names a bad index |
| MeshImport.FacesExact | tools/blender/sodiumSceneFile.py:66-73 | once built, the faces are exactly every group's polygons, each once, in key order and in each group's order, each in its group's slot |
| MeshImport.BuiltCharacterised | tools/blender/sodiumSceneFile.py:60-79 | in the model, whose faces are index lists, the rebuilt mesh exists exactly when every index names a location (the host's own refusals in `faces.new` are left out). It is then well formed, its vertices are the locations, one slot per key, and its faces are exactly every group's polygons in key order, each in that group's slot. Otherwise the error names a bad index |
| MeshRoundTrip.ConcatFiltersPermutes | tools/blender/sodiumSceneFile.py:66 | reading the groups in any key order that lists every material once yields the faces again, each as often as before |
| MeshRoundTrip.MeshRoundTrip | tools/blender/sodiumSceneFile.py:60-79 | in the model, importing an exported mesh, with its keys in any order, succeeds (the host's own refusals in `faces.new` are left out). It yields a well-formed mesh over the exported locations whose faces, with their materials and corner positions, are the original polygons up to order |
| Lights.DescribeLight | tools/blender/sodiumSceneFile.py:222-276 | the lamp branch yields exactly the light record of the lamp or the problem that stops it |
| Lights.LightRules | tools/blender/sodiumSceneFile.py:229-275 | a lamp is accepted exactly when its colour and radius pass; it is a point or spot lamp with a sphere, no shadow and inverse-linear falloff; and a spot lamp also has a round cone, spot blend 1 and a passing spot size. The record then holds those encodings |
| Lights.ColorNeverFalsy | tools/blender/sodiumSceneFile.py:226-229 | a colour always has three channels, so the truthiness test rejects only a failed write |
| Lights.UncheckedMultiplier | tools/blender/sodiumSceneFile.py:243-247 | a multiplier that cannot be written does not stop the light; it is stored as false |
| SceneExport.IsIdentity | tools/blender/sodiumSceneFile.py:191-197 | the nested loop returns true exactly when every cell is within 0.001 of the identity matrix's entry |
| SceneExport.WriteTransform | tools/blender/sodiumSceneFile.py:199-215 | a root with a non-identity parent inverse fails. Otherwise, on the basis or the rebased basis, scale, rotation and translation are written, and the first failure in that order is returned |
| SceneExport.WriteData | tools/blender/sodiumSceneFile.py:219-308 | an empty writes nothing; a light or mesh is written under its data name only if absent; any other kind is refused with its type |
| SceneExport.Recurse | tools/blender/sodiumSceneFile.py:190-312 | one call of `recurse` yields exactly the walk specification: status, collection and resources |
| SceneExport.RecurseChildren | tools/blender/sodiumSceneFile.py:309-311 | the children loop yields exactly the children walk, stopping at the first failure |
| SceneExport.ChildrenFailureSticks | tools/blender/sodiumSceneFile.py:311 | once a child fails, later children are not visited |
| SceneExport.ChildFailureFails | tools/blender/sodiumSceneFile.py:309-311 | a child that fails after its earlier siblings passed makes its parent's walk fail with the child's error, so a failing descendant stops every ancestor |
| SceneExport.Export | tools/blender/sodiumSceneFile.py:134-313 | the operator yields exactly the exported document, or the refusal that leaves no file |
| SceneExport.RootsFailureSticks | tools/blender/sodiumSceneFile.py:313 | once a root fails, no later root is visited |
| SceneExportProperties.VisitExtends | tools/blender/sodiumSceneFile.py:224-280 | the walk never replaces a written mesh or light: the memo tables only grow |
| SceneExportProperties.ChildrenExtend | tools/blender/sodiumSceneFile.py:309-311 | the children loop never replaces a written resource |
| SceneExportProperties.VisitSound | tools/blender/sodiumSceneFile.py:224-305 | every resource written by a subtree walk is the encoding of the data of an object in that subtree, under that data's name |
| SceneExportProperties.ChildrenSound | tools/blender/sodiumSceneFile.py:309-311 | the same for the children loop over the children's subtrees |
| SceneExportProperties.VisitBlame | tools/blender/sodiumSceneFile.py:190-312 | a failed walk reports an object error naming an object of the walked subtree |
| SceneExportProperties.ChildrenBlame | tools/blender/sodiumSceneFile.py:309-311 | a failed children loop names an object below the parent |
| SceneExportProperties.VisitMirrors | tools/blender/sodiumSceneFile.py:204-217 | the node is inserted once its transform is written, whatever follows, and no other entry changes. On a rejected transform nothing changes. On success the node mirrors the object: its transform, its data link, and a node per child under the child's name |
| SceneExportProperties.ChildrenMirror | tools/blender/sodiumSceneFile.py:309-311 | after a successful children loop the node's children are keyed by exactly the children's names, each mirroring its child |
| SceneExportProperties.VisitAccepted | tools/blender/sodiumSceneFile.py:219-308 | after a successful walk every object of the subtree has a supported kind and its data link names a written resource |
| SceneExportProperties.ChildrenAccepted | tools/blender/sodiumSceneFile.py:309-311 | the same for every object below the parent |
| DocumentProperties.RootsMirror | tools/blender/sodiumSceneFile.py:188-313 | after all roots pass, the scene nodes are keyed by exactly the root names, each mirroring its object tree |
| DocumentProperties.RootsSound | tools/blender/sodiumSceneFile.py:188-313 | every resource comes from an object reached from a root, under its data name |
| DocumentProperties.RootsBlame | tools/blender/sodiumSceneFile.py:188-313 | a failed walk names an object reached from a root |
| DocumentProperties.RootsAccepted | tools/blender/sodiumSceneFile.py:188-313 | after all roots pass, every reached object is accepted with respect to the final resources |
| DocumentProperties.ExportRefusals | tools/blender/sodiumSceneFile.py:139-141 | the export is refused for its units exactly when the scene is not metric with scale 1; any other refusal names a reached object |
| DocumentProperties.ExportedDocument | tools/blender/sodiumSceneFile.py:315-325 | the document carries the frame rate and one node per root, mirroring its tree. Its meshes and lights are the encodings of reached objects' data, and every link resolves |

## Left out

- File I/O, `json.loads`/`json.dumps` and the 4-space indentation: the document is a typed value. `sort_keys` only orders output keys; the mesh round trip is proved for any group order.
- The importer's light loop, its scene-node loop and its frame-rate and unit settings (lines 81-123 and 20-23): they are not part of this model.
- The material set-up on import (lines 24-40): colours, transparency and intensities are host state. The model only uses the fact that the three materials then exist (`SupportedMaterials <= existing`).
- `self.report`: messages are not modelled. Only the first error that stops the walk is kept. A failed multiplier or negative write reports an error but does not stop the export, and that report is lost in the model.
- The matrix arithmetic of the parent rebase (`matrix_world`, `inverted()`, the product) is taken from the host as `rebasedBasis`. The rebase also changes the host object in place, before the export can still fail; that side effect is not modelled.
- `curve.update()` and the host's F-curve sorting: curves and keyframes are taken in the order the host holds them.
- bmesh internals: `verts.new`, `faces.new` refusing a face whose vertices repeat or that already exists, and the host renaming a mesh whose name is taken. Faces are modelled as index lists.
- Floating point: positions and matrix cells are reals compared exactly, and NaN is not modelled. Python's `abs` and comparison against 0.001 are modelled on reals.
- AnimationProperties.EncodeDecodeRoundTrip: requires every matched curve to have a keyframe. A curve without keyframes is written as an empty channel, on which the reader raises.
- AnimationImport.ReadAnimation: an import that fails part way leaves the curves of earlier axes on the host; the model returns only the error.
- MeshImport.BuildMesh: likewise, vertices and faces created before a bad vertex index are not modelled once the import fails.
- AnimationImport.ReadAnimation: `keyframe_points.insert` is modelled as appending a point. The host keeps a curve sorted by frame and replaces a point already on the same frame. For a channel whose frames do not strictly increase, the host's curve differs from the model's. AnimationProperties.DecodeCharacterised and AnimationProperties.EncodeDecodeRoundTrip describe the host only for channels whose frames strictly increase.
- MeshImport.CheckPolygon: vertex indices in a document are modelled as natural numbers. A negative index, which Python's `bm.verts[vertex]` counts from the end of the vertex list, is not modelled.
- SceneExport.WriteTransform: `parent.matrix_world.inverted()` raises on a singular parent matrix. The rebased values are taken from the host as `rebasedBasis`, so that error is not modelled.
- MeshImport.BuiltCharacterised: the success condition covers only vertex indices. The host's `bm.faces.new` also raises on a face that repeats a vertex, such as a polygon two of whose corners share a position. It raises too on a face whose vertex set already exists, such as the back face of a double-sided quad. The model builds both.
- MeshRoundTrip.MeshRoundTrip: for the same reason, the real import of an exported mesh fails where the model's succeeds. This happens when a polygon has two corners at one position, or two polygons use the same set of positions, as the two faces of a double-sided quad do.
- DocumentProperties.ExportedDocument: requires unique object names among the roots and among siblings. The host guarantees unique object names; without them a later node would replace an earlier one under the same key.
