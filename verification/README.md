# FMS to MFEM mesh conversion, in Dafny

This project models `FmsMeshToMesh` in `fem/fmsconvert.cpp`, together with
the `FmsDataCollectionToDataCollection` wrapper around it. The converter turns
a partitioned FMS mesh into one `mfem::Mesh` with a high-order node field.

The input is read-only, so it is modelled as datatypes (`Fms`):
- components made of parts;
- one block of entities per entity type and part, with its id and orientation buffers and the vertex lists the domain resolves;
- tags, each owned by a component or by none;
- the coordinate field of the main component.

The target mesh is a class (`MfemMesh.Mesh`). Its element, boundary-element and vertex lists are sequences that the insertion methods extend, and its node vector is an `array<real>` that the DOF pass writes in place.

The conversion runs in the order of the source:
1. Find the main component, count its entities, and find the boundary component and the two tags (`Selection`).
2. Decode the attributes.
3. Insert the cells, then the boundary facets (`Topology`).
4. Validate the coordinate field, add the vertices, make the mesh curved, and check the node-vector size (`Coords`, `Convert`).
5. Rebuild the edge and face id tables (`Coords`, `Hashing`).
6. Run the DOF pass (`Scatter`): every entity's coordinate values are copied into the node vector, through its interior DOFs and, for edges and faces, through the permutation of its orientation (`Orientation`, `Layout`).

The first failure ends the conversion with its code (`Errors`). The partly built mesh is then dropped and the caller's slot is left alone.

Each pass is written twice:
- as a specification function that threads the state through the source's loop nest (the element list, or the node vector together with the counters `fms_dof_offset`, `mfem_ent_cnt[4]` and `mfem_last_vert_cnt`);
- as a method with the source's loops, proved equal to that function.

Lemmas about the functions state what the passes promise:
- the attribute of each inserted entity;
- the check order and error codes;
- the counter and offset bookkeeping;
- the orientation codes;
- the effect of each DOF copy;
- the ordering of the coordinate checks before any vertex or node exists.

The source can read outside a buffer on some inputs, and it never checks for this. The model names that outcome `Undefined`, and the methods require that it does not occur.

Two passes number vertices differently, as in the source. The topology pass inserts cells with the vertex ids the domain hands out. The DOF pass adds to them the number of vertices in earlier parts (`mfem_last_vert_cnt`). Both are modelled as written.

The error codes differ from a one-code-per-condition reading. Code 1 is returned both when no component has coordinates (line 35) and when the element tag has an unsupported width (line 107). `Errors.CodesDistinct` states that these are the only two conditions sharing a code.

## Model

| member | source | states |
|---|---|---|
| Errors.CodesDistinct | fem/fmsconvert.cpp:35-291 | two different failure conditions share a return code only when they are "no coordinates" and "element tag width", which both return 1 |
| Errors.StatusCode | fem/fmsconvert.cpp:505-512 | the returned integer is 0 exactly on success and one of 1..19 otherwise |
| Selection.FirstWithCoords | fem/fmsconvert.cpp:29-34 | the chosen component has coordinates and none before it has; none is chosen only when no component has coordinates |
| Selection.FindMainComponent | fem/fmsconvert.cpp:29-35 | the component loop stops at the first component with coordinates |
| Selection.CountEntities | fem/fmsconvert.cpp:41-50 | entry `t` of the counts is the sum of the block sizes of type `t` over all parts |
| Selection.FirstBoundary | fem/fmsconvert.cpp:58-65 | the boundary is a related component of dimension `dim - 1`, and no earlier related component has that dimension; there is none when no related component has it |
| Selection.FindBoundaryComponent | fem/fmsconvert.cpp:58-65 | the relation loop returns the first related component of dimension `dim - 1` |
| Selection.FirstTagOf | fem/fmsconvert.cpp:81-91 | the chosen tag has the given owner (no owner when none is given) and no earlier tag has it; there is none only when no tag has it |
| Selection.FindTags | fem/fmsconvert.cpp:81-91 | the element tag is the first tag of the main component; the boundary tag is the first tag of the boundary component, or, when there is no boundary component, the first tag that has no component |
| Selection.AsInt32 | fem/fmsconvert.cpp:104 | reading an unsigned 32-bit value as `int` gives a value in the signed range that is equal to the original modulo 2^32 |
| Selection.DecodeAttr | fem/fmsconvert.cpp:97-107 | widths other than UINT8, INT32 and UINT32 are rejected; otherwise one attribute per tag value, unchanged for UINT8 and INT32, and for UINT32 the signed 32-bit value equal to it modulo 2^32 |
| Selection.DecodeTag | fem/fmsconvert.cpp:97-121 | decoding fails with the given code exactly when a chosen tag has an unsupported width; it never fails otherwise |
| Selection.AttrsOf | fem/fmsconvert.cpp:97-121 | there is an attribute array exactly when a tag was chosen and its width is supported |
| Topology.AddEntities | fem/fmsconvert.cpp:163-182 | appending `n` entities lengthens the list by `n` |
| Topology.InsertBlock | fem/fmsconvert.cpp:137-185 | a block that fails leaves the list unchanged and reports only codes 3 to 7 |
| Topology.InsertTypes | fem/fmsconvert.cpp:126-187 | the type walk of a part reports only codes 3 to 7 |
| Topology.InsertParts | fem/fmsconvert.cpp:125-188 | the part walk of a component reports only codes 3 to 7 |
| Topology.ExtendsTrans | fem/fmsconvert.cpp:125-188 | appending in two stretches keeps the first list as prefix, and each appended element keeps the attribute of its position |
| Topology.AddEntitiesElements | fem/fmsconvert.cpp:163-182 | the `i`-th appended entity has the block's geometry, the `i`-th vertex list, and attribute `attr[GetNE() + i]` (or 1 without a tag) |
| Topology.InsertBlockChecks | fem/fmsconvert.cpp:137-185 | error 3/6 exactly for an unsupported id width, 4/7 exactly for an orientation buffer (after the id check), 5 exactly for edges as cells (after both); a passing block appends its entities when its type has an insertion primitive |
| Topology.InsertBlockExtends | fem/fmsconvert.cpp:137-185 | a block keeps the list as prefix and gives each new element the attribute of its position |
| Topology.InsertTypesExtends | fem/fmsconvert.cpp:126-187 | the same over all types of a part |
| Topology.InsertPartsExtends | fem/fmsconvert.cpp:125-188 | the same over all parts of a component, element and boundary pass alike |
| Topology.InsertTypesCount | fem/fmsconvert.cpp:126-187 | a successful part walk appends exactly the entities of the insertable types of the pass's dimension |
| Topology.InsertPartsCount | fem/fmsconvert.cpp:125-188 | a successful component walk appends exactly those entities over all parts |
| Topology.BlockShapes | fem/fmsconvert.cpp:137-185 | a block contributes all its entities when the pass looks at its type and has a primitive for it, and none otherwise |
| Topology.AddEntitiesShapes | fem/fmsconvert.cpp:163-182 | the insertion loop appends the block's entities in order, each with the block's geometry and its own vertex list |
| Topology.InsertBlockShapes | fem/fmsconvert.cpp:137-185 | a block that passes appends exactly the entities of `BlockShapes`, after the existing list |
| Topology.InsertTypesShapes | fem/fmsconvert.cpp:126-187 | a part walk that succeeds appends the entities of its types in the order of the type loop |
| Topology.InsertPartsShapes | fem/fmsconvert.cpp:125-188 | a component walk that succeeds appends the entities of its parts in the order of the part loop |
| Topology.PassElements | fem/fmsconvert.cpp:125-188 | a pass started on an empty list builds exactly the inserted entities, each with its geometry, vertex list and the attribute of its position |
| Topology.InsertTypesDefined | fem/fmsconvert.cpp:163-182 | with a tag at least as long as the entities appended, no attribute read leaves the tag |
| Topology.InsertPartsDefined | fem/fmsconvert.cpp:157-182 | the same over all parts: a long enough tag rules out the unchecked reads of `attr[elem_offset+i]` and `bdr_attr[elem_offset+i]` |
| Topology.InsertBlockInto | fem/fmsconvert.cpp:137-185 | the checks and insertion loop of one block give the status and list of `InsertBlock`; the other list is unchanged |
| Topology.TypesStep | fem/fmsconvert.cpp:126-127 | one step of the type loop over the walk order |
| Topology.InsertPartInto | fem/fmsconvert.cpp:126-187 | the type loop of one part gives `InsertTypes` |
| Topology.InsertComponent | fem/fmsconvert.cpp:125-253 | the part loop of the element pass (and of the boundary pass) gives `InsertParts`; the other list is unchanged |
| Coords.ValidateCoords | fem/fmsconvert.cpp:272-292 | error 8 exactly for non-double data, 9 exactly for a non-fixed-order descriptor on double data, 10 and 11 likewise in order; success exactly when all four properties hold |
| Coords.NodesSizeStatus | fem/fmsconvert.cpp:316-319 | success exactly when the node vector has `coords_num_dofs * space_dim` entries, error 12 otherwise |
| Layout.Strides | fem/fmsconvert.cpp:294-295 | BY_VDIM gives `nstride = space_dim, vstride = 1`; otherwise `nstride = 1, vstride = coords_num_dofs` |
| Layout.StridesBijective | fem/fmsconvert.cpp:294-295 | under either layout, the (DOF, component) pairs occupy distinct slots inside a vector of `vdim * ndofs` |
| Layout.CopyDofsEffect | fem/fmsconvert.cpp:444-449 | with distinct destination slots, the copy puts component `j` of source DOF `srcs[i]` into the slot of component `j` of `dsts[i]` and leaves every other slot alone |
| Layout.CopyEntity | fem/fmsconvert.cpp:444-449 | the nested DOF/component loops give `CopyDofs` |
| Hashing.EdgeKey | fem/fmsconvert.cpp:345 | the Hashed2 key stores both vertices of the edge, the smaller first |
| Hashing.EdgeKeyMatch | fem/fmsconvert.cpp:436 | two edges get the same key exactly when they have the same two vertices |
| Hashing.FaceKey | fem/fmsconvert.cpp:356-357 | the Hashed4 key is sorted |
| Hashing.FaceKeyIsSmallestThree | fem/fmsconvert.cpp:356 | the key starts with the smallest slot, and its three values together with the largest slot are, as a multiset, exactly the four slots |
| Hashing.FaceKeyOrderFree | fem/fmsconvert.cpp:480 | swapping adjacent slots keeps the key |
| Hashing.FaceKeyDihedral | fem/fmsconvert.cpp:480 | rotating or reflecting a quadrilateral keeps its key |
| Hashing.FaceKeyIgnoresLargest | fem/fmsconvert.cpp:355-357 | faces that share their three smallest vertices share a key, whatever the fourth slot |
| Hashing.HashTable.KeysDistinct | fem/fmsconvert.cpp:339-340 | a table never files one key under two ids |
| Hashing.HashTable.GetId | fem/fmsconvert.cpp:345 | a known key gets its id back; a new key gets the next dense id |
| Hashing.HashTable.FindId | fem/fmsconvert.cpp:436 | the id of a key is its insertion position, and is negative when the key was never inserted |
| Coords.TriangleKey | fem/fmsconvert.cpp:355-357 | a triangle padded with INT_MAX is filed under its three vertices in increasing order |
| Coords.EdgeKeys | fem/fmsconvert.cpp:343-345 | the key of each mesh edge, in index order |
| Coords.FaceKeys | fem/fmsconvert.cpp:353-357 | the key of each mesh face, in index order, triangles padded |
| Coords.FillTable | fem/fmsconvert.cpp:343-347 | inserting keys in index order gives id `i` to the `i`-th key for every `i` exactly when no key repeats; the table then holds exactly those keys |
| Coords.TablesStatus | fem/fmsconvert.cpp:341-360 | the rebuild succeeds exactly when every needed table's keys are distinct; error 13 for edges, 14 for faces |
| Coords.BuildTables | fem/fmsconvert.cpp:339-360 | the rebuild returns `TablesStatus`, and on success each table holds the mesh's keys in index order, or nothing when not needed |
| Orientation.EdgeOri | fem/fmsconvert.cpp:441 | an edge orientation code is 0 or 1 |
| Orientation.EdgeOriMeaning | fem/fmsconvert.cpp:441 | for an occurrence of the same two distinct vertices, code 0 exactly when it is in canonical order, and 1 exactly when it is reversed |
| Orientation.FaceOri | fem/fmsconvert.cpp:462-464 | a face orientation code lies below twice the vertex count |
| Orientation.FaceOriDecode | fem/fmsconvert.cpp:462-485 | code / 2 is the first position of the canonical first vertex; the code is even exactly when the next vertex (cyclically) is the canonical second |
| Orientation.FaceOrientation | fem/fmsconvert.cpp:462-464 | the search loop and the direction test give `FaceOri` |
| Orientation.FaceOriOfRotation | fem/fmsconvert.cpp:462-485 | an occurrence rotated by `r` gets code `2r` |
| Orientation.FaceOriOfReflection | fem/fmsconvert.cpp:462-485 | an occurrence reflected at `r` gets code `2r + 1` |
| Scatter.CopyStep | fem/fmsconvert.cpp:442-450 | a copy that succeeds advances the offset by the type's DOF count and keeps the other counters; its only failure is an unchecked access, which changes nothing |
| Scatter.EdgeStep | fem/fmsconvert.cpp:434-451 | error 17 exactly when the edge's key is not in the edge table; success advances the offset by the edge DOF count |
| Scatter.FaceStep | fem/fmsconvert.cpp:455-495 | error 18 (triangles) or 19 (quadrilaterals) exactly when the face's key is not in the face table; success advances the offset by the face DOF count |
| Scatter.EntityStep | fem/fmsconvert.cpp:404-495 | a copied entity advances the offset by its DOF count and keeps the entity counters and vertex shift; only codes 15 to 19 are reported |
| Scatter.ScatterEntities | fem/fmsconvert.cpp:404-497 | an entity loop keeps the entity counters and vertex shift and reports only codes 15 to 19 |
| Scatter.ScatterBlock | fem/fmsconvert.cpp:374-500 | a block keeps the node-vector length and reports only codes 15 to 19 |
| Scatter.VertexBlock | fem/fmsconvert.cpp:387-399 | a vertex block never fails; a copied one advances the offset by `num_ents * ent_dofs`, the vertex counter by `num_ents`, and records the old vertex count as the vertex shift |
| Scatter.ScatterTypes | fem/fmsconvert.cpp:365-501 | the same over the types of a part |
| Scatter.ScatterParts | fem/fmsconvert.cpp:363-502 | the same over the parts of the main component |
| Scatter.ScatterEntitiesOffset | fem/fmsconvert.cpp:406-494 | a completed entity loop advances the offset by entity count times DOF count |
| Scatter.ScatterBlockCounts | fem/fmsconvert.cpp:374-500 | a completed block advances the offset by `num_ents * ent_dofs` (0 for types without DOFs and for tetrahedra and hexahedra when the main dimension is below 3) and `mfem_ent_cnt[dim(et)]` by `num_ents` |
| Scatter.ScatterTypesCounts | fem/fmsconvert.cpp:365-501 | a completed part advances the offset by the DOFs of its blocks and each dimension's counter by its entities of that dimension |
| Scatter.ScatterPartsCounts | fem/fmsconvert.cpp:363-502 | a completed pass has read exactly the DOFs of all blocks and counted every entity of the component once under its dimension |
| Scatter.CopyStepEffect | fem/fmsconvert.cpp:444-449 | with distinct node slots, component `j` of the entity's DOF `dofs[i]` receives component `j` of FMS DOF `offset + perm[i]`, and every other slot keeps its value |
| Scatter.CopyStepInto | fem/fmsconvert.cpp:444-450 | the DOF/component loops of one entity give `CopyStep` |
| Scatter.EdgeStepInto | fem/fmsconvert.cpp:435-450 | lookup, orientation and copy of one edge give `EdgeStep` |
| Scatter.FaceStepInto | fem/fmsconvert.cpp:456-494 | lookup, orientation search and copy of one face give `FaceStep` |
| Scatter.EntityStepInto | fem/fmsconvert.cpp:404-495 | one entity of the entity loop gives `EntityStep` |
| Scatter.VertexBlockInto | fem/fmsconvert.cpp:387-399 | the copy of a vertex block gives `VertexBlock` |
| Scatter.ScatterEntitiesInto | fem/fmsconvert.cpp:404-497 | the entity loop of a block gives `ScatterEntities` |
| Scatter.ScatterBlockInto | fem/fmsconvert.cpp:374-500 | one block of the pass, in the source's branch order, gives `ScatterBlock` |
| Scatter.ScatterTypesStep | fem/fmsconvert.cpp:365 | one step of the type loop over the walk order |
| Scatter.ScatterPartInto | fem/fmsconvert.cpp:365-501 | the type loop of one part gives `ScatterTypes` |
| Scatter.ScatterComponent | fem/fmsconvert.cpp:363-502 | the part loop of the pass gives `ScatterParts` |
| MfemMesh.Mesh.constructor | fem/fmsconvert.cpp:74 | a new mesh is empty |
| MfemMesh.Mesh.AddElement | fem/fmsconvert.cpp:164-180 | an insertion primitive appends one element |
| MfemMesh.Mesh.AddBdrElement | fem/fmsconvert.cpp:229-244 | a boundary insertion primitive appends one boundary element |
| MfemMesh.Mesh.AddVertex | fem/fmsconvert.cpp:298-301 | appends one vertex |
| MfemMesh.Mesh.FinalizeTopology | fem/fmsconvert.cpp:304 | the mesh's edges and faces become those that finalisation derives |
| MfemMesh.Mesh.SetCurvature | fem/fmsconvert.cpp:307-310 | a fresh node vector of `ndofs * vdim` zeros in the requested ordering |
| Convert.EnvOf | fem/fmsconvert.cpp:294-340 | the pass reads FMS data through the chosen strides and writes nodes through DofToVDof of the node ordering |
| Convert.BoundaryPass | fem/fmsconvert.cpp:192-253 | without a boundary component with entities no boundary element is inserted |
| Convert.CurveCodes | fem/fmsconvert.cpp:272-502 | the coordinate transfer reports only codes 8 and above |
| Convert.Transfer | fem/fmsconvert.cpp:316-502 | the end of the transfer keeps the node-vector length and reports only codes 12 and above; error 12 exactly when the node vector is not `coords_num_dofs * space_dim` long |
| Convert.BuildCodes | fem/fmsconvert.cpp:124-502 | from the element pass on, only codes 3 and above are reported |
| Convert.ConvertMainCodes | fem/fmsconvert.cpp:37-502 | once a main component is found the missing-coordinates failure cannot occur |
| Convert.ConvertNoCoordinates | fem/fmsconvert.cpp:29-35 | the conversion fails for want of coordinates exactly when no component has any, and then nothing is built |
| Convert.CurveCoordChecks | fem/fmsconvert.cpp:272-319 | in the coordinate transfer, codes up to 11 come from the field checks, before any vertex or node value |
| Convert.BuildCoordChecks | fem/fmsconvert.cpp:124-319 | the same from the element pass on |
| Convert.CoordChecksFirst | fem/fmsconvert.cpp:272-319 | a conversion that ends with code 8 to 11 has added no vertex and has no node vector |
| Convert.CurveSuccess | fem/fmsconvert.cpp:297-502 | after a successful transfer: one vertex per vertex entity, a node vector of `coords_num_dofs * space_dim` values, and a DOF pass that consumed exactly the DOFs of all blocks and counted every entity |
| Convert.BuildSuccess | fem/fmsconvert.cpp:124-502 | after a successful build: the elements are exactly the inserted cells of `PartsShapes` in walk order, with their geometry, vertex list and the attribute of their position; the boundary elements likewise for the facets of the boundary component, and none without a boundary pass; one vertex per vertex entity |
| Convert.ConvertSuccess | fem/fmsconvert.cpp:18-512 | the same contents, geometry, vertex lists and attributes, in terms of the selected main component, boundary component and tags |
| Convert.CurveInto | fem/fmsconvert.cpp:259-502 | checks, vertices, finalisation, curvature, size check, tables and DOF pass give `Curve`'s status, vertices and nodes |
| Convert.AddOrigins | fem/fmsconvert.cpp:297-301 | the vertex loop appends one vertex at the origin per vertex entity |
| Convert.CurveMesh | fem/fmsconvert.cpp:297-310 | after the vertices, FinalizeTopology and SetCurvature, the mesh has the finalised edges and faces and a fresh node vector of `ndofs * vdim` zeros, and its elements are unchanged |
| Convert.TransferInto | fem/fmsconvert.cpp:316-502 | the size check, the table rebuild and the DOF pass give `Transfer`'s status and node vector |
| Convert.BuildInto | fem/fmsconvert.cpp:124-502 | the element pass, the boundary pass and the transfer give `Build` |
| Convert.ConvertMainInto | fem/fmsconvert.cpp:37-502 | counting, boundary and tag selection, decoding and the build on a fresh mesh give `ConvertMain`'s status, elements, boundary, vertices and nodes |
| Convert.FmsMeshToMesh | fem/fmsconvert.cpp:18-513 | returns the conversion's code (0 exactly on success); the slot receives the fresh mesh on success and is untouched on failure; the mesh at exit holds exactly the specified elements, boundary, vertices and nodes |
| Convert.WrapperCodeAsWritten | fem/fmsconvert.cpp:535-539 | the wrapper's return value is 1 whatever the outcome |
| Convert.WrapperCodeHidesFailure | fem/fmsconvert.cpp:535-539 | some failed conversion returns the same value as a successful one |
| Convert.WrapperCode | fem/fmsconvert.cpp:529-539 | corrected: 0 exactly after a successful conversion, 1 otherwise |
| Convert.DataCollectionAsWritten | fem/fmsconvert.cpp:519-543 | on success the slot receives a collection named "collection" holding the converted mesh: a fresh mesh whose elements, boundary elements, vertices and node vector are those of `Convert`; on failure the slot is untouched; the return is 1 either way |
| Convert.FmsDataCollectionToDataCollection | fem/fmsconvert.cpp:519-543 | the same slot behaviour, returning 0 exactly on success |

## Left out

- FmsDomainGetEntitiesVerts (lines 147-156, 217-226, 419-427) is not modelled. Each block carries the vertex lists the domain resolves, so the contents of the id buffers matter only through their width.
- FinalizeTopology is not modelled. The edges and faces it derives are an input (`MfemMesh.Topology`).
- `Mesh::Finalize` (line 313) is not modelled. The element and boundary lists are those before Finalize, which may reorient boundary elements.
- The reserved sizes passed to the `Mesh` constructor are not modelled.
- The finite element collection and space are given functions. These are `DofForGeometry`, `DofOrderForOrientation` and `Get{Element,Edge,Face}InteriorDofs`.
- SetCurvature is modelled by its outcome: a node vector of `ndofs * vdim` values in the requested ordering. The values are all zero because every vertex sits at the origin.
- The hashing inside `mfem::HashTable` is not modelled. The table is modelled as the keys in insertion order plus a lookup map.
- Coordinates are opaque `real` values that are only copied. Floating-point arithmetic does not occur.
- Integer widths of counters and offsets are unbounded. The 32-bit `int` counters and offsets of the source are not wrapped.
- Unchecked reads are outcome `Undefined`, and every method requires that it does not occur. They are:
  - an attribute index beyond the tag's length (lines 166-180, 231-245);
  - a DOF list or permutation shorter than the DOF count;
  - a node or coordinate slot outside its vector;
  - a face search that runs past the occurrence (lines 463, 484).
  `Topology.InsertPartsDefined` gives a sufficient condition on tag length.
- Deleting the mesh on failure (line 508) becomes dropping the reference. The ghost result `built` of `Convert.FmsMeshToMesh` describes the mesh at the exit label.
- `FmsDataCollectionGetMesh` (line 523) is not modelled. The wrapper receives the FMS mesh directly, and fields are not transferred (the source leaves this as a TODO).
- The `MeshToFmsMesh` and `DataCollectionToFmsDataCollection` stubs (lines 551-565) are not modelled. They only return 1.

## Findings

| source | as written | input that shows it | evidently intended | confidence | as-written member | corrected member |
|---|---|---|---|---|---|---|
| fem/fmsconvert.cpp:535 | after a successful conversion the wrapper sets `retval = true`, i.e. 1, the value it also returns on failure (line 539) | any mesh that converts: its outcome `Ok` and the outcome `Fail(NoCoordinates)` both give 1 (`WrapperCodeHidesFailure`) | return 0 on success, as `FmsMeshToMesh` does, so that callers can tell success from failure | medium, not executed | Convert.DataCollectionAsWritten | Convert.FmsDataCollectionToDataCollection |
