/**
 * FmsMeshToMesh as a whole: select the main component, its boundary and the
 * two tags, decode the attributes, build the elements and boundary
 * elements, validate the coordinate field, add the vertices, make the mesh
 * curved, rebuild the edge and face tables and run the DOF pass.  The first
 * failure ends the conversion: the partly built mesh is discarded and the
 * caller's slot is left as it was.  On success the slot receives the mesh.
 *
 * Also the data-collection wrapper around it.
 */
module Convert {
  import opened Fms
  import opened Errors
  import opened Layout
  import opened MfemMesh
  import opened Selection
  import opened Topology
  import opened Coords
  import opened Scatter

  /** The input as the FMS accessors present it, and the edge and face lists topology finalisation derives. */
  ghost predicate InputsWellFormed(m: FmsMesh, topo: MfemMesh.Topology)
  {
    && MeshWellFormed(m)
    && (forall i :: 0 <= i < |m.tags| ==> ValuesFit(m.tags[i]))
    && TopologyWellFormed(topo)
  }

  /**
   * The mesh at the point the conversion ends: how it ended, the element and
   * boundary lists, the number of vertices added, and the node vector once
   * the mesh has been made curved.
   */
  datatype Converted = Converted(
    status: Status,
    elements: seq<Element>,
    boundary: seq<Element>,
    vertices: nat,
    nodes: Option<seq<real>>)

  /** `n` vertices at the origin. */
  function Origins(n: nat): (vs: seq<seq<real>>)
    ensures |vs| == n && forall i :: 0 <= i < n ==> vs[i] == Origin
  {
    seq(n, _ => Origin)
  }

  /** The boundary pass runs only when there is a boundary component with entities. */
  predicate HasBoundaryPass(m: FmsMesh, bdr: Option<nat>)
  {
    bdr.Some? && bdr.value < |m.components| && m.components[bdr.value].numEntities > 0
  }

  /** What the DOF pass reads: strides, DOF counts, lookup keys and the coordinate data. */
  function EnvOf(c: Component, topo: MfemMesh.Topology, fec: FeCollection, space: FeSpace): (env: Env)
    requires c.coords.Some? && TopologyWellFormed(topo)
    ensures EnvWellFormed(env)
    ensures env.fmap == Strides(c.coords.value.layout, c.coords.value.spaceDim, c.coords.value.numDofs)
    ensures env.vmap == Strides(c.coords.value.layout, c.coords.value.spaceDim, space.ndofs)
  {
    var f := c.coords.value;
    var needEdges := NeedEdgeTable(c.dim, fec.dofFor(Edge));
    var needFaces := NeedFaceTable(c.dim, NumEnts(c.parts, Triangle), fec.dofFor(Triangle),
                                   NumEnts(c.parts, Quadrilateral), fec.dofFor(Quadrilateral));
    Env(c.dim, f.spaceDim, fec, space,
        Strides(f.layout, f.spaceDim, f.numDofs), Strides(f.layout, f.spaceDim, space.ndofs), topo,
        if needEdges then EdgeKeys(topo.edges) else [],
        if needFaces then FaceKeys(topo.faces) else [],
        f.data)
  }

  /**
   * The conversion from the coordinate checks on: validate the field, add
   * the vertices, make the mesh curved (a zero node vector of
   * `ndofs * space_dim` values), check its size, rebuild the tables, and run
   * the DOF pass from a zero offset and zero counters.
   */
  function Curve(c: Component, topo: MfemMesh.Topology, fec: FeCollection, space: FeSpace,
                 elems: seq<Element>, facets: seq<Element>): (r: Converted)
    requires c.coords.Some? && PartsWellFormed(c.parts) && TopologyWellFormed(topo)
  {
    var f := c.coords.value;
    var v := ValidateCoords(f);
    if v != Ok then Converted(v, elems, facets, 0, None)
    else
      var r := Transfer(c, topo, fec, space, seq(space.ndofs * f.spaceDim, _ => 0.0));
      Converted(r.status, elems, facets, NumEnts(c.parts, Vertex), Some(r.nodes))
  }

  /**
   * The end of the coordinate transfer, on the curved mesh's node vector:
   * the size check, rebuilding the edge and face tables, and the DOF pass
   * from a zero offset and zero counters.
   */
  function Transfer(c: Component, topo: MfemMesh.Topology, fec: FeCollection, space: FeSpace, nodes: seq<real>): (r: Scattered)
    requires c.coords.Some? && PartsWellFormed(c.parts) && TopologyWellFormed(topo)
    ensures |r.nodes| == |nodes|
    ensures r.status.Fail? ==> Code(r.status.error) >= 12
    ensures r.status == Fail(NodesSize) <==> |nodes| != c.coords.value.numDofs * c.coords.value.spaceDim
  {
    var sz := NodesSizeStatus(|nodes|, c.coords.value);
    if sz != Ok then Scattered(nodes, Counters(0, [0, 0, 0, 0], 0), sz)
    else
    var tb := TablesStatus(topo, NeedEdgeTable(c.dim, fec.dofFor(Edge)),
                           NeedFaceTable(c.dim, NumEnts(c.parts, Triangle), fec.dofFor(Triangle),
                                         NumEnts(c.parts, Quadrilateral), fec.dofFor(Quadrilateral)));
    if tb != Ok then Scattered(nodes, Counters(0, [0, 0, 0, 0], 0), tb)
    else ScatterParts(EnvOf(c, topo, fec, space), c.parts, 0, nodes, Counters(0, [0, 0, 0, 0], 0))
  }

  /** The boundary pass, when there is a boundary component with entities; otherwise no boundary elements. */
  function BoundaryPass(m: FmsMesh, d: nat, bdr: Option<nat>, battr: Option<seq<int>>): (r: Inserted)
    requires MeshWellFormed(m)
    ensures !HasBoundaryPass(m, bdr) ==> r == Inserted([], Ok)
    ensures InsertCodes(r.status)
  {
    if HasBoundaryPass(m, bdr) then InsertParts(m.components[bdr.value].parts, 0, d, true, battr, []) else Inserted([], Ok)
  }

  /** The conversion from the element pass on, once the attributes are decoded. */
  function Build(m: FmsMesh, c: Component, bdr: Option<nat>, attr: Option<seq<int>>, battr: Option<seq<int>>,
                 topo: MfemMesh.Topology, fec: FeCollection, space: FeSpace): (r: Converted)
    requires MeshWellFormed(m) && c.coords.Some? && PartsWellFormed(c.parts) && TopologyWellFormed(topo)
  {
    var cells := InsertParts(c.parts, 0, c.dim, false, attr, []);
    if cells.status != Ok then Converted(cells.status, cells.elems, [], 0, None)
    else
      var facets := BoundaryPass(m, c.dim, bdr, battr);
      if facets.status != Ok then Converted(facets.status, cells.elems, facets.elems, 0, None)
      else Curve(c, topo, fec, space, cells.elems, facets.elems)
  }

  /** The conversion once a main component `mi` is found: boundary and tag selection, attribute decoding, and the rest. */
  function ConvertMain(m: FmsMesh, mi: nat, topo: MfemMesh.Topology, fec: FeCollection, space: FeSpace): (r: Converted)
    requires InputsWellFormed(m, topo) && mi < |m.components| && HasCoords(m.components[mi])
  {
    var c := m.components[mi];
    var bdr := FirstBoundary(m.components, c.relations, c.dim, 0);
    var elemTag := FirstTagOf(m.tags, Some(mi), 0);
    var bdrTag := FirstTagOf(m.tags, bdr, 0);
    var s1 := DecodeTag(m.tags, elemTag, ElemAttrType);
    var s2 := DecodeTag(m.tags, bdrTag, BdrAttrType);
    if s1 != Ok then Converted(s1, [], [], 0, None)
    else if s2 != Ok then Converted(s2, [], [], 0, None)
    else Build(m, c, bdr, AttrsOf(m.tags, elemTag), AttrsOf(m.tags, bdrTag), topo, fec, space)
  }

  /** The whole conversion, given what topology finalisation and the curved mesh's space provide. */
  function Convert(m: FmsMesh, topo: MfemMesh.Topology, fec: FeCollection, space: FeSpace): (r: Converted)
    requires InputsWellFormed(m, topo)
  {
    var main := FirstWithCoords(m.components, 0);
    if main.None? then Converted(Fail(NoCoordinates), [], [], 0, None)
    else ConvertMain(m, main.value, topo, fec, space)
  }

  // ---------------------------------------------------------------------
  // What the conversion promises

  /** The stages after the main component is found report neither the missing-coordinates failure nor an undecodable tag. */
  lemma CurveCodes(c: Component, topo: MfemMesh.Topology, fec: FeCollection, space: FeSpace, elems: seq<Element>, facets: seq<Element>)
    requires c.coords.Some? && PartsWellFormed(c.parts) && TopologyWellFormed(topo)
    ensures var r := Curve(c, topo, fec, space, elems, facets);
      r.status.Fail? ==> Code(r.status.error) >= 8
  {
  }

  /** From the element pass on, only codes 3 and above are reported: the element and boundary passes use 3 to 7, the transfer 8 and above. */
  lemma BuildCodes(m: FmsMesh, c: Component, bdr: Option<nat>, attr: Option<seq<int>>, battr: Option<seq<int>>,
                   topo: MfemMesh.Topology, fec: FeCollection, space: FeSpace)
    requires MeshWellFormed(m) && c.coords.Some? && PartsWellFormed(c.parts) && TopologyWellFormed(topo)
    ensures var r := Build(m, c, bdr, attr, battr, topo, fec, space);
      r.status.Fail? ==> Code(r.status.error) >= 3
  {
    var cells := InsertParts(c.parts, 0, c.dim, false, attr, []);
    if cells.status == Ok {
      var facets := BoundaryPass(m, c.dim, bdr, battr);
      if facets.status == Ok {
        CurveCodes(c, topo, fec, space, cells.elems, facets.elems);
      }
    }
  }

  /** Once a main component is found, the missing-coordinates failure can no longer occur. */
  lemma ConvertMainCodes(m: FmsMesh, mi: nat, topo: MfemMesh.Topology, fec: FeCollection, space: FeSpace)
    requires InputsWellFormed(m, topo) && mi < |m.components| && HasCoords(m.components[mi])
    ensures ConvertMain(m, mi, topo, fec, space).status != Fail(NoCoordinates)
  {
    var c := m.components[mi];
    var bdr := FirstBoundary(m.components, c.relations, c.dim, 0);
    var elemTag := FirstTagOf(m.tags, Some(mi), 0);
    var bdrTag := FirstTagOf(m.tags, bdr, 0);
    if DecodeTag(m.tags, elemTag, ElemAttrType) == Ok && DecodeTag(m.tags, bdrTag, BdrAttrType) == Ok {
      BuildCodes(m, c, bdr, AttrsOf(m.tags, elemTag), AttrsOf(m.tags, bdrTag), topo, fec, space);
    }
  }

  /**
   * The conversion fails for want of coordinates exactly when no component
   * has them, and then it has built nothing.
   */
  lemma ConvertNoCoordinates(m: FmsMesh, topo: MfemMesh.Topology, fec: FeCollection, space: FeSpace)
    requires InputsWellFormed(m, topo)
    ensures var r := Convert(m, topo, fec, space);
      (r.status == Fail(NoCoordinates) <==> forall i :: 0 <= i < |m.components| ==> !HasCoords(m.components[i]))
      && (r.status == Fail(NoCoordinates) ==> r == Converted(Fail(NoCoordinates), [], [], 0, None))
  {
    var main := FirstWithCoords(m.components, 0);
    if main.Some? {
      ConvertMainCodes(m, main.value, topo, fec, space);
    }
  }

  /** Within the coordinate transfer, codes up to 11 come from the field checks, which run before any vertex or node exists. */
  lemma CurveCoordChecks(c: Component, topo: MfemMesh.Topology, fec: FeCollection, space: FeSpace, elems: seq<Element>, facets: seq<Element>)
    requires c.coords.Some? && PartsWellFormed(c.parts) && TopologyWellFormed(topo)
    ensures var r := Curve(c, topo, fec, space, elems, facets);
      r.status.Fail? && Code(r.status.error) <= 11 ==> r.status == ValidateCoords(c.coords.value) && r.vertices == 0 && r.nodes.None?
  {
  }

  lemma BuildCoordChecks(m: FmsMesh, c: Component, bdr: Option<nat>, attr: Option<seq<int>>, battr: Option<seq<int>>,
                         topo: MfemMesh.Topology, fec: FeCollection, space: FeSpace)
    requires MeshWellFormed(m) && c.coords.Some? && PartsWellFormed(c.parts) && TopologyWellFormed(topo)
    ensures var r := Build(m, c, bdr, attr, battr, topo, fec, space);
      r.status.Fail? && 8 <= Code(r.status.error) <= 11 ==> r.vertices == 0 && r.nodes.None?
  {
    var cells := InsertParts(c.parts, 0, c.dim, false, attr, []);
    var facets := BoundaryPass(m, c.dim, bdr, battr);
    CurveCoordChecks(c, topo, fec, space, cells.elems, facets.elems);
  }

  /**
   * The coordinate field is checked before any vertex is added and before
   * the node vector exists: a conversion that ends with code 8 to 11 has
   * added no vertex and written no node value.
   */
  lemma CoordChecksFirst(m: FmsMesh, topo: MfemMesh.Topology, fec: FeCollection, space: FeSpace)
    requires InputsWellFormed(m, topo)
    ensures var r := Convert(m, topo, fec, space);
      r.status.Fail? && 8 <= Code(r.status.error) <= 11 ==> r.vertices == 0 && r.nodes.None?
  {
    var main := FirstWithCoords(m.components, 0);
    if main.Some? {
      var c := m.components[main.value];
      var bdr := FirstBoundary(m.components, c.relations, c.dim, 0);
      BuildCoordChecks(m, c, bdr, AttrsOf(m.tags, FirstTagOf(m.tags, Some(main.value), 0)), AttrsOf(m.tags, FirstTagOf(m.tags, bdr, 0)),
                       topo, fec, space);
    }
  }

  /**
   * The coordinate transfer of a successful conversion: one vertex per
   * vertex entity, a node vector of one slot per coordinate value, and a DOF
   * pass that read exactly the DOFs of all blocks of the main component and
   * counted each of its entities under its dimension.
   */
  lemma CurveSuccess(c: Component, topo: MfemMesh.Topology, fec: FeCollection, space: FeSpace, elems: seq<Element>, facets: seq<Element>)
    requires c.coords.Some? && PartsWellFormed(c.parts) && TopologyWellFormed(topo)
    requires Curve(c, topo, fec, space, elems, facets).status == Ok
    ensures var r := Curve(c, topo, fec, space, elems, facets);
      var f := c.coords.value;
      var env := EnvOf(c, topo, fec, space);
      var pass := ScatterParts(env, c.parts, 0, seq(space.ndofs * f.spaceDim, _ => 0.0), Counters(0, [0, 0, 0, 0], 0));
      && r.elements == elems && r.boundary == facets
      && r.vertices == NumEnts(c.parts, Vertex)
      && r.nodes == Some(pass.nodes) && |pass.nodes| == f.numDofs * f.spaceDim
      && pass.ctr.offset == PartsDofs(env, c.parts, 0)
      && forall d :: 0 <= d < 4 ==> pass.ctr.cnt[d] == PartsEnts(c.parts, 0, d)
  {
    var f := c.coords.value;
    ScatterPartsCounts(EnvOf(c, topo, fec, space), c.parts, 0, seq(space.ndofs * f.spaceDim, _ => 0.0), Counters(0, [0, 0, 0, 0], 0));
  }

  /**
   * The passes of a successful build: the elements are the main component's
   * cells and the boundary elements the boundary component's facets, each
   * with the attribute of its list position (or 1 without a tag), one vertex
   * per vertex entity.
   */
  lemma BuildSuccess(m: FmsMesh, c: Component, bdr: Option<nat>, attr: Option<seq<int>>, battr: Option<seq<int>>,
                     topo: MfemMesh.Topology, fec: FeCollection, space: FeSpace)
    requires MeshWellFormed(m) && c.coords.Some? && PartsWellFormed(c.parts) && TopologyWellFormed(topo)
    requires Build(m, c, bdr, attr, battr, topo, fec, space).status == Ok
    ensures var r := Build(m, c, bdr, attr, battr, topo, fec, space);
      && |r.elements| == CountParts(c.parts, 0, c.dim, false)
      && Extends([], r.elements, attr)
      && ElementsAre(r.elements, PartsShapes(c.parts, 0, c.dim, false), attr)
      && (HasBoundaryPass(m, bdr) ==>
            && |r.boundary| == CountParts(m.components[bdr.value].parts, 0, c.dim, true) && Extends([], r.boundary, battr)
            && ElementsAre(r.boundary, PartsShapes(m.components[bdr.value].parts, 0, c.dim, true), battr))
      && (!HasBoundaryPass(m, bdr) ==> r.boundary == [])
      && r.vertices == NumEnts(c.parts, Vertex)
  {
    var cells := InsertParts(c.parts, 0, c.dim, false, attr, []);
    var facets := BoundaryPass(m, c.dim, bdr, battr);
    InsertPartsExtends(c.parts, 0, c.dim, false, attr, []);
    InsertPartsCount(c.parts, 0, c.dim, false, attr, []);
    PassElements(c.parts, c.dim, false, attr);
    if HasBoundaryPass(m, bdr) {
      InsertPartsExtends(m.components[bdr.value].parts, 0, c.dim, true, battr, []);
      InsertPartsCount(m.components[bdr.value].parts, 0, c.dim, true, battr, []);
      PassElements(m.components[bdr.value].parts, c.dim, true, battr);
    }
    CurveSuccess(c, topo, fec, space, cells.elems, facets.elems);
  }

  /** A successful conversion, in terms of the selected main component, boundary component and tags. */
  lemma ConvertSuccess(m: FmsMesh, topo: MfemMesh.Topology, fec: FeCollection, space: FeSpace)
    requires InputsWellFormed(m, topo)
    requires Convert(m, topo, fec, space).status == Ok
    ensures var r := Convert(m, topo, fec, space);
      var main := FirstWithCoords(m.components, 0);
      && main.Some?
      && var c := m.components[main.value];
         var bdr := FirstBoundary(m.components, c.relations, c.dim, 0);
         && |r.elements| == CountParts(c.parts, 0, c.dim, false)
         && Extends([], r.elements, AttrsOf(m.tags, FirstTagOf(m.tags, Some(main.value), 0)))
         && ElementsAre(r.elements, PartsShapes(c.parts, 0, c.dim, false), AttrsOf(m.tags, FirstTagOf(m.tags, Some(main.value), 0)))
         && (HasBoundaryPass(m, bdr) ==>
               && Extends([], r.boundary, AttrsOf(m.tags, FirstTagOf(m.tags, bdr, 0)))
               && ElementsAre(r.boundary, PartsShapes(m.components[bdr.value].parts, 0, c.dim, true), AttrsOf(m.tags, FirstTagOf(m.tags, bdr, 0))))
         && (!HasBoundaryPass(m, bdr) ==> r.boundary == [])
         && r.vertices == NumEnts(c.parts, Vertex)
  {
    var main := FirstWithCoords(m.components, 0);
    var c := m.components[main.value];
    var bdr := FirstBoundary(m.components, c.relations, c.dim, 0);
    BuildSuccess(m, c, bdr, AttrsOf(m.tags, FirstTagOf(m.tags, Some(main.value), 0)), AttrsOf(m.tags, FirstTagOf(m.tags, bdr, 0)),
                 topo, fec, space);
  }

  // ---------------------------------------------------------------------
  // The converter

  /** The caller's output slot (`Mesh **mfem_mesh`). */
  class MeshSlot {
    var mesh: Mesh?

    constructor ()
      ensures mesh == null
    {
      mesh := null;
    }
  }

  /**
   * The coordinate transfer: checks, vertices, topology finalisation,
   * curvature, the size check, the table rebuild and the DOF pass.
   */
  method CurveInto(mesh: Mesh, c: Component, topo: MfemMesh.Topology, fec: FeCollection, space: FeSpace, counts: seq<nat>)
    returns (status: Status)
    requires c.coords.Some? && PartsWellFormed(c.parts) && TopologyWellFormed(topo)
    requires |counts| == |EntityTypes| && forall t :: counts[Ordinal(t)] == NumEnts(c.parts, t)
    requires mesh.vertices == [] && mesh.dim == c.dim
    requires Curve(c, topo, fec, space, mesh.elements, mesh.boundary).status != Undefined
    modifies mesh
    ensures var r := Curve(c, topo, fec, space, old(mesh.elements), old(mesh.boundary));
      && status == r.status
      && mesh.elements == r.elements && mesh.boundary == r.boundary
      && mesh.vertices == Origins(r.vertices)
      && (r.nodes.None? ==> mesh.nodes == old(mesh.nodes))
      && (r.nodes.Some? ==> mesh.nodes != null && fresh(mesh.nodes) && mesh.nodes[..] == r.nodes.value
                            && mesh.edges == topo.edges && mesh.faces == topo.faces)
  {
    var f := c.coords.value;
    status := ValidateCoords(f);
    if status != Ok {
      return;
    }
    var nodes := CurveMesh(mesh, f, topo, space, counts[Ordinal(Vertex)]);
    status := TransferInto(c, MfemMesh.Topology(mesh.edges, mesh.faces), fec, space, counts, nodes);
  }

  /** Adding the vertices, finalising the topology and making the mesh curved, with all node values zero. */
  method CurveMesh(mesh: Mesh, f: Field, topo: MfemMesh.Topology, space: FeSpace, nv: nat) returns (nodes: array<real>)
    modifies mesh
    ensures mesh.elements == old(mesh.elements) && mesh.boundary == old(mesh.boundary) && mesh.dim == old(mesh.dim)
    ensures mesh.vertices == old(mesh.vertices) + Origins(nv)
    ensures mesh.edges == topo.edges && mesh.faces == topo.faces
    ensures mesh.nodes == nodes && fresh(nodes) && nodes[..] == seq(space.ndofs * f.spaceDim, _ => 0.0)
  {
    AddOrigins(mesh, nv);
    mesh.FinalizeTopology(topo);
    mesh.SetCurvature(f.order, f.spaceDim, f.layout, space);
    nodes := mesh.nodes;
    assert nodes[..] == seq(space.ndofs * f.spaceDim, _ => 0.0);
  }

  /** The vertex loop: one vertex at the origin per vertex entity of the main component. */
  method AddOrigins(mesh: Mesh, n: nat)
    modifies mesh`vertices
    ensures mesh.vertices == old(mesh.vertices) + Origins(n)
  {
    var i := 0;
    while i < n
      invariant i <= n && mesh.vertices == old(mesh.vertices) + Origins(i)
    {
      mesh.AddVertex(Origin);
      assert Origins(i + 1) == Origins(i) + [Origin];
      i := i + 1;
    }
  }

  /** The size check on the curved mesh's node vector, rebuilding the tables from the finalised mesh, and the DOF pass. */
  method TransferInto(c: Component, topo: MfemMesh.Topology, fec: FeCollection, space: FeSpace, counts: seq<nat>, nodes: array<real>)
    returns (status: Status)
    requires c.coords.Some? && PartsWellFormed(c.parts) && TopologyWellFormed(topo)
    requires |counts| == |EntityTypes| && forall t :: counts[Ordinal(t)] == NumEnts(c.parts, t)
    requires Transfer(c, topo, fec, space, nodes[..]).status != Undefined
    modifies nodes
    ensures var r := Transfer(c, topo, fec, space, old(nodes[..]));
      status == r.status && nodes[..] == r.nodes
  {
    status := NodesSizeStatus(nodes.Length, c.coords.value);
    if status != Ok {
      return;
    }
    var needEdges := NeedEdgeTable(c.dim, fec.dofFor(Edge));
    var needFaces := NeedFaceTable(c.dim, counts[Ordinal(Triangle)], fec.dofFor(Triangle),
                                   counts[Ordinal(Quadrilateral)], fec.dofFor(Quadrilateral));
    var edges, faces;
    edges, faces, status := BuildTables(topo, needEdges, needFaces);
    if status != Ok {
      return;
    }
    var env := EnvOf(c, topo, fec, space);
    var ctr;
    ctr, status := ScatterComponent(env, edges, faces, c.parts, nodes, Counters(0, [0, 0, 0, 0], 0));
  }

  /** The element pass, the boundary pass and the coordinate transfer on a freshly made mesh. */
  method BuildInto(mesh: Mesh, m: FmsMesh, c: Component, bdr: Option<nat>, attr: Option<seq<int>>, battr: Option<seq<int>>,
                   topo: MfemMesh.Topology, fec: FeCollection, space: FeSpace, counts: seq<nat>)
    returns (status: Status)
    requires MeshWellFormed(m) && c.coords.Some? && PartsWellFormed(c.parts) && TopologyWellFormed(topo)
    requires |counts| == |EntityTypes| && forall t :: counts[Ordinal(t)] == NumEnts(c.parts, t)
    requires mesh.elements == [] && mesh.boundary == [] && mesh.vertices == [] && mesh.nodes == null && mesh.dim == c.dim
    requires Build(m, c, bdr, attr, battr, topo, fec, space).status != Undefined
    modifies mesh
    ensures var r := Build(m, c, bdr, attr, battr, topo, fec, space);
      && status == r.status
      && mesh.elements == r.elements && mesh.boundary == r.boundary
      && mesh.vertices == Origins(r.vertices)
      && (r.nodes.None? <==> mesh.nodes == null)
      && (r.nodes.Some? ==> fresh(mesh.nodes) && mesh.nodes[..] == r.nodes.value)
  {
    status := InsertComponent(mesh, c.parts, c.dim, false, attr);
    if status != Ok {
      return;
    }
    if HasBoundaryPass(m, bdr) {
      status := InsertComponent(mesh, m.components[bdr.value].parts, c.dim, true, battr);
      if status != Ok {
        return;
      }
    }
    status := CurveInto(mesh, c, topo, fec, space, counts);
  }

  /**
   * FmsMeshToMesh.  The returned code is the conversion's status code (0 on
   * success).  `built` is the mesh as it stood when the conversion ended
   * (none when there were no coordinates): on failure the converter deletes
   * it and leaves the slot alone; on success the slot receives it.
   */
  method FmsMeshToMesh(m: FmsMesh, topo: MfemMesh.Topology, fec: FeCollection, space: FeSpace, slot: MeshSlot)
    returns (err: int, ghost built: Mesh?)
    requires InputsWellFormed(m, topo)
    requires Convert(m, topo, fec, space).status != Undefined
    modifies slot
    ensures var r := Convert(m, topo, fec, space);
      && err == StatusCode(r.status)
      && (err != 0 ==> slot.mesh == old(slot.mesh))
      && (err == 0 ==> slot.mesh == built)
      && (built == null <==> r.status == Fail(NoCoordinates))
      && (built != null ==>
            && fresh(built)
            && built.elements == r.elements && built.boundary == r.boundary
            && built.vertices == Origins(r.vertices)
            && (r.nodes.None? <==> built.nodes == null)
            && (r.nodes.Some? ==> fresh(built.nodes) && built.nodes[..] == r.nodes.value))
  {
    ConvertNoCoordinates(m, topo, fec, space);
    var main := FindMainComponent(m.components);
    if main.None? {
      return StatusCode(Fail(NoCoordinates)), null;
    }
    var status, mesh := ConvertMainInto(m, main.value, topo, fec, space);
    built := mesh;
    if status != Ok {
      return StatusCode(status), built;
    }
    slot.mesh := mesh;
    return 0, built;
  }

  /** Everything after the main component is found, on a new mesh. */
  method ConvertMainInto(m: FmsMesh, mi: nat, topo: MfemMesh.Topology, fec: FeCollection, space: FeSpace)
    returns (status: Status, mesh: Mesh)
    requires InputsWellFormed(m, topo) && mi < |m.components| && HasCoords(m.components[mi])
    requires ConvertMain(m, mi, topo, fec, space).status != Undefined
    ensures var r := ConvertMain(m, mi, topo, fec, space);
      && status == r.status
      && fresh(mesh)
      && mesh.elements == r.elements && mesh.boundary == r.boundary
      && mesh.vertices == Origins(r.vertices)
      && (r.nodes.None? <==> mesh.nodes == null)
      && (r.nodes.Some? ==> fresh(mesh.nodes) && mesh.nodes[..] == r.nodes.value)
  {
    var c := m.components[mi];
    var counts := CountEntities(c.parts);
    var bdr := FindBoundaryComponent(m.components, c.relations, c.dim);
    var nBdr := if bdr.Some? then m.components[bdr.value].numEntities else 0;
    mesh := new Mesh(c.dim, counts[Ordinal(Vertex)], c.numEntities, nBdr, c.coords.value.spaceDim);

    var elemTag, bdrTag := FindTags(m.tags, mi, bdr);
    assert bdrTag == FirstTagOf(m.tags, bdr, 0);
    status := DecodeTag(m.tags, elemTag, ElemAttrType);
    if status == Ok {
      status := DecodeTag(m.tags, bdrTag, BdrAttrType);
    }
    if status == Ok {
      status := BuildInto(mesh, m, c, bdr, AttrsOf(m.tags, elemTag), AttrsOf(m.tags, bdrTag), topo, fec, space, counts);
    }
  }

  // ---------------------------------------------------------------------
  // The data-collection wrapper

  /** A data collection: a name and the mesh it holds (fields are not transferred). */
  class DataCollection {
    const name: string
    const mesh: Mesh

    constructor (name: string, mesh: Mesh)
      ensures this.name == name && this.mesh == mesh
    {
      this.name := name;
      this.mesh := mesh;
    }
  }

  /** The caller's output slot (`DataCollection **mfem_dc`). */
  class CollectionSlot {
    var dc: DataCollection?

    constructor ()
      ensures dc == null
    {
      dc := null;
    }
  }

  /** The wrapper's return value as written: `true` (1) after a successful conversion, 1 after a failed one. */
  function WrapperCodeAsWritten(s: Status): (code: int)
    requires s != Undefined
    ensures code == 1
  {
    if s == Ok then 1 else 1
  }

  /** With the wrapper's code as written, a failed conversion cannot be told from a successful one. */
  lemma WrapperCodeHidesFailure()
    ensures exists s: Status :: s != Ok && s != Undefined && WrapperCodeAsWritten(s) == WrapperCodeAsWritten(Ok)
  {
    assert WrapperCodeAsWritten(Fail(NoCoordinates)) == WrapperCodeAsWritten(Ok);
  }

  /** The wrapper's return value with the converter's convention: 0 exactly after a successful conversion, 1 otherwise. */
  function WrapperCode(s: Status): (code: int)
    requires s != Undefined
    ensures code == 0 <==> s == Ok
    ensures code == 0 || code == 1
  {
    if s == Ok then 0 else 1
  }

  /**
   * FmsDataCollectionToDataCollection as written: on success the slot
   * receives a collection named "collection" holding the converted mesh (its
   * elements, boundary elements, vertices and node vector are those of
   * `Convert`), and the return value is 1 whatever the outcome.
   */
  method DataCollectionAsWritten(m: FmsMesh, topo: MfemMesh.Topology, fec: FeCollection, space: FeSpace, slot: CollectionSlot)
    returns (retval: int)
    requires InputsWellFormed(m, topo)
    requires Convert(m, topo, fec, space).status != Undefined
    modifies slot
    ensures retval == WrapperCodeAsWritten(Convert(m, topo, fec, space).status)
    ensures var r := Convert(m, topo, fec, space);
      r.status == Ok ==>
        && slot.dc != null && fresh(slot.dc) && slot.dc.name == "collection" && fresh(slot.dc.mesh)
        && slot.dc.mesh.elements == r.elements && slot.dc.mesh.boundary == r.boundary
        && slot.dc.mesh.vertices == Origins(r.vertices)
        && (r.nodes.None? <==> slot.dc.mesh.nodes == null)
        && (r.nodes.Some? ==> fresh(slot.dc.mesh.nodes) && slot.dc.mesh.nodes[..] == r.nodes.value)
    ensures Convert(m, topo, fec, space).status != Ok ==> slot.dc == old(slot.dc)
  {
    var meshSlot := new MeshSlot();
    var err, built := FmsMeshToMesh(m, topo, fec, space, meshSlot);
    if err == 0 {
      var mdc := new DataCollection("collection", meshSlot.mesh);
      slot.dc := mdc;
      retval := 1;
    } else {
      retval := 1;
    }
  }

  /** FmsDataCollectionToDataCollection returning 0 on success, as FmsMeshToMesh does. */
  method FmsDataCollectionToDataCollection(m: FmsMesh, topo: MfemMesh.Topology, fec: FeCollection, space: FeSpace, slot: CollectionSlot)
    returns (retval: int)
    requires InputsWellFormed(m, topo)
    requires Convert(m, topo, fec, space).status != Undefined
    modifies slot
    ensures retval == WrapperCode(Convert(m, topo, fec, space).status)
    ensures var r := Convert(m, topo, fec, space);
      r.status == Ok ==>
        && slot.dc != null && fresh(slot.dc) && slot.dc.name == "collection" && fresh(slot.dc.mesh)
        && slot.dc.mesh.elements == r.elements && slot.dc.mesh.boundary == r.boundary
        && slot.dc.mesh.vertices == Origins(r.vertices)
        && (r.nodes.None? <==> slot.dc.mesh.nodes == null)
        && (r.nodes.Some? ==> fresh(slot.dc.mesh.nodes) && slot.dc.mesh.nodes[..] == r.nodes.value)
    ensures Convert(m, topo, fec, space).status != Ok ==> slot.dc == old(slot.dc)
  {
    var meshSlot := new MeshSlot();
    var err, built := FmsMeshToMesh(m, topo, fec, space, meshSlot);
    if err == 0 {
      var mdc := new DataCollection("collection", meshSlot.mesh);
      slot.dc := mdc;
      retval := 0;
    } else {
      retval := 1;
    }
  }
}
