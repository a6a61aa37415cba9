/**
 * The target mfem::Mesh as far as the converter uses it: element and
 * boundary-element lists, vertices, the edge and face vertex lists produced
 * by topology finalisation, and the high-order node vector allocated when
 * the mesh is made curved.  The finite element collection and space of the
 * node field are given collaborators (`FeCollection`, `FeSpace`).
 */
module MfemMesh {
  import opened Fms
  import opened Layout

  /** An element or boundary element: its geometry, vertex list and attribute. */
  datatype Element = Element(geom: EntityType, verts: seq<int>, attr: int)

  /**
   * What the node field's finite element collection tells the converter:
   * DofForGeometry, the interior DOF count of each geometry, and
   * DofOrderForOrientation, the DOF permutation for a geometry and an
   * orientation code.
   */
  datatype FeCollection = FeCollection(dofFor: EntityType -> nat, perm: (EntityType, nat) -> seq<nat>)

  /**
   * What the node field's finite element space tells the converter: its
   * scalar DOF count and the interior DOFs of each element, edge and face
   * (GetElementInteriorDofs, GetEdgeInteriorDofs, GetFaceInteriorDofs).
   */
  datatype FeSpace = FeSpace(
    ndofs: nat,
    elemDofs: nat -> seq<nat>,
    edgeDofs: nat -> seq<nat>,
    faceDofs: nat -> seq<nat>)

  /** The edges and faces topology finalisation derives, as vertex lists in mesh index order. */
  datatype Topology = Topology(edges: seq<seq<int>>, faces: seq<seq<int>>)

  /** GetEdgeVertices yields two vertices, GetFaceVertices three or four. */
  ghost predicate TopologyWellFormed(t: Topology)
  {
    && (forall i :: 0 <= i < |t.edges| ==> |t.edges[i]| == 2)
    && (forall i :: 0 <= i < |t.faces| ==> |t.faces[i]| == 3 || |t.faces[i]| == 4)
  }

  const Origin: seq<real> := [0.0, 0.0, 0.0]

  class Mesh {
    var dim: nat
    var spaceDim: nat
    var elements: seq<Element>
    var boundary: seq<Element>
    var vertices: seq<seq<real>>
    var edges: seq<seq<int>>
    var faces: seq<seq<int>>
    var order: nat
    var ordering: LayoutType
    var nodes: array?<real>

    /** Mesh(dim, nv, ne, nbe, space_dim): an empty mesh; the counts only reserve room. */
    constructor (dim: nat, nv: nat, ne: nat, nbe: nat, spaceDim: nat)
      ensures this.dim == dim && this.spaceDim == spaceDim
      ensures elements == [] && boundary == [] && vertices == []
      ensures edges == [] && faces == [] && nodes == null
    {
      this.dim := dim;
      this.spaceDim := spaceDim;
      elements, boundary, vertices := [], [], [];
      edges, faces := [], [];
      order, ordering := 1, ByNodes;
      nodes := null;
    }

    /** AddTriangle, AddQuad, AddTet, AddHex. */
    method AddElement(e: Element)
      modifies this`elements
      ensures elements == old(elements) + [e]
    {
      elements := elements + [e];
    }

    /** AddBdrSegment, AddBdrTriangle, AddBdrQuad. */
    method AddBdrElement(e: Element)
      modifies this`boundary
      ensures boundary == old(boundary) + [e]
    {
      boundary := boundary + [e];
    }

    method AddVertex(p: seq<real>)
      modifies this`vertices
      ensures vertices == old(vertices) + [p]
    {
      vertices := vertices + [p];
    }

    /** FinalizeTopology: the edge and face lists it derives are supplied by the caller. */
    method FinalizeTopology(t: Topology)
      modifies this`edges, this`faces
      ensures edges == t.edges && faces == t.faces
    {
      edges := t.edges;
      faces := t.faces;
    }

    /**
     * SetCurvature: allocate the node vector of a continuous space of the
     * given order with `vdim` components in the given ordering.  The mesh's
     * vertices all sit at the origin, so the interpolated nodes are zero.
     */
    method SetCurvature(order: nat, vdim: nat, ordering: LayoutType, space: FeSpace)
      modifies this`nodes, this`order, this`ordering
      ensures nodes != null && fresh(nodes) && nodes.Length == space.ndofs * vdim
      ensures forall k :: 0 <= k < nodes.Length ==> nodes[k] == 0.0
      ensures this.order == order && this.ordering == ordering
    {
      this.order := order;
      this.ordering := ordering;
      nodes := new real[space.ndofs * vdim](_ => 0.0);
    }
  }
}
