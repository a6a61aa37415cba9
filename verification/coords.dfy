/**
 * The checks FmsMeshToMesh makes on the coordinate field before copying it,
 * the size check on the node vector, and the rebuilding of the edge and face
 * id tables from the mesh's own edge and face lists.
 */
module Coords {
  import opened Fms
  import opened Errors
  import opened Seqs
  import opened Hashing
  import opened MfemMesh

  /**
   * The coordinate field must hold doubles, have a fixed-order descriptor,
   * be continuous and use the closed Gauss nodal basis; the first property
   * that fails decides the error.
   */
  function ValidateCoords(f: Field): (s: Status)
    ensures s != Undefined
    ensures s == Ok <==>
      f.scalarType == Double && f.descriptorType == FixedOrder &&
      f.fieldType == Continuous && f.basis == NodalGaussClosed
    ensures s == Fail(CoordScalarType) <==> f.scalarType != Double
    ensures s == Fail(CoordDescriptorType) <==> f.scalarType == Double && f.descriptorType != FixedOrder
    ensures s == Fail(CoordFieldType) <==>
      f.scalarType == Double && f.descriptorType == FixedOrder && f.fieldType != Continuous
    ensures s == Fail(CoordBasisType) <==>
      f.scalarType == Double && f.descriptorType == FixedOrder &&
      f.fieldType == Continuous && f.basis != NodalGaussClosed
  {
    if f.scalarType != Double then Fail(CoordScalarType)
    else if f.descriptorType != FixedOrder then Fail(CoordDescriptorType)
    else if f.fieldType != Continuous then Fail(CoordFieldType)
    else if f.basis != NodalGaussClosed then Fail(CoordBasisType)
    else Ok
  }

  /**
   * The node vector of the curved mesh must have exactly one slot per
   * (coordinate DOF, component) pair of the field.
   */
  function NodesSizeStatus(nodesLen: nat, f: Field): (s: Status)
    ensures s == Ok <==> nodesLen == f.numDofs * f.spaceDim
    ensures s != Ok ==> s == Fail(NodesSize)
  {
    if nodesLen != f.numDofs * f.spaceDim then Fail(NodesSize) else Ok
  }

  /** The key of each mesh edge, in edge index order. */
  function EdgeKeys(edges: seq<seq<int>>): (ks: seq<Hashed2>)
    requires forall i :: 0 <= i < |edges| ==> |edges[i]| == 2
    ensures |ks| == |edges|
    ensures forall i :: 0 <= i < |edges| ==> ks[i] == EdgeKey(edges[i][0], edges[i][1])
  {
    seq(|edges|, i requires 0 <= i < |edges| => EdgeKey(edges[i][0], edges[i][1]))
  }

  /** The key of a face's vertex list; a triangle is padded with INT_MAX as its fourth slot. */
  function FaceKeyOf(fv: seq<int>): Hashed4
    requires |fv| == 3 || |fv| == 4
  {
    if |fv| == 3 then FaceKey(fv[0], fv[1], fv[2], IntMax) else FaceKey(fv[0], fv[1], fv[2], fv[3])
  }

  /** A triangle's key is its three vertices in increasing order: the INT_MAX pad never reaches the key. */
  lemma TriangleKey(a: int, b: int, c: int)
    requires a <= IntMax && b <= IntMax && c <= IntMax
    ensures var k := FaceKeyOf([a, b, c]);
      k.p1 <= k.p2 <= k.p3 && multiset{k.p1, k.p2, k.p3} == multiset{a, b, c}
  {
    var k := FaceKeyOf([a, b, c]);
    if a <= b {
      if b <= c { FaceKeyIgnoresLargest(a, b, c, IntMax, IntMax); }
      else if a <= c { FaceKeyOrderFree(a, b, c, IntMax); FaceKeyIgnoresLargest(a, c, b, IntMax, IntMax); }
      else { FaceKeyOrderFree(a, c, b, IntMax); FaceKeyOrderFree(a, b, c, IntMax); FaceKeyIgnoresLargest(c, a, b, IntMax, IntMax); }
    } else {
      if a <= c { FaceKeyOrderFree(a, b, c, IntMax); FaceKeyIgnoresLargest(b, a, c, IntMax, IntMax); }
      else if b <= c { FaceKeyOrderFree(b, a, c, IntMax); FaceKeyOrderFree(a, b, c, IntMax); FaceKeyIgnoresLargest(b, c, a, IntMax, IntMax); }
      else { FaceKeyOrderFree(c, b, a, IntMax); FaceKeyOrderFree(b, c, a, IntMax); FaceKeyOrderFree(b, a, c, IntMax); FaceKeyOrderFree(a, b, c, IntMax); FaceKeyIgnoresLargest(c, b, a, IntMax, IntMax); }
    }
  }

  /** The key of each mesh face, in face index order. */
  function FaceKeys(faces: seq<seq<int>>): (ks: seq<Hashed4>)
    requires forall i :: 0 <= i < |faces| ==> |faces[i]| == 3 || |faces[i]| == 4
    ensures |ks| == |faces|
    ensures forall i :: 0 <= i < |faces| ==> ks[i] == FaceKeyOf(faces[i])
  {
    seq(|faces|, i requires 0 <= i < |faces| => FaceKeyOf(faces[i]))
  }

  /**
   * The rebuilding loop: file the `i`-th key and insist that it received id
   * `i`.  It succeeds exactly when no key repeats, and then the table's ids
   * are the mesh indices.
   */
  method FillTable<K(==)>(ks: seq<K>) returns (table: HashTable<K>, ok: bool)
    ensures fresh(table) && table.Valid()
    ensures ok <==> Distinct(ks)
    ensures ok ==> table.keys == ks
  {
    table := new HashTable<K>();
    var i := 0;
    while i < |ks|
      invariant i <= |ks|
      invariant table.Valid() && table.keys == ks[..i]
      invariant Distinct(ks[..i])
    {
      var id := table.GetId(ks[i]);
      if id != i {
        assert ks[id] == ks[i] by { assert table.keys[id] == ks[..i][id]; }
        return table, false;
      }
      assert ks[..i + 1] == ks[..i] + [ks[i]];
      i := i + 1;
    }
    assert ks[..i] == ks;
    return table, true;
  }

  /** The two tables are only needed, and only rebuilt, when the element has DOFs on edges or on faces. */
  predicate NeedEdgeTable(dim: nat, edgeDofs: nat)
  {
    dim >= 2 && edgeDofs > 0
  }

  predicate NeedFaceTable(dim: nat, numTris: nat, triDofs: nat, numQuads: nat, quadDofs: nat)
  {
    dim >= 3 && ((numTris > 0 && triDofs > 0) || (numQuads > 0 && quadDofs > 0))
  }

  /**
   * The outcome of rebuilding the tables: error 13 when two mesh edges share
   * a key, error 14 when two faces do, the edge check first.
   */
  function TablesStatus(topo: Topology, needEdges: bool, needFaces: bool): (s: Status)
    requires TopologyWellFormed(topo)
    ensures s == Ok <==> (needEdges ==> Distinct(EdgeKeys(topo.edges))) && (needFaces ==> Distinct(FaceKeys(topo.faces)))
    ensures s != Ok ==> s == Fail(EdgeTable) || s == Fail(FaceTable)
  {
    if needEdges && !Distinct(EdgeKeys(topo.edges)) then Fail(EdgeTable)
    else if needFaces && !Distinct(FaceKeys(topo.faces)) then Fail(FaceTable)
    else Ok
  }

  /**
   * Rebuilding both tables.  When a table is not needed it stays empty, so
   * every later lookup in it fails.
   */
  method BuildTables(topo: Topology, needEdges: bool, needFaces: bool)
    returns (edges: HashTable<Hashed2>, faces: HashTable<Hashed4>, status: Status)
    requires TopologyWellFormed(topo)
    ensures fresh(edges) && fresh(faces) && edges.Valid() && faces.Valid()
    ensures status == TablesStatus(topo, needEdges, needFaces)
    ensures status == Ok ==> edges.keys == (if needEdges then EdgeKeys(topo.edges) else [])
    ensures status == Ok ==> faces.keys == (if needFaces then FaceKeys(topo.faces) else [])
  {
    var ok := true;
    if needEdges {
      edges, ok := FillTable(EdgeKeys(topo.edges));
    } else {
      edges := new HashTable<Hashed2>();
    }
    if !ok {
      faces := new HashTable<Hashed4>();
      return edges, faces, Fail(EdgeTable);
    }
    if needFaces {
      faces, ok := FillTable(FaceKeys(topo.faces));
    } else {
      faces := new HashTable<Hashed4>();
    }
    if !ok {
      return edges, faces, Fail(FaceTable);
    }
    return edges, faces, Ok;
  }
}
