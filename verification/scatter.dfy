/**
 * The DOF pass of FmsMeshToMesh: walking the parts of the main component
 * and, in each part, all entity types in order, copying the coordinate
 * values of every entity's DOFs into the node vector of the curved mesh.
 * Vertex DOFs are copied in one stretch; cell DOFs go to the element's
 * interior DOFs; edge and face DOFs are first matched with the mesh's own
 * edge or face through the id tables and then permuted by the relative
 * orientation of the two vertex lists.
 *
 * The specification threads the node vector and the three running counters
 * of the pass (the FMS DOF offset, the per-dimension entity counters and the
 * vertex shift).
 */
module Scatter {
  import opened Fms
  import opened Errors
  import opened Seqs
  import opened Hashing
  import opened Orientation
  import opened Layout
  import opened MfemMesh
  import opened Coords
  import opened Topology

  /**
   * What the pass reads but never changes: the main dimension, the node
   * field's vector dimension, collection and space, where a (DOF, component)
   * pair lives in the coordinate data (`fmap`) and in the node vector
   * (`vmap`, DofToVDof), the mesh's edges and faces, the keys of the two id
   * tables and the coordinate data.
   */
  datatype Env = Env(
    dim: nat,
    vdim: nat,
    fec: FeCollection,
    space: FeSpace,
    fmap: DofMap,
    vmap: DofMap,
    topo: MfemMesh.Topology,
    edgeKeys: seq<Hashed2>,
    faceKeys: seq<Hashed4>,
    data: seq<real>)

  /** Every id a table hands out names a mesh edge or face. */
  ghost predicate EnvWellFormed(env: Env)
  {
    && TopologyWellFormed(env.topo)
    && |env.edgeKeys| <= |env.topo.edges|
    && |env.faceKeys| <= |env.topo.faces|
  }

  /**
   * The pass's running counters: the next FMS DOF to read, the number of
   * entities seen so far per dimension, and the vertex count before the
   * current part's vertices (added to that part's vertex ids).
   */
  datatype Counters = Counters(offset: nat, cnt: seq<nat>, lastVert: nat)

  predicate CountersOk(c: Counters)
  {
    |c.cnt| == 4
  }

  /** The failures the DOF pass reports: codes 15 to 19. */
  predicate DofCodes(s: Status)
  {
    s.Fail? ==> s.error in {DofIdType, DofOrientation, EdgeNotFound, TriangleNotFound, QuadNotFound}
  }

  /** The node vector and counters after a stretch of the pass, and how the stretch ended. */
  datatype Scattered = Scattered(nodes: seq<real>, ctr: Counters, status: Status)

  /** `n` consecutive DOFs from `from`. */
  function Range(from: nat, n: nat): (r: seq<nat>)
    ensures |r| == n && forall i :: 0 <= i < n ==> r[i] == from + i
  {
    seq(n, i requires 0 <= i < n => from + i)
  }

  /** The FMS DOFs an entity's DOFs come from: `offset + perm[i]`. */
  function Shifted(perm: seq<nat>, offset: nat): (r: seq<nat>)
    ensures |r| == |perm| && forall i :: 0 <= i < |perm| ==> r[i] == offset + perm[i]
  {
    seq(|perm|, i requires 0 <= i < |perm| => offset + perm[i])
  }

  /** Vertex lists moved by `delta`, as the pass shifts a part's vertex ids. */
  function Shift(vs: seq<seq<int>>, delta: int): (r: seq<seq<int>>)
    ensures |r| == |vs|
    ensures forall i :: 0 <= i < |vs| ==> |r[i]| == |vs[i]| && forall j :: 0 <= j < |vs[i]| ==> r[i][j] == vs[i][j] + delta
  {
    seq(|vs|, i requires 0 <= i < |vs| => seq(|vs[i]|, j requires 0 <= j < |vs[i]| => vs[i][j] + delta))
  }

  function Bump(cnt: seq<nat>, d: nat, n: nat): (r: seq<nat>)
    requires d < |cnt|
    ensures |r| == |cnt| && r[d] == cnt[d] + n && forall k :: 0 <= k < |cnt| && k != d ==> r[k] == cnt[k]
  {
    cnt[d := cnt[d] + n]
  }

  // ---------------------------------------------------------------------
  // One entity

  /**
   * Copying the `k` DOFs of one entity, `k` being the collection's DOF count
   * for the type: DOF `i` of the entity takes FMS DOF `offset + perm[i]`
   * and lands in node slot DofToVDof(dofs[i], j); the offset then moves on by
   * `k`.  A permutation or DOF list shorter than `k`, or a slot outside
   * either vector, is an unchecked access.
   */
  function CopyStep(env: Env, t: EntityType, perm: seq<nat>, dofs: seq<nat>, nodes: seq<real>, ctr: Counters): (r: Scattered)
    ensures |r.nodes| == |nodes|
    ensures r.ctr.cnt == ctr.cnt && r.ctr.lastVert == ctr.lastVert
    ensures r.status == Ok ==> r.ctr.offset == ctr.offset + env.fec.dofFor(t)
    ensures r.status != Ok ==> r.status == Undefined && r.nodes == nodes && r.ctr == ctr
  {
    var k := env.fec.dofFor(t);
    if |perm| < k || |dofs| < k then Scattered(nodes, ctr, Undefined)
    else
      var dsts := dofs[..k];
      var srcs := Shifted(perm[..k], ctr.offset);
      if !CopyInBounds(|nodes|, |env.data|, env.vmap, env.fmap, dsts, srcs, env.vdim) then Scattered(nodes, ctr, Undefined)
      else Scattered(CopyDofs(nodes, env.data, env.vmap, env.fmap, dsts, srcs, env.vdim, k), ctr.(offset := ctr.offset + k), Ok)
  }

  /** An edge of a part: find the mesh edge with the same two vertices and copy with the permutation of the edge's orientation. */
  function EdgeStep(env: Env, ev: seq<int>, nodes: seq<real>, ctr: Counters): (r: Scattered)
    requires EnvWellFormed(env) && |ev| == 2
    ensures |r.nodes| == |nodes|
    ensures r.ctr.cnt == ctr.cnt && r.ctr.lastVert == ctr.lastVert
    ensures r.status == Fail(EdgeNotFound) <==> EdgeKey(ev[0], ev[1]) !in env.edgeKeys
    ensures r.status == Ok ==> r.ctr.offset == ctr.offset + env.fec.dofFor(Edge)
    ensures r.status.Fail? ==> r.status.error == EdgeNotFound
  {
    var id := IndexOf(env.edgeKeys, EdgeKey(ev[0], ev[1]));
    if id < 0 then Scattered(nodes, ctr, Fail(EdgeNotFound))
    else
      var ori := EdgeOri(ev, env.topo.edges[id]);
      CopyStep(env, Edge, env.fec.perm(Edge, ori), env.space.edgeDofs(id), nodes, ctr)
  }

  /**
   * A triangle or quadrilateral of a part: find the mesh face filed under the
   * same key, locate the face's first vertex in the part's vertex list (an
   * unbounded search in the source, so a face without that vertex is an
   * unchecked access) and copy with the permutation of the orientation.
   */
  function FaceStep(env: Env, t: EntityType, fv: seq<int>, notFound: Error, nodes: seq<real>, ctr: Counters): (r: Scattered)
    requires EnvWellFormed(env) && (|fv| == 3 || |fv| == 4)
    ensures |r.nodes| == |nodes|
    ensures r.ctr.cnt == ctr.cnt && r.ctr.lastVert == ctr.lastVert
    ensures r.status == Fail(notFound) <==> FaceKeyOf(fv) !in env.faceKeys
    ensures r.status == Ok ==> r.ctr.offset == ctr.offset + env.fec.dofFor(t)
    ensures r.status.Fail? ==> r.status.error == notFound
  {
    var id := IndexOf(env.faceKeys, FaceKeyOf(fv));
    if id < 0 then Scattered(nodes, ctr, Fail(notFound))
    else
      var canon := env.topo.faces[id];
      if canon[0] !in fv then Scattered(nodes, ctr, Undefined)
      else
        var ori := FaceOri(fv, canon);
        CopyStep(env, t, env.fec.perm(t, ori), env.space.faceDofs(id), nodes, ctr)
  }

  /** The types whose entities the entity loop copies: cells of the main dimension, edges and faces. */
  predicate Copied(env: Env, t: EntityType)
  {
    EntityDim(t) == env.dim || t == Edge || t == Triangle || t == Quadrilateral
  }

  /** Entity `e` of a block: a cell of the main dimension, an edge, or a face. */
  function EntityStep(env: Env, t: EntityType, e: nat, verts: seq<int>, nodes: seq<real>, ctr: Counters): (r: Scattered)
    requires EnvWellFormed(env) && CountersOk(ctr) && |verts| == NumVerts(t)
    ensures |r.nodes| == |nodes|
    ensures r.ctr.cnt == ctr.cnt && r.ctr.lastVert == ctr.lastVert
    ensures r.status == Ok && Copied(env, t) ==> r.ctr.offset == ctr.offset + env.fec.dofFor(t)
    ensures DofCodes(r.status)
  {
    if EntityDim(t) == env.dim then
      CopyStep(env, t, Range(0, env.fec.dofFor(t)), env.space.elemDofs(ctr.cnt[env.dim] + e), nodes, ctr)
    else if t == Edge then EdgeStep(env, verts, nodes, ctr)
    else if t == Triangle then FaceStep(env, t, verts, TriangleNotFound, nodes, ctr)
    else if t == Quadrilateral then FaceStep(env, t, verts, QuadNotFound, nodes, ctr)
    else Scattered(nodes, ctr, Ok)
  }

  /** The entities `e ..` of a block, stopping at the first that fails. */
  function ScatterEntities(env: Env, t: EntityType, vs: seq<seq<int>>, e: nat, nodes: seq<real>, ctr: Counters): (r: Scattered)
    requires EnvWellFormed(env) && CountersOk(ctr)
    requires forall i :: 0 <= i < |vs| ==> |vs[i]| == NumVerts(t)
    decreases |vs| - e
    ensures |r.nodes| == |nodes|
    ensures r.ctr.cnt == ctr.cnt && r.ctr.lastVert == ctr.lastVert
    ensures DofCodes(r.status)
  {
    if e >= |vs| then Scattered(nodes, ctr, Ok)
    else
      var r := EntityStep(env, t, e, vs[e], nodes, ctr);
      if r.status != Ok then r else ScatterEntities(env, t, vs, e + 1, r.nodes, r.ctr)
  }

  // ---------------------------------------------------------------------
  // Blocks, parts, the component

  /**
   * One block of the main component.  A type without DOFs only counts its
   * entities (and, for vertices, records the vertex shift); otherwise the
   * id width and orientation checks come first, then the vertex, cell, or
   * edge and face copy, and the type's counter moves on by the block size.
   */
  function ScatterBlock(env: Env, t: EntityType, b: Block, nodes: seq<real>, ctr: Counters): (r: Scattered)
    requires EnvWellFormed(env) && CountersOk(ctr) && BlockWellFormed(t, b)
    ensures |r.nodes| == |nodes| && CountersOk(r.ctr)
    ensures DofCodes(r.status)
  {
    var k := env.fec.dofFor(t);
    var d := EntityDim(t);
    if b.num == 0 then Scattered(nodes, ctr, Ok)
    else if k == 0 then
      Scattered(nodes, Counters(ctr.offset, Bump(ctr.cnt, d, b.num), if t == Vertex then ctr.cnt[0] else ctr.lastVert), Ok)
    else if b.hasIds && !IdTypeOk(b.idType) then Scattered(nodes, ctr, Fail(DofIdType))
    else if b.hasOri then Scattered(nodes, ctr, Fail(DofOrientation))
    else if t == Vertex then VertexBlock(env, b.num, k, nodes, ctr)
    else if d != env.dim && (t == Tetrahedron || t == Hexahedron) then
      Scattered(nodes, ctr.(cnt := Bump(ctr.cnt, d, b.num)), Ok)
    else
      var vs := if d == env.dim then b.verts else Shift(b.verts, ctr.lastVert);
      var r := ScatterEntities(env, t, vs, 0, nodes, ctr);
      if r.status != Ok then r else r.(ctr := r.ctr.(cnt := Bump(r.ctr.cnt, d, b.num)))
  }

  /**
   * A block of `num` vertices with `k` DOFs each: their DOFs are consecutive
   * both in the FMS field, from the offset on, and in the node vector, from
   * the vertices counted so far on.
   */
  function VertexBlock(env: Env, num: nat, k: nat, nodes: seq<real>, ctr: Counters): (r: Scattered)
    requires EnvWellFormed(env) && CountersOk(ctr)
    ensures |r.nodes| == |nodes| && CountersOk(r.ctr) && !r.status.Fail?
    ensures r.status == Ok ==> r.ctr == Counters(ctr.offset + num * k, Bump(ctr.cnt, 0, num), ctr.cnt[0])
  {
    var dsts := Range(ctr.cnt[0] * k, num * k);
    var srcs := Range(ctr.offset, num * k);
    if !CopyInBounds(|nodes|, |env.data|, env.fmap, env.fmap, dsts, srcs, env.vdim) then Scattered(nodes, ctr, Undefined)
    else
      Scattered(CopyDofs(nodes, env.data, env.fmap, env.fmap, dsts, srcs, env.vdim, num * k),
                Counters(ctr.offset + num * k, Bump(ctr.cnt, 0, num), ctr.cnt[0]), Ok)
  }

  /** The types `ts` of one part, in order. */
  function ScatterTypes(env: Env, p: Part, ts: seq<EntityType>, nodes: seq<real>, ctr: Counters): (r: Scattered)
    requires EnvWellFormed(env) && CountersOk(ctr) && PartWellFormed(p)
    ensures |r.nodes| == |nodes| && CountersOk(r.ctr)
    ensures DofCodes(r.status)
  {
    if ts == [] then Scattered(nodes, ctr, Ok)
    else
      var r := ScatterBlock(env, ts[0], GetBlock(p, ts[0]), nodes, ctr);
      if r.status != Ok then r else ScatterTypes(env, p, ts[1..], r.nodes, r.ctr)
  }

  /** The parts `i ..` of the main component, each over all entity types. */
  function ScatterParts(env: Env, ps: seq<Part>, i: nat, nodes: seq<real>, ctr: Counters): (r: Scattered)
    requires EnvWellFormed(env) && CountersOk(ctr) && PartsWellFormed(ps)
    decreases |ps| - i
    ensures |r.nodes| == |nodes| && CountersOk(r.ctr)
    ensures DofCodes(r.status)
  {
    if i >= |ps| then Scattered(nodes, ctr, Ok)
    else
      var r := ScatterTypes(env, ps[i], EntityTypes, nodes, ctr);
      if r.status != Ok then r else ScatterParts(env, ps, i + 1, r.nodes, r.ctr)
  }

  // ---------------------------------------------------------------------
  // Accounting: how far the pass moves its counters

  /**
   * The FMS DOFs a block consumes: its entity count times the type's DOF
   * count, except for solids (tetrahedra and hexahedra) above the main
   * dimension, whose values are skipped without moving the offset.
   */
  function BlockDofs(env: Env, t: EntityType, b: Block): nat
  {
    if t != Vertex && !Copied(env, t) then 0 else b.num * env.fec.dofFor(t)
  }

  /** Every entity of a completed entity loop consumes the type's DOF count. */
  lemma {:induction false} ScatterEntitiesOffset(env: Env, t: EntityType, vs: seq<seq<int>>, e: nat, nodes: seq<real>, ctr: Counters)
    requires EnvWellFormed(env) && CountersOk(ctr) && Copied(env, t) && e <= |vs|
    requires forall i :: 0 <= i < |vs| ==> |vs[i]| == NumVerts(t)
    decreases |vs| - e
    ensures var r := ScatterEntities(env, t, vs, e, nodes, ctr);
      r.status == Ok ==> r.ctr.offset == ctr.offset + (|vs| - e) * env.fec.dofFor(t)
  {
    if e < |vs| {
      var s := EntityStep(env, t, e, vs[e], nodes, ctr);
      if s.status == Ok {
        ScatterEntitiesOffset(env, t, vs, e + 1, s.nodes, s.ctr);
        assert (|vs| - e) * env.fec.dofFor(t) == (|vs| - (e + 1)) * env.fec.dofFor(t) + env.fec.dofFor(t);
      }
    }
  }

  /** A completed block moves the offset by the DOFs it consumes and its dimension's counter by its size. */
  lemma ScatterBlockCounts(env: Env, t: EntityType, b: Block, nodes: seq<real>, ctr: Counters)
    requires EnvWellFormed(env) && CountersOk(ctr) && BlockWellFormed(t, b)
    ensures var r := ScatterBlock(env, t, b, nodes, ctr);
      r.status == Ok ==>
        r.ctr.offset == ctr.offset + BlockDofs(env, t, b) && r.ctr.cnt == Bump(ctr.cnt, EntityDim(t), b.num)
  {
    var k := env.fec.dofFor(t);
    var d := EntityDim(t);
    if b.num == 0 {
      assert Bump(ctr.cnt, d, 0) == ctr.cnt;
    } else if k != 0 && t != Vertex && Copied(env, t) {
      var vs := if d == env.dim then b.verts else Shift(b.verts, ctr.lastVert);
      ScatterEntitiesOffset(env, t, vs, 0, nodes, ctr);
    }
  }

  /** The DOFs the types `ts` of a part consume. */
  function TypesDofs(env: Env, p: Part, ts: seq<EntityType>): nat
  {
    if ts == [] then 0 else BlockDofs(env, ts[0], GetBlock(p, ts[0])) + TypesDofs(env, p, ts[1..])
  }

  /** The entities of dimension `d` among the types `ts` of a part. */
  function TypesEnts(p: Part, ts: seq<EntityType>, d: nat): nat
  {
    if ts == [] then 0
    else (if EntityDim(ts[0]) == d then GetBlock(p, ts[0]).num else 0) + TypesEnts(p, ts[1..], d)
  }

  /** A completed part moves the offset by its DOFs and each dimension's counter by its entities of that dimension. */
  lemma {:induction false} ScatterTypesCounts(env: Env, p: Part, ts: seq<EntityType>, nodes: seq<real>, ctr: Counters)
    requires EnvWellFormed(env) && CountersOk(ctr) && PartWellFormed(p)
    ensures var r := ScatterTypes(env, p, ts, nodes, ctr);
      r.status == Ok ==>
        && r.ctr.offset == ctr.offset + TypesDofs(env, p, ts)
        && forall d :: 0 <= d < 4 ==> r.ctr.cnt[d] == ctr.cnt[d] + TypesEnts(p, ts, d)
  {
    if ts != [] {
      var s := ScatterBlock(env, ts[0], GetBlock(p, ts[0]), nodes, ctr);
      ScatterBlockCounts(env, ts[0], GetBlock(p, ts[0]), nodes, ctr);
      if s.status == Ok {
        ScatterTypesCounts(env, p, ts[1..], s.nodes, s.ctr);
      }
    }
  }

  /** The DOFs the parts `i ..` consume. */
  function PartsDofs(env: Env, ps: seq<Part>, i: nat): nat
    decreases |ps| - i
  {
    if i >= |ps| then 0 else TypesDofs(env, ps[i], EntityTypes) + PartsDofs(env, ps, i + 1)
  }

  /** The entities of dimension `d` in the parts `i ..`. */
  function PartsEnts(ps: seq<Part>, i: nat, d: nat): nat
    decreases |ps| - i
  {
    if i >= |ps| then 0 else TypesEnts(ps[i], EntityTypes, d) + PartsEnts(ps, i + 1, d)
  }

  /**
   * A completed pass has read exactly the DOFs of all blocks, in order, and
   * counted every entity of the component once under its dimension.
   */
  lemma {:induction false} ScatterPartsCounts(env: Env, ps: seq<Part>, i: nat, nodes: seq<real>, ctr: Counters)
    requires EnvWellFormed(env) && CountersOk(ctr) && PartsWellFormed(ps)
    decreases |ps| - i
    ensures var r := ScatterParts(env, ps, i, nodes, ctr);
      r.status == Ok ==>
        && r.ctr.offset == ctr.offset + PartsDofs(env, ps, i)
        && forall d :: 0 <= d < 4 ==> r.ctr.cnt[d] == ctr.cnt[d] + PartsEnts(ps, i, d)
  {
    if i < |ps| {
      var s := ScatterTypes(env, ps[i], EntityTypes, nodes, ctr);
      ScatterTypesCounts(env, ps[i], EntityTypes, nodes, ctr);
      if s.status == Ok {
        ScatterPartsCounts(env, ps, i + 1, s.nodes, s.ctr);
      }
    }
  }

  /**
   * What one entity's copy does: when the entity's node slots are pairwise
   * distinct, component `j` of its DOF `dofs[i]` receives component `j` of
   * FMS DOF `offset + perm[i]`, and every other slot keeps its value.
   */
  lemma CopyStepEffect(env: Env, t: EntityType, perm: seq<nat>, dofs: seq<nat>, nodes: seq<real>, ctr: Counters, x: nat)
    requires CopyStep(env, t, perm, dofs, nodes, ctr).status == Ok
    requires SlotsDistinct(env.vmap, dofs, env.vdim, env.fec.dofFor(t)) && x < |nodes|
    ensures var r := CopyStep(env, t, perm, dofs, nodes, ctr);
      && (forall i, j :: 0 <= i < env.fec.dofFor(t) && 0 <= j < env.vdim && x == env.vmap.Index(dofs[i], j) ==>
            r.nodes[x] == env.data[env.fmap.Index(ctr.offset + perm[i], j)])
      && ((forall i, j :: 0 <= i < env.fec.dofFor(t) && 0 <= j < env.vdim ==> x != env.vmap.Index(dofs[i], j)) ==>
            r.nodes[x] == nodes[x])
  {
    var k := env.fec.dofFor(t);
    var dsts := dofs[..k];
    var srcs := Shifted(perm[..k], ctr.offset);
    assert SlotsDistinct(env.vmap, dsts, env.vdim, k);
    CopyDofsEffect(nodes, env.data, env.vmap, env.fmap, dsts, srcs, env.vdim, k, x);
  }

  // ---------------------------------------------------------------------
  // The loops

  /** The tables the pass looks ids up in hold exactly the environment's keys. */
  ghost predicate TablesMatch(env: Env, edges: HashTable<Hashed2>, faces: HashTable<Hashed4>)
    reads edges, faces
  {
    edges.Valid() && faces.Valid() && edges.keys == env.edgeKeys && faces.keys == env.faceKeys
  }

  /** The DOF/component loops of one entity. */
  method CopyStepInto(env: Env, t: EntityType, perm: seq<nat>, dofs: seq<nat>, nodes: array<real>, ctr: Counters)
    returns (ctr': Counters, status: Status)
    requires CopyStep(env, t, perm, dofs, nodes[..], ctr).status != Undefined
    modifies nodes
    ensures Scattered(nodes[..], ctr', status) == CopyStep(env, t, perm, dofs, old(nodes[..]), ctr)
  {
    var k := env.fec.dofFor(t);
    var dsts := dofs[..k];
    var srcs := Shifted(perm[..k], ctr.offset);
    CopyEntity(nodes, env.data, env.vmap, env.fmap, dsts, srcs, env.vdim);
    return ctr.(offset := ctr.offset + k), Ok;
  }

  method EdgeStepInto(env: Env, edges: HashTable<Hashed2>, faces: HashTable<Hashed4>, ev: seq<int>, nodes: array<real>, ctr: Counters)
    returns (ctr': Counters, status: Status)
    requires EnvWellFormed(env) && TablesMatch(env, edges, faces) && |ev| == 2
    requires EdgeStep(env, ev, nodes[..], ctr).status != Undefined
    modifies nodes
    ensures Scattered(nodes[..], ctr', status) == EdgeStep(env, ev, old(nodes[..]), ctr)
  {
    var id := edges.FindId(EdgeKey(ev[0], ev[1]));
    if id < 0 {
      return ctr, Fail(EdgeNotFound);
    }
    var ori := EdgeOri(ev, env.topo.edges[id]);
    ctr', status := CopyStepInto(env, Edge, env.fec.perm(Edge, ori), env.space.edgeDofs(id), nodes, ctr);
  }

  method FaceStepInto(env: Env, edges: HashTable<Hashed2>, faces: HashTable<Hashed4>, t: EntityType, fv: seq<int>, notFound: Error,
                      nodes: array<real>, ctr: Counters)
    returns (ctr': Counters, status: Status)
    requires EnvWellFormed(env) && TablesMatch(env, edges, faces) && (|fv| == 3 || |fv| == 4)
    requires FaceStep(env, t, fv, notFound, nodes[..], ctr).status != Undefined
    modifies nodes
    ensures Scattered(nodes[..], ctr', status) == FaceStep(env, t, fv, notFound, old(nodes[..]), ctr)
  {
    var id := faces.FindId(FaceKeyOf(fv));
    if id < 0 {
      return ctr, Fail(notFound);
    }
    var ori := FaceOrientation(fv, env.topo.faces[id]);
    ctr', status := CopyStepInto(env, t, env.fec.perm(t, ori), env.space.faceDofs(id), nodes, ctr);
  }

  /** One entity: the cell copy, or the edge or face lookup and copy. */
  method EntityStepInto(env: Env, edges: HashTable<Hashed2>, faces: HashTable<Hashed4>, t: EntityType, e: nat, verts: seq<int>,
                        nodes: array<real>, ctr: Counters)
    returns (ctr': Counters, status: Status)
    requires EnvWellFormed(env) && TablesMatch(env, edges, faces) && CountersOk(ctr) && |verts| == NumVerts(t)
    requires EntityStep(env, t, e, verts, nodes[..], ctr).status != Undefined
    modifies nodes
    ensures Scattered(nodes[..], ctr', status) == EntityStep(env, t, e, verts, old(nodes[..]), ctr)
  {
    if EntityDim(t) == env.dim {
      ctr', status := CopyStepInto(env, t, Range(0, env.fec.dofFor(t)), env.space.elemDofs(ctr.cnt[env.dim] + e), nodes, ctr);
    } else if t == Edge {
      ctr', status := EdgeStepInto(env, edges, faces, verts, nodes, ctr);
    } else if t == Triangle {
      ctr', status := FaceStepInto(env, edges, faces, t, verts, TriangleNotFound, nodes, ctr);
    } else if t == Quadrilateral {
      ctr', status := FaceStepInto(env, edges, faces, t, verts, QuadNotFound, nodes, ctr);
    } else {
      ctr', status := ctr, Ok;
    }
  }

  /** The entity loop of one block. */
  method ScatterEntitiesInto(env: Env, edges: HashTable<Hashed2>, faces: HashTable<Hashed4>, t: EntityType, vs: seq<seq<int>>,
                             nodes: array<real>, ctr: Counters)
    returns (ctr': Counters, status: Status)
    requires EnvWellFormed(env) && TablesMatch(env, edges, faces) && CountersOk(ctr)
    requires forall i :: 0 <= i < |vs| ==> |vs[i]| == NumVerts(t)
    requires ScatterEntities(env, t, vs, 0, nodes[..], ctr).status != Undefined
    modifies nodes
    ensures Scattered(nodes[..], ctr', status) == ScatterEntities(env, t, vs, 0, old(nodes[..]), ctr)
  {
    ghost var whole := ScatterEntities(env, t, vs, 0, nodes[..], ctr);
    ctr' := ctr;
    var e := 0;
    while e < |vs|
      invariant e <= |vs| && CountersOk(ctr')
      invariant whole == ScatterEntities(env, t, vs, e, nodes[..], ctr')
    {
      ctr', status := EntityStepInto(env, edges, faces, t, e, vs[e], nodes, ctr');
      if status != Ok {
        return;
      }
      e := e + 1;
    }
    return ctr', Ok;
  }

  /** One block of the DOF pass. */
  method ScatterBlockInto(env: Env, edges: HashTable<Hashed2>, faces: HashTable<Hashed4>, t: EntityType, b: Block,
                          nodes: array<real>, ctr: Counters)
    returns (ctr': Counters, status: Status)
    requires EnvWellFormed(env) && TablesMatch(env, edges, faces) && CountersOk(ctr) && BlockWellFormed(t, b)
    requires ScatterBlock(env, t, b, nodes[..], ctr).status != Undefined
    modifies nodes
    ensures Scattered(nodes[..], ctr', status) == ScatterBlock(env, t, b, old(nodes[..]), ctr)
  {
    var k := env.fec.dofFor(t);
    var d := EntityDim(t);
    if b.num == 0 {
      return ctr, Ok;
    }
    if k == 0 {
      var last := if t == Vertex then ctr.cnt[0] else ctr.lastVert;
      return Counters(ctr.offset, Bump(ctr.cnt, d, b.num), last), Ok;
    }
    if b.hasIds && !IdTypeOk(b.idType) {
      return ctr, Fail(DofIdType);
    }
    if b.hasOri {
      return ctr, Fail(DofOrientation);
    }
    if t == Vertex {
      ctr', status := VertexBlockInto(env, b.num, k, nodes, ctr);
      return;
    }
    if d != env.dim && (t == Tetrahedron || t == Hexahedron) {
      return ctr.(cnt := Bump(ctr.cnt, d, b.num)), Ok;
    }
    var vs := if d == env.dim then b.verts else Shift(b.verts, ctr.lastVert);
    ctr', status := ScatterEntitiesInto(env, edges, faces, t, vs, nodes, ctr);
    if status != Ok {
      return;
    }
    ctr' := ctr'.(cnt := Bump(ctr'.cnt, d, b.num));
  }

  /** The copy of a vertex block. */
  method VertexBlockInto(env: Env, num: nat, k: nat, nodes: array<real>, ctr: Counters)
    returns (ctr': Counters, status: Status)
    requires EnvWellFormed(env) && CountersOk(ctr)
    requires VertexBlock(env, num, k, nodes[..], ctr).status != Undefined
    modifies nodes
    ensures Scattered(nodes[..], ctr', status) == VertexBlock(env, num, k, old(nodes[..]), ctr)
  {
    var dsts := Range(ctr.cnt[0] * k, num * k);
    var srcs := Range(ctr.offset, num * k);
    CopyEntity(nodes, env.data, env.fmap, env.fmap, dsts, srcs, env.vdim);
    return Counters(ctr.offset + num * k, Bump(ctr.cnt, 0, num), ctr.cnt[0]), Ok;
  }

  /** One step of the type walk, with the types still to go as a suffix of the walk order. */
  lemma ScatterTypesStep(env: Env, p: Part, k: nat, nodes: seq<real>, ctr: Counters)
    requires EnvWellFormed(env) && CountersOk(ctr) && PartWellFormed(p) && k < |EntityTypes|
    ensures var r := ScatterBlock(env, EntityTypes[k], GetBlock(p, EntityTypes[k]), nodes, ctr);
      ScatterTypes(env, p, EntityTypes[k..], nodes, ctr) ==
        if r.status != Ok then r else ScatterTypes(env, p, EntityTypes[k + 1..], r.nodes, r.ctr)
  {
    assert EntityTypes[k..][0] == EntityTypes[k] && EntityTypes[k..][1..] == EntityTypes[k + 1..];
  }

  /** The entity-type loop of one part. */
  method ScatterPartInto(env: Env, edges: HashTable<Hashed2>, faces: HashTable<Hashed4>, p: Part, nodes: array<real>, ctr: Counters)
    returns (ctr': Counters, status: Status)
    requires EnvWellFormed(env) && TablesMatch(env, edges, faces) && CountersOk(ctr) && PartWellFormed(p)
    requires ScatterTypes(env, p, EntityTypes, nodes[..], ctr).status != Undefined
    modifies nodes
    ensures Scattered(nodes[..], ctr', status) == ScatterTypes(env, p, EntityTypes, old(nodes[..]), ctr)
  {
    ghost var whole := ScatterTypes(env, p, EntityTypes, nodes[..], ctr);
    assert EntityTypes[0..] == EntityTypes;
    ctr' := ctr;
    var k := 0;
    while k < |EntityTypes|
      invariant k <= |EntityTypes| && CountersOk(ctr')
      invariant whole == ScatterTypes(env, p, EntityTypes[k..], nodes[..], ctr')
    {
      var t := EntityTypes[k];
      ScatterTypesStep(env, p, k, nodes[..], ctr');
      ctr', status := ScatterBlockInto(env, edges, faces, t, GetBlock(p, t), nodes, ctr');
      if status != Ok {
        return;
      }
      k := k + 1;
    }
    return ctr', Ok;
  }

  /**
   * The part loop of the DOF pass: the node vector and the counters end as
   * the walk specifies, and the status names the first failure, if any.
   */
  method ScatterComponent(env: Env, edges: HashTable<Hashed2>, faces: HashTable<Hashed4>, ps: seq<Part>, nodes: array<real>, ctr: Counters)
    returns (ctr': Counters, status: Status)
    requires EnvWellFormed(env) && TablesMatch(env, edges, faces) && CountersOk(ctr) && PartsWellFormed(ps)
    requires ScatterParts(env, ps, 0, nodes[..], ctr).status != Undefined
    modifies nodes
    ensures Scattered(nodes[..], ctr', status) == ScatterParts(env, ps, 0, old(nodes[..]), ctr)
  {
    ghost var whole := ScatterParts(env, ps, 0, nodes[..], ctr);
    ctr' := ctr;
    var i := 0;
    while i < |ps|
      invariant i <= |ps| && CountersOk(ctr')
      invariant whole == ScatterParts(env, ps, i, nodes[..], ctr')
    {
      ctr', status := ScatterPartInto(env, edges, faces, ps[i], nodes, ctr');
      if status != Ok {
        return;
      }
      i := i + 1;
    }
    return ctr', Ok;
  }
}
