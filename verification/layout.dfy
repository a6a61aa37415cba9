/**
 * Where the value of component `j` of DOF `d` lives in a flat vector, and the
 * DOF copy that the DOF pass performs for one entity: for every interior DOF
 * `i` and component `j`, the source value of DOF `srcs[i]` goes to the node
 * slot of DOF `dsts[i]`.
 */
module Layout {
  import opened Fms

  /** Slot of (DOF d, component j) is `d * nstride + j * vstride`. */
  datatype DofMap = DofMap(nstride: nat, vstride: nat)
  {
    function Index(d: nat, j: nat): nat
    {
      d * nstride + j * vstride
    }
  }

  /**
   * The stride choice of the converter: interleaved (BY_VDIM) puts the
   * components of one DOF next to each other, blocked (BY_NODES) puts all
   * DOFs of one component together.
   */
  function Strides(layout: LayoutType, vdim: nat, ndofs: nat): (m: DofMap)
    ensures layout == ByVDim ==> m == DofMap(vdim, 1)
    ensures layout == ByNodes ==> m == DofMap(1, ndofs)
  {
    if layout == ByVDim then DofMap(vdim, 1) else DofMap(1, ndofs)
  }

  lemma MulMono(a: nat, b: nat, n: nat)
    requires a < b
    ensures a * n + n <= b * n
  {
    var k := b - a - 1;
    assert b * n == a * n + n + k * n;
    assert k * n >= 0;
  }

  /** Slots `hi * w + lo` with `lo < w` are ordered by `hi` first. */
  lemma SlotOrder(hi1: nat, lo1: nat, hi2: nat, lo2: nat, w: nat)
    requires hi1 < hi2 && lo1 < w
    ensures hi1 * w + lo1 < hi2 * w + lo2
  {
    MulMono(hi1, hi2, w);
  }

  /** Either layout puts the `vdim * ndofs` (DOF, component) pairs in distinct slots below `vdim * ndofs`. */
  lemma StridesBijective(layout: LayoutType, vdim: nat, ndofs: nat, d1: nat, j1: nat, d2: nat, j2: nat)
    requires d1 < ndofs && d2 < ndofs && j1 < vdim && j2 < vdim
    ensures Strides(layout, vdim, ndofs).Index(d1, j1) < vdim * ndofs
    ensures (Strides(layout, vdim, ndofs).Index(d1, j1) == Strides(layout, vdim, ndofs).Index(d2, j2)) ==>
      d1 == d2 && j1 == j2
  {
    var m := Strides(layout, vdim, ndofs);
    if layout == ByVDim {
      // interleaved: DOF major, component minor
      assert m.Index(d1, j1) == d1 * vdim + j1 && m.Index(d2, j2) == d2 * vdim + j2;
      SlotOrder(d1, j1, ndofs, 0, vdim);
      assert ndofs * vdim == vdim * ndofs;
      if d1 < d2 { SlotOrder(d1, j1, d2, j2, vdim); }
      if d2 < d1 { SlotOrder(d2, j2, d1, j1, vdim); }
    } else {
      // blocked: component major, DOF minor
      assert m.Index(d1, j1) == j1 * ndofs + d1 && m.Index(d2, j2) == j2 * ndofs + d2;
      SlotOrder(j1, d1, vdim, 0, ndofs);
      if j1 < j2 { SlotOrder(j1, d1, j2, d2, ndofs); }
      if j2 < j1 { SlotOrder(j2, d2, j1, d1, ndofs); }
    }
  }

  /** The copy stays inside both vectors. */
  predicate CopyInBounds(nodesLen: nat, dataLen: nat, dm: DofMap, sm: DofMap,
                         dsts: seq<nat>, srcs: seq<nat>, vdim: nat)
  {
    && |dsts| == |srcs|
    && forall i, j :: 0 <= i < |dsts| && 0 <= j < vdim ==>
         dm.Index(dsts[i], j) < nodesLen && sm.Index(srcs[i], j) < dataLen
  }

  /** The node vector after copying components 0 .. m-1 of one DOF. */
  function CopyRow(nodes: seq<real>, data: seq<real>, dm: DofMap, sm: DofMap, d: nat, s: nat, m: nat): (r: seq<real>)
    requires forall j :: 0 <= j < m ==> dm.Index(d, j) < |nodes| && sm.Index(s, j) < |data|
    ensures |r| == |nodes|
  {
    if m == 0 then nodes
    else CopyRow(nodes, data, dm, sm, d, s, m - 1)[dm.Index(d, m - 1) := data[sm.Index(s, m - 1)]]
  }

  /** The node vector after copying the first `n` DOFs of an entity, all components each. */
  function CopyDofs(nodes: seq<real>, data: seq<real>, dm: DofMap, sm: DofMap,
                    dsts: seq<nat>, srcs: seq<nat>, vdim: nat, n: nat): (r: seq<real>)
    requires CopyInBounds(|nodes|, |data|, dm, sm, dsts, srcs, vdim) && n <= |dsts|
    ensures |r| == |nodes|
  {
    if n == 0 then nodes
    else CopyRow(CopyDofs(nodes, data, dm, sm, dsts, srcs, vdim, n - 1), data, dm, sm, dsts[n - 1], srcs[n - 1], vdim)
  }

  /** The slots of DOFs `0 .. n-1` are pairwise distinct. */
  predicate SlotsDistinct(dm: DofMap, dsts: seq<nat>, vdim: nat, n: nat)
    requires n <= |dsts|
  {
    forall i1, j1, i2, j2 ::
      (0 <= i1 < n && 0 <= i2 < n && 0 <= j1 < vdim && 0 <= j2 < vdim && (i1 != i2 || j1 != j2)) ==>
        dm.Index(dsts[i1], j1) != dm.Index(dsts[i2], j2)
  }

  /** A row copy writes exactly the slots of its components. */
  lemma {:induction false} CopyRowEffect(nodes: seq<real>, data: seq<real>, dm: DofMap, sm: DofMap, d: nat, s: nat, m: nat, x: nat)
    requires forall j :: 0 <= j < m ==> dm.Index(d, j) < |nodes| && sm.Index(s, j) < |data|
    requires forall j1, j2 :: 0 <= j1 < j2 < m ==> dm.Index(d, j1) != dm.Index(d, j2)
    requires x < |nodes|
    ensures (forall j :: 0 <= j < m ==> x != dm.Index(d, j)) ==> CopyRow(nodes, data, dm, sm, d, s, m)[x] == nodes[x]
    ensures forall j :: 0 <= j < m && x == dm.Index(d, j) ==> CopyRow(nodes, data, dm, sm, d, s, m)[x] == data[sm.Index(s, j)]
  {
    if m > 0 {
      CopyRowEffect(nodes, data, dm, sm, d, s, m - 1, x);
    }
  }

  /**
   * When no two (DOF, component) pairs share a slot, the copy puts the
   * source value of component `j` of DOF `srcs[i]` into the slot of
   * component `j` of DOF `dsts[i]`, and leaves every other slot alone.
   */
  lemma {:induction false} CopyDofsEffect(nodes: seq<real>, data: seq<real>, dm: DofMap, sm: DofMap,
                                          dsts: seq<nat>, srcs: seq<nat>, vdim: nat, n: nat, x: nat)
    requires CopyInBounds(|nodes|, |data|, dm, sm, dsts, srcs, vdim) && n <= |dsts|
    requires SlotsDistinct(dm, dsts, vdim, n)
    requires x < |nodes|
    ensures (forall i, j :: 0 <= i < n && 0 <= j < vdim ==> x != dm.Index(dsts[i], j)) ==>
              CopyDofs(nodes, data, dm, sm, dsts, srcs, vdim, n)[x] == nodes[x]
    ensures forall i, j :: 0 <= i < n && 0 <= j < vdim && x == dm.Index(dsts[i], j) ==>
              CopyDofs(nodes, data, dm, sm, dsts, srcs, vdim, n)[x] == data[sm.Index(srcs[i], j)]
  {
    if n > 0 {
      var prev := CopyDofs(nodes, data, dm, sm, dsts, srcs, vdim, n - 1);
      CopyDofsEffect(nodes, data, dm, sm, dsts, srcs, vdim, n - 1, x);
      CopyRowEffect(prev, data, dm, sm, dsts[n - 1], srcs[n - 1], vdim, x);
    }
  }

  /** The nested DOF/component loops that copy one entity's values into the node vector. */
  method CopyEntity(nodes: array<real>, data: seq<real>, dm: DofMap, sm: DofMap,
                    dsts: seq<nat>, srcs: seq<nat>, vdim: nat)
    requires CopyInBounds(nodes.Length, |data|, dm, sm, dsts, srcs, vdim)
    modifies nodes
    ensures nodes[..] == CopyDofs(old(nodes[..]), data, dm, sm, dsts, srcs, vdim, |dsts|)
  {
    ghost var start := nodes[..];
    var i := 0;
    while i < |dsts|
      invariant i <= |dsts|
      invariant nodes[..] == CopyDofs(start, data, dm, sm, dsts, srcs, vdim, i)
    {
      var j := 0;
      ghost var before := nodes[..];
      while j < vdim
        invariant j <= vdim
        invariant nodes[..] == CopyRow(before, data, dm, sm, dsts[i], srcs[i], j)
      {
        nodes[dm.Index(dsts[i], j)] := data[sm.Index(srcs[i], j)];
        j := j + 1;
      }
      i := i + 1;
    }
  }
}
