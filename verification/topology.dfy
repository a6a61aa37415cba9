/**
 * The topology pass of FmsMeshToMesh: walking the parts of a component and,
 * within each part, the entity types in order, appending the cells of the
 * main component (dimension `dim`) to the element list or the facets of the
 * boundary component (dimension `dim - 1`) to the boundary list, each with
 * its tag attribute or 1.
 *
 * The specification threads the list being built: each function takes the
 * list as it stands and returns the list after its stretch of the walk,
 * together with how the stretch ended.
 */
module Topology {
  import opened Fms
  import opened Errors
  import opened MfemMesh

  /** The attribute of the entity appended at list position `k`: `attr[k]` when there is a tag, 1 otherwise. */
  function AttrAt(attr: Option<seq<int>>, k: nat): int
    requires attr.Some? ==> k < |attr.value|
  {
    if attr.Some? then attr.value[k] else 1
  }

  /** The types a pass looks at: dimension `dim` for cells, `dim - 1` for boundary facets. */
  predicate Considered(t: EntityType, d: nat, bdr: bool)
  {
    if bdr then EntityDim(t) + 1 == d else EntityDim(t) == d
  }

  /** The types a pass has an insertion primitive for (the others fall to the switch's default). */
  predicate Insertable(t: EntityType, bdr: bool)
  {
    if bdr then t == Edge || t == Triangle || t == Quadrilateral
    else t == Triangle || t == Quadrilateral || t == Tetrahedron || t == Hexahedron
  }

  /** Entity ids are read as 32-bit integers, signed or not. */
  predicate IdTypeOk(it: IntType)
  {
    it == Int32 || it == UInt32
  }

  /** The failures the topology passes report: codes 3 to 7. */
  predicate InsertCodes(s: Status)
  {
    s.Fail? ==> s.error in {ElemIdType, ElemOrientation, EdgeCell, BdrIdType, BdrOrientation}
  }

  /** The list after a stretch of the walk, and how the stretch ended. */
  datatype Inserted = Inserted(elems: seq<Element>, status: Status)

  /** `list` with the first `n` entities of a block appended, each with the attribute of the position it lands at. */
  function AddEntities(t: EntityType, b: Block, attr: Option<seq<int>>, list: seq<Element>, n: nat): (r: seq<Element>)
    requires n <= |b.verts|
    requires attr.Some? ==> |list| + n <= |attr.value|
    ensures |r| == |list| + n
  {
    if n == 0 then list
    else AddEntities(t, b, attr, list, n - 1) + [Element(t, b.verts[n - 1], AttrAt(attr, |list| + n - 1))]
  }

  /** One block: its checks, then one element per entity. */
  function InsertBlock(t: EntityType, b: Block, d: nat, bdr: bool, attr: Option<seq<int>>, list: seq<Element>): (r: Inserted)
    requires BlockWellFormed(t, b)
    ensures r.status != Ok ==> r.elems == list
    ensures InsertCodes(r.status)
  {
    if !Considered(t, d, bdr) || b.num == 0 then Inserted(list, Ok)
    else if b.hasIds && !IdTypeOk(b.idType) then Inserted(list, Fail(if bdr then BdrIdType else ElemIdType))
    else if b.hasOri then Inserted(list, Fail(if bdr then BdrOrientation else ElemOrientation))
    else if !bdr && t == Edge then Inserted(list, Fail(EdgeCell))
    else if !Insertable(t, bdr) then Inserted(list, Ok)
    else if attr.Some? && |list| + b.num > |attr.value| then Inserted(list, Undefined)
    else Inserted(AddEntities(t, b, attr, list, b.num), Ok)
  }

  /** The types `ts` of one part, in order; the walk stops at the first failing block. */
  function InsertTypes(p: Part, ts: seq<EntityType>, d: nat, bdr: bool, attr: Option<seq<int>>, list: seq<Element>): (r: Inserted)
    requires PartWellFormed(p)
    ensures InsertCodes(r.status)
  {
    if ts == [] then Inserted(list, Ok)
    else
      var r := InsertBlock(ts[0], GetBlock(p, ts[0]), d, bdr, attr, list);
      if r.status != Ok then r else InsertTypes(p, ts[1..], d, bdr, attr, r.elems)
  }

  /** The parts `i ..` of a component, each walked over all entity types. */
  function InsertParts(ps: seq<Part>, i: nat, d: nat, bdr: bool, attr: Option<seq<int>>, list: seq<Element>): (r: Inserted)
    requires PartsWellFormed(ps)
    decreases |ps| - i
    ensures InsertCodes(r.status)
  {
    if i >= |ps| then Inserted(list, Ok)
    else
      var r := InsertTypes(ps[i], EntityTypes, d, bdr, attr, list);
      if r.status != Ok then r else InsertParts(ps, i + 1, d, bdr, attr, r.elems)
  }

  // ---------------------------------------------------------------------
  // What the walk promises

  /**
   * `after` keeps `before` as its prefix, and every element appended after it
   * carries the attribute of its own position in the list (the converter
   * reads `attr[GetNE() + i]` for the `i`-th entity of a block).
   */
  ghost predicate Extends(before: seq<Element>, after: seq<Element>, attr: Option<seq<int>>)
  {
    && |before| <= |after|
    && after[..|before|] == before
    && forall n: nat :: |before| <= n < |after| ==>
         (attr.Some? ==> n < |attr.value|) && after[n].attr == AttrAt(attr, n)
  }

  lemma ExtendsTrans(a: seq<Element>, b: seq<Element>, c: seq<Element>, attr: Option<seq<int>>)
    requires Extends(a, b, attr) && Extends(b, c, attr)
    ensures Extends(a, c, attr)
  {
    assert c[..|a|] == a by {
      assert c[..|a|] == c[..|b|][..|a|];
    }
    forall n: nat
      ensures |a| <= n < |c| ==> (attr.Some? ==> n < |attr.value|) && c[n].attr == AttrAt(attr, n)
    {
      if |a| <= n < |b| {
        ExtendsAt(a, b, attr, n);
        assert c[n] == c[..|b|][n];
      } else if |b| <= n < |c| {
        ExtendsAt(b, c, attr, n);
      }
    }
  }

  /** One appended position of an extension. */
  lemma ExtendsAt(before: seq<Element>, after: seq<Element>, attr: Option<seq<int>>, n: nat)
    requires Extends(before, after, attr)
    requires |before| <= n < |after|
    ensures (attr.Some? ==> n < |attr.value|) && after[n].attr == AttrAt(attr, n)
  {
  }

  /** The `n`-th appended element is the block's `n`-th entity, with the block's geometry and the attribute of its position. */
  lemma {:induction false} AddEntitiesElements(t: EntityType, b: Block, attr: Option<seq<int>>, list: seq<Element>, n: nat)
    requires n <= |b.verts|
    requires attr.Some? ==> |list| + n <= |attr.value|
    ensures var r := AddEntities(t, b, attr, list, n);
      && r[..|list|] == list
      && forall m :: |list| <= m < |r| ==> r[m] == Element(t, b.verts[m - |list|], AttrAt(attr, m))
  {
    if n > 0 {
      AddEntitiesElements(t, b, attr, list, n - 1);
      var prev := AddEntities(t, b, attr, list, n - 1);
      assert AddEntities(t, b, attr, list, n)[..|prev|] == prev;
    }
  }

  /**
   * The checks of one block, in the converter's order: an unsupported id
   * width, then an orientation array, then an edge block given as
   * top-dimensional cells; empty blocks and types of another dimension are
   * passed over, and a block that passes appends exactly its entities.
   */
  lemma InsertBlockChecks(t: EntityType, b: Block, d: nat, bdr: bool, attr: Option<seq<int>>, list: seq<Element>)
    requires BlockWellFormed(t, b)
    ensures var r := InsertBlock(t, b, d, bdr, attr, list);
      && (r.status == Fail(if bdr then BdrIdType else ElemIdType) <==>
            Considered(t, d, bdr) && b.num > 0 && b.hasIds && !IdTypeOk(b.idType))
      && (r.status == Fail(if bdr then BdrOrientation else ElemOrientation) <==>
            Considered(t, d, bdr) && b.num > 0 && !(b.hasIds && !IdTypeOk(b.idType)) && b.hasOri)
      && (r.status == Fail(EdgeCell) <==>
            !bdr && t == Edge && d == 1 && b.num > 0 && !(b.hasIds && !IdTypeOk(b.idType)) && !b.hasOri)
      && (r.status == Ok ==> |r.elems| == |list| + (if Considered(t, d, bdr) && Insertable(t, bdr) then b.num else 0))
  {
  }

  /** A block keeps the list as its prefix and appends elements carrying the attributes of their positions. */
  lemma InsertBlockExtends(t: EntityType, b: Block, d: nat, bdr: bool, attr: Option<seq<int>>, list: seq<Element>)
    requires BlockWellFormed(t, b)
    ensures Extends(list, InsertBlock(t, b, d, bdr, attr, list).elems, attr)
  {
    var r := InsertBlock(t, b, d, bdr, attr, list);
    if r.elems != list {
      AddEntitiesElements(t, b, attr, list, b.num);
    }
  }

  lemma {:induction false} InsertTypesExtends(p: Part, ts: seq<EntityType>, d: nat, bdr: bool, attr: Option<seq<int>>, list: seq<Element>)
    requires PartWellFormed(p)
    ensures Extends(list, InsertTypes(p, ts, d, bdr, attr, list).elems, attr)
  {
    if ts != [] {
      var r := InsertBlock(ts[0], GetBlock(p, ts[0]), d, bdr, attr, list);
      InsertBlockExtends(ts[0], GetBlock(p, ts[0]), d, bdr, attr, list);
      if r.status == Ok {
        InsertTypesExtends(p, ts[1..], d, bdr, attr, r.elems);
        ExtendsTrans(list, r.elems, InsertTypes(p, ts[1..], d, bdr, attr, r.elems).elems, attr);
      }
    }
  }

  /**
   * A pass never disturbs the elements already in the list, and each element
   * it appends at position `n` carries `attr[n]`, or 1 without a tag.
   */
  lemma {:induction false} InsertPartsExtends(ps: seq<Part>, i: nat, d: nat, bdr: bool, attr: Option<seq<int>>, list: seq<Element>)
    requires PartsWellFormed(ps)
    decreases |ps| - i
    ensures Extends(list, InsertParts(ps, i, d, bdr, attr, list).elems, attr)
  {
    if i < |ps| {
      var r := InsertTypes(ps[i], EntityTypes, d, bdr, attr, list);
      InsertTypesExtends(ps[i], EntityTypes, d, bdr, attr, list);
      if r.status == Ok {
        InsertPartsExtends(ps, i + 1, d, bdr, attr, r.elems);
        ExtendsTrans(list, r.elems, InsertParts(ps, i + 1, d, bdr, attr, r.elems).elems, attr);
      }
    }
  }

  /** The number of entities the types `ts` of a part would append. */
  function CountTypes(p: Part, ts: seq<EntityType>, d: nat, bdr: bool): nat
  {
    if ts == [] then 0
    else (if Considered(ts[0], d, bdr) && Insertable(ts[0], bdr) then GetBlock(p, ts[0]).num else 0) + CountTypes(p, ts[1..], d, bdr)
  }

  /** The number of entities the parts `i ..` would append. */
  function CountParts(ps: seq<Part>, i: nat, d: nat, bdr: bool): nat
    decreases |ps| - i
  {
    if i >= |ps| then 0 else CountTypes(ps[i], EntityTypes, d, bdr) + CountParts(ps, i + 1, d, bdr)
  }

  /** A part walk that succeeds appends exactly the entities of the types it inserts. */
  lemma {:induction false} InsertTypesCount(p: Part, ts: seq<EntityType>, d: nat, bdr: bool, attr: Option<seq<int>>, list: seq<Element>)
    requires PartWellFormed(p)
    ensures var r := InsertTypes(p, ts, d, bdr, attr, list);
      r.status == Ok ==> |r.elems| == |list| + CountTypes(p, ts, d, bdr)
  {
    if ts != [] {
      var r := InsertBlock(ts[0], GetBlock(p, ts[0]), d, bdr, attr, list);
      InsertBlockChecks(ts[0], GetBlock(p, ts[0]), d, bdr, attr, list);
      if r.status == Ok {
        InsertTypesCount(p, ts[1..], d, bdr, attr, r.elems);
      }
    }
  }

  /** A component walk that succeeds appends exactly the entities of the types it inserts, over all parts. */
  lemma {:induction false} InsertPartsCount(ps: seq<Part>, i: nat, d: nat, bdr: bool, attr: Option<seq<int>>, list: seq<Element>)
    requires PartsWellFormed(ps)
    decreases |ps| - i
    ensures var r := InsertParts(ps, i, d, bdr, attr, list);
      r.status == Ok ==> |r.elems| == |list| + CountParts(ps, i, d, bdr)
  {
    if i < |ps| {
      var r := InsertTypes(ps[i], EntityTypes, d, bdr, attr, list);
      InsertTypesCount(ps[i], EntityTypes, d, bdr, attr, list);
      if r.status == Ok {
        InsertPartsCount(ps, i + 1, d, bdr, attr, r.elems);
      }
    }
  }

  lemma {:induction false} InsertTypesDefined(p: Part, ts: seq<EntityType>, d: nat, bdr: bool, attr: Option<seq<int>>, list: seq<Element>)
    requires PartWellFormed(p)
    requires attr.Some? ==> |list| + CountTypes(p, ts, d, bdr) <= |attr.value|
    ensures var r := InsertTypes(p, ts, d, bdr, attr, list);
      r.status != Undefined && |r.elems| <= |list| + CountTypes(p, ts, d, bdr) &&
      (r.status == Ok ==> |r.elems| == |list| + CountTypes(p, ts, d, bdr))
  {
    if ts != [] {
      var r := InsertBlock(ts[0], GetBlock(p, ts[0]), d, bdr, attr, list);
      InsertBlockChecks(ts[0], GetBlock(p, ts[0]), d, bdr, attr, list);
      if r.status == Ok {
        InsertTypesDefined(p, ts[1..], d, bdr, attr, r.elems);
      }
    }
  }

  /**
   * The converter does not compare a tag's length with the entity count; a
   * tag at least as long as the list the pass builds keeps every attribute
   * read inside the tag, and a pass that succeeds appends exactly the
   * entities of the types it inserts.
   */
  lemma {:induction false} InsertPartsDefined(ps: seq<Part>, i: nat, d: nat, bdr: bool, attr: Option<seq<int>>, list: seq<Element>)
    requires PartsWellFormed(ps)
    requires attr.Some? ==> |list| + CountParts(ps, i, d, bdr) <= |attr.value|
    decreases |ps| - i
    ensures var r := InsertParts(ps, i, d, bdr, attr, list);
      r.status != Undefined && |r.elems| <= |list| + CountParts(ps, i, d, bdr) &&
      (r.status == Ok ==> |r.elems| == |list| + CountParts(ps, i, d, bdr))
  {
    if i < |ps| {
      var r := InsertTypes(ps[i], EntityTypes, d, bdr, attr, list);
      InsertTypesDefined(ps[i], EntityTypes, d, bdr, attr, list);
      if r.status == Ok {
        InsertPartsDefined(ps, i + 1, d, bdr, attr, r.elems);
      }
    }
  }

  // ---------------------------------------------------------------------
  // What the walk inserts

  /** An element without its attribute: its geometry and vertex list. */
  datatype Shape = Shape(geom: EntityType, verts: seq<int>)

  function ShapesOf(elems: seq<Element>): (s: seq<Shape>)
    ensures |s| == |elems| && forall i :: 0 <= i < |elems| ==> s[i] == Shape(elems[i].geom, elems[i].verts)
  {
    seq(|elems|, i requires 0 <= i < |elems| => Shape(elems[i].geom, elems[i].verts))
  }

  lemma ShapesOfAppend(a: seq<Element>, b: seq<Element>)
    ensures ShapesOf(a + b) == ShapesOf(a) + ShapesOf(b)
  {
  }

  /** The entities of a block that a pass inserts: all of them when the pass looks at the type and has a primitive for it. */
  function BlockShapes(t: EntityType, b: Block, d: nat, bdr: bool): (s: seq<Shape>)
    requires BlockWellFormed(t, b)
    ensures |s| == if Considered(t, d, bdr) && Insertable(t, bdr) then b.num else 0
  {
    if Considered(t, d, bdr) && Insertable(t, bdr) then seq(b.num, i requires 0 <= i < b.num => Shape(t, b.verts[i]))
    else []
  }

  /** The entities the types `ts` of a part insert, type by type. */
  function TypesShapes(p: Part, ts: seq<EntityType>, d: nat, bdr: bool): seq<Shape>
    requires PartWellFormed(p)
  {
    if ts == [] then [] else BlockShapes(ts[0], GetBlock(p, ts[0]), d, bdr) + TypesShapes(p, ts[1..], d, bdr)
  }

  /** The entities the parts `i ..` insert, part by part. */
  function PartsShapes(ps: seq<Part>, i: nat, d: nat, bdr: bool): seq<Shape>
    requires PartsWellFormed(ps)
    decreases |ps| - i
  {
    if i >= |ps| then [] else TypesShapes(ps[i], EntityTypes, d, bdr) + PartsShapes(ps, i + 1, d, bdr)
  }

  lemma {:induction false} AddEntitiesShapes(t: EntityType, b: Block, attr: Option<seq<int>>, list: seq<Element>, n: nat)
    requires n <= |b.verts|
    requires attr.Some? ==> |list| + n <= |attr.value|
    ensures ShapesOf(AddEntities(t, b, attr, list, n)) == ShapesOf(list) + seq(n, i requires 0 <= i < n => Shape(t, b.verts[i]))
  {
    if n > 0 {
      AddEntitiesShapes(t, b, attr, list, n - 1);
      var e := Element(t, b.verts[n - 1], AttrAt(attr, |list| + n - 1));
      ShapesOfAppend(AddEntities(t, b, attr, list, n - 1), [e]);
      assert seq(n, i requires 0 <= i < n => Shape(t, b.verts[i])) ==
        seq(n - 1, i requires 0 <= i < n - 1 => Shape(t, b.verts[i])) + [Shape(t, b.verts[n - 1])];
    }
  }

  /** A block that passes appends exactly the entities it inserts, in the block's order. */
  lemma InsertBlockShapes(t: EntityType, b: Block, d: nat, bdr: bool, attr: Option<seq<int>>, list: seq<Element>)
    requires BlockWellFormed(t, b)
    ensures var r := InsertBlock(t, b, d, bdr, attr, list);
      r.status == Ok ==> ShapesOf(r.elems) == ShapesOf(list) + BlockShapes(t, b, d, bdr)
  {
    var r := InsertBlock(t, b, d, bdr, attr, list);
    if r.status == Ok {
      if Considered(t, d, bdr) && Insertable(t, bdr) && b.num > 0 {
        AddEntitiesShapes(t, b, attr, list, b.num);
      } else {
        assert BlockShapes(t, b, d, bdr) == [];
      }
    }
  }

  lemma {:induction false} InsertTypesShapes(p: Part, ts: seq<EntityType>, d: nat, bdr: bool, attr: Option<seq<int>>, list: seq<Element>)
    requires PartWellFormed(p)
    ensures var r := InsertTypes(p, ts, d, bdr, attr, list);
      r.status == Ok ==> ShapesOf(r.elems) == ShapesOf(list) + TypesShapes(p, ts, d, bdr)
  {
    if ts != [] {
      var r := InsertBlock(ts[0], GetBlock(p, ts[0]), d, bdr, attr, list);
      InsertBlockShapes(ts[0], GetBlock(p, ts[0]), d, bdr, attr, list);
      if r.status == Ok {
        InsertTypesShapes(p, ts[1..], d, bdr, attr, r.elems);
      }
    }
  }

  /**
   * A pass that succeeds appends the inserted entities of every part and
   * type, in walk order, each with its block's geometry and vertex list.
   */
  lemma {:induction false} InsertPartsShapes(ps: seq<Part>, i: nat, d: nat, bdr: bool, attr: Option<seq<int>>, list: seq<Element>)
    requires PartsWellFormed(ps)
    decreases |ps| - i
    ensures var r := InsertParts(ps, i, d, bdr, attr, list);
      r.status == Ok ==> ShapesOf(r.elems) == ShapesOf(list) + PartsShapes(ps, i, d, bdr)
  {
    if i < |ps| {
      var r := InsertTypes(ps[i], EntityTypes, d, bdr, attr, list);
      InsertTypesShapes(ps[i], EntityTypes, d, bdr, attr, list);
      if r.status == Ok {
        InsertPartsShapes(ps, i + 1, d, bdr, attr, r.elems);
      }
    }
  }

  /**
   * `elems` is exactly `shapes`, each completed with the attribute of its
   * position.
   */
  ghost predicate ElementsAre(elems: seq<Element>, shapes: seq<Shape>, attr: Option<seq<int>>)
  {
    && |elems| == |shapes|
    && forall n: nat :: n < |elems| ==>
         (attr.Some? ==> n < |attr.value|) && elems[n] == Element(shapes[n].geom, shapes[n].verts, AttrAt(attr, n))
  }

  /** A pass run on an empty list from the first part builds exactly the inserted entities with their attributes. */
  lemma PassElements(ps: seq<Part>, d: nat, bdr: bool, attr: Option<seq<int>>)
    requires PartsWellFormed(ps)
    ensures var r := InsertParts(ps, 0, d, bdr, attr, []);
      r.status == Ok ==> ElementsAre(r.elems, PartsShapes(ps, 0, d, bdr), attr)
  {
    var r := InsertParts(ps, 0, d, bdr, attr, []);
    if r.status == Ok {
      InsertPartsShapes(ps, 0, d, bdr, attr, []);
      InsertPartsExtends(ps, 0, d, bdr, attr, []);
      var shapes := PartsShapes(ps, 0, d, bdr);
      assert ShapesOf(r.elems) == shapes;
      forall n: nat | n < |r.elems|
        ensures (attr.Some? ==> n < |attr.value|) && r.elems[n] == Element(shapes[n].geom, shapes[n].verts, AttrAt(attr, n))
      {
        assert ShapesOf(r.elems)[n] == shapes[n];
        assert 0 <= n < |r.elems|;
        assert r.elems[n].attr == AttrAt(attr, n);
      }
      assert ElementsAre(r.elems, shapes, attr);
    }
  }

  // ---------------------------------------------------------------------
  // The insertion loops

  /** The list a pass appends to: the elements, or the boundary elements. */
  ghost function Target(mesh: Mesh, bdr: bool): seq<Element>
    reads mesh
  {
    if bdr then mesh.boundary else mesh.elements
  }

  /** The block's checks and its entity loop; positions start at the list's current length (GetNE / GetNBE). */
  method InsertBlockInto(mesh: Mesh, t: EntityType, b: Block, d: nat, bdr: bool, attr: Option<seq<int>>) returns (status: Status)
    requires BlockWellFormed(t, b)
    requires InsertBlock(t, b, d, bdr, attr, Target(mesh, bdr)).status != Undefined
    modifies mesh`elements, mesh`boundary
    ensures var r := InsertBlock(t, b, d, bdr, attr, old(Target(mesh, bdr)));
      status == r.status && Target(mesh, bdr) == r.elems
    ensures Target(mesh, !bdr) == old(Target(mesh, !bdr))
  {
    if !Considered(t, d, bdr) || b.num == 0 { return Ok; }
    if b.hasIds && !IdTypeOk(b.idType) { return Fail(if bdr then BdrIdType else ElemIdType); }
    if b.hasOri { return Fail(if bdr then BdrOrientation else ElemOrientation); }
    if !bdr && t == Edge { return Fail(EdgeCell); }
    if !Insertable(t, bdr) { return Ok; }
    var offset := if bdr then |mesh.boundary| else |mesh.elements|;
    ghost var start := Target(mesh, bdr);
    var i := 0;
    while i < b.num
      invariant i <= b.num
      invariant Target(mesh, bdr) == AddEntities(t, b, attr, start, i)
      invariant Target(mesh, !bdr) == old(Target(mesh, !bdr))
    {
      var e := Element(t, b.verts[i], AttrAt(attr, offset + i));
      if bdr { mesh.AddBdrElement(e); } else { mesh.AddElement(e); }
      i := i + 1;
    }
    return Ok;
  }

  /** One step of the type walk, with the types still to go as a suffix of the walk order. */
  lemma TypesStep(p: Part, k: nat, d: nat, bdr: bool, attr: Option<seq<int>>, list: seq<Element>)
    requires PartWellFormed(p) && k < |EntityTypes|
    ensures var r := InsertBlock(EntityTypes[k], GetBlock(p, EntityTypes[k]), d, bdr, attr, list);
      InsertTypes(p, EntityTypes[k..], d, bdr, attr, list) ==
        if r.status != Ok then r else InsertTypes(p, EntityTypes[k + 1..], d, bdr, attr, r.elems)
  {
    assert EntityTypes[k..][0] == EntityTypes[k] && EntityTypes[k..][1..] == EntityTypes[k + 1..];
  }

  /** The entity-type loop of one part. */
  method InsertPartInto(mesh: Mesh, p: Part, d: nat, bdr: bool, attr: Option<seq<int>>) returns (status: Status)
    requires PartWellFormed(p)
    requires InsertTypes(p, EntityTypes, d, bdr, attr, Target(mesh, bdr)).status != Undefined
    modifies mesh`elements, mesh`boundary
    ensures var r := InsertTypes(p, EntityTypes, d, bdr, attr, old(Target(mesh, bdr)));
      status == r.status && Target(mesh, bdr) == r.elems
    ensures Target(mesh, !bdr) == old(Target(mesh, !bdr))
  {
    ghost var whole := InsertTypes(p, EntityTypes, d, bdr, attr, Target(mesh, bdr));
    assert EntityTypes[0..] == EntityTypes;
    var k := 0;
    while k < |EntityTypes|
      invariant k <= |EntityTypes|
      invariant whole == InsertTypes(p, EntityTypes[k..], d, bdr, attr, Target(mesh, bdr))
      invariant Target(mesh, !bdr) == old(Target(mesh, !bdr))
    {
      var t := EntityTypes[k];
      TypesStep(p, k, d, bdr, attr, Target(mesh, bdr));
      status := InsertBlockInto(mesh, t, GetBlock(p, t), d, bdr, attr);
      if status != Ok {
        return;
      }
      k := k + 1;
    }
    return Ok;
  }

  /**
   * The part loop of one pass: the list ends as the walk specifies, and the
   * status names the first rejected block, if any.
   */
  method InsertComponent(mesh: Mesh, ps: seq<Part>, d: nat, bdr: bool, attr: Option<seq<int>>) returns (status: Status)
    requires PartsWellFormed(ps)
    requires InsertParts(ps, 0, d, bdr, attr, Target(mesh, bdr)).status != Undefined
    modifies mesh`elements, mesh`boundary
    ensures var r := InsertParts(ps, 0, d, bdr, attr, old(Target(mesh, bdr)));
      status == r.status && Target(mesh, bdr) == r.elems
    ensures Target(mesh, !bdr) == old(Target(mesh, !bdr))
  {
    ghost var whole := InsertParts(ps, 0, d, bdr, attr, Target(mesh, bdr));
    var i := 0;
    while i < |ps|
      invariant i <= |ps|
      invariant whole == InsertParts(ps, i, d, bdr, attr, Target(mesh, bdr))
      invariant Target(mesh, !bdr) == old(Target(mesh, !bdr))
    {
      status := InsertPartInto(mesh, ps[i], d, bdr, attr);
      if status != Ok {
        return;
      }
      i := i + 1;
    }
    return Ok;
  }
}
