/**
 * The partitioned input mesh, as the converter sees it through the FMS
 * accessors: components made of parts, each part holding one block of
 * entities per entity type, tags owned by components, and the coordinate
 * field of the main component.  Everything here is read-only input.
 */
module Fms {

  /** FmsEntityType, in the order the converter walks the types. */
  datatype EntityType = Vertex | Edge | Triangle | Quadrilateral | Tetrahedron | Hexahedron

  const EntityTypes: seq<EntityType> :=
    [Vertex, Edge, Triangle, Quadrilateral, Tetrahedron, Hexahedron]

  /** Position of a type in the walk order (the index into `ent_dofs`). */
  function Ordinal(t: EntityType): (i: nat)
    ensures i < |EntityTypes| && EntityTypes[i] == t
  {
    match t
    case Vertex => 0
    case Edge => 1
    case Triangle => 2
    case Quadrilateral => 3
    case Tetrahedron => 4
    case Hexahedron => 5
  }

  /** FmsEntityDim */
  function EntityDim(t: EntityType): (d: nat)
    ensures d <= 3
  {
    match t
    case Vertex => 0
    case Edge => 1
    case Triangle => 2
    case Quadrilateral => 2
    case Tetrahedron => 3
    case Hexahedron => 3
  }

  /** FmsEntityNumVerts */
  function NumVerts(t: EntityType): nat
  {
    match t
    case Vertex => 1
    case Edge => 2
    case Triangle => 3
    case Quadrilateral => 4
    case Tetrahedron => 4
    case Hexahedron => 8
  }

  /** FmsIntType */
  datatype IntType = Int8 | Int16 | Int32 | Int64 | UInt8 | UInt16 | UInt32 | UInt64

  /** FmsScalarType */
  datatype ScalarType = Float | Double | ComplexFloat | ComplexDouble

  /** FmsLayoutType: all values of one DOF together, or one component at a time. */
  datatype LayoutType = ByNodes | ByVDim

  /** FmsFieldDescriptorType */
  datatype DescriptorType = FixedOrder | OtherDescriptor

  /** FmsFieldType */
  datatype FieldType = Continuous | Discontinuous | HCurl | HDiv

  /** FmsBasisType */
  datatype BasisType = NodalGaussClosed | NodalGaussOpen | OtherBasis

  /**
   * The block of entities of one type inside one part.  `verts` holds the
   * vertex lists that FmsDomainGetEntitiesVerts resolves for the block (in
   * block order, through the id buffer when there is one); `hasIds`,
   * `idType` and `hasOri` describe the id and orientation buffers.
   */
  datatype Block = Block(num: nat, hasIds: bool, idType: IntType, hasOri: bool, verts: seq<seq<int>>)

  const EmptyBlock := Block(0, false, Int32, false, [])

  /** One part of a component; a type missing from the map has no entities. */
  datatype Part = Part(blocks: map<EntityType, Block>)

  function GetBlock(p: Part, t: EntityType): Block
  {
    if t in p.blocks then p.blocks[t] else EmptyBlock
  }

  /** The coordinate field together with its descriptor. */
  datatype Field = Field(
    layout: LayoutType,
    scalarType: ScalarType,
    descriptorType: DescriptorType,
    fieldType: FieldType,
    basis: BasisType,
    order: nat,
    numDofs: nat,
    spaceDim: nat,
    data: seq<real>)

  /** A component: its dimension, parts, entity count, coordinates and related components. */
  datatype Component = Component(
    dim: nat,
    parts: seq<Part>,
    numEntities: nat,
    coords: Option<Field>,
    relations: seq<nat>)

  /** A tag: the index of the owning component (none when the tag has no component), the integer width and the values. */
  datatype Tag = Tag(comp: Option<nat>, intType: IntType, values: seq<int>)

  datatype FmsMesh = FmsMesh(components: seq<Component>, tags: seq<Tag>)

  datatype Option<T> = None | Some(value: T)

  /** The vertex lists of a block are what the domain hands out: one list of the type's size per entity. */
  ghost predicate BlockWellFormed(t: EntityType, b: Block)
  {
    |b.verts| == b.num && forall i :: 0 <= i < |b.verts| ==> |b.verts[i]| == NumVerts(t)
  }

  ghost predicate PartWellFormed(p: Part)
  {
    forall t :: BlockWellFormed(t, GetBlock(p, t))
  }

  ghost predicate PartsWellFormed(ps: seq<Part>)
  {
    forall i :: 0 <= i < |ps| ==> PartWellFormed(ps[i])
  }

  /** Every relation names an existing component and every component's parts are well formed. */
  ghost predicate MeshWellFormed(m: FmsMesh)
  {
    forall c :: 0 <= c < |m.components| ==>
      PartsWellFormed(m.components[c].parts) &&
      forall i :: 0 <= i < |m.components[c].relations| ==> m.components[c].relations[i] < |m.components|
  }
}
