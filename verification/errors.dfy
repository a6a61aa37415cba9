/**
 * The converter's failure conditions and the integer codes it returns for
 * them.  `Status` is the outcome of a phase of the conversion: success, one
 * of the rejected conditions, or `Undefined` for an input on which the
 * converter would index outside one of its buffers (the converter performs
 * no check there; the model requires such inputs to be absent).
 */
module Errors {

  datatype Error =
    | NoCoordinates          // no component has coordinates
    | ElemAttrType           // element tag width not supported
    | BdrAttrType            // boundary tag width not supported
    | ElemIdType             // cell id buffer width not supported
    | ElemOrientation        // cell orientation buffer present
    | EdgeCell               // edges as top-dimension cells
    | BdrIdType              // boundary id buffer width not supported
    | BdrOrientation         // boundary orientation buffer present
    | CoordScalarType        // coordinates not double precision
    | CoordDescriptorType    // descriptor not fixed order
    | CoordFieldType         // field not continuous
    | CoordBasisType         // basis not nodal closed Gauss
    | NodesSize              // node field size differs from the coordinate DOF count
    | EdgeTable              // rebuilt edge id differs from the mesh's edge index
    | FaceTable              // rebuilt face id differs from the mesh's face index
    | DofIdType              // id buffer width not supported in the DOF pass
    | DofOrientation         // orientation buffer present in the DOF pass
    | EdgeNotFound           // edge occurrence missing from the edge table
    | TriangleNotFound       // triangle occurrence missing from the face table
    | QuadNotFound           // quadrilateral occurrence missing from the face table

  /** The integer the converter returns for each condition. */
  function Code(e: Error): (c: int)
    ensures 1 <= c <= 19
  {
    match e
    case NoCoordinates => 1
    case ElemAttrType => 1
    case BdrAttrType => 2
    case ElemIdType => 3
    case ElemOrientation => 4
    case EdgeCell => 5
    case BdrIdType => 6
    case BdrOrientation => 7
    case CoordScalarType => 8
    case CoordDescriptorType => 9
    case CoordFieldType => 10
    case CoordBasisType => 11
    case NodesSize => 12
    case EdgeTable => 13
    case FaceTable => 14
    case DofIdType => 15
    case DofOrientation => 16
    case EdgeNotFound => 17
    case TriangleNotFound => 18
    case QuadNotFound => 19
  }

  /** Two conditions share a code only when they are the two that both report 1. */
  lemma CodesDistinct(e1: Error, e2: Error)
    requires Code(e1) == Code(e2) && e1 != e2
    ensures {e1, e2} == {NoCoordinates, ElemAttrType}
  {
  }

  datatype Status = Ok | Fail(error: Error) | Undefined

  /** The value the converter returns for a defined outcome: 0 on success. */
  function StatusCode(s: Status): (c: int)
    requires s != Undefined
    ensures c == 0 <==> s == Ok
    ensures 0 <= c <= 19
  {
    match s
    case Ok => 0
    case Fail(e) => Code(e)
  }
}
