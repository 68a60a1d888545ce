/** Element types (dtypes), node types and shapes. */
module Types {

  /** The closed set of element types a node can carry. */
  datatype Dtype = Float32 | Float64 | Int | Int32 | Int64 | Bool

  /** A node's type: a scalar of some dtype, or a tensor of some rank over a dtype.
      Equality is structural, which is what type unification amounts to on this closed set. */
  datatype Type = Scalar(dt: Dtype) | TensorType(dims: nat, of: Dtype) {
    /** The dtype of the elements a node of this type holds. */
    function Elem(): Dtype {
      match this
      case Scalar(d) => d
      case TensorType(_, d) => d
    }
  }

  /** A shape lists the size of every axis; the empty shape is the scalar shape. */
  type Shape = seq<nat>

  const ScalarShape: Shape := []

  /** A shape fits a type: a scalar has the scalar shape, a tensor has one axis per dimension. */
  predicate Agrees(t: Type, s: Shape) {
    match t
    case Scalar(_) => s == ScalarShape
    case TensorType(dims, _) => |s| == dims
  }

  /** The number of elements a tensor of shape `s` holds. */
  function Volume(s: Shape): nat {
    if s == [] then 1 else s[0] * Volume(s[1..])
  }
}
