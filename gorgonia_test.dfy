/** The assertions of the node-construction and one-hot tests, one lemma per assertion group. */
module GorgoniaTest {
  import opened Results
  import opened Types
  import opened Values
  import opened Nodes

  /** A typed vector literal such as `[]float32{0, 1, 0}`: each integer as a scalar of `dt`. */
  function Vec(dt: Dtype, xs: seq<int>): seq<Scalar> {
    seq(|xs|, k requires 0 <= k < |xs| =>
      match dt
      case Float32 => F32(xs[k] as real)
      case Float64 => F64(xs[k] as real)
      case Int => I(xs[k])
      case Int32 => I32(xs[k])
      case Int64 => I64(xs[k])
      case Bool => B(xs[k] != 0))
  }

  /** A constant built from a 3x3 float64 tensor, named or not, whatever its backing holds. */
  lemma NewConstantTensor(backing: seq<Scalar>)
    ensures NewConstant(TensorLiteral(Tensor(Float64, [3, 3], backing)), []).Success?
    ensures NewConstant(TensorLiteral(Tensor(Float64, [3, 3], backing)), []).value.shape == [3, 3]
    ensures NewConstant(TensorLiteral(Tensor(Float64, [3, 3], backing)), []).value.t
         == TensorType(2, Float64)
    ensures var ct := NewConstant(TensorLiteral(Tensor(Float64, [3, 3], backing)),
                                  [WithName("From TensorValue")]);
      && ct.Success?
      && ct.value.shape == [3, 3]
      && ct.value.t == TensorType(2, Float64)
      && ct.value.name == "From TensorValue"
  {
  }

  /** A constant built from the scalar 3.14 has the scalar shape and type float64. */
  lemma NewConstantScalar()
    ensures NewConstant(Native(F64(3.14)), []).Success?
    ensures NewConstant(Native(F64(3.14)), []).value.shape == ScalarShape
    ensures NewConstant(Native(F64(3.14)), []).value.t == Scalar(Float64)
  {
  }

  /** One row of the table of literals and the type and shape each must infer. */
  datatype AnyNodeCase = AnyNodeCase(name: string, any: Literal, correctType: Type, correctShape: Shape)

  /** The table; `nd.New` tensors start out zero-filled. */
  const AnyNodeTests: seq<AnyNodeCase> := [
    AnyNodeCase("float32", Native(F32(3.14)), Scalar(Float32), ScalarShape),
    AnyNodeCase("float64", Native(F64(3.14)), Scalar(Float64), ScalarShape),
    AnyNodeCase("int", Native(I(3)), Scalar(Int), ScalarShape),
    AnyNodeCase("bool", Native(B(true)), Scalar(Bool), ScalarShape),
    AnyNodeCase("nd.Tensor", TensorLiteral(Tensor(Float64, [2, 3, 4], Zeros(24, Float64))),
                TensorType(3, Float64), [2, 3, 4]),
    AnyNodeCase("nd.Tensor", TensorLiteral(Tensor(Float32, [2, 3, 4], Zeros(24, Float32))),
                TensorType(3, Float32), [2, 3, 4]),
    AnyNodeCase("ScalarValue", Wrapped(F64(3.14)), Scalar(Float64), ScalarShape),
    AnyNodeCase("TensorValue", TensorLiteral(Tensor(Float64, [2, 3], Zeros(6, Float64))),
                TensorType(2, Float64), [2, 3])
  ]

  /** What the test checks of each row: name, graph, type and shape of the node built from it. */
  predicate CasePasses(g: GraphRef, c: AnyNodeCase) {
    var r := NodeFromAny(g, c.any, [WithName(c.name)]);
    && r.Success?
    && r.value.name == c.name
    && r.value.g == Some(g)
    && r.value.t == c.correctType
    && r.value.shape == c.correctShape
  }

  /** Every row of the table passes, on any graph. */
  lemma AnyNodeTableHolds(g: GraphRef)
    ensures |AnyNodeTests| == 8
    ensures forall k :: 0 <= k < |AnyNodeTests| ==> CasePasses(g, AnyNodeTests[k])
  {
  }

  /** The seven one-hot vectors of the test, each with exactly the requested dtype. */
  lemma OneHotVectorCases()
    ensures OneHotVector(6, 10, Float32, []).Success?
    ensures Data(OneHotVector(6, 10, Float32, []).value.value) == Vec(Float32, [0, 0, 0, 0, 0, 0, 1, 0, 0, 0])
    ensures OneHotVector(1, 5, Float32, []).Success?
    ensures Data(OneHotVector(1, 5, Float32, []).value.value) == Vec(Float32, [0, 1, 0, 0, 0])
    ensures OneHotVector(1, 6, Float32, []).Success?
    ensures Data(OneHotVector(1, 6, Float32, []).value.value) == Vec(Float32, [0, 1, 0, 0, 0, 0])
    ensures OneHotVector(3, 5, Int, []).Success?
    ensures Data(OneHotVector(3, 5, Int, []).value.value) == Vec(Int, [0, 0, 0, 1, 0])
    ensures OneHotVector(6, 10, Int32, []).Success?
    ensures Data(OneHotVector(6, 10, Int32, []).value.value) == Vec(Int32, [0, 0, 0, 0, 0, 0, 1, 0, 0, 0])
    ensures OneHotVector(1, 5, Float64, []).Success?
    ensures Data(OneHotVector(1, 5, Float64, []).value.value) == Vec(Float64, [0, 1, 0, 0, 0])
    ensures OneHotVector(1, 6, Int64, []).Success?
    ensures Data(OneHotVector(1, 6, Int64, []).value.value) == Vec(Int64, [0, 1, 0, 0, 0, 0])
  {
  }
}
