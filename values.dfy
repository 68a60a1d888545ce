/** Runtime values: scalars, tensors, the literals a node can be built from, and one-hot data. */
module Values {
  import opened Results
  import opened Types

  /** A scalar of a concrete dtype. Float contents are kept as exact reals. */
  datatype Scalar =
    | F32(x: real)
    | F64(x: real)
    | I(n: int)
    | I32(n: int)
    | I64(n: int)
    | B(b: bool)

  function ScalarDtype(s: Scalar): Dtype {
    match s
    case F32(_) => Float32
    case F64(_) => Float64
    case I(_) => Int
    case I32(_) => Int32
    case I64(_) => Int64
    case B(_) => Bool
  }

  /** Whether a scalar is the zero of its dtype (`false` for booleans). */
  predicate IsZero(s: Scalar) {
    match s
    case F32(x) => x == 0.0
    case F64(x) => x == 0.0
    case I(n) => n == 0
    case I32(n) => n == 0
    case I64(n) => n == 0
    case B(b) => !b
  }

  /** The zero of a dtype. */
  function Zero(dt: Dtype): (z: Scalar)
    ensures ScalarDtype(z) == dt && IsZero(z)
  {
    match dt
    case Float32 => F32(0.0)
    case Float64 => F64(0.0)
    case Int => I(0)
    case Int32 => I32(0)
    case Int64 => I64(0)
    case Bool => B(false)
  }

  /** The one of a dtype (`true` for booleans). */
  function One(dt: Dtype): (o: Scalar)
    ensures ScalarDtype(o) == dt && !IsZero(o)
  {
    match dt
    case Float32 => F32(1.0)
    case Float64 => F64(1.0)
    case Int => I(1)
    case Int32 => I32(1)
    case Int64 => I64(1)
    case Bool => B(true)
  }

  /** A dense tensor: element dtype, shape and backing data in row-major order. */
  datatype Tensor = Tensor(of: Dtype, shape: Shape, data: seq<Scalar>) {
    /** The backing holds one element per cell of the shape, every one of the tensor's dtype. */
    predicate Valid() {
      && |data| == Volume(shape)
      && forall k :: 0 <= k < |data| ==> ScalarDtype(data[k]) == of
    }
  }

  /** A value held by a node: a single scalar or a tensor. */
  datatype Value = ScalarValue(s: Scalar) | TensorValue(t: Tensor)

  /** What a node can be built from: a native Go scalar, a scalar already wrapped as a value,
      a tensor, or anything else, which no constructor accepts. */
  datatype Literal =
    | Native(s: Scalar)
    | Wrapped(w: Scalar)
    | TensorLiteral(t: Tensor)
    | Unsupported

  /** Turns a literal into a value; anything but a scalar or a tensor is refused. */
  function ToValue(lit: Literal): (r: Result<Value>)
    ensures r.Success? <==> !lit.Unsupported?
    ensures r.Failure? ==> r.error == UnsupportedValueKind
    ensures lit.TensorLiteral? ==> r == Success(TensorValue(lit.t))
    ensures (lit.Native? || lit.Wrapped?) ==> r.Success? && r.value.ScalarValue?
  {
    match lit
    case Native(s) => Success(ScalarValue(s))
    case Wrapped(s) => Success(ScalarValue(s))
    case TensorLiteral(t) => Success(TensorValue(t))
    case Unsupported => Failure(UnsupportedValueKind)
  }

  function ValueDtype(v: Value): Dtype {
    match v
    case ScalarValue(s) => ScalarDtype(s)
    case TensorValue(t) => t.of
  }

  /** A value is well formed when it is a scalar or a tensor whose backing fits its shape and dtype. */
  predicate ValueValid(v: Value) {
    match v
    case ScalarValue(_) => true
    case TensorValue(t) => t.Valid()
  }

  /** The elements a value reads back as: a tensor's backing, and for a scalar its one element.
      A well-formed value reads back only elements of its own dtype. */
  function Data(v: Value): (r: seq<Scalar>)
    ensures v.TensorValue? ==> r == v.t.data
    ensures v.ScalarValue? ==> r == [v.s]
    ensures ValueValid(v) ==> forall k :: 0 <= k < |r| ==> ScalarDtype(r[k]) == ValueDtype(v)
  {
    match v
    case ScalarValue(s) => [s]
    case TensorValue(t) => t.data
  }

  /** The shape of a value: the scalar shape for a scalar, the tensor's own shape, unchanged,
      otherwise. A well-formed value holds one element per cell of its shape. */
  function ShapeOf(v: Value): (s: Shape)
    ensures v.ScalarValue? ==> s == ScalarShape
    ensures v.TensorValue? ==> s == v.t.shape
    ensures ValueValid(v) ==> Volume(s) == |Data(v)|
  {
    match v
    case ScalarValue(_) => ScalarShape
    case TensorValue(t) => t.shape
  }

  /** The type inferred for a value. It keeps the value's dtype exactly, is a scalar type
      exactly for scalars, and agrees with the value's shape. */
  function TypeOf(v: Value): (ty: Type)
    ensures ty.Elem() == ValueDtype(v)
    ensures ty.Scalar? <==> v.ScalarValue?
    ensures Agrees(ty, ShapeOf(v))
  {
    match v
    case ScalarValue(s) => Scalar(ScalarDtype(s))
    case TensorValue(t) => TensorType(|t.shape|, t.of)
  }

  /** `length` zeros of dtype `dt`. */
  function Zeros(length: nat, dt: Dtype): (z: seq<Scalar>)
    ensures |z| == length
    ensures forall k :: 0 <= k < length ==> z[k] == Zero(dt)
  {
    seq(length, _ => Zero(dt))
  }

  /** The backing of a one-hot vector: zeros of `dt` except a one at `index`. */
  function OneHotData(index: nat, length: nat, dt: Dtype): (v: seq<Scalar>)
    requires index < length
    ensures |v| == length
    ensures v[index] == One(dt)
    ensures forall k :: 0 <= k < length && k != index ==> v[k] == Zero(dt)
    ensures forall k :: 0 <= k < length ==> ScalarDtype(v[k]) == dt
  {
    Zeros(length, dt)[index := One(dt)]
  }

  /** The position of the first non-zero element, if there is one: the decoder of a one-hot vector. */
  function HotIndex(v: seq<Scalar>): (r: Option<nat>)
    ensures r.Some? ==> r.value < |v| && !IsZero(v[r.value])
    ensures r.Some? ==> forall k :: 0 <= k < r.value ==> IsZero(v[k])
    ensures r.None? <==> forall k :: 0 <= k < |v| ==> IsZero(v[k])
  {
    if v == [] then None
    else if !IsZero(v[0]) then Some(0)
    else match HotIndex(v[1..])
      case None => None
      case Some(j) => Some(j + 1)
  }

  /** Decoding a one-hot vector gives back its index. */
  lemma OneHotRoundTrip(index: nat, length: nat, dt: Dtype)
    requires index < length
    ensures HotIndex(OneHotData(index, length, dt)) == Some(index)
  {
  }

  /** A one-hot vector is the only vector of its length and dtype with a one at `index`
      and zeros everywhere else. */
  lemma OneHotUnique(index: nat, length: nat, dt: Dtype, v: seq<Scalar>)
    requires index < length
    requires |v| == length && v[index] == One(dt)
    requires forall k :: 0 <= k < length && k != index ==> v[k] == Zero(dt)
    ensures v == OneHotData(index, length, dt)
  {
  }

  /** Different indices give different one-hot vectors. */
  lemma OneHotInjective(i: nat, j: nat, length: nat, dt: Dtype)
    requires i < length && j < length
    ensures OneHotData(i, length, dt) == OneHotData(j, length, dt) <==> i == j
  {
    OneHotRoundTrip(i, length, dt);
    OneHotRoundTrip(j, length, dt);
  }

  /** A literal is well formed when it is a scalar or a well-formed tensor. */
  predicate LiteralValid(lit: Literal) {
    lit.TensorLiteral? ==> lit.t.Valid()
  }

  /** Wrapping a scalar as a value first changes nothing about what it converts to. */
  lemma WrappedMatchesNative(s: Scalar)
    ensures ToValue(Wrapped(s)) == ToValue(Native(s)) == Success(ScalarValue(s))
  {
  }

  /** Types are told apart exactly by scalar-ness, rank and dtype. */
  lemma TypeOfDistinguishes(v: Value, w: Value)
    ensures TypeOf(v) == TypeOf(w) <==>
      && v.ScalarValue? == w.ScalarValue?
      && ValueDtype(v) == ValueDtype(w)
      && |ShapeOf(v)| == |ShapeOf(w)|
  {
  }
}
