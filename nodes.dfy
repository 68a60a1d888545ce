/** Graph nodes and the constructors that infer a node's type and shape from a literal. */
module Nodes {
  import opened Results
  import opened Types
  import opened Values

  /** A handle on the graph a node belongs to. */
  datatype GraphRef = GraphRef(id: nat)

  /** A node construction option. */
  datatype ConsOpt = WithName(name: string)

  /** A node: its name (metadata only), inferred type and shape, the graph it belongs to
      (none for a free-standing constant) and the value it is bound to. */
  datatype Node = Node(name: string, t: Type, shape: Shape, g: Option<GraphRef>, value: Value)

  /** Applies the options in order, each one overwriting what an earlier one set: the last
      name given wins and nothing but the name is touched. */
  function ApplyOpts(n: Node, opts: seq<ConsOpt>): (r: Node)
    ensures r.t == n.t && r.shape == n.shape && r.g == n.g && r.value == n.value
    ensures r.name == if opts == [] then n.name else opts[|opts| - 1].name
    decreases opts
  {
    if opts == [] then n else ApplyOpts(n.(name := opts[0].name), opts[1..])
  }

  /** A node bound to `v`, with the type and shape inferred from it; the name is empty until
      an option sets it. */
  function Bound(v: Value, g: Option<GraphRef>): Node {
    Node("", TypeOf(v), ShapeOf(v), g, v)
  }

  /** What every constructor promises of the node it builds from `lit`. */
  predicate BuiltFrom(n: Node, lit: Literal, opts: seq<ConsOpt>) {
    && ToValue(lit).Success?
    && n.value == ToValue(lit).value
    && n.t == TypeOf(n.value)
    && n.shape == ShapeOf(n.value)
    && Agrees(n.t, n.shape)
    && n.t.Elem() == ValueDtype(n.value)
    && (LiteralValid(lit) ==> ValueValid(n.value))
    && n.name == (if opts == [] then "" else opts[|opts| - 1].name)
  }

  /** A constant bound to `lit`. It belongs to no graph; an unsupported literal is refused. */
  function NewConstant(lit: Literal, opts: seq<ConsOpt>): (r: Result<Node>)
    ensures r.Success? <==> !lit.Unsupported?
    ensures r.Failure? ==> r.error == UnsupportedValueKind
    ensures r.Success? ==> BuiltFrom(r.value, lit, opts) && r.value.g == None
  {
    match ToValue(lit)
    case Failure(e) => Failure(e)
    case Success(v) => Success(ApplyOpts(Bound(v, None), opts))
  }

  /** A node of graph `g` bound to `lit`; an unsupported literal is refused. */
  function NodeFromAny(g: GraphRef, lit: Literal, opts: seq<ConsOpt>): (r: Result<Node>)
    ensures r.Success? <==> !lit.Unsupported?
    ensures r.Failure? ==> r.error == UnsupportedValueKind
    ensures r.Success? ==> BuiltFrom(r.value, lit, opts) && r.value.g == Some(g)
  {
    match ToValue(lit)
    case Failure(e) => Failure(e)
    case Success(v) => Success(ApplyOpts(Bound(v, Some(g)), opts))
  }

  /** A constant vector of `length` elements of dtype `dt`, all zero but a one at `index`;
      an index outside 0 .. length - 1 is refused. */
  function OneHotVector(index: int, length: int, dt: Dtype, opts: seq<ConsOpt>): (r: Result<Node>)
    ensures r.Success? <==> 0 <= index < length
    ensures r.Failure? ==> r.error == IndexOutOfRange
    ensures r.Success? ==>
      && r.value.t == TensorType(1, dt)
      && r.value.shape == [length]
      && r.value.g == None
      && r.value.value.TensorValue?
      && r.value.value.t.Valid()
      && r.value.value.t.shape == r.value.shape
      && Data(r.value.value) == OneHotData(index, length, dt)
      && BuiltFrom(r.value, TensorLiteral(Tensor(dt, [length], OneHotData(index, length, dt))), opts)
  {
    if 0 <= index < length then
      var data := OneHotData(index, length, dt);
      assert Volume([length]) == length;
      NewConstant(TensorLiteral(Tensor(dt, [length], data)), opts)
    else
      Failure(IndexOutOfRange)
  }

  /** A native scalar of dtype D gives a node of type Scalar(D) with the scalar shape. */
  lemma ScalarLiteralIsScalar(g: GraphRef, s: Scalar, opts: seq<ConsOpt>)
    ensures NodeFromAny(g, Native(s), opts).Success?
    ensures NodeFromAny(g, Native(s), opts).value.t == Scalar(ScalarDtype(s))
    ensures NodeFromAny(g, Native(s), opts).value.shape == ScalarShape
  {
  }

  /** A tensor of shape `s` and dtype D gives a node of type TensorType(|s|, D) whose shape is `s`,
      whatever the tensor holds. */
  lemma TensorLiteralKeepsShape(g: GraphRef, t: Tensor, opts: seq<ConsOpt>)
    ensures NodeFromAny(g, TensorLiteral(t), opts).Success?
    ensures NodeFromAny(g, TensorLiteral(t), opts).value.t == TensorType(|t.shape|, t.of)
    ensures NodeFromAny(g, TensorLiteral(t), opts).value.shape == t.shape
  {
  }

  /** Tensors of one shape get the same type exactly when their dtypes are the same. */
  lemma TensorDtypeDistinguishes(g: GraphRef, s: Shape, d1: Dtype, d2: Dtype,
                                 data1: seq<Scalar>, data2: seq<Scalar>)
    ensures (NodeFromAny(g, TensorLiteral(Tensor(d1, s, data1)), []).value.t
             == NodeFromAny(g, TensorLiteral(Tensor(d2, s, data2)), []).value.t) <==> d1 == d2
  {
  }

  /** A scalar wrapped as a value first gives the same node as the bare scalar. */
  lemma WrappedNodeMatchesNative(g: GraphRef, s: Scalar, opts: seq<ConsOpt>)
    ensures NodeFromAny(g, Wrapped(s), opts) == NodeFromAny(g, Native(s), opts)
  {
    WrappedMatchesNative(s);
  }

  /** Naming a node sets its name and leaves its type, shape, graph and value as they were. */
  lemma NameIsMetadataOnly(g: GraphRef, lit: Literal, opts: seq<ConsOpt>, name: string)
    requires !lit.Unsupported?
    ensures NodeFromAny(g, lit, opts + [WithName(name)]).value.name == name
    ensures NodeFromAny(g, lit, opts + [WithName(name)]).value
         == NodeFromAny(g, lit, []).value.(name := name)
  {
  }

  /** A constant and a node of a graph built from the same literal differ only in their graph. */
  lemma ConstantMatchesNodeFromAny(g: GraphRef, lit: Literal, opts: seq<ConsOpt>)
    requires !lit.Unsupported?
    ensures NodeFromAny(g, lit, opts).value == NewConstant(lit, opts).value.(g := Some(g))
  {
  }
}
