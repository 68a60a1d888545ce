# Node construction and one-hot vectors of a computation-graph engine

This project models the part of the gorgonia computation-graph engine that its node-construction tests pin down:

- how a literal becomes a node, through `NewConstant` or `NodeFromAny`: a native Go scalar, a scalar already wrapped as a value (`newF64`), or a tensor;
- the type and shape inferred for that node;
- what the `WithName` option does, and which graph the node belongs to;
- `OneHotVector(index, length, dtype)`, which builds a constant vector that is all zeros except a single one.

Everything is pure. Values and nodes are datatypes, and the constructors are functions that return a `Result`.

- `Types`: the closed dtype set (`Float32`, `Float64`, `Int`, `Int32`, `Int64`, `Bool`).
  - A node `Type` is either `Scalar(dtype)` or `TensorType(dims, of)`.
  - A `Shape` is a sequence of axis sizes. The empty sequence is the scalar shape.
  - `Agrees` is the consistency rule between a type and a shape.
- `Values`: scalars, dense tensors, node values and the `Literal`s a node can be built from.
  - `TypeOf` is the inference rule.
  - `OneHotData` builds the one-hot backing. `HotIndex`, the position of the first non-zero element, decodes it again.
- `Nodes`: the `Node` record holds a name, type, shape, graph handle and bound value. This module also holds the construction options and the three constructors `NewConstant`, `NodeFromAny` and `OneHotVector`.
- `GorgoniaTest`: the test assertions as lemmas. Each `anyNodeTest` row is one element of a constant table, and one lemma covers the whole table.

The model also includes two error paths that no test exercises:

- a literal that is neither a scalar nor a tensor fails with `UnsupportedValueKind`;
- a one-hot index outside `0 .. length - 1` fails with `IndexOutOfRange`.

The tests call every constructor as if it returned a single value (for example `NewConstant(T)` and `NodeFromAny(g, a.any, ...)`), so there is no error return. The model assumes these failures stop the constructor, and it returns a `Failure` for each. For a `Bool` one-hot vector, `true` and `false` stand in for one and zero; no test covers this.

## Model

| member | source | states |
|---|---|---|
| `Values.ToValue` | gorgonia_test.go:48-55 | A literal converts to a value exactly when it is a scalar or a tensor. Native and wrapped scalars become scalar values, and a tensor becomes itself. Anything else fails with `UnsupportedValueKind`. |
| `Values.ShapeOf` | gorgonia_test.go:26-37 | A scalar gets the scalar shape, and a tensor keeps its own shape unchanged. A well-formed value holds exactly one element per cell of its shape. |
| `Values.Data` | gorgonia_test.go:72-92 | Reads back a tensor's backing, the contents of `.Value().Data()`. Every element of a well-formed value has the value's dtype. For a scalar it gives the one-element sequence `[s]`; that branch is the model's own choice, since the tests read only tensor data. |
| `Values.TypeOf` | gorgonia_test.go:41-56 | The inferred type keeps the value's dtype exactly. It is a scalar type exactly for scalar values, and it agrees with the value's shape. |
| `Values.TypeOfDistinguishes` | gorgonia_test.go:52-53 | Two values get the same type if and only if they agree on scalar-ness, dtype and rank. |
| `Values.WrappedMatchesNative` | gorgonia_test.go:48-54 | Wrapping a scalar as a value first converts to the same value as the bare scalar. |
| `Values.Zero` | gorgonia_test.go:72-92 | The zero of a dtype has that dtype and is zero. |
| `Values.One` | gorgonia_test.go:72-92 | The one of a dtype has that dtype and is not zero. |
| `Values.Zeros` | gorgonia_test.go:72-92 | A zero-filled vector has the requested length and holds only the dtype's zero. |
| `Values.OneHotData` | gorgonia_test.go:70-93 | The one-hot backing has exactly `length` elements and the dtype's one at `index`. Every other position holds the dtype's zero, and every element has exactly the requested dtype. |
| `Values.HotIndex` | gorgonia_test.go:72-92 | Decoder: it returns the first non-zero position, with zeros everywhere before it. It returns nothing if and only if every element is zero. |
| `Values.OneHotRoundTrip` | gorgonia_test.go:72-92 | Decoding a one-hot vector returns its index. |
| `Values.OneHotUnique` | gorgonia_test.go:72-92 | Any vector of the right length with a one at `index` and zeros elsewhere is the one-hot vector. |
| `Values.OneHotInjective` | gorgonia_test.go:72-92 | Two one-hot vectors of one length and dtype are equal if and only if their indices are equal. |
| `Nodes.ApplyOpts` | gorgonia_test.go:29-32 | Options apply in order and the last name given wins. Type, shape, graph and value are untouched. |
| `Nodes.NewConstant` | gorgonia_test.go:13-39 | Succeeds exactly for supported literals, otherwise fails with `UnsupportedValueKind`. The node is bound to the literal's value. Its type and shape are inferred from that value and agree with each other, and its dtype is the value's. Its name is the last `WithName`, and it belongs to no graph. A well-formed literal gives a well-formed value. |
| `Nodes.NodeFromAny` | gorgonia_test.go:58-67 | Same as `NewConstant`, except that the node belongs to the given graph `g`. |
| `Nodes.OneHotVector` | gorgonia_test.go:70-93 | Succeeds exactly when `0 <= index < length`, otherwise fails with `IndexOutOfRange`. The node has type `TensorType(1, dt)` and shape `[length]`. Its value is a well-formed tensor with the node's own shape, and its data is the one-hot backing. Like every constant, its name is the last `WithName`, and its type and shape are the ones inferred from that value. |
| `Nodes.ScalarLiteralIsScalar` | gorgonia_test.go:48-51 | A native scalar of dtype D gives type `Scalar(D)` and the scalar shape. |
| `Nodes.TensorLiteralKeepsShape` | gorgonia_test.go:52-55 | A tensor of shape `s` and dtype D gives type `TensorType(\|s\|, D)` and keeps shape `s`, whatever its data. |
| `Nodes.TensorDtypeDistinguishes` | gorgonia_test.go:52-53 | Tensors of one shape get equal types if and only if their dtypes are equal. |
| `Nodes.WrappedNodeMatchesNative` | gorgonia_test.go:49-54 | `NodeFromAny` of a wrapped scalar is the same node as `NodeFromAny` of the bare scalar. |
| `Nodes.NameIsMetadataOnly` | gorgonia_test.go:62-66 | A trailing `WithName(n)` makes the name `n`. Everything else matches the unnamed node. |
| `Nodes.ConstantMatchesNodeFromAny` | gorgonia_test.go:22-38 | A constant and a node of graph `g` built from the same literal differ only in their graph. |
| `GorgoniaTest.NewConstantTensor` | gorgonia_test.go:18-32 | A constant from a 3x3 float64 tensor has shape `[3, 3]` and type `TensorType(2, Float64)`, whatever its backing holds. Named "From TensorValue", it also carries that name. |
| `GorgoniaTest.NewConstantScalar` | gorgonia_test.go:34-38 | The constant 3.14 has the scalar shape and type `Scalar(Float64)`. |
| `GorgoniaTest.AnyNodeTableHolds` | gorgonia_test.go:41-67 | For all eight table rows, on any graph, the node carries the row's name, belongs to the graph, and has the row's type and shape. |
| `GorgoniaTest.OneHotVectorCases` | gorgonia_test.go:70-93 | The seven one-hot vectors of the test equal the expected typed vectors element by element, in the requested dtype. |

## Left out

- The tensor storage library is modelled only as a dtype, a shape and a data sequence. This covers allocation, strided access and the random backing of `nd.Random`. The data of a tensor literal is a parameter of the lemmas, and the `nd.New` tensors of the table are zero-filled.
- `TensorLiteral` admits any tensor, including backings whose length or dtype does not fit the shape. No real `nd.Tensor` can have such a backing. The lemmas therefore hold on a wider domain than the program's. The constructors promise a well-formed value only for a well-formed literal.
- Floating-point contents are kept as exact reals. As a result, `float32(3.14)` is not rounded. Integer widths of `int`, `int32` and `int64` are not modelled, because no asserted value depends on them.
- Hindley-Milner unification (`hm.Type.Eq`) is not modelled. Types are compared by structural equality on the closed `Type` datatype.
- Nodes.NewConstant: the name a node gets when no `WithName` option is given is not modelled. The tests never read it, and the code that picks it is not part of this model. The model leaves that name empty. The same holds for `NodeFromAny` and `OneHotVector`.
- Node options other than `WithName` are not modelled. For instance, `WithShape` and `WithInit` appear only in the backpropagation test.
- `NodeFromAny` inserts the node into the graph's node table. The model records only the graph handle. The graph's table and the `NewGraph` constructor are not part of this model.
- The one-hot tensor's type is written as the `TensorType` constructor. The `makeTensorType` helper's code is not part of this model.
- `TestRandomNodeBackprop` is not modelled. It needs Gaussian random nodes, `Add`, `Sum`, `NewLispMachine`/`RunAll` and logging. Their code is not part of this model, the test asserts nothing, and it draws random floats.
- Differentiation, the execution machine, variables and operation application are not modelled. The tests modelled here do not touch them.
