/**
 * The symbolic shapes the Keras layers used by wavenet/models.py give their
 * outputs, and the errors they raise while the graph is wired. A shape is
 * a tuple of dimensions, each None (unknown, the batch axis) or an int.
 */
module KerasShapes {
  import opened Wrappers
  import opened PyValues

  type Shape = seq<PyValue>

  /** A dimension a symbolic tensor accepts: None or a non-negative int. */
  predicate ValidDim(d: PyValue) {
    d == PyNone || (d.PyInt? && d.n >= 0)
  }

  predicate ValidShape(shape: Shape) {
    forall i :: 0 <= i < |shape| ==> ValidDim(shape[i])
  }

  /** Creating a symbolic tensor raises ValueError on any other dimension. */
  function Standardize(shape: Shape): (r: Result<Shape, PyError>)
    ensures r.Ok? <==> ValidShape(shape)
    ensures r.Ok? ==> r.value == shape
  {
    if ValidShape(shape) then Ok(shape) else Err(ValueError)
  }

  /** Input(shape=(n,)): a batch of vectors of length n. */
  function Input(n: int): (r: Result<Shape, PyError>)
    ensures r.Ok? <==> n >= 0
    ensures r.Ok? ==> r.value == [PyNone, PyInt(n)]
  {
    if n < 0 then Err(ValueError) else Ok([PyNone, PyInt(n)])
  }

  /**
   * Conv1D(filters, kernel_size, dilation_rate, padding='same') on a
   * (batch, steps, channels) input: the filter count, kernel size and
   * dilation must be positive and the channels known; 'same' padding with
   * unit stride keeps the number of steps.
   */
  function Conv1DSame(input: Shape, filters: int, kernelSize: int, dilation: int): (r: Result<Shape, PyError>)
    ensures r.Ok? <==> filters > 0 && kernelSize > 0 && dilation > 0 && |input| == 3 && input[2].PyInt?
    ensures r.Ok? ==> r.value == [input[0], input[1], PyInt(filters)]
  {
    if filters <= 0 || kernelSize <= 0 || dilation <= 0 then Err(ValueError)
    else if |input| != 3 || !input[2].PyInt? then Err(ValueError)
    else Ok([input[0], input[1], PyInt(filters)])
  }

  /** Dense(units): a positive unit count replaces the known last dimension. */
  function Dense(input: Shape, units: int): (r: Result<Shape, PyError>)
    ensures r.Ok? <==> units > 0 && |input| >= 2 && input[|input| - 1].PyInt?
    ensures r.Ok? ==> r.value == input[..|input| - 1] + [PyInt(units)]
  {
    if units <= 0 then Err(ValueError)
    else if |input| < 2 || !input[|input| - 1].PyInt? then Err(ValueError)
    else Ok(input[..|input| - 1] + [PyInt(units)])
  }

  /** RepeatVector(n) on a (batch, features) input gives (batch, n, features); a negative n is not a valid dimension. */
  function RepeatVector(input: Shape, n: int): (r: Result<Shape, PyError>)
    ensures r.Ok? <==> |input| == 2 && n >= 0
    ensures r.Ok? ==> r.value == [input[0], PyInt(n), input[1]]
  {
    if |input| != 2 || n < 0 then Err(ValueError)
    else Ok([input[0], PyInt(n), input[1]])
  }

  function Product(dims: seq<int>): int {
    if |dims| == 0 then 1 else Product(dims[..|dims| - 1]) * dims[|dims| - 1]
  }

  predicate KnownDims(shape: Shape) {
    forall i :: 0 <= i < |shape| ==> shape[i].PyInt?
  }

  function Ints(shape: Shape): (r: seq<int>)
    requires KnownDims(shape)
    ensures |r| == |shape| && forall i :: 0 <= i < |shape| ==> r[i] == shape[i].n
  {
    seq(|shape|, i requires 0 <= i < |shape| => shape[i].n)
  }

  /**
   * Reshape(target_shape) with no -1 entry: when every non-batch dimension
   * is known their product must equal the product of the target; the batch
   * dimension is kept.
   */
  function Reshape(input: Shape, target: seq<int>): (r: Result<Shape, PyError>)
    ensures r.Ok? <==> |input| >= 1 && (KnownDims(input[1..]) ==> Product(Ints(input[1..])) == Product(target)) && ValidShape([input[0]] + AsShape(target))
    ensures r.Ok? ==> r.value == [input[0]] + AsShape(target)
  {
    if |input| < 1 then Err(ValueError)
    else if KnownDims(input[1..]) && Product(Ints(input[1..])) != Product(target) then Err(ValueError)
    else Standardize([input[0]] + AsShape(target))
  }

  /**
   * Add()/Multiply() on a list of inputs: at least one input, and here all
   * of the same shape, which is the output shape.
   */
  function Merge(inputs: seq<Shape>): (r: Result<Shape, PyError>)
    ensures r.Ok? <==> |inputs| >= 1 && forall i :: 0 <= i < |inputs| ==> inputs[i] == inputs[0]
    ensures r.Ok? ==> r.value == inputs[0]
  {
    if |inputs| == 0 then Err(ValueError)
    else if exists i :: 0 <= i < |inputs| && inputs[i] != inputs[0] then Err(ValueError)
    else Ok(inputs[0])
  }

  /** Lambda(..., output_shape=lambda shape: (shape[0], shape[1])). */
  function FirstTwo(input: Shape): (r: Result<Shape, PyError>)
    ensures r.Ok? <==> |input| >= 2
    ensures r.Ok? ==> r.value == input[..2]
  {
    if |input| < 2 then Err(IndexError) else Ok([input[0], input[1]])
  }
}
