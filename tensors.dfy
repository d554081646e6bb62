/**
 * Integer-valued tensors as nested sequences, with the operations the
 * layers of wavenet/layers.py perform on them: basic indexing, axis
 * permutation, inserting a unit axis and elementwise arithmetic.
 * Sample values are integers here: only their positions matter.
 */
module Tensors {

  datatype Tensor = Scalar(v: int) | Array(items: seq<Tensor>)

  /** t is a rectangular tensor whose axis lengths are dims. */
  predicate HasShape(t: Tensor, dims: seq<nat>)
    decreases t
  {
    match t
    case Scalar(_) => dims == []
    case Array(items) =>
      && |dims| > 0 && |items| == dims[0]
      && forall i :: 0 <= i < |items| ==> HasShape(items[i], dims[1..])
  }

  /** What an index expression does along one axis, once Python has resolved it. */
  datatype AxisOp =
    | Take(indices: seq<int>)  // a slice: keep the axis, select these positions
    | Pick(k: int)             // an int: select one position and drop the axis
    | NewAxis                  // None: insert an axis of length 1

  /** ops spends exactly the axes of dims, with every position in range. */
  predicate OpsFit(ops: seq<AxisOp>, dims: seq<nat>)
    decreases |ops|
  {
    if |ops| == 0 then dims == []
    else match ops[0]
      case NewAxis => OpsFit(ops[1..], dims)
      case Take(idx) =>
        && |dims| > 0 && (forall j :: 0 <= j < |idx| ==> 0 <= idx[j] < dims[0])
        && OpsFit(ops[1..], dims[1..])
      case Pick(k) => |dims| > 0 && 0 <= k < dims[0] && OpsFit(ops[1..], dims[1..])
  }

  function ResultDims(ops: seq<AxisOp>, dims: seq<nat>): seq<nat>
    requires OpsFit(ops, dims)
    decreases |ops|
  {
    if |ops| == 0 then []
    else match ops[0]
      case NewAxis => [1] + ResultDims(ops[1..], dims)
      case Take(idx) => [|idx|] + ResultDims(ops[1..], dims[1..])
      case Pick(_) => ResultDims(ops[1..], dims[1..])
  }

  lemma ResultDimsTake(idx: seq<int>, rest: seq<AxisOp>, dims: seq<nat>)
    requires OpsFit([Take(idx)] + rest, dims)
    ensures |dims| > 0 && OpsFit(rest, dims[1..])
    ensures ResultDims([Take(idx)] + rest, dims) == [|idx|] + ResultDims(rest, dims[1..])
  {
    assert ([Take(idx)] + rest)[1..] == rest;
  }

  lemma ResultDimsPick(k: int, rest: seq<AxisOp>, dims: seq<nat>)
    requires OpsFit([Pick(k)] + rest, dims)
    ensures |dims| > 0 && OpsFit(rest, dims[1..])
    ensures ResultDims([Pick(k)] + rest, dims) == ResultDims(rest, dims[1..])
  {
    assert ([Pick(k)] + rest)[1..] == rest;
  }

  /** t[ops]: basic indexing, one axis operation after another. */
  function Apply(t: Tensor, dims: seq<nat>, ops: seq<AxisOp>): (r: Tensor)
    requires HasShape(t, dims) && OpsFit(ops, dims)
    ensures HasShape(r, ResultDims(ops, dims))
    decreases |ops|
  {
    if |ops| == 0 then t
    else match ops[0]
      case NewAxis => Array([Apply(t, dims, ops[1..])])
      case Take(idx) =>
        Array(seq(|idx|, j requires 0 <= j < |idx| => Apply(t.items[idx[j]], dims[1..], ops[1..])))
      case Pick(k) => Apply(t.items[k], dims[1..], ops[1..])
  }

  /** Sub-tensor i along the first axis. */
  function Item(t: Tensor, dims: seq<nat>, i: int): (r: Tensor)
    requires HasShape(t, dims) && |dims| > 0 && 0 <= i < dims[0]
    ensures HasShape(r, dims[1..])
  {
    t.items[i]
  }

  /** Gather sub-tensors of one shape into a tensor with a new leading axis. */
  function Stack(parts: seq<Tensor>, dims: seq<nat>): (r: Tensor)
    requires forall i :: 0 <= i < |parts| ==> HasShape(parts[i], dims)
    ensures HasShape(r, [|parts|] + dims) && r.items == parts
  {
    assert ([|parts|] + dims)[1..] == dims;
    Array(parts)
  }

  /** The element of a rank-3 tensor at position (i, j, k). */
  function Get3(t: Tensor, dims: seq<nat>, i: int, j: int, k: int): (r: Tensor)
    requires |dims| == 3 && HasShape(t, dims)
    requires 0 <= i < dims[0] && 0 <= j < dims[1] && 0 <= k < dims[2]
  {
    Item(Item(Item(t, dims, i), dims[1..], j), dims[2..], k)
  }

  /** The element of a rank-4 tensor at position (i, j, k, l). */
  function Get4(t: Tensor, dims: seq<nat>, i: int, j: int, k: int, l: int): (r: Tensor)
    requires |dims| == 4 && HasShape(t, dims)
    requires 0 <= i < dims[0] && 0 <= j < dims[1] && 0 <= k < dims[2] && 0 <= l < dims[3]
  {
    Item(Item(Item(Item(t, dims, i), dims[1..], j), dims[2..], k), dims[3..], l)
  }

  /** K.permute_dimensions(t, [0, 2, 1]) on a rank-3 tensor. */
  function Permute021(t: Tensor, dims: seq<nat>): (r: Tensor)
    requires |dims| == 3 && HasShape(t, dims)
    ensures HasShape(r, [dims[0], dims[2], dims[1]])
    ensures forall i, j, k :: 0 <= i < dims[0] && 0 <= j < dims[2] && 0 <= k < dims[1] ==>
      Get3(r, [dims[0], dims[2], dims[1]], i, j, k) == Get3(t, dims, i, k, j)
  {
    var r := Stack(seq(dims[0], i requires 0 <= i < dims[0] =>
      Stack(seq(dims[2], j requires 0 <= j < dims[2] =>
        Stack(seq(dims[1], k requires 0 <= k < dims[1] => Get3(t, dims, i, k, j)), [])), [dims[1]])),
      [dims[2], dims[1]]);
    assert [dims[0]] + [dims[2], dims[1]] == [dims[0], dims[2], dims[1]];
    r
  }

  /** K.permute_dimensions(t, (0, 3, 1, 2)) on a rank-4 tensor. */
  function Permute0312(t: Tensor, dims: seq<nat>): (r: Tensor)
    requires |dims| == 4 && HasShape(t, dims)
    ensures HasShape(r, [dims[0], dims[3], dims[1], dims[2]])
    ensures forall i, l, j, k :: 0 <= i < dims[0] && 0 <= l < dims[3] && 0 <= j < dims[1] && 0 <= k < dims[2] ==>
      Get4(r, [dims[0], dims[3], dims[1], dims[2]], i, l, j, k) == Get4(t, dims, i, j, k, l)
  {
    var r := Stack(seq(dims[0], i requires 0 <= i < dims[0] =>
      Stack(seq(dims[3], l requires 0 <= l < dims[3] =>
        Stack(seq(dims[1], j requires 0 <= j < dims[1] =>
          Stack(seq(dims[2], k requires 0 <= k < dims[2] => Get4(t, dims, i, j, k, l)), [])), [dims[2]])),
        [dims[1], dims[2]])),
      [dims[3], dims[1], dims[2]]);
    assert [dims[0]] + [dims[3], dims[1], dims[2]] == [dims[0], dims[3], dims[1], dims[2]];
    r
  }

  /** K.expand_dims(t, -1): every sample becomes a one-element vector. */
  function ExpandLast(t: Tensor, dims: seq<nat>): (r: Tensor)
    requires HasShape(t, dims)
    ensures HasShape(r, dims + [1])
    decreases t
  {
    match t
    case Scalar(_) => Stack([t], [])
    case Array(items) =>
      assert dims + [1] == [dims[0]] + (dims[1..] + [1]);
      Stack(seq(|items|, i requires 0 <= i < |items| => ExpandLast(items[i], dims[1..])), dims[1..] + [1])
  }

  /** Both tensors are built the same way: same nesting, same lengths. */
  predicate SameShape(a: Tensor, b: Tensor)
    decreases a
  {
    match a
    case Scalar(_) => b.Scalar?
    case Array(xs) =>
      b.Array? && |xs| == |b.items| && forall i :: 0 <= i < |xs| ==> SameShape(xs[i], b.items[i])
  }

  lemma {:induction false} ShapeIsSameShape(a: Tensor, b: Tensor, dims: seq<nat>)
    requires HasShape(a, dims) && HasShape(b, dims)
    ensures SameShape(a, b)
    decreases a
  {
    match a
    case Scalar(_) =>
    case Array(xs) =>
      forall i | 0 <= i < |xs| ensures SameShape(xs[i], b.items[i]) {
        ShapeIsSameShape(xs[i], b.items[i], dims[1..]);
      }
  }

  lemma {:induction false} SameShapeHasShape(a: Tensor, b: Tensor, dims: seq<nat>)
    requires SameShape(a, b) && HasShape(b, dims)
    ensures HasShape(a, dims)
    decreases a
  {
    match a
    case Scalar(_) =>
    case Array(xs) =>
      forall i | 0 <= i < |xs| ensures HasShape(xs[i], dims[1..]) {
        SameShapeHasShape(xs[i], b.items[i], dims[1..]);
      }
  }

  /** Elementwise a - b. */
  function Minus(a: Tensor, b: Tensor): (r: Tensor)
    requires SameShape(a, b)
    decreases a
  {
    match a
    case Scalar(x) => Scalar(x - b.v)
    case Array(xs) => Array(seq(|xs|, i requires 0 <= i < |xs| => Minus(xs[i], b.items[i])))
  }

  /** Elementwise a + b. */
  function Plus(a: Tensor, b: Tensor): (r: Tensor)
    requires SameShape(a, b)
    decreases a
  {
    match a
    case Scalar(x) => Scalar(x + b.v)
    case Array(xs) => Array(seq(|xs|, i requires 0 <= i < |xs| => Plus(xs[i], b.items[i])))
  }

  /** The difference keeps the shape, and adding the subtrahend back restores the minuend. */
  lemma {:induction false} PlusMinus(a: Tensor, b: Tensor)
    requires SameShape(a, b)
    ensures SameShape(Minus(a, b), b) && Plus(Minus(a, b), b) == a
    decreases a
  {
    match a
    case Scalar(_) =>
    case Array(xs) =>
      var d := Minus(a, b);
      forall i | 0 <= i < |xs| ensures SameShape(d.items[i], b.items[i]) && Plus(d.items[i], b.items[i]) == xs[i] {
        PlusMinus(xs[i], b.items[i]);
      }
      assert Plus(d, b).items == xs;
  }
}
