/**
 * The custom Keras layers of wavenet/layers.py: AddSingletonDepth,
 * Subtract and Slice, each with the shape it declares and what it
 * computes, and the text codec Slice uses to save its selector and
 * output shape in a layer configuration.
 *
 * A shape is a tuple of Python values (PyNone for the batch axis, PyInt
 * for a known length); a tensor is a Tensors.Tensor together with its
 * axis lengths.
 */
module Layers {
  import opened Wrappers
  import opened PyText
  import opened PyValues
  import opened Tensors

  // ---------------------------------------------------------------- AddSingletonDepth

  /** AddSingletonDepth.compute_output_shape; a tuple shorter than two raises IndexError. */
  function AddSingletonDepthShape(inputShape: seq<PyValue>): Result<seq<PyValue>, PyError> {
    if |inputShape| == 3 then Ok([inputShape[0], PyInt(1), inputShape[1], inputShape[2]])
    else if |inputShape| >= 2 then Ok([inputShape[0], inputShape[1], PyInt(1)])
    else Err(IndexError)
  }

  /** AddSingletonDepth.call: add a trailing unit axis, then move it to position 1 if the result has rank 4. */
  function AddSingletonDepthCall(t: Tensor, dims: seq<nat>): (r: (Tensor, seq<nat>))
    requires HasShape(t, dims)
    ensures HasShape(r.0, r.1)
  {
    var e := ExpandLast(t, dims);
    if |dims| + 1 == 4 then
      var d := dims + [1];
      (Permute0312(e, d), [d[0], d[3], d[1], d[2]])
    else (e, dims + [1])
  }

  lemma ExpandLastItem(t: Tensor, dims: seq<nat>, i: int)
    requires HasShape(t, dims) && |dims| > 0 && 0 <= i < dims[0]
    ensures (dims + [1])[1..] == dims[1..] + [1]
    ensures Item(ExpandLast(t, dims), dims + [1], i) == ExpandLast(Item(t, dims, i), dims[1..])
  {
    assert (dims + [1])[1..] == dims[1..] + [1];
  }

  /**
   * On a (batch, n) tensor the call yields (batch, n, 1) holding each
   * sample as a one-element vector, and compute_output_shape declares
   * exactly that shape.
   */
  lemma AddSingletonDepthRank2(t: Tensor, b: nat, n: nat)
    requires HasShape(t, [b, n])
    ensures AddSingletonDepthCall(t, [b, n]).1 == [b, n, 1]
    ensures AddSingletonDepthShape(AsShape([b, n])) == Ok(AsShape([b, n, 1]))
    ensures forall i, j :: 0 <= i < b && 0 <= j < n ==>
      Get3(AddSingletonDepthCall(t, [b, n]).0, [b, n, 1], i, j, 0) == Item(Item(t, [b, n], i), [n], j)
  {
    var e := ExpandLast(t, [b, n]);
    assert AsShape([b, n]) == [PyInt(b), PyInt(n)];
    assert AsShape([b, n, 1]) == [PyInt(b), PyInt(n), PyInt(1)];
    assert [b, n] + [1] == [b, n, 1];
    forall i, j | 0 <= i < b && 0 <= j < n
      ensures Get3(e, [b, n, 1], i, j, 0) == Item(Item(t, [b, n], i), [n], j)
    {
      ExpandLastItem(t, [b, n], i);
      var ti := Item(t, [b, n], i);
      assert [b, n][1..] == [n];
      ExpandLastItem(ti, [n], j);
      assert [n][1..] == [];
      var tij := Item(ti, [n], j);
      assert tij.Scalar?;
      assert [b, n, 1][1..] == [n, 1] && [b, n, 1][2..] == [1];
    }
  }

  /**
   * On a (batch, n, c) tensor the call yields (batch, 1, n, c) holding
   * the input unchanged under the new unit axis, and
   * compute_output_shape declares exactly that shape.
   */
  lemma AddSingletonDepthRank3(t: Tensor, b: nat, n: nat, c: nat)
    requires HasShape(t, [b, n, c])
    ensures AddSingletonDepthCall(t, [b, n, c]).1 == [b, 1, n, c]
    ensures AddSingletonDepthShape(AsShape([b, n, c])) == Ok(AsShape([b, 1, n, c]))
    ensures forall i, j, k :: 0 <= i < b && 0 <= j < n && 0 <= k < c ==>
      Get4(AddSingletonDepthCall(t, [b, n, c]).0, [b, 1, n, c], i, 0, j, k) == Get3(t, [b, n, c], i, j, k)
  {
    var d := [b, n, c] + [1];
    assert d == [b, n, c, 1];
    assert AsShape([b, n, c]) == [PyInt(b), PyInt(n), PyInt(c)];
    assert AsShape([b, 1, n, c]) == [PyInt(b), PyInt(1), PyInt(n), PyInt(c)];
    var e := ExpandLast(t, [b, n, c]);
    forall i, j, k | 0 <= i < b && 0 <= j < n && 0 <= k < c
      ensures Get4(e, d, i, j, k, 0) == Get3(t, [b, n, c], i, j, k)
    {
      ExpandLastItem(t, [b, n, c], i);
      var ti := Item(t, [b, n, c], i);
      assert [b, n, c][1..] == [n, c] && [b, n, c][2..] == [c];
      ExpandLastItem(ti, [n, c], j);
      var tij := Item(ti, [n, c], j);
      assert [n, c][1..] == [c];
      ExpandLastItem(tij, [c], k);
      assert [c][1..] == [];
      assert d[1..] == [n, c, 1] && d[2..] == [c, 1] && d[3..] == [1];
    }
  }

  // ---------------------------------------------------------------- Subtract

  /** Subtract.compute_output_shape: the shape of the first input, unchecked. */
  function SubtractShape(inputShapes: seq<seq<PyValue>>): Result<seq<PyValue>, PyError> {
    if |inputShapes| == 0 then Err(IndexError) else Ok(inputShapes[0])
  }

  /**
   * Subtract.call: x[0] - x[1] elementwise.  Inputs of different shapes
   * are reported as an error (broadcasting is not modelled).
   */
  function SubtractCall(x: seq<Tensor>): (r: Result<Tensor, PyError>)
    ensures r.Ok? <==> |x| >= 2 && SameShape(x[0], x[1])
    ensures r.Ok? ==> SameShape(r.value, x[1]) && Plus(r.value, x[1]) == x[0]
  {
    if |x| < 2 then Err(IndexError)
    else if SameShape(x[0], x[1]) then
      PlusMinus(x[0], x[1]);
      Ok(Minus(x[0], x[1]))
    else Err(ValueError)
  }

  /** Two inputs of one shape give a result of that shape, which is what compute_output_shape declares. */
  lemma SubtractAgrees(x0: Tensor, x1: Tensor, dims: seq<nat>)
    requires HasShape(x0, dims) && HasShape(x1, dims)
    ensures SubtractCall([x0, x1]).Ok?
    ensures HasShape(SubtractCall([x0, x1]).value, dims)
    ensures SubtractShape([AsShape(dims), AsShape(dims)]) == Ok(AsShape(dims))
  {
    ShapeIsSameShape(x0, x1, dims);
    var r := SubtractCall([x0, x1]);
    SameShapeHasShape(r.value, x1, dims);
  }

  // ---------------------------------------------------------------- Slice

  /** A Slice layer: the index expression it applies and the output shape it declares, fixed at construction. */
  datatype SliceLayer = SliceLayer(selector: seq<PyValue>, desiredOutputShape: seq<PyValue>)

  /**
   * Slice.compute_output_shape: a leading None, then each desired length,
   * where Ellipsis takes the input's length at the same position; an
   * Ellipsis beyond the input's axes raises IndexError.
   */
  method ComputeOutputShape(layer: SliceLayer, inputShape: seq<PyValue>) returns (r: Result<seq<PyValue>, PyError>)
    ensures r.Ok? <==> forall i :: 0 <= i < |layer.desiredOutputShape| && layer.desiredOutputShape[i] == PyEllipsis ==> i + 1 < |inputShape|
    ensures r.Err? ==> r.error == IndexError
    ensures r.Ok? ==> |r.value| == |layer.desiredOutputShape| + 1 && r.value[0] == PyNone
    ensures r.Ok? ==> forall i :: 0 <= i < |layer.desiredOutputShape| ==>
      r.value[i + 1] == if layer.desiredOutputShape[i] == PyEllipsis then inputShape[i + 1] else layer.desiredOutputShape[i]
  {
    var desired := layer.desiredOutputShape;
    var outputShape := [PyNone];
    var i := 0;
    while i < |desired|
      invariant 0 <= i <= |desired|
      invariant |outputShape| == i + 1 && outputShape[0] == PyNone
      invariant forall j :: 0 <= j < i && desired[j] == PyEllipsis ==> j + 1 < |inputShape|
      invariant forall j :: 0 <= j < i ==>
        outputShape[j + 1] == if desired[j] == PyEllipsis then inputShape[j + 1] else desired[j]
    {
      if desired[i] == PyEllipsis {
        if i + 1 >= |inputShape| {
          return Err(IndexError);
        }
        outputShape := outputShape + [inputShape[i + 1]];
      } else {
        outputShape := outputShape + [desired[i]];
      }
      i := i + 1;
    }
    return Ok(outputShape);
  }

  /** call swaps a two-element selector whose second element is neither a slice nor an int. */
  predicate Swaps(selector: seq<PyValue>) {
    |selector| == 2 && !(selector[1].PySlice? || selector[1].PyInt?)
  }

  /** Selector elements that use up an axis of the indexed tensor. */
  predicate Consumes(v: PyValue) {
    v.PySlice? || v.PyInt?
  }

  function CountConsuming(sel: seq<PyValue>): (n: nat)
    ensures n <= |sel|
  {
    if |sel| == 0 then 0 else (if Consumes(sel[0]) then 1 else 0) + CountConsuming(sel[1..])
  }

  function CountEllipsis(sel: seq<PyValue>): nat {
    if |sel| == 0 then 0 else (if sel[0] == PyEllipsis then 1 else 0) + CountEllipsis(sel[1..])
  }

  /** n copies of ':'. */
  function FullSlices(n: nat): (r: seq<PyValue>)
    ensures |r| == n && forall i :: 0 <= i < n ==> r[i] == PySlice(None, None, None)
  {
    seq(n, i => PySlice(None, None, None))
  }

  /** Replace the Ellipsis by n copies of ':', or append them when there is none. */
  function ExpandEllipsis(sel: seq<PyValue>, n: nat): seq<PyValue> {
    if |sel| == 0 then FullSlices(n)
    else if sel[0] == PyEllipsis then FullSlices(n) + sel[1..]
    else [sel[0]] + ExpandEllipsis(sel[1..], n)
  }

  /** Turn an Ellipsis-free selector into one operation per axis, as Python resolves an index expression. */
  function ResolveAxes(items: seq<PyValue>, dims: seq<nat>): (r: Result<seq<AxisOp>, PyError>)
    ensures r.Ok? ==> OpsFit(r.value, dims)
    decreases |items|
  {
    if |items| == 0 then
      if |dims| == 0 then Ok([]) else Err(IndexError)
    else match items[0]
      case PyNone =>
        var rest :- ResolveAxes(items[1..], dims);
        Ok([NewAxis] + rest)
      case PySlice(start, stop, step) =>
        if |dims| == 0 then Err(IndexError)
        else
          var idx :- SliceIndices(dims[0], start, stop, step);
          var rest :- ResolveAxes(items[1..], dims[1..]);
          Ok([Take(idx)] + rest)
      case PyInt(k) =>
        if |dims| == 0 then Err(IndexError)
        else
          var pos :- NormalizeIndex(k, dims[0]);
          var rest :- ResolveAxes(items[1..], dims[1..]);
          Ok([Pick(pos)] + rest)
      case PyEllipsis => Err(IndexError)
      case PyStr(_) => Err(TypeError)
  }

  lemma ResolveSliceFirst(start: Option<int>, stop: Option<int>, step: Option<int>, rest: seq<PyValue>, dims: seq<nat>, idx: seq<int>, ops: seq<AxisOp>)
    requires |dims| > 0 && SliceIndices(dims[0], start, stop, step) == Ok(idx)
    requires ResolveAxes(rest, dims[1..]) == Ok(ops)
    ensures ResolveAxes([PySlice(start, stop, step)] + rest, dims) == Ok([Take(idx)] + ops)
  {
    assert ([PySlice(start, stop, step)] + rest)[1..] == rest;
  }

  lemma ResolveIntFirst(k: int, pos: int, rest: seq<PyValue>, dims: seq<nat>, ops: seq<AxisOp>)
    requires |dims| > 0 && NormalizeIndex(k, dims[0]) == Ok(pos)
    requires ResolveAxes(rest, dims[1..]) == Ok(ops)
    ensures ResolveAxes([PyInt(k)] + rest, dims) == Ok([Pick(pos)] + ops)
  {
    assert ([PyInt(k)] + rest)[1..] == rest;
  }

  /** t[selector] with basic indexing: at most one Ellipsis, no more slices and ints than axes. */
  function Index(t: Tensor, dims: seq<nat>, selector: seq<PyValue>): (r: Result<(Tensor, seq<nat>), PyError>)
    requires HasShape(t, dims)
    ensures r.Ok? ==> HasShape(r.value.0, r.value.1)
  {
    if CountEllipsis(selector) > 1 || CountConsuming(selector) > |dims| then Err(IndexError)
    else
      var ops :- ResolveAxes(ExpandEllipsis(selector, |dims| - CountConsuming(selector)), dims);
      Ok((Apply(t, dims, ops), ResultDims(ops, dims)))
  }

  /**
   * Slice.call.  A two-element selector whose second element is neither a
   * slice nor an int is applied swapped to the tensor with its last two
   * axes exchanged, and the result is exchanged back.
   */
  function SliceCall(layer: SliceLayer, t: Tensor, dims: seq<nat>): (r: Result<(Tensor, seq<nat>), PyError>)
    requires HasShape(t, dims)
    ensures r.Ok? ==> HasShape(r.value.0, r.value.1)
  {
    var sel := layer.selector;
    if Swaps(sel) then
      if |dims| != 3 then Err(ValueError)
      else
        var y :- Index(Permute021(t, dims), [dims[0], dims[2], dims[1]], [sel[1], sel[0]]);
        if |y.1| != 3 then Err(ValueError)
        else Ok((Permute021(y.0, y.1), [y.1[0], y.1[2], y.1[1]]))
    else Index(t, dims, sel)
  }

  /** Indexing a rank-3 tensor with three slices picks the element at the three selected positions. */
  lemma ApplyThreeTakes(t: Tensor, dims: seq<nat>, I: seq<int>, J: seq<int>, K: seq<int>)
    requires |dims| == 3 && HasShape(t, dims)
    requires forall i :: 0 <= i < |I| ==> 0 <= I[i] < dims[0]
    requires forall j :: 0 <= j < |J| ==> 0 <= J[j] < dims[1]
    requires forall k :: 0 <= k < |K| ==> 0 <= K[k] < dims[2]
    ensures OpsFit([Take(I), Take(J), Take(K)], dims)
    ensures ResultDims([Take(I), Take(J), Take(K)], dims) == [|I|, |J|, |K|]
    ensures forall i, j, k :: 0 <= i < |I| && 0 <= j < |J| && 0 <= k < |K| ==>
      Get3(Apply(t, dims, [Take(I), Take(J), Take(K)]), [|I|, |J|, |K|], i, j, k) == Get3(t, dims, I[i], J[j], K[k])
  {
    var ops := [Take(I), Take(J), Take(K)];
    var o2, o3 := [Take(J), Take(K)], [Take(K)];
    assert ops[1..] == o2 && o2[1..] == o3 && o3[1..] == [];
    assert dims[1..][1..] == dims[2..] && dims[2..][1..] == [];
    assert OpsFit([], dims[2..][1..]) && ResultDims([], dims[2..][1..]) == [];
    assert OpsFit(o3, dims[2..]) && OpsFit(o2, dims[1..]) && OpsFit(ops, dims);
    assert o3 == [Take(K)] + [] && o2 == [Take(J)] + o3 && ops == [Take(I)] + o2;
    ResultDimsTake(K, [], dims[2..]);
    ResultDimsTake(J, o3, dims[1..]);
    ResultDimsTake(I, o2, dims);
    assert [|I|] + ([|J|] + ([|K|] + [])) == [|I|, |J|, |K|];
    var r := Apply(t, dims, ops);
    forall i, j, k | 0 <= i < |I| && 0 <= j < |J| && 0 <= k < |K|
      ensures Get3(r, [|I|, |J|, |K|], i, j, k) == Get3(t, dims, I[i], J[j], K[k])
    {
      var ti := Item(t, dims, I[i]);
      var tij := Item(ti, dims[1..], J[j]);
      assert Item(r, [|I|, |J|, |K|], i) == Apply(ti, dims[1..], ops[1..]);
      assert Item(Apply(ti, dims[1..], ops[1..]), [|J|, |K|], j) == Apply(tij, dims[2..], [Take(K)]);
      assert Item(Apply(tij, dims[2..], [Take(K)]), [|K|], k) == Apply(Item(tij, dims[2..], K[k]), [], []);
    }
  }

  /** Indexing a rank-3 tensor with two slices and an int drops the last axis at that position. */
  lemma ApplyTwoTakesPick(t: Tensor, dims: seq<nat>, I: seq<int>, J: seq<int>, k: int)
    requires |dims| == 3 && HasShape(t, dims)
    requires forall i :: 0 <= i < |I| ==> 0 <= I[i] < dims[0]
    requires forall j :: 0 <= j < |J| ==> 0 <= J[j] < dims[1]
    requires 0 <= k < dims[2]
    ensures OpsFit([Take(I), Take(J), Pick(k)], dims)
    ensures ResultDims([Take(I), Take(J), Pick(k)], dims) == [|I|, |J|]
    ensures forall i, j :: 0 <= i < |I| && 0 <= j < |J| ==>
      Item(Item(Apply(t, dims, [Take(I), Take(J), Pick(k)]), [|I|, |J|], i), [|J|], j) == Get3(t, dims, I[i], J[j], k)
  {
    var ops := [Take(I), Take(J), Pick(k)];
    var o2, o3 := [Take(J), Pick(k)], [Pick(k)];
    assert ops[1..] == o2 && o2[1..] == o3 && o3[1..] == [];
    assert dims[1..][1..] == dims[2..] && dims[2..][1..] == [];
    assert OpsFit([], dims[2..][1..]) && ResultDims([], dims[2..][1..]) == [];
    assert OpsFit(o3, dims[2..]) && OpsFit(o2, dims[1..]) && OpsFit(ops, dims);
    assert o3 == [Pick(k)] + [] && o2 == [Take(J)] + o3 && ops == [Take(I)] + o2;
    ResultDimsPick(k, [], dims[2..]);
    ResultDimsTake(J, o3, dims[1..]);
    ResultDimsTake(I, o2, dims);
    assert [|I|] + ([|J|] + []) == [|I|, |J|];
    var r := Apply(t, dims, ops);
    forall i, j | 0 <= i < |I| && 0 <= j < |J|
      ensures Item(Item(r, [|I|, |J|], i), [|J|], j) == Get3(t, dims, I[i], J[j], k)
    {
      var ti := Item(t, dims, I[i]);
      var tij := Item(ti, dims[1..], J[j]);
      assert Item(r, [|I|, |J|], i) == Apply(ti, dims[1..], ops[1..]);
      assert Item(Apply(ti, dims[1..], ops[1..]), [|J|], j) == Apply(tij, dims[2..], [Pick(k)]);
      assert Apply(tij, dims[2..], [Pick(k)]) == Apply(Item(tij, dims[2..], k), [], []);
    }
  }

  /** A selector (Ellipsis, last) on a rank-3 tensor resolves to ':' on the first two axes and last on the third. */
  lemma ResolveEllipsisThenLast(dims: seq<nat>, last: PyValue, op: AxisOp)
    requires |dims| == 3 && Consumes(last)
    requires ResolveAxes([last], [dims[2]]) == Ok([op])
    ensures CountEllipsis([PyEllipsis, last]) == 1 && CountConsuming([PyEllipsis, last]) == 1
    ensures ResolveAxes(ExpandEllipsis([PyEllipsis, last], 2), dims) ==
      Ok([Take(Range(0, dims[0])), Take(Range(0, dims[1])), op])
  {
    var full := PySlice(None, None, None);
    var items := ExpandEllipsis([PyEllipsis, last], 2);
    assert [PyEllipsis, last][1..] == [last] && [last][1..] == [];
    assert FullSlices(2) == [full, full];
    assert items == [full] + ([full] + [last]);
    assert dims[1..] == [dims[1], dims[2]] && dims[1..][1..] == [dims[2]];
    FullSliceIndices(dims[0]);
    FullSliceIndices(dims[1]);
    ResolveSliceFirst(None, None, None, [last], dims[1..], Range(0, dims[1]), [op]);
    ResolveSliceFirst(None, None, None, [full] + [last], dims, Range(0, dims[0]), [Take(Range(0, dims[1]))] + [op]);
    assert [Take(Range(0, dims[0]))] + ([Take(Range(0, dims[1]))] + [op]) == [Take(Range(0, dims[0])), Take(Range(0, dims[1])), op];
    assert CountEllipsis([]) == 0 && CountConsuming([]) == 0;
    assert CountEllipsis([last]) == 0 && CountConsuming([last]) == 1;
  }

  /** Index once the selector has resolved to one operation per axis. */
  lemma IndexResolves(t: Tensor, dims: seq<nat>, selector: seq<PyValue>, ops: seq<AxisOp>)
    requires HasShape(t, dims)
    requires CountEllipsis(selector) <= 1 && CountConsuming(selector) <= |dims|
    requires ResolveAxes(ExpandEllipsis(selector, |dims| - CountConsuming(selector)), dims) == Ok(ops)
    ensures Index(t, dims, selector) == Ok((Apply(t, dims, ops), ResultDims(ops, dims)))
  {
  }

  lemma LastAxisSliceResolves(dims: seq<nat>, start: Option<int>, stop: Option<int>, step: Option<int>, idx: seq<int>)
    requires |dims| == 3
    requires SliceIndices(dims[2], start, stop, step) == Ok(idx)
    ensures CountEllipsis([PyEllipsis, PySlice(start, stop, step)]) == 1
    ensures CountConsuming([PyEllipsis, PySlice(start, stop, step)]) == 1
    ensures ResolveAxes(ExpandEllipsis([PyEllipsis, PySlice(start, stop, step)], 2), dims) ==
      Ok([Take(Range(0, dims[0])), Take(Range(0, dims[1])), Take(idx)])
  {
    var last := PySlice(start, stop, step);
    assert [dims[2]][1..] == [] && [last] + [] == [last] && [Take(idx)] + [] == [Take(idx)];
    ResolveSliceFirst(start, stop, step, [], [dims[2]], idx, []);
    ResolveEllipsisThenLast(dims, last, Take(idx));
  }

  /** Taking every position of the first two axes and idx of the last. */
  lemma TakeAllButLast(t: Tensor, dims: seq<nat>, idx: seq<int>)
    requires |dims| == 3 && HasShape(t, dims)
    requires forall k :: 0 <= k < |idx| ==> 0 <= idx[k] < dims[2]
    ensures OpsFit([Take(Range(0, dims[0])), Take(Range(0, dims[1])), Take(idx)], dims)
    ensures ResultDims([Take(Range(0, dims[0])), Take(Range(0, dims[1])), Take(idx)], dims) == [dims[0], dims[1], |idx|]
    ensures forall i, j, k :: 0 <= i < dims[0] && 0 <= j < dims[1] && 0 <= k < |idx| ==>
      Get3(Apply(t, dims, [Take(Range(0, dims[0])), Take(Range(0, dims[1])), Take(idx)]), [dims[0], dims[1], |idx|], i, j, k)
        == Get3(t, dims, i, j, idx[k])
  {
    var I, J := Range(0, dims[0]), Range(0, dims[1]);
    ApplyThreeTakes(t, dims, I, J, idx);
    forall i, j, k | 0 <= i < dims[0] && 0 <= j < dims[1] && 0 <= k < |idx|
      ensures Get3(Apply(t, dims, [Take(I), Take(J), Take(idx)]), [dims[0], dims[1], |idx|], i, j, k) == Get3(t, dims, i, j, idx[k])
    {
      assert I[i] == i && J[j] == j;
    }
  }

  /** t[..., start:stop:step] on a rank-3 tensor selects positions idx along the last axis. */
  lemma IndexLastAxis(t: Tensor, dims: seq<nat>, start: Option<int>, stop: Option<int>, step: Option<int>, idx: seq<int>)
    requires |dims| == 3 && HasShape(t, dims)
    requires SliceIndices(dims[2], start, stop, step) == Ok(idx)
    ensures Index(t, dims, [PyEllipsis, PySlice(start, stop, step)]).Ok?
    ensures Index(t, dims, [PyEllipsis, PySlice(start, stop, step)]).value.1 == [dims[0], dims[1], |idx|]
    ensures forall i, j, k :: 0 <= i < dims[0] && 0 <= j < dims[1] && 0 <= k < |idx| ==>
      Get3(Index(t, dims, [PyEllipsis, PySlice(start, stop, step)]).value.0, [dims[0], dims[1], |idx|], i, j, k)
        == Get3(t, dims, i, j, idx[k])
  {
    var last := PySlice(start, stop, step);
    LastAxisSliceResolves(dims, start, stop, step, idx);
    var ops := [Take(Range(0, dims[0])), Take(Range(0, dims[1])), Take(idx)];
    TakeAllButLast(t, dims, idx);
    IndexResolves(t, dims, [PyEllipsis, last], ops);
  }

  /**
   * The net effect of a selector (Ellipsis, start:stop:step), as the
   * residual blocks use it: x[:, :, s], a slice of the channel axis.
   */
  lemma SliceChannels(layer: SliceLayer, t: Tensor, dims: seq<nat>, idx: seq<int>)
    requires |dims| == 3 && HasShape(t, dims)
    requires |layer.selector| == 2 && layer.selector[0] == PyEllipsis && layer.selector[1].PySlice?
    requires SliceIndices(dims[2], layer.selector[1].start, layer.selector[1].stop, layer.selector[1].step) == Ok(idx)
    ensures SliceCall(layer, t, dims).Ok?
    ensures SliceCall(layer, t, dims).value.1 == [dims[0], dims[1], |idx|]
    ensures forall i, j, k :: 0 <= i < dims[0] && 0 <= j < dims[1] && 0 <= k < |idx| ==>
      Get3(SliceCall(layer, t, dims).value.0, [dims[0], dims[1], |idx|], i, j, k) == Get3(t, dims, i, j, idx[k])
  {
    var s := layer.selector[1];
    assert layer.selector == [PyEllipsis, PySlice(s.start, s.stop, s.step)];
    IndexLastAxis(t, dims, s.start, s.stop, s.step, idx);
  }

  /**
   * The net effect of a selector (start:stop:step, Ellipsis), as the
   * crops to the samples of interest use it: the tensor is permuted, the
   * swapped selector slices what is then the last axis, and permuting
   * back gives x[:, s, :], a slice of the time axis.
   */
  lemma SliceTime(layer: SliceLayer, t: Tensor, dims: seq<nat>, idx: seq<int>)
    requires |dims| == 3 && HasShape(t, dims)
    requires |layer.selector| == 2 && layer.selector[0].PySlice? && layer.selector[1] == PyEllipsis
    requires SliceIndices(dims[1], layer.selector[0].start, layer.selector[0].stop, layer.selector[0].step) == Ok(idx)
    ensures SliceCall(layer, t, dims).Ok?
    ensures SliceCall(layer, t, dims).value.1 == [dims[0], |idx|, dims[2]]
    ensures forall i, k, j :: 0 <= i < dims[0] && 0 <= k < |idx| && 0 <= j < dims[2] ==>
      Get3(SliceCall(layer, t, dims).value.0, [dims[0], |idx|, dims[2]], i, k, j) == Get3(t, dims, i, idx[k], j)
  {
    var s := layer.selector[0];
    var sel := layer.selector;
    assert Swaps(sel);
    var pd := [dims[0], dims[2], dims[1]];
    var p := Permute021(t, dims);
    assert [sel[1], sel[0]] == [PyEllipsis, PySlice(s.start, s.stop, s.step)];
    IndexLastAxis(p, pd, s.start, s.stop, s.step, idx);
    var y := Index(p, pd, [sel[1], sel[0]]).value;
    var yd := [dims[0], dims[2], |idx|];
    assert y.1 == yd;
    var r := SliceCall(layer, t, dims);
    assert r == Ok((Permute021(y.0, yd), [dims[0], |idx|, dims[2]]));
    forall i, k, j | 0 <= i < dims[0] && 0 <= k < |idx| && 0 <= j < dims[2]
      ensures Get3(r.value.0, [dims[0], |idx|, dims[2]], i, k, j) == Get3(t, dims, i, idx[k], j)
    {
      assert Get3(r.value.0, [dims[0], |idx|, dims[2]], i, k, j) == Get3(y.0, yd, i, j, k);
      assert Get3(y.0, yd, i, j, k) == Get3(p, pd, i, j, idx[k]);
    }
  }

  /** (Ellipsis, k) on a rank-3 tensor with k outside [-dims[2], dims[2]) fails on the last axis, as Python indexing does (IndexError). */
  lemma ResolveEllipsisThenBadInt(dims: seq<nat>, k: int)
    requires |dims| == 3 && NormalizeIndex(k, dims[2]).Err?
    ensures CountEllipsis([PyEllipsis, PyInt(k)]) == 1 && CountConsuming([PyEllipsis, PyInt(k)]) == 1
    ensures ResolveAxes(ExpandEllipsis([PyEllipsis, PyInt(k)], 2), dims) == Err(IndexError)
  {
    var full := PySlice(None, None, None);
    var last := PyInt(k);
    assert [PyEllipsis, last][1..] == [last] && [last][1..] == [];
    assert FullSlices(2) == [full, full];
    var items := ExpandEllipsis([PyEllipsis, last], 2);
    assert items == [full, full, last];
    assert items[1..] == [full, last] && items[1..][1..] == [last] && items[1..][1..][1..] == [];
    assert dims[1..] == [dims[1], dims[2]] && dims[1..][1..] == [dims[2]];
    FullSliceIndices(dims[0]);
    FullSliceIndices(dims[1]);
    assert ResolveAxes([last], [dims[2]]) == Err(IndexError);
    assert ResolveAxes(items[1..], dims[1..]) == Err(IndexError);
    assert CountEllipsis([]) == 0 && CountConsuming([]) == 0;
    assert CountEllipsis([last]) == 0 && CountConsuming([last]) == 1;
  }

  /**
   * The net effect of a selector (Ellipsis, k), as the condition halves
   * use it: x[..., k], the last axis dropped at position k, counted from
   * the end when k is negative; a k outside [-c, c) fails, with the error
   * class Python indexing gives (IndexError).
   */
  lemma SlicePick(layer: SliceLayer, t: Tensor, dims: seq<nat>, k: int)
    requires |dims| == 3 && HasShape(t, dims)
    requires layer.selector == [PyEllipsis, PyInt(k)]
    ensures SliceCall(layer, t, dims).Ok? <==> -dims[2] <= k < dims[2]
    ensures SliceCall(layer, t, dims).Err? ==> SliceCall(layer, t, dims).error == IndexError
    ensures SliceCall(layer, t, dims).Ok? ==> SliceCall(layer, t, dims).value.1 == [dims[0], dims[1]]
    ensures SliceCall(layer, t, dims).Ok? ==> forall i, j :: 0 <= i < dims[0] && 0 <= j < dims[1] ==>
      Item(Item(SliceCall(layer, t, dims).value.0, [dims[0], dims[1]], i), [dims[1]], j)
        == Get3(t, dims, i, j, if k < 0 then k + dims[2] else k)
  {
    if NormalizeIndex(k, dims[2]).Err? {
      ResolveEllipsisThenBadInt(dims, k);
      assert SliceCall(layer, t, dims) == Err(IndexError);
    } else {
      var pos := NormalizeIndex(k, dims[2]).value;
      assert pos == if k < 0 then k + dims[2] else k;
      assert [dims[2]][1..] == [] && [PyInt(k)] + [] == [PyInt(k)] && [Pick(pos)] + [] == [Pick(pos)];
      ResolveIntFirst(k, pos, [], [dims[2]], []);
      ResolveEllipsisThenLast(dims, PyInt(k), Pick(pos));
      var I, J := Range(0, dims[0]), Range(0, dims[1]);
      ApplyTwoTakesPick(t, dims, I, J, pos);
      var ops := [Take(I), Take(J), Pick(pos)];
      assert |I| == dims[0] && |J| == dims[1];
      var u := Apply(t, dims, ops);
      assert SliceCall(layer, t, dims) == Ok((u, [dims[0], dims[1]]));
      forall i, j | 0 <= i < dims[0] && 0 <= j < dims[1]
        ensures Item(Item(u, [dims[0], dims[1]], i), [dims[1]], j) == Get3(t, dims, i, j, pos)
      {
        assert I[i] == i && J[j] == j;
      }
    }
  }

  // ---------------------------------------------------------------- selector and shape codec

  /** How one field of a slice is written: its int in decimal, or None. */
  function FieldText(f: Option<int>): string {
    match f
    case None => "None"
    case Some(n) => IntToStr(n)
  }

  /**
   * One element of Slice._serialize_selector: a slice becomes the text
   * slice(start,stop,step), which is a slice text no longer holding a slice
   * object, and which _deserialize_selector turns back into the same slice;
   * every other element is kept, and comes back unchanged too unless it is
   * already a str starting with "slice".
   */
  function SerializeItem(v: PyValue): (r: PyValue)
    ensures !v.PySlice? ==> r == v
    ensures v.PySlice? ==> r == PyStr("slice(" + FieldText(v.start) + "," + FieldText(v.stop) + "," + FieldText(v.step) + ")")
    ensures !r.PySlice?
    ensures IsSliceText(r) <==> v.PySlice? || IsSliceText(v)
    ensures !IsSliceText(v) ==> DeserializeItem(r) == Ok(v)
  {
    match v
    case PySlice(start, stop, step) =>
      FieldTextRoundTrip(start);
      FieldTextRoundTrip(stop);
      FieldTextRoundTrip(step);
      SliceTextFields(FieldText(start), FieldText(stop), FieldText(step));
      var text := "slice(" + FieldText(start) + "," + FieldText(stop) + "," + FieldText(step) + ")";
      assert "slice" <= text;
      PyStr(text)
    case _ => v
  }

  /**
   * Slice._serialize_selector: the same number of elements, none of them
   * a slice object any more; the elements deserialisation will parse are
   * exactly the slices and the strs that already looked like one.
   */
  function SerializeSelector(selector: seq<PyValue>): (r: seq<PyValue>)
    ensures |r| == |selector|
    ensures forall i :: 0 <= i < |selector| ==> r[i] == SerializeItem(selector[i])
    ensures forall i :: 0 <= i < |r| ==> !r[i].PySlice?
    ensures forall i :: 0 <= i < |r| ==> (IsSliceText(r[i]) <==> selector[i].PySlice? || IsSliceText(selector[i]))
  {
    seq(|selector|, i requires 0 <= i < |selector| => SerializeItem(selector[i]))
  }

  /** An element _deserialize_selector parses: a str starting with "slice". */
  predicate IsSliceText(v: PyValue) {
    v.PyStr? && "slice" <= v.s
  }

  /** int(p) if p != 'None' else None, for one field of a slice text. */
  function ParseField(p: string): Result<Option<int>, PyError> {
    if p == "None" then Ok(None)
    else match ParseInt(p)
      case None => Err(ValueError)
      case Some(n) => Ok(Some(n))
  }

  function Found(r: Option<nat>): Result<nat, PyError> {
    match r
    case None => Err(ValueError)
    case Some(i) => Ok(i)
  }

  /** The text between the first "(" and the first ")", split at commas; str.index raises ValueError. */
  function SliceFieldTexts(s: string): Result<seq<string>, PyError> {
    var open :- Found(IndexOf(s, '('));
    var close :- Found(IndexOf(s, ')'));
    Ok(Split(Substring(s, open + 1, close), ','))
  }

  /**
   * slice(start, stop, step) from a slice text: the field texts must be
   * exactly three, each an int or None, or ValueError is raised.
   */
  function ParseSliceText(s: string): Result<PyValue, PyError> {
    var parts :- SliceFieldTexts(s);
    if |parts| != 3 then Err(ValueError)
    else
      var start :- ParseField(parts[0]);
      var stop :- ParseField(parts[1]);
      var step :- ParseField(parts[2]);
      Ok(PySlice(start, stop, step))
  }

  /** The text between the parentheses of a slice text splits into three fields, each an int or None. */
  predicate WellFormedSliceText(s: string) {
    SliceFieldTexts(s).Ok? && |SliceFieldTexts(s).value| == 3 &&
    ParseField(SliceFieldTexts(s).value[0]).Ok? &&
    ParseField(SliceFieldTexts(s).value[1]).Ok? &&
    ParseField(SliceFieldTexts(s).value[2]).Ok?
  }

  /**
   * One element of Slice._deserialize_selector: anything but a str
   * starting with "slice" is kept; a slice text becomes the slice of its
   * three parsed fields, and raises ValueError unless it is well formed.
   */
  function DeserializeItem(v: PyValue): (r: Result<PyValue, PyError>)
    ensures !IsSliceText(v) ==> r == Ok(v)
    ensures IsSliceText(v) ==> (r.Ok? <==> WellFormedSliceText(v.s))
    ensures IsSliceText(v) && r.Err? ==> r.error == ValueError
    ensures IsSliceText(v) && r.Ok? ==>
      var parts := SliceFieldTexts(v.s).value;
      r.value == PySlice(ParseField(parts[0]).value, ParseField(parts[1]).value, ParseField(parts[2]).value)
  {
    if IsSliceText(v) then ParseSliceText(v.s) else Ok(v)
  }

  /** What Slice._deserialize_selector returns: the elements deserialised front to back, or the first error. */
  function Deserialized(serialized: seq<PyValue>): Result<seq<PyValue>, PyError> {
    if |serialized| == 0 then Ok([])
    else
      var front :- Deserialized(serialized[..|serialized| - 1]);
      var last :- DeserializeItem(serialized[|serialized| - 1]);
      Ok(front + [last])
  }

  /** Slice._deserialize_selector: build the result one element at a time. */
  method DeserializeSelector(serialized: seq<PyValue>) returns (r: Result<seq<PyValue>, PyError>)
    ensures r == Deserialized(serialized)
  {
    var result := [];
    var i := 0;
    while i < |serialized|
      invariant 0 <= i <= |serialized|
      invariant Deserialized(serialized[..i]) == Ok(result)
    {
      assert serialized[..i + 1][..i] == serialized[..i];
      var item := DeserializeItem(serialized[i]);
      if item.Err? {
        DeserializedErrorStays(serialized, i + 1);
        return Err(item.error);
      }
      result := result + [item.value];
      i := i + 1;
    }
    assert serialized[..i] == serialized;
    return Ok(result);
  }

  /** An error in a prefix is the error of the whole selector. */
  lemma {:induction false} DeserializedErrorStays(serialized: seq<PyValue>, k: nat)
    requires k <= |serialized| && Deserialized(serialized[..k]).Err?
    ensures Deserialized(serialized) == Deserialized(serialized[..k])
  {
    if k < |serialized| {
      var front := serialized[..|serialized| - 1];
      assert front[..k] == serialized[..k];
      DeserializedErrorStays(front, k);
    } else {
      assert serialized[..k] == serialized;
    }
  }

  /** Deserialisation succeeds exactly when every element does, and then works element by element. */
  lemma {:induction false} DeserializedElementwise(serialized: seq<PyValue>)
    ensures Deserialized(serialized).Ok? <==> forall i :: 0 <= i < |serialized| ==> DeserializeItem(serialized[i]).Ok?
    ensures Deserialized(serialized).Ok? ==>
      |Deserialized(serialized).value| == |serialized| &&
      forall i :: 0 <= i < |serialized| ==> Deserialized(serialized).value[i] == DeserializeItem(serialized[i]).value
  {
    if |serialized| > 0 {
      var n := |serialized| - 1;
      var front := serialized[..n];
      DeserializedElementwise(front);
      DeserializedSnoc(serialized);
      assert forall i :: 0 <= i < n ==> front[i] == serialized[i];
      var allOk := forall i :: 0 <= i < |serialized| ==> DeserializeItem(serialized[i]).Ok?;
      if allOk {
        assert forall i :: 0 <= i < n ==> DeserializeItem(front[i]).Ok?;
        assert DeserializeItem(serialized[n]).Ok?;
      }
      if Deserialized(serialized).Ok? {
        var r := Deserialized(serialized).value;
        var fr, last := Deserialized(front).value, DeserializeItem(serialized[n]).value;
        assert r == fr + [last] && |fr| == n;
        forall i | 0 <= i < |serialized|
          ensures DeserializeItem(serialized[i]).Ok? && r[i] == DeserializeItem(serialized[i]).value
        {
          if i < n {
            assert DeserializeItem(front[i]).Ok?;
            assert r[i] == fr[i];
          } else {
            assert r[i] == last;
          }
        }
      } else if Deserialized(front).Err? {
        var i :| 0 <= i < n && !DeserializeItem(front[i]).Ok?;
        assert !DeserializeItem(serialized[i]).Ok?;
      } else {
        assert !DeserializeItem(serialized[n]).Ok?;
      }
    }
  }

  lemma DeserializedSnoc(serialized: seq<PyValue>)
    requires |serialized| > 0
    ensures Deserialized(serialized).Ok? <==>
      Deserialized(serialized[..|serialized| - 1]).Ok? && DeserializeItem(serialized[|serialized| - 1]).Ok?
    ensures Deserialized(serialized).Ok? ==>
      Deserialized(serialized).value ==
        Deserialized(serialized[..|serialized| - 1]).value + [DeserializeItem(serialized[|serialized| - 1]).value]
  {
  }

  /** No character that the slice text uses as punctuation. */
  predicate PlainField(s: string) {
    forall i :: 0 <= i < |s| ==> s[i] != '(' && s[i] != ')' && s[i] != ','
  }

  lemma FieldTextRoundTrip(f: Option<int>)
    ensures PlainField(FieldText(f))
    ensures ParseField(FieldText(f)) == Ok(f)
  {
    match f
    case None =>
    case Some(n) =>
      var t := IntToStr(n);
      assert t[0] != 'N';
      ParseIntOfIntToStr(n);
  }

  lemma JoinThree(a: string, b: string, c: string)
    ensures Join([a, b, c], ',') == a + "," + b + "," + c
  {
    assert [a, b, c][1..] == [b, c] && [b, c][1..] == [c];
    assert Join([c], ',') == c;
    assert Join([b, c], ',') == b + [','] + c;
  }

  /** In slice(inner) with no ")" in inner, the parentheses found are the outer ones. */
  lemma SliceTextParens(inner: string)
    requires forall i :: 0 <= i < |inner| ==> inner[i] != ')'
    ensures SliceFieldTexts("slice(" + inner + ")") == Ok(Split(inner, ','))
  {
    var s := "slice(" + inner + ")";
    OpenParen(inner);
    CloseParen(inner);
    assert Substring(s, 6, |s| - 1) == inner by {
      if |inner| > 0 {
        assert s[6..|s| - 1] == inner;
      }
    }
  }

  lemma OpenParen(inner: string)
    ensures IndexOf("slice(" + inner + ")", '(') == Some(5)
  {
    var s := "slice(" + inner + ")";
    assert s[5] == '(' && s[..5] == "slice";
    IndexOfAt(s, '(', 5);
  }

  lemma CloseParen(inner: string)
    requires forall i :: 0 <= i < |inner| ==> inner[i] != ')'
    ensures IndexOf("slice(" + inner + ")", ')') == Some(|inner| + 6)
  {
    var pre := "slice(";
    var s := pre + inner + ")";
    assert |pre| == 6;
    forall k | 0 <= k < |inner| + 6 ensures s[k] != ')' {
      if k < 6 {
        assert s[k] == pre[k];
        assert pre[k] in "slice(";
      } else {
        assert s[k] == inner[k - 6];
      }
    }
    FirstCloseParen(s, inner);
  }

  lemma FirstCloseParen(s: string, inner: string)
    requires s == "slice(" + inner + ")"
    requires forall k :: 0 <= k < |inner| + 6 ==> s[k] != ')'
    ensures IndexOf(s, ')') == Some(|inner| + 6)
  {
    IndexOfFirst(s, ')', |inner| + 6);
  }

  /** No ")" anywhere in the text. */
  predicate NoCloseParen(s: string) {
    forall i :: 0 <= i < |s| ==> s[i] != ')'
  }

  lemma NoCloseParenConcat(x: string, y: string)
    requires NoCloseParen(x) && NoCloseParen(y)
    ensures NoCloseParen(x + y)
  {
    forall i | 0 <= i < |x + y| ensures (x + y)[i] != ')' {
      if i >= |x| {
        assert (x + y)[i] == y[i - |x|];
      }
    }
  }

  /** The three field texts of a serialised slice are recovered exactly. */
  lemma SliceTextFields(a: string, b: string, c: string)
    requires PlainField(a) && PlainField(b) && PlainField(c)
    ensures SliceFieldTexts("slice(" + a + "," + b + "," + c + ")") == Ok([a, b, c])
  {
    var inner := a + "," + b + "," + c;
    assert "slice(" + a + "," + b + "," + c + ")" == "slice(" + inner + ")";
    assert NoCloseParen(",");
    NoCloseParenConcat(a, ",");
    NoCloseParenConcat(a + ",", b);
    NoCloseParenConcat(a + "," + b, ",");
    NoCloseParenConcat(a + "," + b + ",", c);
    SliceTextParens(inner);
    JoinThree(a, b, c);
    assert forall i :: 0 <= i < 3 ==> ',' !in [a, b, c][i];
    SplitOfJoin([a, b, c], ',');
  }

  /**
   * A slice text slice(a,b,c) whose fields hold no punctuation is
   * deserialised to the slice of the three parsed fields, or raises
   * ValueError when one of them is neither an int nor None.
   */
  lemma SliceTextParsed(a: string, b: string, c: string)
    requires PlainField(a) && PlainField(b) && PlainField(c)
    ensures var r := DeserializeItem(PyStr("slice(" + a + "," + b + "," + c + ")"));
      if ParseField(a).Ok? && ParseField(b).Ok? && ParseField(c).Ok?
      then r == Ok(PySlice(ParseField(a).value, ParseField(b).value, ParseField(c).value))
      else r == Err(ValueError)
  {
    var text := "slice(" + a + "," + b + "," + c + ")";
    assert "slice" <= text;
    SliceTextFields(a, b, c);
  }

  /**
   * _deserialize_selector(_serialize_selector(sel)) == tuple(sel) for
   * every selector of slices with int-or-None fields, ints, Ellipsis,
   * None and strs that do not start with "slice".
   */
  lemma SelectorRoundTrip(selector: seq<PyValue>)
    requires forall i :: 0 <= i < |selector| ==> !IsSliceText(selector[i])
    ensures Deserialized(SerializeSelector(selector)) == Ok(selector)
  {
    var ser := SerializeSelector(selector);
    forall i | 0 <= i < |ser| ensures DeserializeItem(ser[i]) == Ok(selector[i]) {
      assert ser[i] == SerializeItem(selector[i]);
    }
    DeserializedElementwise(ser);
    assert Deserialized(ser).value == selector;
  }

  const EllipsisText := ":ellipsis:"

  /**
   * Slice._serialize_shape: every Ellipsis becomes the text ":ellipsis:",
   * so none is left, nothing else changes, and _deserialize_shape gives
   * the shape back unless it already held that text.
   */
  function SerializeShape(shape: seq<PyValue>): (r: seq<PyValue>)
    ensures |r| == |shape|
    ensures forall i :: 0 <= i < |shape| ==> r[i] == if shape[i] == PyEllipsis then PyStr(EllipsisText) else shape[i]
    ensures forall i :: 0 <= i < |r| ==> r[i] != PyEllipsis
    ensures (forall i :: 0 <= i < |shape| ==> shape[i] != PyStr(EllipsisText)) ==> DeserializeShape(r) == shape
  {
    seq(|shape|, i requires 0 <= i < |shape| => if shape[i] == PyEllipsis then PyStr(EllipsisText) else shape[i])
  }

  /**
   * Slice._deserialize_shape: every ":ellipsis:" text becomes Ellipsis, so
   * none is left, and the Ellipsis entries of the result are exactly the
   * entries that were that text or already Ellipsis.
   */
  function DeserializeShape(shape: seq<PyValue>): (r: seq<PyValue>)
    ensures |r| == |shape|
    ensures forall i :: 0 <= i < |shape| ==> r[i] == if shape[i] == PyStr(EllipsisText) then PyEllipsis else shape[i]
    ensures forall i :: 0 <= i < |r| ==> r[i] != PyStr(EllipsisText)
    ensures forall i :: 0 <= i < |r| ==> (r[i] == PyEllipsis <==> shape[i] == PyEllipsis || shape[i] == PyStr(EllipsisText))
  {
    seq(|shape|, i requires 0 <= i < |shape| => if shape[i] == PyStr(EllipsisText) then PyEllipsis else shape[i])
  }

  /** Serialising a deserialised shape gives it back unless it already held an Ellipsis. */
  lemma ShapeRoundTripBack(shape: seq<PyValue>)
    requires forall i :: 0 <= i < |shape| ==> shape[i] != PyEllipsis
    ensures SerializeShape(DeserializeShape(shape)) == shape
  {
  }

  /** The two entries Slice.get_config adds to the layer configuration. */
  datatype SliceConfig = SliceConfig(selector: seq<PyValue>, outputShape: seq<PyValue>)

  /** Slice.get_config (the entries of the base class are not modelled). */
  function GetConfig(layer: SliceLayer): SliceConfig {
    SliceConfig(SerializeSelector(layer.selector), SerializeShape(layer.desiredOutputShape))
  }

  /** Slice.from_config. */
  function FromConfig(config: SliceConfig): Result<SliceLayer, PyError> {
    var selector :- Deserialized(config.selector);
    Ok(SliceLayer(selector, DeserializeShape(config.outputShape)))
  }

  /** A Slice layer restored from its own configuration is the same layer. */
  lemma ConfigRoundTrip(layer: SliceLayer)
    requires forall i :: 0 <= i < |layer.selector| ==> !IsSliceText(layer.selector[i])
    requires forall i :: 0 <= i < |layer.desiredOutputShape| ==> layer.desiredOutputShape[i] != PyStr(EllipsisText)
    ensures FromConfig(GetConfig(layer)) == Ok(layer)
  {
    SelectorRoundTrip(layer.selector);
  }
}
