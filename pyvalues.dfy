/**
 * The Python objects that wavenet/layers.py handles as slice selectors and
 * shape tuples, the errors Python raises on them, and the index arithmetic
 * of slice objects and range().
 */
module PyValues {
  import opened Wrappers

  datatype PyValue =
    | PySlice(start: Option<int>, stop: Option<int>, step: Option<int>)
    | PyInt(n: int)
    | PyEllipsis
    | PyStr(s: string)
    | PyNone

  /** A tuple of known axis lengths. */
  function AsShape(dims: seq<int>): (r: seq<PyValue>)
    ensures |r| == |dims| && forall i :: 0 <= i < |dims| ==> r[i] == PyInt(dims[i])
  {
    seq(|dims|, i requires 0 <= i < |dims| => PyInt(dims[i]))
  }

  /** The exception kinds the modelled code can raise. */
  datatype PyError = ValueError | IndexError | TypeError

  /** list(range(lo, hi)): the consecutive integers from lo up to but excluding hi. */
  function Range(lo: int, hi: int): (r: seq<int>)
    ensures |r| == if lo < hi then hi - lo else 0
    ensures forall i :: 0 <= i < |r| ==> r[i] == lo + i
  {
    if lo < hi then seq(hi - lo, i => lo + i) else []
  }

  /** One bound of a slice after Python's adjustment against a sequence length. */
  function AdjustBound(v: int, length: nat, negativeStep: bool): int {
    if v < 0 then
      if v + length < 0 then (if negativeStep then -1 else 0) else v + length
    else if v >= length then
      if negativeStep then length - 1 else length
    else v
  }

  /** lo, lo + step, lo + 2 * step, ... while strictly before hi in the direction of step. */
  function Stepped(lo: int, hi: int, step: int): (r: seq<int>)
    requires step != 0
    ensures step > 0 ==> forall i :: 0 <= i < |r| ==> lo <= r[i] < hi
    ensures step < 0 ==> forall i :: 0 <= i < |r| ==> hi < r[i] <= lo
    decreases if step > 0 then hi - lo else lo - hi
  {
    if (step > 0 && lo < hi) || (step < 0 && lo > hi) then [lo] + Stepped(lo + step, hi, step) else []
  }

  /**
   * The positions slice(start, stop, step) selects from a sequence of the
   * given length, as slice.indices computes them; a zero step raises
   * ValueError.
   */
  function SliceIndices(length: nat, start: Option<int>, stop: Option<int>, step: Option<int>): (r: Result<seq<int>, PyError>)
    ensures r.Err? <==> step == Some(0)
    ensures r.Ok? ==> forall i :: 0 <= i < |r.value| ==> 0 <= r.value[i] < length
  {
    var st := if step.Some? then step.value else 1;
    if st == 0 then Err(ValueError)
    else
      var neg := st < 0;
      var lo := if start.Some? then AdjustBound(start.value, length, neg) else if neg then length - 1 else 0;
      var hi := if stop.Some? then AdjustBound(stop.value, length, neg) else if neg then -1 else length;
      Ok(Stepped(lo, hi, st))
  }

  lemma {:induction false} SteppedUnit(lo: int, hi: int)
    ensures Stepped(lo, hi, 1) == Range(lo, hi)
    decreases hi - lo
  {
    if lo < hi {
      SteppedUnit(lo + 1, hi);
    }
  }

  /** A unit-step slice whose bounds lie inside the sequence selects exactly range(lo, hi). */
  lemma UnitSliceIndices(length: nat, lo: int, hi: int)
    requires 0 <= lo <= length && 0 <= hi <= length
    ensures SliceIndices(length, Some(lo), Some(hi), Some(1)) == Ok(Range(lo, hi))
  {
    SteppedUnit(lo, hi);
  }

  /** slice(None, None, None), the ':' of an index expression, selects every position. */
  lemma FullSliceIndices(length: nat)
    ensures SliceIndices(length, None, None, None) == Ok(Range(0, length))
  {
    SteppedUnit(0, length);
  }

  /** Python's normalisation of an int index; an index out of range raises IndexError. */
  function NormalizeIndex(k: int, length: nat): (r: Result<int, PyError>)
    ensures r.Ok? <==> 0 <= k + length && k < length
    ensures r.Ok? ==> 0 <= r.value < length && (r.value == k || r.value == k + length)
  {
    if k + length < 0 || k >= length then Err(IndexError)
    else if k < 0 then Ok(k + length)
    else Ok(k)
  }
}
