/**
 * The integer geometry of the denoising WaveNet (wavenet/models.py): the
 * dilation schedule, how input_length and target_field_length are resolved
 * against the receptive field, the centred index windows, and the length of
 * the condition input.
 */
module FieldLengths {
  import opened Wrappers
  import opened PyValues

  function Pow2(i: nat): (r: nat)
    ensures r >= 1
  {
    if i == 0 then 1 else 2 * Pow2(i - 1)
  }

  lemma {:induction false} Pow2Increasing(i: nat, j: nat)
    requires i < j
    ensures Pow2(i) < Pow2(j)
    decreases j
  {
    if i < j - 1 {
      Pow2Increasing(i, j - 1);
    }
  }

  // ---------------------------------------------------------------- dilations

  /** config['model']['dilations']: an int k or an explicit list. */
  datatype Dilations = IntDilations(k: int) | ListDilations(ds: seq<int>)

  /** An int k stands for [2**i for i in range(0, k + 1)]; a list is taken as it is. */
  function NormalizeDilations(d: Dilations): (r: seq<int>)
    ensures d.ListDilations? ==> r == d.ds
  {
    match d
    case IntDilations(k) => seq(if k < 0 then 0 else k + 1, i requires 0 <= i => Pow2(i) as int)
    case ListDilations(ds) => ds
  }

  /**
   * An int k gives k + 1 dilations (none when k is negative), starting at 1,
   * each twice the one before and so strictly increasing.
   */
  lemma IntDilationsSchedule(k: int)
    ensures |NormalizeDilations(IntDilations(k))| == if k < 0 then 0 else k + 1
    ensures k >= 0 ==> NormalizeDilations(IntDilations(k))[0] == 1
    ensures forall i :: 0 < i < |NormalizeDilations(IntDilations(k))| ==>
      NormalizeDilations(IntDilations(k))[i] == 2 * NormalizeDilations(IntDilations(k))[i - 1]
    ensures forall i, j :: 0 <= i < j < |NormalizeDilations(IntDilations(k))| ==>
      0 < NormalizeDilations(IntDilations(k))[i] < NormalizeDilations(IntDilations(k))[j]
  {
    var r := NormalizeDilations(IntDilations(k));
    forall i, j | 0 <= i < j < |r| ensures 0 < r[i] < r[j] {
      Pow2Increasing(i, j);
    }
  }

  // ---------------------------------------------------------------- input and target lengths

  datatype Lengths = Lengths(inputLength: int, targetFieldLength: int)

  /**
   * The resolution of the two lengths in DenoisingWavenet.__init__: an
   * explicit input_length fixes the target field first, an explicit
   * target_field_length then wins, and without one the configured target
   * field length is used, which also overrides an explicit input_length.
   */
  function ResolveLengths(receptiveFieldLength: int, inputLength: Option<int>, targetFieldLength: Option<int>, configTarget: int): (r: Lengths)
    ensures r.inputLength == receptiveFieldLength + r.targetFieldLength - 1
    ensures targetFieldLength.Some? ==> r.targetFieldLength == targetFieldLength.value
    ensures targetFieldLength.None? ==> r.targetFieldLength == configTarget
  {
    // The pair an explicit input_length sets first is overwritten by either branch below.
    if targetFieldLength.Some? then
      Lengths(receptiveFieldLength + (targetFieldLength.value - 1), targetFieldLength.value)
    else
      Lengths(receptiveFieldLength + (configTarget - 1), configTarget)
  }

  /** An explicit input_length has no effect on the result when no target_field_length is given. */
  lemma InputLengthOverridden(receptiveFieldLength: int, inputLength: int, configTarget: int)
    ensures ResolveLengths(receptiveFieldLength, Some(inputLength), None, configTarget) ==
            ResolveLengths(receptiveFieldLength, None, None, configTarget)
    ensures ResolveLengths(receptiveFieldLength, Some(inputLength), None, configTarget).inputLength == inputLength
        <==> configTarget == inputLength - receptiveFieldLength + 1
  {
  }

  /** Resolving again from the target field length written back into the configuration gives the same lengths. */
  lemma ResolveWrittenBack(receptiveFieldLength: int, inputLength: Option<int>, targetFieldLength: Option<int>, configTarget: int)
    ensures var r := ResolveLengths(receptiveFieldLength, inputLength, targetFieldLength, configTarget);
      ResolveLengths(receptiveFieldLength, None, None, r.targetFieldLength) == r
  {
  }

  // ---------------------------------------------------------------- index windows

  /** get_target_sample_index: int(np.floor(input_length / 2)). */
  function TargetSampleIndex(inputLength: int): (c: int)
    ensures 2 * c <= inputLength < 2 * c + 2
  {
    inputLength / 2
  }

  // target_field_length // 2 below is Python's floor division, which Dafny's
  // Euclidean division agrees with for the positive divisor 2.

  /** get_target_field_indices. */
  function TargetFieldIndices(inputLength: int, targetFieldLength: int): seq<int> {
    var c := TargetSampleIndex(inputLength);
    var h := targetFieldLength / 2;
    Range(c - h, c + h + 1)
  }

  /** get_padded_target_field_indices. */
  function PaddedTargetFieldIndices(inputLength: int, targetFieldLength: int, targetPadding: int): seq<int> {
    var c := TargetSampleIndex(inputLength);
    var h := targetFieldLength / 2;
    Range(c - h - targetPadding, c + h + targetPadding + 1)
  }

  /** A run of consecutive increasing integers. */
  predicate Consecutive(w: seq<int>) {
    forall i :: 0 < i < |w| ==> w[i] == w[i - 1] + 1
  }

  /**
   * Both windows are consecutive runs; for a non-negative half length the
   * target window has 2h + 1 indices with the target sample index in the
   * middle, and so does the padded window with h + p in place of h.
   */
  lemma WindowsCentred(inputLength: int, targetFieldLength: int, targetPadding: int)
    ensures Consecutive(TargetFieldIndices(inputLength, targetFieldLength))
    ensures Consecutive(PaddedTargetFieldIndices(inputLength, targetFieldLength, targetPadding))
    ensures var h := targetFieldLength / 2; var w := TargetFieldIndices(inputLength, targetFieldLength);
      h >= 0 ==> |w| == 2 * h + 1 && w[h] == TargetSampleIndex(inputLength)
    ensures var h := (targetFieldLength / 2) + targetPadding; var w := PaddedTargetFieldIndices(inputLength, targetFieldLength, targetPadding);
      h >= 0 ==> |w| == 2 * h + 1 && w[h] == TargetSampleIndex(inputLength)
  {
  }

  /** With a non-negative padding the target window is the middle of the padded window, p indices in from each end. */
  lemma TargetInsidePadded(inputLength: int, targetFieldLength: int, targetPadding: int)
    requires targetFieldLength >= 0 && targetPadding >= 0
    ensures var t := TargetFieldIndices(inputLength, targetFieldLength);
      var w := PaddedTargetFieldIndices(inputLength, targetFieldLength, targetPadding);
      |w| == |t| + 2 * targetPadding && w[targetPadding..targetPadding + |t|] == t
  {
    var t := TargetFieldIndices(inputLength, targetFieldLength);
    var w := PaddedTargetFieldIndices(inputLength, targetFieldLength, targetPadding);
    assert |w| == |t| + 2 * targetPadding;
    var m := w[targetPadding..targetPadding + |t|];
    assert forall i :: 0 <= i < |t| ==> m[i] == w[targetPadding + i];
  }

  /** Without padding the two windows coincide. */
  lemma UnpaddedWindowsEqual(inputLength: int, targetFieldLength: int)
    ensures PaddedTargetFieldIndices(inputLength, targetFieldLength, 0) == TargetFieldIndices(inputLength, targetFieldLength)
  {
  }

  /**
   * Whenever the declared padded length tfl + 2p is not negative, the padded
   * window has 2 * (tfl // 2) + 2p + 1 indices, which is the declared padded
   * length exactly when tfl is odd.
   */
  lemma PaddedWindowLength(inputLength: int, targetFieldLength: int, targetPadding: int)
    requires targetFieldLength + 2 * targetPadding >= 0
    ensures |PaddedTargetFieldIndices(inputLength, targetFieldLength, targetPadding)| == 2 * (targetFieldLength / 2) + 2 * targetPadding + 1
    ensures |PaddedTargetFieldIndices(inputLength, targetFieldLength, targetPadding)| == targetFieldLength + 2 * targetPadding
        <==> targetFieldLength % 2 == 1
  {
  }

  /**
   * With lengths resolved as the constructor does, an odd target field and a
   * non-negative padding, the padded window lies inside [0, input_length)
   * exactly when 2p + 1 <= receptive_field_length.
   */
  lemma PaddedWindowInside(receptiveFieldLength: int, targetFieldLength: int, targetPadding: int)
    requires receptiveFieldLength >= 1 && targetFieldLength >= 1 && targetFieldLength % 2 == 1 && targetPadding >= 0
    ensures var il := receptiveFieldLength + targetFieldLength - 1;
      var w := PaddedTargetFieldIndices(il, targetFieldLength, targetPadding);
      (0 <= w[0] && w[|w| - 1] < il) <==> 2 * targetPadding + 1 <= receptiveFieldLength
  {
    var il := receptiveFieldLength + targetFieldLength - 1;
    var h := targetFieldLength / 2;
    assert targetFieldLength == 2 * h + 1;
    var c := TargetSampleIndex(il);
    var r := receptiveFieldLength / 2;
    assert c == h + r;
  }

  /**
   * For an even target field length the padded window is one index longer
   * than the padded_target_field_length the crops declare: with
   * receptive_field_length 3, target_field_length 2 and no padding the
   * input length is 4 and the window is [1, 2, 3].
   */
  lemma EvenTargetWindowTooLong()
    ensures ResolveLengths(3, None, None, 2) == Lengths(4, 2)
    ensures PaddedTargetFieldIndices(4, 2, 0) == [1, 2, 3]
    ensures |PaddedTargetFieldIndices(4, 2, 0)| == 2 + 2 * 0 + 1
  {
    assert Range(1, 4) == [1, 2, 3];
  }

  /**
   * A padded window of exactly target_field_length + 2 * target_padding
   * consecutive indices, starting where get_padded_target_field_indices
   * starts; it keeps the target sample index at position h + p, and for an
   * odd target field length it is the source's window.
   */
  function PaddedTargetFieldIndicesExact(inputLength: int, targetFieldLength: int, targetPadding: int): (r: seq<int>)
    ensures Consecutive(r)
    ensures targetFieldLength + 2 * targetPadding >= 0 ==> |r| == targetFieldLength + 2 * targetPadding
    ensures targetFieldLength >= 1 && targetPadding >= 0 ==>
      r[targetFieldLength / 2 + targetPadding] == TargetSampleIndex(inputLength)
    ensures targetFieldLength % 2 == 1 ==> r == PaddedTargetFieldIndices(inputLength, targetFieldLength, targetPadding)
  {
    var start := TargetSampleIndex(inputLength) - targetFieldLength / 2 - targetPadding;
    Range(start, start + targetFieldLength + 2 * targetPadding)
  }

  // ---------------------------------------------------------------- condition input

  /** The number of halvings (rounding up) that bring n down to 1: ceil(log2 n) for n >= 1. */
  function CeilLog2(n: int): nat
    decreases n
  {
    if n <= 1 then 0 else 1 + CeilLog2((n + 1) / 2)
  }

  lemma {:induction false} CeilLog2Least(n: int)
    requires n >= 1
    ensures Pow2(CeilLog2(n)) >= n
    ensures CeilLog2(n) > 0 ==> Pow2(CeilLog2(n) - 1) < n
    decreases n
  {
    if n > 1 {
      var m := (n + 1) / 2;
      CeilLog2Least(m);
      if CeilLog2(m) > 0 {
        assert Pow2(CeilLog2(m) - 1) < m;
      }
    }
  }

  /**
   * get_condition_input_length: for the "binary" encoding
   * int(max(ceil(log2 n), 1)), the least L >= 1 with 2**L >= n (with 1 for
   * n = 0, where log2 is minus infinity, and ValueError for a negative n,
   * where it is NaN); for any other encoding n itself.
   */
  function ConditionInputLength(representation: string, numConditionClasses: int): (r: Result<int, PyError>)
    ensures representation != "binary" ==> r == Ok(numConditionClasses)
    ensures representation == "binary" ==> (r.Ok? <==> numConditionClasses >= 0)
    ensures representation == "binary" && r.Ok? ==>
      r.value >= 1 && Pow2(r.value) >= numConditionClasses && (r.value == 1 || Pow2(r.value - 1) < numConditionClasses)
  {
    if representation == "binary" then
      if numConditionClasses < 0 then Err(ValueError)
      else if numConditionClasses == 0 then Ok(1)
      else
        var l := CeilLog2(numConditionClasses);
        CeilLog2Least(numConditionClasses);
        Ok(if l < 1 then 1 else l)
    else Ok(numConditionClasses)
  }
}
