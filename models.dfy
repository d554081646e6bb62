/**
 * The speech-denoising WaveNet of wavenet/models.py: the fields the
 * constructor derives from the configuration, and build_model with its
 * residual blocks, wired at the level of symbolic shapes.
 */
module Models {
  import opened Wrappers
  import opened PyValues
  import opened Tensors
  import opened FieldLengths
  import opened KerasShapes
  import Layers

  /** config['model']['filters']: depths and kernel lengths. */
  datatype Filters = Filters(resDepth: int, skipDepth: int, finalDepths: seq<int>, resLength: int, finalLengths: seq<int>)

  /**
   * config['model']; the last three entries are absent until the
   * constructor writes them (it also rewrites targetFieldLength).
   */
  datatype ModelConfig = ModelConfig(
    numStacks: int,
    dilations: Dilations,
    conditionEncoding: string,
    filters: Filters,
    targetFieldLength: int,
    targetPadding: int,
    numResidualBlocks: Option<int>,
    receptiveFieldLength: Option<int>,
    inputLength: Option<int>)

  /** The parts of the configuration the model reads: config['model'] and config['dataset']['num_condition_classes']. */
  datatype Config = Config(model: ModelConfig, numConditionClasses: int)

  /** The arguments build_model passes to one dilated_residual_block call (res_block_i, layer_in_stack, dilation, stack_i). */
  datatype BlockCall = BlockCall(resBlockI: int, layerInStack: int, dilation: int, stackI: int)

  /** The outputs of the wired graph, the skip connections collected on the way and the block calls in order. */
  datatype Built = Built(speech: Shape, noise: Shape, skipConnections: seq<Shape>, blocks: seq<BlockCall>)

  // ---------------------------------------------------------------- block order

  /** The block calls of one stack. */
  function StackRow(stackI: int, dilations: seq<int>): (r: seq<BlockCall>)
    ensures |r| == |dilations|
    ensures forall l :: 0 <= l < |dilations| ==> r[l] == BlockCall(stackI * |dilations| + l + 1, l, dilations[l], stackI)
  {
    seq(|dilations|, l requires 0 <= l < |dilations| => BlockCall(stackI * |dilations| + l + 1, l, dilations[l], stackI))
  }

  /** The block calls of the first numStacks stacks, stack after stack. */
  function Schedule(numStacks: int, dilations: seq<int>): seq<BlockCall>
    decreases numStacks
  {
    if numStacks <= 0 then [] else Schedule(numStacks - 1, dilations) + StackRow(numStacks - 1, dilations)
  }

  lemma DivModOf(q: int, l: int, d: int)
    requires 0 <= q && 0 <= l < d
    ensures (q * d + l) / d == q && (q * d + l) % d == l
  {
    var x := q * d + l;
    var a, b := x / d, x % d;
    assert a * d + b == x;
    assert (q - a) * d == b - l;
    if q - a >= 1 {
      assert false;
    } else if q - a <= -1 {
      assert false;
    }
  }

  /**
   * The blocks run in stack-major order: the i-th call is block i + 1, at
   * position i % D of stack i / D with that position's dilation, where D is
   * the number of dilations; there are numStacks * D calls.
   */
  lemma {:induction false} ScheduleOrder(numStacks: int, dilations: seq<int>)
    requires numStacks >= 0
    ensures |Schedule(numStacks, dilations)| == numStacks * |dilations|
    ensures forall i :: 0 <= i < |Schedule(numStacks, dilations)| ==>
      |dilations| > 0 &&
      Schedule(numStacks, dilations)[i] == BlockCall(i + 1, i % |dilations|, dilations[i % |dilations|], i / |dilations|)
    decreases numStacks
  {
    if numStacks > 0 {
      var d := |dilations|;
      var front := Schedule(numStacks - 1, dilations);
      var row := StackRow(numStacks - 1, dilations);
      ScheduleOrder(numStacks - 1, dilations);
      assert |front| == (numStacks - 1) * d;
      assert (numStacks - 1) * d + d == numStacks * d;
      var s := Schedule(numStacks, dilations);
      forall i | 0 <= i < |s|
        ensures d > 0 && s[i] == BlockCall(i + 1, i % d, dilations[i % d], i / d)
      {
        if i < |front| {
          assert s[i] == front[i];
        } else {
          var l := i - |front|;
          assert s[i] == row[l];
          DivModOf(numStacks - 1, l, d);
        }
      }
    }
  }

  // ---------------------------------------------------------------- layer names

  /**
   * The name of one of the two data-channel slices of a residual block,
   * 'res_%d_data_slice_%d_d%d_s%d', kept as the values formatted into it.
   * %d writes only digits and '-', never '_', so two such names are the
   * same text exactly when these values agree, and no other layer name of
   * the graph has this form.
   */
  datatype SliceName = SliceName(number: int, half: int, dilation: int, stackI: int)

  predicate Distinct<T(==)>(s: seq<T>) {
    forall i, j :: 0 <= i < |s| && 0 <= j < |s| && i != j ==> s[i] != s[j]
  }

  /**
   * The data-slice names of the blocks in call order, numbered as the
   * source numbers them: by num_residual_blocks, the same for every block.
   */
  function DataSliceNames(numResidualBlocks: int, blocks: seq<BlockCall>): (r: seq<SliceName>)
    ensures |r| == 2 * |blocks|
    ensures forall i :: 0 <= i < |r| ==>
      r[i] == SliceName(numResidualBlocks, i % 2 + 1, blocks[i / 2].dilation, blocks[i / 2].stackI)
  {
    seq(2 * |blocks|, i requires 0 <= i < 2 * |blocks| =>
      SliceName(numResidualBlocks, i % 2 + 1, blocks[i / 2].dilation, blocks[i / 2].stackI))
  }

  /** The same names numbered by res_block_i, as every other per-block layer name is. */
  function DataSliceNamesByBlock(blocks: seq<BlockCall>): (r: seq<SliceName>)
    ensures |r| == 2 * |blocks|
    ensures forall i :: 0 <= i < |r| ==>
      r[i] == SliceName(blocks[i / 2].resBlockI, i % 2 + 1, blocks[i / 2].dilation, blocks[i / 2].stackI)
  {
    seq(2 * |blocks|, i requires 0 <= i < 2 * |blocks| =>
      SliceName(blocks[i / 2].resBlockI, i % 2 + 1, blocks[i / 2].dilation, blocks[i / 2].stackI))
  }

  lemma HalfOf(i: int, j: int)
    requires 0 <= i < j && i % 2 == j % 2
    ensures i / 2 < j / 2
  {
  }

  /** Two different blocks of one stack sit at different positions in it. */
  lemma SameStackDifferentPosition(a: int, b: int, d: int)
    requires 0 <= a && 0 <= b && a != b && d > 0 && a / d == b / d
    ensures a % d != b % d
  {
    assert a == (a / d) * d + a % d && b == (b / d) * d + b % d;
  }

  /** Two different data-slice names of the schedule differ in their half, stack or dilation when no dilation repeats. */
  lemma DataSliceNamesDifferAt(numStacks: int, dilations: seq<int>, numResidualBlocks: int, i: int, j: int)
    requires numStacks >= 0 && Distinct(dilations)
    requires 0 <= i < 2 * |Schedule(numStacks, dilations)| && 0 <= j < 2 * |Schedule(numStacks, dilations)| && i != j
    ensures DataSliceNames(numResidualBlocks, Schedule(numStacks, dilations))[i] !=
            DataSliceNames(numResidualBlocks, Schedule(numStacks, dilations))[j]
  {
    if i % 2 == j % 2 {
      var sched := Schedule(numStacks, dilations);
      var d := |dilations|;
      var a, b := i / 2, j / 2;
      if i < j { HalfOf(i, j); } else { HalfOf(j, i); }
      ScheduleOrder(numStacks, dilations);
      assert sched[a] == BlockCall(a + 1, a % d, dilations[a % d], a / d);
      assert sched[b] == BlockCall(b + 1, b % d, dilations[b % d], b / d);
      if a / d == b / d {
        SameStackDifferentPosition(a, b, d);
      }
    }
  }

  /** With no dilation repeated, the data-slice names as written are all different. */
  lemma DataSliceNamesDistinctIfDilationsAre(numStacks: int, dilations: seq<int>, numResidualBlocks: int)
    requires numStacks >= 0 && Distinct(dilations)
    ensures Distinct(DataSliceNames(numResidualBlocks, Schedule(numStacks, dilations)))
  {
    var names := DataSliceNames(numResidualBlocks, Schedule(numStacks, dilations));
    forall i, j | 0 <= i < |names| && 0 <= j < |names| && i != j ensures names[i] != names[j] {
      DataSliceNamesDifferAt(numStacks, dilations, numResidualBlocks, i, j);
    }
  }

  /** A dilation repeated at positions l1 and l2 names the first half slices of those blocks of stack 0 alike. */
  lemma RepeatedDilationSameName(numStacks: int, dilations: seq<int>, numResidualBlocks: int, l1: int, l2: int)
    requires numStacks >= 1 && 0 <= l1 < |dilations| && 0 <= l2 < |dilations| && dilations[l1] == dilations[l2]
    ensures 2 * l1 < 2 * |Schedule(numStacks, dilations)| && 2 * l2 < 2 * |Schedule(numStacks, dilations)|
    ensures DataSliceNames(numResidualBlocks, Schedule(numStacks, dilations))[2 * l1] ==
            DataSliceNames(numResidualBlocks, Schedule(numStacks, dilations))[2 * l2]
  {
    var sched := Schedule(numStacks, dilations);
    var d := |dilations|;
    ScheduleOrder(numStacks, dilations);
    assert d <= |sched| by {
      assert numStacks * d >= 1 * d;
    }
    DivModOf(0, l1, d);
    DivModOf(0, l2, d);
    assert sched[l1].stackI == 0 && sched[l2].stackI == 0;
  }

  /**
   * As written, the data-slice names of build_model are all different
   * exactly when no dilation repeats: a repeated dilation within a stack
   * names two layers alike.
   */
  lemma DataSliceNamesDistinct(numStacks: int, dilations: seq<int>, numResidualBlocks: int)
    requires numStacks >= 1
    ensures Distinct(DataSliceNames(numResidualBlocks, Schedule(numStacks, dilations))) <==> Distinct(dilations)
  {
    if Distinct(dilations) {
      DataSliceNamesDistinctIfDilationsAre(numStacks, dilations, numResidualBlocks);
    } else {
      var l1, l2 :| 0 <= l1 < |dilations| && 0 <= l2 < |dilations| && l1 != l2 && dilations[l1] == dilations[l2];
      RepeatedDilationSameName(numStacks, dilations, numResidualBlocks, l1, l2);
    }
  }

  /**
   * The smallest clash: one stack with dilations [1, 1] gives two layers
   * named res_2_data_slice_1_d1_s0 (and two named res_2_data_slice_2_d1_s0).
   */
  lemma RepeatedDilationNamesClash()
    ensures DataSliceNames(2, Schedule(1, [1, 1]))[0] == SliceName(2, 1, 1, 0)
    ensures DataSliceNames(2, Schedule(1, [1, 1]))[2] == SliceName(2, 1, 1, 0)
    ensures !Distinct(DataSliceNames(2, Schedule(1, [1, 1])))
  {
    var names := DataSliceNames(2, Schedule(1, [1, 1]));
    assert Schedule(1, [1, 1]) == [BlockCall(1, 0, 1, 0), BlockCall(2, 1, 1, 0)];
    assert names[0] == names[2];
  }

  /** Numbered by res_block_i, the data-slice names are all different for every configuration. */
  lemma DataSliceNamesByBlockDistinct(numStacks: int, dilations: seq<int>)
    requires numStacks >= 0
    ensures Distinct(DataSliceNamesByBlock(Schedule(numStacks, dilations)))
  {
    var sched := Schedule(numStacks, dilations);
    var names := DataSliceNamesByBlock(sched);
    ScheduleOrder(numStacks, dilations);
    forall i, j | 0 <= i < |names| && 0 <= j < |names| && i != j ensures names[i] != names[j] {
      if i % 2 == j % 2 {
        if i < j { HalfOf(i, j); } else { HalfOf(j, i); }
        assert sched[i / 2].resBlockI == i / 2 + 1 && sched[j / 2].resBlockI == j / 2 + 1;
      }
    }
  }

  // ---------------------------------------------------------------- Slice layers in the graph

  /** The layer that keeps the samples of interest: (slice(w[0], w[-1] + 1, 1), Ellipsis), declared (padded, depth). */
  function CropLayer(window: seq<int>, padded: int, depth: int): Layers.SliceLayer
    requires |window| > 0
  {
    Layers.SliceLayer([PySlice(Some(window[0]), Some(window[|window| - 1] + 1), Some(1)), PyEllipsis], [PyInt(padded), PyInt(depth)])
  }

  /**
   * What the crop does at run time: on a (batch, input_length, channels)
   * tensor, with lengths resolved as the constructor does, an odd target
   * field and a padding that fits the receptive field, it keeps along time
   * exactly the samples of the padded window, in order, so its output has
   * the padded length the layer declares.
   */
  lemma CropSelectsPaddedWindow(
    receptiveFieldLength: int, targetFieldLength: int, targetPadding: int, inputLength: nat,
    depth: int, t: Tensor, batch: nat, channels: nat)
    requires receptiveFieldLength >= 1 && targetFieldLength >= 1 && targetFieldLength % 2 == 1 && targetPadding >= 0
    requires 2 * targetPadding + 1 <= receptiveFieldLength
    requires inputLength == receptiveFieldLength + targetFieldLength - 1
    requires HasShape(t, [batch, inputLength, channels])
    ensures var w := PaddedTargetFieldIndices(inputLength, targetFieldLength, targetPadding);
      |w| == targetFieldLength + 2 * targetPadding &&
      var out := Layers.SliceCall(CropLayer(w, targetFieldLength + 2 * targetPadding, depth), t, [batch, inputLength, channels]);
      out.Ok? && out.value.1 == [batch, |w|, channels] &&
      forall i, k, j :: 0 <= i < batch && 0 <= k < |w| && 0 <= j < channels ==>
        Get3(out.value.0, [batch, |w|, channels], i, k, j) == Get3(t, [batch, inputLength, channels], i, w[k], j)
  {
    var w := PaddedTargetFieldIndices(inputLength, targetFieldLength, targetPadding);
    PaddedWindowLength(inputLength, targetFieldLength, targetPadding);
    PaddedWindowInside(receptiveFieldLength, targetFieldLength, targetPadding);
    var lo, hi := w[0], w[|w| - 1] + 1;
    assert w == Range(lo, hi);
    UnitSliceIndices(inputLength, lo, hi);
    var layer := CropLayer(w, targetFieldLength + 2 * targetPadding, depth);
    Layers.SliceTime(layer, t, [batch, inputLength, channels], w);
  }

  /** (Ellipsis, slice(lo, hi)), declared (steps, hi - lo): a channel range. */
  function ChannelLayer(lo: int, hi: int, steps: int): Layers.SliceLayer {
    Layers.SliceLayer([PyEllipsis, PySlice(Some(lo), Some(hi), None)], [PyInt(steps), PyInt(hi - lo)])
  }

  /**
   * What a channel slice does at run time: on a (batch, steps, channels)
   * tensor with 0 <= lo <= hi <= channels it keeps channels lo .. hi - 1 in
   * order, which is the (steps, hi - lo) it declares. The residual blocks
   * use it with [0, res) and [res, 2 * res), and with [0, res) and
   * [res, res + skip), so each pair splits the channels without overlap.
   */
  lemma ChannelSliceKeepsRange(lo: int, hi: int, width: nat, t: Tensor, batch: nat, steps: nat, channels: nat)
    requires 0 <= lo && hi == lo + width && hi <= channels
    requires HasShape(t, [batch, steps, channels])
    ensures Layers.SliceCall(ChannelLayer(lo, hi, steps), t, [batch, steps, channels]).Ok?
    ensures Layers.SliceCall(ChannelLayer(lo, hi, steps), t, [batch, steps, channels]).value.1 == [batch, steps, width]
    ensures forall i, j, k :: 0 <= i < batch && 0 <= j < steps && 0 <= k < width ==>
      Get3(Layers.SliceCall(ChannelLayer(lo, hi, steps), t, [batch, steps, channels]).value.0, [batch, steps, width], i, j, k)
        == Get3(t, [batch, steps, channels], i, j, lo + k)
  {
    var idx := Range(lo, hi);
    UnitSliceIndices(channels, lo, hi);
    assert SliceIndices(channels, Some(lo), Some(hi), None) == SliceIndices(channels, Some(lo), Some(hi), Some(1));
    Layers.SliceChannels(ChannelLayer(lo, hi, steps), t, [batch, steps, channels], idx);
  }

  /** (Ellipsis, k), declared (depth,): one entry of the last axis. */
  function PickLayer(k: int, depth: int): Layers.SliceLayer {
    Layers.SliceLayer([PyEllipsis, PyInt(k)], [PyInt(depth)])
  }

  /**
   * Calling a Slice layer on a symbolic tensor: the shape its
   * compute_output_shape declares, checked as a symbolic shape. Every Slice
   * of the graph declares known lengths only.
   */
  method ApplySlice(layer: Layers.SliceLayer, input: Shape) returns (r: Result<Shape, PyError>)
    requires forall i :: 0 <= i < |layer.desiredOutputShape| ==> layer.desiredOutputShape[i].PyInt?
    ensures r.Ok? <==> forall i :: 0 <= i < |layer.desiredOutputShape| ==> layer.desiredOutputShape[i].n >= 0
    ensures r.Ok? ==> r.value == [PyNone] + layer.desiredOutputShape
  {
    var desired := layer.desiredOutputShape;
    var declared := Layers.ComputeOutputShape(layer, input);
    var expected := [PyNone] + desired;
    forall j | 1 <= j < |expected| ensures declared.value[j] == expected[j] {
      assert expected[j] == desired[j - 1];
    }
    assert ValidShape(expected) <==> forall i :: 0 <= i < |desired| ==> desired[i].n >= 0 by {
      assert forall i :: 0 <= i < |desired| ==> expected[i + 1] == desired[i];
    }
    r := Standardize(declared.value);
  }

  // ---------------------------------------------------------------- the model

  /**
   * The conditions under which build_model wires its graph without raising,
   * in terms of the filters and the resolved lengths: lengths and depths
   * Keras accepts, at least one block, positive dilations, both final
   * stages configured, and no dilation repeated (see DataSliceNamesDistinct).
   */
  predicate BuildableWith(f: Filters, numStacks: int, dilations: seq<int>, inputLength: int, conditionInputLength: int, padded: int) {
    inputLength >= 0 && conditionInputLength >= 0 && padded >= 0 &&
    f.resDepth > 0 && f.resLength > 0 &&
    numStacks >= 1 && |dilations| >= 1 &&
    (forall l :: 0 <= l < |dilations| ==> dilations[l] > 0) &&
    Distinct(dilations) &&
    f.skipDepth >= 0 &&
    |f.finalDepths| >= 2 && |f.finalLengths| >= 2 &&
    f.finalDepths[0] > 0 && f.finalLengths[0] > 0 && f.finalDepths[1] > 0 && f.finalLengths[1] > 0
  }

  class DenoisingWavenet {
    var config: Config
    var numStacks: int
    var dilations: seq<int>
    var numConditionClasses: int
    var conditionInputLength: int
    var receptiveFieldLength: int
    var inputLength: int
    var targetFieldLength: int
    var targetPadding: int
    var paddedTargetFieldLength: int
    var halfTargetFieldLength: int
    var halfReceptiveFieldLength: int
    var numResidualBlocks: int
    var samplesOfInterestIndices: seq<int>
    var targetSampleIndices: seq<int>
    /** The graph setup_model builds; None until it has. */
    var model: Option<Built>

    /** The relations the constructor establishes between the fields and the (updated) configuration. */
    predicate Valid()
      reads this
    {
      var m := config.model;
      numStacks == m.numStacks &&
      dilations == NormalizeDilations(m.dilations) &&
      numConditionClasses == config.numConditionClasses &&
      ConditionInputLength(m.conditionEncoding, numConditionClasses) == Ok(conditionInputLength) &&
      inputLength == receptiveFieldLength + targetFieldLength - 1 &&
      targetPadding == m.targetPadding &&
      paddedTargetFieldLength == targetFieldLength + 2 * targetPadding &&
      halfTargetFieldLength == targetFieldLength / 2 &&
      halfReceptiveFieldLength == receptiveFieldLength / 2 &&
      numResidualBlocks == |dilations| * numStacks &&
      samplesOfInterestIndices == PaddedTargetFieldIndices(inputLength, targetFieldLength, targetPadding) &&
      targetSampleIndices == TargetFieldIndices(inputLength, targetFieldLength) &&
      m.numResidualBlocks == Some(numResidualBlocks) &&
      m.receptiveFieldLength == Some(receptiveFieldLength) &&
      m.inputLength == Some(inputLength) &&
      m.targetFieldLength == targetFieldLength
    }

    /**
     * DenoisingWavenet.__init__ up to the point where it sets up the Keras
     * model: the fields in the order the source assigns them, then the
     * derived lengths written back into config['model'].
     */
    constructor (config: Config, inputLength: Option<int>, targetFieldLength: Option<int>, receptiveFieldLength: int)
      requires ConditionInputLength(config.model.conditionEncoding, config.numConditionClasses).Ok?
      ensures Valid()
      ensures this.receptiveFieldLength == receptiveFieldLength
      ensures this.model == None
      ensures Lengths(this.inputLength, this.targetFieldLength) ==
              ResolveLengths(receptiveFieldLength, inputLength, targetFieldLength, config.model.targetFieldLength)
      ensures this.config == config.(model := config.model.(
        numResidualBlocks := Some(this.numResidualBlocks),
        receptiveFieldLength := Some(receptiveFieldLength),
        inputLength := Some(this.inputLength),
        targetFieldLength := this.targetFieldLength))
    {
      // The lengths as __init__ resolves them, one assignment after another.
      var il, tfl := 0, 0;
      if inputLength.Some? {
        il := inputLength.value;
        tfl := il - (receptiveFieldLength - 1);
      }
      if targetFieldLength.Some? {
        tfl := targetFieldLength.value;
        il := receptiveFieldLength + (tfl - 1);
      } else {
        tfl := config.model.targetFieldLength;
        il := receptiveFieldLength + (tfl - 1);
      }
      var ds := NormalizeDilations(config.model.dilations);
      var blocks := |ds| * config.model.numStacks;
      this.numStacks := config.model.numStacks;
      this.dilations := ds;
      this.numConditionClasses := config.numConditionClasses;
      this.conditionInputLength := ConditionInputLength(config.model.conditionEncoding, config.numConditionClasses).value;
      this.receptiveFieldLength := receptiveFieldLength;
      this.inputLength := il;
      this.targetFieldLength := tfl;
      this.targetPadding := config.model.targetPadding;
      this.paddedTargetFieldLength := tfl + 2 * config.model.targetPadding;
      this.halfTargetFieldLength := tfl / 2;
      this.halfReceptiveFieldLength := receptiveFieldLength / 2;
      this.numResidualBlocks := blocks;
      this.samplesOfInterestIndices := PaddedTargetFieldIndices(il, tfl, config.model.targetPadding);
      this.targetSampleIndices := TargetFieldIndices(il, tfl);
      this.model := None;
      // The derived lengths written back into config['model'].
      this.config := config.(model := config.model.(
        numResidualBlocks := Some(blocks),
        receptiveFieldLength := Some(receptiveFieldLength),
        inputLength := Some(il),
        targetFieldLength := tfl));
    }

    function ResidualShape(): Shape
      reads this
    {
      [PyNone, PyInt(inputLength), PyInt(config.model.filters.resDepth)]
    }

    function SkipShape(): Shape
      reads this
    {
      [PyNone, PyInt(paddedTargetFieldLength), PyInt(config.model.filters.skipDepth)]
    }

    function ConditionShape(): Shape
      reads this
    {
      [PyNone, PyInt(conditionInputLength)]
    }

    /** What the layers build_model wires before its first residual block accept. */
    predicate InputsAccepted()
      reads this
    {
      inputLength >= 0 && conditionInputLength >= 0 && paddedTargetFieldLength >= 0 &&
      config.model.filters.resDepth > 0 && config.model.filters.resLength > 0
    }

    /** Everything build_model needs to wire its graph without raising. */
    predicate Buildable()
      reads this
    {
      BuildableWith(config.model.filters, numStacks, dilations, inputLength, conditionInputLength, paddedTargetFieldLength)
    }

    /** Under the constructor's relations the padded window is non-empty exactly when the padded length is not negative. */
    lemma WindowNonEmpty()
      requires Valid()
      ensures |samplesOfInterestIndices| > 0 <==> paddedTargetFieldLength >= 0
    {
      if paddedTargetFieldLength >= 0 {
        PaddedWindowLength(inputLength, targetFieldLength, targetPadding);
      }
    }

    /**
     * dilated_residual_block on the shapes build_model passes it: it keeps
     * the residual stream at (input_length, res) and emits a skip output of
     * (padded_target_field_length, skip), provided the dilation is positive
     * and the skip depth not negative. Only the two convolutions and the
     * skip channel slice can raise once the layers before the first block
     * have been accepted.
     */
    method DilatedResidualBlock(dataX: Shape, conditionX: Shape, dilation: int) returns (r: Result<(Shape, Shape), PyError>)
      requires Valid() && InputsAccepted()
      requires dataX == ResidualShape() && conditionX == ConditionShape()
      ensures r.Ok? <==> dilation > 0 && config.model.filters.skipDepth >= 0
      ensures r.Ok? ==> r.value == (ResidualShape(), SkipShape())
    {
      var res := config.model.filters.resDepth;
      var skip := config.model.filters.skipDepth;
      var originalX := dataX;
      // Data sub-block: the dilated convolution and its two channel halves.
      var dataOut :- Conv1DSame(dataX, 2 * res, config.model.filters.resLength, dilation);
      var dataOut1 := ApplySlice(ChannelLayer(0, res, inputLength), dataOut);
      var dataOut2 := ApplySlice(ChannelLayer(res, 2 * res, inputLength), dataOut);
      // Condition sub-block: dense, reshaped to (res, 2), split and repeated over time.
      var conditionOut := Dense(conditionX, 2 * res).value;
      assert Product(Ints(conditionOut[1..])) == 2 * res by {
        assert Ints(conditionOut[1..]) == [2 * res];
      }
      assert Product([res, 2]) == res * 2 by {
        assert [res, 2][..1] == [res] && [res][..0] == [];
      }
      var reshaped := Reshape(conditionOut, [res, 2]).value;
      var conditionOut1 := ApplySlice(PickLayer(0, res), reshaped);
      var conditionOut2 := ApplySlice(PickLayer(1, res), reshaped);
      var repeated1 := RepeatVector(conditionOut1.value, inputLength).value;
      var repeated2 := RepeatVector(conditionOut2.value, inputLength).value;
      var merged1 := Merge([dataOut1.value, repeated1]).value;
      var merged2 := Merge([dataOut2.value, repeated2]).value;
      // tanh and sigmoid keep the shape; their product is the gated activation.
      var gated := Merge([merged1, merged2]).value;
      var mixed :- Conv1DSame(gated, res + skip, 1, 1);
      var resX := ApplySlice(ChannelLayer(0, res, inputLength), mixed);
      var skipX :- ApplySlice(ChannelLayer(res, res + skip, inputLength), mixed);
      WindowNonEmpty();
      var kept := ApplySlice(CropLayer(samplesOfInterestIndices, paddedTargetFieldLength, skip), skipX);
      var stream := Merge([originalX, resX.value]).value;
      assert kept.value == SkipShape();
      return Ok((stream, kept.value));
    }

    function CroppedShape(): Shape
      reads this
    {
      [PyNone, PyInt(paddedTargetFieldLength), PyInt(1)]
    }

    /**
     * The first part of build_model: the two inputs, the cropped copy of the
     * noisy input and the initial convolution merged with the condition.
     * Returns (condition input, cropped input, residual stream).
     */
    method WireInputs() returns (r: Result<(Shape, Shape, Shape), PyError>)
      requires Valid()
      ensures r.Ok? <==> InputsAccepted()
      ensures r.Err? && inputLength >= 0 && conditionInputLength >= 0 && paddedTargetFieldLength < 0 ==> r.error == IndexError
      ensures r.Err? && !(inputLength >= 0 && conditionInputLength >= 0 && paddedTargetFieldLength < 0) ==> r.error == ValueError
      ensures r.Ok? ==> r.value == (ConditionShape(), CroppedShape(), ResidualShape())
    {
      var f := config.model.filters;
      var dataInput :- Input(inputLength);
      var conditionInput :- Input(conditionInputLength);
      var dataExpanded := Layers.AddSingletonDepthShape(dataInput).value;
      WindowNonEmpty();
      if |samplesOfInterestIndices| == 0 {
        // samples_of_interest_indices[0] raises on an empty window.
        return Err(IndexError);
      }
      var cropped := ApplySlice(CropLayer(samplesOfInterestIndices, paddedTargetFieldLength, 1), dataExpanded);
      var dataOut :- Conv1DSame(dataExpanded, f.resDepth, f.resLength, 1);
      var conditionOut := Dense(conditionInput, f.resDepth).value;
      var repeated := RepeatVector(conditionOut, inputLength).value;
      var merged := Merge([dataOut, repeated]).value;
      assert cropped.value == CroppedShape();
      return Ok((conditionInput, cropped.value, merged));
    }

    /** Every block the loops of build_model call accepts its inputs. */
    predicate BlocksAccepted()
      reads this
    {
      numStacks < 1 || |dilations| == 0 ||
      (config.model.filters.skipDepth >= 0 && forall l :: 0 <= l < |dilations| ==> dilations[l] > 0)
    }

    /**
     * The inner loop of build_model for one stack: one residual block per
     * dilation, numbered on from firstBlock, each skip output collected.
     * Returns (residual stream, skip outputs, block calls).
     */
    method WireStack(dataIn: Shape, conditionInput: Shape, stackI: int, firstBlock: int) returns (r: Result<(Shape, seq<Shape>, seq<BlockCall>), PyError>)
      requires Valid() && InputsAccepted()
      requires dataIn == ResidualShape() && conditionInput == ConditionShape()
      requires firstBlock == stackI * |dilations|
      ensures r.Ok? <==> (|dilations| == 0 ||
        (config.model.filters.skipDepth >= 0 && forall l :: 0 <= l < |dilations| ==> dilations[l] > 0))
      ensures r.Ok? ==> r.value.0 == ResidualShape()
      ensures r.Ok? ==> |r.value.1| == |dilations| && forall i :: 0 <= i < |r.value.1| ==> r.value.1[i] == SkipShape()
      ensures r.Ok? ==> r.value.2 == StackRow(stackI, dilations)
    {
      var row := StackRow(stackI, dilations);
      var dataOut := dataIn;
      var skipConnections: seq<Shape> := [];
      var blocks: seq<BlockCall> := [];
      var resBlockI := firstBlock;
      var layerInStack := 0;
      while layerInStack < |dilations|
        invariant 0 <= layerInStack <= |dilations|
        invariant resBlockI == firstBlock + layerInStack
        invariant blocks == row[..layerInStack]
        invariant |skipConnections| == layerInStack
        invariant forall i :: 0 <= i < |skipConnections| ==> skipConnections[i] == SkipShape()
        invariant dataOut == ResidualShape()
        invariant layerInStack > 0 ==> config.model.filters.skipDepth >= 0
        invariant forall l :: 0 <= l < layerInStack ==> dilations[l] > 0
      {
        var dilation := dilations[layerInStack];
        resBlockI := resBlockI + 1;
        var block := DilatedResidualBlock(dataOut, conditionInput, dilation);
        if block.Err? {
          return Err(block.error);
        }
        dataOut := block.value.0;
        // dilated_residual_block always returns a skip output, so it is always collected.
        skipConnections := skipConnections + [block.value.1];
        var call := BlockCall(resBlockI, layerInStack, dilation, stackI);
        assert row[..layerInStack + 1] == row[..layerInStack] + [call];
        blocks := blocks + [call];
        layerInStack := layerInStack + 1;
      }
      assert row[..|dilations|] == row;
      return Ok((dataOut, skipConnections, blocks));
    }

    /**
     * The loops of build_model: num_stacks stacks of one residual block per
     * dilation, numbered from 1, each block's skip output collected.
     * Returns (residual stream, skip connections, block calls).
     */
    method WireBlocks(dataIn: Shape, conditionInput: Shape) returns (r: Result<(Shape, seq<Shape>, seq<BlockCall>), PyError>)
      requires Valid() && InputsAccepted()
      requires dataIn == ResidualShape() && conditionInput == ConditionShape()
      ensures r.Ok? <==> BlocksAccepted()
      ensures r.Ok? ==> r.value.0 == ResidualShape()
      ensures r.Ok? ==> |r.value.1| == (if numStacks < 0 then 0 else numStacks) * |dilations|
      ensures r.Ok? ==> forall i :: 0 <= i < |r.value.1| ==> r.value.1[i] == SkipShape()
      ensures r.Ok? ==> r.value.2 == Schedule(numStacks, dilations)
    {
      var dataOut := dataIn;
      var skipConnections: seq<Shape> := [];
      var blocks: seq<BlockCall> := [];
      var resBlockI := 0;
      var stackI := 0;
      while stackI < numStacks
        invariant 0 <= stackI <= if numStacks < 0 then 0 else numStacks
        invariant resBlockI == stackI * |dilations|
        invariant blocks == Schedule(stackI, dilations)
        invariant |skipConnections| == resBlockI
        invariant forall i :: 0 <= i < |skipConnections| ==> skipConnections[i] == SkipShape()
        invariant dataOut == ResidualShape()
        invariant stackI > 0 ==> BlocksAccepted()
      {
        var stack :- WireStack(dataOut, conditionInput, stackI, resBlockI);
        dataOut := stack.0;
        skipConnections := skipConnections + stack.1;
        blocks := blocks + stack.2;
        assert (stackI + 1) * |dilations| == stackI * |dilations| + |dilations|;
        resBlockI := resBlockI + |dilations|;
        stackI := stackI + 1;
      }
      assert stackI == if numStacks < 0 then 0 else numStacks;
      assert Schedule(numStacks, dilations) == Schedule(stackI, dilations);
      return Ok((dataOut, skipConnections, blocks));
    }

    /**
     * The last part of build_model: the sum of the skip connections through
     * the two final convolutions, each merged with the condition, the
     * one-channel speech estimate, the noise estimate as the cropped input
     * minus the speech, and both squeezed to (None, padded).
     * Returns (speech, noise).
     */
    method WireOutputs(cropped: Shape, skipConnections: seq<Shape>, conditionInput: Shape) returns (r: Result<(Shape, Shape), PyError>)
      requires Valid() && InputsAccepted()
      requires cropped == CroppedShape() && conditionInput == ConditionShape()
      requires forall i :: 0 <= i < |skipConnections| ==> skipConnections[i] == SkipShape()
      ensures r.Ok? <==> (|skipConnections| >= 1 &&
        var f := config.model.filters;
        |f.finalDepths| >= 2 && |f.finalLengths| >= 2 &&
        f.finalDepths[0] > 0 && f.finalLengths[0] > 0 && f.finalDepths[1] > 0 && f.finalLengths[1] > 0)
      ensures r.Ok? ==> r.value == ([PyNone, PyInt(paddedTargetFieldLength)], [PyNone, PyInt(paddedTargetFieldLength)])
    {
      var f := config.model.filters;
      var summed :- Merge(skipConnections);
      // relu keeps the shape.
      if |f.finalDepths| < 1 || |f.finalLengths| < 1 {
        return Err(IndexError);
      }
      var penultimate :- Conv1DSame(summed, f.finalDepths[0], f.finalLengths[0], 1);
      var condition1 := Dense(conditionInput, f.finalDepths[0]).value;
      var repeated1 := RepeatVector(condition1, paddedTargetFieldLength).value;
      var merged1 := Merge([penultimate, repeated1]).value;
      if |f.finalDepths| < 2 || |f.finalLengths| < 2 {
        return Err(IndexError);
      }
      var final :- Conv1DSame(merged1, f.finalDepths[1], f.finalLengths[1], 1);
      var condition2 := Dense(conditionInput, f.finalDepths[1]).value;
      var repeated2 := RepeatVector(condition2, paddedTargetFieldLength).value;
      var merged2 := Merge([final, repeated2]).value;
      var speech := Conv1DSame(merged2, 1, 1, 1).value;
      var noise := Layers.SubtractShape([cropped, speech]).value;
      var speechOut := FirstTwo(speech).value;
      var noiseOut := FirstTwo(noise).value;
      return Ok((speechOut, noiseOut));
    }

    /**
     * The check Model(...) makes on the finished graph: two layers of one
     * name raise ValueError. Only the data-slice names can clash, and they
     * do exactly when a dilation repeats.
     */
    method CheckLayerNames(blocks: seq<BlockCall>) returns (r: Result<(), PyError>)
      requires numStacks >= 1 && blocks == Schedule(numStacks, dilations)
      ensures r.Ok? <==> Distinct(dilations)
      ensures r.Err? ==> r.error == ValueError
    {
      DataSliceNamesDistinct(numStacks, dilations, numResidualBlocks);
      if !Distinct(DataSliceNames(numResidualBlocks, blocks)) {
        return Err(ValueError);
      }
      return Ok(());
    }

    /**
     * build_model at the level of shapes: it raises exactly when one of the
     * conditions of Buildable fails (a repeated dilation only when Model(...)
     * finds two layers of one name), and otherwise both outputs have shape
     * (None, padded_target_field_length), one skip connection of shape
     * (None, padded_target_field_length, skip) is collected per residual
     * block, and the blocks are called in the order of Schedule.
     */
    method BuildModel() returns (r: Result<Built, PyError>)
      requires Valid()
      ensures r.Ok? <==> Buildable()
      ensures r.Ok? ==> r.value.speech == [PyNone, PyInt(paddedTargetFieldLength)]
      ensures r.Ok? ==> r.value.noise == [PyNone, PyInt(paddedTargetFieldLength)]
      ensures r.Ok? ==> |r.value.skipConnections| == numResidualBlocks
      ensures r.Ok? ==> forall i :: 0 <= i < |r.value.skipConnections| ==> r.value.skipConnections[i] == SkipShape()
      ensures r.Ok? ==> r.value.blocks == Schedule(numStacks, dilations)
    {
      var inputs :- WireInputs();
      var (conditionInput, cropped, dataOut) := inputs;
      var stream :- WireBlocks(dataOut, conditionInput);
      var (_, skipConnections, blocks) := stream;
      assert |skipConnections| >= 1 <==> numStacks >= 1 && |dilations| >= 1 by {
        if numStacks >= 1 && |dilations| >= 1 {
          assert numStacks * |dilations| >= 1 * |dilations|;
        }
      }
      var outputs :- WireOutputs(cropped, skipConnections, conditionInput);
      var _ :- CheckLayerNames(blocks);
      return Ok(Built(outputs.0, outputs.1, skipConnections, blocks));
    }
  }

  /**
   * DenoisingWavenet(...) as a caller sees it: __init__ resolves the fields
   * (ValueError when the condition length cannot be computed), then
   * setup_model builds the graph, so construction also raises exactly when
   * build_model does; the new object keeps the built graph.
   */
  method Create(config: Config, inputLength: Option<int>, targetFieldLength: Option<int>, receptiveFieldLength: int)
    returns (r: Result<DenoisingWavenet, PyError>)
    ensures var cil := ConditionInputLength(config.model.conditionEncoding, config.numConditionClasses);
      var lengths := ResolveLengths(receptiveFieldLength, inputLength, targetFieldLength, config.model.targetFieldLength);
      r.Err? <==> (cil.Err? ||
        !BuildableWith(config.model.filters, config.model.numStacks, NormalizeDilations(config.model.dilations),
                       lengths.inputLength, cil.value, lengths.targetFieldLength + 2 * config.model.targetPadding))
    ensures r.Ok? ==> fresh(r.value) && r.value.Valid() && r.value.receptiveFieldLength == receptiveFieldLength
    ensures r.Ok? ==> Lengths(r.value.inputLength, r.value.targetFieldLength) ==
                      ResolveLengths(receptiveFieldLength, inputLength, targetFieldLength, config.model.targetFieldLength)
    ensures r.Ok? ==> r.value.config == config.(model := config.model.(
      numResidualBlocks := Some(r.value.numResidualBlocks),
      receptiveFieldLength := Some(receptiveFieldLength),
      inputLength := Some(r.value.inputLength),
      targetFieldLength := r.value.targetFieldLength))
    ensures r.Ok? ==> (r.value.model.Some? &&
      r.value.model.value.speech == [PyNone, PyInt(r.value.paddedTargetFieldLength)] &&
      r.value.model.value.noise == [PyNone, PyInt(r.value.paddedTargetFieldLength)] &&
      |r.value.model.value.skipConnections| == r.value.numResidualBlocks &&
      r.value.model.value.blocks == Schedule(r.value.numStacks, r.value.dilations))
  {
    var conditionLength := ConditionInputLength(config.model.conditionEncoding, config.numConditionClasses);
    if conditionLength.Err? {
      return Err(conditionLength.error);
    }
    var m := new DenoisingWavenet(config, inputLength, targetFieldLength, receptiveFieldLength);
    var built :- m.BuildModel();
    m.model := Some(built);
    return Ok(m);
  }
}
