# Denoising WaveNet: field lengths, shape-level graph and the Slice layer

This project models the parts of the speech-denoising WaveNet that can be
checked without running the network:

- **The model object** (`wavenet/models.py`). The `DenoisingWavenet` class
  has the fields its constructor derives from the configuration: dilations,
  condition length, input length, target field length, padded length, block
  count and the two index windows. The constructor writes four of those
  values back into `config['model']`.
- **The builder.** `build_model` and `dilated_residual_block` are modelled
  at the level of symbolic Keras shapes. `(None, n, c)` is a batch of `n`
  time steps with `c` channels. Each Keras layer is a shape function that
  either returns a shape or raises (`KerasShapes`). The builder is a method
  with the two loops of the source: stacks, then dilations. It collects one
  skip shape per block and records the arguments of each block call.
- **The custom layers** (`wavenet/layers.py`). Each of `AddSingletonDepth`,
  `Subtract` and `Slice` has two parts:
  - the shape it declares;
  - what it computes on concrete integer tensors (`Tensors`). For `Slice`
    this includes the permute, index, permute-back trick of `call`, proved
    to select along the time axis.
- **The text codec** `Slice` uses for `get_config` and `from_config`:
  - `slice(start,stop,step)` for slices;
  - `":ellipsis:"` for `Ellipsis`.

Modules:

| module | contents |
|---|---|
| `Wrappers` | `Option` and `Result` |
| `PyText` | `str(int)`, `int(str)`, `str.index`, `str.split`, `str.join` |
| `PyValues` | the Python values a selector or shape holds, and `slice.indices` |
| `Tensors` | nested integer tensors with axis lengths |
| `KerasShapes` | the Keras layers' shape rules |
| `Layers` | `wavenet/layers.py` |
| `FieldLengths` | the pure integer arithmetic of `wavenet/models.py` |
| `Models` | the class and the builder |

**Inputs that are parameters.** Some values come from code that is not part
of this model, so they are given as inputs:

- `receptive_field_length` comes from `util.compute_receptive_field_length`, which is not part of this model. It is a parameter of the constructor.
- The configuration is a value holding the entries the model reads.

**Behaviour of the code worth knowing:**

- **Both lengths given.** When both `input_length` and `target_field_length`
  are given, nothing is rejected: the target field length wins and the input
  length is recomputed from it.
- **Only `input_length` given.** The `else` branch replaces it with the one
  derived from the configured target field length (`InputLengthOverridden`).
- **Padded window length.** `samples_of_interest_indices` has
  `2 * (target_field_length // 2) + 2p + 1` entries. That equals the
  declared `padded_target_field_length` only for an odd target field length
  (`PaddedWindowLength`).
- **Binary condition length.** For the binary encoding the condition length
  is `max(ceil(log2 n), 1)` rather than `ceil(log2 n)`. So one class gives 1,
  not 0, and zero classes give 1.
- **Repeated dilations.** An explicit dilation list that repeats a value is
  not rejected as a configuration error. It makes `Model(...)` raise
  ValueError for two layers of the same name (see Findings).
- **Configuration errors.** No configuration error is raised for
  non-positive lengths. Only the errors Keras or Python raise while wiring
  the graph are modelled.

## Model

| member | source | states |
|---|---|---|
| `FieldLengths.IntDilationsSchedule` | wavenet/models.py:39-41 | An int `k` gives `k + 1` dilations (none for negative `k`): 1 first, each twice the one before, all positive and strictly increasing. |
| `FieldLengths.ResolveLengths` | wavenet/models.py:53-64 | Afterwards `input_length == receptive_field_length + target_field_length - 1`. An explicit target field length is kept; without one the configured target is used. |
| `FieldLengths.InputLengthOverridden` | wavenet/models.py:53-64 | An explicit `input_length` alone has no effect: the result equals the one without it, and keeps the given input length exactly when it agrees with the configured target. |
| `FieldLengths.ResolveWrittenBack` | wavenet/models.py:84-87 | Resolving again from the written-back target field length gives the same lengths. |
| `FieldLengths.TargetSampleIndex` | wavenet/models.py:271-272 | The centre `c` is the floor of half the input length: `2c <= input_length < 2c + 2`. |
| `FieldLengths.WindowsCentred` | wavenet/models.py:257-269 | Both windows are runs of consecutive integers. The target window has `2h + 1` entries with `c` at position `h`; the padded window has `2(h + p) + 1` entries with `c` at position `h + p`. |
| `FieldLengths.TargetInsidePadded` | wavenet/models.py:257-269 | For non-negative lengths the target window is the middle of the padded window, `p` entries in from each end. |
| `FieldLengths.UnpaddedWindowsEqual` | wavenet/models.py:257-269 | With zero padding the two windows are equal. |
| `FieldLengths.PaddedWindowLength` | wavenet/models.py:264-269 | The padded window has `2 * (tfl // 2) + 2p + 1` entries. That equals the declared padded length `tfl + 2p` exactly when `tfl` is odd. |
| `FieldLengths.PaddedWindowInside` | wavenet/models.py:264-269 | With resolved lengths, odd `tfl` and `p >= 0`, the padded window lies within `[0, input_length)` exactly when `2p + 1 <= receptive_field_length`. |
| `FieldLengths.EvenTargetWindowTooLong` | wavenet/models.py:264-269 | With receptive field 3, target field 2 and no padding, the lengths resolve to input 4 and target 2, and the padded window is `[1, 2, 3]`: one index more than the declared padded length 2. |
| `FieldLengths.PaddedTargetFieldIndicesExact` | wavenet/models.py:264-269 | The intended window: consecutive, exactly `tfl + 2p` indices, with the target sample index at position `tfl // 2 + p`. For an odd `tfl` it equals the source's window. |
| `FieldLengths.CeilLog2Least` | wavenet/models.py:283 | `CeilLog2(n)` is the least `L` with `2^L >= n`. |
| `FieldLengths.ConditionInputLength` | wavenet/models.py:280-285 | Binary encoding raises for negative `n`. Otherwise it gives the least `L >= 1` with `2^L >= n`. Any other encoding gives `n`. |
| `Models.DenoisingWavenet.constructor` | wavenet/models.py:38-87 | Establishes `Valid()`: each field's relation to the configuration, the lengths resolved as `ResolveLengths`, padded length `tfl + 2p`, block count `len(dilations) * num_stacks`, both index windows, and exactly four configuration entries updated. |
| `Models.Create` | wavenet/models.py:33-89 | Construction fails exactly when the condition length raises or `build_model`, called from `setup_model`, raises. `BuildableWith` states the second condition on the configuration and the resolved lengths. Otherwise the new object is `Valid()` and holds the resolved lengths. Its `config` is the argument with the four entries written back. It keeps the built graph: both outputs are `(None, padded)`, with one skip connection per block, in `Schedule` order. |
| `Models.DenoisingWavenet.WindowNonEmpty` | wavenet/models.py:72 | The samples-of-interest window is non-empty exactly when the padded length is not negative. |
| `Models.ScheduleOrder` | wavenet/models.py:316-326 | In stack-major order, call `i` is block `i + 1` at position `i % D` of stack `i / D`, with that position's dilation. There are `num_stacks * D` calls. |
| `Models.DenoisingWavenet.WireInputs` | wavenet/models.py:289-314 | The inputs, the cropped input `(None, padded, 1)` and the initial merged stream `(None, input_length, res)` are wired exactly when the lengths and first convolution are acceptable. If both input lengths are non-negative and the padded length is negative, the window is empty and the call raises IndexError. Every other failure is a ValueError. |
| `Models.DenoisingWavenet.DilatedResidualBlock` | wavenet/models.py:376-460 | On the shapes `build_model` passes, it succeeds exactly when the dilation is positive and the skip depth not negative. It then returns the residual stream unchanged in shape `(None, input_length, res)` and a skip output `(None, padded, skip)`. |
| `Models.DenoisingWavenet.WireStack` | wavenet/models.py:319-326 | One stack calls one block per dilation, numbered on from `stack_i * D`. It collects one skip shape per block and records the calls of `StackRow`. |
| `Models.DenoisingWavenet.WireBlocks` | wavenet/models.py:316-326 | The two loops succeed exactly when every block is accepted. They collect `num_stacks * D` skip shapes, all `(None, padded, skip)`, with the calls in `Schedule` order. |
| `Models.DenoisingWavenet.WireOutputs` | wavenet/models.py:328-372 | The skip sum, final convolutions and condition merges succeed exactly when there is a skip connection and both final depths and lengths exist and are positive. Then speech and noise are both `(None, padded)`. |
| `Models.DenoisingWavenet.CheckLayerNames` | wavenet/models.py:374 | `Model(...)` on the finished graph raises ValueError exactly when a dilation repeats, because two layers then share a name. |
| `Models.DataSliceNamesDistinct` | wavenet/models.py:389-401 | With at least one stack, the data-slice names as written are all different exactly when no dilation repeats. |
| `Models.RepeatedDilationNamesClash` | wavenet/models.py:389-401 | One stack with dilations `[1, 1]` names two layers `res_2_data_slice_1_d1_s0`. |
| `Models.DataSliceNamesByBlockDistinct` | wavenet/models.py:389-401 | Numbered by `res_block_i`, the data-slice names are all different for every configuration. |
| `Models.DenoisingWavenet.BuildModel` | wavenet/models.py:287-374 | Succeeds exactly when `Buildable()`, which includes that no dilation repeats. Then both outputs are `(None, padded)`, there are `num_residual_blocks` skip shapes all equal to `(None, padded, skip)`, and the blocks run in `Schedule` order. |
| `Models.ApplySlice` | wavenet/models.py:297-301 | A Slice whose declared shape holds only ints yields `(None,) + declared`, and fails exactly when a declared length is negative. |
| `Models.CropSelectsPaddedWindow` | wavenet/models.py:297-301 | Under the constructor's lengths (odd `tfl`, `2p + 1 <= rfl`), the crop selects exactly the time steps of the padded window, in order: `tfl + 2p` = the declared length. |
| `Models.ChannelSliceKeepsRange` | wavenet/models.py:389-401 | A channel slice `[lo, hi)` keeps exactly channels `lo .. hi - 1` in order, with the `(steps, hi - lo)` it declares. |
| `Layers.AddSingletonDepthRank2` | wavenet/layers.py:9-23 | On `(b, n)` the call gives `(b, n, 1)` holding each sample as a one-element vector; the declared shape is `(b, n, 1)`. |
| `Layers.AddSingletonDepthRank3` | wavenet/layers.py:9-23 | On `(b, n, c)` the call gives `(b, 1, n, c)` holding the input unchanged; the declared shape is `(b, 1, n, c)`. |
| `Layers.SubtractCall` | wavenet/layers.py:31-32 | Succeeds exactly on two same-shaped inputs. The result has their shape and `result + x[1] == x[0]`. |
| `Layers.SubtractAgrees` | wavenet/layers.py:26-35 | Two inputs of one shape give a result of that shape, which is the shape `compute_output_shape` declares (the first input's). |
| `Layers.ComputeOutputShape` | wavenet/layers.py:97-104 | The result has length `len(desired) + 1` and starts with `None`. Entry `i + 1` is `input_shape[i + 1]` for an `Ellipsis` and `desired[i]` otherwise. It fails exactly when an `Ellipsis` is past the input's axes, and the error is IndexError. |
| `Layers.SliceTime` | wavenet/layers.py:78-95 | A selector `(slice, Ellipsis)` on `(batch, time, ch)` is permuted, swapped, indexed and permuted back. The net effect is `x[:, s, :]`. |
| `Layers.SliceChannels` | wavenet/layers.py:78-95 | A selector `(Ellipsis, slice)` indexes directly: `x[..., s]`. |
| `Layers.SlicePick` | wavenet/layers.py:78-95 | A selector `(Ellipsis, k)` on `(b, n, c)` succeeds exactly when `-c <= k < c`. It drops the last axis at `k`, counted from the end when `k` is negative: `x[..., k]`. Any other `k` fails, with the error modelled as IndexError (see "## Left out"). |
| `Layers.SerializeSelector` | wavenet/layers.py:121-126 | Length is preserved and no slice object is left. The elements that deserialisation will parse are exactly the slices and the strs that already started with `slice`. |
| `Layers.SerializeItem` | wavenet/layers.py:121-139 | The result is never a slice object. It starts with `slice` exactly when the element was a slice or already such a str. Deserialising it gives the element back unless the element is a str that starts with `slice`. |
| `Layers.DeserializeItem` | wavenet/layers.py:131-138 | An element that is not a str starting with `slice` is kept. A slice text succeeds exactly when the text between its first `(` and first `)` splits into three fields, each an int or `None`. It then yields the slice of those three parsed fields; otherwise it raises ValueError. |
| `Layers.SliceTextParsed` | wavenet/layers.py:131-138 | `slice(a,b,c)` with punctuation-free fields gives the slice of the parsed `a`, `b` and `c`. If one of them is neither an int nor `None`, it raises ValueError. |
| `Layers.DeserializeSelector` | wavenet/layers.py:128-139 | The loop returns what `Deserialized` does: the elements one by one, or the first error. |
| `Layers.DeserializedElementwise` | wavenet/layers.py:128-139 | Deserialising succeeds exactly when every element does, and then works element by element and preserves length. |
| `Layers.SelectorRoundTrip` | wavenet/layers.py:121-139 | `_deserialize_selector(_serialize_selector(sel)) == sel` for every selector whose strs do not start with `slice`. |
| `Layers.SerializeShape` | wavenet/layers.py:141-147 | No `Ellipsis` is left. `_deserialize_shape` gives the shape back unless it already held the text `":ellipsis:"`. |
| `Layers.DeserializeShape` | wavenet/layers.py:145-147 | No `":ellipsis:"` text is left. The result's `Ellipsis` entries are exactly the entries that were that text or already `Ellipsis`. |
| `Layers.ShapeRoundTripBack` | wavenet/layers.py:141-147 | `_serialize_shape(_deserialize_shape(shape)) == shape` for every shape without an `Ellipsis`. |
| `Layers.ConfigRoundTrip` | wavenet/layers.py:106-119 | A Slice layer rebuilt from its own `get_config` entries has the same selector and declared shape. |
| `PyText.ParseIntOfIntToStr` | wavenet/layers.py:135 | `int(str(n)) == n` for every int, which the slice field codec relies on. |

## Left out

- The optimizer, losses, metrics, `fit_model` and `denoise_batch` are left out: they are floating-point training code over TensorFlow.
- Checkpoint discovery and loading, directory creation, `compile`, `count_params` and the JSON dumps in `setup_model` are left out: they are filesystem I/O or training set-up. Its call to `build_model` is modelled, in `Create`.
- `Models.Create`: the training-path strings `setup_model` derives before `build_model` are left out. So is the ValueError `rindex('/')` raises for a path without `/`: the path is not part of the modelled configuration.
- `DenoisingWavenet.get_config` is left out: it only assembles a dictionary of values already computed.
- `util` is not part of this model. `receptive_field_length` is a parameter, and no formula for it is assumed.
- `methods.py` and `utils.py` are not part of this model. They are floating-point signal processing over foreign libraries.
- Layer names are left out, except for the two data-slice names per block. Those can clash, which makes `Model(...)` raise (`SliceName`). The `verbosity` field and the `Activation('relu')` object are left out too: they do not affect any length or shape.
- Convolution, Dense, `tanh`, `sigmoid` and `relu` values are left out. Only their shapes are modelled, because their weights are learned floats.
- `FieldLengths.ConditionInputLength`: float `log2` and `ceil` are replaced by the exact integer `CeilLog2`. This agrees with the source for `1 <= n <= 2^48` with a correctly rounded `log2`. Above that the float can round down: `n = 2^49 + 1` gives 49 in the source and 50 here. For `n = 0`, `log2` gives minus infinity and `max(..., 1)` makes it 1. For a negative `n`, the NaN that reaches `int()` is modelled as ValueError.
- `FieldLengths.TargetSampleIndex`: `int(np.floor(input_length / 2))` goes through a float. It is exact for `|input_length| < 2^53`, and the model uses exact floor division for every length. From `2^53` the float quotient rounds: `input_length = 2^54 + 3` gives `2^53 + 2` in the source and `2^53 + 1` here.
- Python's `int()` accepts Unicode digits and whitespace; the model accepts only ASCII digits, the ASCII whitespace characters and single underscores between digits.
- `bool` values counted as ints by `isinstance(s, int)` are left out. A selector never holds them.
- A `dilations` entry that is neither an int nor a list leaves `self.dilations` unset in the source. That case is left out, because the datatype admits only the two forms.
- The configuration dict is modelled as a value, so aliasing with the caller's dict is left out.
- `Layers.SlicePick`: the class of the error for an invalid or surplus index (here and in `Layers.Index` and `Layers.ResolveAxes`) follows Python and numpy indexing, IndexError. TensorFlow's strided slice raises InvalidArgumentError in eager mode and ValueError while tracing. The model keeps only that the call fails, and exactly when.
- Keras broadcasting in `Add`, `Multiply` and `Subtract` is left out. `Merge` demands equal shapes, which the builder always gives.
- `Models.DenoisingWavenet.DilatedResidualBlock`: modelled only for the input shapes `build_model` passes it.
- `Models.DenoisingWavenet.BuildModel`: shape level only. It relies on Keras using a custom layer's declared `compute_output_shape` when the graph is wired. It models which inputs raise, but not which of several failing layers raises first.
- `Layers.DeserializeSelector` returns a sequence where the source returns a tuple; `DeserializeShape` returns a list, as the source does.
- `Layers.SubtractCall`: tensors of different shapes give ValueError rather than a broadcast result.

## Findings

| source | as written | input that shows it | evidently intended | confidence | as-written member | corrected member |
|---|---|---|---|---|---|---|
| wavenet/models.py:389-401 | The two data-channel slices of each residual block are named with `self.num_residual_blocks`. Every other per-block layer is named with `res_block_i`. | `num_stacks = 1`, `dilations = [1, 1]`: two layers are named `res_2_data_slice_1_d1_s0`, so `Model(...)` raises ValueError. | Number these names by `res_block_i`, which keeps every name different for any dilation list. | high, not executed | `Models.RepeatedDilationNamesClash` | `Models.DataSliceNamesByBlockDistinct` |
| wavenet/models.py:264-269 | The padded window runs from `c - h - p` to `c + h + p` with `h = tfl // 2`, so it has `2h + 2p + 1` indices. | `receptive_field_length = 3`, `target_field_length = 2`, `target_padding = 0`: input length 4, window `[1, 2, 3]`. The crops declare 2 steps but select 3, and the `RepeatVector(2)` merges then meet 3 steps at run time. | A window of exactly `padded_target_field_length` indices. | medium, not executed | `FieldLengths.EvenTargetWindowTooLong` | `FieldLengths.PaddedTargetFieldIndicesExact` |

Both findings stay in the model as the code has them. `BuildModel` raises on a repeated dilation, and the constructor keeps the source's window, because the model follows the code as written. The corrected definitions are proved beside them.
