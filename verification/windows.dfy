/**
 The index bookkeeping of `WindowGenerator` (cnn_forecast_methods.py):
 how a window of `input_width + shift` consecutive time steps is split
 into an inputs prefix and a labels suffix, which column each label
 channel is read from, and the cached example batch. The TensorFlow
 dataset, the model and the training loop are left out; a batch is a
 `[window][time step][feature]` sequence of reals together with its
 static shape.
 */
module Windows {
  import opened Outcomes
  import opened Slices

  type Tensor = seq<seq<seq<real>>>

  /** A batch of static shape [windows, steps, width]. The shape is part
      of a TensorFlow tensor, so a batch without windows still has its
      step count and feature width. */
  predicate Shaped(t: Tensor, steps: nat, width: nat) {
    forall b :: 0 <= b < |t| ==> |t[b]| == steps && forall i :: 0 <= i < steps ==> |t[b][i]| == width
  }

  /** One batch split into model inputs and expected labels. */
  datatype Split = Split(inputs: Tensor, labels: Tensor)

  /** The fields `__init__` sets, plus the `_example` cache. */
  datatype Window = Window(
    inputWidth: int,
    labelWidth: int,
    shift: int,
    columns: seq<string>,                         // train_df.columns
    labelColumns: Option<seq<string>>,
    labelColumnsIndices: Option<map<string, nat>>,
    columnIndices: map<string, nat>,
    totalWindowSize: int,
    inputSlice: (Option<int>, Option<int>),       // slice(0, input_width)
    inputIndices: seq<int>,
    labelStart: int,
    labelsSlice: (Option<int>, Option<int>),      // slice(label_start, None)
    labelIndices: seq<int>,
    example: Option<Split>)                        // the `_example` attribute

  /** `WindowGenerator.__init__`. */
  function NewWindow(inputWidth: int, labelWidth: int, shift: int,
                     columns: seq<string>, labelColumns: Option<seq<string>>): (w: Window)
    ensures w.totalWindowSize == inputWidth + shift
    ensures w.inputSlice == (Some(0), Some(inputWidth))
    ensures w.labelStart == inputWidth + shift - labelWidth
    ensures w.labelsSlice == (Some(w.labelStart), None)
    // with a non-negative shift the inputs are exactly the steps [0, input_width)
    ensures inputWidth >= 0 && shift >= 0 ==>
      |w.inputIndices| == inputWidth && forall i :: 0 <= i < inputWidth ==> w.inputIndices[i] == i
    // a label width that fits gives exactly the last label_width steps
    ensures 0 <= labelWidth <= inputWidth + shift ==>
      && |w.labelIndices| == labelWidth
      && forall i :: 0 <= i < labelWidth ==> w.labelIndices[i] == inputWidth + shift - labelWidth + i
    // every column name maps to its position in the frame's column order
    ensures forall n :: n in w.columnIndices <==> n in columns
    ensures forall n :: n in w.columnIndices ==>
      w.columnIndices[n] < |columns| && columns[w.columnIndices[n]] == n
    ensures labelColumns.Some? <==> w.labelColumnsIndices.Some?
    ensures labelColumns.Some? ==> forall n :: n in w.labelColumnsIndices.value <==> n in labelColumns.value
    ensures labelColumns.Some? ==> forall n :: n in w.labelColumnsIndices.value ==>
      && w.labelColumnsIndices.value[n] < |labelColumns.value|
      && labelColumns.value[w.labelColumnsIndices.value[n]] == n
    ensures w.example.None?
  {
    var total := inputWidth + shift;
    var labelStart := total - labelWidth;
    var inputSlice := (Some(0), Some(inputWidth));
    var labelsSlice := (Some(labelStart), None);
    Window(
      inputWidth, labelWidth, shift, columns, labelColumns,
      if labelColumns.Some? then Some(IndexMap(labelColumns.value)) else None,
      IndexMap(columns),
      total,
      inputSlice, Slice(Arange(total), inputSlice.0, inputSlice.1),
      labelStart,
      labelsSlice, Slice(Arange(total), labelsSlice.0, labelsSlice.1),
      None)
  }

  /** The input steps and the label steps of a window share no position
      exactly when the labels begin at or after `input_width`, i.e. when
      `label_width <= shift`, or when there are no input steps at all. */
  lemma RangesDisjointIff(inputWidth: nat, labelWidth: nat, shift: nat, columns: seq<string>)
    requires labelWidth <= inputWidth + shift
    ensures var w := NewWindow(inputWidth, labelWidth, shift, columns, None);
      (forall i, j :: 0 <= i < |w.inputIndices| && 0 <= j < |w.labelIndices| ==>
         w.inputIndices[i] != w.labelIndices[j])
      <==> (labelWidth <= shift || inputWidth == 0)
  {
    var w := NewWindow(inputWidth, labelWidth, shift, columns, None);
    if labelWidth > shift && inputWidth > 0 {
      assert w.labelIndices[0] == inputWidth + shift - labelWidth;
      assert w.inputIndices[inputWidth + shift - labelWidth] == w.labelIndices[0];
    }
  }

  /** The window `fit_model` builds uses `label_width == shift == OUT_STEPS`:
      the labels start exactly at `IN_STEPS`, so the inputs and labels tile
      the window end to end with no gap and no overlap. */
  lemma FitModelWindowAdjacent(inSteps: nat, outSteps: nat, columns: seq<string>)
    ensures var w := FitModelWindow(inSteps, outSteps, columns);
      && w.labelStart == inSteps
      && w.inputIndices + w.labelIndices == Arange(inSteps + outSteps)
  {
    var w := FitModelWindow(inSteps, outSteps, columns);
    assert |w.inputIndices + w.labelIndices| == inSteps + outSteps;
  }

  /** The window `fit_model` constructs. */
  function FitModelWindow(inSteps: int, outSteps: int, columns: seq<string>): Window {
    NewWindow(inSteps, outSteps, outSteps, columns, None)
  }

  /** How many steps `window[:, s, :]` keeps of a window of `steps` steps. */
  function SlicedSteps(steps: nat, s: (Option<int>, Option<int>)): nat {
    |Slice(Arange(steps), s.0, s.1)|
  }

  /** `inputs.set_shape([None, input_width, None])` and
      `labels.set_shape([None, label_width, None])` accept the sliced
      batches exactly when their step counts are the declared widths. */
  predicate ShapesFit(w: Window, steps: nat) {
    SlicedSteps(steps, w.inputSlice) == w.inputWidth && SlicedSteps(steps, w.labelsSlice) == w.labelWidth
  }

  /** `split_window` on a batch of shape [windows, steps, width]: each
      window's inputs are `window[input_slice]` and its labels
      `window[labels_slice]`; with `label_columns`, label step t keeps only
      the features of those columns, in `label_columns` order. While the
      column list is evaluated, an unknown name raises KeyError and a
      position beyond the feature axis IndexError; stacking an empty list
      of columns raises IndexError. Then `set_shape` raises ValueError when
      a step count differs from the declared width. */
  function SplitWindow(w: Window, features: Tensor, steps: nat, width: nat): (r: Result<Split>)
    requires Shaped(features, steps, width)
    ensures w.labelColumns.None? ==> (r.Ok? <==> ShapesFit(w, steps))
    ensures w.labelColumns.Some? ==>
      (r.Ok? <==> LabelColumnsValid(w.labelColumns.value, w.columnIndices, width) && ShapesFit(w, steps))
    ensures w.labelColumns.Some? && !LabelColumnsValid(w.labelColumns.value, w.columnIndices, width) ==>
      var failure := ColumnsError(w.labelColumns.value, w.columnIndices, width);
      r == Halted(Raise(if failure.Some? then failure.value else IndexError))
    ensures
      && (w.labelColumns.None? || LabelColumnsValid(w.labelColumns.value, w.columnIndices, width))
      && !ShapesFit(w, steps)
      ==> r == Halted(Raise(ValueError))
    ensures r.Ok? ==> |r.value.inputs| == |r.value.labels| == |features|
    ensures r.Ok? ==> forall b :: 0 <= b < |features| ==>
      |r.value.inputs[b]| == w.inputWidth && |r.value.labels[b]| == w.labelWidth
    ensures r.Ok? ==> forall b :: 0 <= b < |features| ==>
      r.value.inputs[b] == Slice(features[b], w.inputSlice.0, w.inputSlice.1)
    ensures r.Ok? && w.labelColumns.None? ==> forall b :: 0 <= b < |features| ==>
      r.value.labels[b] == Slice(features[b], w.labelsSlice.0, w.labelsSlice.1)
    ensures w.labelColumns.Some? && r.Ok? ==>
      forall b, t, c :: 0 <= b < |features| && 0 <= t < |r.value.labels[b]| && 0 <= c < |w.labelColumns.value| ==>
        && |r.value.labels[b]| == |Slice(features[b], w.labelsSlice.0, w.labelsSlice.1)|
        && |r.value.labels[b][t]| == |w.labelColumns.value|
        && r.value.labels[b][t][c] ==
           Slice(features[b], w.labelsSlice.0, w.labelsSlice.1)[t][w.columnIndices[w.labelColumns.value[c]]]
  {
    var inputs := SliceWindows(features, w.inputSlice);
    var labels := SliceWindows(features, w.labelsSlice);
    SlicedShape(features, steps, width, w.inputSlice);
    SlicedShape(features, steps, width, w.labelsSlice);
    match w.labelColumns
    case None =>
      if !ShapesFit(w, steps) then Halted(Raise(ValueError))
      else Ok(Split(inputs, labels))
    case Some(cols) =>
      var failure := ColumnsError(cols, w.columnIndices, width);
      if failure.Some? then Halted(Raise(failure.value))
      else if |cols| == 0 then Halted(Raise(IndexError))
      else if !ShapesFit(w, steps) then Halted(Raise(ValueError))
      else Ok(Split(inputs, PickAll(labels, cols, w.columnIndices, width)))
  }

  /** `window[:, lo:hi, :]`: the same step range of every window. */
  function SliceWindows(features: Tensor, bounds: (Option<int>, Option<int>)): (r: Tensor)
    ensures |r| == |features|
    ensures forall b :: 0 <= b < |features| ==> r[b] == Slice(features[b], bounds.0, bounds.1)
  {
    seq(|features|, b requires 0 <= b < |features| => Slice(features[b], bounds.0, bounds.1))
  }

  /** Slicing steps keeps the feature axis whole, and every window keeps
      the same number of steps. */
  lemma SlicedShape(features: Tensor, steps: nat, width: nat, bounds: (Option<int>, Option<int>))
    requires Shaped(features, steps, width)
    ensures var r := SliceWindows(features, bounds);
      && (forall b :: 0 <= b < |r| ==> |r[b]| == SlicedSteps(steps, bounds))
      && (forall b, t :: 0 <= b < |r| && 0 <= t < |r[b]| ==> |r[b][t]| == width)
  {
    var r := SliceWindows(features, bounds);
    forall b | 0 <= b < |r|
      ensures |r[b]| == SlicedSteps(steps, bounds)
      ensures forall t :: 0 <= t < |r[b]| ==> |r[b][t]| == width
    {
      assert |features[b]| == steps;
      forall t | 0 <= t < |r[b]| ensures |r[b][t]| == width {
        var lo := SliceBound(steps, bounds.0, 0);
        assert r[b][t] == features[b][lo + t];
      }
    }
  }

  /** The label columns picked out of every window. */
  function PickAll(labels: Tensor, cols: seq<string>, columnIndices: map<string, nat>, width: nat): (r: Tensor)
    requires forall c :: c in cols ==> c in columnIndices && columnIndices[c] < width
    requires forall b, t :: 0 <= b < |labels| && 0 <= t < |labels[b]| ==> |labels[b][t]| == width
    ensures |r| == |labels|
    ensures forall b :: 0 <= b < |labels| ==> r[b] == PickColumns(labels[b], cols, columnIndices, width)
  {
    seq(|labels|, b requires 0 <= b < |labels| => PickColumns(labels[b], cols, columnIndices, width))
  }

  /** The conditions under which selecting the label columns succeeds. */
  predicate LabelColumnsValid(cols: seq<string>, columnIndices: map<string, nat>, width: nat) {
    && |cols| > 0
    && (forall c :: c in cols ==> c in columnIndices)
    && (forall c :: c in cols ==> columnIndices[c] < width)
  }

  /** The exception raised by the first bad name while the column list is
      evaluated in order: a name missing from `column_indices` raises
      KeyError, a position past the feature axis IndexError. */
  function ColumnsError(cols: seq<string>, columnIndices: map<string, nat>, width: nat): (e: Option<PyError>)
    ensures e.None? <==> forall c :: c in cols ==> c in columnIndices && columnIndices[c] < width
    ensures e.Some? ==> e.value == KeyError || e.value == IndexError
  {
    if |cols| == 0 then None
    else if cols[0] !in columnIndices then Some(KeyError)
    else if columnIndices[cols[0]] >= width then Some(IndexError)
    else
      assert cols == [cols[0]] + cols[1..];
      ColumnsError(cols[1..], columnIndices, width)
  }

  /** `tf.stack([labels[:, :, column_indices[name]] for name in cols], axis=-1)`
      on one window. */
  function PickColumns(win: seq<seq<real>>, cols: seq<string>, columnIndices: map<string, nat>, width: nat)
    : (r: seq<seq<real>>)
    requires forall c :: c in cols ==> c in columnIndices && columnIndices[c] < width
    requires forall t :: 0 <= t < |win| ==> |win[t]| == width
    ensures |r| == |win|
    ensures forall t :: 0 <= t < |win| ==> |r[t]| == |cols|
    ensures forall t, c :: 0 <= t < |win| && 0 <= c < |cols| ==> r[t][c] == win[t][columnIndices[cols[c]]]
  {
    seq(|win|, t requires 0 <= t < |win| =>
      seq(|cols|, c requires 0 <= c < |cols| => win[t][columnIndices[cols[c]]]))
  }

  /** When every window is one full window (`total_window_size` steps, as
      the dataset produces them) and the widths fit, the inputs are the
      first `input_width` steps and the labels the last `label_width`. */
  lemma SplitWindowShapes(w: Window, features: Tensor, width: nat, inputWidth: nat, labelWidth: nat, shift: nat,
                          columns: seq<string>)
    requires w == NewWindow(inputWidth, labelWidth, shift, columns, None)
    requires labelWidth <= inputWidth + shift
    requires Shaped(features, inputWidth + shift, width)
    ensures SplitWindow(w, features, inputWidth + shift, width).Ok?
    ensures forall b :: 0 <= b < |features| ==>
      && SplitWindow(w, features, inputWidth + shift, width).value.inputs[b] == features[b][..inputWidth]
      && SplitWindow(w, features, inputWidth + shift, width).value.labels[b] == features[b][inputWidth + shift - labelWidth..]
  {
    var steps := inputWidth + shift;
    assert SlicedSteps(steps, w.inputSlice) == inputWidth;
    assert SlicedSteps(steps, w.labelsSlice) == labelWidth;
    var r := SplitWindow(w, features, steps, width);
    forall b | 0 <= b < |features|
      ensures r.value.inputs[b] == features[b][..inputWidth]
      ensures r.value.labels[b] == features[b][inputWidth + shift - labelWidth..]
    {
      assert r.value.inputs[b] == Slice(features[b], Some(0), Some(inputWidth));
      assert r.value.labels[b] == Slice(features[b], Some(inputWidth + shift - labelWidth), None);
    }
  }

  /** A label width beyond the window cannot be filled: the labels slice
      keeps at most `total_window_size` steps, so `set_shape` raises
      ValueError unless a column lookup fails first. */
  lemma LabelWiderThanWindowFails(w: Window, features: Tensor, width: nat, inputWidth: nat, labelWidth: nat,
                                  shift: nat, columns: seq<string>)
    requires w == NewWindow(inputWidth, labelWidth, shift, columns, None)
    requires labelWidth > inputWidth + shift
    requires Shaped(features, inputWidth + shift, width)
    ensures SplitWindow(w, features, inputWidth + shift, width) == Halted(Raise(ValueError))
  {
    assert SlicedSteps(inputWidth + shift, w.labelsSlice) <= inputWidth + shift;
  }

  // ---------------------------------------------------------------------
  // The cached `example` property

  /** One read of `window.example`. `firstTrainBatch` is what
      `next(iter(self.train))` would yield at that moment (the training set
      is shuffled, so it can differ from read to read); it is used only when
      nothing is cached yet, and is then cached. */
  function Example(w: Window, firstTrainBatch: Split): (r: (Split, Window))
    ensures r.1.example == Some(r.0)
    ensures w.example.Some? ==> r.0 == w.example.value
    ensures w.example.None? ==> r.0 == firstTrainBatch
    ensures r.1 == w.(example := Some(r.0))
  {
    match w.example
    case Some(cached) => (cached, w)
    case None => (firstTrainBatch, w.(example := Some(firstTrainBatch)))
  }

  /** The values returned by successive reads, the i-th read being offered
      `batches[i]` by the dataset. */
  function ExampleReads(w: Window, batches: seq<Split>): (r: seq<Split>)
    ensures |r| == |batches|
    decreases |batches|
  {
    if |batches| == 0 then []
    else
      var (v, w') := Example(w, batches[0]);
      [v] + ExampleReads(w', batches[1..])
  }

  /** The property is computed once: however many times it is read and
      whatever the dataset would yield, every read returns the first value
      (the cached one if there was one, else the first batch offered). */
  lemma {:induction false} ExampleReadsStable(w: Window, batches: seq<Split>)
    requires |batches| > 0
    ensures var first := if w.example.Some? then w.example.value else batches[0];
      forall i :: 0 <= i < |batches| ==> ExampleReads(w, batches)[i] == first
    decreases |batches|
  {
    var (v, w') := Example(w, batches[0]);
    if |batches| > 1 {
      ExampleReadsStable(w', batches[1..]);
    }
  }
}
