# Traffic-sign detection stage, modelled in Dafny

This project models the detection stage of a traffic-sign video pipeline
(`detection.h`). The stage has three parts:

- `detection::find_sign` scans the detector's raw output. It looks at every
  output tensor as a flat buffer of 7-float records
  `[batch_id, class_id_raw, confidence, left, top, right, bottom]` and keeps
  the **first** record whose confidence is strictly above 0.90 and whose class
  id (`int(class_id_raw) - 1`) is the target class 0. It widens that record's
  normalised box by 0.008 on each side, scales it to the frame, truncates with
  `int()` and clamps one side of each coordinate. It then crops the frame to
  the rectangle at `(box_left, box_top)` whose size is
  `|box_right - box_left| x |box_bottom - box_top|`.
- `detection::load_model` returns false when either model file is missing.
  Otherwise it reads the network, selects the default backend and the CPU
  target, and stores the names of the unconnected output layers.
- `detection::processing_thread` repeats one iteration. If the frame queue is
  not empty, it takes one frame and clears the rest. If that frame is not
  empty, it runs the network on it and pushes the prediction and then the
  frame.

Modules:

- `Numeric` (numeric.dfy): `Trunc`, the C++ float-to-`int` conversion (toward zero), on reals.
- `Layout` (layout.dfy): the 7-float record layout, with `Decode`/`Encode` between flat buffers and records.
- `Image` (image.dfy): frames (width, height, opaque pixels) and rectangles.
- `Detection` and `DetectionFacts` (detection.dfy): the qualification test, the first-match search, the box arithmetic, `FindSign`, the loop-level `ScanOutputs`, and the facts proved about them.
- `ModelStore` (model_store.dfy): the load guard and the state it leaves.
- `Worker` (worker.dfy): one worker iteration over queues modelled as sequences, plus traces of producer and worker steps.
- `Subsequence` (subsequence.dfy): in-order subsequences, used to state that frames are skipped but never reordered.
- `Wrappers` (wrappers.dfy): `Option`. It replaces the boolean result plus output parameter.

Behaviour of the code worth knowing:

- Coordinates are truncated, not rounded. Box (0.2, 0.2, 0.4, 0.4) on a 100 x 100 frame gives pixel bounds (19, 19, 40, 40) (`DetectionFacts.TruncationNotRounding`).
- The clamps are one-sided. Left and top are bounded only from below, and right and bottom only from above. So the clamped bounds never lie below zero on the left and top, or past the far edge on the right and bottom. The crop leaves the frame exactly when a pair of sides is inverted (right before left, or bottom before top) and the rectangle, which extends past the left or top bound by the same distance, runs past the far edge (`DetectionFacts.InsideFrameIff`; examples in `DetectionFacts.ClampIsOneSided`). A normalised, well-ordered box on a non-empty frame always gives a crop inside the frame (`DetectionFacts.CropInsideFrame`), but that crop may be empty (`DetectionFacts.EmptyCornerCrop`, `DetectionFacts.OnePixelWideCrop`).
- Taking `abs()` of the bound differences does not make the crop of an inverted box cover the box. The rectangle still starts at `box_left` and extends to the right of it (`Detection.CropRect`).
- A buffer whose length is not a multiple of 7 ends in a partial record, and the loop may read past the end of the buffer there. The model requires whole records (`Layout.WellFormed`).

## Model

| member | source | states |
|---|---|---|
| Numeric.Trunc | detection.h:56 | `int()` of a float truncates toward zero: `r <= x < r+1` for non-negative `x`, and `r-1 < x <= r` for negative `x` |
| Numeric.TruncIsTheTruncation | detection.h:69-72 | `Trunc(x)` has the sign of `x` and magnitude `floor(abs(x))`, and it is the only integer with that property |
| Numeric.TruncMonotone | detection.h:69-72 | truncation preserves order |
| Numeric.TruncVersusFloor | detection.h:69-72 | truncation equals flooring exactly when `x` is non-negative or an integer |
| Layout.Decode | detection.h:52-55 | record `k` of a tensor is built from floats `7k .. 7k+6` of the buffer, and the record count is the buffer length divided by 7 |
| Layout.DecodeEncode | detection.h:52-64 | flattening records and reading them back at stride 7 gives the same records |
| Layout.EncodeDecode | detection.h:52-64 | reading a whole-record buffer at stride 7 and flattening again gives the same buffer |
| Detection.Qualifies | detection.h:55-59 | a record qualifies iff its confidence is strictly above 0.90 and its raw class lies in [1, 2), i.e. `int(raw) - 1 == 0` |
| Detection.ClassId | detection.h:56 | the class id plus one is the raw class value truncated toward zero, so the id is the target class 0 iff the raw value lies in [1, 2) |
| Detection.FirstIn | detection.h:53-59 | within one tensor: None iff no record qualifies; otherwise the index of a qualifying record with no qualifying record before it |
| Detection.FirstFrom | detection.h:50-59 | across tensors from `t` on: None iff no record there qualifies; otherwise the position of a qualifying record with nothing qualifying earlier in scan order |
| Detection.FirstMatch | detection.h:50-59 | None iff no record in any tensor qualifies; otherwise the position of the first qualifying record in tensor-then-index order |
| Detection.ClampLow | detection.h:69-70 | a left or top bound is never negative; it is 0 when the scaled coordinate is below 1, and otherwise the truncation of that coordinate |
| Detection.ClampHigh | detection.h:71-72 | a right or bottom bound never exceeds `hi = dim - 1`; it is the truncation of the scaled coordinate while that coordinate is below `hi + 1`, and `hi` once the coordinate reaches `hi` |
| Detection.ClampedBelowUnique | detection.h:69-70 | the lower-clamp characterisation determines the bound: two values that both meet it are equal |
| Detection.ClampedAboveUnique | detection.h:71-72 | the upper-clamp characterisation determines the bound: two values that both meet it are equal |
| Detection.BoxOf | detection.h:61-72 | for every record, each side equals `int((coord -/+ 0.008) * dim)`, clamped below at 0 for left and top and above at `dim - 1` for right and bottom, with the case chosen by the scaled coordinate |
| Detection.CropRect | detection.h:75 | the crop rectangle starts at the clamped `(left, top)` and has non-negative size; for an ordered box it ends at `(right, bottom)`, while for an inverted box it extends past `left` (or `top`) by the same distance instead of covering the box |
| Detection.FindSign | detection.h:48-83 | no output (None) iff no record of any tensor qualifies; an empty list of tensors always gives None |
| Detection.FirstMatchWins | detection.h:50-53 | if a qualifying record has no qualifying record before it in scan order, the result is exactly its crop rectangle |
| Detection.FoundIgnoresLaterTensors | detection.h:77 | once a record is found, appending more tensors does not change the result |
| Detection.ScanOutputs | detection.h:48-83 | the nested loop over flat buffers at stride 7, returning at the first qualifying record, computes exactly `FindSign` of the decoded records |
| DetectionFacts.AxisInside | detection.h:69-72 | along one axis, a normalised box with `lo <= hi` gives pixel bounds with `0 <= low <= high <= dim-1` |
| DetectionFacts.CropInsideFrame | detection.h:66-75 | for a normalised, well-ordered box on a non-empty frame, the clamped bounds are ordered and the crop rectangle lies inside the frame |
| DetectionFacts.ClampIsOneSided | detection.h:69-75 | on a 100 x 100 frame: the box (1.5, 1.5, -0.5, -0.5) gives `left = 149 > 99` and `right = -49 < 0` and a crop outside the frame; the box (-0.5, -0.5, 1.5, 1.5) is clamped back to `Rect(0, 0, 99, 99)`; the inverted box (0.9, 0.9, 0.1, 0.1) gives `Rect(89, 89, 79, 79)`, outside the frame |
| DetectionFacts.TruncationNotRounding | detection.h:69-75 | box (0.2, 0.2, 0.4, 0.4) on a 100 x 100 frame gives pixel bounds (19, 19, 40, 40) and a 21 x 21 crop at (19, 19) |
| DetectionFacts.FirstNotBest | detection.h:50-59 | with two qualifying records, the earlier one (confidence 0.91) is used, not the later one (0.99), and the two crops differ |
| DetectionFacts.EmptyCornerCrop | detection.h:69-77 | a corner box (1, 1, 1, 1) on a 100 x 100 frame gives crop `Rect(99, 99, 0, 0)`, and `FindSign` reports it |
| DetectionFacts.OnePixelWideCrop | detection.h:69-75 | on a frame one pixel wide, every normalised, ordered box gives a crop of width 0 |
| DetectionFacts.InsideFrameIff | detection.h:69-75 | for every record and frame, the crop lies inside the frame iff each inverted pair of sides has its mirrored extent `2*left - right` (or `2*top - bottom`) within the frame's width (or height) |
| DetectionFacts.RejectedRecords | detection.h:21-23 | confidence exactly 0.90 or 0.89 fails; raw class 2.0 fails; raw class 1.99 counts as the target |
| ModelStore.Load | detection.h:33-46 | succeeds iff both model files exist; on failure the state is unchanged; on success the network comes from the two paths, uses the default backend and the CPU target, and its unconnected output layers become the output names |
| ModelStore.ReadyIffFilesExist | detection.h:35-38 | from the unloaded state, the model is ready after a load iff both files exist, and a missing file leaves the state unloaded |
| Worker.Take | detection.h:94-96 | `get()` yields a frame only when the queue is non-empty, and that frame is in the queue |
| Worker.Iterate | detection.h:89-113 | an empty queue changes nothing; a non-empty queue ends empty; one pair is pushed iff the frame `get()` returned is non-empty, and the pushed frame is that frame, paired with its own forward pass; nothing else is pushed |
| Worker.EmptyTakenFrameSkipsIteration | detection.h:94-103 | when `get()` returns an empty frame, nothing is pushed and the queue is cleared, even though a non-empty frame was queued behind it |
| Worker.IteratePreservesPairing | detection.h:103-112 | if every prediction is the forward pass of the frame at the same index, one iteration keeps this true |
| Worker.RunPreservesPairing | detection.h:89-113 | the pairing holds after any sequence of producer steps and worker iterations |
| Worker.ApplyKeepsOrder | detection.h:94-99 | one step keeps the pushed frames followed by the queued frames an in-order subsequence of everything produced |
| Worker.RunKeepsOrder | detection.h:89-100 | the same holds for any sequence of steps |
| Worker.SkippedNeverReordered | detection.h:89-113 | from idle queues, the pushed frames are an in-order subsequence of the produced frames, each paired with its forward pass: frames may be skipped but are never reordered |
| Worker.BacklogOfFive | detection.h:94-99 | with five non-empty frames queued, one iteration runs the model on exactly one of them and leaves none queued |

## Left out

- OpenCV calls are opaque. `readNetFromTensorflow` is the parameter `outLayers` of `ModelStore.Load`. `blobFromImage` is recorded as a `Blob` value. `forward` is the parameter of `Worker.Iterate`. `find_sign` returns the crop rectangle instead of an image: the ROI crop, `clone` and the bicubic `resize` are not modelled.
- Exceptions raised by the image library are not modelled. This covers `readNetFromTensorflow` on a malformed model file, `forward`, and `resize`. The model treats the reader and the forward pass as total functions.
- The output image side comes from `helper::sign_res_display_width`. helper.h is not part of this model, so the square output size is not stated.
- Detection.FindSign: reports `Some` for an empty crop (zero width or height), as for a corner box or a one-pixel-wide frame. The source passes that empty crop to `resize`, which raises an exception, so `find_sign` never returns true there (`DetectionFacts.EmptyCornerCrop`, `DetectionFacts.OnePixelWideCrop`).
- The ROI constructor rejects a rectangle outside the frame. That error path is not modelled; `DetectionFacts.InsideFrameIff` states exactly when the rectangle stays inside.
- Worker.MakeBlob: records only the arguments of the `blobFromImage` call (300 x 300, scale 1.0, zero mean, red and blue swapped, no crop). The call itself is opaque, so nothing is proved about it.
- Floating point: values are exact reals. The float constants `0.90f` and `0.008f`, and the rounding of float products, may differ slightly from the exact values near the boundaries.
- Integer width: `Trunc` is unbounded. The C++ float-to-`int` conversion is undefined when the result does not fit in 32 bits.
- Tensor length: a buffer whose length is not a multiple of 7 is excluded by a precondition. The out-of-bounds read the C++ may do on it is not modelled.
- `helper::is_file_exist` is modelled as membership in a set of existing paths.
- Threading: the `while (!helper::stop)` loop, the stop flag, busy-waiting, queue thread-safety and races between `empty()`, `get()` and `clear()` are not modelled. Traces are sequential interleavings of whole producer steps and whole iterations.
- Consumers that drain the prediction and processed-frame queues are not modelled. In the model those queues only grow.
- Which element `get()` returns depends on the queue in helper.h. The model leaves it open with the `pick` index.
- `Mat::empty()` is modelled as zero width or zero height.
- Console output (`std::cout`) is not modelled.
- Whether inference can run before a successful load is not modelled: the forward pass is a parameter, independent of the model state.
