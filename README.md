# Multi-object tracking: adapters, configuration and utilities

This project models the deterministic layer of a multi-object tracking
application. A detector produces a list of detections per video frame.
One of several tracking engines (SORT, ByteTrack, BoTSORT) turns those lists
into tracks with persistent identities. This layer sits around the engines:

- **Tracker adapters.** Each adapter keeps the detections of the configured
  classes, converts them to its engine's input format, calls the engine, and
  converts the engine's tracks into `TrackedObject`s (identity plus an integer
  box).
  - Three current adapters (`trackers/*.cpp`) key on a detection's `label`.
  - Two older header-only adapters (`include/SortWrapper.hpp`,
    `include/BoTSORTWrapper.hpp`) key on `class_index` and build their boxes
    from corner points.
  - Each adapter is a class in its own module.
- **Configuration.** `TrackConfig` holds fixed SORT and ByteTrack numerics, a
  class set and four BoTSORT file paths.
- **Dispatch.** `createTracker` picks an adapter by the exact name of the
  algorithm. The program exits with status 1 when no adapter, or no detector,
  could be created.
- **Utilities.**
  - `splitString` cuts a delimited list into trimmed, non-empty tokens, using
    the same `getline` loop and in-place erases as the source.
  - `generateOutputPath` names the processed video after the input file,
    following the C++17 `std::filesystem::path` stem and extension rules.

The tracking engines themselves are not part of this model. Each engine is a
class with its constructor settings and the history of inputs it has received
so far. What it returns is a function of that settings-and-history pair. The
function is supplied from outside, as a constructor parameter of the adapter,
because it stands for engine code this model does not contain. Every adapter
`Update` is proved to append exactly the converted detections to that
history. It is also proved to report one `TrackedObject` per engine track, in
order, with the fields copied or truncated toward zero.

Modules:
- `Types`: shared values and truncation.
- `Seqs`: order-preserving filter and map.
- `Config`: `TrackConfig`.
- `SortAdapter`, `ByteTrackAdapter`, `BoTSORTAdapter`: the current adapters.
- `LegacySortAdapter`, `LegacyBoTSORTAdapter`: the older adapters.
- `Dispatch`: run.cpp's tracker selection.
- `Utils`: app/src/utils.cpp.

## Model

| member | source | states |
|---|---|---|
| Types.Trunc | trackers/SortWrapper.cpp:29-32 | `static_cast<int>` of a float lies within 1 of it, toward zero: below it for non-negative values, above it for negative ones |
| Types.CornersRoundTrip | include/SortWrapper.hpp:45-52 | the two-point box from (x, y) and (x+width, y+height) equals (x, y, width, height) for non-negative sizes; for negative sizes it is the mirrored box with absolute sizes |
| Config.MakeTrackConfig | include/TrackConfig.hpp:25-34 | the constructor copies the class set and the tracker, gmc, reid and onnx paths into their fields; every numeric field keeps its initialiser |
| Config.DefaultConfig | include/TrackConfig.hpp:25-29 | a default-constructed config has an empty class set and four empty paths |
| Config.ConstructedConfigs | include/TrackConfig.hpp:5-35 | a config can come from the constructor if and only if it has max_age 1, min_hits 3, iou 0.3, track_buffer 30 and thresholds 0.5, 0.6, 0.8 |
| SortAdapter.Sort.constructor | trackers/SortWrapper.cpp:4 | the engine stores max_age, min_hits and iou_threshold as given and starts with no history |
| SortAdapter.Sort.Update | trackers/SortWrapper.cpp:23 | one call appends its input to the engine's history and returns the engine's tracks for the new history |
| SortAdapter.SortInputFacts | trackers/SortWrapper.cpp:16-20 | a box reaches the engine if and only if it is the bbox of a detection whose label is configured; there are at most as many boxes as detections; none when the class set is empty |
| SortAdapter.SortInputSnoc | trackers/SortWrapper.cpp:16-20 | one more detection appends its bbox if and only if its label is configured |
| SortAdapter.SortInputConcat | trackers/SortWrapper.cpp:16-20 | the boxes keep the input order: filtering a concatenation concatenates the results |
| SortAdapter.SortWrapper.constructor | trackers/SortWrapper.cpp:3-6 | keeps the config and builds Sort from its max_age, min_hits and iou_threshold, unchanged |
| SortAdapter.SortWrapper.Update | trackers/SortWrapper.cpp:10-37 | the engine receives exactly the filtered boxes; the output has one TrackedObject per track, in order, with track_id = id and the bbox fields truncated |
| ByteTrackAdapter.BYTETracker.constructor | trackers/ByteTrackWrapper.cpp:7-12 | stores track_buffer, track_thresh, high_thresh and match_thresh in that order, with no history |
| ByteTrackAdapter.BYTETracker.Update | trackers/ByteTrackWrapper.cpp:37 | one call appends its objects to the history and returns the tracks for the new history |
| ByteTrackAdapter.ByteTrackInputFacts | trackers/ByteTrackWrapper.cpp:22-34 | an Object reaches the engine if and only if it comes from a detection of a configured label, with its rect equal to the bbox, prob = score and label = label; at most as many objects as detections; none for an empty class set |
| ByteTrackAdapter.ByteTrackInputSnoc | trackers/ByteTrackWrapper.cpp:23-33 | one more detection appends its Object if and only if its label is configured |
| ByteTrackAdapter.ByteTrackInputConcat | trackers/ByteTrackWrapper.cpp:22-34 | the objects keep the input order |
| ByteTrackAdapter.ByteTrackWrapper.constructor | trackers/ByteTrackWrapper.cpp:3-13 | keeps the config and passes its four ByteTrack numerics in order |
| ByteTrackAdapter.ByteTrackWrapper.Update | trackers/ByteTrackWrapper.cpp:17-51 | the engine receives exactly the filtered Objects; the output has one entry per STrack, in order, with track_id copied and tlwh[0..3] truncated |
| BoTSORTAdapter.BoTSORT.constructor | trackers/BoTSORTWrapper.cpp:7-12 | stores the tracker, gmc, reid and onnx paths in that order, with no history |
| BoTSORTAdapter.BoTSORT.Update | trackers/BoTSORTWrapper.cpp:39 | one call appends the (detections, frame) pair to the history and returns the tracks for the new history |
| BoTSORTAdapter.BoTSORTInputFacts | trackers/BoTSORTWrapper.cpp:22-36 | a DetectionBox reaches the engine if and only if it comes from a detection of a configured label, with tlwh = [x, y, width, height], confidence = score and classId = label; at most as many boxes as detections; none for an empty class set |
| BoTSORTAdapter.BoTSORTInputSnoc | trackers/BoTSORTWrapper.cpp:23-35 | one more detection appends its box if and only if its label is configured |
| BoTSORTAdapter.BoTSORTInputConcat | trackers/BoTSORTWrapper.cpp:22-36 | the boxes keep the input order; non-matching detections are dropped |
| BoTSORTAdapter.BoTSORTWrapper.constructor | trackers/BoTSORTWrapper.cpp:3-13 | keeps the config and passes the four paths in order |
| BoTSORTAdapter.BoTSORTWrapper.Update | trackers/BoTSORTWrapper.cpp:17-53 | the engine receives the filtered boxes together with the frame; one output per track, in order, with track_id = trackId and tlwh[0..3] truncated |
| LegacySortAdapter.Sort.Default | trackers/SORT/Sort.hpp:26-32 | a default-constructed Sort has max_age 5, min_hits 3, iou_threshold 0.3 and no history |
| LegacySortAdapter.Sort.Update | trackers/SORT/Sort.hpp:44 | one call appends its boxes to the history and returns the engine's boxes for the new history |
| LegacySortAdapter.ConvertedBoxesFacts | include/SortWrapper.hpp:34-57 | a TrackingBox is produced if and only if it comes from a detection whose class_index is configured; its id is that class index, so it lies in the class set; for non-negative sizes its box is (x, y, width, height); at most as many boxes as detections |
| LegacySortAdapter.ConvertedBoxesSnoc | include/SortWrapper.hpp:38-54 | one more detection appends its box if and only if its class_index is configured |
| LegacySortAdapter.ConvertedBoxesConcat | include/SortWrapper.hpp:34-57 | the boxes keep the input order |
| LegacySortAdapter.SortWrapper.constructor | include/SortWrapper.hpp:13 | stores the class set verbatim; the engine gets Sort's defaults |
| LegacySortAdapter.SortWrapper.ConvertBbox | include/SortWrapper.hpp:34-57 | the loop with its `continue` returns exactly ConvertedBoxes of the input |
| LegacySortAdapter.SortWrapper.Update | include/SortWrapper.hpp:15-32 | the engine receives the converted boxes; one TrackedObject per result, in order, with track_id = id and the box fields truncated |
| LegacyBoTSORTAdapter.BoTSORT.constructor | include/BoTSORTWrapper.hpp:31 | stores the four paths as given, with no history |
| LegacyBoTSORTAdapter.BoTSORT.Track | include/BoTSORTWrapper.hpp:40 | one call appends the (detections, frame) pair to the history and returns the tracks for the new history |
| LegacyBoTSORTAdapter.ConvertedDetectionsFacts | include/BoTSORTWrapper.hpp:57-81 | a botsort Detection is produced if and only if it comes from a detection whose class_index is configured; class_id and confidence are copied; for non-negative sizes bbox_tlwh is (x, y, width, height); at most as many as the input |
| LegacyBoTSORTAdapter.ConvertedDetectionsSnoc | include/BoTSORTWrapper.hpp:61-78 | one more detection appends its botsort Detection if and only if its class_index is configured |
| LegacyBoTSORTAdapter.ConvertedDetectionsConcat | include/BoTSORTWrapper.hpp:57-81 | the converted detections keep the input order |
| LegacyBoTSORTAdapter.BoTSORTWrapper.constructor | include/BoTSORTWrapper.hpp:29-32 | copies config.classes_to_track and passes the four paths to the engine in order |
| LegacyBoTSORTAdapter.BoTSORTWrapper.ConvertBbox | include/BoTSORTWrapper.hpp:57-81 | the loop returns exactly ConvertedDetections of the input |
| LegacyBoTSORTAdapter.BoTSORTWrapper.Update | include/BoTSORTWrapper.hpp:34-55 | the engine receives the converted detections and the frame (an empty image by default); one output per result, in order, with track_id and tlwh[0..3] truncated |
| Dispatch.SelectTracker | run.cpp:40-56 | "BoTSORT", "SORT" and "ByteTrack" each select their algorithm if and only if the name is exactly that string; every other name selects none |
| Dispatch.SelectTrackerExamples | run.cpp:40-56 | the default option "SORT" selects SORT; "sort", "bytetrack", "botsort", "BYTETRACK" and "" select none |
| Dispatch.CreateTracker | run.cpp:40-56 | returns no tracker exactly when the name selects none; otherwise a fresh adapter of the selected kind, built from the given config. Its engine has seen no frame and holds the config's settings for that algorithm: max_age, min_hits and iou_threshold for SORT; track_buffer and the three thresholds for ByteTrack; the four paths for BoTSORT |
| Dispatch.StartupExit | run.cpp:96-97 | the program exits, with status 1, if and only if the detector or the tracker is missing |
| Dispatch.UnknownAlgorithmExits | run.cpp:94-97 | with a detector, the program exits with status 1 if and only if the tracker name is not one of the three exact names |
| Dispatch.MissingDetectorExits | run.cpp:96-97 | without a detector the program exits with status 1 whatever the tracker |
| Utils.IndexOfFacts | app/src/utils.cpp:26 | getline stops at the first delimiter: the position found holds the delimiter when it is inside the string, and no delimiter comes before it |
| Utils.IndexOfAt | app/src/utils.cpp:26 | a position holding the delimiter (or the end) with no delimiter before it is where getline stops |
| Utils.FindFirstNotOfFacts | app/src/utils.cpp:28 | the position found holds a non-whitespace character when it is inside the string, and only whitespace comes before it; the length when there is none |
| Utils.FindLastNotOfFacts | app/src/utils.cpp:29 | the position found holds a non-whitespace character when it is not -1, and only whitespace comes after it; -1 (npos, so npos + 1 erases from 0) when there is none |
| Utils.SplitString | app/src/utils.cpp:22-35 | the getline loop with its two erases returns exactly Split(s, delimiter) |
| Utils.FieldsDelimited | app/src/utils.cpp:26 | a string with a delimiter reads the text before the first delimiter as its first field, and the text after it gives the remaining fields |
| Utils.SplitFrontDelimited | app/src/utils.cpp:26-32 | a field ended by a delimiter contributes its trim, unless that is empty, before the tokens of the text after the delimiter |
| Utils.SplitFrontLast | app/src/utils.cpp:26-32 | a non-empty text without a delimiter gives its trim as the only token, or no token when it is all whitespace |
| Utils.SplitFront | app/src/utils.cpp:26-32 | one getline step contributes the trimmed first field, unless it is empty, and the input after its delimiter is split on its own |
| Utils.TrimFacts | app/src/utils.cpp:28-29 | a trimmed field is a contiguous slice of it with only whitespace removed before and after, so interior whitespace is kept; it is empty if and only if the field is all whitespace, and otherwise neither starts nor ends with whitespace |
| Utils.TrimOfTrimmed | app/src/utils.cpp:28-29 | trimming a string that neither starts nor ends with whitespace leaves it unchanged |
| Utils.TokensFromFields | app/src/utils.cpp:26-32 | every token is non-empty and is the trim of some field; at most one token per field |
| Utils.FieldsExcludeDelimiter | app/src/utils.cpp:26 | no field read by getline contains the delimiter |
| Utils.FieldsCount | app/src/utils.cpp:26 | there is at most one field more than there are delimiters |
| Utils.FieldsCons | app/src/utils.cpp:26 | a delimiter-free prefix followed by the delimiter is the first field, and the rest is split on its own |
| Utils.SplitTokensNonEmpty | app/src/utils.cpp:30-32 | splitString never returns an empty token |
| Utils.TrimmedFieldIsToken | app/src/utils.cpp:28-31 | the non-empty trim of a delimiter-free field is non-empty, has no delimiter and neither starts nor ends with whitespace |
| Utils.SplitTokensShape | app/src/utils.cpp:26-32 | every token is non-empty, contains no delimiter, neither starts nor ends with space, tab, newline or carriage return, and is the trim of one field |
| Utils.SplitCount | app/src/utils.cpp:26-32 | tokens are at most the fields, and fields are at most the delimiters plus one |
| Utils.SplitEmpty | app/src/utils.cpp:24-26 | the empty string gives no tokens |
| Utils.SplitCons | app/src/utils.cpp:26-32 | tokens come in field order: the first field's trim, if non-empty, comes before every token of the rest |
| Utils.SplitJoin | app/src/utils.cpp:22-35 | splitting tokens joined by the delimiter gives the same tokens back |
| Utils.LastIndexOf | app/src/utils.cpp:38 | the last position holding the character, with none after it, or -1 when there is none |
| Utils.LastIndexOfAt | app/src/utils.cpp:38 | a position holding the character with none after it is the last one |
| Utils.FileName | app/src/utils.cpp:38 | the file name is the part after the last '/' and contains no '/' |
| Utils.StemExtension | app/src/utils.cpp:39-42 | a file name is its stem followed by its extension; an extension is a '.' with no other '.', after a non-empty stem; there is none if and only if the name is ".." or has no '.' after its first character |
| Utils.ProcessedName | app/src/utils.cpp:42 | stem + "_processed" + extension, for a stem and extension without '/', contains "_processed", has no directory, and decomposes back into that extension and stem + "_processed" |
| Utils.FixedNameFacts | app/src/utils.cpp:40 | the fixed name "output_processed.mp4" contains "_processed", has no '/' and is its own file name |
| Utils.ProcessedFileName | app/src/utils.cpp:42 | for a file name with an extension, stem + "_processed" + extension contains "_processed", has no '/', is its own file name, keeps the extension and has stem + "_processed" as its stem |
| Utils.OutputPathFacts | app/src/utils.cpp:37-43 | the result is never empty, contains "_processed" and has no directory; it is "output_processed.mp4" when the input's file name has no extension; otherwise its extension is the input's and its stem is the input's stem + "_processed" |
| Utils.OutputPathOfEmpty | app/src/utils.cpp:39-40 | the empty path has no extension and gives "output_processed.mp4" |
| Utils.BareName | app/src/utils.cpp:38-39 | "video" is its own file name and has no extension |
| Utils.OutputPathOfBareName | app/src/utils.cpp:39-40 | "video" gives "output_processed.mp4" |
| Utils.OutputPathLeadingPeriod | app/src/utils.cpp:39-40 | "dir/.hidden" and ".." have no extension and give "output_processed.mp4" |
| Utils.OutputPathDropsDirectories | app/src/utils.cpp:42 | "videos/clip.avi" gives "clip_processed.avi" |
| Utils.OutputPathLastExtension | app/src/utils.cpp:42 | "/data/b.tar.gz" gives "b.tar_processed.gz": only the last extension is split off |

## Left out

- The tracking engines: SORT's Kalman filter and Hungarian matching, BYTETracker, BoTSORT and ReID. Their code is not part of this model. Each engine's result is an arbitrary function of its constructor settings and its input history, supplied as a parameter. Nothing is assumed about prediction or assignment.
- Engine-internal state such as `m_frame_count` and `m_trackers` is implied by the received history and not modelled on its own.
- SortAdapter.Sort: the declaration of the engine the current SORT adapter uses is not part of this model. trackers/SORT/Sort.hpp:44 takes and returns `TrackingBox`es, which fits only the older adapter. So the interface of this engine is taken from its call sites, trackers/SortWrapper.cpp:4 and :23: three settings, `cv::Rect` boxes in, and tracks with an `id` and a float `bbox` out.
- Single-precision floats: `float` values (`0.3f`, the box coordinates) are exact reals. Rounding to float, and overflow in `static_cast<int>`, are not modelled.
- `int` coordinates are unbounded integers. Overflow of `x + width` in the older adapters is not modelled.
- Detection.hpp and TrackedObject.hpp are not part of this model. The field types of the current `Detection` and of `TrackedObject` are taken from how the adapters use them: integer `cv::Rect` bboxes, float scores and integer labels.
- `LegacyDetection`: the `x`, `y`, `width` and `height` fields the older adapters read are taken as integers. include/SortWrapper.hpp:45-48 and include/BoTSORTWrapper.hpp:67-70 only assign them, and their sums, into `float`s, so a float-typed field is equally consistent with the source. The model therefore does not cover fractional detection coordinates in the older adapters.
- `cv::Mat` frames are an opaque value that the adapters only forward. The default `cv::Mat()` of the older BoTSORT adapter is the empty frame.
- include/BoTSORTWrapper.hpp reads `config.reid_onnx_model_path`, but `TrackConfig` only declares `reid_onnx_path`. The model passes `reid_onnx_path`, the only onnx path `TrackConfig` has.
- `Dispatch.CreateTracker` builds the current adapters (trackers/*.cpp), not the older header-only ones. The name `SortWrapper` or `BoTSORTWrapper` alone would not decide this: include/BoTSORTWrapper.hpp:29 also takes a whole `TrackConfig`. Three things in the source show the current adapters are meant:
  - run.cpp:113 calls `tracker->update(detections, frame)` with two arguments;
  - run.cpp:119-120 reads `detection_result.bbox` and `.label`, which are the current `Detection` fields;
  - the older BoTSORT header reads `config.reid_onnx_model_path`, which `TrackConfig` does not declare.
- Dispatch.CreateTracker: the three adapters are returned as a tagged union, not through the `BaseTracker` virtual interface.
- The rest of run.cpp and of the application: command-line parsing, `readLabelNames`, detector and inference-engine setup, the video loop, drawing, the random colour table and `setupVideoWriter`. All of it is I/O or UI. Whether the detector was created enters `Dispatch.StartupExit` as a parameter.
- YoloV5 pre- and post-processing (OpenCV DNN, raw float buffers, NMS) is not part of this core.
- Declaration-only headers with no bodies (include/BaseTracker.hpp, Tracker.hpp, Trackers/Tracker.hpp, include/ByteTrackWrapper.hpp, app/inc/*.hpp) have nothing to model.
- Utils: paths use the POSIX generic format (only '/' separates directories). Windows separators and root names are not modelled. Strings are sequences of characters, with no encoding.
