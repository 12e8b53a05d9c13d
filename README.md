# Rend-o-matic render pipeline, modelled in Dafny

Rend-o-matic turns the separately recorded parts of a choir song into one
video. It is a chain of serverless actions, each triggered by an object
landing in storage:

- the **aligners** (`python/calculate_alignment.py` and the older
  `aligner/calculate_alignment.py`) estimate how far a rendition is shifted
  against the reference track. They turn onset or beat positions into a
  decaying "event map", score a fixed range of frame shifts by the mean
  squared error against a cyclically rolled copy, pick a shift and convert
  it to milliseconds;
- **`js/renderer.js`** builds the render definition of a song from its parts:
  aspect ratios, hidden parts, a deterministic order by reversed id, the
  layout and a stereo pan per part;
- the **compositor mains** (`python/renderer_compositor_main.py`,
  `js/renderer_compositor_main.js`) collect the rows of a definition, hash
  the row set and start one **compositor child**
  (`python/renderer_compositor_child.py`) per row. The child plans that
  row's strip of the picture: bounding box, padding, audio volume and the
  `x_y|x_y` stacking layout;
- **`python/renderer_final.py`** checks from the rows hash that every row is
  rendered, then stacks the rows' video and mixes their audio;
- **`python/post_production.py`** reads the loudness statistics from a
  first ffmpeg pass and plans the second pass, with reverb and watermark;
- the **engine** steps (`python/renderer_engine_video_ensure_scaled.py`,
  `python/renderer_engine_composite.py`) are a one-pass alternative. They
  ask for one scaled video per input, then composite the scaled videos when
  all of them exist;
- **`aligner/pass_to_sticher.py`** picks the videos to stitch;
- **`signed_urls.py`** presigns object URLs with AWS Signature Version 4.

There is one Dafny module per source file. A few modules hold what several
files share:

- `Wrappers`: `Option`, `Result` and the Python exceptions;
- `Strings`: `split`, `join`, integer text, `Path.stem`, `strip` and the
  regular-expression anchors;
- `Sorting`: `sorted`, `list.sort(key=...)` and `Array.prototype.sort`;
- `Decay` and `ErrorScan`: the event map and `measure_error` of both aligners;
- `Definition`: the render definition and its layout strings;
- `RowsHash`: `calc_hash_rows`;
- `Batching`: `batch`;
- `Actions`: the `args` dictionary every action receives.

Code that updates state step by step is modelled as methods with loops:
- the decay passes over an `array<real>`;
- the compositor child's row accumulation;
- the loudnorm line scan;
- the part partition in `renderer.js`;
- the calls made by the fan-outs.

The `args` dictionary is a class whose methods change its `fields`. The
rest is modelled as functions with lemmas.

The following are parameters rather than computations: audio analysis
results, storage listings, service responses, the current time, the
SHA-1, SHA-256 and HMAC functions, uuid values and the box-layout library.

## Model

| member | source | states |
|---|---|---|
| Alignment.Pulses | python/calculate_alignment.py:144-145 | the zeroed array with 1 put at every beat (a negative beat counts from the end) and 0 everywhere else |
| Alignment.ProcessSignal | python/calculate_alignment.py:144-152 | succeeds exactly when every beat is a valid `np.put` index, and then returns both decay passes applied to the pulse train |
| Alignment.PulsesInUnit | python/calculate_alignment.py:144-145 | the pulse train lies in [0, 1] |
| Alignment.ProcessSignalShape | python/calculate_alignment.py:144-150 | the processed series lies in [0, 1], never falls below the pulse train, holds exactly 1 at every beat, keeps entry 0 as put, and decays by at most 0.9 per frame forwards (from index 1) and backwards (for 1 <= i <= n-2) |
| Alignment.Errors | python/calculate_alignment.py:158-159 | 50 errors, entry i being the error of the rendition rolled back by i frames |
| Alignment.FirstLocalMin | python/calculate_alignment.py:160 | the first strict interior local minimum at or after a start index, or none when there is none |
| Alignment.FindOffset | python/calculate_alignment.py:156-166 | fails exactly when the prefix is empty or there is no strict interior minimum; otherwise the frames lie in 0..48, the error is the error at those frames and never exceeds error0; a non-zero result is the first strict minimum with error below error0, and a zero result means error0 is at most the first minimum's error |
| Alignment.FrameMs | python/calculate_alignment.py:109 | the truncated milliseconds: ms·44100 <= frames·512·1000 < (ms+1)·44100 |
| Alignment.FrameMsBound | python/calculate_alignment.py:109-116 | with at most 48 frames the offset is at most 557 ms, so the 700 ms fallback never fires |
| Alignment.ParseRenditionKey | python/calculate_alignment.py:31-35 | a parsed key has no '+' in its choir and song ids and no '.' in its part id, and prints back to the key (or to the key less a final newline) |
| Alignment.RenditionKeyRoundTrip | python/calculate_alignment.py:31-35 | a key built from ids without those separators parses back to the same ids |
| Alignment.DefaultReferenceKey | python/calculate_alignment.py:39 | the default reference key is a rendition key with part id `reference` and the rendition's extension, and parses back to those ids when the choir and song ids hold no '+' and no id holds a newline |
| Alignment.NutKey | python/calculate_alignment.py:56 | a backing part's key is a rendition key with extension `nut`, and parses back to the part's ids when they hold no separator and no newline |
| Alignment.Reached | python/calculate_alignment.py:54-57 | how many part records are read before one raises: all of those are readable and the next one raises |
| Alignment.LastBacking | python/calculate_alignment.py:54-56 | the key is the default with no backing part among the records, or the `.nut` key of a backing part after which no backing part follows |
| Alignment.ReferenceKeyOf | python/calculate_alignment.py:39-58 | with no parts the default reference key; otherwise the default with no backing part among the records read, or the `.nut` key of the last backing part read |
| Alignment.LookUpReference | python/calculate_alignment.py:39-58 | the loop settles on `ReferenceKeyOf`: with no parts the default reference key, otherwise the default with no backing part among the records read, or the `.nut` key of the last backing part read |
| Alignment.ReferenceByPartId | python/calculate_alignment.py:39-61 | a rendition key equals its default reference key exactly when its part id is `reference` |
| Alignment.AlignMain | python/calculate_alignment.py:21-125 | it fails exactly when the key is missing or does not parse, or, for a rendition other than the reference, when a beat lies outside its envelope or both tempi are positive and no offset can be estimated; the reference key is `ReferenceKeyOf` the default key; the offset lies in 0..557; the reference part returns offset 0 and err 0 with args unchanged; otherwise both keys are recorded in args, a missing tempo gives offset 0 and err 0, and else the offset is the truncated milliseconds of the estimate |
| LegacyAlignment.Threshold | aligner/calculate_alignment.py:22 | each entry is 1.0 exactly when the z-score exceeds 2 and 0.0 exactly when it does not |
| LegacyAlignment.ProcessSignal | aligner/calculate_alignment.py:18-33 | the result is both decay passes applied to the thresholded series |
| LegacyAlignment.ProcessSignalShape | aligner/calculate_alignment.py:22-31 | the processed series has the input's length, lies in [0, 1], holds 1 wherever the z-score exceeds 2, keeps entry 0 and decays by at most 0.9 per frame in both directions |
| LegacyAlignment.Errors | aligner/calculate_alignment.py:38-39 | 200 errors, entry i being the error at shift -100 + i |
| LegacyAlignment.Least | aligner/calculate_alignment.py:41 | the least (error, index) pair in tuple order: no entry is smaller, and every earlier entry is strictly larger |
| LegacyAlignment.LeastAtFirstZero | aligner/calculate_alignment.py:41 | in a table of non-negative errors the least pair is at the first zero |
| LegacyAlignment.FindOffset | aligner/calculate_alignment.py:37-43 | an empty prefix gives (100, NaN); otherwise the result lies in -99..100, its error is the error at the negated shift, no shift in -100..99 has a smaller error, and every smaller shift has a strictly larger one |
| LegacyAlignment.FindOffsetExact | aligner/calculate_alignment.py:37-53 | a copy delayed by d frames (0..99) with no earlier perfect match is found at offset d with error 0 |
| LegacyAlignment.OffsetMs | aligner/calculate_alignment.py:126 | the untruncated milliseconds: ms·44100 = frames·512·1000 |
| LegacyAlignment.ParseConvertedKey | aligner/calculate_alignment.py:64-68 | a parsed key has no '+' in its choir id and prints back to the key (or to the key less a final newline) |
| LegacyAlignment.ConvertedFound | aligner/calculate_alignment.py:64 | after a part id without '+', the first `+converted.` starts right at the end of the part id |
| LegacyAlignment.ConvertedKeyRoundTrip | aligner/calculate_alignment.py:64-70 | a `converted` key built from ids without '+' parses back to the same ids |
| LegacyAlignment.ReferenceKey | aligner/calculate_alignment.py:71 | the reference key is a `converted` key with part id `reference` in the rendition's format, and parses back to those ids when the choir id holds no '+' and no newline |
| LegacyAlignment.ManualMain | aligner/calculate_alignment.py:80-129 | succeeds exactly when both keys are in args; then `offset` and `err` are set from the estimate of the two processed series and nothing else changes |
| LegacyAlignment.AlignMain | aligner/calculate_alignment.py:56-78 | succeeds exactly when the key is present, is a string and parses; a missing key raises KeyError, a non-string key TypeError and an unparsable key `ValueError("Could not parse key: …")`, each with args unchanged; on success both keys are recorded, and the reference part gets offset 0 and err 0 while any other part gets the estimate |
| Decay.Forward | python/calculate_alignment.py:146-147 | the forward pass keeps the length and entry i is the forward decay value at i |
| Decay.Backward | python/calculate_alignment.py:149-150 | the backward pass keeps the length, leaves entry 0 alone, and entry i (i >= 1) is the backward decay value at i |
| Decay.DecayForward | python/calculate_alignment.py:146-147 | the in-place loop leaves the array equal to the forward pass of its old contents |
| Decay.DecayBackward | python/calculate_alignment.py:149-150 | the in-place loop leaves the array equal to the backward pass of its old contents |
| Decay.ForwardAtBounds | python/calculate_alignment.py:146-147 | one forward entry never falls below the input and stays at most 1 |
| Decay.BackwardAtBounds | python/calculate_alignment.py:149-150 | one backward entry never falls below the input and stays at most 1 |
| Decay.ForwardShape | python/calculate_alignment.py:146-147 | the forward pass never lowers an entry and keeps [0, 1] |
| Decay.BackwardShape | python/calculate_alignment.py:149-150 | the backward pass never lowers an entry and keeps [0, 1] |
| Decay.DecayStep | python/calculate_alignment.py:146-150 | a backward update keeps the forward decay bound between two neighbours |
| Decay.EventMapForwardDecay | python/calculate_alignment.py:146-150 | after both passes entry i is at least 0.9 times entry i-1 |
| Decay.EventMapShape | python/calculate_alignment.py:146-150 | both passes never lower an entry, keep [0, 1], keep every 1, keep entry 0, and bound the decay by 0.9 in both directions |
| Decay.EventMap | python/calculate_alignment.py:144-150 | the event map has the length of the pulse train and keeps its first entry, since the backward loop stops at index 1 |
| ErrorScan.RollCompose | python/calculate_alignment.py:174 | rolling by a then by b is rolling by a + b |
| ErrorScan.RollZero | python/calculate_alignment.py:174 | rolling by zero changes nothing |
| ErrorScan.RollInverse | python/calculate_alignment.py:174 | rolling back by the same amount restores the series |
| ErrorScan.RollPeriodic | python/calculate_alignment.py:174 | rolling by the length is no roll |
| ErrorScan.RollMoves | python/calculate_alignment.py:174 | `np.roll` by k moves entry i to position (i + k) mod n |
| ErrorScan.Diff | python/calculate_alignment.py:174 | the element-wise difference of two equal-length series |
| ErrorScan.SumSqNonNegative | python/calculate_alignment.py:175 | a sum of squares is never negative |
| ErrorScan.SumSqZero | python/calculate_alignment.py:175 | a sum of squares is zero exactly when every term is zero |
| ErrorScan.MeasureErrorNonNegative | python/calculate_alignment.py:170-176 | the error is never negative |
| ErrorScan.MeasureErrorZero | python/calculate_alignment.py:170-176 | the error is zero exactly when the rolled prefix of the rendition equals the prefix of the reference |
| ErrorScan.MeasureErrorPrefix | python/calculate_alignment.py:171-174 | only the common prefix is compared |
| ErrorScan.MeasureErrorPeriodic | python/calculate_alignment.py:174 | shifting by the prefix length gives the same error |
| ErrorScan.MeasureErrorShiftZero | python/calculate_alignment.py:157-175 | shift 0 is the mean squared difference of the unshifted prefixes |
| Batching.Chunks | python/renderer_engine_composite.py:217-220 | the slices of a positive step are empty exactly when the input is |
| Batching.Batch | python/renderer_engine_composite.py:217-220 | a zero step raises (range's ValueError), a negative step yields no slices, and a positive step yields the consecutive slices `Chunks`, whose concatenation, count and sizes the lemmas below state |
| Batching.ChunksConcat | python/renderer_engine_composite.py:217-220 | the slices put back together give the input |
| Batching.ChunkCount | python/renderer_engine_composite.py:217-220 | there are ceil(len / n) slices |
| Batching.ChunkSizes | python/renderer_engine_video_ensure_scaled.py:171-174 | every slice but the last has length n, and the last has between 1 and n |
| CompositorChild.ParseDefinitionKey | python/renderer_compositor_child.py:26 | succeeds exactly when the stem has two '+', and then gives three ids without '+' that join back to the stem |
| CompositorChild.DefinitionKeyRoundTrip | python/renderer_compositor_child.py:26 | a definition key built from plain ids parses back to those ids |
| CompositorChild.CollectRows | python/renderer_compositor_child.py:55-59 | the loop's rows are the sorted, duplicate-free row set of the specs (a positionless spec counting as row -1) |
| CompositorChild.SpecsForRow | python/renderer_compositor_child.py:217-221 | never longer than the specs |
| CompositorChild.SpecsForRowMembers | python/renderer_compositor_child.py:217-221 | a spec is yielded exactly when it is one of the specs and lies in the row |
| CompositorChild.SpecsForRowNonEmpty | python/renderer_compositor_child.py:217-221 | a row has specs exactly when it is in the row set |
| CompositorChild.MaxOfIsMax | python/renderer_compositor_child.py:90-94 | the maximum bounds every length and is one of them, or 0 for none |
| CompositorChild.RowLens | python/renderer_compositor_child.py:92 | entry i is the length of spec i's row |
| CompositorChild.MaxOverRows | python/renderer_compositor_child.py:90-94 | a bound reached by the lengths of the rows, each listed once, is the largest row length |
| CompositorChild.MaxRowLength | python/renderer_compositor_child.py:90-94 | the loop finds the largest number of specs sharing a row |
| CompositorChild.RowWithinMax | python/renderer_compositor_child.py:148 | a non-empty row's length is positive and at most the largest row length |
| CompositorChild.BoundingBox | python/renderer_compositor_child.py:224-237 | the box is (+inf, -inf) exactly when no spec is positioned; otherwise top is the least y and bottom the greatest y + height over the positioned specs, both attained |
| CompositorChild.CalcBoundingBox | python/renderer_compositor_child.py:224-237 | the loop ends with the top and bottom the bounding box defines |
| CompositorChild.RowBoxFinite | python/renderer_compositor_child.py:100-101 | a row with a positioned spec has finite boxes, and so do all specs |
| CompositorChild.RowFits | python/renderer_compositor_child.py:104-117 | the row's parts drawn from row_y leave at least the margin free at the bottom of the padded strip |
| CompositorChild.SingleRowGeometry | python/renderer_compositor_child.py:104-117 | a row that is both first and last is padded to the output height plus the margin, drawn from its top |
| CompositorChild.TwoRowsStack | python/renderer_compositor_child.py:104-117 | a first and a last row that meet stack to the output height plus two margins |
| CompositorChild.TrimOf | python/renderer_compositor_child.py:246-259 | a trim is applied exactly when the offset in seconds is positive, and it is the offset divided by 1000 |
| CompositorChild.ProcessSpec | python/renderer_compositor_child.py:240-276 | video and audio are trimmed alike, exactly for a positive offset; volume defaults to 1 and pan to 0 exactly where the spec leaves them out |
| CompositorChild.VideosOf | python/renderer_compositor_child.py:125-136 | one video input per spec, in order |
| CompositorChild.AudiosOf | python/renderer_compositor_child.py:125-137 | one audio input per spec, in order |
| CompositorChild.PointsOf | python/renderer_compositor_child.py:127-138 | one point per spec |
| CompositorChild.Pad | python/renderer_compositor_child.py:104-117 | the padding statements give the row geometry of the two boxes |
| CompositorChild.RowInputs | python/renderer_compositor_child.py:120-138 | the corrected loop: its lists are the row's audio inputs and the positioned specs' video inputs and points, so a positionless spec contributes audio only (see Findings) |
| CompositorChild.PositionedSnoc | python/renderer_compositor_child.py:125-138 | extending the row by one spec extends the positioned specs by it exactly when it has a position |
| CompositorChild.AudiosSnoc | python/renderer_compositor_child.py:137 | appending a spec appends its audio input |
| CompositorChild.VideosSnoc | python/renderer_compositor_child.py:136 | appending a spec appends its video input |
| CompositorChild.PointsSnoc | python/renderer_compositor_child.py:138 | appending a positioned spec appends its point |
| CompositorChild.StackRow | python/renderer_compositor_child.py:154-174 | the video branch builds the row's video mix: one input padded at its point, or several stacked by the layout |
| CompositorChild.Composite | python/renderer_compositor_child.py:22-177 | a bad definition key raises its error; otherwise the result is the plan of the requested row, built by the corrected loop |
| CompositorChild.RowPlanNoParts | python/renderer_compositor_child.py:176-177 | the row has no parts to process exactly when no spec lies in it |
| CompositorChild.RowPlanAudio | python/renderer_compositor_child.py:141-152 | a rendered row mixes the audio of all its specs at a volume in (0, 1], which is 1 exactly for a longest row |
| CompositorChild.RatioInUnit | python/renderer_compositor_child.py:148 | the volume ratio of a non-empty row lies in (0, 1] and is 1 exactly for equal counts |
| CompositorChild.RowPlanVideo | python/renderer_compositor_child.py:154-174 | a rendered row has video exactly when a spec of it is positioned; one video is padded at its point, several are stacked by a layout whose pipe-separated pieces are the points |
| CompositorChild.HiddenRowAudioOnly | python/renderer_compositor_child.py:141-177 | a row of positionless specs is rendered with audio for every spec and no video |
| CompositorChild.RowInputsAsWritten | python/renderer_compositor_child.py:125-138 | the loop as written raises KeyError('position') exactly when a spec of the row has no position |
| CompositorChild.RowInputsAgree | python/renderer_compositor_child.py:125-138 | when every spec of the row is positioned, the loop as written gives the same inputs as the model |
| CompositorChild.InputsCons | python/renderer_compositor_child.py:125-137 | a row's inputs are its first spec's followed by the rest's |
| CompositorChild.AllPositioned | python/renderer_compositor_child.py:127 | a row whose specs all have positions keeps every spec |
| CompositorMain.CollectRows | python/renderer_compositor_main.py:48-53 | raises KeyError('position') exactly when some spec has no position; otherwise the rows are the distinct y values, strictly ascending |
| CompositorMain.CallsFor | python/renderer_compositor_main.py:61-85 | one call per row, in row order, each with that row and the shared run id, rows hash, `combined` compositor and definition key |
| CompositorMain.Spawn | python/renderer_compositor_main.py:47-75 | fails exactly when a spec has no position; otherwise the run id is the uuid's first 8 characters and the calls are one per sorted row, carrying the hash of those rows |
| CompositorMain.OneCallPerRow | python/renderer_compositor_main.py:61-63 | every call is for a row of the definition, every row gets a call, and no row gets two |
| CompositorMainJs.DistinctRows | js/renderer_compositor_main.js:29-35 | the rows array is duplicate-free and holds exactly the row set (a positionless spec counting as row -1) |
| CompositorMainJs.SortedRows | js/renderer_compositor_main.js:29-36 | after the numeric sort the rows are the row set in strictly ascending order |
| CompositorMainJs.SpawnJs | js/renderer_compositor_main.js:28-66 | one invocation per sorted row with the shared run id, hash and key, and the activation ids in the same order as the invocations |
| CompositorMainJs.SameRowsAndHash | js/renderer_compositor_main.js:35-42 | for the same specs the JS and Python mains compute the same rows and the same rows hash |
| CompositorMainJs.PositionlessRowAsWritten | js/renderer_compositor_main.js:32-33 | a positionless spec puts row -1 in the set, and the child's loop as written raises KeyError for that row |
| CompositorMainJs.PositionlessRowCorrected | js/renderer_compositor_main.js:32-33 | with the corrected child, row -1 is rendered with the positionless spec's audio and without its video |
| RowsHash.Texts | python/renderer_compositor_main.py:99 | `str` of each row, in order |
| RowsHash.Prefix8 | python/renderer_compositor_main.py:101 | the first eight characters, or all of a shorter text |
| RowsHash.RowsTextPermutation | python/renderer_compositor_main.py:98-100 | the hashed text does not depend on the order of the rows |
| RowsHash.CalcHashRowsPermutation | python/renderer_compositor_main.py:98-101 | the rows hash does not depend on the order of the rows |
| RowsHash.CalcHashRows | python/renderer_compositor_main.py:98-101 | the rows hash is the first eight characters of the SHA-1 hex digest of the rows text, all of it when the digest is shorter |
| RowsHash.RowsTextSorted | python/renderer_compositor_main.py:99 | for ascending rows the text is the rows joined by '-' |
| Definition.DefinitionKeyInjective | python/post_production.py:35 | the definition key `{choir_id}+{song_id}+{def_id}.json` of plain ids determines the ids: two definitions share a key exactly when they are the same |
| Definition.Coords | python/renderer_compositor_child.py:165 | one `x_y` text per point, in order |
| Definition.CoordsSnoc | python/renderer_compositor_child.py:165 | appending a point appends its text |
| Definition.CoordRoundTrip | python/renderer_compositor_child.py:165 | a coordinate text holds no pipe character, splits at its '_' into the two numbers, and each parses back |
| Definition.LayoutEntries | python/renderer_compositor_child.py:165 | splitting the layout at the pipe character gives back one entry per point |
| Definition.Positioned | python/renderer_compositor_child.py:228-229 | never longer than the specs |
| Definition.PositionedMembers | python/renderer_compositor_child.py:228-229 | keeps exactly the specs that have a position |
| Definition.IdsTextShape | python/renderer_compositor_child.py:26 | the ids text of plain ids has no '/' and splits at '+' into the three ids |
| EngineComposite.ScaledPartKeyJoined | python/renderer_engine_composite.py:67 | the scaled part key is the three '+'-joined fields with the `.mkv` extension |
| EngineComposite.NonNegativeText | python/renderer_engine_composite.py:67 | a non-negative width or height is written with digits only |
| EngineComposite.ScaledPartKeyFields | python/renderer_engine_composite.py:67 | the key's stem splits at '+' into the choir id, the song id and a field that splits at '-' into the part id, the width and the height |
| EngineComposite.StemFields | python/renderer_engine_composite.py:67 | the stem of a three-field `.mkv` key splits back into its fields |
| EngineComposite.PartFieldSplit | python/renderer_engine_composite.py:67 | the part field holds no '+' or '/' and splits at '-' into the part id and the two numbers |
| EngineComposite.ScaledPartKeyInjective | python/renderer_engine_composite.py:67 | distinct parts or sizes need distinct scaled videos |
| EngineComposite.RequiredKeys | python/renderer_engine_composite.py:62-68 | raises KeyError('position') exactly when an input has no position; otherwise the set holds one key per input |
| EngineComposite.RequiredPrefixStep | python/renderer_engine_composite.py:62-68 | one more input adds exactly its own key to the set |
| EngineComposite.Points | python/renderer_engine_composite.py:100-106 | each input's position, in order |
| EngineComposite.Stacking | python/renderer_engine_composite.py:96-106 | one scaled video key per input, in input order, and the layouts are the `x_y` texts of the positions |
| EngineComposite.ListOf | python/renderer_engine_composite.py:81 | the list holds each element of the set exactly once |
| EngineComposite.CompositeMain | python/renderer_engine_composite.py:44-125 | a positionless input raises with args unchanged; missing parts exactly when a required key is not stored, recording `missing parts` and exactly the missing keys; otherwise every video key is stored, the layout is the positions joined by the pipe character, and args gain the `final.m2v` key and `merged` |
| EngineScaled.ScaledKeyIsRequired | python/renderer_engine_video_ensure_scaled.py:71-82 | the scaled key of a part's video is the key the compositing engine requires for that part and size |
| EngineScaled.CallScalerCases | python/renderer_engine_video_ensure_scaled.py:81-105 | no request exactly when the scaled key is stored; otherwise exactly one request for the key and size; a result is always the scaled key, and there is none exactly when the key was not stored and the scaler did not answer 200 |
| EngineScaled.CallScaler | python/renderer_engine_video_ensure_scaled.py:81-105 | at most one request goes out, and the only key ever given back is the scaled key `{stem}-{width}-{height}.mkv` |
| EngineScaled.KeysValue | python/renderer_engine_video_ensure_scaled.py:76-77 | one JSON string or null per input, in order |
| EngineScaled.Results | python/renderer_engine_video_ensure_scaled.py:68-76 | one result per input |
| EngineScaled.PendingRequests | python/renderer_engine_video_ensure_scaled.py:68-76 | never more requests than inputs |
| EngineScaled.InputRequests | python/renderer_engine_video_ensure_scaled.py:81-101 | an input's call sends its request exactly when its scaled key is not stored |
| EngineScaled.ScaleStep | python/renderer_engine_video_ensure_scaled.py:68-76 | one more input appends its result and its requests |
| EngineScaled.ScaleAll | python/renderer_engine_video_ensure_scaled.py:66-76 | the loop gathers the results in input order and sends the requests of the pending inputs |
| EngineScaled.EnsureScaledMain | python/renderer_engine_video_ensure_scaled.py:50-79 | `scaled_keys` is set to the results, one per input in input order, and nothing else in args changes |
| EngineScaled.ResultsAt | python/renderer_engine_video_ensure_scaled.py:76 | result i is input i's own answer |
| EngineScaled.PendingRequestSource | python/renderer_engine_video_ensure_scaled.py:81-101 | every request sent is the request of some input whose scaled key is not already stored |
| EngineScaled.PendingRequestSent | python/renderer_engine_video_ensure_scaled.py:81-101 | the request of every input whose scaled key is not stored is sent |
| EngineScaled.PendingRequestsMembers | python/renderer_engine_video_ensure_scaled.py:81-101 | a request is sent exactly when it is the request of an input whose scaled key is not stored |
| EngineScaled.AllStoredNoRequests | python/renderer_engine_video_ensure_scaled.py:84-86 | with every scaled video stored no request goes out |
| EngineScaled.ScaledMeetsComposite | python/renderer_engine_video_ensure_scaled.py:82 | every key the scaler step returns is the key the compositing step requires for that input |
| PostProduction.ParsePreprodKey | python/post_production.py:24-27 | succeeds exactly when the stem's text before its first '-' has two '+'; the three ids then join back to that text, which starts the stem |
| PostProduction.PreprodKeyStem | python/renderer_final.py:151 | the stem of the merged render's key is the ids text followed by `-preprod` |
| PostProduction.PreprodSuffix | python/renderer_final.py:151 | the `-preprod.nut` suffix is a `-preprod` stem with the `nut` extension, and neither holds a '/' |
| PostProduction.PreprodStemHead | python/post_production.py:27 | the ids text is the part of that stem before its first '-' |
| PostProduction.DashSuffix | python/renderer_final.py:151 | the `-preprod` suffix starts with the '-' the parse splits at |
| PostProduction.PreprodKeyRoundTrip | python/post_production.py:27 | parsing the merged render's key gives back its three ids when they hold no '-', '+' or '/' |
| PostProduction.OutputLines | python/post_production.py:115 | one stripped line per '\n'-separated piece of the output |
| PostProduction.LoudnormBlock | python/post_production.py:117-129 | raises the `no loudnorm-related output` exception exactly when no closing line follows a marker; otherwise the block starts after the last marker before the first closing line that follows a marker, and ends with that closing line |
| PostProduction.MarkerNotClose | python/post_production.py:121-124 | a marker line is not a closing line |
| PostProduction.MarkedStep | python/post_production.py:120-123 | a marker has been seen before index + 1 exactly when one was before index or the line at index is one |
| PostProduction.BlockUnique | python/post_production.py:117-129 | the scan's block is the only one with its properties |
| PostProduction.BlockOrNone | python/post_production.py:128-129 | a block and the exception exclude each other |
| PostProduction.BlockShape | python/post_production.py:132 | the extracted lines are non-empty, end with the closing line and hold no marker |
| PostProduction.JsonErrorMessageAsWrittenLosesCause | python/post_production.py:134 | two different decoding failures give the same message as written, and different messages as intended |
| PostProduction.JsonErrorMessage | python/post_production.py:134 | the intended message starts with the prefix and ends with the cause |
| PostProduction.JsonErrorMessageKeepsCause | python/post_production.py:134 | different causes give different intended messages |
| PostProduction.StatField | python/post_production.py:138-142 | reading one statistic succeeds only on an object holding the entry, with the value `float` gives; a missing entry raises a KeyError naming it, and a decoded value that is not an object a TypeError |
| PostProduction.ReadFields | python/post_production.py:138-142 | reads in order succeed exactly when every read does, giving each value at its own position; otherwise the error is that of the first failing read, all reads before it having succeeded |
| PostProduction.ReadStats | python/post_production.py:138-142 | the five reads succeed exactly when every one of them does, with the statistics in that order; otherwise the raised error is that of the first read that fails |
| PostProduction.Stats | python/post_production.py:131-142 | a block that does not decode raises the loudnorm message naming the decoder's error (the intended message); a decoded block gives exactly the five reads' outcome, so a failed read raises its own exception unwrapped; success means it decodes and every read succeeds |
| PostProduction.MissingFieldIsKeyError | python/post_production.py:138-139 | a block that decodes to an object without `input_i` raises the KeyError of the read, not the decoding message |
| PostProduction.ReverbOf | python/post_production.py:163-178 | reverb is mixed in exactly when a non-empty reverb type is set and the fraction (default 0.1) is positive; the impulse is `{reverb_type}.wav` and the fraction is the one given |
| PostProduction.ReverbDefault | python/post_production.py:166-178 | without a fraction the default 0.1 applies, and the two weights sum to 1 |
| PostProduction.WatermarkOf | python/post_production.py:88-95 | a watermark is overlaid exactly when a non-empty file name is set |
| PostProduction.PostProductionMain | python/post_production.py:17-214 | a missing or unparsable key raises; no block raises the loudnorm exception; with a parsable key and the block, the step succeeds exactly when the statistics read from that block do, and otherwise raises their error; on success the definition key is `{ids}.json`, the output key `{ids}-final.mp4`, the padding is the output size, and the watermark, reverb and statistics are those defined above |
| RendererFinal.ParseRowKey | python/renderer_final.py:190-193 | succeeds exactly when the key's stem splits at '+' into five fields, the fifth splits at '@' into two, and the first of those is an integer |
| RendererFinal.ParseRowKeySound | python/renderer_final.py:190-193 | a parsed key's stem is its four ids and `row@hash` joined with '+', no field holding a '+' and the row text reading back as the row number |
| RendererFinal.OutputKeyStem | python/renderer_final.py:191 | the stem of a row child's output key is its five fields joined with '+', and those split back into the same five fields |
| RendererFinal.RowKeyFieldsPlain | python/renderer_final.py:191 | the five fields of a row key are all free of '+' and '/' when the ids and rows hash are |
| RendererFinal.PlainFieldsJoin | python/renderer_final.py:191 | plain fields joined with '+' hold no '/' and split at '+' into the same fields |
| RendererFinal.RowSectionSplit | python/renderer_final.py:192 | the last field splits at '@' into the row number's text and the rows hash |
| RendererFinal.OutputKeyRoundTrip | python/renderer_final.py:190-193 | `parse_key` recovers the ids, run, row and rows hash from every key a row child writes |
| RendererFinal.CalcHashOfKeys | python/renderer_final.py:195-197 | succeeds exactly when every key parses, and then gives the rows hash of their row numbers; otherwise raises the error of the first key that does not parse |
| RendererFinal.FirstUnparsed | python/renderer_final.py:196 | the first key, in list order, that `parse_key` rejects: every key before it parses |
| RendererFinal.CalcHashOfKeysPermutation | python/renderer_final.py:195-202 | whether the completeness check raises does not depend on the order of the keys, and when every key parses the hash does not either |
| RendererFinal.RunKeys | python/renderer_final.py:35-41 | one key per row of the run |
| RendererFinal.CompleteRunPasses | python/renderer_final.py:44-49 | when the listing holds exactly the run's row keys, in any order, their hash matches the hash carried in the trigger key |
| RendererFinal.SizedKeys | python/renderer_final.py:40-41 | a key is kept exactly when some listed object with that key has a positive size |
| RendererFinal.RowParts | python/renderer_final.py:117-135 | the loop stacks the video of every row but -1, in order, and mixes the audio of every row |
| RendererFinal.Process | python/renderer_final.py:117-186 | no row keys fails; otherwise the merged output is `-preprod.nut` under the three ids, with every row's audio, a vstack of the video rows when there are several and the single row's video unless it is row -1 |
| RendererFinal.FinalMain | python/renderer_final.py:26-52 | it fails exactly when the key or a listed key does not parse (raising the key's own error, or else that of the first listed key that does not parse, as the sort key raises it), or when the hash matches but no sized object is listed; `missing rows` exactly when the listed keys' hash differs from the key's; when the hash matches and objects are listed, the outcome is the merge of the sized keys sorted by row number, with the stacked or single video and all keys' audio |
| RendererFinal.RowMinusOneAudioOnly | python/renderer_final.py:127-129 | row -1 gives audio only; every other row's key is among the video parts |
| RendererFinal.VideoKeysSorted | python/renderer_final.py:44 | the video parts keep the sorted order of the row keys |
| RendererJs.Reverse | js/renderer.js:6-8 | the reversed string has the same length |
| RendererJs.ReverseAt | js/renderer.js:6-8 | character i of the reversed string is character `n-1-i` of the original |
| RendererJs.ReverseInvolution | js/renderer.js:6-8 | reversing twice gives the string back |
| RendererJs.ReversedIdOrder | js/renderer.js:96-104 | the comparator answers 0 exactly for equal ids, and it orders any two ids one way or the other |
| RendererJs.TrimStart | js/renderer.js:77-78 | `parseInt` drops exactly the leading run of JavaScript white space |
| RendererJs.DigitRun | js/renderer.js:77-78 | the digits `parseInt` reads are the longest prefix of digits of the radix |
| RendererJs.DecimalText | js/renderer.js:77-78 | a run of decimal digits reads as its decimal value |
| RendererJs.JsParseInt | js/renderer.js:77-78 | `parseInt` gives NaN or a whole number |
| RendererJs.ParseTrimmed | js/renderer.js:77-78 | the signed value of the trimmed text is NaN or a whole number |
| RendererJs.NegativeDecimalText | js/renderer.js:77-78 | a minus sign before decimal digits negates their value |
| RendererJs.ParseIntOfDecimal | js/renderer.js:77-78 | `parseInt` reads back any integer written in decimal |
| RendererJs.DefaultAspectSplit | js/renderer.js:73-76 | the default aspect ratio `640:480` splits at ':' into `640` and `480` |
| RendererJs.ParseRoundThreeDigits | js/renderer.js:77-78 | a three-digit text ending in 0 reads as its value |
| RendererJs.DefaultAspectSides | js/renderer.js:73-78 | the two sides of the default aspect ratio read as 640 and 480 |
| RendererJs.IdsOf | js/renderer.js:12-25 | ids are found only when both are non-empty; with a key they are its first two '+' fields, without one they are the choir and song parameters |
| RendererJs.IdsOfDefinitionKey | js/renderer.js:12-17 | a definition key with plain non-empty ids yields its choir and song ids |
| RendererJs.OrInt | js/renderer.js:28-29 | a number parameter that is present and non-zero is used, otherwise the default |
| RendererJs.OrReal | js/renderer.js:30 | the reverb is the parameter when present and non-zero, otherwise the default |
| RendererJs.OrText | js/renderer.js:31 | a text parameter that is present and non-empty is used, otherwise the default |
| RendererJs.FlagAsWrittenIgnoresFalse | js/renderer.js:32 | the written default for `panning` gives true even for an explicit false |
| RendererJs.Flag | js/renderer.js:32 | the intended flag: the parameter when given, true when absent |
| RendererJs.FlagReadings | js/renderer.js:35 | the written and the intended flag differ exactly on an explicit false |
| RendererJs.SettingsOf | js/renderer.js:28-33 | the output settings are never zero or empty, and panning follows the intended flag |
| RendererJs.AspectOf | js/renderer.js:73-75 | a part's aspect ratio is never empty: a missing one becomes `640:480` |
| RendererJs.DefaultRect | js/renderer.js:73-83 | a part without an aspect ratio gets a 640 by 480 rectangle |
| RendererJs.RectOf | js/renderer.js:73-83 | the rectangle keeps the part's id, and an aspect ratio without ':' gives a NaN height, as `parseInt(undefined)` does |
| RendererJs.Partition | js/renderer.js:69-92 | the loop puts each shown part's rectangle in `rectangles` and each hidden part's in `hiddenParts`, both in part order |
| RendererJs.PartitionComplete | js/renderer.js:87-91 | every part lands in exactly one of the two lists |
| RendererJs.SortRectangles | js/renderer.js:96-104 | the sorted rectangles are ordered by reversed id and are a permutation of the input |
| RendererJs.PanInRange | js/renderer.js:138 | for a box inside the frame the pan is a number between -1 and 1 |
| RendererJs.PanOf | js/renderer.js:138 | the pan is NaN exactly when the width is; otherwise it maps the box's centre linearly onto -1..1, so (pan + 1) / 2 of the canvas width is the centre |
| RendererJs.InputOf | js/renderer.js:123-141 | an input carries the part id, size, unit volume and zero offset; it has a position exactly when the box was placed, and a pan exactly when placed and panning is on |
| RendererJs.InputsOf | js/renderer.js:123 | one input per box, in order |
| RendererJs.HiddenInputsLast | js/renderer.js:109 | hidden parts come after the laid-out ones, with no position and no pan |
| RendererJs.AutoKeyRoundTrip | js/renderer.js:147 | the compositor parses the written key back as the two ids and the definition id `auto` |
| RendererJs.RendererMain | js/renderer.js:10-154 | missing ids give `missing parameters`; no parts give `nothing to do`; otherwise the definition is written under the auto key with the settings (with the intended `panning` and `center` flags) and the laid-out shown parts followed by the hidden ones |
| SignedUrls.Utf8Char | python/choirless_lib/choirless_lib/signed_urls.py:12 | a character encodes to one to four bytes, one byte exactly for ASCII, with a lead byte and continuation bytes otherwise |
| SignedUrls.Utf8Concat | python/choirless_lib/choirless_lib/signed_urls.py:12 | encoding a concatenation is the concatenation of the encodings |
| SignedUrls.Hex | python/choirless_lib/choirless_lib/signed_urls.py:71 | `hexdigest` gives two lower-case hex digits per byte |
| SignedUrls.HexRoundTrip | python/choirless_lib/choirless_lib/signed_urls.py:75-77 | the hex text of a digest reads back as the digest |
| SignedUrls.PercentEncode | python/choirless_lib/choirless_lib/signed_urls.py:48 | each escaped byte becomes three characters, '%' and upper-case hex digits |
| SignedUrls.QuoteConcat | python/choirless_lib/choirless_lib/signed_urls.py:48 | quoting a concatenation is the concatenation of the quoted pieces |
| SignedUrls.QuoteKeeps | python/choirless_lib/choirless_lib/signed_urls.py:48 | text made only of safe characters is left as it is |
| SignedUrls.QuoteIntroducesNo | python/choirless_lib/choirless_lib/signed_urls.py:48 | quoting adds no character other than '%' and upper-case hex digits |
| SignedUrls.Pad | python/choirless_lib/choirless_lib/signed_urls.py:40-41 | a strftime field is exactly its width in digits |
| SignedUrls.PadValue | python/choirless_lib/choirless_lib/signed_urls.py:40-41 | a field that fits its width reads back as its value |
| SignedUrls.DateFields | python/choirless_lib/choirless_lib/signed_urls.py:41 | `%Y%m%d` is eight digits that read back as the year, the month and the day |
| SignedUrls.TimeFields | python/choirless_lib/choirless_lib/signed_urls.py:40 | `%Y%m%dT%H%M%SZ` is sixteen characters: the datestamp, 'T', hour, minute and second digits that read back, then 'Z' |
| SignedUrls.StampFields | python/choirless_lib/choirless_lib/signed_urls.py:40-41 | both stamps together: fixed widths, the timestamp starts with the datestamp, each field reads back |
| SignedUrls.EndpointScheme | python/choirless_lib/choirless_lib/signed_urls.py:33-36 | the endpoint always starts with `https://`, and a host given with or without that scheme gives the same endpoint |
| SignedUrls.Endpoint | python/choirless_lib/choirless_lib/signed_urls.py:33-36 | the endpoint starts with `https://` and holds only characters of the host and the scheme |
| SignedUrls.ExpiresText | python/choirless_lib/choirless_lib/signed_urls.py:31 | the expiry is written as `3600` |
| SignedUrls.StampsSafe | python/choirless_lib/choirless_lib/signed_urls.py:40-41 | the stamps hold only characters quote() keeps |
| SignedUrls.CredentialHasScope | python/choirless_lib/choirless_lib/signed_urls.py:44 | the credential is the access key followed by the credential scope of the string to sign |
| SignedUrls.QuoteJoin | python/choirless_lib/choirless_lib/signed_urls.py:48 | with '&' safe, quoting the query quotes each parameter and keeps the separators |
| SignedUrls.SplitQuotedJoin | python/choirless_lib/choirless_lib/signed_urls.py:48 | the quoted query splits at '&' into the quoted parameters |
| SignedUrls.QueryFields | python/choirless_lib/choirless_lib/signed_urls.py:43-48 | when neither the access key nor the region holds '&', the encoded query splits into the five quoted parameters |
| SignedUrls.QueryAlgorithmAndHeaders | python/choirless_lib/choirless_lib/signed_urls.py:43-48 | the first parameter is the algorithm and the last the signed headers, both unescaped |
| SignedUrls.QueryDate | python/choirless_lib/choirless_lib/signed_urls.py:45-48 | the third parameter is the timestamp, unescaped |
| SignedUrls.QueryExpires | python/choirless_lib/choirless_lib/signed_urls.py:46-48 | the fourth parameter is the expiry of 3600 seconds, unescaped |
| SignedUrls.ScopeShared | python/choirless_lib/choirless_lib/signed_urls.py:44-48 | the credential parameter carries the quoted access key and the same credential scope the string to sign uses |
| SignedUrls.QueryOneLine | python/choirless_lib/choirless_lib/signed_urls.py:48 | the encoded query holds no line break |
| SignedUrls.CanonicalRequestLines | python/choirless_lib/choirless_lib/signed_urls.py:57-63 | the standardized request splits into its seven lines: method, resource, query, host header, empty line, signed headers and payload marker |
| SignedUrls.StringToSignLines | python/choirless_lib/choirless_lib/signed_urls.py:66-71 | the string to sign splits into the algorithm, the timestamp, the scope and the request hash |
| SignedUrls.SignatureLast | python/choirless_lib/choirless_lib/signed_urls.py:81-86 | the last '&' piece of the URL is the signature parameter |
| SignedUrls.Signature | python/choirless_lib/choirless_lib/signed_urls.py:75-77 | the signature is lower-case hex text that reads back as the MAC of the string to sign under the signing key |
| SignedUrls.RequestUrlPieces | python/choirless_lib/choirless_lib/signed_urls.py:81-86 | split at '&', a request URL whose address holds no '&' is the address with the query's first piece, the query's other pieces, and the signature parameter last |
| SignedUrls.EncodedRequestPieces | python/choirless_lib/choirless_lib/signed_urls.py:43-86 | the request URL of the encoded query splits at '&' into the address with the algorithm parameter, the four other parameters each quoted on its own, and the signature parameter |
| SignedUrls.SignedUrlQueryPieces | python/choirless_lib/choirless_lib/signed_urls.py:25-88 | the signed URL, split at '&', is `https://` host `/bucket/key?` with the algorithm parameter, then the quoted credential, date, expiry and signed-headers parameters, then `X-Amz-Signature=` with the signature last |
| SignedUrls.ScopePieces | python/choirless_lib/choirless_lib/signed_urls.py:67 | the credential scope splits at '/' into the date, the region, `s3` and `aws4_request` |
| SignedUrls.SignatureKeyChainsScope | python/choirless_lib/choirless_lib/signed_urls.py:17-22 | the signing key is the MAC chain over the pieces of the credential scope in order, started from `AWS4` and the secret |
| SignedUrls.SignedRequestLines | python/choirless_lib/choirless_lib/signed_urls.py:50-63 | the request signed is the method, the unescaped resource, the encoded query and the scheme-less host |
| SignedUrls.SignedStringLines | python/choirless_lib/choirless_lib/signed_urls.py:65-71 | the text signed is the algorithm, the timestamp, the scope and the hex SHA-256 of the standardized request |
| StitcherPass.Triggered | aligner/pass_to_sticher.py:15-18 | a non-mapping notification fails as Python would, and a missing one reads as an empty name; otherwise the step is triggered by the stitched output exactly when the object name contains `+final.` |
| StitcherPass.ChoirOf | aligner/pass_to_sticher.py:27-30 | the choir key exists exactly when `key` is a string; it is then the key's prefix up to the first '+', and otherwise `split` raises |
| StitcherPass.PassFields | aligner/pass_to_sticher.py:43-52 | the arguments gain exactly the ten settings, the videos and the `+final.mp4` output key, and keep every other entry |
| StitcherPass.StitcherMain | aligner/pass_to_sticher.py:13-56 | a `+final.` trigger returns the arguments unchanged; no client, no key or no listing raise; fewer than three candidates raise `Not enough videos` with their count; otherwise the candidates are passed on with the settings |
| StitcherPass.CandidatesSpec | aligner/pass_to_sticher.py:37-40 | the candidates are exactly the listed keys without `+final.`, as a permutation sorted by their SHA-1 digest |
| StitcherPass.OutputStopsLoop | aligner/pass_to_sticher.py:18 | the output key carries the `+final.` mark |
| StitcherPass.OutputTriggerSkipped | aligner/pass_to_sticher.py:15-19 | a trigger by the stitched output is skipped |
| StitcherPass.OutputNeverCandidate | aligner/pass_to_sticher.py:38 | an earlier stitched output is never a candidate again |
| Sorting.SortInts | python/renderer_compositor_main.py:99 | `sorted(rows)` on integers is ascending and a permutation of its input |
| Sorting.SortIntsPermutation | python/renderer_compositor_main.py:99 | sorting gives the same list for any reordering of the same rows |
| Sorting.SortIntsSorted | python/renderer_compositor_main.py:99 | sorting an ascending list gives it back |
| Sorting.SortedUnique | python/renderer_compositor_main.py:99 | two ascending lists with the same elements are equal |
| Sorting.SortSet | python/renderer_compositor_main.py:48-52 | `sorted(set)` lists each element once, in increasing order |
| Sorting.MinOf | python/renderer_compositor_main.py:52 | the element chosen first is in the set and no larger than any other |
| Sorting.SortedSetUnique | python/renderer_compositor_main.py:52 | a set has exactly one increasing listing |
| Sorting.SortedNoDupStrict | python/renderer_compositor_main.py:48-52 | sorting a duplicate-free list gives a strictly increasing one |
| Sorting.MapPermutation | python/renderer_final.py:196 | mapping two reorderings of the same list gives reorderings of the same results |
| Sorting.LexTotal | js/renderer.js:101-103 | any two keys compare one way or the other |
| Sorting.LexTrans | js/renderer.js:101-103 | the key order is transitive |
| Sorting.LexAntisym | js/renderer.js:101-103 | keys ordered both ways are equal |
| Sorting.CodesInjective | js/renderer.js:99-100 | strings with the same character codes are equal |
| Sorting.FilterMembers | aligner/pass_to_sticher.py:38 | a comprehension filter keeps exactly the elements that pass |
| Sorting.FilterSortedBy | python/renderer_final.py:127-128 | dropping elements keeps an order by key |
| Sorting.SortBy | aligner/pass_to_sticher.py:40 | `list.sort(key=...)` gives a list ordered by the key that is a permutation of its input |
| Strings.IndexOf | python/calculate_alignment.py:31 | the first position of a character, absent exactly when it does not occur |
| Strings.Cut | python/calculate_alignment.py:31 | a lazy `(.*?)\+` group ends at the first '+', and the text is the group, the '+' and the rest |
| Strings.CutJoined | python/calculate_alignment.py:31 | cutting a text joined at a character the first part lacks gives both parts back |
| Strings.LastIndexOf | python/renderer_final.py:191 | the last position of a character, absent exactly when it does not occur |
| Strings.FindSub | aligner/calculate_alignment.py:64 | the first position at which a text occurs, absent exactly when it does not |
| Strings.UnpackError | python/renderer_final.py:191 | unpacking the wrong number of values raises a ValueError that says "not enough values" exactly when there are too few |
| Strings.Split | python/renderer_final.py:191 | `str.split` gives at least one piece, none holding the separator, and joining them gives the text back |
| Strings.SplitJoin | python/renderer_final.py:191 | splitting a join of separator-free pieces gives the pieces back |
| Strings.SplitHead | aligner/pass_to_sticher.py:28-30 | the first piece is a prefix, ending at the first separator or at the end |
| Strings.SplitAppend | python/choirless_lib/choirless_lib/signed_urls.py:81-86 | splitting at a separator between two texts splits each of them |
| Strings.SplitCount | python/renderer_final.py:191 | the number of pieces is one more than the number of separators |
| Strings.IntToStrRoundTrip | python/renderer_final.py:193 | `int(str(i)) == i` for every integer |
| Strings.IntToStrHasNo | python/renderer_final.py:191-192 | an integer's text holds none of the key separators |
| Strings.NatToStrValue | python/renderer_compositor_main.py:99 | a natural number's text is digits that read back as it |
| Strings.StemHasNoSlash | python/renderer_final.py:191 | `Path(key).stem` never holds a '/' |
| Strings.StemOfName | python/renderer_final.py:191 | the stem of `base.ext` is `base` when neither holds a '/' and the extension no '.' |
| Strings.Anchored | python/calculate_alignment.py:31 | `$` matches at the end or before one final line break, and the anchored text holds no line break |
| Strings.StripLeft | python/post_production.py:115 | the result is a suffix that starts with no white space, and everything cut off before it is white space |
| Strings.StripRight | python/post_production.py:115 | the result is a prefix that ends with no white space, and everything cut off after it is white space |
| Strings.Strip | python/post_production.py:115 | `str.strip` leaves a piece of the original that starts and ends with no white space, with only white space before and after it |
| Actions.StrList | aligner/pass_to_sticher.py:44 | a list of strings as a JSON value keeps its length and items |
| Actions.GetOr | python/renderer_final.py:26-27 | `get` fails only on a non-dictionary; it gives the entry when present and the default otherwise |
| Actions.KeyArg | python/renderer_final.py:26-27 | the key is the parameter when given, otherwise the notification's object name; it fails when the notification has no `get` or the key is not a string |
| Actions.Args.Set | python/renderer_engine_composite.py:80-81 | setting one entry of `args` keeps every other |
| Actions.Args.Lookup | python/renderer_engine_composite.py:27 | `args[k]` gives the entry when present and fails otherwise |

## Left out

- Audio decoding and analysis are inputs: onset envelopes, beat frames and tempi from the audio library, and the z-scored onset strengths of the older aligner. The z-score needs a square root and a float standard deviation.
- The ffmpeg filter graphs and `pipeline.run()` are not modelled. They are represented by the inputs, mixes, padding, layout strings and output keys they are built from. The reverb weight text at `python/post_production.py:178` is float formatting and is not modelled.
- Object-storage client creation and credential lookup are not modelled: `createCOSClient`, `create_cos_client` and the endpoint rewrite they make in `args`. Only `StitcherPass.StitcherMain` takes a client that could not be created, as a boolean parameter. Every other main starts after the `if not cos: raise ValueError("could not create COS instance")` check and does not model that raise: `Alignment.AlignMain`, `LegacyAlignment.AlignMain`, `LegacyAlignment.ManualMain`, `PostProduction.PostProductionMain`, `CompositorChild.Composite`, `CompositorMain.Spawn`, `EngineComposite.CompositeMain`, `EngineScaled.EnsureScaledMain` and `RendererFinal.FinalMain`.
- Storage listings, uploads, HTTP calls, MQTT status messages, OpenWhisk invocations and the asyncio fan-out are not modelled. The per-item decisions and the order of results are modelled; the concurrency is not.
- SHA-1, SHA-256, HMAC-SHA256, uuid and the current UTC time are parameters, so no contract speaks of their values.
- The box-layout library (`boxjam`) is a parameter. Its output rectangles are taken as given.
- Floating point is modelled as exact reals: the event maps, the errors, the volumes, the pan and the 0.1 reverb default. NaN appears only where the source's outcome depends on it: the error of an empty series, and `parseInt` finding no digits.
- SignedUrls.Signature: does not state that the signature is 64 characters long, because the MAC is a parameter of unknown output length.
- SignedUrls.DateFields: covers years 1000 to 9999 only. `strftime('%Y')` pads shorter years differently from platform to platform.
- The URL-encoded resource at `signed_urls.py:51` is computed but never used, so it is not modelled.
- RendererFinal.ParseRowKey: reads the row number as an optional sign and decimal digits. Python's `int()` also accepts surrounding white space and '_' between digits, and those keys fail to parse in the model. The `int()` error message quotes the text in single quotes without escaping; Python's `repr` switches to double quotes for a text holding a single quote and escapes control characters.
- Sorting.SortBy: does not state stability. `list.sort` and `Array.prototype.sort` are stable; the contract states only that the result is ordered by key and is a permutation.
- RendererJs.SortRectangles: compares reversed ids by character. JavaScript compares UTF-16 code units, which orders characters outside the Basic Multilingual Plane differently.
- RendererJs.Reverse: reverses characters. `split('').reverse().join('')` reverses UTF-16 code units, so it splits a surrogate pair of a character outside the Basic Multilingual Plane, which the model keeps whole.
- Strings.Stem: a path ending in '/' gives an empty stem, whereas pathlib drops the trailing slash and takes the stem of the last component. Object keys never end in '/'.
- RendererJs.Partition: returns the rectangles but does not write the default aspect ratio back into the part object (`p.aspectRatio = '640:480'`). Nothing later reads it.
- RendererJs.RadixValue: accepts radix 10 and 16 only, the two radixes `parseInt` chooses when it is given none.
- CompositorChild.RowInputs: follows the corrected loop, in which a spec without a position adds its audio only. As written, the loop raises KeyError('position') for such a spec; `CompositorChild.RowInputsAsWritten` models that, and the Findings table records it.
- CompositorChild.Composite: builds the row plan with the corrected `CompositorChild.RowInputs`, so it does not raise the KeyError the program raises for a positionless spec.
- RendererJs.SettingsOf: reads `panning` with the intended flag, false when the parameter is false. As written, the flag is always true (`RendererJs.FlagAsWrittenIgnoresFalse`, Findings).
- RendererJs.RendererMain: reads `center` and `panning` with the intended flag, not the always-true default as written.
- PostProduction.Stats: a block that fails to decode raises the intended message with the decoder's error in place of the literal `{e}` the program writes (`PostProduction.JsonErrorMessageAsWrittenLosesCause`, Findings). The float reads outside the `try` are modelled as written.
- PostProduction.PostProductionMain: raises the intended decoding message through `PostProduction.Stats`.
- PostProduction.PyFloat: a NaN entry is refused with a ValueError, because reals have no NaN; Python's `float()` returns NaN. Parsing a numeric string is a parameter.
- JSON values other than null, booleans, numbers, strings, lists and objects do not occur in action parameters and are not modelled.
- `python/renderer_compositor_child.py` and `python/post_production.py` read the definition from storage; the model takes the parsed definition as a parameter.

## Findings

| source | as written | input that shows it | evidently intended | confidence | as-written member | corrected member |
|---|---|---|---|---|---|---|
| js/renderer_compositor_main.js:32-33 | a spec without a position counts as row -1, so a child render is started for row -1; the Python child then reads `spec['position']` for every spec of that row and raises KeyError | a definition with one input that has no `position` | row -1 is rendered with audio only, which is how `python/renderer_final.py:127-129` treats it | not executed | CompositorMainJs.PositionlessRowAsWritten | CompositorMainJs.PositionlessRowCorrected |
| js/renderer.js:32 | the default for `panning` is written as a logical or with `true`, which is true for every value, so panning cannot be turned off; `center` at line 35 has the same defect | `panning: false` | the parameter's value when it is given, true when it is absent | not executed | RendererJs.FlagAsWrittenIgnoresFalse | RendererJs.FlagReadings |
| python/post_production.py:134 | the error text lacks the `f` prefix, so it holds the literal `{e}` and not the decoding error | two stats blocks that fail to decode for different reasons | the message carries the cause | not executed | PostProduction.JsonErrorMessageAsWrittenLosesCause | PostProduction.JsonErrorMessageKeepsCause |
