# lottiberry: a Dafny model of the render pipeline

lottiberry turns a Lottie animation into a video. A headless player draws frames
into an RGBA buffer, and `ffmpeg` encodes the raw frames it reads from its
standard input. This project models the parts of the pipeline that decide
*what* is rendered and written, and *in which order*:

- **The service renderer** (`renderLottie`, module `RenderLottie`):
  - derives the frame count and frame rate from the animation's metadata;
  - cuts the frame indices into contiguous chunks (`chunkArray`), one per worker;
  - runs a reorder buffer that queues the workers' frames for the encoder
    strictly by index;
  - builds the encoder's argument list and picks the `ffmpeg` binary.
- **The resampling renderer** (`lottieToVideoParallel`, module
  `LottieToVideoParallel`):
  - computes a repeat plan with one 16-bit count per source frame, from the
    ratio of output to source frame rate;
  - renders only the frames the plan writes, split with `splitEven`;
  - writes each of them, in source order, as many times as the plan says,
    through a sparse reorder buffer.
- **The worker** (`lottie-worker.js`, module `LottieWorker`):
  - the hand-off: a worker reads its animation from the path it is given,
    and without one it fails before posting anything;
  - the order in which one worker waits, draws, copies the pixel view and posts;
  - the merge of several workers' messages into one arrival order.
- **The sequential renderers** (`src/lottie-to-video.js` and the root
  `lottie-to-video.js`, module `LottieToVideo`): one frame per source frame,
  a codec switch between H.264 and VP9, and their own binary lookup.
- **The HTTP service** (`src/server.ts`, module `RenderServer`):
  - the `Limiter` that bounds concurrent renders;
  - the `/render` request lifecycle: 400, 429, 500 or 200 with the video;
  - the `CONCURRENCY` setting.
- **The option decoder** (`decodeOptions`, module `DecodeOptions`): a decoder
  from an untyped body to six optional fields. It never fails on a value it
  cannot use, but the string conversion `String(v)` can throw.

The supporting modules:

- `JsSemantics` models the JavaScript behaviour the core depends on:
  `Math.round`, `Math.ceil`, a bitwise or with 0, `Uint16Array` stores, truthiness,
  `String(n)` for integers and `split(/\r?\n/).find(Boolean)`.
- `FfmpegBinary` holds the candidate binaries (environment, system `which`/`where`,
  bundled `ffmpeg-static`) and picks the first one available.
- `SeqUtil` holds sequence facts: flattening, sums, permutations of
  distinct sequences.

State the source updates in place is modelled as classes:

- the `Limiter`;
- the two reorder buffers (`DenseSequencer`, `SparseSequencer`);
- the request-handling service (`RenderService`).

Loops the source runs are methods with loop invariants, proved against
specification functions:

- `ChunkArray` and `SplitEven`;
- the repeat loop filling a `Uint16Array` (`ComputeRepeats`, on an `array`);
- the `srcList` loop, the reorder buffers' write loops, the worker loop and
  the sequential frame loop.

Workers, the encoder's child process and the HTTP layer are represented
as follows:

- The workers' concurrency is a schedule: any interleaving of the
  per-worker message streams.
- Rendering is a function from frame index to buffer.
- The encoder's standard input is the sequence of buffers written to it.

Behaviour of the code that the model keeps:

- Binary lookup order. The service renderer and the resampling renderer look
  in the environment, then the system path, then `ffmpeg-static`. The two
  sequential renderers look in the environment, then `ffmpeg-static`, then
  the system path.
- A busy service answers 429 at once. Nothing is queued.
- With ratio `r >= 1` each source frame is written at least once, for
  example 2,1,2,1 at ratio 1.5. With `r <= 1` each source frame is written at
  most once.
- The resampling renderer computes `totalOut` and `uniqueToRender` and never
  uses them. The number of frames written is the sum of the plan, which is
  `round(nSrc * ratio)` (`PlanSum`).
- A non-positive or non-finite ratio is not an error. It renders and writes
  nothing (`NonPositiveRatioRendersNothing`).
- A non-positive `workers` in the resampling renderer gives no chunks. No
  frame is then sent.

## Model

| member | source | states |
|---|---|---|
| JsSemantics.Round | src/lottie-to-video-parallel.js:70 | `Math.round` gives the integer within half a unit of `x`, rounding halves up |
| JsSemantics.Ceil | src/render-lottie.ts:54 | `Math.ceil` gives the least integer not below `x` |
| JsSemantics.ToInt32 | src/render-lottie.ts:219 | the bitwise or with 0 is the 32-bit two's-complement wrap of `v`: congruent to it modulo 2^32, and equal to it inside the 32-bit range |
| JsSemantics.ToUint16 | src/lottie-to-video-parallel.js:67-71 | a store into a `Uint16Array` keeps the value modulo 65536, and small values unchanged |
| JsSemantics.IntRoundTrip | src/render-lottie.ts:157 | the decimal text `String(n)` that the encoder reads parses back to `n`, negatives included |
| JsSemantics.IntToStringInjective | src/render-lottie.ts:162 | two different numbers never give the same argument text |
| JsSemantics.SplitJoinRoundTrip | src/render-lottie.ts:175 | splitting the lookup output on line feeds loses nothing: joining the pieces gives the text back |
| JsSemantics.Lines | src/render-lottie.ts:175 | `split(/\r?\n/)` gives one piece per line feed, none holding a line feed |
| JsSemantics.FirstNonEmpty | src/render-lottie.ts:175 | `find(Boolean)` gives the first non-empty line, and gives nothing exactly when every line is empty |
| FfmpegBinary.TruthyPath | src/render-lottie.ts:173-177 | `FFMPEG_PATH` and the `ffmpeg-static` path count only when set and non-empty, and then as they are |
| FfmpegBinary.SystemCandidate | src/render-lottie.ts:174-176 | the system lookup counts only on exit status 0, and then gives a non-empty line of its output |
| FfmpegBinary.FirstAvailable | src/render-lottie.ts:172-178 | the binary chosen is one of the candidates present, or the fallback, and the fallback when no candidate is present |
| FfmpegBinary.FirstAvailableIsFirst | src/render-lottie.ts:172-178 | the lookup returns the first available candidate in priority order |
| FfmpegBinary.FirstAvailableOfThree | src/render-lottie.ts:172-178 | with three candidates, the result is the first present one, else the platform default `ffmpeg`/`ffmpeg.exe` |
| RenderLottie.Dimension | src/render-lottie.ts:49-50 | a width or height is the metadata's value when non-negative, else 0 |
| RenderLottie.StartFrame | src/render-lottie.ts:52 | the in-point is `ip` when it is a finite number, else 0 |
| RenderLottie.EndFrame | src/render-lottie.ts:53 | the out-point is `op` when it is a finite number, else `totalFrames`, else 0 |
| RenderLottie.FrameCount | src/render-lottie.ts:52-54 | `nSrc` is zero exactly when `op <= ip`, else the least integer covering `op - ip` |
| RenderLottie.SourceFps | src/render-lottie.ts:56 | the source rate is `fr`, else `fps`, else 30 |
| RenderLottie.ClampInt | src/render-lottie.ts:218-220 | `clampInt` lies in `[min, max]` and is the 32-bit truncation of `v` when that is in range, the nearer bound otherwise |
| RenderLottie.OutputFps | src/render-lottie.ts:56-57 | the output rate is always in 1..240, and is the rounded source rate (`fr`, else `fps`, else 30) when that is in range |
| RenderLottie.WorkerCount | src/render-lottie.ts:79-80 | the requested count held between 1 and the frames to render (one when none); by default, one fewer than the cores but between 1 and 8, capped by the frames |
| RenderLottie.ChunkSize | src/render-lottie.ts:184 | `per` is the least chunk size with which `k` chunks cover the array |
| RenderLottie.ChunkArray | src/render-lottie.ts:181-192 | the chunks are non-empty, at most `k` of them, all full-size but the last, and their concatenation is the array; an empty array gives no chunk |
| RenderLottie.DenseSequencer.constructor | src/render-lottie.ts:86-89 | the buffer starts empty, expecting index 0 |
| RenderLottie.DenseSequencer.OnFrame | src/render-lottie.ts:103-113 | after a frame message, everything stored is above the next index expected, the queue only grows, and it holds exactly the frames `0..nextToWrite-1` in order |
| RenderLottie.Drained | src/render-lottie.ts:125-126 | once every index has arrived, the store is empty and the queue is the received frames in index order |
| RenderLottie.RunDense | src/render-lottie.ts:94-126 | frames arriving in any order, each once, reach the encoder in index order, each exactly once |
| RenderLottie.RenderFrames | src/render-lottie.ts:79-126 | the chunks partition `0..nSrc-1` among at most `workerCount` workers, and the encoder receives frame `j` as the `j`-th buffer, whatever the workers' interleaving |
| RenderLottie.BuildFfmpegArgs | src/render-lottie.ts:138-170 | the argument list: raw RGBA input of the given size and rate from `pipe:0`, H.264 with the preset and CRF, yuv420p, faststart, a GOP of 12 seconds, the threads, the extra arguments, the output path last |
| RenderLottie.FfmpegNumbersReadBack | src/render-lottie.ts:150-166 | the encoder reads back the exact rate, CRF, GOP (`12 * FPS`) and thread count from their argument texts |
| RenderLottie.EncoderSettingsFor | src/render-lottie.ts:34-71 | a missing output path is an error; otherwise the defaults are CRF 18, preset `veryfast`, one thread and no extra arguments, with sizes and rate from the metadata |
| RenderLottie.ResolveFfmpegPath | src/render-lottie.ts:172-179 | the binary is the first of environment, system lookup and bundled path, else the platform default |
| LottieToVideoParallel.Ratio | src/lottie-to-video-parallel.js:65 | the ratio `FPS / srcFps` multiplied back gives `FPS`; a zero source rate gives an infinity of the sign of `FPS` |
| LottieToVideoParallel.SourceFps | src/lottie-to-video-parallel.js:61 | the source rate is the probed rate when there is one; otherwise, multiplied by the duration (at least a microsecond), it gives the frame count |
| LottieToVideoParallel.OutputFps | src/lottie-to-video-parallel.js:62 | the output rate is the requested `fps`, else the integer within half a unit of the source rate |
| LottieToVideoParallel.RepeatAt | src/lottie-to-video-parallel.js:70 | a repeat count always fits the 16-bit array |
| LottieToVideoParallel.Plan | src/lottie-to-video-parallel.js:67-71 | the plan holds one count per source frame |
| LottieToVideoParallel.ComputeRepeats | src/lottie-to-video-parallel.js:67-71 | the array the loop fills is the repeat plan |
| LottieToVideoParallel.RoundMonotone | src/lottie-to-video-parallel.js:70 | rounding never decreases, so the differences the plan takes are never negative before the clamp |
| LottieToVideoParallel.Step | src/lottie-to-video-parallel.js:70 | each step `round((k+1)r) - round(kr)` is within one of the ratio, and never negative for a frame `k >= 0` and a ratio `r >= 0` |
| LottieToVideoParallel.PlanStep | src/lottie-to-video-parallel.js:70 | for ratios up to 65535 the 16-bit store changes no step |
| LottieToVideoParallel.PlanSum | src/lottie-to-video-parallel.js:69-71 | the plan writes `round(nSrc * ratio)` frames in total |
| LottieToVideoParallel.NonPositiveRatioRendersNothing | src/lottie-to-video-parallel.js:70 | a ratio that is not positive and finite writes no frame at all |
| LottieToVideoParallel.DownsamplingWritesAtMostOnce | src/lottie-to-video-parallel.js:69-71 | with a ratio at most 1, no source frame is written twice |
| LottieToVideoParallel.UpsamplingWritesEveryFrame | src/lottie-to-video-parallel.js:69-71 | with a ratio at least 1, every source frame is written at least once |
| LottieToVideoParallel.WholeRatioRepeatsEvenly | src/lottie-to-video-parallel.js:69-71 | an integer ratio `m` writes every frame exactly `m` times |
| LottieToVideoParallel.RepeatWrapsAt65536 | src/lottie-to-video-parallel.js:67-71 | a ratio of 65536 stores 0 repeats (16-bit wrap), so such a frame is dropped |
| LottieToVideoParallel.HalfRatePlan | src/lottie-to-video-parallel.js:69-71 | at half rate, every other frame is written, starting with the first |
| LottieToVideoParallel.FiveHalvesPlan | src/lottie-to-video-parallel.js:69-71 | at ratio 2.5, the frames are written 3 and 2 times |
| LottieToVideoParallel.SrcList | src/lottie-to-video-parallel.js:99-104 | every listed frame is an index of the plan |
| LottieToVideoParallel.SrcListIsPositiveIndices | src/lottie-to-video-parallel.js:99-104 | `srcList` is strictly ascending, holds exactly the frames with a positive count, and has as many entries as there are such frames |
| LottieToVideoParallel.SrcListAscending | src/lottie-to-video-parallel.js:99-104 | `srcList` is strictly ascending |
| LottieToVideoParallel.SrcListMembers | src/lottie-to-video-parallel.js:99-104 | a frame is in `srcList` exactly when its count is positive |
| LottieToVideoParallel.SrcListCount | src/lottie-to-video-parallel.js:72 | `srcList` has `uniqueToRender` entries |
| LottieToVideoParallel.BuildSrcList | src/lottie-to-video-parallel.js:99-104 | the loop over the repeat array collects `srcList` |
| LottieToVideoParallel.TimelineLength | src/lottie-to-video-parallel.js:137-145 | the expected output has as many frames as the plan's sum |
| LottieToVideoParallel.ExpandIsTimeline | src/lottie-to-video-parallel.js:131-148 | writing the rendered frames of `srcList`, each by its count, gives the expected output |
| LottieToVideoParallel.DefaultWorkers | src/lottie-to-video-parallel.js:23 | the default worker count is the cores minus one, clamped to 1..8 |
| LottieToVideoParallel.ChunkCount | src/lottie-to-video-parallel.js:106 | the slice count is the smaller of the worker count and the frames to render (one when none): it is one of the two, and exceeds neither |
| LottieToVideoParallel.WorkerCountMatchesChunkCount | src/render-lottie.ts:79-80 | for a requested count of one or more, or none, the service renderer sizes its pool exactly as the resampling renderer sizes its chunks |
| LottieToVideoParallel.SliceStartClosed | src/lottie-to-video-parallel.js:185-190 | slice `i` starts after `i` base-length slices and one extra element for each earlier long slice |
| LottieToVideoParallel.SliceStartBounds | src/lottie-to-video-parallel.js:185-190 | every slice starts inside the array, and the slices end exactly at its end |
| LottieToVideoParallel.SliceLengthsBalanced | src/lottie-to-video-parallel.js:183-187 | slice lengths never grow and differ by at most one |
| LottieToVideoParallel.SplitEven | src/lottie-to-video-parallel.js:180-192 | exactly `k` slices whose concatenation is the array, slice `i` of length `floor(n/k)` plus one for the first `n % k`; `k` empty slices for an empty array |
| LottieToVideoParallel.IndexOf | src/lottie-to-video-parallel.js:195 | `indexOf` gives the first position of the value, or -1 exactly when it is absent |
| LottieToVideoParallel.NextInList | src/lottie-to-video-parallel.js:194-197 | `nextInList` gives the element after the first occurrence of `cur`, and `cur + 1` when `cur` is absent or that occurrence is the last element |
| LottieToVideoParallel.NextInListSteps | src/lottie-to-video-parallel.js:194-197 | in an ascending list, `nextInList` from an element gives the element after it, and one past the last |
| LottieToVideoParallel.SparseSequencer.constructor | src/lottie-to-video-parallel.js:110-118 | the buffer starts empty, expecting the first listed frame, with nothing written |
| LottieToVideoParallel.SparseSequencer.OnFrame | src/lottie-to-video-parallel.js:125-149 | after a frame message, the written prefix of `srcList` only grows, each written frame by its count, and the next expected frame has not arrived yet |
| LottieToVideoParallel.SparseSequencer.Flush | src/lottie-to-video-parallel.js:129-148 | the frame is stored, and every stored frame next in `srcList` is written until the expected frame is missing |
| LottieToVideoParallel.SparseSequencer.WriteNext | src/lottie-to-video-parallel.js:133-147 | the expected frame leaves the store, is written by its count, and the expected index moves to the next listed frame |
| LottieToVideoParallel.SparseSequencer.Emit | src/lottie-to-video-parallel.js:137-145 | the inner loop writes the buffer `rep` times and counts each write |
| LottieToVideoParallel.Drained | src/lottie-to-video-parallel.js:131-148 | once every listed frame has arrived, all are written and nothing is stored |
| LottieToVideoParallel.AllWritten | src/lottie-to-video-parallel.js:115-148 | once every listed frame has arrived, the encoder's input is the expected output, `writtenOut` is the plan's sum and `produced` the number of frames rendered |
| LottieToVideoParallel.Feed | src/lottie-to-video-parallel.js:125-130 | feeding distinct listed frames records each of them, rendered |
| LottieToVideoParallel.ArrivalsDistinct | src/lottie-to-video-parallel.js:120-125 | an arrival order that is a permutation of `srcList` holds each listed frame once |
| LottieToVideoParallel.RunSparse | src/lottie-to-video-parallel.js:110-156 | frames arriving in any order, each once, give the expected output with the counts above; no arrivals give nothing |
| LottieToVideoParallel.ParallelArgs | src/lottie-to-video-parallel.js:74-93 | the argument list, with a GOP of `gop` or 12 seconds, `-threads` only when given and non-zero, the extra arguments and the output path last |
| LottieToVideoParallel.ParallelNumbersReadBack | src/lottie-to-video-parallel.js:79-89 | the encoder reads back the exact rate, CRF, GOP and thread count |
| LottieToVideoParallel.SameArgsAsFixedRate | src/lottie-to-video-parallel.js:74-93 | without a GOP and with threads given, the arguments are those of the service renderer |
| LottieToVideoParallel.SettingsFor | src/lottie-to-video-parallel.js:12-26 | a missing output path is an error; otherwise the sizes default to the animation's, CRF 18, preset `veryfast`, no extra arguments |
| LottieToVideoParallel.Streams | src/lottie-to-video-parallel.js:120-123 | the workers started on the chunks send the chunks' frames when handed a path, and no frame at all when not |
| LottieToVideoParallel.Dispatch | src/lottie-to-video-parallel.js:63-156 | after the encoder starts: with a path and at least one worker, the encoder input is the expected output of the plan; without a path or a worker, it is empty |
| LottieToVideoParallel.RenderParallel | src/lottie-to-video-parallel.js:61-156 | corrected hand-off, end to end: the arguments, chunks covering `srcList`, and with at least one worker an encoder input that is the expected output of the plan, whatever the interleaving of the workers |
| LottieToVideoParallel.RenderParallelAsWritten | src/lottie-to-video-parallel.js:120-156 | as written: with at least one worker, every worker fails on the missing path, the render rejects, and no frame reaches the encoder |
| LottieToVideoParallel.HandOffLosesEveryFrame | src/lottie-to-video-parallel.js:122 | with a frame to write and a worker, the corrected hand-off writes every planned frame while the code as written writes none and rejects |
| LottieWorker.SliceBuffer | src/lottie-worker.js:34 | `ArrayBuffer.slice` of an in-range window gives that window, and never more than the buffer |
| LottieWorker.Payload | src/lottie-worker.js:33-34 | the posted bytes are exactly the pixel view's window of its backing buffer |
| LottieWorker.PostedAppend | src/lottie-worker.js:31-46 | the messages posted by two stretches of work are those of the first, then those of the second |
| LottieWorker.PostedNone | src/lottie-worker.js:24-29 | waiting, resizing and drawing post nothing |
| LottieWorker.RunWorker | src/lottie-worker.js:24-46 | the worker waits for ready and load, resizes, draws and posts each index in order, destroys the player, then posts `done`; the messages are one frame per index, in order, then `done` |
| LottieWorker.Merge | src/render-lottie.ts:95-123 | however the workers' messages interleave, the main thread receives each message of each worker exactly once, and nothing else |
| LottieWorker.WorkerFrames | src/lottie-worker.js:7-8 | a worker handed a path sends frames for its own indices, in order; one handed none sends no frame |
| LottieWorker.FrameIndicesOfRun | src/lottie-worker.js:31-46 | the frame messages of one worker carry exactly its indices, in order, and `done` carries none |
| LottieWorker.StartWorker | src/lottie-worker.js:7-46 | a worker fails exactly when it has no path, and then posts nothing; otherwise it runs the worker body, and the frames it posts are those `WorkerFrames` names |
| LottieToVideo.SourceFps | src/lottie-to-video.js:52 | the source rate is the integer within half a unit of the frames per second, the duration kept at a microsecond at least, and is never negative |
| LottieToVideo.OutputFps | src/lottie-to-video.js:52-54 | the rate is the requested `fps`, else the rounded frames-per-second of the animation |
| LottieToVideo.BuildArgs | src/lottie-to-video.js:56-71 | the argument list, with VP9 (`-b:v 0`, CRF) or H.264 (CRF, preset, yuv420p, faststart), the output path last; the rate and CRF read back exactly (same code at lottie-to-video.js:62-77) |
| LottieToVideo.ResolveFfmpegPathAsWritten | src/lottie-to-video.js:73-80 | as written: environment, else bundled path, else a `ReferenceError`, since `spawnSync` is never imported (same at lottie-to-video.js:79-87) |
| LottieToVideo.AsWrittenIgnoresSystemLookup | src/lottie-to-video.js:76-79 | with neither environment nor bundled binary, the code as written fails even when the system has `ffmpeg`, which the corrected lookup finds |
| LottieToVideo.FirstAvailableIsFirstOfTwo | src/lottie-to-video.js:74-75 | of two candidates, the first present one is chosen |
| LottieToVideo.ResolveFfmpegPath | src/lottie-to-video.js:73-80 | corrected: environment, bundled path, system lookup, platform default, in that order |
| LottieToVideo.CorrectedExtendsAsWritten | src/lottie-to-video.js:74-75 | wherever the code as written succeeds, the corrected lookup gives the same binary |
| LottieToVideo.OrdersDifferOnlyBelowOverride | src/lottie-to-video.js:73-80 | the sequential and service lookups agree whenever `FFMPEG_PATH` is set; without it, when both a bundled and a system binary exist, one picks the bundled and the other the system binary |
| LottieToVideo.WriteAllFrames | src/lottie-to-video.js:95-98 | the frame loop writes frame `f` as the `f`-th buffer, `totalFrames` of them (same loop at lottie-to-video.js:105-113) |
| LottieToVideo.OnesTimeline | src/lottie-to-video.js:95-98 | a plan of all ones writes each frame once, in order |
| LottieToVideo.SequentialIsUnitRatioTimeline | src/lottie-to-video.js:95-98 | the sequential render is the resampling plan at ratio 1 |
| LottieToVideo.RenderSequential | src/lottie-to-video.js:10-104 | defaults `libx264`, CRF 18 and preset `medium`; the corrected binary; the whole codec segment (`-c:v`, VP9 `-b:v 0` and CRF, or H.264 CRF, preset, `-pix_fmt yuv420p`, `-movflags +faststart`) with the defaults substituted; the encoder input is every frame once, in order (same at lottie-to-video.js:11-119) |
| DecodeOptions.StringsOf | src/decode-options.ts:18-20 | the strings of an array of strings, each element the string it holds |
| DecodeOptions.JsString | src/decode-options.ts:39 | `String(v)` of a string is the string and cannot throw; any other value is converted by the host, which may throw |
| DecodeOptions.ToNumber | src/decode-options.ts:23-34 | a number exactly when the value is a finite number or a string whose conversion is finite, and then that number |
| DecodeOptions.ToStringVal | src/decode-options.ts:36-40 | throws exactly when the value is neither nullish nor a string and its conversion throws; otherwise nothing exactly for `null` and `undefined`, the conversion for anything else, and a string stays as it is |
| DecodeOptions.ToStringArrayVal | src/decode-options.ts:42-57 | an array of strings as it is; a string exactly when it parses as JSON to an array of strings, then that array; nothing for anything else |
| DecodeOptions.Decode | src/decode-options.ts:22-67 | throws exactly when the conversion under `bgColor` or `preset` throws, with `bgColor`'s error first; otherwise an absent key gives an absent field and a string under `bgColor` or `preset` is kept |
| DecodeOptions.FieldsIndependent | src/decode-options.ts:59-66 | when neither body makes the decoder throw, each field depends on its own key alone |
| DecodeOptions.ThrowsOnlyOnStringKeys | src/decode-options.ts:36-40 | whether the decoder throws depends on the `bgColor` and `preset` values alone |
| DecodeOptions.ThrowingColorThrows | src/decode-options.ts:39 | an object under `bgColor` whose conversion throws makes the whole decoder throw with that error |
| DecodeOptions.IgnoresOtherKeys | src/decode-options.ts:22-67 | keys other than the six play no part |
| DecodeOptions.StrItems | src/decode-options.ts:1-8 | a client's argument list is sent as an array of the same strings |
| DecodeOptions.DecodeEncode | src/decode-options.ts:1-67 | a body that a well-typed client sends decodes back to the options it came from, whatever the host conversions do |
| DecodeOptions.EmptyBodyDecodesToNothing | src/decode-options.ts:59-66 | an empty body gives no option |
| DecodeOptions.NumbersAreFinite | src/decode-options.ts:10-12 | no `NaN` or infinity reaches the renderer as a numeric option |
| RenderServer.AtLimitIsBound | src/server.ts:17-21 | the limiter refuses exactly at its integer bound, when there is one; `NaN` and `+Infinity` never refuse |
| RenderServer.ConcurrencyAsWritten | src/server.ts:31 | as written: the limit is `NaN` exactly when `CONCURRENCY` does not convert to a number, and at least 1 otherwise |
| RenderServer.NaNLimitNeverRefuses | src/server.ts:31 | as written: with a non-numeric `CONCURRENCY`, the limiter admits any number of renders |
| RenderServer.Concurrency | src/server.ts:31 | corrected: the limit is always at least 1, and agrees with the code whenever the setting is numeric |
| RenderServer.ConcurrencyIsBounded | src/server.ts:31 | corrected: the limiter has a finite bound of at least 1 unless the setting is `Infinity` |
| RenderServer.BodyFields | src/server.ts:37 | the body's fields when it is an object; none for a missing or non-object body |
| RenderServer.InputOf | src/server.ts:38 | `body.input` is the value under `input`, `undefined` when the body is not an object or lacks the key |
| RenderServer.OutPath | src/server.ts:45 | the output file is `out.mp4` directly inside the job directory |
| RenderServer.Limiter.constructor | src/server.ts:14-16 | a new limiter has no render running |
| RenderServer.Limiter.Try | src/server.ts:17-21 | `try` succeeds exactly when the limit is not reached, and then takes one slot |
| RenderServer.Limiter.Release | src/server.ts:22-24 | `release` gives back one slot, never going below zero |
| RenderServer.RenderService.constructor | src/server.ts:30-32 | the service starts with no job, no job directory and its limiter at the given limit |
| RenderServer.RenderService.Admit | src/server.ts:36-43 | corrected: no truthy `input` gives 400 and takes no slot; a busy limiter gives 429 and takes no slot; otherwise a decoder that throws gives 500 with its error and the slot back, and a decoded body takes one slot for a job holding the input and the options |
| RenderServer.RenderService.AdmitAsWritten | src/server.ts:36-43 | as written: the same 400 and 429, but a decoder that throws after the slot is taken gives 500 and the slot is never given back |
| RenderServer.RenderService.Complete | src/server.ts:44-80 | corrected: the slot is always given back; a failed directory creation or render gives 500 with its message, and a failed render removes the directory; success gives 200 with `out.mp4` in the job directory |
| RenderServer.RenderService.CompleteAsWritten | src/server.ts:44-80 | as written: when the job directory cannot be created, the reply is a 500 but the slot is never given back; once it is created, the replies, the job directories and the slot are those of the corrected lifecycle |
| RenderServer.RenderService.OnStreamClose | src/server.ts:65-71 | any close or error of the reply stream removes the job directory; repeating it changes nothing |
| RenderServer.LeakBlocksService | src/server.ts:41-47 | as written, with a limit of 1: after one failed directory creation, the next request is refused as busy |
| RenderServer.ReleaseServesNextRequest | src/server.ts:78-80 | corrected, with a limit of 1: after the same failure, the next request is admitted |
| RenderServer.ThrowingOptionsBlockService | src/server.ts:41-43 | as written, with a limit of 1: after one body whose options throw, the next request is refused as busy |
| RenderServer.ThrowingOptionsReleaseSlot | src/server.ts:41-43 | corrected, with a limit of 1: after the same body, a well-formed request is admitted |
| RenderServer.NaNLimiterAdmitsAll | src/server.ts:31-32 | as written: a `NaN` limit admits every one of `n` requests in a row |
| RenderServer.UnitLimiterAdmitsOne | src/server.ts:17-21 | with the limit 1, of `n` requests in a row exactly one is admitted |

## Left out

- Rendering itself (the canvas, the Lottie player, the WASM renderer, `bgColor`) is not modelled. A frame is an opaque value `render(i)`.
- Reading the input file, `JSON.stringify` of the input, `toJsonString`, `safeParseMeta` and `safeResolveWasm` are not modelled. The renderers start from the parsed metadata (`LottieMeta`) or the probed player (`Probe`, `Player`).
- Spawning `ffmpeg`, its exit code and the `error` listeners are not modelled. They depend on processes outside the program. Of the workers' `error` and `exit` events, only the failure of a worker that has no path to read is modelled.
- Worker threads run concurrently. The model fixes their interleaving as a schedule over the per-worker message streams, and proves the results for every schedule.
- The promise chain of `writeBuf` and the `drain` wait are not modelled. The model keeps the order in which buffers are handed to the encoder. Backpressure is not represented, and the resampling renderer's `drain` listener does not wait anyway.
- Floating point is not modelled. Frame rates and ratios are exact reals. `Number(s)`, `String(v)` and `JSON.parse` are uninterpreted host functions; the type error `String(v)` can throw is a `Failure` of the host function. The non-finite values of a division are tracked (`JsNumber`).
- An error thrown out of the `/render` handler is answered by the HTTP framework's default error reply. The model gives it as a 500 carrying the error message.
- Numeric options are integers in the renderers (`crf`, `threads`, `workers`, `fps`, `gop`). A fractional `crf` would print as a decimal, and that text is not modelled. Widths, heights and frame counts are taken to be integers too: `LottieMeta.w`/`h`, the options' `width`/`height`, and `Probe`/`Player.totalFrames`. The source reads them from untyped JSON (`Math.max(0, meta.w ?? 0)` at src/render-lottie.ts:49-50, over the `JSON.parse` result of :213-215), so a fractional size such as 512.5 is possible there and is not modelled.
- Temporary file names (`Date.now()`, `Math.random()`), `safeUnlink`, `TMP_ROOT` and the `onClose` hook are not modelled. A job directory is a parameter of `Complete`.
- The HTTP framework, CORS, `/health`, the headers on the video reply and the `listen` call are not modelled. The reply carries only status, error text and output path.
- `src/index.js` and `src/server.js` are not part of this model.
- The resampling renderer's `resolveFfmpegPath` (src/lottie-to-video-parallel.js:171-178) has the same order as the service renderer's, and is modelled by `RenderLottie.ResolveFfmpegPath`.
- The resampling renderer's `totalOut` and `uniqueToRender` are computed and never used. Only their relation to the plan is stated (`PlanSum`, `SrcListCount`).
- LottieToVideoParallel.SparseSequencer.Flush: the `while` loop over the store runs on the buffer's values, which are then written back to the object's fields. The write loop does not update the fields one at a time.
- LottieToVideoParallel.RenderParallel: the corrected hand-off gives each worker a path it can read (`dataPath`, a parameter). Where that file comes from (the input path, or a temporary file holding `dataStr` as the service renderer writes one) is not modelled.
- The renderers feed the reorder buffers with `WorkerFrames`, the frames a started worker posts. `StartWorker`'s contract ties that function to the worker's message trace; the methods `StartWorker` and `RunWorker` are not called from the renderers.
- RenderLottie.RenderFrames merges the chunks themselves. The service renderer hands every worker its path (src/render-lottie.ts:98), so each worker's frames are its chunk (`WorkerFrames`).
- LottieWorker.Merge: it is not proved that each worker's own order is kept in the merged order, nor that every interleaving arises from some schedule. Only the multiset of arrivals is stated, which is what the reorder buffers need.
- The sequential renderers take any `outPath`, including a missing one; the model's `outPath` is a string.
- When the animation fails to load, the player never fires `load` and the renderers wait forever. This is not modelled.

## Findings

| source | as written | input that shows it | evidently intended | confidence | as-written member | corrected member |
|---|---|---|---|---|---|---|
| src/lottie-to-video.js:77 | `spawnSync` is called but only `spawn` is imported (line 6), so the system lookup throws a `ReferenceError`; the same at lottie-to-video.js:84 | `FFMPEG_PATH` unset and `ffmpeg-static` giving no path, with `ffmpeg` on the system path | fall back to the system `ffmpeg`, then to the platform default | not executed | LottieToVideo.ResolveFfmpegPathAsWritten | LottieToVideo.ResolveFfmpegPath |
| src/server.ts:44 | the job directory is created after the slot is taken but before the `try` whose `finally` releases it, so a failing `mkdtemp` loses the slot for good | `CONCURRENCY` unset (limit 1), one request whose `mkdtemp` fails (a full or read-only temporary directory), then any request | every admitted request gives its slot back | not executed | RenderServer.RenderService.CompleteAsWritten | RenderServer.RenderService.Complete |
| src/lottie-to-video-parallel.js:122 | the workers are handed `{ dataStr, ... }`, but the worker reads `dataPath` (src/lottie-worker.js:7-8), so `readFile(undefined)` throws in every worker before any frame is posted, and the render rejects | any render with an output path and at least one worker | the worker receives a path it can read (or reads `dataStr` itself) | not executed | LottieToVideoParallel.RenderParallelAsWritten | LottieToVideoParallel.RenderParallel |
| src/server.ts:43 | the options are decoded after the slot is taken and before the `try` whose `finally` releases it; `String(v)` throws for an object whose `toString` is not callable, so the slot is lost for good | `CONCURRENCY` unset (limit 1), the body `{"input":"x","bgColor":{"toString":1}}`, then any request | decode inside the guarded block, so the slot is given back | not executed | RenderServer.RenderService.AdmitAsWritten | RenderServer.RenderService.Admit |
| src/server.ts:31 | `Math.max(1, Number(CONCURRENCY))` is `NaN` for a non-numeric setting, and `running >= NaN` is always false, so the limiter admits everything | `CONCURRENCY=two`, then any number of simultaneous requests | fall back to a limit of at least 1 | not executed | RenderServer.ConcurrencyAsWritten | RenderServer.Concurrency |
