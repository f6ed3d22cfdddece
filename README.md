# spectro: the Spectrogram control logic in Dafny

`spectro` turns a stream of mono PCM audio into a spectrogram. A
`Spectrogram` object is a writable stream. It buffers incoming samples and
cuts them into windows of `wSize` samples, spaced
`wSize - ceil(overlap * wSize)` apart. It hands each window to an idle
worker process and collects the spectra the workers send back in an array
indexed by window number. It emits `data` for each spectrum and `end` once
no window can be cut and every slot of the result array is filled.
Static helpers flatten a finished spectrogram, find its extreme amplitudes,
and clip it in place to an interquartile fence.

This project models that control logic and proves properties of it:

- `options.dfy` (`Options`) covers option merging (`__defaults`), the
  constructor's validation, and the overlap arithmetic.
- `pcm.dfy` (`Pcm`) covers the little-endian two's-complement decoding of
  binary chunks into samples.
- `scheduler.dfy` (`Scheduler`) is a state machine over the object's
  fields. It covers `__process`, `_write`, the `readyForData` handler bound
  by `start`, `stop` and `clear`. Jobs sent to workers and the `data`/`end`
  emissions go into an event log, and an invariant is proved for every
  reachable state.
- `spectrogram.dfy` (`Spectro`) is the `Spectrogram` class itself, with
  the source's fields (`idleWorkers`, `data`, `wData`, `wShift`, `wIdx`,
  `startTime`, `execTime`). Its imperative methods are proved to move the
  fields exactly as the state machine does.
- `scenarios.dfy` (`Scenarios`) holds concrete runs that pin down the
  boundary arithmetic and the completion rule.
- `aggregate.dfy` (`Aggregate`) covers `__reduce`, `__extrema`,
  `maxApplitude`, `minApplitude` and `filterIQR`. `filterIQR` is an
  in-place method over an array of arrays.
- `wrappers.dfy` (`Wrappers`) holds `Option` and `Result`.

Wall-clock readings (`new Date().getTime()`) are a `now` parameter. The
processor count (`os.cpus().length`) is a `cpus` parameter. The JS result
array is a map from index to spectrum plus its `length`, which is one more
than the highest index stored, or 0.

### Behaviour the model keeps as the code has it

- The test for "enough data" is strict: `wShift + wSize < wData.length`
  (spectro.js:101). A window is cut only when at least one sample lies
  beyond it. With `wSize` 128 and no overlap, 256 samples give one window,
  not two (`Scenarios.ExactlyTwoWindowsOfDataGiveOne`).
- Completion is judged against the result array's `length`
  (spectro.js:124-134), not against the number of windows sent. If the
  answer for window 0 arrives while windows 1 and 2 are still out and no
  window can be cut, `end` is emitted with one spectrum. A later answer
  emits `end` again (`Scenarios.EndBeforeAllWindowsAnswered`).
- `clear` (spectro.js:230-238) resets neither `wShift`, `wIdx` nor
  `execTime`. The next window after a clear is cut at the old shift and
  carries the old index (`Scheduler.ClearKeepsCursor`).
- With an overlap close to 1 the step `wSize - ceil(overlap * wSize)` is
  0. Every idle worker then gets the same window
  (`Options.StepCanBeZero`, `Scenarios.ZeroStepRepeatsTheWindow`).

## Model

| member | source | states |
|---|---|---|
| Options.Merged | spectro.js:281-287 | every key the caller gave keeps the caller's value; every other default key gets the default; no other key appears; a missing options object is an empty one |
| Options.MergeDefaults | spectro.js:281-287 | the for-in loop over the default keys produces exactly the merged options |
| Options.DefaultKeysListed | spectro.js:264-271 | the iteration order of the constructor defaults lists exactly their keys |
| Options.ConstructorDefaults | spectro.js:264-271 | the defaults; characterised by `Options.DefaultsDescribe` and `Options.DefaultKeysListed` |
| Options.WindowFunctionOf | spectro.js:48-49 | a name is accepted iff it is one of the listed window functions, and the result's name is the given one |
| Options.WindowFunctionNameRoundTrip | spectro.js:249-257 | each window function is found again by its name |
| Options.BitAnd | spectro.js:46 | JS `&` on non-negative integers, bit by bit; characterised by `Options.PowerOfTwoTest` and `Options.BitAndSelf` |
| Options.WindowSizeAcceptedAsWritten | spectro.js:46 | the size check as written, on the integer truncations `&` takes; `Options.NonIntegralWindowSizeAccepted` shows it accepts 128.5 |
| Options.PowerOfTwoTest | spectro.js:46 | for n >= 1, `(n & (n - 1)) == 0` holds iff n is a power of two |
| Options.BitAndSelf | spectro.js:46 | a power of two and its predecessor share no bit |
| Options.WindowSizeValid | spectro.js:46-47 | the corrected window-size test that `Options.Validate` applies; characterised by `Options.WindowSizeValidMeans` |
| Options.WindowSizeValidMeans | spectro.js:46-47 | a valid window size is an integral power of two between 128 and 4096 |
| Options.NonIntegralWindowSizeAccepted | spectro.js:46 | 128.5 passes the size check as written, although it is not a valid window size |
| Options.Validate | spectro.js:42-53 | the checks run in the source's order and the first that fails decides the error: each of the six errors is reported iff every check before it passes and its own fails; success iff all pass, carrying the given values and satisfying the configuration invariant (the window-size check is the corrected one, see Findings) |
| Options.ValidateOptionsOf | spectro.js:34-53 | every valid configuration written back as options validates to itself |
| Options.MergedWithoutOptions | spectro.js:282-286 | with no options object the merge gives exactly the defaults |
| Options.DefaultsDescribe | spectro.js:264-271 | the defaults are 16 bits, mono, 1024 samples, Hamming, no overlap and one worker per processor |
| Options.NoWorkersFailsLast | spectro.js:42-53 | with the default values and fewer than one worker, every check passes up to the last, which throws for too few workers |
| Options.DefaultsValidate | spectro.js:30-53 | with no options and at least one processor, the defaults give 16 bits, mono, 1024, Hamming, no overlap, one worker per processor; with no processor, the constructor throws for too few workers |
| Options.OverlapSamples | spectro.js:118 | the overlap in samples is the ceiling of overlap * wSize and never exceeds wSize |
| Options.Step | spectro.js:118 | the shift per window never exceeds wSize and equals wSize without overlap |
| Options.StepCanBeZero | spectro.js:118 | an overlap of 0.999 on 128 samples makes the step 0 |
| Options.HalfOverlapStep | spectro.js:118 | half overlap on 128 samples gives a step of 64 |
| Pcm.Unsigned | spectro.js:163 | a little-endian unsigned value of k bytes is below 256^k |
| Pcm.UnsignedRoundTrip | spectro.js:163 | encoding a value below 256^k into k bytes and decoding it gives it back |
| Pcm.BytesRoundTrip | spectro.js:163 | decoding bytes and re-encoding the value gives the same bytes |
| Pcm.SignedLE | spectro.js:163 | a k-byte two's-complement sample lies in [-2^(8k-1), 2^(8k-1)) |
| Pcm.SignedRoundTrip | spectro.js:163 | every sample in range survives encoding then decoding |
| Pcm.SignedBytesRoundTrip | spectro.js:163 | every k-byte group survives decoding then encoding |
| Pcm.BytesPerSample | spectro.js:160 | the divisor is 1, 2 or 4, and is the bit depth over 8 for 8, 16 and 32 bits |
| Pcm.DecodeSamples | spectro.js:158-163 | the whole samples of a chunk are as many as fit in its length and no more |
| Pcm.Remainder | spectro.js:162 | the bytes left over after the whole samples: whole samples times the width plus the remainder is the chunk length, and the remainder is below the width |
| Pcm.ReadCount | spectro.js:162-163 | the loop bound `chunk.length / divisor` admits exactly the whole samples plus one more read when bytes are left over, and that read runs past the end exactly then |
| Pcm.SamplesRoundTrip | spectro.js:158-163 | a chunk made of encoded samples decodes to exactly those samples with nothing left over |
| Scheduler.Initial | spectro.js:56-72 | the fields the constructor sets up; `Scheduler.InitialInv` states that they satisfy the invariant |
| Scheduler.CanCut | spectro.js:101 | the strict enough-data test; `Scheduler.DrainDispatches` states that dispatching stops only when it fails or no worker is idle, and `Scenarios.ExactlyTwoWindowsOfDataGiveOne` that 256 samples give one 128-window |
| Scheduler.Started | spectro.js:156 | the start time is set only when unset; stated by the first `ensures` of `Scheduler.WriteEffect` |
| Scheduler.Dispatch | spectro.js:105-118 | one pop, send, index and shift step; characterised by `Scheduler.DrainDispatches` and `Scheduler.DispatchInv` |
| Scheduler.Drain | spectro.js:101-121 | the recursive dispatching of `__process`; characterised by `Scheduler.DrainDispatches`, `Scheduler.DrainInv` and `Scheduler.WindowsByIndex` |
| Scheduler.Finish | spectro.js:122-144 | the completion branch; characterised by `Scheduler.ProcessEmits` |
| Scheduler.Process | spectro.js:99-145 | `__process`; characterised by `Scheduler.ProcessEmits`, `Scheduler.NoIdleWorkerNoChange` and `Scheduler.ProcessInv` |
| Scheduler.Write | spectro.js:154-176 | `_write`; characterised by `Scheduler.WriteEffect` and `Scheduler.WriteInv` |
| Scheduler.Store | spectro.js:193-199 | storing a result; characterised by `Scheduler.StoreInv`, `Scheduler.StoreCommutes` and `Scheduler.ReceiveEffect` |
| Scheduler.Receive | spectro.js:188-206 | the message handler; characterised by `Scheduler.ReceiveEffect` and `Scheduler.ReceiveInv` |
| Scheduler.Stop | spectro.js:214-225 | `stop` on the fields; `Spectro.Spectrogram.Stop` states that only the idle stack is emptied |
| Scheduler.Clear | spectro.js:230-238 | `clear` on the fields; characterised by `Spectro.Spectrogram.Clear` and `Scheduler.ClearKeepsCursor` |
| Scheduler.DrainDispatches | spectro.js:101-120 | one `__process` call sends windows to the idle workers from the top of the stack. The k-th job carries index next+k and the samples from shift + k*step, wSize long. Next and shift advance by the count; no other field changes. It stops only when no worker is idle or no window can be cut |
| Scheduler.NoIdleWorkerNoChange | spectro.js:105-106 | with a cuttable window but no idle worker, nothing changes |
| Scheduler.ProcessEmits | spectro.js:99-145 | after the jobs, at most one `end` follows. It is emitted iff no window can be cut and the result array is non-empty with every index below its length filled. It carries the array, and the elapsed time is recorded with it |
| Scheduler.JobIndicesAppend | spectro.js:111-116 | the job indices of a concatenated log are those of its parts, concatenated |
| Scheduler.InitialInv | spectro.js:56-72 | the fresh object satisfies the invariant: shift = next * step, job k carries index k, the length matches the table, and every `end` carries a complete table |
| Scheduler.DispatchInv | spectro.js:105-118 | one dispatch keeps the invariant |
| Scheduler.DrainInv | spectro.js:101-120 | a run of dispatches keeps the invariant |
| Scheduler.JobIndicesOfOther | spectro.js:139 | `data` and `end` events contribute no job index |
| Scheduler.ProcessInv | spectro.js:99-145 | `__process` keeps the invariant |
| Scheduler.WriteInv | spectro.js:154-176 | `_write` keeps the invariant on every chunk shape and outcome |
| Scheduler.StoreInv | spectro.js:193-199 | storing a worker's result keeps the invariant |
| Scheduler.ReceiveInv | spectro.js:188-206 | every worker message keeps the invariant |
| Scheduler.RunInv | spectro.js:99-238 | any sequence of writes, messages, stops and clears keeps the invariant |
| Scheduler.ReachableInv | spectro.js:30-238 | every state reachable from construction satisfies the invariant |
| Scheduler.WindowsByIndex | spectro.js:108-118 | given the invariant, every job one `__process` call sends is tied to its own index i: its window is the wSize samples starting at i*step |
| Scheduler.WriteEffect | spectro.js:154-176 | the start time is set only if unset. A non-object chunk is rejected and changes nothing else. An array or object chunk appends its values. A binary chunk appends its whole samples; it throws iff bytes are left over, and then dispatches nothing. Every accepted write then runs `__process` once on the appended state: the new jobs are those the dispatches from that state send, at most one event follows them, and apart from the log and the execution time the result is the drained state. The table, its length and the earlier log are kept |
| Scheduler.ReceiveEffect | spectro.js:188-206 | an error or other status changes nothing. `readyForData` stores its result, if any, and pushes the worker onto the idle stack. A result is stored at its index, the length becomes the larger of the old length and index + 1, and `data` is the first new event. Then `__process` runs once on the pushed state: the new jobs are those the dispatches from that state send, at most one event follows them, and apart from the log and the execution time the result is the drained state |
| Scheduler.StoreCommutes | spectro.js:194 | results for different windows give the same table in either arrival order |
| Scheduler.ClearKeepsCursor | spectro.js:230-238 | after `clear`, a write and a freed worker, the first job carries the old window index and the samples at the old shift |
| Scenarios.ExactlyTwoWindowsOfDataGiveOne | spectro.js:101 | any 256 samples with window 128 and no overlap give one window, not two |
| Scenarios.OneMoreSampleGivesTwo | spectro.js:101 | any 257 samples give both windows, at 0 and 128 |
| Scenarios.HalfOverlapGivesTwoWindows | spectro.js:101-118 | half overlap over any 256 samples cuts windows at 0 and 64 only |
| Scenarios.ZeroStepRepeatsTheWindow | spectro.js:101-120 | with step 0 each of three idle workers gets the window at 0, with indices 0, 1 and 2 |
| Scenarios.ThreeIdleIs | spectro.js:191-201 | three `readyForData` messages without a result, with nothing to cut, only push the workers onto the idle stack in arrival order |
| Scenarios.ThreeInFlightIs | spectro.js:99-201 | three workers report in and 385 samples arrive: the workers get windows 0, 1 and 2 at 0, 128 and 256, last-registered first, and the shift ends at 384 |
| Scenarios.ThreeInFlightInv | spectro.js:99-201 | that state is reachable and so keeps the invariant |
| Scenarios.EndBeforeAllWindowsAnswered | spectro.js:124-139 | in that state the answer for window 0 already triggers `end` with one spectrum while windows 1 and 2 are still out; the answer for window 1 triggers it again |
| Scenarios.OutOfOrderAnswers | spectro.js:193-201 | in that state, answers for windows 1 and then 0 fill the table by index: no `end` after the first, `end` with both after the second |
| Spectro.Spectrogram.constructor | spectro.js:30-72 | a new object over a valid configuration is in the initial state |
| Spectro.Spectrogram.AllPackagesProcessed | spectro.js:127-133 | the scan reports true iff every index below the array's length is filled |
| Spectro.Spectrogram.Process | spectro.js:99-145 | the loop of dispatches and the completion check move the fields exactly as `__process` does, keeping the invariant |
| Spectro.Spectrogram.PushDecoded | spectro.js:158-163 | the reader loop appends the whole samples and throws iff bytes are left over |
| Spectro.Spectrogram.PushAll | spectro.js:164-169 | the push loop appends the items in order |
| Spectro.Spectrogram.Write | spectro.js:154-176 | `_write` moves the fields and ends as the state machine says, keeping the invariant |
| Spectro.Spectrogram.OnMessage | spectro.js:188-206 | the message handler moves the fields as the state machine says, keeping the invariant |
| Spectro.Spectrogram.Stop | spectro.js:214-225 | the idle stack is emptied and nothing else changes |
| Spectro.Spectrogram.Clear | spectro.js:230-238 | the idle stack, start time, results and samples are reset; the shift, window index and execution time are kept |
| Spectro.New | spectro.js:30-53 | construction succeeds iff the merged options validate, with the validated configuration in the initial state; otherwise it fails with the validation error |
| Aggregate.Flatten | spectro.js:296-298 | `__reduce`; characterised by `Aggregate.FlattenEntries` and `Aggregate.FlattenCounts` |
| Aggregate.FlattenCounts | spectro.js:296-298 | the flattened array has as many entries as all rows together, and holds every row's entries with their repeats |
| Aggregate.FlattenHasEntries | spectro.js:296-298 | every entry of every row is in the flattened array |
| Aggregate.FlattenOnlyEntries | spectro.js:296-298 | everything in the flattened array is an entry of some row |
| Aggregate.FlattenEmpty | spectro.js:296-298 | the flattened array is empty iff every row is |
| Aggregate.FlattenEntries | spectro.js:296-298 | the flattened spectrogram holds exactly the entries of its rows, and is empty iff every row is |
| Aggregate.Pick | spectro.js:310-313 | the reducer callback; characterised by `Aggregate.Fold` |
| Aggregate.Fold | spectro.js:310-313 | the reduction returns its start or an element, bounding all the others from above (max) or below (min) |
| Aggregate.Extrema | spectro.js:308-314 | an element that bounds the whole array; none for an empty array, on which `reduce` throws |
| Aggregate.MaxAmplitude | spectro.js:323-325 | an entry of the spectrogram no entry exceeds; none iff it has no entries |
| Aggregate.MinAmplitude | spectro.js:334-336 | an entry of the spectrogram no entry is below; none iff it has no entries |
| Aggregate.TwoByTwoExtrema | spectro.js:323-336 | on [[1, 4], [-2, 3]] the maximum is 4 and the minimum -2 |
| Aggregate.Insert | spectro.js:377 | insertion adds exactly one occurrence of the value |
| Aggregate.InsertBound | spectro.js:377 | a lower bound of the value and the list bounds the insertion |
| Aggregate.InsertSorted | spectro.js:377 | inserting into a sorted list keeps it sorted |
| Aggregate.SortedCopy | spectro.js:376-377 | the numeric sort gives an ascending permutation of the values |
| Aggregate.QuartileIndices | spectro.js:384-386 | for four or more values, floor(n/4) <= ceil(3n/4) < n |
| Aggregate.IqrFences | spectro.js:376-391 | with fewer than four values there are no usable bounds. Otherwise the bounds are q1 - 1.5 iqr and q3 + 1.5 iqr, with q1 and q3 the sorted values at floor(n/4) and ceil(3n/4); lo <= q1 <= q3 <= hi |
| Aggregate.Clip | spectro.js:395-396 | the two assignments put the entry inside the bounds, keep it when strictly inside, and set it to the bound it reached otherwise |
| Aggregate.ClipIdempotent | spectro.js:395-396 | clipping a clipped entry changes nothing |
| Aggregate.ClipRow | spectro.js:394-397 | every entry of the row is clipped in place |
| Aggregate.FilterIQR | spectro.js:374-399 | every entry of every row is replaced by its clipped old value, with bounds from all the old entries. With fewer than four entries nothing changes. Shared rows are allowed |

## Left out

- The worker processes, `cluster.fork`, `send`, `disconnect` and `kill` are left out as process management. The model keeps only their effect on the idle stack and the `processData` messages recorded as jobs. `stop` keeps only the emptied idle stack.
- `spectro.worker.js` is not part of this model: the window functions and the DCT are floating-point numerics in an outside library. A worker's result is an opaque sequence of reals.
- `start` is left out beyond its message handler. It forks as many workers as configured and binds handlers, which has no effect on the modelled fields. Idle workers arrive through `readyForData` messages.
- The `buffer-reader` library is an outside dependency whose source is not part of this model. That its readers `nextInt8LE`, `nextInt16LE` and `nextInt32LE` exist and are signed little-endian reads is an assumption; a read past the end is taken to throw. If the library names its 8-bit reader otherwise, an 8-bit binary chunk would throw on its first read, which the model does not capture.
- `colorize` builds a colour scale through the chroma library and is left out.
- `EventEmitter` and `stream.Writable` plumbing is left out. Emissions are recorded in an event log. The `end` event carries a copy of the table, while JS passes a reference that later writes can still change.
- Options come as numbers or strings. JS coercion of strings, `undefined` or `NaN` in the numeric checks is left out; the model rejects a non-number.
- Options.Validate: applies the corrected window-size test (an integral power of two from 128 to 4096), not the one at spectro.js:46, because the validated configuration keeps its window size as a whole number. The as-written test is `Options.WindowSizeAcceptedAsWritten`, under Findings.
- Options.Merged: JS `__defaults` writes the defaults into the caller's own options object. The model returns a new map and does not capture that aliasing.
- The `typeof callback === 'function'` test is left out. The callback's argument is the write's `Outcome`. The rejection at spectro.js:171 calls `callback` without that test, so a primitive chunk written without a callback throws a TypeError in JS; the model still returns `Rejected` for it.
- Floating-point rounding is left out. Samples, overlaps and amplitudes are exact reals, and `Math.ceil(overlap * wSize)` is the exact ceiling.
- Aggregate.IqrFences: with fewer than four values the JS bounds are NaN. The model returns none, and `FilterIQR` leaves every entry unchanged, which is what comparisons with NaN do.
- Amplitudes are taken to be finite reals. A worker computes `20 * log10(|c|)` (spectro.worker.js:107), which is `-Infinity` for a zero coefficient; the extrema, the sort and the bounds of `filterIQR` are not modelled on such entries.
- A `data` event's payload is the very array stored in the result table (spectro.js:194-197), so a listener that writes into it also rewrites the stored spectrum. In the model spectra are immutable values, so that aliasing is not captured.
- Each event handler runs to completion as one step. `emit` calls listeners synchronously, so a `data` listener could call `stop` or `clear` between storing a result (spectro.js:195) and pushing the worker and processing (spectro.js:200-201); the model does not capture that interleaving.
- The files under `example/` are usage demonstrations and are left out.

## Findings

| source | as written | input that shows it | evidently intended | confidence | as-written member | corrected member |
|---|---|---|---|---|---|---|
| spectro.js:46 | the window size check uses `<`, `>` and `(w & (w - 1)) == 0`; JS `&` truncates both operands to integers | `wSize: 128.5` passes: 128 & 127 is 0 | only integral powers of two from 128 to 4096 are accepted | not executed | Options.NonIntegralWindowSizeAccepted (over Options.WindowSizeAcceptedAsWritten) | Options.WindowSizeValidMeans (over Options.WindowSizeValid, used by Options.Validate) |
