# Real-time sleep staging: a Dafny model

This project models the sequential core of a real-time sleep-staging client. The client is made of three parts:

- **A replay data server** (`dataserver.py`). It serves a five-channel EEG/EOG/EMG recording in fixed-width chunks as if the chunks arrived live. A late call loses samples.
- **The acquisition loop of the TMR demo** (`demo_tmr.py`). Each iteration does four things:
  - it pushes the newest chunk into a 60-second running window;
  - it waits until the window is full;
  - it sends the window to the remote scoring service at most once per scoring period, cancelling a request that overran;
  - it logs every result, and plays an audio cue for confident deep sleep (NREM 3), at most once per refractory period.
- **The offline epoch pass of the basic demo** (`demo_basic.py`). It cuts the recording into overlapping 60-second windows at 30-second strides and scores each one. It builds the `auto_scores` list, buckets confidences into Low/Medium/High, and counts agreement with an expert after mapping Unknown to Wake.

Wall-clock time is an integer number of milliseconds passed to each operation. What the scoring futures report (`done()`, `result()`) is passed in as an observation. A reply of the scoring service is an abstract `Response` value.

Modules:

- `Stages` (stages.dfy): stage codes, the `[stage, confidence]` pair, and the reply-to-stage mapping of `process_and_stage`.
- `Replay` (replay.dfy): the `DataServer` class, proved against a pure specification `ReadAt` of one `read_buffer` call, plus lemmas about runs of calls.
- `SlidingWindow` (sliding_window.dfy): the running window as values, and what any sequence of chunks leaves in it.
- `StagingDispatch` (dispatch.dfy): the scoring dispatcher as a pure transition, with its invariant.
- `Feedback` (feedback.dfy): the refractory cue gate.
- `Realtime` (realtime.dfy): the acquisition loop as a `StagingLoop` class. The window is an `array2<real>` shifted in place, and each `Step` method is proved against the pure modules.
- `EpochPass` (epoch_pass.dfy): the offline pass.
- `Arith` (arith.dfy) and `Wrappers` (wrappers.dfy): shared helpers.

Behaviours of the code worth knowing:

- **End of stream.** `read_buffer` tests `location + buffer_samples >= total_samples`. So when `buffer_samples` divides the recording length, the last full chunk is never served. A punctual replay yields `ChunkCount(total, B) = (total-1) div B` chunks.
- **Position can pass the end.** A late call adds its skip to `current_location` before the end-of-stream test, so the stored position can exceed `total_samples`. It is bounded only when a chunk is returned.
- **Strict comparisons.** The dispatcher schedules only when strictly more than the scoring period has passed, and the cue gate likewise needs strictly more than the refractory period.
- **The result log can have gaps.** A request that completes after the poll at demo_tmr.py:280 but before the deadline check at demo_tmr.py:290 is replaced without its result ever being logged. So each request yields at most one log row, and some yield none.
- **A buffer shorter than 4 ms stalls.** `buffer_samples` is `floor(buffer_size*256/1000)`, which is 0 when `buffer_size < 4`. The position then never leaves 0, every call takes the first-call branch at dataserver.py:48-56 and serves an empty chunk, and the stream never ends, so demo_tmr.py never leaves warm-up. The lemmas about runs of calls assume `buffer_samples > 0`.

## Model

| member | source | states |
|---|---|---|
| Stages.StageName | demo_basic.py:49-56 | `stage_keys` is defined exactly on the codes 0, 1, 2, 3, 5, 9, and every name is non-empty |
| Stages.StageNamesDistinct | demo_basic.py:49-56 | two known codes have the same display name iff they are the same code |
| Stages.ProcessAndStage | demo_tmr.py:152-170 | a reply with HTTP 200 and status ≠ 0 yields its `message` unchanged; a transport exception, any other HTTP status, or status 0 yields `[9, 10]` |
| Stages.SentinelExactlyOnFailure | demo_tmr.py:152-170 | a result other than `[9, 10]` can only come from a successful reply and is that reply's message; the result is `[9, 10]` iff the call failed or the service itself answered `[9, 10]` |
| Replay.BufferSamples | dataserver.py:42 | `buffer_samples` is `floor(buffer_size*256/1000)`: the largest `b` with `b*1000 <= buffer_size*256` |
| Replay.ReadAt | dataserver.py:47-75 | one `read_buffer` call: the position never decreases, and a call waits only when it is realistic and returns a chunk |
| Replay.Skip | dataserver.py:58-61 | a call within `buffer_size` ms skips nothing; a late call skips `floor((delta - buffer_size) * rate / 1000)` samples, only the overshoot |
| Replay.ReadStep | dataserver.py:47-75 | after one call: a returned chunk lies strictly inside the recording, starts at or after the old position and moves the position to its end, and resets the anchor; `None` leaves the anchor alone and happens only when the next chunk would reach the end; the position never decreases |
| Replay.FirstCall | dataserver.py:48-56 | the first call waits for nothing and does no lateness check; it returns columns `[0, B)` iff `B < total_samples`, then sits at `B` with the anchor at `now` |
| Replay.LaterCall | dataserver.py:58-72 | a later call moves the position by the skip plus `B` when it returns a chunk; it returns a chunk iff `loc + skip + B < total`; the chunk starts at the post-skip position; a punctual call starts at the old position; the wait is `buffer_size - delta` exactly when a chunk is returned to a realistic call made less than `buffer_size` ms after the anchor, and 0 otherwise |
| Replay.ShortBufferStalls | dataserver.py:42-56 | with `buffer_size < 4` every call at position 0 serves an empty chunk at 0 and stays at position 0 |
| Replay.EndOfStreamIsFinal | dataserver.py:58-65 | once a call returns `None`, the next call returns `None` too, whenever it is made |
| Replay.ChunkCountSpec | dataserver.py:63-68 | `k < ChunkCount(total, B)` iff `k*B + B < total`: the number of chunks a punctual replay serves |
| Replay.PunctualCall | dataserver.py:58-68 | a punctual call at position `k*B` returns the chunk at `k*B` iff `k` is below the chunk count, and then moves to `(k+1)*B` |
| Replay.PunctualFrom | dataserver.py:48-68 | with no late call, a run from `k*B` returns the chunks at `k*B, (k+1)*B, …` up to the chunk count, then only `None` |
| Replay.NoneForever | dataserver.py:58-65 | in any run, once one call returns `None`, every later call returns `None` |
| Replay.PunctualReplay | dataserver.py:48-68 | a punctual replay from a fresh server returns chunks at `0, B, 2B, …` and stops at the first `k` with `k*B + B >= total` |
| Replay.Chunk | dataserver.py:67 | `data[:, start:start+B]` has five rows of exactly `B` samples |
| Replay.JoinedIsPrefix | dataserver.py:54-68 | the chunks `0, B, …, (n-1)B` of a channel, joined in order, are the channel's first `n*B` samples |
| Replay.DataServer.constructor | dataserver.py:40-44 | the server starts at position 0 with no anchor; `buffer_samples` is fixed at `floor(buffer_size*256/1000)` |
| Replay.DataServer.ReadBuffer | dataserver.py:47-75 | one call moves the server exactly as `ReadAt` specifies and returns that chunk of the data (or `None`) and the realistic wait; the position never decreases, stays within the recording when a chunk is returned, and the anchor is kept on `None` |
| SlidingWindow.ShiftIn | demo_tmr.py:250-251 | ingesting a chunk no wider than the window keeps five rows of exactly `length` samples |
| SlidingWindow.ShiftInColumns | demo_tmr.py:250-251 | new columns `[0, length-w)` are the old columns `[w, length)`, and columns `[length-w, length)` are the chunk |
| SlidingWindow.ShiftInIsTail | demo_tmr.py:250-251 | each new row is the last `length` samples of the old row followed by the chunk's row |
| SlidingWindow.Stream | demo_tmr.py:245-246 | a channel's stream is as long as the sum of all chunk widths (`samples_read`) |
| SlidingWindow.IngestAllIsTail | demo_tmr.py:245-251 | after any sequence of chunks, each row is the last `length` samples of the initial row followed by that channel's stream, in arrival order |
| SlidingWindow.WindowIsStreamTail | demo_tmr.py:245-251 | once chunks totalling at least `length` have arrived, the window holds exactly the stream's last `length` samples; with exactly `length`, it is their concatenation |
| SlidingWindow.IngestOneMore | demo_tmr.py:245-251 | ingesting one more chunk is one more shift, and adds its width to the total |
| StagingDispatch.ScheduleFirst | demo_tmr.py:270-278 | the first post-warm-up iteration leaves a request to inspect; once one exists nothing changes; the log and `stage` are untouched |
| StagingDispatch.Poll | demo_tmr.py:280-286 | polling keeps the number of requests, `last_staging_request_time` and `t_stage`, and adds at most the newest result to the log |
| StagingDispatch.Resolve | demo_tmr.py:288-299 | resolving the newest request past the deadline keeps the number of requests |
| StagingDispatch.Deadline | demo_tmr.py:288-310 | a new request is appended iff more than a scoring period has passed since the last one, and otherwise nothing changes; the log only grows, by at most one row |
| StagingDispatch.Dispatch | demo_tmr.py:270-310 | one post-warm-up iteration never removes a request or a log row and always leaves a request in flight or resolved |
| StagingDispatch.IdleInv | demo_tmr.py:228-230 | the initial state (`responses = []`, `stage = [9, 10]`, empty log) satisfies the dispatcher invariant |
| StagingDispatch.SettledAppend | demo_tmr.py:288-308 | appending a request after the newest one was resolved keeps every earlier request resolved |
| StagingDispatch.SpacedAfterResolve | demo_tmr.py:288-308 | resolving keeps the send times, so a request sent more than a period later keeps all requests spaced more than a period apart |
| StagingDispatch.ScheduleFirstKeepsInv | demo_tmr.py:270-278 | scheduling the first request keeps the invariant and leaves a request to inspect |
| StagingDispatch.PollKeepsInv | demo_tmr.py:280-286 | logging a finished result once, guarded by `last_call_success`, keeps the invariant |
| StagingDispatch.ResolveAccounts | demo_tmr.py:288-299 | past the deadline the newest request is scored, cancelled with a `[9, 10]` row, or lost, and no longer pending; earlier requests and its send time are unchanged; the log still accounts for every request |
| StagingDispatch.DeadlineKeepsInv | demo_tmr.py:288-310 | the deadline branch (cancel, log, reschedule) keeps the invariant |
| StagingDispatch.DispatchKeepsInv | demo_tmr.py:270-310 | every post-warm-up iteration keeps the invariant, whatever the futures report: the log is what the requests account for, only the newest request is in flight, sends are more than a period apart, `stage` is the newest row or `[9, 10]`, and every logged code is a key |
| StagingDispatch.DispatchStep | demo_tmr.py:270-310 | a request is scheduled iff there is none yet or more than a scoring period has passed; it carries the current window and `t_stage` and resets the anchor; otherwise anchor and `t_stage` stay; the log only grows, by at most one row; resolved requests never change |
| StagingDispatch.AtMostOneRowPerRequest | demo_tmr.py:280-297 | the log is never longer than the list of requests |
| StagingDispatch.RowOrigin | demo_tmr.py:280-297 | every log row carries the `t_stage` of a request that was either scored with that row's result or cancelled with a `[9, 10]` row |
| StagingDispatch.LateCompletionIsNeverLogged | demo_tmr.py:280-292 | a request that completes between the poll and the deadline check is superseded with nothing logged |
| Feedback.CueGate | demo_tmr.py:314 | a cue never fires on the `[9, 10]` sentinel |
| Feedback.Cues | demo_tmr.py:314-318 | the cue times of a sequence of iterations are some of those iterations' times, at most one per iteration |
| Feedback.CuesSpaced | demo_tmr.py:314-318 | cues fire more than the refractory period after the starting anchor and more than that period apart |
| Feedback.RefractoryScenario | demo_tmr.py:314-318 | deep sleep at confidence 4.5 seen at 0 s, 2 s and 6 s fires at 0 s and 6 s only |
| Feedback.CueNeedsScoredResult | demo_tmr.py:229-318 | a cue needs the newest log row to be the current stage, and some request to have been scored with that stage |
| Realtime.Zeros | demo_tmr.py:194-196 | the initial window is five rows of `length` zeros |
| Realtime.StagingLoop.constructor | demo_tmr.py:187-232 | the loop starts with a zero window of `60*rate` columns, nothing read, an idle dispatcher and `last_played` at start-up |
| Realtime.StagingLoop.Snapshot | demo_tmr.py:277-278 | the payload copied for a request is exactly the window's five rows |
| Realtime.StagingLoop.Step | demo_tmr.py:237-318 | one iteration: the chunk is appended to the history, its width to `samples_read`, and it is shifted into the window. During warm-up nothing is scheduled, logged or played. Afterwards the dispatcher moves exactly as `Dispatch` specifies, and the cue fires iff the gate opens, which restarts the refractory period. All invariants are kept |
| Realtime.StagingLoop.Absorb | demo_tmr.py:245-251 | counting and shifting in a chunk keeps the window equal to the zero window after all chunks so far |
| Realtime.StagingLoop.ScoreAndCue | demo_tmr.py:270-318 | after warm-up, the dispatcher moves as `Dispatch` specifies and then the cue gate is evaluated on the new stage |
| Realtime.StagingLoop.ScoreWindow | demo_tmr.py:270-310 | the three dispatcher phases together move the state as `Dispatch` specifies and keep its invariant |
| Realtime.StagingLoop.ScheduleFirstRequest | demo_tmr.py:270-278 | the first post-warm-up iteration sends the window, as `ScheduleFirst` specifies |
| Realtime.StagingLoop.PollNewest | demo_tmr.py:280-286 | the newest result is logged as `Poll` specifies |
| Realtime.StagingLoop.CheckDeadline | demo_tmr.py:288-310 | cancel-or-keep then reschedule, as `Deadline` specifies |
| Realtime.StagingLoop.PlayCue | demo_tmr.py:314-318 | the cue fires iff `CueGate` holds; `last_played` changes only then; cue times stay more than the refractory period apart |
| Realtime.StagingLoop.Ingest | demo_tmr.py:250-251 | the in-place shift of all five rows leaves the array equal to `ShiftIn` of the old window |
| Realtime.StagingLoop.ShiftRow | demo_tmr.py:250-251 | the forward copy moves columns `[w, L)` to `[0, L-w)` and writes the chunk into `[L-w, L)`; other rows are untouched |
| EpochPass.TotalEpochs | demo_basic.py:109-110 | `total_epochs` is the largest `n` with `n * 30 * rate <= samples` |
| EpochPass.WindowStart | demo_basic.py:144 | window `i` starts one epoch before epoch `i`, so the first window starts at 0 |
| EpochPass.StartStep | demo_basic.py:142-144 | consecutive windows start one epoch apart |
| EpochPass.WindowEnd | demo_basic.py:144 | a window ends two epochs after it starts |
| EpochPass.WindowsTile | demo_basic.py:142-144 | for `1 <= i < total_epochs` the window holds exactly `60*rate` samples, lies inside the recording, and its second half starts the next window |
| EpochPass.EpochWindow | demo_basic.py:144 | the window has five rows of exactly `60*rate` samples |
| EpochPass.WindowsOverlap | demo_basic.py:142-144 | the second half of window `i` equals the first half of window `i+1`, sample by sample |
| EpochPass.Bucket | demo_basic.py:186-191 | Low iff `c < 2`, Medium iff `2 <= c < 4`, High iff `c >= 4`: disjoint and exhaustive |
| EpochPass.BucketMonotone | demo_basic.py:186-191 | a higher confidence never falls into a lower bucket |
| EpochPass.Report | demo_basic.py:183-193 | the printed stage name is never empty, and the confidence is High iff at least 4 and Low iff below 2 |
| EpochPass.AutoScores | demo_basic.py:136-182 | `auto_scores` starts with 9 and holds one stage code per scored epoch |
| EpochPass.ScoreEpochs | demo_basic.py:136-193 | the pass completes iff every reply's code is a key. It then yields `AutoScores(replies, total_epochs)` and one correct report per epoch. Otherwise it stops with `KeyError` at the first unknown code, that code already appended |
| EpochPass.Remapped | demo_basic.py:213-215 | every 9 becomes 0, nothing else changes, and no 9 remains |
| EpochPass.RemapUnknown | demo_basic.py:214-215 | the in-place array remap leaves the array equal to `Remapped` of its old contents |
| EpochPass.RemapIdempotent | demo_basic.py:214-215 | remapping twice is remapping once |
| EpochPass.RemapAgreement | demo_basic.py:213-217 | after the remap two scores agree iff they agreed before or both were Wake or Unknown |
| EpochPass.Agreements | demo_basic.py:217 | the number of agreeing positions among the first `n` is at most `n` |
| EpochPass.AgreementsCount | demo_basic.py:217 | the agreement count is the size of the set of agreeing indices, at most `n` |
| EpochPass.AgreementsFull | demo_basic.py:217 | full agreement iff the two prefixes are equal |
| EpochPass.AccuracyNumerator | demo_basic.py:217 | the accuracy numerator never exceeds `total_epochs` |
| EpochPass.AccuracyNumeratorCounts | demo_basic.py:213-217 | the numerator counts the epochs where the auto and expert scores agree, Unknown counting as Wake |
| EpochPass.StageAsWritten | demo_basic.py:156-180 | as written, an epoch with an HTTP reply takes the same stage as `process_and_stage`; a transport error ends in `[9, 10]` only when the stale `response` happens to lead there |
| EpochPass.TransportErrorFallsThrough | demo_basic.py:156-183 | as written, a transport error never yields a real stage, and yields `[9, 10]` only when `response` still holds a non-200 reply or a token reply with `status == 0`: after a scored epoch it raises `AttributeError` on the parsed body, and on the first epoch a token reply without `status`, or with a non-zero one, raises a lookup error |

## Left out

- plotter.py and the plot updates (demo_tmr.py:256-265, 320-330): user-interface telemetry with no effect on staging.
- HTTP and the authorization token: every reply of the scoring service is an abstract `Response`. The token request is modelled only as the reply a failed first epoch falls back on (`EpochPass.Stale`).
- EDF reading and CFS encoding (`pyedflib`, `stream_data`): foreign libraries. The recording is a sequence of rows, and a request carries the raw window.
- The process pool and pebble's own `timeout=` handling: futures are `Request` values whose completion is reported by an `Observation` per iteration.
- Real time: `time()` and `sleep` become an integer `now` in milliseconds, one per `Step`, although the source reads the clock several times per iteration. The realistic sleep is returned as a wait, not performed.
- Floating-point outputs: `t_now` and `t_stage` are kept as the sample count `samples_read`, not seconds. The latency, the accuracy percentage and Cohen's kappa are not modelled. The accuracy numerator is.
- Audio playback and CSV output: a cue is the `true` result of `Step`, and the scores stay in memory.
- The driver loop (demo_tmr.py:237-243) is not composed with `Step`. It calls `read_buffer` and stops at `None`. `Step`'s observation precondition depends on the loop state, so a run cannot be fixed in advance. `Replay` and `Realtime` are proved separately.
- The sampling rate is a natural number. The source takes it from the EDF header, and `60*sampling_rate` must be an integer for the window to exist at all.
- Realtime.StagingLoop.Step: requires the chunk to be no wider than the window. A wider chunk makes the slice assignment at demo_tmr.py:250 fail, and that failure is not modelled.
- Realtime.StagingLoop.Step: requires a completed result's code to be a key of `stage_keys`. The source raises `KeyError` at demo_tmr.py:283 otherwise, and the model does not carry that crash.
- Realtime.StagingLoop.Step: requires that a future seen done stays done (`Consistent`), as pebble futures do.
- EpochPass.ScoreEpochs: takes one reply per epoch as input. The corrected mapping `Stages.ProcessAndStage` is applied to each reply, not the fall-through written at demo_basic.py:156-161 (see Findings).
- EpochPass.AccuracyNumerator: requires `auto_scores` to have `total_epochs` entries and the expert file to have at least `total_epochs`. With `total_epochs = 0` the source compares arrays of different lengths and divides by zero. With a shorter expert file the comparison at demo_basic.py:217 fails, except that a file with exactly one score is broadcast against every epoch. None of these is modelled.
- Realtime.StagingLoop.Snapshot: copies the window when a request is scheduled, and the request keeps that copy. The source passes `executor.schedule` views of `running_window` (demo_tmr.py:277, 307), not copies. The pool serializes them in its own thread, which can run after the next in-place shift at demo_tmr.py:250-251, so the request could carry a window that is partly newer. The model assumes the arguments are serialized before the next shift.

## Findings

| source | as written | input that shows it | evidently intended | confidence | as-written member | corrected member |
|---|---|---|---|---|---|---|
| demo_basic.py:156-180 | the `except` branch sets `stage = [9, 10]` and falls through to `response.status_code` at line 170, which reads the `response` left from an earlier iteration | a transport error on an epoch after a successful one: `response` is then the parsed JSON dictionary and `.status_code` raises `AttributeError`. A transport error on the first scored epoch reaches the token reply of line 72: with no `status` key line 175 raises `KeyError`, and with a non-zero one line 183 looks the first character of its text `message` up in `stage_keys` and fails | a transport error gives `[9, 10]` and the iteration continues, as `process_and_stage` in demo_tmr.py:152-156 does | high, not executed | EpochPass.StageAsWritten, EpochPass.TransportErrorFallsThrough | Stages.ProcessAndStage, Stages.SentinelExactlyOnFailure |
