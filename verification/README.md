# RF monitoring platform: a verified model

The platform watches the radio spectrum. A C++ agent drives receivers, records and replays spectra; a Python
ingest service fans frames out to browsers; a Python processor stores, matches and explains detections; browser code
retunes the receiver and draws. This project models the state machines and kernels between which data can get lost,
repeated or mixed up, and proves what they promise over all inputs and all runs.

| file | models |
|---|---|
| `UpdateScheduler.dfy` | debounced updates whose responses arrive in any order |
| `ViewportController.dfy`, `ViewportDecisions.dfy`, `ViewportConvergence.dfy` | the browser's retune protocol, what it decides when, and which viewport it comes to rest on |
| `FrequencyAxis.dfy`, `Timestamps.dfy`, `MockRetune.dfy` | frames, their timestamps and 64-bit axis test, and a retune from request to recognised frame |
| `Chunking.dfy`, `ContextBudget.dfy`, `PromptText.dfy` | document chunks with overlap; context records packed into a prompt, and its text |
| `Envelope.dfy`, `Downsample.dfy`, `AudioResampler.dfy` | drawing, thinning and resampling kernels |
| `ReferenceMatch.dfy`, `BluetoothAgreement.dfy`, `MatchingOrder.dfy` | greedy matching of devices against baselines, what makes a device agree with one, and when the order of the devices decides it |
| `NdjsonFraming.dfy`, `AaroniaSource.dfy`, `AaroniaCalls.dfy` | line reassembly, the supervisor of the receiver process, and what each of its calls leaves behind |
| `ReplaySource.dfy`, `RecordingFormat.dfy`, `RecordingChecks.dfy`, `RecordingStore.dfy`, `RecordingLeftovers.dfy`, `RecordAndReplay.dfy`, `RecordingRuns.dfy` | recordings, from the writer's system calls to the frames played back, and runs of the writer that cannot be |
| `IngestFanout.dfy` | drop-oldest queues for many clients |
| `Base64Url.dfy`, `Pagination.dfy` | cursors and keyset pages |
| `Prelude.dfy` | shared vocabulary and division facts |

## How it is modelled

Components that change state step by step have two forms. A pure step function over a state value says what one step
does, and the whole-run theorems are about its runs. A class with the source's fields has one method per source method,
written with the source's assignments and loops, and each method's contract equates the object's new state with the step
function of the old one. Bookkeeping that the source does not have (histories, tallies) is ghost or clearly separate and
is what the theorems compare the counters with. Loops over arrays and texts are methods proved against recursive
definitions, about which the properties are then proved.

What the environment decides is a parameter or an event: the order of responses, timeouts becoming due, a worker
exiting, how many bytes a read returns, whether a system call succeeds, where the process stops.

## What turned out not to hold

Each of these is proved: an input that shows it, and the exact condition under which the promise does hold.

- A retune that the agent accepts and serves may never be recognised by the browser, because the truncated step loses
  span mod (points − 1): condition `MockRetune.CoveredIff`, input `MockRetune.NarrowZoomIsNeverRecognised`.
- An accepted retune with less than 1 Hz per interval stops the mock source: `MockRetune.AcceptedRetuneIsServedIff`,
  `MockRetune.AcceptedRequestCanStopSource`.
- A refused retune can move the source, and a good one can be refused because of the old span:
  `MockRetune.ConfigureExactly`, `MockRetune.RefusedRequestMovesSource`, `MockRetune.OldSpanRefusesLowBand`.
- The browser can come to rest on a viewport other than the newest: for each call
  `ViewportConvergence.ScheduleOutcomeIff`, `ViewportConvergence.BeginOutcomeIff`, `ViewportConvergence.EndOutcomeIff` and
  `ViewportConvergence.AbortOutcomeIff`, input `ViewportConvergence.NewestViewportCanLose`; over runs of calls that meet
  their conditions `ViewportConvergence.NewestViewportWins`.
- Calling the update scheduler's `flush` directly leaves a timeout behind that breaks a positive debounce time:
  `UpdateScheduler.KeepsDebouncingIff`, `UpdateScheduler.DirectFlushKeepsDebounceIff`, input
  `UpdateScheduler.ForgottenTimeoutIsReachable`.
- The prompt can exceed its cap when there is no source left to drop: `ContextBudget.CapGuaranteedIff` before any record
  is known, `ContextBudget.PayloadMeetsCapIff` for given records, `ContextBudget.ExcessBounded` for how much, input
  `ContextBudget.CapCanBeExceeded`.
- The Aaronia source accepts a viewport whose stop wraps around in 64 bits: `AaroniaSource.AcceptedBandIff`,
  `AaroniaSource.WrappedBandIsAccepted`.
- Three failing workers before the first valid frame lose the unique session suffix: `AaroniaSource.SessionUniqueIff`,
  `AaroniaSource.SessionCanBeLost`.
- Lines read from the worker depend on how its output is cut once a rest exceeds 8 MiB:
  `NdjsonFraming.CuttingIrrelevantIff`, `NdjsonFraming.OverlongLineDependsOnCut`.
- `recordings` can list a hidden staging directory: `RecordingStore.ListedIff`, `RecordingRuns.StagingDirectoryIsListed`.
- A published recording can be impossible to load: condition `RecordAndReplay.ListedLoadsIff`, inputs
  `RecordingRuns.UnflushedIsPublished` (a failing close that goes unnoticed) and `RecordingRuns.TornIsPublished` (a last
  append that fails inside its line).
- A recording loses device model, mode and attributes, and an attribute called `gain_db` makes a frame unreadable:
  `RecordingFormat.RestoredExactlyIff`, `RecordingFormat.FrameReadsBack`, `RecordingRuns.SampleLosesModel`,
  `RecordingRuns.SampleBecomesUnreadable`.
- Matched, missing and ignored baselines need not add up: for given devices `ReferenceMatch.CountsAddUpIff`, for all
  devices `ReferenceMatch.CountsAlwaysAddUpIff`, by protocol `ReferenceMatch.WifiCountsAlwaysAddUpIff` and
  `ReferenceMatch.BluetoothCountsAlwaysAddUpIff`, input `ReferenceMatch.SharedIdentityIsHidden`.
- The order of Bluetooth devices can decide who is matched: `MatchingOrder.OrderIrrelevantIff`, input
  `MatchingOrder.OrderDecidesBluetooth`.

Where documentation and code disagree the model follows the code: `recordings/README.md:57-59` promises a `.partial`
directory and a flush to disk before the checksum, while `rf-agent/src/recording_writer.cpp:90` uses `.<id>.tmp` and
nothing is synchronised to disk; the comment at `python-processor/app/assistant.py:329-335` promises that records are
never cut, which the trimming of single fields above it does.

## Model

| member | source | states |
|---|---|---|
| `UpdateScheduler.ReachableInv` | python-processor/static/demod-passband.js:249-288 | over every interleaving of schedule, flush, due timeouts and responses: the counters count the requests, the newest success is the one applied, nothing is sent that was not scheduled |
| `UpdateScheduler.StepKeepsInv` | python-processor/static/demod-passband.js:262-288 | each step keeps those invariants |
| `UpdateScheduler.SafetyOfEveryRun` | python-processor/static/demod-passband.js:268-288 | in flight = dispatched − settled; applied numbers strictly increase; sent payloads are a subsequence of scheduled ones; the applied payload is that of the highest-numbered success |
| `UpdateScheduler.OutcomeDependsOnSuccessesOnly` | python-processor/static/demod-passband.js:276-284 | two runs with the same requests and the same set of successes end showing the same payload |
| `UpdateScheduler.ArrivalOrderIrrelevant` | python-processor/static/demod-passband.js:276-287 | delivering the same responses in another order gives the same counters, unsettled requests and applied request |
| `UpdateScheduler.QuiescentShowsLastScheduled` | python-processor/static/demod-passband.js:262-280 | once nothing is pending the last request sent is the last payload scheduled, and it is shown if it succeeded |
| `UpdateScheduler.PendingIsSent` | python-processor/static/demod-passband.js:262-266 | a waiting payload always has a live timeout whose firing sends exactly it |
| `UpdateScheduler.ResponseVisibleIff` | python-processor/static/demod-passband.js:276-284 | a response, good or bad, reaches the page exactly when no newer request has succeeded |
| `UpdateScheduler.DebounceHonouredAlongRun` | python-processor/static/demod-passband.js:262-266 | over every run without a direct flush, every payload that a timeout sends has rested for the debounce time since the last schedule |
| `UpdateScheduler.KeepsDebouncingIff` | python-processor/static/demod-passband.js:259-288 | from every reachable state that promise holds for every run without a direct flush exactly if there is no debounce time, or the page holds no timeout but the remembered one |
| `UpdateScheduler.DirectFlushKeepsDebounceIff` | python-processor/static/demod-passband.js:268-270 | after a direct flush in any reachable state it holds exactly if there is no debounce time, or the page held no timeout at all |
| `UpdateScheduler.ForgottenTimeoutSendsEarly` | python-processor/static/demod-passband.js:263-273 | what a forgotten timeout does: a later payload is sent with no rest at all |
| `UpdateScheduler.ForgottenTimeoutIsReachable` | python-processor/static/demod-passband.js:262-273 | schedule and then flush reach a state in which the promise is broken, for every positive debounce time, and which a second flush does not mend |
| `UpdateScheduler.Scheduler.Schedule` | python-processor/static/demod-passband.js:262-266 | the method is the Schedule step |
| `UpdateScheduler.Scheduler.Flush` | python-processor/static/demod-passband.js:268-276 | the part before the await is the Flush step, and returns what is handed to send |
| `UpdateScheduler.Scheduler.Fire` | python-processor/static/demod-passband.js:265-276 | a due timeout runs flush |
| `UpdateScheduler.Scheduler.Settle` | python-processor/static/demod-passband.js:277-287 | the part after the await is the Settle step; the stale flag is "a newer request was applied" |
| `ViewportController.ReachableInv` | python-processor/static/viewport-controller.js:38-224 | in every reachable state: an armed timeout implies support, no interaction, nothing in flight and a viewport not equivalent to the last requested one; a queued viewport implies a request in flight; sends − settlements is 0 or 1; the waited-for request is older than the one in flight |
| `ViewportController.StepKeepsInv` | python-processor/static/viewport-controller.js:73-218 | each method, timeout and response keeps those invariants |
| `ViewportController.EveryTimeoutSendsOneRequest` | python-processor/static/viewport-controller.js:113-117 | a timeout that fires sends exactly one request, for the viewport it was armed with, numbered after all earlier ones and stamped with the time and the active source: none of the guards of _dispatch can stop it |
| `ViewportController.OnlyTheRequestInFlightSettles` | python-processor/static/viewport-controller.js:200-202 | the identity check at the head of _settleRequest never fails |
| `ViewportController.SupersededResponseIsNeverAwaited` | python-processor/static/viewport-controller.js:203-217 | a response becomes the waited-for one exactly if it succeeded and no different viewport is queued |
| `ViewportController.OverlapIsOrdered` | python-processor/static/viewport-controller.js:191-216 | a request may be waited for while another is in flight, and then it is the older one |
| `ViewportController.ConsecutiveRequestsDiffer` | python-processor/static/viewport-controller.js:110-198 | no two consecutive requests are equivalent under the (not transitive) tolerance test |
| `ViewportController.MatchesAreOrdered` | python-processor/static/viewport-controller.js:134-217 | over every run: only accepted requests are matched, each once and in order, and the one waited for is newer than all matched ones |
| `ViewportController.WaitEndsIff` | python-processor/static/viewport-controller.js:138-152 | a frame ends the wait exactly if it was measured later than the request, comes from the source active at the request (when one was known), is not the frame seen before, and covers the viewport with enough points |
| `ViewportController.MatchedFramesAreNew` | python-processor/static/viewport-controller.js:134-157 | over every run: each frame that ended a wait is later than its request, comes from its source, and is not the frame seen before it |
| `ViewportController.NormalizeTwice` | python-processor/static/viewport-controller.js:27-36 | normalising a normalised viewport throws exactly if its centre or span rounded to zero |
| `ViewportController.NormalizeRounds` | python-processor/static/viewport-controller.js:27-36 | centre and span become the nearest whole numbers, a half goes up; the mode is one of the two known ones |
| `ViewportController.TargetPoints` | python-processor/static/viewport-controller.js:128-132 | at least 2 points, at most the rounded maximum of the source, and that maximum unless the canvas resolution and the configured minimum are met with less; never more than these call for |
| `ViewportDecisions.CloseIff` | python-processor/static/viewport-controller.js:159-166 | two viewports count as one exactly if centres and spans differ by less than the absolute threshold or the given share of either span |
| `ViewportDecisions.ScheduleDecides` | python-processor/static/viewport-controller.js:101-118 | in every reachable state: a viewport is armed exactly if the source can be retuned, no drag or request is under way and it is not close to the one asked for last, and is then the only one; it is queued exactly behind a request; nothing else changes |
| `ViewportDecisions.PhaseTells` | python-processor/static/viewport-controller.js:73-218 | over every run: what the phase says about requests, waits and timeouts |
| `ViewportDecisions.CancelClears` | python-processor/static/viewport-controller.js:120-126 | cancelling leaves no timeout, pending or queued viewport, and an idle page exactly if nothing is under way |
| `ViewportDecisions.LosingControlCancels` | python-processor/static/viewport-controller.js:73-76 | capabilities without retuning cancel what was pending, others cancel nothing |
| `ViewportDecisions.WidthIsStored` | python-processor/static/viewport-controller.js:78-80 | a width counts exactly if finite and positive |
| `ViewportController.Controller.SetCapabilities` | python-processor/static/viewport-controller.js:73-76 | the method is its step |
| `ViewportController.Controller.SetCanvasPhysicalWidth` | python-processor/static/viewport-controller.js:78-80 | only a finite positive width is stored |
| `ViewportController.Controller.BeginInteraction` | python-processor/static/viewport-controller.js:87-93 | the method is its step: the timeout is cleared, the pending viewport kept |
| `ViewportController.Controller.EndInteraction` | python-processor/static/viewport-controller.js:95-99 | the method is its step; it throws exactly for an invalid viewport, or a pending one that rounded to zero |
| `ViewportController.Controller.Schedule` | python-processor/static/viewport-controller.js:101-118 | the method is its step; true exactly if a timeout was armed; throws on an invalid viewport |
| `ViewportController.Controller.CancelPending` | python-processor/static/viewport-controller.js:120-126 | the method is its step |
| `ViewportController.Controller.Fire` | python-processor/static/viewport-controller.js:113-116 | the timeout callback clears the timer and dispatches |
| `ViewportController.Controller.SettleRequest` | python-processor/static/viewport-controller.js:200-218 | the method is its step |
| `ViewportController.Controller.ObserveFrame` | python-processor/static/viewport-controller.js:134-157 | the method is its step; true exactly if the page was waiting and the frame is new and reaches across the viewport, as written out in WaitEndsIff |
| `ViewportConvergence.DestinationKept` | python-processor/static/viewport-controller.js:101-218 | without a drag, timeouts, responses and frames never change which viewport the page is heading for |
| `ViewportConvergence.LandingIsReached` | python-processor/static/viewport-controller.js:87-218 | if every possible destination shows a viewport, that stays so along every continuation, and once it is quiet the last request is equivalent to it |
| `ViewportConvergence.CanComeToRest` | python-processor/static/viewport-controller.js:110-218 | an undragged page can always become quiet with its requests succeeding, and then its destination is what it requested last |
| `ViewportConvergence.ComesToShowIff` | python-processor/static/viewport-controller.js:87-218 | every continuation without further calls that becomes quiet shows the viewport exactly if every destination does |
| `ViewportConvergence.ScheduleOutcomeIff` | python-processor/static/viewport-controller.js:101-118 | after schedule every continuation that comes to rest shows the viewport handed in exactly under a condition on the state before the call, whether or not requests fail |
| `ViewportConvergence.EndOutcomeIff` | python-processor/static/viewport-controller.js:95-118 | the same for a drag that ends with a viewport |
| `ViewportConvergence.BeginOutcomeIff` | python-processor/static/viewport-controller.js:87-118 | the same for the beginning of a drag, which clears the timeout: every continuation that comes to rest shows a viewport exactly if the pending and the queued one lead to it |
| `ViewportConvergence.AbortOutcomeIff` | python-processor/static/viewport-controller.js:95-99 | the same for a drag that ends with an invalid viewport: what is under way must lead to it |
| `ViewportConvergence.NewestIsLastHandedIn` | python-processor/static/viewport-controller.js:95-126 | the newest viewport is the one last handed in by a call and not cancelled, although the pending one can be another |
| `ViewportConvergence.StepStaysOnCourse` | python-processor/static/viewport-controller.js:73-218 | every step but an unsafe call keeps the page heading for the newest viewport |
| `ViewportConvergence.NewestViewportWins` | python-processor/static/viewport-controller.js:73-218 | over every run whose calls are safe when made, the quiet page has last requested a viewport equivalent to the newest one handed in |
| `ViewportConvergence.StaleTimeoutWins` | python-processor/static/viewport-controller.js:103-115 | the failing family: scheduling the last requested viewport while another is armed lets the stale timeout win |
| `ViewportConvergence.NewestViewportCanLose` | python-processor/static/viewport-controller.js:101-118 | a concrete run with the default settings in which the page comes to rest on another viewport than the newest |
| `ViewportConvergence.QueuedViewportReturnsDuringDrag` | python-processor/static/viewport-controller.js:203-208 | a viewport scheduled during a drag is overwritten by an older queued one when the request in flight settles |
| `ViewportConvergence.RoundedToZeroIsDropped` | python-processor/static/viewport-controller.js:203-209 | a queued viewport that rounded to zero throws on re-scheduling and is dropped |
| `ViewportConvergence.FailedViewportIsNotRetried` | python-processor/static/viewport-controller.js:110-212 | after an error only a viewport that the tolerance test tells from the failed one is sent |
| `FrequencyAxis.AxisTestIsExact` | rf-agent/src/models.cpp:96-103 | the overflow-guarded 64-bit test accepts exactly the axes with start + step·(n−1) = stop as unbounded integers |
| `FrequencyAxis.NoPointWraps` | rf-agent/src/models.cpp:174-176 | on an accepted axis no point frequency wraps; they lie between start and stop, the last one is stop |
| `FrequencyAxis.ValidateSpectrumFrame` | rf-agent/src/models.cpp:85-122 | no diagnostic exactly for a well-formed frame, stated in unbounded arithmetic |
| `FrequencyAxis.ValidateAxis` | rf-agent/src/models.cpp:91-107 | the axis diagnostics |
| `Timestamps.ValidTimestampIff` | rf-agent/src/models.cpp:14-49 | the strings accepted are exactly the written forms of a date that exists from 1970 on, a time with a possible leap second, up to nine decimals and a zone of less than 24 hours |
| `Timestamps.ValidDateIff` | rf-agent/src/models.cpp:33-41 | a day exists exactly if it is one of the days of that month, with the Gregorian leap years |
| `Timestamps.MonthsMakeAYear` | rf-agent/src/models.cpp:33-41 | the months add up to 365 or 366 days |
| `MockRetune.SetCenterKeepsSpan` | rf-agent/src/mock_rf_source.cpp:86-96 | setCenterFrequency keeps the span and moves the centre exactly, in 64-bit arithmetic |
| `MockRetune.SetSpanKeepsCenter` | rf-agent/src/mock_rf_source.cpp:112-122 | setSpan keeps the centre exactly and its result does not wrap |
| `MockRetune.SetCenterStaysInitializedIff` | rf-agent/src/mock_rf_source.cpp:86-96 | the only way a setter spoils the axis: exactly when the new stop wraps around |
| `MockRetune.SettersKeepAxisSound` | rf-agent/src/mock_rf_source.cpp:86-148 | after any setter calls with centres within 24 GHz the axis is sound, and frames are valid exactly if span ≥ points − 1 |
| `MockRetune.SettingTakesEffect` | rf-agent/src/mock_rf_source.cpp:86-129 | which values each setter accepts, and what exactly it then changes |
| `MockRetune.ConfigureExactly` | rf-agent/src/agent.cpp:281-297 | a request is accepted exactly in these ranges and then has the requested centre and span; a refused one has moved the source exactly if its centre was accepted and differs |
| `MockRetune.OldSpanRefusesLowBand` | rf-agent/src/agent.cpp:294-295 | a request that is fine in itself is refused because of the span in force before |
| `MockRetune.RefusedRequestMovesSource` | rf-agent/src/agent.cpp:294-296 | a refused request that changed the configuration |
| `MockRetune.AnnouncedAxisIsEmitted` | rf-agent/src/http_server.cpp:180-194 | an accepted request is answered with exactly the axis of the frames that follow |
| `MockRetune.RouteAcceptsIff` | rf-agent/src/http_server.cpp:160-194 | the route accepts exactly those ranges, cut to the greatest number of points |
| `MockRetune.FrameValidIff` | rf-agent/src/mock_rf_source.cpp:142-153 | the frame passes its own validation exactly if there is a hertz per interval; the centre then lies in the truncated range |
| `MockRetune.AxisValidIff` | rf-agent/src/models.cpp:91-107 | the mock tests its axis as the frame validator does |
| `MockRetune.ReadCounts` | rf-agent/src/mock_rf_source.cpp:131-153 | a frame is counted and takes a number; a running source without one stops in error |
| `MockRetune.AcceptedRetuneIsServedIff` | rf-agent/src/mock_rf_source.cpp:131-153 | after an accepted request every later frame has the announced axis and consecutive numbers, or none ever follows; which one is decided by span ≥ points − 1 |
| `MockRetune.AcceptedRequestCanStopSource` | rf-agent/src/http_server.cpp:180-194 | an accepted request that puts the source into its error state |
| `MockRetune.CoveredIff` | python-processor/static/viewport-controller.js:146-152 | for every setting of the tolerances the frame covers the request exactly if span mod (points − 1) stays within the tolerance, with half a hertz more for an odd span whose own half hertz the tolerance must cover |
| `MockRetune.WideSpansAreCovered` | python-processor/static/viewport-controller.js:148-152 | no remainder matters once the tolerance reaches points − 2 hertz |
| `MockRetune.HundredHertzPerInterval` | python-processor/static/viewport-controller.js:148-152 | with the default settings span ≥ 100·(points − 2) is always enough |
| `MockRetune.NarrowZoomIsNeverRecognised` | python-processor/static/viewport-controller.js:146-152 | 100 kHz with 2048 points is accepted and served but never recognised |
| `MockRetune.NextFrameMatchesIff` | python-processor/static/viewport-controller.js:143-152 | for every setting, active source and frame seen before, the frame after an accepted request matches it exactly if the remainder fits the tolerance and the frame is later than the request, from its source, and not the one seen before |
| `MockRetune.RetuneCompletesIff` | python-processor/static/viewport-controller.js:134-157 | end to end through route, source and controller, for every setting: the next frame ends the wait exactly if the remainder fits the tolerance and the frame is new in that sense |
| `MockRetune.MockRfSource.Initialize` | rf-agent/src/mock_rf_source.cpp:31-52 | succeeds exactly for a sound axis and resets the counters |
| `MockRetune.MockRfSource.Start` | rf-agent/src/mock_rf_source.cpp:54-63 | only from ready or stopped |
| `MockRetune.MockRfSource.Stop` | rf-agent/src/mock_rf_source.cpp:65-71 | only from running or ready |
| `MockRetune.MockRfSource.SetCenterFrequency` | rf-agent/src/mock_rf_source.cpp:86-96 | the method is the setter |
| `MockRetune.MockRfSource.SetSpanHz` | rf-agent/src/mock_rf_source.cpp:112-122 | the method is the setter |
| `MockRetune.MockRfSource.SetSpectrumPointCount` | rf-agent/src/mock_rf_source.cpp:124-129 | the method is the setter |
| `MockRetune.MockRfSource.ConfigureViewport` | rf-agent/src/agent.cpp:281-297 | the three setters in order, stopping at the first refusal |
| `MockRetune.MockRfSource.ReadSpectrumFrame` | rf-agent/src/mock_rf_source.cpp:131-153 | the frame has the axis of the configuration and the next sequence number |
| `Chunking.ChunkText` | python-processor/app/rag.py:71-94 | errors for empty content and for an invalid configuration; otherwise the chunks of the normalised text; terminates |
| `Chunking.WhitespaceIs` | python-processor/app/rag.py:72 | the characters that stripping removes |
| `Chunking.UnifyTogether` | python-processor/app/rag.py:72 | newlines are unified piece by piece: a text may be cut anywhere but inside a CR LF pair |
| `Chunking.UnifyPieces` | python-processor/app/rag.py:72 | CR LF and CR become LF, every other character stays |
| `Chunking.UnifiedHasNoReturns` | python-processor/app/rag.py:72 | no CR is left, and a text without any is unchanged |
| `Chunking.CutWindows` | python-processor/app/rag.py:77-94 | the loop produces exactly the windows of the recursive definition |
| `Chunking.FindEnd` | python-processor/app/rag.py:80-87 | the end of a window |
| `Chunking.WindowEndsAtBoundary` | python-processor/app/rag.py:80-87 | the last window takes all that is left; an inner end lies at the last separator of the second half, or at full length if there is none |
| `Chunking.EndsNeverMoveBack` | python-processor/app/rag.py:80-93 | although the end is searched backwards, window ends never move back |
| `Chunking.WindowsTile` | python-processor/app/rag.py:78-93 | the windows cover the text without gaps, each within the size limit, and overlap by exactly the amount asked for, or by all but one character of a shorter window |
| `Chunking.EveryPositionInAWindow` | python-processor/app/rag.py:78-93 | every position lies in a window |
| `Chunking.WindowCount` | python-processor/app/rag.py:78-93 | with an overlap below half a window the number of windows is linear in the text |
| `Chunking.ChunkShape` | python-processor/app/rag.py:88-90 | chunks are non-blank pieces of the text, within the limit, without whitespace at their ends |
| `Chunking.EveryVisibleCharacterIsInAChunk` | python-processor/app/rag.py:78-94 | every character that is not whitespace is part of a chunk, at its place |
| `Chunking.AcceptedContentHasChunks` | python-processor/app/rag.py:72-94 | accepted content yields at least one chunk |
| `Envelope.LowerBound` | python-processor/static/spectrum-view-model.js:3 | the binary search returns the index that separates the values below the target from the others |
| `Envelope.PositionSeparates` | python-processor/static/spectrum-view-model.js:3 | only one index of an ascending array does |
| `Envelope.EdgesIncrease` | python-processor/static/spectrum-view-model.js:9-11 | with at most as many buckets as samples no bucket is empty |
| `Envelope.EdgesSpan` | python-processor/static/spectrum-view-model.js:11 | the buckets start at the first and end at the last sample of the range |
| `Envelope.BucketOf` | python-processor/static/spectrum-view-model.js:10-13 | every sample of the range lies in one bucket, for any pixel count |
| `Envelope.MinMaxEnvelope` | python-processor/static/spectrum-view-model.js:4-19 | the points are exactly the samples drawn, at most two per bucket |
| `Envelope.EveryColumnIsDrawn` | python-processor/static/spectrum-view-model.js:9-17 | there are as many columns as pixels or samples, whichever are fewer, none is empty, and the samples of each are drawn |
| `Envelope.EverySampleIsDrawn` | python-processor/static/spectrum-view-model.js:9-17 | with a pixel for every sample each finite sample is drawn |
| `Envelope.DrawBucket` | python-processor/static/spectrum-view-model.js:12-16 | one bucket contributes its first minimum and first maximum in index order, or nothing if nothing is finite |
| `Envelope.SamplesIncrease` | python-processor/static/spectrum-view-model.js:10-17 | indices strictly increase |
| `Envelope.EnvelopeKeepsExtremes` | python-processor/static/spectrum-view-model.js:4-23 | for any pixel count the envelope contains a minimum of the range and the very index that peakInRange returns |
| `Envelope.PeakInRange` | python-processor/static/spectrum-view-model.js:20-23 | the first greatest finite sample of the range, or null |
| `Envelope.SampleNearest` | python-processor/static/spectrum-view-model.js:24 | the nearest sample of the whole axis, the lower of two as near, NaN exactly outside the axis |
| `Downsample.FactorIsLeast` | rf-agent/src/aaronia_worker_main.cpp:237-238 | the factor is the least that meets the limit, so the output never exceeds it |
| `Downsample.Downsample` | rf-agent/src/aaronia_worker_main.cpp:235-249 | the output has one entry per block, each the finite maximum of its block or −200 |
| `Downsample.PeakOf` | rf-agent/src/aaronia_worker_main.cpp:242-246 | the inner loop |
| `Downsample.GlobalPeakSurvivesIff` | rf-agent/src/aaronia_worker_main.cpp:241-246 | the greatest finite sample is the greatest output exactly if it is at least −200 or no block is blank |
| `AudioResampler.SplitIrrelevant` | rf-agent/src/soapy_rf_source.cpp:241-264 | processing a stream in two blocks gives the samples and the state of one block |
| `AudioResampler.BlocksAreOneStream` | rf-agent/src/soapy_rf_source.cpp:241-264 | the same for any list of blocks |
| `AudioResampler.PcmIs` | rf-agent/src/soapy_rf_source.cpp:256-262 | a mean m at volume v becomes m·v·30000 for AM and m·v·8000 otherwise, cut off at the 16-bit limits and towards zero |
| `AudioResampler.StreamConserved` | rf-agent/src/soapy_rf_source.cpp:251-263 | emitted·S + accumulator = N·R with 0 ≤ accumulator < S |
| `AudioResampler.EmittedCount` | rf-agent/src/soapy_rf_source.cpp:254-262 | hence emitted = ⌊N·R/S⌋ |
| `AudioResampler.StreamWindowed` | rf-agent/src/soapy_rf_source.cpp:251-262 | output k is the mean of exactly the samples of window k of the stream |
| `AudioResampler.WindowLength` | rf-agent/src/soapy_rf_source.cpp:251-260 | every window holds ⌊S/R⌋ or ⌈S/R⌉ samples |
| `AudioResampler.FasterAudioDrifts` | rf-agent/src/soapy_rf_source.cpp:254-255 | with R > S the accumulator grows by R − S per sample |
| `AudioResampler.BoundedAccumulatorIff` | rf-agent/src/soapy_rf_source.cpp:254-255 | the accumulator stays below S on all streams exactly if R ≤ S |
| `AudioResampler.BlockFitsReserve` | rf-agent/src/soapy_rf_source.cpp:239-240 | no block exceeds the capacity reserved for it, whichever rate is the higher one |
| `AudioResampler.AudioReceiver.StartNativeAudio` | rf-agent/src/soapy_rf_source.cpp:214-224 | a session begins in the initial state, with an accepted rate and a clamped volume |
| `AudioResampler.AudioReceiver.ProcessAudio` | rf-agent/src/soapy_rf_source.cpp:237-264 | the loop computes the specification on the object's state and stays within the reserved capacity |
| `ReferenceMatch.MatchWifiIdentity` | python-processor/app/services/reference_match.py:38-49 | the best unused baseline by identity |
| `ReferenceMatch.MatchBluetoothIdentity` | python-processor/app/services/reference_match.py:89-106 | with early exit: the earliest unused baseline of greatest confidence, or none if that is only low |
| `ReferenceMatch.ScanForBest` | python-processor/app/services/reference_match.py:92-103 | the scanning loop |
| `ReferenceMatch.BestIsUnique` | python-processor/app/services/reference_match.py:92-106 | that description fixes the result |
| `ReferenceMatch.CertainMeansIdentity` | python-processor/app/services/reference_match.py:55-57 | certain confidence means equal identities, for both protocols |
| `BluetoothAgreement.AgreementIs` | python-processor/app/services/reference_match.py:52-83 | which of the five agreements decides and with what confidence, each written out on device and row, with spelling compared character by character |
| `BluetoothAgreement.AddressMatchIsFixed` | python-processor/app/services/reference_match.py:59-62 | a match by address is one of a public or static address, equal up to case and surrounding blanks |
| `BluetoothAgreement.RandomAddressIsIrrelevant` | python-processor/app/services/reference_match.py:59-62 | a device with an identity of its own and any other type of address gets the same match whatever the address |
| `BluetoothAgreement.AddressDecides` | python-processor/app/services/reference_match.py:59-106 | a device of which only a public or static address is known gets the earliest unused row of that address, with high confidence, or none |
| `BluetoothAgreement.StrongestAgreementWins` | python-processor/app/services/reference_match.py:86-106 | no unused row has the identity, or address, of a device matched by something weaker; a device without a match shares none of the four with any |
| `BluetoothAgreement.RandomAddressIsNoMatch` | python-processor/app/services/reference_match.py:59-62 | an input: a random address equal to a stored one does not make the device known |
| `ReferenceMatch.AnnotateDevices` | python-processor/app/services/reference_match.py:197-241 | annotates every item in place with its match; the summary counts and the missing rows |
| `ReferenceMatch.AnnotatedIs` | python-processor/app/services/reference_match.py:203-227 | each item keeps its device and is in the reference exactly if that was matched |
| `ReferenceMatch.NoIdentityTwice` | python-processor/app/services/reference_match.py:200-208 | no baseline identity is given to two devices |
| `ReferenceMatch.MatchingIsMaximal` | python-processor/app/services/reference_match.py:203-226 | no device left new and baseline left unused agree at medium or better |
| `ReferenceMatch.CertainMatchIff` | python-processor/app/services/reference_match.py:41-57 | a device whose identity is in the reference gets it, with certainty, exactly if no earlier device used it |
| `ReferenceMatch.WifiInReferenceIff` | python-processor/app/services/reference_match.py:38-49 | for Wi-Fi: in the reference exactly if its identity is and no earlier device has the same |
| `ReferenceMatch.MatchedCountsIdentities` | python-processor/app/services/reference_match.py:208-217 | the number in the reference is the number of used identities |
| `ReferenceMatch.CountsAddUpIff` | python-processor/app/services/reference_match.py:217-239 | matched + missing + ignored-unmatched counts all baselines exactly if no used identity stands in two rows |
| `ReferenceMatch.CountsAlwaysAddUpIff` | python-processor/app/services/reference_match.py:200-239 | for any comparison they add up for every list of devices exactly if no two rows share an identity that some device would use |
| `ReferenceMatch.WifiCountsAlwaysAddUpIff` | python-processor/app/services/reference_match.py:38-49 | on Wi-Fi: exactly if no two rows share a non-empty identity |
| `ReferenceMatch.BluetoothCountsAlwaysAddUpIff` | python-processor/app/services/reference_match.py:52-106 | on Bluetooth: exactly if no two rows share a non-empty identity and, where several have none, none of them can be recognised by address, manufacturer data or services |
| `ReferenceMatch.SharedIdentityIsHidden` | python-processor/app/services/reference_match.py:217-239 | the failing input, for both protocols: one device whose identity stands in two rows |
| `MatchingOrder.OrderIrrelevantIff` | python-processor/app/services/reference_match.py:200-226 | every order of the devices gives each the same match exactly if no two devices, matched on their own, choose the same identity; then each gets its first choice |
| `MatchingOrder.EveryoneIsFirst` | python-processor/app/services/reference_match.py:200-226 | without contention every device gets what it would get alone |
| `MatchingOrder.OwnIdentityIsKept` | python-processor/app/services/reference_match.py:41-57 | a device whose identity is in the reference gets it, with certainty, if no earlier device agrees with a row of that identity at medium or better |
| `MatchingOrder.SameIdentityLoses` | python-processor/app/services/reference_match.py:41-57 | it does not get it if an earlier device has the same identity |
| `MatchingOrder.WantedByAnotherLoses` | python-processor/app/services/reference_match.py:89-106 | nor, in some order, if that identity is the first choice of another device |
| `MatchingOrder.OrderDecidesBluetooth` | python-processor/app/services/reference_match.py:89-106 | two orders of the same two Bluetooth devices give the only baseline to different ones |
| `ContextBudget.PackContextByBudget` | python-processor/app/assistant.py:328-365 | the queue-driven loop terminates and keeps, of each kind, the prefix that the round-robin definition gives |
| `ContextBudget.PackPass` | python-processor/app/assistant.py:350-364 | one pass gives each open kind one turn |
| `ContextBudget.PackOne` | python-processor/app/assistant.py:351-362 | one turn: append, measure, keep or take back and close |
| `ContextBudget.RoundsAreSound` | python-processor/app/assistant.py:349-364 | what every turn keeps: nobody is ahead of its turn, the budget holds, kinds that fell behind were refused fairly |
| `ContextBudget.PackedWithinBudget` | python-processor/app/assistant.py:355-357 | the size never exceeds max(budget, empty skeleton) |
| `ContextBudget.PackedFairly` | python-processor/app/assistant.py:349-358 | a kind with records left was refused when no other kind had more than one record more |
| `ContextBudget.PackedMaximal` | python-processor/app/assistant.py:355-358 | no kind's next record fits into the final result |
| `ContextBudget.AllPackedIff` | python-processor/app/assistant.py:349-365 | everything is packed exactly if everything fits, or there is nothing to pack |
| `ContextBudget.ClosedRoundsAreIdle` | python-processor/app/assistant.py:363-364 | stopping when no kind progressed loses nothing |
| `ContextBudget.BuildPayload` | python-processor/app/assistant.py:375-392 | keeps the greatest number of sources with which the payload meets its cap, or none |
| `ContextBudget.AtMostOneSourceDropped` | python-processor/app/assistant.py:375-392 | when the skeleton fits and the reserve leaves 200 characters, at most one source is dropped |
| `ContextBudget.CapIsMetIff` | python-processor/app/assistant.py:375-392 | however many sources there were, the payload meets its cap exactly if the context leaves 32 characters; otherwise all sources are gone and it has 32 more than the context |
| `PromptText.SizeIsWritten` | python-processor/app/assistant.py:345-346 | serialized_size is the length of the context as compact JSON text, with the records packed so far |
| `PromptText.PayloadLengthIsWritten` | python-processor/app/assistant.py:377-386 | the length compared with the cap is that of the payload text |
| `PromptText.ReserveIsWritten` | python-processor/app/assistant.py:372-376 | the context may be as long as the cap leaves beside the text of the sources, but at least 200 |
| `PromptText.WrittenPayloadMeetsCapIff` | python-processor/app/assistant.py:372-386 | the payload text meets its cap exactly if the packed context leaves 32 characters |
| `ContextBudget.PayloadMeetsCapIff` | python-processor/app/assistant.py:328-392 | for given records and sources the cap is met exactly if the skeleton leaves 32 characters and a limit that leaves as much would not change what is packed |
| `ContextBudget.CapGuaranteedIff` | python-processor/app/assistant.py:328-392 | before any record is known the cap is guaranteed exactly if the skeleton leaves 32 characters and, when there are kinds with records, the cap is at least 232 and the JSON of the sources at least 32 long |
| `ContextBudget.ExcessBounded` | python-processor/app/assistant.py:375-392 | the payload never exceeds its cap, or 32 characters more than the greater of limit and skeleton: eleven too many at most once the cap is 221 and the skeleton fits |
| `ContextBudget.BoundIsAttained` | python-processor/app/assistant.py:375-392 | a single record of the right length attains that bound |
| `ContextBudget.CapCanBeExceeded` | python-processor/app/assistant.py:376-386 | a payload of 12011 characters under a cap of 12000 |
| `NdjsonFraming.JoinSplit` | rf-agent/src/aaronia_rf_source.cpp:344-347 | splitting loses nothing, and lines contain no newline |
| `NdjsonFraming.SplitJoin` | rf-agent/src/aaronia_rf_source.cpp:344-347 | and invents nothing |
| `NdjsonFraming.SplitContinues` | rf-agent/src/aaronia_rf_source.cpp:337-347 | splitting the rest together with the next piece continues the split of the whole |
| `NdjsonFraming.CuttingIrrelevantIff` | rf-agent/src/aaronia_rf_source.cpp:337-361 | lines delivered plus rest are the split of everything received, however it is cut into reads, exactly if no read leaves more than 8 MiB unfinished |
| `NdjsonFraming.BytesConservedIff` | rf-agent/src/aaronia_rf_source.cpp:337-361 | what comes out is never longer than what went in, and as long exactly if nothing was discarded |
| `NdjsonFraming.OverlongLineDependsOnCut` | rf-agent/src/aaronia_rf_source.cpp:358-361 | beyond the cap the cut decides whether a line is delivered |
| `NdjsonFraming.TakeLines` | rf-agent/src/aaronia_rf_source.cpp:344-347 | the buffer loop computes the split |
| `AaroniaSource.SupervisionIsSafe` | rf-agent/src/aaronia_rf_source.cpp:84-363 | over every run: at most one worker process, pid and descriptor valid together, restart counter below 3, waits of 5 or 10 s, every line counted once and every valid frame returned or replaced, drops accounted for |
| `AaroniaSource.StepKeepsInv` | rf-agent/src/aaronia_rf_source.cpp:84-363 | each call, exit and read keeps the invariants |
| `AaroniaSource.SequenceNumbersIncrease` | rf-agent/src/aaronia_rf_source.cpp:281-309 | published frames carry strictly increasing numbers, across restarts and bad lines |
| `AaroniaSource.ReadReturnsNewest` | rf-agent/src/aaronia_rf_source.cpp:343-357 | a read of a running worker returns the frame of its last valid line, numbered by counting the lines before it, and none exactly if no line is valid |
| `AaroniaSource.ReturnedFrameIsLatest` | rf-agent/src/aaronia_rf_source.cpp:326-363 | whatever happens around the read (a worker exiting, starting or being absent): a frame is returned exactly if a line was valid, and it has the last number taken |
| `AaroniaSource.ThirdFailureFallsBack` | rf-agent/src/aaronia_rf_source.cpp:246-262 | while workers only exit, the requested configuration is in force before the third noticed exit and the last good one from then on |
| `AaroniaSource.SessionUniqueIff` | rf-agent/src/aaronia_rf_source.cpp:52-57 | over every run the unique session suffix is kept exactly as long as no third exit in a row is noticed before the first valid frame |
| `AaroniaSource.SessionCanBeLost` | rf-agent/src/aaronia_rf_source.cpp:246-262 | three workers that die without a frame: the run after which the suffix is gone |
| `AaroniaSource.StreamIsCounted` | rf-agent/src/aaronia_rf_source.cpp:335-363 | however a worker's output is cut into reads, the lines counted are exactly the non-empty lines of the whole stream, and the buffer is its unfinished rest |
| `AaroniaSource.ReportedDropsTelescope` | rf-agent/src/aaronia_rf_source.cpp:310-313 | the drops taken over from a worker add up to the rise of its own counter |
| `AaroniaSource.AcceptedBandIff` | rf-agent/src/aaronia_rf_source.cpp:203-229 | an accepted viewport starts where asked, and has the span asked for exactly if its upper end fits 64 bits |
| `AaroniaCalls.ConfigurableIff` | rf-agent/src/aaronia_rf_source.cpp:203-225 | accepted exactly if the band lies within 24 GHz and the hardware limits, written in unbounded arithmetic, with what wrapping around makes of spans and ends too large for that |
| `AaroniaCalls.WorkersComeFromForks` | rf-agent/src/aaronia_rf_source.cpp:84-108 | every event: a new process comes only from a successful fork, is remembered with its pipe, and has a new number |
| `AaroniaCalls.StartIs` | rf-agent/src/aaronia_rf_source.cpp:110-117 | when a start is accepted, what it resets, and that a failed fork leaves the rest as it is |
| `AaroniaCalls.StopClears` | rf-agent/src/aaronia_rf_source.cpp:119-145 | stopping ends and forgets the worker and its output, and nothing else |
| `AaroniaCalls.StoppedStaysStopped` | rf-agent/src/aaronia_rf_source.cpp:119-145 | over every run without an accepted start or reconfiguration a stopped source has no worker, whatever is read |
| `AaroniaCalls.ConfigureIs` | rf-agent/src/aaronia_rf_source.cpp:203-239 | a refused viewport changes nothing; an accepted one leaves exactly one new worker, or none and a read that tries again at once |
| `AaroniaCalls.ExitIsNoticed` | rf-agent/src/aaronia_rf_source.cpp:241-268 | an exit puts the source in error, waits 5, 10 and 5 seconds and falls back after the third |
| `AaroniaCalls.ReadRestartsIff` | rf-agent/src/aaronia_rf_source.cpp:326-334 | without a worker a read starts one exactly if the stop was not asked for, the wait is over and the fork succeeds |
| `AaroniaCalls.ReadTakes` | rf-agent/src/aaronia_rf_source.cpp:270-363 | a read takes over the limits reported last, numbers all lines, and throws away and counts a rest above 8 MiB |
| `AaroniaCalls.FallingCounterAddsNothing` | rf-agent/src/aaronia_rf_source.cpp:310-313 | a drop counter that went back adds no drops |
| `AaroniaSource.WrappedBandIsAccepted` | rf-agent/src/aaronia_rf_source.cpp:211-225 | an accepted viewport whose stop wrapped around to below its start |
| `AaroniaSource.ReinitializeForksIff` | rf-agent/src/aaronia_rf_source.cpp:110-117 | initialising again and starting forks a second worker exactly if one is running |
| `AaroniaSource.AaroniaRfSource.constructor` | rf-agent/src/aaronia_rf_source.cpp:52-57 | the last good configuration is copied before the session is made unique |
| `AaroniaSource.AaroniaRfSource.LaunchLocked` | rf-agent/src/aaronia_rf_source.cpp:84-108 | a successful fork sets pid, descriptor, empty buffer and running state together; a failed one changes nothing |
| `AaroniaSource.AaroniaRfSource.Start` | rf-agent/src/aaronia_rf_source.cpp:110-117 | the method is its step; true exactly if a worker was launched from a ready, stopped or failed source |
| `AaroniaSource.AaroniaRfSource.StopLocked` | rf-agent/src/aaronia_rf_source.cpp:119-138 | the worker is reaped, pid, descriptor and buffer are cleared |
| `AaroniaSource.AaroniaRfSource.Stop` | rf-agent/src/aaronia_rf_source.cpp:140-145 | the method is its step |
| `AaroniaSource.AaroniaRfSource.ConfigureViewport` | rf-agent/src/aaronia_rf_source.cpp:203-239 | accepted exactly in these 64-bit ranges; then the worker is replaced and the counters reset |
| `AaroniaSource.AaroniaRfSource.NoteExitLocked` | rf-agent/src/aaronia_rf_source.cpp:241-268 | the method is its step: backoff, or fallback at the third exit |
| `AaroniaSource.AaroniaRfSource.ParseLineLocked` | rf-agent/src/aaronia_rf_source.cpp:270-324 | a line is counted as valid or bad; a valid one resets the counter and becomes the fallback |
| `AaroniaSource.AaroniaRfSource.ParseAll` | rf-agent/src/aaronia_rf_source.cpp:343-357 | only the newest valid frame is kept, replaced ones count as dropped |
| `AaroniaSource.AaroniaRfSource.ReadSpectrumFrame` | rf-agent/src/aaronia_rf_source.cpp:326-363 | the whole read is its step |
| `ReplaySource.PlaybackIsContinuous` | rf-agent/src/replay_rf_source.cpp:156-211 | through any interleaving of control calls, including during the unlocked wait: the index is in bounds when used, the numbers are 0, 1, 2, … and equal frames_produced, each frame is the cyclic successor of the one before unless a seek came between |
| `ReplaySource.EndKeepsInv` | rf-agent/src/replay_rf_source.cpp:259-278 | emitting after the wait indexes in bounds and continues the sequence |
| `ReplaySource.NoJumpBetween` | rf-agent/src/replay_rf_source.cpp:245-272 | between two seeks the d-th later frame is (i + d) mod n |
| `ReplaySource.WithoutSeekFramesComeInOrder` | rf-agent/src/replay_rf_source.cpp:156-272 | with no seek the k-th emitted frame is frame k mod n with number k |
| `ReplaySource.PlaybackEndsWithTheRecording` | rf-agent/src/replay_rf_source.cpp:247-255 | without looping, seeking or restarting at most the rest of the recording is emitted, and the read after it stops the player |
| `ReplaySource.ReadStopsIff` | rf-agent/src/replay_rf_source.cpp:245-252 | a read stops a running player exactly if the recording is over and it does not loop |
| `ReplaySource.PlaysOn` | rf-agent/src/replay_rf_source.cpp:245-278 | while it loops, or the recording lasts, m reads return exactly m frames, frame j from place (start + j) mod n, and the player keeps running |
| `ReplaySource.PauseHoldsPosition` | rf-agent/src/replay_rf_source.cpp:176-191 | pausing and resuming leaves everything as it was; while not running no read begins, and one that had begun returns nothing |
| `ReplaySource.StopThenStart` | rf-agent/src/replay_rf_source.cpp:156-174 | a stopped player starts again where it stopped, or from the beginning if that was the end; starting a running or paused one does nothing |
| `ReplaySource.SeekIsNext` | rf-agent/src/replay_rf_source.cpp:193-199 | a seek inside the recording decides the next frame and nothing else, one past the end changes nothing |
| `ReplaySource.SecondReaderOverrunsIff` | rf-agent/src/replay_rf_source.cpp:245-262 | when two readers wait and one emits, the other finds the index past the end, after any control calls in between, exactly if the first took the last frame and no seek or start was accepted since |
| `ReplaySource.SecondReaderCanOverrun` | rf-agent/src/replay_rf_source.cpp:245-262 | a run of two readers on a recording of one frame |
| `ReplaySource.ReplayedIsWellFormed` | rf-agent/src/replay_rf_source.cpp:262-271 | a replayed frame is well formed again and carries the recorded measurement |
| `ReplaySource.ReplayedIsMarked` | rf-agent/src/replay_rf_source.cpp:262-271 | what a replayed frame says of its source, session and number, and that the recorded ones and all other attributes are kept |
| `ReplaySource.DecimalReadsBack` | rf-agent/src/replay_rf_source.cpp:271 | the recorded number is written in digits without leading zeros and reads back |
| `ReplaySource.LoopDecidesTheEnd` | rf-agent/src/replay_rf_source.cpp:208-211 | switching the loop decides what the next read at the end does, and nothing else |
| `ReplaySource.ReplayRfSource.Start` | rf-agent/src/replay_rf_source.cpp:156-165 | the method is its step |
| `ReplaySource.ReplayRfSource.Stop` | rf-agent/src/replay_rf_source.cpp:167-174 | the method is its step |
| `ReplaySource.ReplayRfSource.Pause` | rf-agent/src/replay_rf_source.cpp:176-182 | the method is its step |
| `ReplaySource.ReplayRfSource.Resume` | rf-agent/src/replay_rf_source.cpp:184-191 | the method is its step |
| `ReplaySource.ReplayRfSource.Seek` | rf-agent/src/replay_rf_source.cpp:193-199 | the method is its step; refused exactly past the end |
| `ReplaySource.ReplayRfSource.SetLoop` | rf-agent/src/replay_rf_source.cpp:208-211 | the method is its step |
| `ReplaySource.ReplayRfSource.BeginRead` | rf-agent/src/replay_rf_source.cpp:245-258 | the critical section before the wait |
| `ReplaySource.ReplayRfSource.EndRead` | rf-agent/src/replay_rf_source.cpp:259-278 | the critical section after the wait; the frame it returns |
| `RecordingText.SplitText` | rf-agent/src/replay_rf_source.cpp:321-325 | the text of a log of appends is split into its completed lines, each led by the pieces that failed appends left before it, and the pieces after the last one |
| `RecordingText.LineCount` | rf-agent/src/replay_rf_source.cpp:321-325 | as many lines as completed appends, and one more exactly if a piece remains at the end |
| `RecordingFormat.FrameReadsBack` | rf-agent/src/frame_json.cpp:10-36 | writing a valid frame and parsing it gives exactly what the model calls restored, and that is valid again |
| `RecordingFormat.RestoredExactlyIff` | rf-agent/src/replay_rf_source.cpp:91-126 | the round trip is exact exactly for frames with the default device model and mode and no attributes |
| `RecordingFormat.MissingStepIsRecomputed` | rf-agent/src/replay_rf_source.cpp:107-113 | a document without a step gets the greatest whole step that fits its axis and points, and the stop that follows from it; others keep theirs |
| `RecordingFormat.EveryLineCounted` | rf-agent/src/replay_rf_source.cpp:321-349 | every non-empty line becomes a frame or is counted as dropped |
| `RecordingFormat.LoadOutcome` | rf-agent/src/replay_rf_source.cpp:281-350 | what the loader makes of any finished recording: which error, or how many frames |
| `RecordingFormat.LoadsIff` | rf-agent/src/replay_rf_source.cpp:281-350 | a finished recording loads exactly if its file was closed properly, text and frames are within the limits, no piece of a failed append is left at the end, and some line is a frame |
| `RecordingFormat.CountMismatchIff` | rf-agent/src/replay_rf_source.cpp:302-305 | the checksum always matches, and of the recordings that are closed, within the limits and hold a frame the frame count check refuses exactly those with such a piece at the end |
| `RecordingFormat.RecordingRoundTrip` | rf-agent/src/replay_rf_source.cpp:281-350 | with successful appends and close and within the limits, loading gives the surviving frames in order, or fails exactly if none survives |
| `RecordingFormat.UnflushedNeverLoads` | rf-agent/src/recording_writer.cpp:67 | a recording whose close failed unnoticed has a matching checksum but is never loaded |
| `RecordingChecks.LoadsExactly` | rf-agent/src/replay_rf_source.cpp:281-375 | any directory loads exactly if its files are there, the checksum agrees, the text is whole and not too long, it holds a valid frame and not too many, and its count is that of the lines; and it loads to the valid frames of its lines in order |
| `RecordingChecks.LoadedFramesAreValid` | rf-agent/src/replay_rf_source.cpp:321-350 | whatever the files hold, only valid frames are played |
| `RecordingChecks.ChangedFileIsRefused` | rf-agent/src/replay_rf_source.cpp:300 | a changed frame file is refused for its checksum |
| `RecordingFormat.ParseFrames` | rf-agent/src/replay_rf_source.cpp:321-350 | the parsing loop computes the specification, with its limits and counters |
| `RecordingFormat.ReadDocument` | rf-agent/src/replay_rf_source.cpp:334-343 | one document: parsed, validated, or dropped |
| `RecordingStore.ListedRecordingsAreFinished` | rf-agent/src/agent.cpp:370-381 | wherever writers were interrupted, every directory that recordings lists has a closed frame file matching its checksum and metadata about exactly the accepted frames; no write to its output failed |
| `RecordingStore.StepKeepsInv` | rf-agent/src/recording_writer.cpp:87-110 | every system call, its failure, and a crash between any two keep the invariant |
| `RecordingStore.AppendKeepsBooks` | rf-agent/src/recording_writer.cpp:98-103 | whatever an append leaves behind when it fails, the completed lines of the text stay exactly those of the accepted frames |
| `RecordingStore.CommitKeepsInv` | rf-agent/src/recording_writer.cpp:51-58 | renaming metadata.json is the commit point: it adds exactly this directory to the listed ones, and it is complete |
| `RecordingStore.StagedWorkIsInvisible` | rf-agent/src/recording_writer.cpp:87-107 | work in a hidden directory without metadata.json disturbs no other recording and is not listed |
| `RecordingStore.ListedIff` | rf-agent/src/agent.cpp:374-377 | listed under its own name exactly once published; under its hidden name exactly between the two renames |
| `RecordingStore.InterruptedPublishIsListed` | rf-agent/src/recording_writer.cpp:109 | failing or dying at the last rename leaves the hidden directory listed |
| `RecordingStore.NamesAreDistinct` | rf-agent/src/recording_writer.cpp:35-41 | directory names of different recordings never collide, hidden or not |
| `RecordingLeftovers.SafeIdsStayInRoot` | rf-agent/src/recording_writer.cpp:35-41 | no identifier holds a slash or a dot |
| `RecordingLeftovers.SafeIdLimits` | rf-agent/src/recording_writer.cpp:35-41 | exactly which single characters and how many are allowed |
| `RecordingLeftovers.OpenLeaves` | rf-agent/src/recording_writer.cpp:93-96 | a failed start removes its staging directory, or leaves it if that fails too |
| `RecordingLeftovers.StopLeaves` | rf-agent/src/recording_writer.cpp:104-106 | a recording with frames is finished, one without is removed and never listed |
| `RecordingLeftovers.NothingIsLeft` | rf-agent/src/recording_writer.cpp:87-106 | starting and stopping without a frame leaves the disk as it was |
| `RecordingStore.StopPublishesIff` | rf-agent/src/recording_writer.cpp:104-110 | stop commits exactly if there are frames, no output write failed and every system call but the last succeeds, and publishes exactly if the last does too; frames and text stay those of the appends |
| `RecordingStore.StopIsRun` | rf-agent/src/recording_writer.cpp:104-110 | stop is a run of its system calls, so a crash can fall between any two |
| `RecordingStore.SpectrumRecordingWriter.Start` | rf-agent/src/recording_writer.cpp:87-97 | the method is its steps; true exactly if it became active |
| `RecordingStore.SpectrumRecordingWriter.AppendFrame` | rf-agent/src/recording_writer.cpp:98-103 | the method is its step; true exactly for a valid frame written by an active, unbroken writer |
| `RecordingStore.SpectrumRecordingWriter.AtomicWrite` | rf-agent/src/recording_writer.cpp:51-58 | create, fill, rename |
| `RecordingStore.SpectrumRecordingWriter.StopRecording` | rf-agent/src/recording_writer.cpp:104-110 | the method is its steps; the metadata it returns is the published file's |
| `RecordAndReplay.ListedLoadsIff` | rf-agent/src/replay_rf_source.cpp:281-350 | after every run of the writer, with any failures and interruptions, every listed directory loads exactly under that condition on what was appended and whether it was closed |
| `RecordAndReplay.ListedRecordingLoads` | rf-agent/src/replay_rf_source.cpp:281-311 | a listed recording without failed appends loads to its surviving frames |
| `RecordAndReplay.RecordThenReplay` | rf-agent/src/replay_rf_source.cpp:245-350 | loaded frames played without a seek: the k-th frame played carries the measurement of recorded frame k mod n |
| `RecordAndReplay.RecordedIsPlayed` | rf-agent/src/replay_rf_source.cpp:245-350 | from the writer's system calls to the frames played: a listed recording with readable frames loads in full, and the k-th frame played carries the measurement of the (k mod n)-th frame whose append succeeded |
| `RecordingRuns.StagingDirectoryIsListed` | rf-agent/src/recording_writer.cpp:109 | a run from the empty store, for every valid frame, that ends with the hidden directory listed |
| `RecordingRuns.UnflushedIsPublished` | rf-agent/src/recording_writer.cpp:67 | a run whose close fails: the recording is published and every load of it fails |
| `RecordingRuns.TornIsPublished` | rf-agent/src/recording_writer.cpp:98-110 | a run whose last append fails inside its line: the recording is published, and refused for its frame count |
| `RecordingRuns.SampleLosesModel` | rf-agent/src/replay_rf_source.cpp:91-126 | a valid frame that is not read back as it was |
| `RecordingRuns.SampleBecomesUnreadable` | rf-agent/src/frame_json.cpp:10-36 | a valid frame with an attribute called gain_db that cannot be read back at all |
| `IngestFanout.RunKeepsInv` | spectrum-ingest/app.py:233-241 | every run of join, publish, consume and leave keeps the invariants |
| `IngestFanout.QueueHoldsTheNewest` | spectrum-ingest/app.py:233-241 | a connected client's queue is bounded and holds exactly the newest published payloads |
| `IngestFanout.NothingIsLostUncounted` | spectrum-ingest/app.py:233-241 | what a client took is an in-order selection of what it was offered, and offered = taken + dropped + queued |
| `IngestFanout.DroppedOnlyWhenBehind` | spectrum-ingest/app.py:235-239 | a payload is dropped only when a whole queue of newer ones was offered |
| `IngestFanout.MetricIsTheSum` | spectrum-ingest/app.py:238-239 | the metric is the number dropped over all clients that ever joined |
| `IngestFanout.ConnectedIff` | spectrum-ingest/app.py:437-458 | clients are numbered as they join, and one is connected exactly if it has joined and not left since |
| `IngestFanout.AudioPayload` | spectrum-ingest/app.py:247-257 | accepted exactly between 2 bytes and the limit, cut to whole samples |
| `IngestFanout.IngestState.constructor` | spectrum-ingest/app.py:20 | the queue limit is at least 1 and at most the given maximum |
| `IngestFanout.IngestState.Join` | spectrum-ingest/app.py:437-441 | the method is its step: the queue is primed with the last payload |
| `IngestFanout.IngestState.Publish` | spectrum-ingest/app.py:233-241 | the method is its step, for every connected client |
| `IngestFanout.IngestState.FillQueues` | spectrum-ingest/app.py:266-273 | the loop over the queues, which audio packets share |
| `IngestFanout.IngestState.Consume` | spectrum-ingest/app.py:445-448 | the method is its step: the oldest payload |
| `IngestFanout.IngestState.Leave` | spectrum-ingest/app.py:455-458 | the method is its step |
| `Base64Url.RoundTrip` | python-processor/app/utils/pagination.py:16-24 | decoding an unpadded encoding gives the bytes back, for every length (RFC 4648, sections 3.2, 4 and 5) |
| `Base64Url.EncodeIsDigits` | python-processor/app/utils/pagination.py:17-23 | stripping removes exactly the padding, and the decoder restores exactly that padding from the length |
| `Base64Url.ReadsBothAlphabets` | python-processor/app/utils/pagination.py:22-23 | the decoder reads exactly the digits of the encoder, and + and / for the last two |
| `Base64Url.DigitsAreReadableIff` | python-processor/app/utils/pagination.py:22-23 | a text of digits without padding is readable exactly if no single digit is left over |
| `Base64Url.OnlyAsciiIsRead` | python-processor/app/utils/pagination.py:23 | text that is not ASCII is refused |
| `Cursors.CursorRoundTrip` | python-processor/app/utils/pagination.py:9-34 | a cursor is not empty and decodes to its time and identifier, if the JSON text does |
| `Pagination.ListDetections` | python-processor/app/routers/anomalies_alerts.py:67-116 | checks, clauses, one row more than the limit, the cursor of the last row shown; every item shown is one of the rows asked for |
| `Pagination.PageContinues` | python-processor/app/routers/anomalies_alerts.py:96-116 | a page shows the next rows and offers a cursor exactly if rows are left; it continues where the page ends |
| `Pagination.PagesShowEveryRowOnce` | python-processor/app/routers/anomalies_alerts.py:96-116 | following cursors with pages of any sizes shows every matching row once, in order, and stops exactly when all are shown |
| `Pagination.MatchingExactly` | python-processor/app/routers/anomalies_alerts.py:76-95 | a row matches exactly if it is in the table and its session, domain, disposition and severity equal each one asked for |
| `Pagination.KeysAreOrdered` | python-processor/app/routers/anomalies_alerts.py:104 | rows are in a strict total order, by time and then identifier |
| `Pagination.PageIsWanted` | python-processor/app/routers/anomalies_alerts.py:76-116 | every row of every page is in the table, has the session, domain, disposition and severity asked for, and comes after the cursor; the last page leaves no such row out |
| `Pagination.RefusedIff` | python-processor/app/routers/anomalies_alerts.py:76-95 | a request is refused exactly for the first of an unknown domain, disposition, severity or an unreadable cursor |
| `Pagination.EndpointShowsEveryRowOnce` | python-processor/app/routers/anomalies_alerts.py:192-199 | the same through base64 cursors, for any vocabulary of filters |
| `Pagination.ListsShowEveryRowOnce` | python-processor/app/routers/anomalies_alerts.py:67-214 | the detections and the alerts list, with their own vocabularies: every page is refused for a filter value outside them, and otherwise the pages show every matching row once, in order |
| `Pagination.WordsDiffer` | python-processor/app/routers/anomalies_alerts.py:82-95 | the two lists have different vocabularies |

## Left out

- Sockets, HTTP, WebSocket and UDP framing, process spawning and the receivers' libraries: they appear as events.
- Locks: every method is one atomic step, except that a replay read is two, as in the source. One reader thread.
- Wall-clock time apart from the order of timer steps; sleeping, rate limits and playback speed.
- Callbacks of the browser code (state changes, accepted, matching frame, applied) are assumed not to call back into the object.
- JSON, zstd and SHA-256: given functions. Round trips assume that the documents concerned are read back and that a document is one non-empty line.
- Power loss: a crash stops the process, it does not lose data that a successful write or close handed over.
- A compressor error is assumed to leave at least the newline of the line at hand untaken.
- Invalid UTF-8 in a frame, which makes the JSON writer throw inside append.
- Floating point: samples, powers and JavaScript numbers are reals with a separate non-finite value; the demodulators, FFT, noise and rounding of sums are not modelled. The envelope's upper bound is taken as given (adding Number.EPSILON has no effect at these frequencies).
- ReferenceMatch.AnnotateDevices: the lists of differing fields and the copied snapshots are not modelled, nor where the baseline rows come from; a missing field and an empty string are one value, the service fingerprint is given, and case folding is that of ASCII letters.
- AudioResampler.AudioReceiver.ProcessAudio: takes demodulated samples; the sample rate does not change during a session.
- FrequencyAxis.ValidateSpectrumFrame: IQ frames and the per-session sequence check are not modelled.
- AaroniaSource.SupervisionIsSafe: initialize is called once, before there is a worker; setters are one event that sets the band, points and level to any values; counters do not wrap.
- MockRetune.MockRfSource.ReadSpectrumFrame: of the frame only the axis and the sequence number; gain and noise are left out.
- RecordingFormat.LoadOutcome: of a recording's metadata only the frame count is checked, which is always there; the schema version, the frame interval and another frame file's name are not modelled.
- RecordingStore.SpectrumRecordingWriter.Start: the generated identifier and the timestamps are given; failing to create the root is one of the failures of creating the directory.
- IngestFanout.IngestState.Publish: validation, sequence gaps and rate figures of the ingest service are not modelled.
- Pagination.ListDetections: SQL is modelled as rows of a table in descending order, filtered and limited; the limits 1 to 500 are those the route's declaration enforces.
- Base64Url.RoundTrip: the decoder's treatment of foreign characters follows Python's binascii in its default mode, which is not part of this repository.
- The overview accumulator, dataset split, vendor ranking, upload limits, metrics, logging, authentication and configuration: they would add only easy members.
