# Verification of the anti-jamming receiver's logic

This project models the stateful and algebraic core of the anti-jamming GNSS receiver and proves
what it is for. `dafny verify dfyconfig.toml` checks all of it.

| modules | what they model |
|---|---|
| `ComplexVectors`, `SpatialVectors` | complex numbers as pairs of reals, vectors, inner products of any length, coherence and phase alignment |
| `PhaseRows`, `PhaseRuns`, `PhaseDecisions`, `PhaseMeasurements`, `PhaseAdoption`, `PhaseBank`, `PhaseFanout`, `PhaseBridgeFanout` | the shared-U1 phase compensation: one row's transition machine, whole runs of calls, what one more call does and which measurements it takes as read from the calls alone, adoption of post-onset vectors, the bank and its row objects updated in place, the fast fanout, and both together |
| `SampleWindow` | the sliding window of corrected samples against an unbounded recording |
| `DropOldestQueue`, `SessionSender`, `Framing` | the local IPC: a bounded drop-oldest queue under any interleaving, the session's sender with its wake-up flag, newline framing |
| `Lifecycle`, `LifecycleRequests`, `LifecycleStaleStates`, `LifecycleSections` | the headless service's backend lifecycle and the remote worker, joined by two lossless FIFO channels, with any other clients |
| `SessionLogs`, `SessionLogRuns` | durable log sessions: copy, mark, unpoint, truncate, with a crash at any step; whole calls and their steps |
| `ShiftRegisters`, `BinaryRecurrences`, `Periods` | shift registers in place, jumping ahead in a recurring bit sequence, periods of sequences |
| `BeidouB1i`, `BeidouB1iRecurrences`, `BeidouB3i`, `BeidouB3iCodes`, `BeidouB3iRecurrences`, `BeidouB3iPeriod`, `BeidouB3iRotation`, `GpsRecurrences`, `GpsCaCode`, `GpsPhaseSelector` | the ranging code generators, and what code each satellite has |
| `Diagnostics` | covariance output power and the coherence metrics |
| `ScenarioCoverage`, `JammerWindows` | the log monitors: the one-pass audit, the marker merges and the window pairing |

Objects whose methods update fields are classes here, each method proved against a function on
values; the main results are lemmas about those functions over all runs. Concurrent protocols are
state machines over atomic steps, and a run is any sequence of actions, where an action that is not
enabled changes nothing. Numbers are exact reals. `sqrt` and `exp(-j*angle(.))` are parameters
(`Numerics`) of which only `Sound` is used: the root of a nonnegative number squares to it, and
the phase factor has modulus 1 and makes its argument real and nonnegative. The angle of a step,
`degrees(arccos(sqrt(.)))` of a coherence, is a parameter of which nothing is used.

Where the code differs from what its names or comments promise, the code is modelled:

- A finalized session does not always hold every line logged while its pointer stood: a line logged
  between a file's copy and the mark is missing. `FinalizedAccounts` says exactly which lines,
  `MarkedCopyIsWhole` when none, `LateLineIsLost` that every such line of any run is missing, and
  `LineLostInRun` gives a run from the empty directory for any log file.
- "A stale idle never ends a requested run" is false in general. `StaleIdleEndsRequestIff` says for
  every run, whatever other clients do, when one ends the request: exactly when it is received
  after a running state. If client and service are idle as the client asks and no other start is
  pending, no continuation without a start by others can end the request that way if and only if
  none of the states already on their way is running (`RequestSafeIff`); receiving them ends it if
  and only if one is (`StatesOnTheirWayEndRequestIff`). A start by others that is published, and
  whose backend stops, before the request's own command is handled can always end it
  (`ForeignStartCanAlwaysEnd`). The service's own start with `--auto-start`
  (src/antijamming/app/headless.py:71-72) is such a start, so a single client is not enough:
  `StaleIdleNeverEndsRequest` needs that client to be the only source of commands, and
  `ForeignIdleEndsRequest` gives a failing run.
- A protection row that a guard refuses is not tried again on a row that is on the bridge, as long as
  the same protection row is supplied: `ProtectionReachesRow` says exactly which calls take it.
- `second_lcmv_on_epoch` is overwritten at every later lcmv-on, so it is the epoch of the last one.
- The B3I generator resets its first register as soon as it shifts into the reset state, so its first
  code repeats after 8189 chips (`FirstReset`, `FirstCodePeriod`).
- A chip shift for which the shifted length overflows 32 bits does not rotate a BeiDou code:
  `RotatesIffNoOverflow`, for both signals and every satellite.

## Model

| member | source | states |
|---|---|---|
| ComplexVectors.CauchySchwarz | src/antijamming/gnss/shared_u1_phase_compensation.py:70-78 | the squared overlap of two complex vectors of any length never exceeds the product of their squared norms |
| ComplexVectors.LerpNorm | src/antijamming/gnss/shared_u1_phase_compensation.py:321-330 | an interpolated row is no longer than any bound on both of its ends |
| SpatialVectors.CoherenceUnclipped | src/antijamming/gnss/shared_u1_phase_compensation.py:70-78 | where it is measured at all, coherence lies in [0, 1] before the clip, so the clip never acts |
| SpatialVectors.CoherenceOneIffCollinear | src/antijamming/gnss/shared_u1_phase_compensation.py:70-78 | coherence is 1 exactly when one vector is a complex multiple of the other |
| SpatialVectors.CoherenceScaleRight | src/antijamming/gnss/shared_u1_phase_compensation.py:70-78 | multiplying a vector by a complex number that leaves it measurable changes nothing |
| SpatialVectors.CoherenceSymmetric | src/antijamming/gnss/shared_u1_phase_compensation.py:70-78 | the order of the arguments does not matter, so the same holds for the other vector |
| SpatialVectors.AlignedOverlapIsReal | src/antijamming/gnss/shared_u1_phase_compensation.py:238-249 | a vector aligned to a reference it overlaps has a real nonnegative overlap with it, of the old size |
| SpatialVectors.AlignmentTurns | src/antijamming/gnss/shared_u1_phase_compensation.py:128-133 | alignment turns a vector by one phase: with a reference it overlaps that overlap becomes real and nonnegative, otherwise its first loudest entry does |
| SpatialVectors.CoherenceIgnoresAlignment | src/antijamming/gnss/shared_u1_phase_compensation.py:128-133 | aligning either argument, to a reference or to its own loudest entry, never changes a coherence |
| PhaseBank.PhaseState.StartTransition | src/antijamming/gnss/shared_u1_phase_compensation.py:290-319 | the in-place update equals the transition function on values, guards and refusals included |
| PhaseBank.PhaseState.AdvanceTransition | src/antijamming/gnss/shared_u1_phase_compensation.py:321-330 | the in-place step equals the interpolation function on values |
| PhaseBank.PhaseState.UpdateDesired | src/antijamming/gnss/shared_u1_phase_compensation.py:438-475 | the in-place freshness, streak and adoption logic equals its function on values |
| PhaseBank.PhaseState.ChooseTransition | src/antijamming/gnss/shared_u1_phase_compensation.py:477-529 | the branches on edges, adoption, bridge and waiting rows equal their function on values |
| PhaseBank.SharedU1PhaseCompensationBank.constructor | src/antijamming/gnss/shared_u1_phase_compensation.py:189-223 | every setting with its clamp, the step limit to 0.1 to 90 degrees; the ramp has the least number of chunks that lasts the transition time, none when that time is not positive |
| PhaseBank.SharedU1PhaseCompensationBank.Advance | src/antijamming/gnss/shared_u1_phase_compensation.py:332-532 | a call whose row lengths do not match fails and changes nothing; any other emits and stores for every source what the run function gives after all calls so far |
| PhaseRuns.TargetKeepsResponse | src/antijamming/gnss/shared_u1_phase_compensation.py:251-288 | a target is given exactly when response floor and norm limit allow; it is a multiple of the requested row with exactly the old response |
| PhaseRuns.ReachableInterpolated | src/antijamming/gnss/shared_u1_phase_compensation.py:313-330 | in every run a row is its start and target interpolated at completed/total |
| PhaseRuns.RefusalKeepsWeights | src/antijamming/gnss/shared_u1_phase_compensation.py:290-312 | a refused request leaves weights, transition and source alone and names its guard |
| PhaseRuns.AcceptedCallAnchors | src/antijamming/gnss/shared_u1_phase_compensation.py:477-532 | the call that accepts a transition fixes the response the row had before it |
| PhaseRuns.StepKeepsResponse | src/antijamming/gnss/shared_u1_phase_compensation.py:430-532 | a call that leaves the desired vector alone leaves an anchored response alone |
| PhaseRuns.ResponseHeld | src/antijamming/gnss/shared_u1_phase_compensation.py:290-330 | an anchored response is the same complex number after any further calls while desired vector and satellite stay |
| PhaseRuns.ContinuityFromOnset | src/antijamming/gnss/shared_u1_phase_compensation.py:430-532 | from the accepting call on, through any run that keeps desired vector and satellite, the response is the one of the row before that call |
| PhaseRuns.DesiredFrozenWhileEnabled | src/antijamming/gnss/shared_u1_phase_compensation.py:438-475 | while enabled, a known desired vector never changes |
| PhaseRuns.ContinuityWhileProtected | src/antijamming/gnss/shared_u1_phase_compensation.py:430-532 | through a whole enabled interval an anchored row keeps satellite, desired vector and response |
| PhaseRuns.EmittedNormBounded | src/antijamming/gnss/shared_u1_phase_compensation.py:387-418 | in every run each stored and each emitted row is at most as long as the larger of the norm limit and the longest common row supplied |
| PhaseRuns.BridgeStep | src/antijamming/gnss/shared_u1_phase_compensation.py:477-532 | on the bridge a call either accepts the supplied protection row or leaves the weights as they are |
| PhaseRuns.BridgeIsMultiple | src/antijamming/gnss/shared_u1_phase_compensation.py:477-532 | in every run a row on the bridge is a complex multiple of the protection vector it accepted last |
| PhaseRuns.BridgeKeepsNulls | src/antijamming/gnss/shared_u1_phase_compensation.py:275-288 | so every direction that vector nulls is nulled exactly by the row |
| PhaseDecisions.MemoryIsOfCalls | src/antijamming/gnss/shared_u1_phase_compensation.py:351-374 | in every run the bank remembers whether the last call it took was enabled, the protection row supplied last, and the time of the call at which protection last came on, while it is on |
| PhaseDecisions.ProtectionReachesRow | src/antijamming/gnss/shared_u1_phase_compensation.py:477-507 | with protection on and available and the desired vector known, a row that is not on the bridge, or meets another protection row than the one supplied last, is after this very call a multiple of the supplied row with the old response, if both guards allow; with the same row supplied again a bridge row stays as it is, and where a guard refuses the weights go on |
| PhaseDecisions.ContinuityThroughProtection | src/antijamming/gnss/shared_u1_phase_compensation.py:477-532 | so from that call on, through any run that keeps desired vector and satellite, the response is the one of the row before it |
| PhaseDecisions.UnavailableStartsOnlyAdopted | src/antijamming/gnss/shared_u1_phase_compensation.py:515-521 | with protection on and not available only a desired vector adopted in this call starts a transition, onto the protection row given all the same |
| PhaseDecisions.FallingCallStartsRamp | src/antijamming/gnss/shared_u1_phase_compensation.py:508-514 | the first call with protection off starts the ramp onto its uniform row with the old response, if the desired vector is known and both guards allow; otherwise the weights go on |
| PhaseDecisions.QuietCallHoldsCommon | src/antijamming/gnss/shared_u1_phase_compensation.py:522-529 | while protection stays off a row without a desired vector is exactly the uniform row of the call; any other goes on with its transition |
| PhaseDecisions.RowIsOfNamedSatellite | src/antijamming/gnss/shared_u1_phase_compensation.py:375-396 | a source's row and emission are those of the satellite fixed for it or named for it by the call; with none named it keeps its row and emits the uniform one |
| PhaseDecisions.NewSatelliteStartsOver | src/antijamming/gnss/shared_u1_phase_compensation.py:416-424 | a row for a satellite the source did not have before is the uniform row until it has a desired vector |
| PhaseMeasurements.MeasuredIffUsable | src/antijamming/gnss/shared_u1_phase_compensation.py:425-432 | a measurement is taken exactly if the table has a vector of the right size and length for the satellite that is no older than the age allowed and not from the future; it is the unit vector along it |
| PhaseMeasurements.StoredCounterIsLast | src/antijamming/gnss/shared_u1_phase_compensation.py:438-451 | in every run the stored counter is that of the measurement the present row took last |
| PhaseMeasurements.CountedIffNew | src/antijamming/gnss/shared_u1_phase_compensation.py:438-475 | a measurement joins the streak's history exactly when protection is on, the desired vector unknown, and it is usable, taken after the onset and of another counter; a usable one with protection off empties the history |
| PhaseMeasurements.DesiredAfterCall | src/antijamming/gnss/shared_u1_phase_compensation.py:438-442 | with protection off the desired vector becomes the unit vector along the usable one, turned towards the one known before; otherwise a known one stays |
| PhaseMeasurements.AdoptedAfterCall | src/antijamming/gnss/shared_u1_phase_compensation.py:472-475 | with protection on a desired vector appears exactly with a new measurement that makes its streak long enough, and it is that vector, turned so that its loudest entry is real |
| PhaseAdoption.StreakIsLongestSuffix | src/antijamming/gnss/shared_u1_phase_compensation.py:452-470 | the streak of a history is its longest suffix whose consecutive vectors are no more than the step limit apart in degrees |
| PhaseAdoption.PassCountIsStreak | src/antijamming/gnss/shared_u1_phase_compensation.py:438-475 | in every run a row's pass count is the streak of the measurements it considered, each newer than its activation and with a counter different from the one before |
| PhaseAdoption.AdoptionNeedsStreak | src/antijamming/gnss/shared_u1_phase_compensation.py:438-475 | while enabled a desired vector appears exactly when none was known and the present measurement completes a streak of the required length |
| PhaseAdoption.AdoptionBranch | src/antijamming/gnss/shared_u1_phase_compensation.py:515-521 | the adoption branch runs exactly when a vector is adopted and accepted while measured-U1 rows are not available |
| PhaseAdoption.QuietRunAdvances | src/antijamming/gnss/shared_u1_phase_compensation.py:321-330 | in an uninterrupted run each call moves the transition on by one chunk and changes nothing else of it |
| PhaseAdoption.OnTargetIffComplete | src/antijamming/gnss/shared_u1_phase_compensation.py:321-330 | a row stands on its target exactly when the transition is complete or its ends coincide |
| PhaseAdoption.RecoveryTakesExactly | src/antijamming/gnss/shared_u1_phase_compensation.py:508-514 | after a first call with protection off at which both guards allow it, the ramp reaches its target after exactly the configured number of calls, and the target is a multiple of the uniform row |
| PhaseFanout.CollinearFanoutIsExact | src/antijamming/gnss/shared_u1_phase_compensation.py:81-125 | exactly collinear rows over a first row of measurable power always take the fast path, and its outputs equal the general product |
| PhaseFanout.BeamIsResponse | src/antijamming/gnss/shared_u1_phase_compensation.py:108-125 | each output sample of a row is its response w^H to the snapshot corrected channel by channel |
| PhaseFanout.FastPathIff | src/antijamming/gnss/shared_u1_phase_compensation.py:96-119 | mismatched shapes are the only error; the one-beam path is taken exactly when the first row has measurable power and every entry of every row is within 1e-9 + 1e-7 times its size of the row's projection on the first |
| PhaseFanout.ScaleIsProjection | src/antijamming/gnss/shared_u1_phase_compensation.py:104-106 | the factor of a row is that of its projection on the first row |
| PhaseFanout.SharedVectorSharedBeam | src/antijamming/gnss/shared_u1_phase_compensation.py:81-125 | rows that are multiples of one vector give outputs that are scalars times one shared beam, on either path |
| PhaseFanout.FanoutErrorBound | src/antijamming/gnss/shared_u1_phase_compensation.py:81-125 | with the tolerance test each output differs from the general product by at most the sum over channels of 1e-9 + 1e-7 times the projected entry, times correction, times sample; off the fast path it is equal |
| PhaseBridgeFanout.BridgedFanoutIsOneBeam | src/antijamming/gnss/shared_u1_phase_compensation.py:477-532 | in every run of the bank, while all rows are on the bridge with one accepted vector, each fanout output of the emitted rows is a scalar times that vector's one beam |
| SampleWindow.Window.AppendSpan | src/antijamming/gnss/shared_u1_phase_compensation.py:764-779 | a well-formed block extends the recording, any other changes nothing; the window stays what retention leaves of the recording |
| SampleWindow.Window.Extract | src/antijamming/gnss/shared_u1_phase_compensation.py:781-820 | on ordered spans it succeeds exactly for covered ranges with rows and then returns their samples, the first row, and whether a covering row differs from it |
| SampleWindow.FilledIffCovered | src/antijamming/gnss/shared_u1_phase_compensation.py:781-820 | the fill counter reaches the length of the range exactly when every sample of it is covered |
| SampleWindow.WindowIsRetainedSuffix | src/antijamming/gnss/shared_u1_phase_compensation.py:764-779 | the window holds exactly the spans of the recording that reach into the retention time, in order |
| SampleWindow.ExtractableIffRecorded | src/antijamming/gnss/shared_u1_phase_compensation.py:781-820 | a range can be extracted exactly when each of its samples was recorded and is not evicted and its spans have rows |
| SampleWindow.RecentRangeAvailable | src/antijamming/gnss/shared_u1_phase_compensation.py:764-779 | a gap-free range within the last retention samples is always available |
| SampleWindow.ExtractReturnsRecording | src/antijamming/gnss/shared_u1_phase_compensation.py:781-820 | an extract of the window is an extract of the unbounded recording: the recorded samples, the row of the first recorded span that overlaps, and whether another overlapping one has another row |
| GpsCaCode.GenerateRegisters | src/antijamming/gnss/shared_u1_phase_compensation.py:42-61 | the in-place register loop writes the first 1023 terms of the two feedback recurrences |
| GpsCaCode.Combine | src/antijamming/gnss/shared_u1_phase_compensation.py:62-67 | the running delay reads the second code cyclically at each chip's delayed index |
| GpsCaCode.Code | src/antijamming/gnss/shared_u1_phase_compensation.py:32-67 | a PRN outside 1..32 is the error; otherwise the 1023 chips are the broadcast code's first ones |
| GpsRecurrences.FirstRepeats | src/antijamming/gnss/shared_u1_phase_compensation.py:49-49 | every sequence that follows the first feedback law repeats after 1023 terms |
| GpsRecurrences.SecondRepeats | src/antijamming/gnss/shared_u1_phase_compensation.py:50-57 | every sequence that follows the second feedback law repeats after 1023 terms |
| GpsCaCode.DelayedChip | src/antijamming/gnss/shared_u1_phase_compensation.py:62-67 | the cyclic read within one period is the second code read on with the satellite's delay |
| GpsCaCode.BroadcastRepeats | src/antijamming/gnss/shared_u1_phase_compensation.py:62-67 | repeating the 1023 generated chips gives the endless code, chip for chip |
| GpsPhaseSelector.CodeIsPhaseSelected | src/antijamming/gnss/shared_u1_phase_compensation.py:35-67 | for every satellite the broadcast code is the first code added to the two register stages that IS-GPS-200 selects for it, 1 where they differ and -1 where they agree |
| GpsPhaseSelector.CodesOfTheStandard | src/antijamming/gnss/shared_u1_phase_compensation.py:40-61 | both codes open with ten ones and follow the two feedback laws |
| BinaryRecurrences.SquareOf | src/antijamming/gnss/shared_u1_phase_compensation.py:46-61 | for sequences of a feedback law, the bitwise square of a mask of offsets, reduced by the law, gives the same sums as the mask at twice the offsets |
| BinaryRecurrences.JumpTwice | src/antijamming/gnss/shared_u1_phase_compensation.py:46-61 | if every term some distance ahead is the sum of the terms in a mask, every term twice as far ahead is the sum of those in its reduced square |
| Diagnostics.PredictedPowerIsMeanOutput | src/antijamming/dsp/diagnostics.py:477-493 | w^H R w with R = X X^H / n is the mean output power over the snapshots: real and nonnegative, so the clamp never acts |
| Diagnostics.GramQuadraticForm | tools/usrp_source_count_snapshot.py:39-41 | the quadratic form of X X^H is the sum of the output powers of all snapshots |
| Diagnostics.CoherenceMetricsExact | src/antijamming/dsp/diagnostics.py:376-429 | metrics exist exactly for nonzero vectors and are those of the unit vectors' overlap; power and mismatch need no clamp, and alignment makes the overlap real and nonnegative by one phase |
| Diagnostics.NormalizedLength | src/antijamming/dsp/diagnostics.py:322-331 | normalization gives the vector of length 1 in the same direction, or nothing exactly when there is no power |
| Diagnostics.CoherencesAgree | src/antijamming/dsp/diagnostics.py:382-409 | the diagnostics' coherence power and the bank's coherence are the same number |
| DropOldestQueue.BoundedQueue.PutLatest | src/antijamming/runtime/latest_queue.py:11-28 | uninterrupted, the new item is always queued and at most the oldest one dropped |
| DropOldestQueue.QueueAccounts | src/antijamming/runtime/latest_queue.py:11-28 | for every interleaving: capacity respected, consumed items in insertion order, inserted = consumed + evicted + queued |
| DropOldestQueue.EvictsIffCallSawFull | src/antijamming/runtime/ipc.py:134-145 | in every interleaving a step evicts exactly when it is the eviction step of a call whose first put met a queue of `maxsize` items, and the queue is not empty by then; it evicts the oldest |
| DropOldestQueue.EvictionNeedsFullQueue | src/antijamming/runtime/latest_queue.py:13-23 | nothing is ever evicted before `maxsize` items were queued at once, nor from a queue without bound |
| DropOldestQueue.UninterruptedPut | src/antijamming/runtime/latest_queue.py:11-28 | from every reachable state one call without interruption queues its item last and drops the oldest exactly when `maxsize` items were queued |
| DropOldestQueue.GiveUpMeansNewerInserted | src/antijamming/runtime/ipc.py:131-145 | a producer gives its own item up only after another was inserted since that call's eviction step |
| SessionSender.RunKeepsInv | src/antijamming/runtime/ipc.py:131-155 | no wake-up is lost under any interleaving: pending events or metrics are announced by the flag, by a caller about to set it, or still ahead of the sender in its pass |
| SessionSender.BlockedMeansNothingPending | src/antijamming/runtime/ipc.py:177-199 | a sender blocked in its wait with nobody about to set the flag has sent every event, and a message of the sequence of the last metrics written, so the timeout is not needed |
| SessionSender.SenderProgress | src/antijamming/runtime/ipc.py:177-199 | each sender step comes nearer to its wait and moves events from queue to wire without loss, duplication or reordering |
| SessionSender.SenderDelivers | src/antijamming/runtime/ipc.py:177-199 | left alone, the sender settles after finitely many steps with every queued event sent in order and, of metrics, exactly those in hand and the latest if their sequence is another, once |
| SessionSender.MetricsSentInOrder | src/antijamming/runtime/ipc.py:147-199 | in every run the metrics on the wire are messages that callers wrote, in the order written and none twice, and the recorded sequence is that of the last one on the wire |
| SessionSender.RunThenDelivers | src/antijamming/runtime/ipc.py:177-199 | after any run that leaves an open session the sender alone settles with the queued events sent and a message of the sequence of the last metrics written on the wire |
| SessionSender.ClosedIffSomeStepCloses | src/antijamming/runtime/ipc.py:157-199 | in every run the session is closed exactly when a caller has closed it or a send has failed |
| SessionSender.ClosedSenderExits | src/antijamming/runtime/ipc.py:177-199 | once the session is closed its sender leaves the loop within seven steps |
| Framing.FrameReader.Receive | src/antijamming/runtime/ipc.py:201-224 | one receive and its inner loop keep the handled frames those of all bytes received so far |
| Framing.ReadAll | src/antijamming/runtime/ipc.py:484-507 | for any split into receives the frames are exactly the nonblank newline-separated segments of the stream |
| Framing.FramesAreSegments | src/antijamming/runtime/ipc.py:201-224 | the frames are, in order, exactly the stretches between newlines that hold a byte other than ASCII white space, each once; what remains holds no newline |
| Framing.CutLater | src/antijamming/runtime/ipc.py:201-224 | cutting the rest together with later bytes gives the same frames as cutting the whole stream |
| Framing.MessagesRecovered | src/antijamming/runtime/ipc.py:171-175 | any sequence of one-line texts comes back whole and in order, followed by what has arrived of the next |
| Framing.RoundTrip | src/antijamming/runtime/ipc.py:171-224 | for any one-line encoder with its decoder and any split of the bytes, exactly the messages sent are handled |
| Lifecycle.HeadlessRuntimeService.StartBackend | src/antijamming/app/headless.py:137-155 | starts only when not running, then publishes running and arms the monitor of a new generation |
| Lifecycle.HeadlessRuntimeService.StopBackend | src/antijamming/app/headless.py:157-167 | stops only when running; publishes running while stopping and leaves the generation, so that the current monitor reports the stop |
| Lifecycle.HeadlessRuntimeService.ReportStopped | src/antijamming/app/headless.py:169-177 | a monitor publishes idle exactly when its generation is still the current one |
| Lifecycle.RemoteStreamWorker.Start | src/antijamming/runtime/remote_worker.py:35-48 | asks for a start only when idle and sets both flags |
| Lifecycle.RemoteStreamWorker.OnStateMessage | src/antijamming/runtime/remote_worker.py:112-145 | the two running flags stay equal and `finished` fires exactly on a running-to-idle edge |
| Lifecycle.LifecycleAgrees | src/antijamming/app/headless.py:137-177 | in every run, with other clients: published idle means stopped, published running means running or a pending current monitor; client flags equal; one `finished` per edge |
| Lifecycle.QuiescentClientAgrees | src/antijamming/runtime/remote_worker.py:112-145 | at quiescence the client's flags match the backend |
| LifecycleSections.CommandSection | src/antijamming/app/headless.py:137-167 | a start is carried out and published only for a stopped backend, under a new generation with its own monitor; a stop is published only for a running one; any other command changes nothing |
| LifecycleSections.SectionIsAlone | src/antijamming/app/headless.py:138-138 | while a lifecycle section is under way no command and no report begins |
| LifecycleSections.ReportSection | src/antijamming/app/headless.py:169-177 | a report publishes one idle state exactly when no start has come since its own monitor's |
| LifecycleSections.StopReachesClient | src/antijamming/app/headless.py:157-177 | in every run a handled stop, once the backend has stopped and its monitor reported, leaves a client that has received all states idle, unless a start of its own still waits |
| LifecycleRequests.StartFindsIdleService | src/antijamming/app/headless.py:137-155 | in every run with one commanding client, a start command always reaches an idle service and is that client's only one |
| LifecycleRequests.StaleIdleNeverEndsRequest | src/antijamming/runtime/remote_worker.py:112-145 | with one commanding client, an idle state ends the request exactly when published after the last start was handled |
| LifecycleRequests.ForeignIdleEndsRequest | src/antijamming/runtime/remote_worker.py:112-145 | with a second client an older idle state can end the request while its command still waits |
| LifecycleStaleStates.ChannelIsFifo | src/antijamming/runtime/remote_worker.py:112-145 | in every run, the states on their way and those published are those received and those still on their way, in order |
| LifecycleStaleStates.StaleIdleEndsRequestIff | src/antijamming/runtime/remote_worker.py:35-48 | in every run with any other clients, a stale idle ends the request if and only if one is received after a running state |
| LifecycleStaleStates.QueuedRequestGoneIff | src/antijamming/runtime/remote_worker.py:112-145 | in every run, while the request's own command is not handled, the request is gone if and only if an idle state was received after a running one |
| LifecycleStaleStates.StatesOnTheirWayEndRequestIff | src/antijamming/runtime/remote_worker.py:112-145 | with client and service idle as the client asks, receiving the states on their way ends the request if and only if one of them is running |
| LifecycleStaleStates.RequestSafeIff | src/antijamming/runtime/remote_worker.py:35-48 | with no other start pending either, no continuation without a start by others lets a stale idle end the request, if and only if no state on its way is running |
| LifecycleStaleStates.ForeignStartCanAlwaysEnd | src/antijamming/app/headless.py:71-72 | whatever is known before the request, a start by others that is over before the request's command is handled can end it |
| SessionLogs.LogDirectory.CopySessionArtifacts | src/antijamming/logging/setup.py:181-222 | copying in place equals the copy function over all flat and nested artifacts |
| SessionLogs.LogDirectory.FinalizeSessionLogs | src/antijamming/logging/setup.py:225-266 | a null or finalized session changes nothing; any other is finalized on disk and in its field |
| SessionLogs.LogDirectory.ResetSessionLogs | src/antijamming/logging/setup.py:285-354 | an uninterrupted start equals the reset function and returns a fresh unfinalized session |
| SessionLogs.NeverTruncatesUnfinalized | src/antijamming/logging/setup.py:285-354 | in every run with crashes, a root log is shortened only by the truncation step and never while the current-session file names an unfinalized session |
| SessionLogs.FinalizedNeverChanges | src/antijamming/logging/setup.py:158-178 | no later step of any run changes a finalized session's files or manifest |
| SessionLogs.FinalizedAccounts | src/antijamming/logging/setup.py:225-266 | a finalized archive lacks exactly the lines logged after each file's last copy |
| SessionLogs.QuietFileIsComplete | src/antijamming/logging/setup.py:225-266 | a file not logged to between its copy and the mark is archived with every line owed to the session |
| SessionLogs.MarkedCopyIsWhole | src/antijamming/logging/setup.py:181-222 | at the mark a copied file is whole exactly when nothing was logged to it since its copy |
| SessionLogs.ListedFilesAreArchived | src/antijamming/logging/setup.py:181-222 | in every run, crashes and failed copies included, each file a manifest lists as copied is in its archive |
| SessionLogs.NestedEvidenceStands | src/antijamming/logging/setup.py:202-221 | in every run a runtime file in an archive only changes when the bridge writes it, except that one the archive lacks is copied from the root directory |
| SessionLogs.LateLineIsLost | src/antijamming/logging/setup.py:225-266 | in every run, a line logged after the copies and before the mark is missing: the session ends finalized, and what the archive has of the file ends before that line |
| SessionLogRuns.LineLostInRun | src/antijamming/logging/setup.py:225-266 | for any log file and two lines, a run from the empty directory ends finalized with both lines in the root log and only the first in the archive |
| SessionLogs.FinalizeResult | src/antijamming/logging/setup.py:225-266 | an uninterrupted finalization archives every root log whole and every runtime file the archive lacked, keeps all else and adds nothing, lists exactly the files there are, and unpoints the session |
| SessionLogs.ResetResult | src/antijamming/logging/setup.py:269-354 | an uninterrupted start finalizes an unfinalized session before it empties the logs, touches no other archive or file, and points at a new empty session unless its directory exists |
| SessionLogRuns.FinalizeRuns | src/antijamming/logging/setup.py:139-155 | the atomic steps of one finalization, uninterrupted, make up the finalization function |
| SessionLogRuns.ResetRuns | src/antijamming/logging/setup.py:285-354 | the atomic steps of one start, recovery included, uninterrupted, make up the reset function |
| ShiftRegisters.ShiftIn | gnss-sdr/src/algorithms/libs/beidou_b1i_signal_replica.cc:64-71 | the shift loop moves every stage down one and puts the feedback on top |
| ShiftRegisters.WriteCode | gnss-sdr/src/algorithms/libs/beidou_b1i_signal_replica.cc:76-95 | the final loop combines both codes at their 32-bit positions and leaves the rest of the destination alone |
| ShiftRegisters.ShiftRotates | gnss-sdr/src/algorithms/libs/beidou_b3i_signal_replica.cc:145-164 | without overflow the combined code is the unshifted one rotated |
| BeidouB1i.GenerateRegisters | gnss-sdr/src/algorithms/libs/beidou_b1i_signal_replica.cc:55-73 | the in-place loop writes the two recurrences, the second through the satellite's two or three phase taps |
| BeidouB1i.CodeGenInt | gnss-sdr/src/algorithms/libs/beidou_b1i_signal_replica.cc:26-96 | an unknown PRN leaves the destination as it was; otherwise every chip is the combined one and nothing else is written |
| BeidouB1i.CodeRotates | gnss-sdr/src/algorithms/libs/beidou_b1i_signal_replica.cc:76-95 | for every chip shift without overflow the code is the unshifted code rotated by it |
| BeidouB1i.RotatesIffNoOverflow | gnss-sdr/src/algorithms/libs/beidou_b1i_signal_replica.cc:76-95 | for every satellite and every chip shift, it is rotated exactly when the shifted length does not overflow |
| BeidouB1iRecurrences.FirstHasPeriod | gnss-sdr/src/algorithms/libs/beidou_b1i_signal_replica.cc:61-61 | every sequence that follows the first feedback law repeats after 2047 terms |
| BeidouB1iRecurrences.SecondHasPeriod | gnss-sdr/src/algorithms/libs/beidou_b1i_signal_replica.cc:62-62 | every sequence that follows the second feedback law repeats after 2047 terms |
| BeidouB1iRecurrences.CodesFollowTheLaws | gnss-sdr/src/algorithms/libs/beidou_b1i_signal_replica.cc:36-73 | both codes open with 01010101010, follow the laws and repeat after 2047 terms, one more than the chips generated |
| BeidouB1iRecurrences.StagesAsGiven | gnss-sdr/src/algorithms/libs/beidou_b1i_signal_replica.cc:29-31 | the first 37 satellites have, in order, the pairs of stages other than 2 and 7 and that pair; the others, in order, the triples listed |
| BeidouB1iRecurrences.UnshiftedCode | gnss-sdr/src/algorithms/libs/beidou_b1i_signal_replica.cc:55-95 | without a shift every satellite's chip is 1 where the first code differs from the sum of its two or three stages, -1 where it agrees |
| BeidouB3i.GenerateRegisters | gnss-sdr/src/algorithms/libs/beidou_b3i_signal_replica.cc:119-143 | the in-place loop writes what the resetting first register and the second recurrence emit |
| BeidouB3i.WindowBetweenResets | gnss-sdr/src/algorithms/libs/beidou_b3i_signal_replica.cc:119-143 | between resets the register is a window of the code it emits |
| BeidouB3i.FirstCodeRecurs | gnss-sdr/src/algorithms/libs/beidou_b3i_signal_replica.cc:119-143 | over any 13 chips without a reset the first code obeys its feedback recurrence |
| BeidouB3i.OnesAfterReset | gnss-sdr/src/algorithms/libs/beidou_b3i_signal_replica.cc:138-142 | the thirteen chips after the start or a reset are ones, as long as no further reset comes |
| BeidouB3i.NeverHoldsResetState | gnss-sdr/src/algorithms/libs/beidou_b3i_signal_replica.cc:138-142 | no chip is emitted from the reset state |
| BeidouB3i.ResetMakesPeriodic | gnss-sdr/src/algorithms/libs/beidou_b3i_signal_replica.cc:138-142 | a reset starts the first code over |
| BeidouB3i.CodeGenInt | gnss-sdr/src/algorithms/libs/beidou_b3i_signal_replica.cc:26-165 | an unknown PRN leaves the destination as it was; otherwise every chip is the combined one and nothing else is written |
| BeidouB3iRecurrences.FirstHasPeriod | gnss-sdr/src/algorithms/libs/beidou_b3i_signal_replica.cc:125-125 | every sequence that follows the first feedback law repeats after 8191 terms |
| BeidouB3iRecurrences.SecondHasPeriod | gnss-sdr/src/algorithms/libs/beidou_b3i_signal_replica.cc:126-127 | every sequence that follows the second feedback law repeats after 8191 terms |
| BeidouB3iPeriod.FirstReset | gnss-sdr/src/algorithms/libs/beidou_b3i_signal_replica.cc:138-142 | the first register is reset for the first time after exactly 8189 chips |
| BeidouB3iPeriod.FirstCodePeriod | gnss-sdr/src/algorithms/libs/beidou_b3i_signal_replica.cc:119-143 | the first code repeats after 8189 chips and within them is the sequence without reset |
| BeidouB3iCodes.SecondCodeFollowsTheLaw | gnss-sdr/src/algorithms/libs/beidou_b3i_signal_replica.cc:45-127 | every satellite's second code opens with its start state, lowest bit first, follows the second law and repeats after 8191 terms |
| BeidouB3iCodes.UnshiftedCode | gnss-sdr/src/algorithms/libs/beidou_b3i_signal_replica.cc:145-164 | without a shift every satellite's chip is 1 where its two codes differ and -1 where they agree |
| BeidouB3i.CodeRotates | gnss-sdr/src/algorithms/libs/beidou_b3i_signal_replica.cc:145-164 | for every chip shift without overflow the code is the unshifted code rotated by it |
| BeidouB3iRotation.RotatesIffNoOverflow | gnss-sdr/src/algorithms/libs/beidou_b3i_signal_replica.cc:145-164 | for every satellite and every chip shift, it is rotated exactly when the shifted length does not overflow |
| ScenarioCoverage.Audit | tools/audit_live_session.py:287-350 | each of the nine latches holds exactly when its scenario occurs in the event list, whatever the list |
| ScenarioCoverage.LatchesStay | tools/audit_live_session.py:287-350 | every latch that is set stays set when events are appended |
| ScenarioCoverage.ReenabledJammerInSortedLog | tools/audit_live_session.py:287-350 | in a log sorted by time the epoch comparison plays no part: the latch means a jammer-on under a beamformer turned on at least twice |
| JammerWindows.JammerAt | tools/summarize_lcmv_run.py:781-787 | the state at a time is that of the last marker at or before it, none exactly before all markers |
| JammerWindows.CollectEstimates | tools/summarize_lcmv_run.py:779-805 | on sorted inputs the two-pointer merge reads every snapshot under the marker state of its own time |
| JammerWindows.CollectPowers | tools/summarize_lcmv_run.py:838-862 | the second merge puts exactly the powers of each marker state and method on each of its three lists, in order |
| JammerWindows.EstimatesAreOf | tools/summarize_lcmv_run.py:779-805 | the estimates are, in order, those of exactly the snapshots under a jammer-on whose estimate is available and whole, with a positive power before and one not negative after |
| JammerWindows.ListsAreOf | tools/summarize_lcmv_run.py:838-862 | the three lists hold, in order, the powers of exactly the snapshots without the beamformer and the jammer off, without it and the jammer on, and the excess over the healthy baseline with both on |
| JammerWindows.PairWindows | tools/audit_live_session.py:431-442 | one window per jammer-on, in order, from its epoch to the next jammer marker or to the end of evidence |
| JammerWindows.EvidenceEnd | tools/audit_live_session.py:422-430 | no event, tracking record or navigation snapshot lies beyond it; it is the epoch of one of them, or 0 when there is none |
| JammerWindows.WindowsInOrder | tools/audit_live_session.py:431-442 | on a sorted log windows do not run backwards, are in order and share at most their ends |
| JammerWindows.ReadingsAgree | tools/audit_live_session.py:431-442 | away from the markers a time is inside a window exactly when the merge says the jammer is on, up to the end of evidence |

## Left out

- PhaseFanout.CollinearFanoutIsExact: asks for a first row whose power exceeds the smallest normal number, as the code does, not just a nonzero one.
- Framing.RoundTrip: the JSON encoder is any function to texts without a raw newline and not blank (section 7 of RFC 8259), with its decoder.
- GpsCaCode.Code: chips are the integers 1 and -1, not 32-bit floats.
- Floating-point rounding and the casts to `complex64`: numbers are exact reals, and `np.allclose` is equality except in the fanout's error bound.
- The angle of a post-onset step is an uninterpreted function of the coherence: no property of the arccosine is used or claimed.
- The checks that arrays have two dimensions, and finiteness checks of numbers.
- The status and telemetry dictionaries of the compensation bank and its vector snapshots.
- The PRN correlation search, the delay estimator, MUSIC and eigen-decompositions: numeric library work without an exact statement.
- Sockets, threads, JSON decoding, Qt signals and clocks: steps, abstract encoders and given timestamps instead.
- The hidden backend: start makes it running, it may stop at any time, and the monitor's wait returns only when it has stopped.
- Failed starts, `failed` messages, client command failures, the shutdown command and overflow of the event queue in the lifecycle composition.
- The idle publish after the listener opens and the accept loop's read of the cached state are taken as done before any command, or as one atomic step.
- Log sessions: handlers, rotated files, timestamps and manifest fields other than `finalized` and the list of copies, and a text write that is torn by a crash; file names are parameters.
- GPS and BeiDou complex and sampled code variants, which call the generators modelled here.
- Reports built from coverage, windows and merged lists (means, decibels, tracking rows inside a window): easy arithmetic.
- GUI, plotting, RINEX tools, sample converters, RF budget and configuration coercion.
