# Evidence accounting of the hybrid edge gateway

A Dafny model of the evidence pipeline of the hybrid edge wireless sensor network: sensor node,
sequence and health registry, lossless raw store, bounded upstream forwarder (RAW or AGGREGATED),
collector log, and the analysis that deduplicates and admits it. The project's claim is exact
accounting: nothing is lost uncounted and nothing is counted twice. The model proves it over whole
runs and all interleavings.

`dafny verify dfyconfig.toml` checks everything.

## How the system is modelled

- **Step systems.** The asyncio components (`Forwarder`, `Storage`, `Pipeline`) are step systems in
  which the code between two suspension points is one step. An event sequence is any schedule; an
  event that cannot happen at its turn does not happen, so every theorem about `Run` holds for every
  schedule: failed connections, lost or duplicated copies, timeouts, cancellation at any point.
- **Objects.** `NodeRegistry`, `WindowAggregator`, `UpstreamForwarder`, `RawMessageStore`,
  `GatewayServer`, `PhysicalNode` and `VirtualNode` are classes; `Gateway` wires server, store and
  forwarder. Their methods equate the object's new abstract state with one step. A `Drive` method in
  `RegistryRuns`, `ForwarderObject`, `Storage`, `GatewayFront`, `GatewayProcess`, `Firmware` and
  `Generator` shows that the object driven by any schedule is in the state the runs give (for the
  aggregator this is `AggregateStream`), so the theorems about runs are theorems about the objects.
- **Time.** The forwarder has a monotonic clock. A window expires only at or after its deadline; a
  worker that comes back to an overdue window flushes it before it takes anything from the queue.
- **Blocked puts.** A `submit` that finds the queue full joins the blocked puts of its queue, and any of
  them may resume whenever there is room, also after `stop` has begun.
- **Histories.** What really happened to each message (accepted, sent, lost in flight, stranded) is
  recorded in history fields that no step reads; the counters are proved against them.
- **Numbers.** Sensor values and intervals are reals; the firmware's 32-bit products wrap explicitly and
  its 64-bit sequence counter saturates.

Modules: `Common` (sequence and multiset facts), `Messages`, `Queues`, `SequenceTracking`, `NodeProtocol`,
`Firmware`, `Registry`, `RegistryRuns`, `Aggregation`, `Upstream`, `Forwarder`, `ForwarderObject`,
`AggregatedRuns`, `Storage`, `GatewayFront`, `Pipeline`, `GatewayProcess`, `Analysis`, `Evidence`, `Delivery`,
`Provenance`, `Generator`.

## Main results

1. `Pipeline.AdmissionMeansExactlyOnce`, `Pipeline.AggregatedAdmission`: for every run of either mode that shut
   down in order, if every drained write arrived and the counter gates pass, the collector log is exactly what
   was sent and the evidence file exactly the valid messages. A RAW log is exactly the valid readings; an
   AGGREGATED log reads back as windows whose readings are the non-duplicate valid readings.
2. `Forwarder.RawConservation`, `Forwarder.StoppedIsQuiet`, `Forwarder.AggregatedConservation`,
   `Forwarder.GracefulStopAccountsForAll`: conservation in every reachable state of both modes.
3. `Delivery.DedupUndoesRetries`, `Delivery.AggregatedDedupUndoesRetries`, `Delivery.ParityMeansExactlyOnce`:
   at-least-once delivery is undone by deduplication, and in every run of both modes message parity holds if
   and only if delivery was exactly once.
4. `NodeProtocol.BootIsExact`, `NodeProtocol.RebootsAreExact`, `Pipeline.ProcessIsExactAcrossReboots`:
   the gateway's missing and duplicate counts are exact for a node that reuses unacknowledged numbers.
5. `SequenceTracking.MissingIsSandwiched`: for arbitrary arrival orders the missing estimate is within the
   number of out-of-order arrivals of the truth.
6. `Aggregation.AggregateStream` with `Aggregation.DeadlinePartitionIsUnique`: streaming aggregation equals
   batch aggregation over the one deadline partition.
7. `Pipeline.ConnectionsAreCounted`, `Pipeline.HealthEventsAreExact`, `Pipeline.ShutdownAccounts`, and
   `GatewayProcess.Drive`, which makes them results about the wired objects.
8. `SequenceTracking.StatusMeansPosition`, `RegistryRuns.HealthMeansSilence`, `NodeProtocol.CounterIsSuccesses`,
   `Aggregation.StreamIsWeighed`, `Provenance.RecordsSayTheirOrigin`, `GatewayFront.LinesAndEndingsAreCounted`:
   what each component answers, stated over whole runs from the events alone: the status of a number, the health
   of a node, the number a sample carries, the values behind the means, the contents of every record, the
   counters of every line.
9. `Evidence.ValidateEvidence`: the Pi/Mac check accepts exactly when one log is a rearrangement of the other.

## Where a property fails, and exactly when it holds

- **Blocked submissions.** A `submit` still blocked when `stop` is called can resume behind the STOP marker or
  after `stop` has returned; its reading then stays queued and is counted neither sent nor abandoned, for ever
  (`Forwarder.LateSubmissionIsStranded`). `Forwarder.StoppedIsQuiet` says exactly what remains, and
  `Forwarder.QuietIffNoneBlocked` when nothing can: if and only if no `submit` is blocked when `stop` is called.
  The store behaves alike (`Storage.CompleteIffNoneBlocked`). The gateway never calls either `stop` with a
  `submit` blocked (`Pipeline.ShutdownAccounts`).
- **Backlog.** When a window is flushed by timeout while an older reading is still queued, the next window can
  open before the previous deadline. Window starts are a full window apart if and only if no timeout flush
  overtook a queued reading received before its deadline (`AggregatedRuns.SpacedIffNoBacklog`). Under backlog two
  summaries can carry one id with different contents, so deduplication rejects a log on which nothing was lost
  (`Delivery.BacklogDefeatsDedup`). Deduplication is exact if and only if no two sent windows share their start
  and end millisecond (`Delivery.ExactIffWindowsDistinct`), which holds whenever the reading taken next after
  every timeout flush was timely (`Delivery.AggregatedDedupUndoesRetries`).
- **Identity.** RAW deduplication keeps one entry per record sent if and only if no two sent readings share
  node, sequence and receive instant (`Delivery.ExactIffKeysDistinct`); two that do make it reject every log
  (`Delivery.SharedKeyDefeatsDedup`).
- **Discarded windows.** When a retried send drains after the next window's deadline, the worker waits with no
  time left; a stop that times out there discards the open window and counts nothing abandoned
  (`AggregatedRuns.TimedOutStopLosesWindow`), so the admission gates can pass although readings are missing. What
  is lost is decided when the stop times out (`Forwarder.TimeoutDecidesLoss`): in an admitted AGGREGATED run
  reading counts and skipped duplicates add up to the valid readings if and only if the stop did not time out, or
  no window was open when it did (`Pipeline.AggregatedAdmission`).

## Hypotheses

- Every drained write arrives at least once, counted write by write (`Delivery.Arrived`). For deduplication it is
  enough that each record sent is somewhere in the log and nothing but attempted records is (`Delivery.Carries`);
  failed attempts may deliver copies.
- RAW deduplication: receive instants separate readings with equal node and sequence; stated where used.
- AGGREGATED deduplication: the reading taken next after every timeout flush was received at or after its
  deadline, and readings a window apart on the monotonic clock are in different wall-clock milliseconds
  (`Delivery.SteadyClockFollows`); stated where used. `AggregatedRuns.SpacedIffNoBacklog` restates the former in
  terms of the queue when readings are enqueued at their receive instant, which holds whenever no handler had to
  wait for the store (`Pipeline.PromptWithoutBackpressure`).
- Event callbacks and file appends do not raise.
- The monotonic clock does not go back.

## Model

| member | source | states |
|---|---|---|
| SequenceTracking.SpansAreCounted | gateway/registry.py:158-176 | for every arrival order last_sequence is the current epoch's maximum, resets count the epochs after the first, and the advance of all epochs is exactly missing + IN_ORDER + GAP |
| SequenceTracking.MissingIsSandwiched | gateway/registry.py:158-176 | numbers never received in their epoch lie between estimated_messages_missing - out_of_order and estimated_messages_missing |
| SequenceTracking.CountersCountStatuses | gateway/registry.py:101-114 | each status counter counts its own arrivals, FIRST happens once, and together they count every message |
| SequenceTracking.StatusMeansPosition | gateway/registry.py:158-176 | for every arrival order a number is IN_ORDER, GAP, DUPLICATE, RESET or OUT_OF_ORDER exactly when it is one above, further above, on, back to zero under, or otherwise below the highest number of its epoch |
| SequenceTracking.MissingIffGap | gateway/registry.py:163-166 | numbers are estimated missing if and only if some arrival was a GAP |
| SequenceTracking.EpochStep | gateway/registry.py:158-176 | how one more arrival changes the epochs' spans and holes |
| NodeProtocol.ArrivalsOrdered | firmware/src/main.cpp:340-383 | what one boot delivers never decreases and never exceeds the counter |
| NodeProtocol.NothingSkipped | firmware/lib/NodeProtocol/src/node_protocol.cpp:97-107 | every number below the counter was transmitted and judged successful |
| NodeProtocol.CounterIsSuccesses | firmware/lib/NodeProtocol/src/node_protocol.cpp:97-107 | after any attempts the counter is the number judged successful, capped at the largest 64-bit number |
| NodeProtocol.EachSuccessSpendsANumber | firmware/src/main.cpp:340-383 | each attempt transmits the number of successes before it, and a success moves on to the next number |
| NodeProtocol.BootIsExact | gateway/registry.py:158-176 | one boot under any loss: only FIRST, IN_ORDER, GAP, DUPLICATE; missing is the exact number of holes, each lost every time it was sent; duplicates are deliveries less distinct numbers |
| NodeProtocol.RebootsAreExact | gateway/registry.py:169-174 | over any number of boots of the firmware's send rule, each later one heard from its 0 on, each reboot adds one RESET, or one DUPLICATE if the earlier boot never passed 0; missing is the sum of each boot's holes, each lost every time it was sent |
| NodeProtocol.RebootNoticed | gateway/registry.py:169-174 | a restart adds a RESET exactly when its 0 arrives after a larger number |
| Firmware.BackoffIsCappedDoubling | firmware/lib/NodeProtocol/src/node_protocol.cpp:84-95 | the n-th consecutive retry delay is min(initial * 2^n, maximum); no 32-bit product wraps |
| Firmware.BackoffSettles | firmware/lib/NodeProtocol/src/node_protocol.cpp:84-95 | delays never decrease and stay at the cap from the 32nd failure on |
| Firmware.PhysicalNode.ScheduleTcpRetry | firmware/src/main.cpp:224-234 | after n failures in a row the next attempt waits min(initial * 2^n, maximum) |
| Firmware.PhysicalNode.ServiceTcp | firmware/src/main.cpp:276-317 | when a connection is joined, retried or left alone, and what that does to the schedule |
| Firmware.PhysicalNode.SampleAndMaybeSend | firmware/src/main.cpp:319-384 | a sample is sent under the current number only when due, valid and connected; the number advances exactly on a write judged successful |
| Firmware.PhysicalNode.ServiceSensor | firmware/src/main.cpp:449-454 | a missing sensor is looked for again after the retry interval |
| Firmware.PhysicalNode.LoseWifi | firmware/src/main.cpp:248-254 | losing the Wi-Fi drops the connection and makes the next attempt immediate |
| Firmware.Drive | firmware/src/main.cpp:443-462 | for any hardware and network behaviour of a boot, the node's number is its successes, what arrives is what its transmissions say, and the gateway's counters for it are exact |
| Registry.NodeRegistry.Observe | gateway/registry.py:77-114 | the whole registry after a message, and the status returned |
| Registry.NodeRegistry.ClassifySequence | gateway/registry.py:158-176 | only the node's sequence counters change, as its class says |
| Registry.NodeRegistry.Transition | gateway/registry.py:178-191 | one transition is appended to the node's log and to the global log |
| Registry.NodeRegistry.ConnectionOpened | gateway/registry.py:116-119 | one more connection, and connected |
| Registry.NodeRegistry.ConnectionClosed | gateway/registry.py:121-126 | one connection fewer, never below zero; unknown nodes are ignored |
| Registry.NodeRegistry.RefreshHealth | gateway/registry.py:128-156 | the loop checks every node once against one instant and returns exactly the transitions it logged |
| RegistryRuns.LogsAreLinkedPaths | gateway/registry.py:103-156 | each node's log is a linked path from None->ONLINE to its status, is the global log restricted to it, and has at most 3 * messages_received entries |
| RegistryRuns.ChecksOnlyDegrade | gateway/registry.py:145-156 | a liveness check never moves a node toward ONLINE |
| RegistryRuns.HealthMeansSilence | gateway/registry.py:128-156 | in every run a node heard since the last check is ONLINE; otherwise it is OFFLINE, SUSPECT or ONLINE as its silence before that check reaches the thresholds |
| RegistryRuns.RecordIsLatest | gateway/registry.py:77-114 | a record holds the node's first instant, its latest instants and kind, and the values of its latest reading |
| RegistryRuns.TransitionsAreStamped | gateway/registry.py:178-191 | every transition carries the instant of the message or check that caused it |
| RegistryRuns.ReportedAreStatuses | gateway/registry.py:77-114 | the statuses reported for a node are those of its own numbers, among any traffic |
| RegistryRuns.CountersAreOwn | gateway/registry.py:86-114 | a node's sequence counters depend only on its own messages |
| RegistryRuns.RegistryCountersMeanEpochs | gateway/registry.py:86-114 | the epoch laws hold of every registry record among any traffic |
| RegistryRuns.RegistryIsExactForOneBoot | gateway/registry.py:86-114 | one boot heard among any other traffic is accounted exactly |
| RegistryRuns.RegistryIsExactAcrossReboots | gateway/registry.py:86-114 | any number of boots heard among any other traffic are accounted exactly |
| RegistryRuns.Drive | gateway/registry.py:77-191 | a registry driven by any events is in the state the runs describe |
| Aggregation.ExtremesBound | gateway/aggregator.py:107-120 | a window's minimum and maximum are attained and bound every value |
| Aggregation.WindowLengths | gateway/aggregator.py:55-60 | the window lasts its seconds in whole nanoseconds, and its planned end is as many milliseconds on, rounded to nearest, ties to even |
| Aggregation.SummaryMeaning | gateway/aggregator.py:122-144 | a summary's bounds are those of its window, and on each channel mean times count is the sum of the values and the extremes are attained and bound them |
| Aggregation.SumLaws | gateway/aggregator.py:107-120 | that sum is the value for one reading, additive over any cut and independent of order |
| Aggregation.NodeCountIsDistinct | gateway/aggregator.py:134 | node_count is the number of different node ids in the window |
| Aggregation.StreamIsWeighed | gateway/aggregator.py:70-144 | over every stream the means weighted by their counts add up to the values of the non-duplicate readings, and the counts to their number |
| Aggregation.MeanIsBetween | gateway/aggregator.py:122-144 | each mean lies between its minimum and maximum |
| Aggregation.SummaryInRange | gateway/protocol.py:46-48 | summaries of valid readings stay inside the protocol's ranges, with 1 <= node_count <= reading_count |
| Aggregation.PartitionIsDeadlinePartition | gateway/aggregator.py:78-84 | the windows are the stream, each ended by the first reading at or after its deadline |
| Aggregation.DeadlinePartitionIsUnique | gateway/aggregator.py:78-84 | there is only one such partition |
| Aggregation.WindowAggregator.constructor | gateway/aggregator.py:55-60 | no open window; the window length in nanoseconds and milliseconds |
| Aggregation.WindowAggregator.DeadlineNs | gateway/aggregator.py:66-68 | the open window's deadline, if there is one |
| Aggregation.WindowAggregator.Add | gateway/aggregator.py:70-84 | duplicates and heartbeats change nothing; a boundary-crossing reading returns the batch summary of the closed window and opens the next |
| Aggregation.WindowAggregator.Flush | gateway/aggregator.py:86-98 | returns the batch summary of the open window, or nothing when there is none, and clears it |
| Aggregation.WindowAggregator.Accumulate | gateway/aggregator.py:107-120 | the incremental fields are those of the longer window |
| Aggregation.WindowAggregator.SummarizeCurrent | gateway/aggregator.py:122-144 | the incremental summary equals the batch summary |
| Aggregation.AggregateStream | gateway/aggregator.py:70-144 | feeding any stream and flushing gives the batch summaries of the deadline partition of its non-duplicate readings, which weigh exactly those readings |
| Upstream.RawIdIsInjective | gateway/upstream.py:170-173 | equal RAW ids mean equal node, sequence and receive instant, because node ids hold no colon |
| Upstream.AggregateIdIsInjective | gateway/upstream_protocol.py:64-71 | equal aggregate ids mean equal window bounds in milliseconds |
| Upstream.RawIdFields | gateway/upstream.py:170-173 | cut at its colons a RAW id is its kind, node, sequence number and receive instant |
| Upstream.AggregateIdFields | gateway/upstream_protocol.py:64-71 | cut at its colons an AGGREGATED id is its kind and the window's bounds |
| Upstream.ModesNeverShareAnId | gateway/upstream_protocol.py:64-71 | a RAW and an AGGREGATED record never share an id |
| Upstream.RawIdFits | gateway/upstream_protocol.py:19-30 | with 64-bit numbers a RAW id is well under the record's length limit |
| Forwarder.StepKeeps | gateway/upstream.py:92-252 | every step keeps the counters, first-in-first-out order, the place of every reading, the shape of every record and the position of STOP |
| Forwarder.RawConservation | gateway/upstream.py:92-183 | in every reachable state enqueued = sent + abandoned + queued + in flight, and the queue respects its bound |
| Forwarder.DropsIffFull | gateway/upstream.py:102-124 | an offered reading is dropped if and only if the queue is at its bound, else enqueued |
| Forwarder.WaitsIffFull | gateway/upstream.py:92-100 | a submit waits if and only if the queue is at its bound, else enqueues |
| Forwarder.StoppedIsQuiet | gateway/upstream.py:126-150 | once stop has returned nothing is in flight, a stop that did not time out abandoned nothing, and the queue holds exactly the readings resumed behind STOP (unless a drain followed) or after stop; the RAW account closes if and only if there are none |
| Forwarder.LateSubmissionIsStranded | gateway/upstream.py:92-100 | a blocked submit that resumes after stop leaves its reading queued and uncounted for ever |
| Forwarder.QuietIffNoneBlocked | gateway/upstream.py:126-150 | whatever happens after stop is called, the queue is empty once it has returned, if and only if no submit is blocked when it is called |
| Forwarder.RetriesDoubleUpToTheCap | gateway/upstream.py:227-252 | n failures resend the same frame, count n failures and leave a wait of min(initial * 2^n, maximum) |
| Forwarder.AggregatedConservation | gateway/upstream.py:185-225 | in every reachable state each enqueued reading is summarized, skipped, in flight, in the window, queued or lost to a timed-out stop; no empty summary is sent |
| Forwarder.GracefulStopAccountsForAll | gateway/upstream.py:200-214 | after a graceful stop the summaries sent cover the counted readings taken, in order, and reading counts, skipped duplicates and readings resumed too late add up to readings enqueued |
| Forwarder.TimeoutDecidesLoss | gateway/upstream.py:132-136 | whatever happens after a stop times out, once it has returned the window lost is the one that was open when it timed out |
| Provenance.RecordsSayTheirOrigin | gateway/upstream.py:158-225 | in every run of both modes the records attempted are, in order, those the schedule begins, each with its readings, forwarding instant, size and id; a window is partial exactly when STOP cut it short, and then ends when STOP was taken, otherwise a full window after its start |
| Provenance.OnlyTheLastIsPartial | gateway/upstream.py:200-208 | at most the last record attempted is a partial window |
| Provenance.TimesOutIffDue | gateway/upstream.py:188-198 | a waiting worker can time out exactly when its open window is a full window old, and when it finds it so on returning it takes nothing before |
| Provenance.ReturningFindsDue | gateway/upstream.py:188-193 | a worker that comes back to wait finds out whether its window is due |
| Provenance.BackoffIsPerRecord | gateway/upstream.py:227-247 | in every run the record in flight next waits min(initial * 2^n, maximum) after its n failures, and every failure is counted |
| ForwarderObject.UpstreamForwarder.Submit | gateway/upstream.py:92-100 | refuses when not running, ignores heartbeats, enqueues with room and otherwise joins the blocked puts |
| ForwarderObject.UpstreamForwarder.ResumeSubmit | gateway/upstream.py:99-100 | any blocked put completes when there is room, whether or not stop has begun |
| ForwarderObject.UpstreamForwarder.AggregationTimeout | gateway/upstream.py:216-221 | no time is left exactly when a window is open and its deadline has passed |
| ForwarderObject.UpstreamForwarder.TrySubmit | gateway/upstream.py:102-124 | never waits; a full queue costs exactly one counted drop |
| ForwarderObject.UpstreamForwarder.TakeItem | gateway/upstream.py:158-214 | what the worker does with one item in either mode |
| ForwarderObject.UpstreamForwarder.ExpireWindow | gateway/upstream.py:194-198 | a timeout, possible only once the deadline has passed, flushes the open window as a complete one |
| ForwarderObject.UpstreamForwarder.FailAttempt | gateway/upstream.py:239-244 | a failed attempt is counted and the wait doubles up to the cap |
| ForwarderObject.UpstreamForwarder.CompleteSend | gateway/upstream.py:245-247 | a drained write counts one message and its bytes |
| ForwarderObject.UpstreamForwarder.BeginStop | gateway/upstream.py:126-131 | a second stop does nothing; the first queues STOP or waits to |
| ForwarderObject.UpstreamForwarder.CancelWorker | gateway/upstream.py:133-136 | cancellation abandons the record in flight and discards the open window |
| ForwarderObject.UpstreamForwarder.AbandonQueue | gateway/upstream.py:137-144 | the drain loop counts every queued reading and not the marker |
| ForwarderObject.Drive | gateway/upstream.py:48-302 | a forwarder driven by any schedule is in the state of the step system |
| AggregatedRuns.SpacedIffTimely | gateway/upstream.py:188-212 | window starts are a full window apart if and only if, after every timeout flush, the next counted reading taken was received at or after its deadline |
| AggregatedRuns.SpacedIffNoBacklog | gateway/upstream.py:194-198 | when readings are enqueued at their receive instant, this is so if and only if no timeout flush found queued a counted reading, taken later, that was received before its deadline |
| AggregatedRuns.WindowRate | gateway/aggregator.py:78-84 | if the next reading after every timeout flush was timely, k windows span at least (k - 1) window lengths of receive time, and messages sent are at most k |
| AggregatedRuns.BacklogRepeatsAnId | gateway/upstream.py:216-244 | a retrying send holds the worker past a window; two readings of one millisecond are then flushed alone and give one id to two different records |
| AggregatedRuns.TimedOutStopLosesWindow | gateway/upstream.py:188-193 | a retried send drains after the next window's deadline; a stop that times out in the wait with no time left discards that window and counts nothing abandoned |
| Storage.StepKeeps | gateway/storage.py:50-97 | at every step submitted = file + batch + queue in order, batches hold 1 to batch_size messages, counters lag the file by the batch in hand |
| Storage.StoppedFileIsComplete | gateway/storage.py:58-97 | after stop the file is exactly the messages submitted before STOP, in order, bytes_written is its length, and records_written = records_enqueued if and only if no blocked submit resumed behind STOP |
| Storage.WaitsIffFull | gateway/storage.py:50-56 | a submit waits if and only if the queue is at its bound, else it is counted at once |
| Storage.CompleteIffNoneBlocked | gateway/storage.py:58-65 | whatever happens after stop is called, the file is complete once it has returned, if and only if no submit is blocked when it is called |
| Storage.RawMessageStore.Submit | gateway/storage.py:50-56 | refuses only a stopped store; with no room it joins the blocked puts |
| Storage.RawMessageStore.ResumeSubmit | gateway/storage.py:55-56 | any blocked put completes when there is room, whether or not stop has begun |
| Storage.RawMessageStore.TakeBatch | gateway/storage.py:67-85 | the drain loop takes everything queued up to the batch size and stops at STOP |
| Storage.RawMessageStore.AppendLines | gateway/storage.py:87-109 | the batch's lines are appended in order |
| Storage.RawMessageStore.CountBatch | gateway/storage.py:92-97 | records and bytes of the batch are counted and the worker goes on or ends |
| Storage.RawMessageStore.BeginStop | gateway/storage.py:58-65 | a second stop does nothing; the first queues STOP or waits to |
| Storage.Drive | gateway/storage.py:24-109 | a store driven by any schedule is in the state of the step system |
| GatewayFront.HearKeeps | gateway/server.py:262-292 | a valid message keeps connection counts, health soundness and exact event hand-over |
| GatewayFront.NewTransitionsAreLogged | gateway/server.py:264-274 | the slice handed to the health handler is exactly what the message added to the log, with the right reason |
| GatewayFront.CheckKeeps | gateway/server.py:308-343 | a liveness pass hands over every transition it made, all labelled timeout correctly |
| GatewayFront.ClampNeverActs | gateway/registry.py:121-126 | the clamp at zero never takes effect |
| GatewayFront.LinesAndEndingsAreCounted | gateway/server.py:172-265 | in every run valid, malformed, schema-rejected and rejected-reading lines, sensor bytes, connections and overlong, truncated and idle endings are each counted once |
| GatewayFront.GatewayServer.AcceptClient | gateway/server.py:172-188 | one more open handler, speaking for no node |
| GatewayFront.GatewayServer.ReadValid | gateway/server.py:262-300 | bookkeeping of a valid line and the annotated message passed on |
| GatewayFront.GatewayServer.RejectLine | gateway/server.py:250-260 | malformed and schema-rejected lines are counted apart |
| GatewayFront.GatewayServer.MonitorLiveness | gateway/server.py:308-312 | one liveness pass |
| GatewayFront.GatewayServer.CloseClient | gateway/server.py:198-203 | the exit path closes every node the handler spoke for |
| GatewayFront.Drive | gateway/server.py:172-343 | a server driven by any schedule is in the state the steps say |
| Pipeline.StepKeeps | gateway/server.py:172-312 | every interleaved step keeps all component invariants, shutdown order and message accounting |
| Pipeline.ConnectionsAreCounted | gateway/server.py:185-210 | active_connections is the number of open handlers the node spoke through, and connected whether it is positive |
| Pipeline.HealthEventsAreExact | gateway/server.py:308-343 | the handler sees every transition once, in order, with its true cause |
| Pipeline.ProcessLogsAreLinkedPaths | gateway/registry.py:103-156 | in every run of the process each node's log is a linked path to its status, is the global log restricted to it, and has at most 3 * messages_received entries |
| Pipeline.ProcessCountersMeanEpochs | gateway/registry.py:86-114 | in every run of the process a node's counters are those of the epochs of the numbers read from it |
| Pipeline.MessagesCarryTheirStatus | gateway/server.py:262-300 | every message carries the status its number has among the numbers read from its node |
| Pipeline.PassMeansSilence | gateway/registry.py:128-156 | after a liveness pass of the process a node's status is decided by its silence against the two thresholds |
| Pipeline.ReadingMeansOnline | gateway/registry.py:103-114 | a node is ONLINE once a message of it has been read |
| Pipeline.SensorBytesAreCarried | gateway/server.py:262-264 | sensor_bytes is the wire length of the valid messages, message by message |
| Pipeline.ProcessIsExactAcrossReboots | gateway/registry.py:86-114 | any number of boots of a physical node read by the process among any traffic are accounted exactly |
| Pipeline.StoreLagIsBounded | gateway/server.py:475-490 | records_enqueued lags valid_messages by at most the live handlers |
| Pipeline.ShutdownAccounts | gateway/server.py:507-514 | after the ordered shutdown valid_messages = sum of messages_received = records_written, the file holds every valid message once, each handler's in the order in which it read them, valid readings = enqueued + dropped, and nothing is left in either queue |
| Pipeline.AdmissionMeansExactlyOnce | analysis/analyze.py:286-304 | for every run of both modes, if each drained write arrived and the counter gates pass, the log is exactly what was sent, its ids are unique if and only if no id was sent twice, and every valid reading was accepted upstream; a RAW log holds exactly the valid readings, each once |
| Pipeline.AdmittedIdsAreUnique | analysis/analyze.py:299-302 | an admitted RAW log has unique ids if and only if no two readings share node, sequence and receive instant |
| Pipeline.AggregatedAdmission | analysis/analyze.py:286-304 | for every AGGREGATED run, if the gates pass, the log reads back as windows whose readings, with those of the window open when the stop timed out, are exactly the non-duplicate valid readings; reading counts and skipped duplicates equal the valid readings if and only if the stop did not time out or no window was open when it did |
| Pipeline.PromptWithoutBackpressure | gateway/server.py:475-490 | a run in which no handler waited for the store enqueues every reading at its receive instant |
| GatewayProcess.Drive | gateway/server.py:475-514 | the wired server, store and forwarder driven by any schedule are in the state the pipeline says |
| Analysis.DeduplicateUpstream | analysis/analyze.py:596-613 | raises if and only if an id has two payloads; otherwise first entry of each id and the number of others |
| Analysis.UniqueHasEachIdOnce | analysis/analyze.py:596-613 | one entry per id, all from the log |
| Analysis.UniqueKeepsTheFirst | analysis/analyze.py:602-612 | the entry kept is the one that came first |
| Analysis.FilterUpstream | analysis/analyze.py:548-566 | keeps exactly the records inside the interval, in order |
| Analysis.MeasuredMembers | analysis/analyze.py:548-566 | kept, as often as logged, are exactly RAW records received in the half-open interval and windows that start and end inside it |
| Analysis.AdjacentIntervalsSplit | analysis/analyze.py:553-554 | adjacent intervals split the RAW records of their union |
| Analysis.WindowMeasuredOnce | analysis/analyze.py:555-559 | a window that took time is measured in at most one of two adjacent intervals |
| Analysis.DedupAndFilterCommute | analysis/analyze.py:63-79 | on a conflict-free log filtering and deduplicating commute, order and wrappers included |
| Analysis.RepeatsCostBytes | analysis/analyze.py:104-108 | unique bytes are at most actual bytes, with equality if and only if no id repeats |
| Evidence.IndexPi | analysis/exploratory_physical.py:205-210 | fails exactly on a repeated key |
| Evidence.CheckMac | analysis/exploratory_physical.py:211-231 | passes exactly when every record is RAW, has its own id and equals the Pi reading under its key |
| Evidence.CheckedIsPermutation | analysis/exploratory_physical.py:229-233 | counts, lookups and key sets together force a rearrangement |
| Evidence.ValidateEvidence | analysis/exploratory_physical.py:188-237 | accepts if and only if counts and bytes agree and the Mac readings are the Pi readings in some order |
| Delivery.AttemptedIsTaken | gateway/upstream.py:158-183 | in RAW mode the records attempted are the readings taken, one for one and in order |
| Delivery.DedupUndoesRetries | gateway/upstream.py:227-252 | for every RAW run and every log it can leave, deduplication finds no conflict, holds each counted record once and at most one more |
| Delivery.AggregatedDedupUndoesRetries | gateway/upstream.py:185-225 | the same for every AGGREGATED run in which the reading taken next after every timeout flush was timely, on a wall clock that follows the monotonic one |
| Delivery.ExactIffWindowsDistinct | gateway/upstream_protocol.py:64-71 | AGGREGATED deduplication gives one entry per record sent if and only if no two sent windows share start and end millisecond |
| Delivery.ExactIffKeysDistinct | analysis/analyze.py:596-613 | one entry per record sent if and only if keys are distinct |
| Delivery.ParityMeansExactlyOnce | analysis/analyze.py:299-302 | for every run of both modes in which each drained write arrived, message parity holds if and only if the log is exactly what was sent; then byte parity follows, and ids are unique if and only if no id was sent twice |
| Delivery.FaultlessLogCarries | collector/server.py:138-150 | every run has a log the delivery hypothesis allows: each drained write once, in order |
| Delivery.BacklogDefeatsDedup | analysis/analyze.py:604-608 | an AGGREGATED run with a retried send, in which every reading was enqueued on receipt and nothing was dropped or lost, leaves only logs that deduplication rejects, the faultless collector's included |
| Delivery.SharedKeyDefeatsDedup | analysis/analyze.py:604-608 | two different readings that share node, sequence and receive instant make deduplication reject every log of a RAW run |
| Generator.MeasuredInterval | virtual_nodes/simulator.py:94-110 | measured differences are nonnegative, samples = attempts + drops, and writes exceed attempts by at most the write in flight at the baseline |
| Generator.VirtualNode.Sample | virtual_nodes/node.py:57-77 | one sample spends one sequence number and is attempted or dropped |
| Generator.VirtualNode.CompleteWrite | virtual_nodes/node.py:139-141 | a drained write is counted once |
| Generator.SumIncarnations | virtual_nodes/simulator.py:174-181 | the loop sums the counters of every incarnation |
| Generator.Drive | virtual_nodes/simulator.py:132-181 | the totals of a node id after any samples, writes, failures and recoveries are those of the run |

## Left out

- Sockets, stream framing, TCP_NODELAY, signal handling and subprocess orchestration: library behaviour.
- JSON parsing and schema validation: messages enter the model already validated, with their ranges.
- A sequence number so long that a record id would exceed 160 characters makes record construction raise; the forwarder steps assume ids fit, which `Upstream.RawIdFits` gives for 64-bit numbers.
- Floating-point rounding in means and thresholds: reals are used.
- connection_attempts, connection_failures and the collector availability events of the forwarder: counters of a single branch each.
- The event recorder: the same drain loop as the store with a dropping producer.
- Runs configured without a store or without a forwarder: they would only remove terms from the accounts.
- Handlers that end because a callback raised while a message was pending.
- The order of stored messages across clients: handlers may be resumed by the store in any order, so the file is compared with the valid messages handler by handler, and with the submissions in order.
- The remaining admission checks (worktree state, event-queue drops, invalid counters, delivery ratio) and all statistics, plots and reports.
- Wi-Fi association and its own backoff, the BME280 driver and scan diagnostics of the firmware.
- Scheduling of virtual nodes and their random values: samples happen at arbitrary times, and one node id is modelled at a time.
- GatewayFront.GatewayServer.ReadValid: health events carry the transition and its reason, not the copied record fields.
