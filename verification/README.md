# RoudaMix engine: verified model

RoudaMix is a real-time audio mixer. This Dafny 4.11 project models the algorithms and protocols of
its engine that carry real correctness arguments, and proves them for every graph, every run and
every input. `dafny verify dfyconfig.toml` checks everything.

## What is modelled

Code that changes state step by step is written as methods with loops, arrays and classes. Each such
method is tied to a specification function, and the promises of the program are proved about that
function. Concurrent protocols are state machines over sequentially consistent steps with any number
of threads; their theorems quantify over all runs. Samples are reals; 32-bit and 64-bit counters,
wrap-around and overflow guards are explicit.

**Planning.** `GraphTopo` (topological order over dest and sidechain edges, reverse reachability),
`GraphOrder` (which topological order that is), `PdcPlanner` (the delay planner), `PdcTheorems` (what a
successful plan means over all paths of all graphs), `PdcBudget` (memory accounting and where the 64-bit
count wraps), `PdcRefusals` (when a plan is refused), `RoutePlanner` (two-phase route planning,
suspension), `RouteTheorems` (the phases agree, sends carry the final delays, suspension keeps the
timing), `RouteDecisions` (what a plan decides for every track and slot), `RouteRefusals` (when a route
plan is refused).

**What a plan sounds like.** `Dataflow` gives a route plan the meaning the audio callback gives it, as a
dataflow over whole streams with plugins as functions of their input histories, and the reference that
runs the primary and the low-latency chain as two separate signals. `SharedMonitor` proves that sharing
the primary signal until divergence is sound. `MixSamples` says what the mix is, sample by sample.
`SuspendedMix` proves what delay compensation is for: with all plugins suspended, every synchronized
output is the plain mix, late by exactly the reported total.

**Protocols.** `GraphRetire` (graph publication, reader latch, retire queue), `Loudness` (writer gate
and drain on stop), `SpscFifo` (the ring, both as a class and step by step), `Seqlock` (telemetry writer
and reader); `Gate` is the wrapping counter the first two share. `QuietCapture` joins graph publication
with suspension: no plugin runs while its state is captured.

**Control plane.** `TrackTable` (the mutable track table and its commands), `TableInvariant` (what every
command sequence keeps), `RoutingCommands` (when routing is refused and what it changes),
`CommandOutcomes` (what every other command does and refuses), `TableRuns` (ids are never reissued,
system outputs stay), `Session` and `SessionTheorems` (save, load, round trip under new ids),
`SessionFormat` (what a load makes of each record), `TablePlans` (valid tables plan, and the engine's
limits fit its delay lines).

**Signal processing.** `DelayLine` (the crossfading ring against the infinite history it stands for; a
line that has been set is the delay of `Dataflow`), `Resampler` (the drift-correcting reader over the
FIFO class, with the writer running in between).

**Presets.** `Preset` (class ids, the container printer and its bounds-checking parser, the host
parameter table), `PresetTheorems` (round trips) and `PresetFormat` (arbitrary files byte by byte).
`Bytes`, `Words`, `Wrappers`, `Modular`, `Audio` and `SortedLists` are shared basics.

## What the proofs say about the code

Where code and comments disagree, the model follows the code.

- Two tracks joined by both a dest and a sidechain edge appear twice among the incoming edges, and the
  planner emits both entries on each visit: four entries, though the comment at
  engine/src/pdc_planner.cpp:53 expects one of each kind (`PdcBudget.OneEntryPerEdge`). The delays agree.
- One overflow guard covers the two emissions of a pair, so the byte count is exact for all graphs if
  and only if the memory limit is at most 2^63 - 1 (`PdcBudget.BudgetExactIff`). The engine's limit is
  256 MiB, so it never wraps there (`TablePlans.EnginePlanFits`).
- The planner's guard on the compensation sum can never fire (`PdcRefusals.CompensationNeverOverflows`).
- A second suspension turns delayed dry paths into undelayed ones: suspension is idempotent exactly on
  plans without a processing path (`RouteTheorems.SuspensionTwice`).
- The comment at engine/src/pdc_delay_line.cpp:60 says a repeated request restarts the transition; an
  identical request is in fact ignored (`DelayLine.RepeatedRequestIgnored`).
- The sequence number of the telemetry block has 32 bits and moves twice per publication. A reader can
  accept a block that was never published if and only if a positive multiple of 2^31 publications falls
  into one copy (`Seqlock.TearsExactly`).
- A track command with a bad gain is refused after its color has been stored
  (`RoutingCommands.RefusedSetting`).
- Track ids are 32-bit and the counter wraps unchecked: after 2^32 ids an id still in use is issued again
  (`TableRuns.WrapReissues`). Until then no id is issued twice (`TableRuns.IdsNotReissued`).
- A session version is narrowed to 32 bits before it is checked, so 2^32 + 4 is accepted as 4
  (`SessionTheorems.VersionsNarrowed`).
- On a valid table the cycle rejection of the sidechain command can never fire
  (`RoutingCommands.SidechainNeverCycles`).
- A black track (color 0) gets a palette color when its session is loaded
  (`SessionTheorems.RenamedIsomorphic`). Sidechain records of tracks that are not FX tracks are refused
  on load, harmlessly (`SessionTheorems.RefeedNext`).
- A session file without a track list leaves the engine without any track, system outputs included
  (`SessionTheorems.LoadKeepsInvariant`); the command router adds them later.
- A table is loaded again if and only if it has at most 128 tracks (`SessionTheorems.RoundTrip`). Adding
  the system outputs does not check that limit, so 128 added tracks lead to a table of 130 that is saved
  and refused on load (`SessionTheorems.TooManyToLoad`).
- Dropping more than the FIFO holds breaks it: its size then reads as a huge number
  (`SpscFifo.Fifo.DropOldest`). The drift reader never does (`SpscFifo.DropWithinSize`).
- A preset stores the first 32 characters of the class id, so it loads back if and only if these carry
  no brace, hyphen or blank (`PresetTheorems.SavedLoadsBack`).

## Model

| member | source | states |
|---|---|---|
| GraphTopo.BuildTopo | engine/src/graph_topo.hpp:30-82 | the build fails for duplicate ids, or for unknown targets, exactly when the nodes have them (duplicates first); otherwise index, incoming lists and order are those of the combined graph |
| GraphTopo.CollectEdges | engine/src/graph_topo.hpp:40-62 | the edge pass finds all targets known exactly when they are; then the incoming lists hold every edge of both kinds in source order and the indegrees count them, repeats included |
| GraphTopo.KahnWalk | engine/src/graph_topo.hpp:63-80 | the in-place worklist with decremented indegrees computes the specified order, for cyclic graphs too |
| GraphTopo.KahnSound | engine/src/graph_topo.hpp:63-80 | the order lists distinct nodes and every edge goes forward in it |
| GraphTopo.KahnComplete | engine/src/graph_topo.hpp:15-17 | the order is complete exactly when the combined graph has no cycle |
| GraphOrder.QueueOrder | engine/src/graph_topo.hpp:63-80 | tracks without sources come first, ascending; of two others the one whose sources are all listed earlier comes earlier |
| GraphOrder.RelaxedInRow | engine/src/graph_topo.hpp:67-80 | the tracks that one track releases join the order by their last listing among its dests, then sidechain dests |
| GraphTopo.IncomingMember | engine/src/graph_topo.hpp:42-62 | the incoming list of a node holds exactly the sources of its edges |
| GraphTopo.IncomingPerListing | engine/src/graph_topo.hpp:42-62 | a source stands in a track's incoming list as often as the track is listed among its dests and sidechain dests together |
| GraphTopo.ReverseReach | engine/src/graph_topo.hpp:85-96 | the worklist marks exactly the nodes with a path to a seed, and terminates |
| GraphTopo.GraphTopoOrder | engine/src/track_graph.cpp:120-149 | the control plane's order is the planner's order, or empty exactly on a cycle (and on no nodes) |
| GraphTopo.GraphHasCycle | engine/src/track_graph.cpp:151-153 | true exactly when some closed path exists |
| PdcPlanner.PlanPluginDelay | engine/src/pdc_planner.cpp:10-143 | the planner's loops and early returns compute the specified plan, errors and partial results included |
| PdcPlanner.WalkNodes | engine/src/pdc_planner.cpp:43-124 | the walk over the order computes latencies, compensation, entries and bytes as specified, stopping at the first error |
| PdcTheorems.PlanSolved | engine/src/pdc_planner.cpp:43-124 | a successful plan solves the longest-path equations at every node, and its entries are exactly those of the summing points that reach a full-PDC output |
| PdcTheorems.NodeDelay | engine/src/pdc_planner.cpp:50-98 | the delay found for an edge into a compensated node is the largest arriving latency minus its own |
| PdcTheorems.RouteAligned | engine/src/pdc_planner.cpp:43-124 | along every route from a root, node latencies and edge delays add up to the path latency of its end |
| PdcTheorems.Alignment | engine/src/pdc_planner.cpp:43-141 | every route from a root to a full-PDC output takes the same time, the reported total |
| PdcTheorems.LongestRoute | engine/src/pdc_planner.cpp:43-49 | the recurrence is attained by a route: the path latency is the raw latency of some route from a root |
| PdcTheorems.TotalIsLongest | engine/src/pdc_planner.cpp:126-141 | the reported total is the longest raw latency over all routes, and for a full-PDC output that route carries no added delay |
| PdcTheorems.MostDelayed | engine/src/pdc_planner.cpp:100-113 | some route is delayed by the whole compensation |
| PdcTheorems.CompensationClosedForm | engine/src/pdc_planner.cpp:100-113 | the reported compensation is the longest minus the shortest raw latency over all routes to the output |
| PdcTheorems.CompensationIsMostDelay | engine/src/pdc_planner.cpp:100-113 | for every output, low-latency ones included, the reported compensation is the largest sum of emitted delays along any route from a root, and attained by one |
| PdcTheorems.DelayBound | engine/src/pdc_planner.cpp:126-138 | every emitted delay is at most the path limit |
| PdcTheorems.PathLimitExactly | engine/src/pdc_planner.cpp:126-138 | once the walk went through, the plan is refused for the path limit exactly when some route to an output is longer |
| PdcRefusals.AcceptedExactly | engine/src/pdc_planner.cpp:10-143 | with a memory limit up to 2^63 - 1 a plan succeeds if and only if ids, targets and outputs are known and distinct, there is no cycle, latencies add up in 64 bits along every route, the delay lines fit the memory limit, and no route to an output is too long |
| PdcRefusals.WalkedExactly | engine/src/pdc_planner.cpp:43-124 | the same for the walk alone, without the path limit |
| PdcRefusals.CompensationNeverOverflows | engine/src/pdc_planner.cpp:100-113 | on the planner's own walk a node's compensation never exceeds the arriving latency, so the overflow guard on it is never taken |
| PdcRefusals.GraphErrors | engine/src/pdc_planner.cpp:16-33 | each of the four graph errors is reported exactly when its defect is the first in the order ids, dests, outputs, cycle |
| PdcRefusals.LineSizeExactly | engine/src/pdc_planner.cpp:63-82 | a line holds the longest path, a block and one frame; its size is computed exactly when frames and bytes fit 64 bits |
| PdcRefusals.MemoryExactly | engine/src/pdc_planner.cpp:83-97 | with lines and limit up to 2^63 - 1 a well-formed graph whose latencies add up is refused for memory exactly when its lines exceed the limit, and never for an overflow |
| PdcBudget.BudgetExact | engine/src/pdc_planner.cpp:63-97 | the byte count is the number of entries times the bytes of one line, and within the limit |
| PdcBudget.BudgetExactIff | engine/src/pdc_planner.cpp:83-94 | that holds for all graphs if and only if the memory limit is at most 2^63 - 1 |
| PdcBudget.WrapsBeyondHalf | engine/src/pdc_planner.cpp:83-94 | for any larger limit, two tracks joined by both kinds of edge make the count wrap to zero |
| PdcBudget.OneEntryPerEdge | engine/src/pdc_planner.cpp:51-98 | there is one entry per incoming edge exactly when no pair of tracks is joined by both kinds at a compensated node; otherwise there are more |
| RoutePlanner.PlanRoutes | engine/src/route_planner.cpp:32-185 | the two-phase planner computes the specified plan, errors included |
| RoutePlanner.PlanSlots | engine/src/route_planner.cpp:93-158 | the slot loop computes the specified chain: dispositions, divergence and monitor latency |
| RoutePlanner.PlanRouteSuspension | engine/src/route_planner.cpp:187-202 | the suspension loop computes the specified plan |
| RouteDecisions.PlanDecided | engine/src/route_planner.cpp:84-180 | in every successful plan a track is heard exactly when it leads to a low-latency output; its monitor diverges exactly behind a bypassed running plugin or on an input that a send disturbs; and for every slot the primary path, the monitor path and the disposition of the shadow (reuse, create, release, none) follow from that |
| RouteDecisions.VariantsDecided | engine/src/route_planner.cpp:158-160 | separate monitor instances are asked for exactly when some track diverges |
| RouteRefusals.RoutesRefused | engine/src/route_planner.cpp:32-185 | refused first for a primary chain beyond 64 bits, then as the first delay plan, then for a failed walk; otherwise the outcome is that of the final delay plan |
| RouteRefusals.WalkFails | engine/src/route_planner.cpp:119-150 | the walk fails exactly at a track whose monitor chain, shared plugins and active shadows, exceeds 64 bits when its turn comes |
| RouteRefusals.OutputsListed | engine/src/route_planner.cpp:50-51 | every output track and no other is planned for, in order, with its policy |
| RouteTheorems.TwoPhaseAgreement | engine/src/route_planner.cpp:53-55 | edge delays and buffer bytes of the second planning equal those of the first, whose delays the routing used |
| RouteTheorems.SendsUseFinalDelays | engine/src/route_planner.cpp:161-177 | every dest and sidechain send carries the delay of its edge in the final plan, though the lookup ignores the kind of edge |
| RouteTheorems.LatenciesAreSlotSums | engine/src/route_planner.cpp:84-182 | the latencies planned with are the sums of the planned slot delays, for primary paths and for monitor paths a low-latency output hears |
| RouteTheorems.SuspensionSilences | engine/src/route_planner.cpp:187-202 | after suspension no slot runs or drains a plugin: running paths become dry ones with the plugin's delay, shared paths stay, all others are dry without delay; sends, buses, shadows and latencies are unchanged |
| RouteTheorems.SuspensionKeepsLatencies | engine/src/route_planner.cpp:187-202 | suspended slots still add up to the latencies the planner used |
| RouteTheorems.SuspendedAlignment | engine/src/route_planner.cpp:187-202 | on the suspended graph every route to a full-PDC output still takes the reported total |
| RouteTheorems.SuspensionTwice | engine/src/route_planner.cpp:187-202 | suspending twice equals suspending once exactly when no path ran a plugin |
| Dataflow.ChainPrimary | engine/src/audio_engine.cpp:2589-2679 | running a planned chain leaves on the primary bus what the plain primary chain yields, whatever the shadows do |
| Dataflow.ChainMonitor | engine/src/audio_engine.cpp:2589-2686 | the monitor bus carries what a separate low-latency chain yields, and equals the primary until divergence |
| SharedMonitor.MixIsReference | engine/src/audio_engine.cpp:2582-2760 | over the whole graph, every track carries its primary reference, and, if the shadows serve, its separate-chain reference where a low-latency output hears it |
| MixSamples.MixSampled | engine/src/audio_engine.cpp:2582-2760 | on the mixer of every plan each sample on a bus is the sum of what the sends into it put out, their delay earlier (monitor signals at once), and each track puts out gain times the samples of its chain, or silence when muted |
| MixSamples.MutedTurn | engine/src/audio_engine.cpp:2690-2760 | the turn of a muted track changes no bus |
| SharedMonitor.SharingIsSound | engine/src/route_planner.cpp:84-180 | sharing is sound: every full-PDC output carries its primary reference whatever the shadows do, and with active shadows equal to their primaries every low-latency output carries the stream of a fully separate chain |
| SharedMonitor.ReferenceExists | engine/src/audio_engine.cpp:2582-2760 | every plan has such a reference, so the theorem never speaks of nothing |
| SuspendedMix.SuspendedMixIsDelayedMix | engine/src/audio_engine.cpp:2589-2760 | with all plugins suspended, every full-PDC output carries the undelayed plugin-free mix, late by exactly its reported total |
| SuspendedMix.PlainMixExists | engine/src/audio_engine.cpp:2582-2760 | every plan has such a plain mix |
| GraphRetire.GraphRetireQueue.Retire | engine/src/graph_retire.hpp:22-24 | appends the graph with its tick; no graph, no change |
| GraphRetire.GraphRetireQueue.Reap | engine/src/graph_retire.hpp:28-46 | deletes exactly the entries past the grace period (or all, when forced) if no reader is in, and reports how many |
| GraphRetire.ReapConserves | engine/src/graph_retire.hpp:28-46 | a reap neither loses nor invents a graph |
| GraphRetire.ReapExtremes | engine/src/graph_retire.hpp:28-46 | with a reader in, everything stays; a forced reap without readers clears the queue |
| GraphRetire.ReapGrace | engine/src/graph_retire.hpp:36-43 | without readers an unforced reap keeps exactly the entries queued for at most 500 ms and deletes exactly the graphs of the others |
| GraphRetire.ReapsFront | engine/src/graph_retire.hpp:34-44 | a queue in tick order is reaped from the front, and survivors and victims keep their order |
| GraphRetire.DeletedAfterGrace | engine/src/graph_retire.hpp:36-43 | in every run, a graph deleted by an unforced reap had been queued more than 500 ms before that reap's clock |
| GraphRetire.NoReaderHoldsDeleted | engine/src/audio_engine.cpp:1355-1365 | in every interleaving of readers with swap, attach, unlink, retire and (forced) reap, no reader holds a deleted graph |
| GraphRetire.ExchangesReap | engine/src/audio_engine.cpp:1025-1048 | an exchange queues the old graph with its tick or, when that fails, keeps it undeleted; a swap then reaps, a restore or unlink does not |
| GraphRetire.EveryGraphInOnePlace | engine/src/audio_engine.cpp:1025-1048 | every graph ever made is in exactly one place: none is deleted twice, and the published one is never deleted |
| GraphRetire.ReapStepsAreReap | engine/src/graph_retire.hpp:32-44 | the interleaved steps of a reap keep and delete exactly what the method does with the queue and the reader count found when it began |
| GraphRetire.DrainedAfterExchange | engine/src/audio_engine.cpp:1284-1293 | once zero readers are seen after an exchange, no reader ever again holds a graph published before it |
| GraphRetire.QuietReaders | engine/src/audio_engine.cpp:1891-1910 | between a drain and the next exchange every reader holds exactly the graph of the last exchange, and none after an unlink |
| QuietCapture.NoPluginRuns | engine/src/audio_engine.cpp:1880-1916 | while a quiescent section works on a plugin, no path of any slot of a graph a reader holds runs or drains one |
| Loudness.NoTouchAfterFree | engine/src/loudness.cpp:111-129 | in every interleaving of captures, worker and repeated stops, once the resources are freed no capture is past its second check, so none reads the buffer size, fills the buffer or writes, and the worker is gone |
| Loudness.StoppedMetersAll | engine/src/loudness.cpp:131-174 | when the worker reports stopped, every frame offered was accepted and metered exactly once, in order |
| Loudness.FinishedReports | engine/src/loudness.cpp:141-157 | a finished worker has reported an error exactly when a fault is set, and stopped otherwise |
| Loudness.ErrorExactly | engine/src/loudness.cpp:117-165 | a finished worker has reported an error if and only if some call exceeded the block, did not fit the FIFO, was rejected by the meter, or the worker threw |
| Loudness.IdleRoundEnds | engine/src/loudness.cpp:135-158 | a round on an empty FIFO ends the worker with an error when a fault is set and with a stop when it is to exit, and goes on otherwise |
| Loudness.MeterSeesPrefix | engine/src/loudness.cpp:137-139 | at all times the meter has seen a gapless prefix of what the FIFO accepted |
| SpscFifo.Fifo.Write | engine/src/spsc_fifo.hpp:18-34 | appends as many frames as there is room for to contents and stream, and says how many |
| SpscFifo.Fifo.Read | engine/src/spsc_fifo.hpp:37-51 | removes and returns the oldest frames, as many as asked for or present |
| SpscFifo.Fifo.DropOldest | engine/src/spsc_fifo.hpp:54-56 | removes the oldest frames; a count beyond the contents makes the size wrap around |
| SpscFifo.Fifo.Size | engine/src/spsc_fifo.hpp:59-61 | the difference of the wrapping counters is the number of frames held, within the capacity |
| SpscFifo.CellOf | engine/src/spsc_fifo.hpp:27 | a wrapped 64-bit counter addresses the same cell as the unbounded position, for power-of-two capacities |
| SpscFifo.FramesInOrder | engine/src/spsc_fifo.hpp:18-61 | in every interleaving, the k-th frame to leave is the k-th accepted, delivered intact or dropped; occupancy stays within capacity |
| SpscFifo.StreamGrows | engine/src/spsc_fifo.hpp:18-61 | what was accepted, delivered or dropped is never revised |
| SpscFifo.WriterCellUnreadable | engine/src/spsc_fifo.hpp:26-31 | the cell being written holds no frame the reader may read |
| SpscFifo.DropWithinSize | engine/src/resampler.hpp:29-41 | dropping at most what an earlier size reported never passes the writer |
| SpscFifo.CommitsWhole | engine/src/spsc_fifo.hpp:26-50 | in every interleaving a committed write has accepted exactly the first frames of its source, and a committed read delivered the oldest frames unchanged, as many as each set out to; a drop drops its count |
| SpscFifo.AmountsSetOut | engine/src/spsc_fifo.hpp:18-41 | a write sets out to accept its whole source or all that fits by the read position it loaded, a read likewise; a size taken is the number of frames held |
| Seqlock.AcceptedIsWhole | src-tauri/src/shm.rs:198-216 | an accepted snapshot was copied over a whole number of 32-bit turns of the sequence; over none, it is one whole published block, the one current when the copy began |
| Seqlock.CopyIsCurrent | src-tauri/src/shm.rs:206-209 | while the sequence has not moved, every word copied so far is of the current block |
| Seqlock.FullTurnsTear | engine/src/telemetry.cpp:227-242 | for every m >= 1, after m times 2^31 publications during one copy a block that was never published can be accepted |
| Seqlock.TearsExactly | src-tauri/src/shm.rs:198-216 | a copy over a given number of moves can be accepted without being a published block if and only if these are one or more full turns |
| Seqlock.StillRead | src-tauri/src/shm.rs:198-216 | while nothing is published an attempt returns the whole current block if magic and version are right, and is otherwise lost; the 64th lost attempt ends the call |
| Seqlock.MovedRefused | src-tauri/src/shm.rs:198-216 | an attempt that begins during a publication, or finds the number moved at its end, is lost |
| DelayLine.PdcDelayLine.Prepare | engine/src/pdc_delay_line.cpp:8-25 | succeeds exactly when the capacity fits and memory is there, and leaves a silent line of that capacity; each failure's effect on the old line |
| DelayLine.PdcDelayLine.Reset | engine/src/pdc_delay_line.cpp:27-35 | the line is as new |
| DelayLine.PdcDelayLine.SetDelay | engine/src/pdc_delay_line.cpp:37-46 | accepted exactly for delays within the maximum and 32 bits on a prepared line; only the request changes |
| DelayLine.PdcDelayLine.ApplyPendingRequest | engine/src/pdc_delay_line.cpp:48-64 | applies the pending pair to the glide as specified, or nothing when it is the applied one |
| DelayLine.PdcDelayLine.ReadBack | engine/src/pdc_delay_line.cpp:66-70 | the ring cell is the frame that many positions back in the infinite history |
| DelayLine.PdcDelayLine.ProcessSample | engine/src/pdc_delay_line.cpp:77-90 | one sample extends the history and yields the specified mix of two delayed frames |
| DelayLine.PdcDelayLine.ProcessFrames | engine/src/pdc_delay_line.cpp:76-91 | a block adds the specified outputs to the buffer and touches nothing beyond it |
| DelayLine.PdcDelayLine.ProcessAdd | engine/src/pdc_delay_line.cpp:72-92 | a call is one block of the history model, silent inputs included; without ring or output it does nothing |
| DelayLine.OutputsAreMixes | engine/src/pdc_delay_line.cpp:72-92 | after any requests and blocks, each output is (1-a) x[n-current] + a x[n-target] with the line's own glide: target is the delay requested last, a its progress in [0,1), both delays within the maximum |
| DelayLine.RequestTakesEffect | engine/src/pdc_delay_line.cpp:37-92 | after any requests and blocks and an accepted request, every output past the transition's samples is exactly x[n-delay] for the requested delay |
| DelayLine.SetLineDelays | engine/src/pdc_delay_line.cpp:37-92 | a prepared line with its delay set puts out the stream delayed by it, however cut into blocks: the delay that the mixer's dataflow uses |
| DelayLine.CutsDoNotMatter | engine/src/pdc_delay_line.cpp:75-91 | cutting a block in two changes neither outputs nor line |
| DelayLine.BlocksDoNotMatter | engine/src/pdc_delay_line.cpp:75-91 | between two requests only the samples count, however they are cut into blocks |
| DelayLine.TransitionStarts | engine/src/pdc_delay_line.cpp:48-64 | after a request the line aims at its delay and glides exactly when a transition to another delay is asked for, from where it was, for that many samples unless it repeats the applied request |
| DelayLine.TransitionIsLinear | engine/src/pdc_delay_line.cpp:81-87 | output i of a new transition over n samples is i of n parts of the way from the input at the old delay to the input at the new one |
| DelayLine.ChannelsKept | engine/src/pdc_delay_line.cpp:76-89 | an undelayed line puts out left on the left and right on the right, and silence for a missing channel |
| DelayLine.RepeatedRequestIgnored | engine/src/pdc_delay_line.cpp:50 | repeating a request changes nothing later |
| DelayLine.PlannedLine | engine/src/pdc_delay_line.cpp:13-16 | a line prepared for a plan's limits allocates the bytes the planner counted for it |
| DelayLine.PlannedDelayAccepted | engine/src/audio_engine.cpp:990-992 | a line prepared for the plan's path limit takes a planned delay exactly when it fits 32 bits |
| Audio.TowardBetween | engine/src/resampler.hpp:69-70 | an interpolated sample lies between its neighbours |
| Resampler.DriftReader.Adjust | engine/src/resampler.hpp:27-38 | the feedback starts at the target fill and smooths the correction as specified |
| Resampler.DriftReader.Advance | engine/src/resampler.hpp:46-68 | one output moves the head by the whole part of the position over the stream as it grows, or runs out exactly when too few frames are there |
| Resampler.DriftReader.Fill | engine/src/resampler.hpp:45-71 | every output is written, and nothing else; head, consumption and underrun count end as specified over the stream the writer extends meanwhile |
| Resampler.DriftReader.Read | engine/src/resampler.hpp:20-72 | with a writer running between any two FIFO accesses, a call relieves an overrun, then writes exactly the requested outputs, each a function of its position i * step in the stream as it is at the end, and without underrun consumes the whole frames of the last position |
| Resampler.CorrectionBounded | engine/src/resampler.hpp:33-37 | the correction stays within 500 ppm |
| Resampler.SmoothedGrows | engine/src/resampler.hpp:34-36 | more frames waiting never lower the correction |
| Resampler.FeedbackFromRest | engine/src/resampler.hpp:34-36 | from rest the correction has the sign of the surplus over the target, in proportion to it up to the clamp |
| Resampler.SmoothedForgets | engine/src/resampler.hpp:36-36 | an earlier correction fades by a ten-thousandth per call and adds to what the fill level asks for |
| Resampler.TargetIs20Ms | engine/src/resampler.hpp:27-28 | the target is the largest level within 20 ms and a quarter of the ring |
| Resampler.RelievedToHalf | engine/src/resampler.hpp:41 | above three quarters of the ring the newer half is kept, otherwise everything |
| Resampler.OneSecond | engine/src/resampler.hpp:43-46 | the outputs of one second advance by one second of source times the correction |
| Resampler.OutputBetween | engine/src/resampler.hpp:45-71 | while the source suffices, an output lies between the two consecutive source frames of its position; after that it is silence |
| Resampler.OutputDivides | engine/src/resampler.hpp:45-70 | each output divides the two source frames around its position in the ratio of the position's fraction |
| Resampler.ConsumesFloor | engine/src/resampler.hpp:45-71 | the whole frames of the last position are floor(pos + n * step), which a call without underrun consumes |
| Resampler.WalkMoves | engine/src/resampler.hpp:45-68 | stepping sample by sample gets to the place a single move would |
| Resampler.StoppedSilent | engine/src/resampler.hpp:54-66 | after an underrun the rest of the call is silence, and nothing is left |
| SortedLists.SortUnique | engine/src/audio_engine.cpp:1697-1698 | sorting and removing repeats yields a strictly ascending list of the same ids |
| SortedLists.StrictDetermined | engine/src/audio_engine.cpp:1738-1739 | such a list is determined by its ids |
| TrackTable.CyclicGraph | engine/src/track_graph.cpp:120-153 | the graph by position has a cycle exactly when the table has one by ids |
| TrackTable.AudioEngine.HasRoutingCycle | engine/src/track_graph.cpp:151-153 | decides that |
| TrackTable.AudioEngine.TrackAdd | engine/src/audio_engine.cpp:1375-1419 | a new track with the next id and default settings at the end, or refused at the limit |
| TrackTable.AudioEngine.TrackRemove | engine/src/audio_engine.cpp:1421-1452 | the track and all edges to it are gone; unknown tracks and system outputs are refused |
| TrackTable.AudioEngine.TrackSet | engine/src/audio_engine.cpp:1454-1471 | stores the given settings; a bad gain is refused after the color |
| TrackTable.AudioEngine.TrackSetOutputLatencyPolicy | engine/src/audio_engine.cpp:1473-1497 | stores the policy of an output track or rolls back |
| TrackTable.AudioEngine.TrackSetDests | engine/src/audio_engine.cpp:1682-1719 | check, sort, commit or roll back, as one transaction |
| TrackTable.AudioEngine.CommitSidechains | engine/src/audio_engine.cpp:1753-1775 | swaps all lists in and, on any failure, back |
| TrackTable.AudioEngine.TrackSetSidechain | engine/src/audio_engine.cpp:1721-1776 | check, transpose, commit or roll back, as one transaction |
| TrackTable.AudioEngine.TrackMove | engine/src/audio_engine.cpp:1830-1846 | moves the track to the index, past the end to the end |
| TrackTable.AudioEngine.SetTrackSystemRole | engine/src/audio_engine.cpp:2406-2413 | stores role and matching policy of a known track |
| TrackTable.AudioEngine.EnsureOutputs | engine/src/track_graph.cpp:207-257 | demotes, assigns or creates system outputs as specified; a change is reported exactly when there is one |
| TrackTable.AudioEngine.ClearAllTracks | engine/src/audio_engine.cpp:2415-2426 | no tracks are left, the id counter goes on |
| TableInvariant.CommandsKeepInvariant | engine/src/audio_engine.cpp:1375-1497 | after every command sequence during which the id counter does not wrap: ids unique and below the counter, edges sorted to existing other tracks, dests never to input tracks, sidechains only from input to FX tracks, all edges jointly acyclic |
| TableInvariant.FewerEdges | engine/src/track_graph.cpp:120-153 | removing edges keeps a table acyclic |
| RoutingCommands.ReroutingCycle | engine/src/audio_engine.cpp:1702-1705 | rerouting a track closes a cycle exactly when a new dest already leads back to it |
| RoutingCommands.SetDestsOutcome | engine/src/audio_engine.cpp:1682-1719 | exactly when a dest command succeeds and when it is refused for a cycle; refused, the table is as before; accepted, the track's dests are the listed ones and nothing else changed |
| RoutingCommands.SidechainNeverCycles | engine/src/audio_engine.cpp:1759-1762 | on a valid table an admissible sidechain list never closes a cycle |
| RoutingCommands.SetSidechainOutcome | engine/src/audio_engine.cpp:1721-1776 | exactly when a sidechain command succeeds; refused, the table is as before; accepted, exactly the listed tracks feed the FX track and no other edge changed |
| RoutingCommands.RefusedSetting | engine/src/audio_engine.cpp:1462-1467 | a refused setting changes nothing unless it came with a new color |
| CommandOutcomes.AddOutcome | engine/src/audio_engine.cpp:1375-1419 | refused exactly at 128 tracks; otherwise one track with the next id, unity gain and no edges is appended, colored as asked or by the palette in turn |
| CommandOutcomes.RemoveOutcome | engine/src/audio_engine.cpp:1421-1452 | succeeds exactly for a known track without a system role; refused, the table is as before; otherwise the others keep order and settings and lose just their edges to the removed track |
| CommandOutcomes.SetOutcome | engine/src/audio_engine.cpp:1454-1471 | refused exactly for an unknown track or a gain outside 0 to 4; the color of a known track is stored anyway, gain and mute only on success, and no other track changes |
| CommandOutcomes.SetPolicyOutcome | engine/src/audio_engine.cpp:1473-1497 | succeeds exactly for an output track that has the policy already or whose new graph could be prepared and published |
| CommandOutcomes.MoveOutcome | engine/src/audio_engine.cpp:1830-1846 | a known track lands at the index, at most the last, and the others keep their order |
| CommandOutcomes.SetRoleOutcome | engine/src/audio_engine.cpp:2406-2413 | a known track gets the role and the policy that goes with it; an unknown one changes nothing |
| CommandOutcomes.SystemOutputPolicies | engine/src/track_graph.cpp:207-257 | wherever ensuring the system outputs assigns, creates or demotes one, a monitor output is low-latency and a stream or demoted output has full compensation; every other track is as before |
| CommandOutcomes.HoldersReduced | engine/src/track_graph.cpp:211-224 | of several holders the first stays and the later ones lose the role |
| CommandOutcomes.FreeOutputTaken | engine/src/track_graph.cpp:225-235 | without a holder the first output track without a role takes it |
| CommandOutcomes.OutputMade | engine/src/track_graph.cpp:236-256 | without holder and free output a new output with the next id is appended for the role |
| CommandOutcomes.MonitorFirst | engine/src/track_graph.cpp:210-256 | the monitor output is seen to first: it gets the first free output, or the first track made |
| CommandOutcomes.SetDestsErrors | engine/src/audio_engine.cpp:1684-1718 | the first bad dest decides the error, before cycles, which come before the gates |
| CommandOutcomes.SetSidechainErrors | engine/src/audio_engine.cpp:1721-1775 | kind, then the first bad source, then the gates decide the error |
| TableRuns.IdsNotReissued | engine/src/audio_engine.cpp:1383 | a track that was not there before has an id never issued before, over every command sequence during which the id counter does not wrap |
| TableRuns.WrapReissues | engine/src/audio_engine.cpp:1383 | when it does wrap, the id of a track still in the table is issued again |
| TableRuns.EnsureOutputsExactlyOne | engine/src/track_graph.cpp:207-257 | afterwards exactly one track is the monitor output and exactly one the stream output |
| TableRuns.RolesStay | engine/src/audio_engine.cpp:1426-1431 | no command but a role assignment or clearing removes or moves a system output |
| Session.Serialize | engine/src/session.cpp:126-190 | the saved records, with the sidechain edges transposed to source lists |
| Session.Load | engine/src/session.cpp:293-607 | rebuild, reconnect dests, reconnect sidechains, ensure outputs, as specified for arbitrary parsed files |
| SessionTheorems.LoadKeepsInvariant | engine/src/session.cpp:293-592 | whatever the file holds, a load ends in a valid table, with both system outputs if it had a track list and without any track if not; a refused file changes nothing |
| SessionTheorems.VersionsNarrowed | engine/src/session.cpp:293-299 | the version is read modulo 2^32: files whose versions agree so are loaded alike, and within 32 bits exactly versions 2 to 4 are supported |
| SessionFormat.NamesSaved | engine/src/session.cpp:126-190 | the words written for kinds, roles and policies |
| SessionFormat.FileRefused | engine/src/session.cpp:293-307 | the three refusals of a file and when each is given |
| SessionFormat.RecordsRebuilt | engine/src/session.cpp:351-391 | for arbitrary records the first pass makes one track for each record with a kind, in order under consecutive ids, with the kind, role, color, policy, gain and mute the record asks for, and each old id stands for the last record that has it |
| SessionFormat.LoadedTracks | engine/src/session.cpp:351-592 | after the whole load the i-th track is the one made of the i-th good record, but for its edges and for what ensuring the system outputs changes |
| SessionFormat.VersionPolicies | engine/src/session.cpp:384-390 | files of version 3 and 4 restore the policy of an output track, files of version 2 leave the one of its role |
| SessionFormat.MappedExactly | engine/src/session.cpp:553-562 | of a list exactly the ids that stand for a loaded track of the right kind are reconnected |
| SessionTheorems.RoundTrip | engine/src/session.cpp:301-592 | loading the serialization of a valid table with both outputs gives that table under consecutive new ids if it has at most 128 tracks, and is refused without effect otherwise |
| SessionTheorems.TooManyToLoad | engine/src/session.cpp:301-307 | a command sequence leads to a valid table of 130 tracks, which is saved and refused when loaded |
| SessionTheorems.RewireNext | engine/src/session.cpp:545-564 | no dest reconnection is refused on the way |
| SessionTheorems.RefeedNext | engine/src/session.cpp:568-587 | no FX sidechain reconnection is refused, and each restores its transposed edges |
| SessionTheorems.RenamedIsomorphic | engine/src/session.cpp:351-390 | the result has the same tracks, settings and edges under the id map; the color survives exactly when it is not black |
| SessionTheorems.RenamedSameGraph | engine/src/session.cpp:543-587 | by position the processing graph is the same |
| TablePlans.ValidTablePlans | engine/src/audio_engine.cpp:66-100 | a valid table is never refused a plan for ids, edges or cycles, only for sizes |
| TablePlans.SpecsCarry | engine/src/audio_engine.cpp:66-80 | the planner is given each track under its id with its mute, policy, slots and edges; exactly the output tracks are outputs |
| TablePlans.EnginePlanFits | engine/src/audio_engine.cpp:97-99 | under the engine's limits the byte count is exact and every delay fits the lines it prepares |
| TablePlans.ValidTableOrderly | engine/src/audio_engine.cpp:66-100 | every valid table meets the conditions of the suspended-mix theorem |
| Preset.NormalizeUid | engine/src/vst3_host.cpp:138-149 | strips separators, upper-cases, and accepts exactly 32 hex digits |
| Preset.SavePreset | engine/src/vst3_host.cpp:743-803 | the container bytes as specified |
| Preset.ReadAndValidate | engine/src/vst3_host.cpp:162-246 | the checks in order, each with its error, and the ranges found |
| Preset.RestoreParams | engine/src/vst3_host.cpp:853-872 | the host table after the stored values, first matching entry each, and whether the file was used |
| PresetTheorems.AcceptedInside | engine/src/vst3_host.cpp:202-245 | for arbitrary bytes, an accepted file has every chunk range inside, a component state, and a matching class id |
| PresetFormat.TagsAreCharacters | engine/src/vst3_host.cpp:98-105 | the words compared with are the characters VST3, List, Comp, Cont, Cntc and RmxP |
| PresetFormat.WordsLittleEndian | engine/src/vst3_host.cpp:108-125 | words are read low byte first |
| PresetFormat.RefusedFirst | engine/src/vst3_host.cpp:178-218 | for arbitrary bytes, which complaint is made first: size, header, class id, chunk list, more than 64 entries |
| PresetFormat.ScanStops | engine/src/vst3_host.cpp:219-231 | the first entry outside the file, or with its chunk outside, ends the scan with the matching error |
| PresetFormat.AcceptedLast | engine/src/vst3_host.cpp:219-245 | an accepted file has the ranges of the last entry of each kind; it is accepted exactly when no entry is bad and its last component state is not empty |
| PresetFormat.LegacyController | engine/src/vst3_host.cpp:104-104 | the chunk of a last controller entry tagged Cntc is the controller state |
| PresetFormat.SavedHeader | engine/src/vst3_host.cpp:779-790 | a saved file has tag, version, the first 32 characters of the id padded with zeros, and the chunk list where it says |
| PresetFormat.SavedOrder | engine/src/vst3_host.cpp:766-803 | the chunks stand one behind the other after the header in the order component, controller, parameters, and the list names them in that order |
| PresetFormat.NormalIgnores | engine/src/vst3_host.cpp:140-141 | a brace, dash or space anywhere in a class id makes no difference |
| PresetFormat.NormalRaises | engine/src/vst3_host.cpp:142-142 | nor does it whether a letter is small |
| PresetFormat.NormalCanonical | engine/src/vst3_host.cpp:138-149 | 32 upper-case hex digits stay as they are, and nothing else is ever returned |
| PresetFormat.NormalRefuses | engine/src/vst3_host.cpp:144-147 | without separators anything but 32 hex digits is refused |
| PresetFormat.UntilZeroHasNone | engine/src/vst3_host.cpp:192-194 | the class id of a header ends before its first zero |
| PresetFormat.RestoreOutcome | engine/src/vst3_host.cpp:853-872 | for arbitrary bytes the table is taken exactly when its chunk has room for the counted entries; the first host parameter with an id then has the value of the last entry with it, and nothing else changes |
| PresetTheorems.SavedLoadsBack | engine/src/vst3_host.cpp:162-246 | a saved preset loads back, with exactly the saved ranges, if and only if it is within 64 MiB, has a component state and the id is valid with 32 plain first characters |
| PresetTheorems.SavedRanges | engine/src/vst3_host.cpp:766-803 | the ranges hold exactly the saved component, controller and parameter bytes |
| PresetTheorems.UidRoundTrip | engine/src/vst3_host.cpp:782-784 | the stored class id names the same class exactly when its first 32 characters are plain |
| PresetTheorems.ParamsRoundTrip | engine/src/vst3_host.cpp:853-872 | for distinct parameter ids, loading restores exactly the saved host table |

## Left out

- Crossfades and gain ramps in the audio callback: faders are at rest and the monitor crossfade is finished.
- Pointer ping-pong between the scratch buffers of the audio callback: buffers are values, so aliasing of the reused primary buffer is not captured, and the callback's dataflow is written as functions.
- A plugin that fails to process falls back to the delayed dry signal: this is part of the abstract plugin function.
- Floating-point rounding, libebur128, spectrum and meters: samples are reals and meters are not modelled.
- Weak memory orderings: every atomic access is one sequentially consistent step.
- Devices, plugins, windows, JSON parsing and file I/O: they appear as parameters (whether memory could be had, whether monitor variants and the graph could be prepared, the parsed session, the bytes of a file).
- Names, sources, sinks and plugin chains of tracks, and the plugin part of a session.
- The engine destructor's final reap, and candidates that fail before publication.
- plan_telemetry_strips, the channel union, router decoding and settings: easy members.
- SuspendedMix.SuspendedMixIsDelayedMix: assumes dest lists without repeats and that tracks with a source take no input, which every valid table guarantees (TablePlans.ValidTableOrderly).
- SharedMonitor.SharingIsSound: its low-latency half assumes a shadow instance behaves as its primary, and that every shadow the plan uses is active.
- Loudness.StoppedMetersAll: each FIFO write or read is one step on the queue it stands for (SpscFifo proves that queue for one writer and one reader), and the interleave buffer is part of the capture call that fills it.
- SpscFifo.Fifo.Write: one ring of stereo frames stands for the interleaved floats, and the index mask is the remainder by a power of two.
- Resampler.DriftReader.Read: the destination rate is positive; a zero rate makes the step infinite or not a number, which reals do not have.
- TrackTable.AudioEngine.TrackSetDests: asks for unique ids, which the invariant provides; so do the sidechain command and the cycle check.
- TableInvariant.CommandsKeepInvariant: as long as the 32-bit id counter does not wrap, which a caller sees before each command; ids are not unique for good after that (TableRuns.WrapReissues). The same holds for TableRuns.IdsNotReissued.
- Session.Load: the id counter does not wrap during a load, and each preparation succeeds or fails alike throughout it.
- RoutePlanner.PlanRoutes: the defensive second topology check cannot fire after the first phase and is not a branch of the model.
- TablePlans.EnginePlanFits: sample rates below 2^31, so that two seconds fit the 32-bit delay request.
