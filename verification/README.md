# Verified model of the Mondrian audio engine, ancillary codecs and folder forest

The project models three parts of Mondrian and proves what each of them is for.

**The audio engine** (`crates/mondrian-audio`). A mixer graph of tracks, buses and one output, with sidechains, is
reduced to what one public output can hear, put into topological order, and lowered into a dense schedule: ranges,
delay compensation, sidechain bindings, scratch slots. A Session runs the schedule block by block under a continuity
state machine. The central results are:

- `Delivery.Deliver`: prepare a compiled program, enter an epoch, render any sequence of blocks. For processors that
  hold state, look ahead by their declared latency and listen to sidechains (`Compensation.Compensable`: gain, sample
  delay, limiter), each delivered frame equals the mix that the program itself means without any delay
  (`ProgramMix.ProgramOutput`), from the first sample on. Preparation fails exactly for `Preparation.Obstacle`, a
  condition on the program, and nothing else fails unless a named cause is present.
- `Session.AudioRenderSession.RenderInto`: for arbitrary processors that obey the streaming law, the in-place
  execution with reused scratch slots, delay lines, priming and poisoning delivers exactly the stream that
  `Schedule.PublicAt` defines without buffers, blocks or state; afterwards all DSP state is again that of the stream.
- `Topology`, `Selection`, `Latency`, `Scratch`: both Kahn loops succeed exactly on acyclic graphs; the sidechain
  fixpoint is the least one; every path is aligned to the longest path; first-fit slots are safe and optimal.
- `SelectionLaw.SelectionIsEnough`: the selected part of a mixer sounds like all of it, and what is dropped is silent
  whatever it plays (`SelectionLaw.SilencedExactly`).
- `Tails`, `BuiltInTails`: what a declared tail promises, so that a prepared extent cuts nothing off. `GainLaw`,
  `MixingDesk`: what every gain of a program does to its samples, in real numbers.
- `Playback.Drive`: any calls in any order, against the continuity machine: what one failed processor means for
  everything that follows.
- `Limiter`, `PeakWindow`: the ring deque computes the sliding maximum, and the gained sample is within the ceiling
  before the final clamp. `LimiterLaw.CompensableExactly`: when its lookahead can be compensated.
  `RisingCeiling.RisingIsHeard`: a program that is delivered as something else because it cannot.
- `ScopeSidechain`: when a clip hears its sidechain in time, and when the partition into blocks is heard instead.
- `MeterLock`: the sequence lock as interleaved atomic steps of one writer and any number of readers.
- `NestedSource`, `MediaSource`: window caches that agree with the stream they cache. `NestedSource.ReadLiveBlocks`: a
  live child gives the blocks of an outer Session the source PCM of one stream.
- `Dependency`: the closure of media and Sequences that one window depends on, exactly, through nested time maps.
  `GridSelection` compares it with the frames that playback reads, clip by clip and through chains of clips.
- `Admission`: a nested closure of runtimes fits its grant exactly when its total does.

**ST 291 packets and the v210 VANC codecs** (`crates/mondrian-broadcast`, `native/`). `AjaRaster.Transmit` and
`DeckLinkLine.TransmitLine` are the end-to-end round trips: construct, encode, write into a raster, scan, decode.
The fields, parity and checksum are those of SMPTE ST 291-1 (restated in section 2.1 of RFC 8331).

**The folder forest** (`crates/mondrian-assets`). Batch moves and deletions as all-or-nothing table updates.

## How the model is built

- PCM is exact: a sample is a `real`, a `Frame` holds one sample for each channel. Automation, fades and edit gains are
  functions of the Sequence sample; decibel conversion is any positive function that is one at zero.
- A processor is a state machine over blocks. `Processors.Streaming` is the law the Host relies on: same length, the
  same PCM for every partition into blocks, no history unless declared. A processor may fail at any call.
- `Compensation.Compensable` is what delay compensation needs on top: nothing leaves a processor within its latency, and
  silence before an entry means nothing to it. A rack without delays (`Compensation.Advanced`) takes every output early
  by the latency of its processor. The built-in processors are the instances.
- `Tails.KeepsTail` is what a declared tail promises: silent once latency and tail have passed after everything that the
  processor hears fell silent. A contribution of such processors has no end of its own in the meaning of a program.
- What a schedule means is defined twice, independently: `Schedule` gives the stream at every port with all delays in
  it; `Transparency` and `ProgramMix` give the mix of a mixer that delays nothing. Execution is proved against the
  first, and the first against the second.
- Objects that the program updates in place are classes here: the Session, delay lines, the peak window, the limiter,
  the sample delay, the meter bank, the source windows, the admission ledger, the asset library. Rasters are arrays.
- Ghost state (`entry`, `requests`, `feed`, `stamps`, `entries`, `stale`) records history for specifications only.

## Findings

- `crates/mondrian-audio/src/dependency.rs:318-354`: dependency selection is exact on times but not on the sample grid. The
  frame that covers the first selected source time may begin before the window. `GridSelection.EndDecides` and
  `GridSelection.FrozenDecides` say exactly when one nested clip loses a placement that is heard: its first frame (the last
  one under a reversed map) begins before the image of the window, or a frozen map does not stand on a frame it covers.
  `GridSelection.ChainDecides` says it through any chain of clips: cut the window to each placement and map it through each
  clip; what is heard behind them is kept exactly when some window is left, the frame does not begin before it, and begins
  below its end or on an end that belongs to it. `GridSelection.LeavesOutHeardMedia` is a project in which the first sample
  of a range plays media that its closure lacks. `GridSelection.CollectsHeard`: nothing is lost at frames that are kept, and
  nothing at all when every nested clip takes samples onto samples, which `GridSelection.OnGridExactly` reads off the map.
- `crates/mondrian-audio/src/runtime.rs:963-974`: a media window whose refill failed answers the next read of the same window
  with silence and reports success (`MediaSource.RetryIsSilent`). `MediaSource.MediaRuntimeSource.Fetch` states exactly when
  an answer is the media.
- `crates/mondrian-audio/src/meter.rs:142-212`: the meter sequence lock is safe unless one reader call is overtaken by at
  least 2^63 publications; at exactly that many a torn snapshot is accepted (`MeterLock.LappedReaderIsTorn`).
- `crates/mondrian-audio/src/processor_host.rs:280-319`: a processor without declared state that fails once silences its
  Session for good, since state entry does not reset it. `Session.AudioRenderSession.EnterState` succeeds exactly when the
  epoch is new, no such instance has failed and every state entered at once admits it. `Playback.Drive`: once stuck, every
  later entry fails; as long as no processor without declared state fails, every entry into a new epoch recovers.
  `Witness.GlitchIsFinal` is a plan in which one bad block ends the run of every later call.
- `crates/mondrian-audio/src/schedule.rs:1223-1240`: a sidechain that arrives after the main input of its processor cannot be
  prepared, although its graph is acyclic. `Preparation.Obstacle` says exactly when, from the declared latencies of the
  program; `Witness.KeyedDecides` is a program of two tracks that is refused exactly when the keying track is later than the
  keyed one.
- `crates/mondrian-audio/src/lookahead_limiter.rs:325-415`: the limiter is not always a pure shift of what it does. Entered
  behind other latency, its gain follower has heard the ceilings of the time before the first frame.
  `LimiterLaw.CompensableExactly`: it is one exactly when it has no lookahead, or its ceiling never rises from one sample to
  the next while the release takes any time; `LimiterLaw.ClickDiffers` shows it behind any latency. In
  `RisingCeiling.RisingIsHeard` a track holds two limiters, the second one with a rising ceiling: every call succeeds, and the
  first delivered frame is not the program's mix.
- `crates/mondrian-audio/src/processor_host.rs:529-533`, `crates/mondrian-audio/src/render.rs:794-809`: the rack of a clip
  runs over the executing part of a block, but its sidechains are read from the begin of the block.
  `ScopeSidechain.AlignedExactly`: as soon as it hears anything, it hears what was carried at the same time exactly when a
  block begins where the rack begins. `ScopeSidechain.PartitionIsHeard`, `ScopeSidechain.PartitionIsPlayed`: two samples
  rendered as one block or as two give different PCM.

## Model

| member | source | states |
|---|---|---|
| Delay.SplitBlock | crates/mondrian-audio/src/delay.rs:22-47 | splitting a block anywhere changes neither emitted samples nor final content |
| Delay.EmittedIsShift | crates/mondrian-audio/src/delay.rs:12-47 | a fresh line shifts a whole input by exactly its length |
| Delay.FixedDelayLine.constructor | crates/mondrian-audio/src/delay.rs:12-17 | starts out holding silence of the prepared length |
| Delay.FixedDelayLine.AddInterleaved | crates/mondrian-audio/src/delay.rs:22-47 | adds the queue's oldest samples, keeps the newest; a size mismatch changes nothing |
| Delay.FixedDelayLine.AddInterleavedConstant | crates/mondrian-audio/src/delay.rs:49-72 | the same with one gain on the delayed sample |
| Delay.FixedDelayLine.AddWithGains | crates/mondrian-audio/src/delay.rs:74-107 | the gain at the destination position multiplies the delayed sample |
| Delay.FixedDelayLine.Reset | crates/mondrian-audio/src/delay.rs:109-112 | the line is as constructed again |
| Processors.Continue | crates/mondrian-audio/src/processor_host.rs:322-456 | a block processed from held state succeeds exactly when the longer run does, and appends to it |
| Processors.RunPrefix | crates/mondrian-audio/src/processor_host.rs:322-456 | later input cannot change what already left a processor |
| Processors.StageAt | crates/mondrian-audio/src/processor_host.rs:322-456 | what left a rack after n frames is a prefix of what leaves it in the end |
| SourceFrames.TimeMap.Map | crates/mondrian-audio/src/plan.rs:61-71 | exact affine source time of a Sequence time |
| SourceFrames.TimeMap.FrameAt | crates/mondrian-audio/src/plan.rs:76-87 | the frame covering the exact position, or the last one strictly before it |
| SourceFrames.NumeratorIsPosition | crates/mondrian-audio/src/render.rs:921-970 | the incremental numerator over the fixed denominator is the exact position of every sample |
| SourceFrames.DivisionPrecedes | crates/mondrian-audio/src/render.rs:951-970 | one less in the numerator turns floor into strict predecessor |
| SourceFrames.PrepareSourceFrames | crates/mondrian-audio/src/render.rs:921-970 | every frame of every block gets its exact demand for any speed sign, wherever the block starts |
| Topology.PreparedNodeOrder | crates/mondrian-audio/src/schedule.rs:1474-1558 | succeeds exactly when all endpoints exist and main plus sidechain edges are acyclic; the order is the greedy permutation, and a refusal names the first thing that is missing |
| Topology.GreedyIsOrder | crates/mondrian-audio/src/schedule.rs:1520-1558 | a greedy order is a permutation in which every edge leads forward |
| Topology.Decides | crates/mondrian-audio/src/schedule.rs:1540-1558 | a loop without ready nodes placed all nodes exactly when there is no cycle |
| Topology.StuckIsCyclic | crates/mondrian-audio/src/schedule.rs:1540-1558 | nodes that all wait for one another contain a cycle |
| Topology.OrderCounted | crates/mondrian-audio/src/schedule.rs:1520-1558 | Kahn's loop never decrements a zero counter and always takes the least ready node |
| Topology.OutputIsLast | crates/mondrian-audio/src/schedule.rs:1474-1558 | the output node is last in every successful order |
| Topology.CausalityChecksNeverFire | crates/mondrian-audio/src/schedule.rs:1091-1096 | after ordering, every Route and sidechain leads forward and the output comes last |
| Topology.TopologicalBusOrder | crates/mondrian-audio/src/compiler.rs:557-596 | succeeds exactly when the selected bus Routes are acyclic; parallel Routes are counted and counted down one by one |
| Selection.ResolveSignalClosure | crates/mondrian-audio/src/compiler.rs:507-555 | the least set closed under enabled Routes that are not behind the mute of a muted track, into output and additional buses, and exactly its Routes |
| Selection.SelectSidechains | crates/mondrian-audio/src/compiler.rs:42-117 | the loop ends, at the least facts that obey the rules of influence |
| Selection.PassIsMonotone | crates/mondrian-audio/src/compiler.rs:400-505 | more sidechains derive more heard strips and more sidechains |
| Selection.PassStaysBelow | crates/mondrian-audio/src/compiler.rs:42-117 | no pass selects anything that some rule-obeying set could do without |
| SelectionLaw.SilencedExactly | crates/mondrian-audio/src/compiler.rs:522-529 | a tap is dropped exactly when its port carries silence in every program muted like the mixer, whatever is played; every other tap is audible in some program |
| SelectionLaw.RulesSupport | crates/mondrian-audio/src/compiler.rs:42-117 | facts that obey the rules of influence name every Route and sidechain tap that feeds what they name |
| SelectionLaw.SelectionDecides | crates/mondrian-audio/src/compiler.rs:42-117 | two programs that agree on everything selected have the same output, whatever unselected strips, Routes and sidechains carry |
| SelectionLaw.SelectionIsEnough | crates/mondrian-audio/src/compiler.rs:42-200 | the program without unselected Routes, strips, rear racks and clips has the output of the whole one |
| Noninterference.RoutesAreFeeds | crates/mondrian-audio/src/render.rs:590-607 | Routes whose taps are muted add nothing to a sum |
| Noninterference.AgreePort | crates/mondrian-audio/src/render.rs:568-642 | programs that agree on everything that reaches a port carry the same there, up to how gains are written |
| Latency.SolvePreparedLatency | crates/mondrian-audio/src/latency.rs:48-115 | the plan solves the latency and Route equations, or none exists that fits; each error names its cause; contributions are aligned for their last owner, for all owners when ranges follow node order |
| Latency.OrderedIsSolved | crates/mondrian-audio/src/latency.rs:64-76 | ranges in node order give every contribution one owner |
| Latency.LatenciesUnique | crates/mondrian-audio/src/latency.rs:62-106 | the equations determine every node latency |
| Latency.EveryPathAligned | crates/mondrian-audio/src/latency.rs:62-106 | along every path intrinsic latency, compensation and racks sum to the same, and no raw path is longer |
| Latency.OutputPathsAligned | crates/mondrian-audio/src/latency.rs:108-115 | every path through the output takes exactly the output latency |
| Latency.LongestPathAttained | crates/mondrian-audio/src/latency.rs:62-106 | some path reaches each node without any compensation |
| Latency.SomeInputUndelayed | crates/mondrian-audio/src/latency.rs:66-93 | every non-empty sum has an input with zero compensation |
| Latency.ExceedsBound | crates/mondrian-audio/src/latency.rs:95-101 | a refused frame range needs that much delay in the topology |
| Latency.OutputBounded | crates/mondrian-audio/src/latency.rs:108-115 | the lookahead is at most everything that delays |
| Scratch.LastConsumers | crates/mondrian-audio/src/schedule.rs:1294-1298 | the last node that reads each node, or itself |
| Scratch.AssignLivenessScratch | crates/mondrian-audio/src/schedule.rs:1814-1826 | no two live nodes share a slot, and the count is the peak of live nodes |
| Scratch.NoFewerSlots | crates/mondrian-audio/src/schedule.rs:1814-1826 | no safe assignment uses fewer slots |
| Scratch.SourcesKeepTheirSlots | crates/mondrian-audio/src/schedule.rs:1294-1299 | no node up to the last consumer writes the slot of a source |
| Preparation.ContributionRanges | crates/mondrian-audio/src/schedule.rs:1047-1056 | each node's range holds exactly the contributions of its track |
| Preparation.LowerRoutes | crates/mondrian-audio/src/schedule.rs:1058-1115 | groups Routes by destination in their order; fails exactly for a Route that does not lead forward |
| Preparation.GroupingKeepsRoutes | crates/mondrian-audio/src/schedule.rs:1058-1115 | grouping neither loses nor doubles a Route |
| Preparation.BindStrips | crates/mondrian-audio/src/schedule.rs:1186-1290 | binds every sidechain with the delay its source lacks, exactly when all of them are timely |
| Preparation.CollectTaps | crates/mondrian-audio/src/schedule.rs:1282-1292 | every snapshot buffer is handed to exactly the node it taps |
| Preparation.SlotsKeepLatency | crates/mondrian-audio/src/schedule.rs:1715-1735 | the signal delay of a processor is the latency before it |
| Tails.RackTailIs | crates/mondrian-audio/src/schedule.rs:1737-1754 | the tail of a rack is infinite exactly when one of its processors has an infinite one, else the sum of all |
| Tails.RackFades | crates/mondrian-audio/src/schedule.rs:1702-1754 | a rack whose processors keep their declared tails is silent once the sum of them has passed after its input |
| BuiltInTails.DelayTailExactly | crates/mondrian-audio/src/built_in_processors.rs:168-183 | a delay keeps a declared tail exactly when latency and tail cover the delay |
| BuiltInTails.GainKeepsTail | crates/mondrian-audio/src/built_in_processors.rs:105-112 | the gain processor has no tail |
| BuiltInTails.LimiterKeepsTail | crates/mondrian-audio/src/lookahead_limiter.rs:77-84 | the limiter ends with the frames it holds, whatever its gain is doing |
| BuiltInTails.DelaysRingOut | crates/mondrian-audio/src/schedule.rs:987-1030 | a clip through two delays is heard both delays later to its last frame, and is executed for exactly that long |
| Preparation.PrepareSchedule | crates/mondrian-audio/src/schedule.rs:687-1457 | the schedule is well formed, carries the solved plan, tails and signal delays, says what the program says and demands entry exactly for a history; the error is exactly the obstacle of the program |
| Preparation.SolvedIsProgram | crates/mondrian-audio/src/schedule.rs:1117-1152 | as far as the solver got, its node latencies are those that the program determines |
| Preparation.RefusedForLatency | crates/mondrian-audio/src/latency.rs:95-101 | the solver refuses a prepared topology only when some latency of the program is no frame count |
| Preparation.SolvedFits | crates/mondrian-audio/src/schedule.rs:1146-1152 | a solved plan carries the latencies of the program, and they fit |
| Witness.DetectorIsCompensable | crates/mondrian-audio/src/tests.rs:213-232 | a processor that copies its detector bus to the main bus meets what compensation needs |
| Witness.KeyedDecides | crates/mondrian-audio/src/schedule.rs:1223-1240 | an acyclic program of two tracks is refused exactly when the sidechain source is later than the processor it keys |
| Witness.KeyedLimiters | crates/mondrian-audio/src/lookahead_limiter.rs:77-84 | the same with two limiters: what keys may not look further ahead than what is keyed |
| Preparation.AssembledHistoryless | crates/mondrian-audio/src/schedule.rs:1447-1456 | a plan that needs no state entry owns no history anywhere |
| Preparation.EntryIsNeeded | crates/mondrian-audio/src/schedule.rs:1447-1456 | a plan demands state entry exactly when it owns some history or some source asks for entry |
| Ordering.OrderLeadsForward | crates/mondrian-audio/src/schedule.rs:1223-1228 | a program laid out in the prepared order cannot fail the non-causal checks |
| ProgramMix.SamePort | crates/mondrian-audio/src/schedule.rs:687-1290 | every port of the schedule, without delays, is that port of the program, its racks and sidechains included |
| ProgramMix.PreparationKeepsMeaning | crates/mondrian-audio/src/schedule.rs:687-1182 | preparation keeps the meaning of the program at its output |
| ProgramMix.SameContribution | crates/mondrian-audio/src/schedule.rs:987-1030 | what the prepared extent executes of a contribution is what the program means, which has no end when tails are kept |
| ProgramMix.NothingIsCut | crates/mondrian-audio/src/schedule.rs:997-1030 | behind placement and tails nothing is left that could be cut off |
| GainLaw.TrimMultiplies | crates/mondrian-audio/src/render.rs:1091-1096 | a trim multiplies every sample |
| GainLaw.FaderMultiplies | crates/mondrian-audio/src/render.rs:1111-1134 | a fader multiplies every sample by its constant or by its curve at that sample |
| GainLaw.RouteMultiplies | crates/mondrian-audio/src/render.rs:1040-1069 | a Route adds every sample of its tap times its gain |
| GainLaw.SidechainMultiplies | crates/mondrian-audio/src/processor_host.rs:499-565 | a sidechain Route adds every sample of its tap times its gain to its own bus only |
| GainLaw.ScopeMultiplies | crates/mondrian-audio/src/render.rs:767-790 | a scope gain multiplies every source sample |
| GainLaw.EditMultiplies | crates/mondrian-audio/src/render.rs:799-866 | edit gains multiply every channel by its own, behind any scope rack |
| GainLaw.ConstantsAreCurves | crates/mondrian-audio/src/render.rs:1056-1068 | in any program a constant gain anywhere means the same as automation that never changes |
| GainLaw.OutputFaderMultiplies | crates/mondrian-audio/src/render.rs:1111-1134 | in any program whose output has no rear rack its fader multiplies every sample of the output |
| MixingDesk.DeskSounds | crates/mondrian-audio/src/render.rs:676-1154 | a muted track with pre- and post-fader sends through a bus: the output is a product of all gains on the way |
| MixingDesk.DeliverDesk | crates/mondrian-audio/src/render.rs:381-549 | and so is every delivered sample of it, for any gains and any blocks |
| Compensation.ProcessorArrives | crates/mondrian-audio/src/processor.rs:62-75 | a processor entered before the silence does late what it does without any delay |
| Compensation.RackArrives | crates/mondrian-audio/src/schedule.rs:1645-1735 | a rack fed late hands on, late by its own latency as well, what it does without delays |
| Compensation.PureVanishes | crates/mondrian-audio/src/tests.rs:260-312 | a rack that only delays by its declared latencies is not there in the mixer without delays |
| Compensation.PureIsCompensable | crates/mondrian-audio/src/tests.rs:260-312 | delaying by exactly the declared latency meets what compensation needs |
| Transparency.ContributionTransparent | crates/mondrian-audio/src/render.rs:696-892 | a contribution arrives late by its intrinsic latency, and its execution extent truncates neither it nor its tail |
| Transparency.RackTransparent | crates/mondrian-audio/src/render.rs:1072-1154 | a node rack hands on, late by its delay and latency, what its processors do without delays, state and lookahead included |
| Transparency.SidechainTransparent | crates/mondrian-audio/src/processor_host.rs:499-565 | when a processor hears the main signal of a time, its auxiliary buses carry the sidechains of the same time with gains read there |
| Transparency.HistoryArrives | crates/mondrian-audio/src/schedule.rs:1715-1735 | every processor hears its whole auxiliary history late by its own signal delay |
| Transparency.PortTransparent | crates/mondrian-audio/src/render.rs:568-642 | every port carries, late by its own latency, what the mixer without delays carries |
| Transparency.OutputTransparent | crates/mondrian-audio/src/render.rs:492-548 | the public output is the mixer without delays at every sample |
| Transparency.DelaysVanish | crates/mondrian-audio/src/tests.rs:260-312 | a node rack of pure delays leaves its input untouched in the mix |
| Transparency.ScopeDelaysVanish | crates/mondrian-audio/src/render.rs:767-860 | a scope rack of pure delays leaves source and gains untouched in the mix |
| Host.PrepareAuxiliary | crates/mondrian-audio/src/processor_host.rs:499-565 | every lane is delayed, gained at signal time and summed into its bus |
| Host.EnsureEntered | crates/mondrian-audio/src/processor_host.rs:362-399 | exact condition of every outcome of the per-instance continuity check |
| Host.ProcessSlot | crates/mondrian-audio/src/processor_host.rs:352-454 | one instance continues the run of the whole rack or becomes failed |
| Host.ProcessRack | crates/mondrian-audio/src/processor_host.rs:322-456 | from ready instances the contiguity check never fires, output continues the run, all are ready again |
| Host.CallFails | crates/mondrian-audio/src/processor_host.rs:438-443 | a failing call means that the processor fails on the longer run |
| Alignment.PortDelayed | crates/mondrian-audio/src/render.rs:972-1038 | a line holding the last frames of a port emits the port that many frames late |
| Alignment.AuxContinues | crates/mondrian-audio/src/processor_host.rs:499-565 | the auxiliary input of a block extends that of the epoch |
| Alignment.RackBlock | crates/mondrian-audio/src/render.rs:1072-1154 | one block through an aligned rack delivers the stream and leaves the rack aligned |
| Alignment.ContributionExecutionFrames | crates/mondrian-audio/src/render.rs:894-919 | exactly the executing samples of a block |
| Alignment.ExecutionTiles | crates/mondrian-audio/src/render.rs:894-919 | the extents of consecutive blocks tile the run of the scope rack |
| Render.ReadContribution | crates/mondrian-audio/src/render.rs:739-765 | source PCM of one contribution, silence outside its placement |
| Render.RunScope | crates/mondrian-audio/src/render.rs:767-860 | scope gain, rack and edit gain over the executing part of a block |
| Render.RenderContribution | crates/mondrian-audio/src/render.rs:696-892 | adds the contribution delayed by its compensation, also when nothing executes |
| Render.RenderTrackContributions | crates/mondrian-audio/src/render.rs:676-876 | the track input is the sum of all its contributions |
| Render.SumPreparedRoute | crates/mondrian-audio/src/render.rs:972-1038 | adds the delayed source port with gain read at the destination's signal time; touches one slot only |
| Render.SumIncoming | crates/mondrian-audio/src/render.rs:590-607 | the input of a bus or the output is the sum of its Routes although sources live in reused slots |
| Render.ProcessStrip | crates/mondrian-audio/src/render.rs:1072-1154 | the slot holds the three ports of the node: trim, rack, fader, rack, mute |
| Render.TakeSnapshots | crates/mondrian-audio/src/render.rs:622-633 | every tapped port of the node is copied before its slot can be reused |
| Render.WritingKeepsLive | crates/mondrian-audio/src/render.rs:568-642 | writing a node's slot keeps every node that still has consumers |
| Render.RenderNode | crates/mondrian-audio/src/render.rs:568-642 | one node of a block with reused slots gives the same ports, snapshots and state as with private buffers |
| Historyless.PortAlone | crates/mondrian-audio/src/render.rs:436-644 | without history a port carries at a sample what it would if the block began there |
| Historyless.BlockIsInstant | crates/mondrian-audio/src/render.rs:436-644 | a rendered block of a plan without history does not depend on where it begins |
| Session.AudioRenderSession.constructor | crates/mondrian-audio/src/render.rs:213-341 | a Session starts unentered with silent lines and created processors |
| Session.AudioRenderSession.EnterState | crates/mondrian-audio/src/render.rs:381-411 | exact continuity after entry; the same epoch twice in a row is refused untouched; any other entry succeeds exactly when nothing without declared state has failed and all eager states admit it |
| Session.EnterRack | crates/mondrian-audio/src/processor_host.rs:280-319 | enters or leaves pending every declared state; an invalid schedule is reported exactly for a failed instance without declared state, which stays as it is |
| Session.StuckPersists | crates/mondrian-audio/src/processor_host.rs:438-443 | rendering keeps a stuck plan stuck, and only a failing processor without declared state makes it so |
| Session.CulpritSticks | crates/mondrian-audio/src/processor_host.rs:292-295 | when only processors without declared state can fail, any failure is final |
| Session.AudioRenderSession.RenderInternal | crates/mondrian-audio/src/render.rs:551-644 | all nodes in order; the output slot holds the output ports at the end |
| Session.AudioRenderSession.Prime | crates/mondrian-audio/src/render.rs:492-523 | evaluates exactly the lookahead, gap-free, in blocks within the maximum |
| Session.AudioRenderSession.RenderAdmitted | crates/mondrian-audio/src/render.rs:492-548 | primes once, renders at the execution position, copies the public block |
| Session.AudioRenderSession.RenderInto | crates/mondrian-audio/src/render.rs:436-549 | a rejection changes nothing, a failure poisons, leaves silence in the block and has a known cause, a success delivers the public stream and advances the epoch |
| Session.FreshIsAligned | crates/mondrian-audio/src/render.rs:392-411 | reset lines and entered processors are the state of the stream at its entry |
| Playback.RenderBlocks | crates/mondrian-audio/src/render.rs:436-644 | any sequence of block sizes concatenates to the same PCM, and stops only for a stated cause |
| Playback.AlignedDetermines | crates/mondrian-audio/src/render.rs:436-644 | at one execution sample there is only one content of delay lines and processor state |
| Playback.Drive | crates/mondrian-audio/src/render.rs:381-549 | any calls move a Session as the continuity machine says; once stuck no entry succeeds and nothing is delivered, otherwise every new epoch recovers |
| Witness.GlitchIsFinal | crates/mondrian-audio/src/processor_host.rs:280-319 | one failing block of a stateless processor, and every later call of any kind fails |
| Playback.FailureSticks | crates/mondrian-audio/src/render.rs:455-480 | after a failure nothing is delivered until a different epoch is entered |
| Playback.PositionsFollow | crates/mondrian-audio/src/render.rs:455-548 | over any run, public position is entry plus delivered frames, and execution leads by nothing or exactly the lookahead |
| Delivery.Deliver | crates/mondrian-audio/src/render.rs:381-549 | end to end, delivered PCM is the program's mix without delays, sidechains and lookahead included; preparation fails exactly for the program's obstacle and nothing else without an excuse |
| Delivery.EnterAndRender | crates/mondrian-audio/src/render.rs:381-549 | any prepared plan whose processors never fail, entered anywhere and rendered in any blocks, delivers the stream it is owed, or fails for a stated cause |
| Delivery.OwedIsProgramOutput | crates/mondrian-audio/src/render.rs:492-548 | what a caller is owed for a prepared program is what the program means |
| PeakWindow.FixedPeakWindow.constructor | crates/mondrian-audio/src/lookahead_limiter.rs:466-473 | starts empty with the given capacity |
| PeakWindow.FixedPeakWindow.Clear | crates/mondrian-audio/src/lookahead_limiter.rs:475-478 | holds no candidate any more |
| PeakWindow.FixedPeakWindow.ExpireBefore | crates/mondrian-audio/src/lookahead_limiter.rs:480-485 | drops exactly the leading expired candidates |
| PeakWindow.FixedPeakWindow.Push | crates/mondrian-audio/src/lookahead_limiter.rs:487-503 | drops trailing dominated candidates and appends; fails exactly when the ring is full |
| PeakWindow.FixedPeakWindow.Maximum | crates/mondrian-audio/src/lookahead_limiter.rs:505-508 | the oldest candidate |
| PeakWindow.FrontIsMaximum | crates/mondrian-audio/src/lookahead_limiter.rs:505-508 | the oldest candidate is the maximum of all peaks in the window |
| PeakWindow.PushKeepsWindow | crates/mondrian-audio/src/lookahead_limiter.rs:487-503 | indices stay strictly increasing, values strictly decreasing, and the ring has room |
| PeakWindow.ExpireKeepsWindow | crates/mondrian-audio/src/lookahead_limiter.rs:480-485 | expiry moves the window start and keeps every later peak matched |
| Limiter.GainBounded | crates/mondrian-audio/src/lookahead_limiter.rs:369-396 | the applied gain stays in (0, 1] and obeys its target |
| Limiter.Brickwall | crates/mondrian-audio/src/lookahead_limiter.rs:325-415 | every delayed sample times its gain is within its ceiling, so the clamp changes nothing |
| Limiter.Causal | crates/mondrian-audio/src/lookahead_limiter.rs:325-415 | output never depends on later input |
| Limiter.LookaheadLimiter.constructor | crates/mondrian-audio/src/lookahead_limiter.rs:178-216 | starts with nothing fed and unity gain |
| Limiter.LookaheadLimiter.EnterState | crates/mondrian-audio/src/lookahead_limiter.rs:240-251 | forgets everything fed |
| Limiter.LookaheadLimiter.PushPeak | crates/mondrian-audio/src/lookahead_limiter.rs:332-345 | one expiry and one push never overflow and give the maximum of the last lookahead plus one frames |
| Limiter.LookaheadLimiter.ExchangeDelays | crates/mondrian-audio/src/lookahead_limiter.rs:346-372 | PCM, ceiling and release are all delayed by exactly the lookahead |
| Limiter.LookaheadLimiter.UpdateGain | crates/mondrian-audio/src/lookahead_limiter.rs:369-396 | instant attack, exponential release, with the cached coefficient |
| Limiter.LookaheadLimiter.Process | crates/mondrian-audio/src/lookahead_limiter.rs:253-418 | a rejected block changes nothing; an admitted one becomes the limiter output over everything fed |
| LimiterSamples.LoudestInSamples | crates/mondrian-audio/src/lookahead_limiter.rs:332-345 | the windowed peak is the loudest sample of any channel in the window |
| LimiterSamples.GainInSamples | crates/mondrian-audio/src/lookahead_limiter.rs:369-396 | the gain in terms of that loudest sample: ceiling over peak at once, back by the release fraction |
| LimiterSamples.OutputInSamples | crates/mondrian-audio/src/lookahead_limiter.rs:397-413 | silence while the delay fills, then every sample fed one lookahead ago times the gain |
| LimiterSamples.PassesThrough | crates/mondrian-audio/src/lookahead_limiter.rs:325-415 | with no reduction pending and every sample of the window within the ceiling, the delayed frame leaves unchanged |
| BuiltIns.SampleDelay.Process | crates/mondrian-audio/src/built_in_processors.rs:336-398 | replaces the block by the oldest samples exactly when its prepared length arrives as one constant event |
| BuiltIns.SampleDelay.EnterState | crates/mondrian-audio/src/built_in_processors.rs:330-334 | the ring is silent again |
| BuiltIns.DelayStreams | crates/mondrian-audio/src/built_in_processors.rs:322-398 | the sample delay obeys the streaming law |
| BuiltIns.DelayIsCompensable | crates/mondrian-audio/src/built_in_processors.rs:170-182 | whatever part of its delay a ring declares is a pure shift; the built-in one declares none and all of it is heard |
| BuiltIns.GainIsCompensable | crates/mondrian-audio/src/built_in_processors.rs:232-289 | the gain processor streams, and silence means nothing to it |
| BuiltIns.DelayIsPure | crates/mondrian-audio/src/tests.rs:260-312 | a hosted processor that declares its whole delay is exactly what compensation removes |
| BuiltIns.LimiterStreams | crates/mondrian-audio/src/lookahead_limiter.rs:253-418 | the limiter obeys the streaming law |
| LimiterLaw.LimiterIsCompensable | crates/mondrian-audio/src/lookahead_limiter.rs:325-415 | with a ceiling that never rises, silence before the entry leaves no trace in the gain |
| LimiterLaw.ClickDiffers | crates/mondrian-audio/src/lookahead_limiter.rs:369-396 | where the ceiling rises, one click comes out softer when the limiter is entered any number of samples earlier |
| LimiterLaw.CompensableExactly | crates/mondrian-audio/src/lookahead_limiter.rs:325-415 | the latency of the limiter is a pure shift exactly without lookahead or rising ceilings that are released in time |
| RisingCeiling.QuietPasses | crates/mondrian-audio/src/lookahead_limiter.rs:325-415 | below a steady ceiling the limiter only delays |
| RisingCeiling.RisingIsHeard | crates/mondrian-audio/src/lookahead_limiter.rs:325-415 | a program of built-in limiters for which every call succeeds and the first delivered frame is not the mix it means |
| ScopeSidechain.PrepareScopeAuxiliary | crates/mondrian-audio/src/processor_host.rs:499-565 | a scope rack hears the first frames of every snapshot, wherever in the block it begins |
| ScopeSidechain.HeardAt | crates/mondrian-audio/src/render.rs:767-812 | over any blocks, which sample of the source port a scope rack hears at each sample it executes |
| ScopeSidechain.AlignedExactly | crates/mondrian-audio/src/render.rs:767-812 | it hears every port in time exactly when a block begins where the rack begins, or nothing was heard yet |
| ScopeSidechain.PartitionIsHeard | crates/mondrian-audio/src/processor_host.rs:529-533 | two samples of which the second begins a clip: one block lets its rack hear the first, two blocks the second |
| ScopeSidechain.PartitionIsPlayed | crates/mondrian-audio/src/tests.rs:213-232 | with a processor that plays its detector these are the two outputs of the clip |
| Meter.AccumulatedReads | crates/mondrian-audio/src/meter.rs:262-312 | accumulated figures are the facts of the block: peak, clip and non-finite counts, mean square |
| Meter.AudioMeterBank.BeginBlock | crates/mondrian-audio/src/meter.rs:255-260 | nothing of an earlier block counts as measured |
| Meter.AudioMeterBank.MeasureTarget | crates/mondrian-audio/src/meter.rs:262-312 | measures one strip, or refuses PCM of another size and changes nothing |
| Meter.AudioMeterBank.PublishCompletedBlock | crates/mondrian-audio/src/meter.rs:314-320 | publishes exactly when every strip was measured in this block |
| MeterLock.SnapshotsAreBanks | crates/mondrian-audio/src/meter.rs:142-212 | in every interleaving each returned snapshot is one completely published bank of one block, and no reader goes backwards |
| MeterLock.WriterStep | crates/mondrian-audio/src/meter.rs:142-166 | every single store of the writer keeps the invariant |
| MeterLock.ReaderStep | crates/mondrian-audio/src/meter.rs:168-212 | every single load of a reader keeps the invariant |
| MeterLock.ReturnsLatest | crates/mondrian-audio/src/meter.rs:168-212 | a returned snapshot is the latest bank at the step at which the call returns |
| MeterLock.QuietCallReturns | crates/mondrian-audio/src/meter.rs:168-212 | a call during which nothing is published returns |
| MeterLock.LappedReaderIsTorn | crates/mondrian-audio/src/meter.rs:142-212 | after exactly 2^63 publications within one call a torn snapshot is accepted |
| NestedSource.ValidateDemandOrder | crates/mondrian-audio/src/runtime.rs:1043-1059 | accepts exactly the non-decreasing demands |
| NestedSource.OrderOutputs | crates/mondrian-audio/src/runtime.rs:1015-1020 | all demanded outputs in ascending order of demand |
| NestedSource.NestedRuntimeSource.BeginContinuity | crates/mondrian-audio/src/runtime.rs:990-994 | forgets window and position |
| NestedSource.NestedRuntimeSource.EnterChild | crates/mondrian-audio/src/runtime.rs:1089-1100 | enters the child in an epoch it never saw |
| NestedSource.NestedRuntimeSource.RenderCache | crates/mondrian-audio/src/runtime.rs:1102-1130 | the window is the child's PCM from the given sample, or nothing after a failure |
| NestedSource.NestedRuntimeSource.EnsureCached | crates/mondrian-audio/src/runtime.rs:1061-1087 | the window holds the frame; a stateful child is entered only when it was not entered |
| NestedSource.NestedRuntimeSource.ReadIndexed | crates/mondrian-audio/src/runtime.rs:996-1041 | every answered frame is the child's stream at its demand, silence for negative ones; a refusal is that of the demand, of the reader or of the child |
| NestedSource.ReadCalls | crates/mondrian-audio/src/runtime.rs:989-1131 | across any calls of one continuity the child is entered at most once, and all answers are those of one read without state |
| NestedSource.ReadLiveBlocks | crates/mondrian-audio/src/render.rs:739-765 | a live child asked by every block that meets a placement gives, over any blocks, the source PCM of the one world in which its stream is the signal |
| NestedSource.OwedServes | crates/mondrian-audio/src/runtime.rs:996-1041 | that read never fails and delivers the stream of the child as a signal, so it serves an outer Session |
| MediaSource.MediaRuntimeSource.Fetch | crates/mondrian-audio/src/runtime.rs:958-984 | one frame is the media exactly unless a failed refill left its window silent |
| MediaSource.MediaRuntimeSource.ReadIndexed | crates/mondrian-audio/src/runtime.rs:941-987 | until a refill fails every answer is the media |
| MediaSource.RetryIsSilent | crates/mondrian-audio/src/runtime.rs:963-974 | a retry after a failed refill delivers silence |
| DependencyWindows.EmptyHasNoTime | crates/mondrian-audio/src/dependency.rs:266-269 | the emptiness test is exact |
| DependencyWindows.FromHalfOpenExact | crates/mondrian-audio/src/dependency.rs:257-264 | a range and its window hold the same times |
| DependencyWindows.IntersectionExact | crates/mondrian-audio/src/dependency.rs:271-288 | intersection keeps exactly the common times |
| DependencyWindows.MapsInside | crates/mondrian-audio/src/dependency.rs:290-315 | every time of a window maps into the mapped window |
| DependencyWindows.MapExact | crates/mondrian-audio/src/dependency.rs:290-315 | every time of the mapped window is the image of one, forward, reversed or frozen |
| GridSelection.GridFrameIsDemanded | crates/mondrian-audio/src/render.rs:951-970 | the frame compared here is the one that rendering demands |
| GridSelection.SampleIsKept | crates/mondrian-audio/src/dependency.rs:318-354 | at one sample every placement heard is selected exactly when the frame does not begin before the image of the window |
| GridSelection.EndDecides | crates/mondrian-audio/src/dependency.rs:318-354 | the first sample of a forward clip, the last of a reversed one, decides whether anything heard is lost |
| GridSelection.FrozenDecides | crates/mondrian-audio/src/dependency.rs:290-315 | a frozen clip loses nothing exactly when it covers a frame at its begin |
| GridSelection.OnGridExactly | crates/mondrian-audio/src/plan.rs:61-87 | a map takes samples onto samples exactly when it covers, steps by whole frames and begins on one |
| GridSelection.ChainDecides | crates/mondrian-audio/src/dependency.rs:173-354 | behind any chain of nested clips, everything that can be heard at a frame is reached exactly when the window that is left keeps the frame |
| GridSelection.ChainWindowExact | crates/mondrian-audio/src/dependency.rs:271-315 | the window behind a chain holds exactly the times that the window reaches through it |
| GridSelection.PlaysThroughChains | crates/mondrian-audio/src/dependency.rs:173-242 | a range plays media exactly when its window reaches a placement of it through some chain |
| GridSelection.CollectsHeard | crates/mondrian-audio/src/dependency.rs:125-164 | everything heard in the range at a frame that is kept is in the closure, and everything heard when all nested clips take samples onto samples |
| GridSelection.LeavesOutHeardMedia | crates/mondrian-audio/src/dependency.rs:318-354 | a project whose closure succeeds without media that its first sample plays |
| Dependency.SelectProgramWindow | crates/mondrian-audio/src/dependency.rs:328-354 | exactly the contributions placed in the window |
| Dependency.SelectsInOrder | crates/mondrian-audio/src/dependency.rs:328-354 | selection keeps the order of the contributions |
| Dependency.Collect | crates/mondrian-audio/src/dependency.rs:173-242 | succeeds exactly when every chain of nested clips in the window can be followed, and then adds exactly the media, Sequences and windowed Programs that are reached; a refusal names the fault at the end of some chain |
| Dependency.GatherCandidates | crates/mondrian-audio/src/dependency.rs:131-146 | refuses exactly an identity that is given twice, unless it is the root as it is |
| Dependency.CompileDependencyClosure | crates/mondrian-audio/src/dependency.rs:125-164 | a media component is selected exactly when some time of the range maps through nested clips into its placement; so for Sequences and stored Programs, and every error has its chain |
| Admission.AdmissionLedger.Reserve | crates/mondrian-audio/src/runtime.rs:180-222 | counts a thing exactly when the sum stays representable for every purpose and granted, else nothing, and names what is exceeded first |
| Admission.AdmissionLedger.ReserveMediaWindow | crates/mondrian-audio/src/runtime.rs:131-153 | window bytes plus 256, as resident and as media window bytes |
| Admission.AdmissionLedger.ReserveNestedWindow | crates/mondrian-audio/src/runtime.rs:155-178 | window bytes plus 768, as resident and as nested window bytes |
| Admission.AdmissionLedger.Build | crates/mondrian-audio/src/runtime.rs:552-780 | a closure reserved piece by piece is built exactly when its runtimes and bytes fit, and each runtime reports its own closure |
| Admission.TotalWeighs | crates/mondrian-audio/src/runtime.rs:109-178 | purpose by purpose, the total is what all Sessions and windows of the closure weigh |
| Admission.OccurrencesAreRuntimes | crates/mondrian-audio/src/runtime.rs:119 | the occurrences counted are the runtimes of the closure |
| St291.ParityCarries | crates/mondrian-broadcast/src/ancillary.rs:469-484 | a parity word carries its byte with even parity and is never a protected code |
| St291.New | crates/mondrian-broadcast/src/ancillary.rs:96-109 | accepts exactly Type 2 DID, non-zero SDID and at most 255 legal words |
| St291.FromBytes | crates/mondrian-broadcast/src/ancillary.rs:114-124 | bytes with parity are always legal user words |
| St291.PayloadBytes | crates/mondrian-broadcast/src/ancillary.rs:142-149 | gives the bytes back exactly when every word is a parity word |
| St291.CarryBytes | crates/mondrian-broadcast/src/ancillary.rs:114-192 | bytes through a packet, its words and back arrive unchanged, exactly when header and length are legal |
| St291.ComponentWords | crates/mondrian-broadcast/src/ancillary.rs:153-163 | data flag, header, user words and the unwrapped sum modulo 512 with inverted top bit |
| St291.DecodeComponentWords | crates/mondrian-broadcast/src/ancillary.rs:165-192 | succeeds exactly on well-formed words, with the packet they spell; every fault is the first one |
| St291.ChecksumWord | crates/mondrian-broadcast/src/ancillary.rs:486-490 | the plain sum of the words modulo 512, with bit 9 the inverse of bit 8 |
| St291.EncodingIsWellFormed | crates/mondrian-broadcast/src/ancillary.rs:153-163 | every constructible packet encodes to well-formed words that carry it |
| St291.EncodingIsUnique | crates/mondrian-broadcast/src/ancillary.rs:153-192 | words are the encoding of one packet only |
| St291.RoundTrip | crates/mondrian-broadcast/src/ancillary.rs:153-192 | decoding gives back every constructible packet |
| St291.ValidateComponentPacket | native/reference-output-aja/vanc_raster.cpp:39-51 | accepts exactly the encodings of constructible packets: even parity, protected codes, count and plain-sum checksum |
| St291.CountParity | native/reference-output-aja/vanc_raster.cpp:10-14 | counting bits gives the parity word |
| St291.ParityIsOnly | crates/mondrian-broadcast/src/ancillary.rs:469-484 | a word is a parity word exactly when its ones are even and its top bits differ |
| AncillaryInventory.NewFrame | crates/mondrian-broadcast/src/ancillary.rs:234-264 | accepts exactly bounded inventories without any overlap, sorted |
| AncillaryInventory.NeighboursSuffice | crates/mondrian-broadcast/src/ancillary.rs:256-261 | sorted packets that keep apart from neighbours keep apart from all |
| AncillaryInventory.AcceptedFrameIsAdmitted | native/reference-output-aja/vanc_raster.cpp:52-69 | a raster refuses an accepted frame only for an unrepresented line or a packet beyond its width |
| VancRow.PatchesOne | native/reference-output-aja/vanc_raster.cpp:31-37 | setting one component changes that component alone and no spare bit |
| VancRow.BlankLine | native/reference-output-aja/vanc_raster.cpp:70-75 | blank chroma and luma over the width, everything else kept |
| VancRow.PutPacket | native/reference-output-aja/vanc_raster.cpp:76-81 | puts the packet's words on luma and nothing else |
| VancRow.Occupy | native/reference-output-aja/vanc_raster.cpp:65-68 | takes the words exactly when no earlier packet overlaps |
| VancRow.ScanLine | native/reference-output-aja/vanc_raster.cpp:89-101 | the word-by-word scan of one line, with every rejection |
| VancRow.ScanFindsLaid | native/reference-output-aja/vanc_raster.cpp:89-101 | a scan of a laid line finds exactly its packets in order |
| AjaRaster.AdmitInventory | native/reference-output-aja/vanc_raster.cpp:55-69 | accepts exactly bounded, well-formed, represented, non-overlapping inventories |
| AjaRaster.CheckGeometry | native/reference-output-aja/vanc_raster.cpp:18-30 | accepts exactly rasters in bounds whose lines are in range and distinct, by sorting and comparing neighbours |
| AjaRaster.WriteVancRaster | native/reference-output-aja/vanc_raster.cpp:52-82 | writes exactly the inventory; a refusal changes nothing and active rows never change |
| AjaRaster.ReadVancRaster | native/reference-output-aja/vanc_raster.cpp:83-104 | scans all rows above the picture in order and does not write |
| AjaRaster.ReadsWhatWasWritten | native/reference-output-aja/vanc_raster.cpp:52-104 | reading a written raster gives exactly its packets in row and offset order |
| AjaRaster.Transmit | native/reference-output-aja/vanc_raster.cpp:52-104 | encode, write, read, decode returns exactly the constructible packets |
| DeckLinkLine.ValidatePacket | native/reference-output-decklink/vanc_lines.cpp:32-47 | accepts exactly well-formed packets inside a represented line |
| DeckLinkLine.AdmitLine | native/reference-output-decklink/vanc_lines.cpp:50-59 | accepts exactly valid packets of one line without overlap |
| DeckLinkLine.WriteLine | native/reference-output-decklink/vanc_lines.cpp:48-65 | clears the line, blanks it and lays the packets; a refusal changes nothing |
| DeckLinkLine.ReadLine | native/reference-output-decklink/vanc_lines.cpp:66-81 | the packets of a captured line, or nothing when it is damaged |
| DeckLinkLine.LineReadsBack | native/reference-output-decklink/vanc_lines.cpp:48-81 | a written line reads as exactly its packets |
| DeckLinkLine.TransmitLine | native/reference-output-decklink/vanc_lines.cpp:48-81 | the same round trip through the second codec |
| Folders.Descendants | crates/mondrian-assets/src/library.rs:355-365 | exactly the folder and everything inside it |
| Folders.ValidateFolderReparent | crates/mondrian-assets/src/library.rs:336-372 | accepts exactly moves of existing folders not into themselves, and says which of the three is wrong |
| Folders.BatchKeepsForest | crates/mondrian-assets/src/library.rs:1308-1406 | checking each folder against the table before the move is enough for the whole batch |
| Folders.RemovalClosure | crates/mondrian-assets/src/library.rs:1109-1120 | exactly the requested folders and everything inside them |
| Folders.RemovalKeepsForest | crates/mondrian-assets/src/library.rs:1089-1191 | no folder that is left points at a removed one |
| Folders.AssetLibrary.MoveAssetsAndFolders | crates/mondrian-assets/src/library.rs:1296-1406 | all or nothing; succeeds exactly when every part may move; the requested records lie in the target, all others where they were, and the forest survives |
| Folders.AssetLibrary.RetireAssetsAndDeleteFolders | crates/mondrian-assets/src/library.rs:1058-1191 | removes exactly the closure; an asset is retired exactly if requested or before, and at the root exactly if its folder is gone; all or nothing |

## Left out

- Preparation.PrepareSchedule: budgets for processor scratch, lookahead and compensation storage, and overflow while summing declared latencies, are not checked.
- Session.AudioRenderSession.constructor: capacity and footprint checks of a new Session are not modelled.
- Session.AudioRenderSession.EnterState: enters node racks before scope racks instead of in one list of processors, which decides only which of two present errors is reported.
- Session.AudioRenderSession.RenderInto: works on frames instead of an interleaved buffer, holds delay lines as the queues that `Delay.FixedDelayLine` implements, and does not measure strips.
- Limiter.LookaheadLimiter.Process: works on frames instead of an interleaved buffer, swaps whole frames at the delay cursor, and omits the rejection of non-finite samples and mismatched lanes.
- Meter.AudioMeterBank.PublishCompletedBlock: decides publication; the stores of the bank are those of `MeterLock`.
- Session.AudioRenderSession.RenderInternal: strips are not measured while they render.
- NestedSource.ReadLiveBlocks: `Session.AudioRenderSession.RenderInto` is given a read without state; that a live child answers its blocks with the same PCM is proved for the reads of each contribution, beside the Session and not inside it.
- Limiter and gain as hosted processors read their parameters as functions of the signal sample.
- AjaRaster.WriteVancRaster: a raster is one sequence of packed words for each row instead of one flat stride, and bit operations are quotients and remainders.
- NestedSource.NestedRuntimeSource.ReadIndexed: after a failed read of a child without declared state nothing is promised about later answers.
- Dependency.Collect: times are real numbers; overflow of exact rationals is not modelled.
- Transparency.ContributionTransparent: contributions have no sidechains into their scope racks, since what those hear depends on the partition into blocks (`ScopeSidechain`).
- Delivery.Deliver: the same, and strips arrive in prepared order (`Topology`, `Ordering`).
- ProgramMix.SameContribution: a processor that does not keep its declared tail is heard, in the meaning of a program too, no longer than the declared tails.
- SelectionLaw.SelectionIsEnough: sidechains into processing scopes are selected by `Selection`, but no program compared here has any.
- Meter.AccumulatedReads: keeps the mean square instead of its root.
- Integer ranges outside the checks above: subtraction of signal delays below the least sample, sizes of buffers, and exact rational arithmetic are unbounded here.
- Floating-point rounding, SIMD kernels, decibel, fade, pan and transition curves, loudness and true peak: no exact specification.
- Channel mapping between source and program layouts: part of the `signal` that a source delivers.
- Parameter automation events, their spans and capacities: a processor reads its parameters at signal time.
- Plugin isolation, panics and factory revalidation: a processor that may fail at any call.
- Solo audition filtering and compilation of strips into racks (`compiler.rs`): the mixer of `Selection` is given after them.
- Pruning of processing scopes and transitions in `select_program_window`: only contributions are selected.
- Source latency: always zero for media and nested sources, and `Transparency` relies on that.
- Uniqueness of epochs beyond the previous one: state entry compares with the previous epoch only.
- Frame markers, SHA-256 fingerprints, timecode, AFD and caption payloads of the ancillary module.
- SQLite, files, JSON and the user interface: tables are maps with transactional commit.
- DeckLink and AJA SDK calls, devices and threads: only the raster codecs are modelled.
