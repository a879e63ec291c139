# Stream engine model

Open Streamer ingests live streams, switches between redundant inputs, fans packets
out through in-memory buffers, transcodes, and publishes HLS and RTMP. This project
models the parts of it that keep state and proves what they promise over whole runs.

- `Domain` - configuration entities.
- `FailoverState`, `FailoverRuns`, `FailoverHealth`, `FailoverProbes`, `FailoverAtomic`,
  `FailoverOutcomes`, `FailoverCover`, `FailoverRescue` - the input failover engine. `StreamState` has one method per locked section, each proved
  against a function on `State`. `FailoverRuns` interleaves those sections as pending
  actions of concurrent threads, with starts and probes succeeding or failing at will;
  `FailoverAtomic` runs each operation to completion and shows that this is one of the
  interleaved runs; `FailoverOutcomes` says what each then makes of the active input.
  `FailoverHealth` tells each input's status and liveness stamp from the events alone;
  `FailoverCover` and `FailoverRescue` ask who looks after an unusable active input, and
  who brings an exhausted stream back, while operations interleave.
- `BufferLayout`, `StreamDiff`, `Coordinator`, `FleetCurrent` - buffer names and ladders,
  the configuration diff, the allocation of hub buffers by Start, Stop and Update, and
  whether what runs is what is configured.
- `HookBatcher` - the bounded delivery queue of one hook.
- `HubPackets`, `BufferHub`, `BufferRuns`, `BufferLoss`, `BufferSessions` - packets and
  their stamping, the hub's objects, whole runs of one buffer as a write log with
  independent subscriber views, what a subscriber loses, and session stamping under
  overlapping calls. `RingBuffer.Abs` maps
  the object to the buffer of the runs, and each of its methods is a step of them.
- `HlsScanner`, `HlsPlaylist`, `HlsSegmenter`, `HlsRuns`, `HlsCadence`, `HlsAnchors`,
  `HlsTimeline` - the keyframe scanner's offsets, the sliding playlist, the segmenter
  object, and its runs: bytes, marks, ticks, anchors and media time.
- `FlvTag`, `PushCodec` - FLV video tags with an independent reader, and the adapter
  that orders metadata, sequence headers and media.
- `PrefixRouting`, `Matcher` - template prefixes and the matcher that uses them.

Objects whose methods update fields are classes. Each method says what the new state is
by equating the object's view with a function of the old view; the properties are then
proved about those functions over every run. What a step does is also told a second time,
from the events alone (`FailoverHealth`, `BufferLoss`, `FleetCurrent`, `HlsCadence`,
`HlsTimeline.Called`, `HlsScanner.ReportedAt`, `HookBatcher.TallyTo`), and the two agree.

## What the proofs found

The code is modelled as it is. Where a promise does not hold the project proves exactly
when it does, and gives an input that shows the limit.

- While operations interleave, an unusable active input is declared exhausted or looked
  after by a pending failover, until a step leaves it to nobody: a replacement refuses
  to start, an unraced commit activates an input that failed after it was chosen, or a
  silent input of negative priority is overlooked, with nothing else pending. A run of
  a stream registered with an input keeps the guarantee if and only if none of its steps
  is one of these
  (`FailoverCover.StepCoversExactly`, `FailoverCover.CoveredExactly`). Two faulting
  inputs are enough for the second: the earlier failover commits after exhaustion was
  declared and clears it, and the input it activates is never probed
  (`FailoverCover.RacingCommitHidesExhaustion`). A push slot reports a missing encoder
  from inside its own start (`internal/ingestor/service.go:619-660`), so two such slots
  suffice.
- A live exhausted stream with a usable input has a failover pending, until a packet heals
  a standby, an edit adds inputs none of which is below the active priority, or a
  replacement refuses to start, with none else pending; every run keeps this if and only
  if none of its steps is one of these (`FailoverRescue.StepRescuesExactly`,
  `FailoverRescue.ExhaustedOnlyWhenNothingUsable`). The first leaves a delivering standby
  unused (`FailoverRescue.HealedStandbyStrands`).
- A timed-out input is reported as its priority, with -1 for none, so a negative active
  priority times out without a failover. Complete operations keep a stream healthy if and
  only if no tick meets this case (`FailoverAtomic.AlwaysHealthyExactly`,
  `FailoverAtomic.TickSettlesOnBestExactly`); one silent input suffices
  (`FailoverAtomic.NegativePrioritySlips`). Validation numbers a stream's own inputs from
  0 (`internal/domain/stream.go:121-131`), which rules it out
  (`FailoverAtomic.ValidatedNeverSlips`); only inputs inherited from a template
  (`internal/domain/template.go:247-248`) can carry such a priority.
- "degradedAt holds exactly the degraded inputs, and a probe is in flight exactly when its
  input is marked" is broken by three steps and no other: a live edit removes an input
  while marked; a live edit registers a degraded input again without removing it; a probe
  succeeds whose record was replaced, while the record of today is degraded
  (`FailoverProbes.StepKeepsTrackedExactly`, `FailoverProbes.ProbesStayTracked`). The last
  leaves an input degraded without a stamp, and no tick ever probes it again
  (`FailoverProbes.StaleSuccessUntracks`); it needs an earlier edit that replaced the
  record while a probe was still to report (`FailoverProbes.StaleOnlyAfterReplacing`).
- The transcoder refusing to start during a full reload leaks the new rendition
  buffers, because their slugs are recorded only afterwards; starting the stream again
  recovers them (`Coordinator.StepSettledExactly`, `Coordinator.RestartHealsLeak`).
- Every running encoder has the current transcoder configuration and watermark, always
  (`FleetCurrent.EncodersAlwaysCurrent`); the publisher has the current outputs unless it
  refused an update of them alone, whose stream is then taken for updated
  (`FleetCurrent.OutputsCurrentExactly`).
- The rendition score is not strictly resolution first
  (`BufferLayout.ScoreIsResolutionFirstExactly`), and where it overflows 64 bits the wrap
  can make the smallest rung the best (`BufferLayout.WrappedScoreExactly`,
  `BufferLayout.WrapInvertsRanking`).
- The diff ignores Program and Pids, so a change of only those does not reach the
  manager (`StreamDiff.DiffAppliesToManager`).
- A packet that asks for the session marker itself can take the latch. Among the packets
  that left id and marker to the hub, the marker is exact if and only if no session starts
  with a packet that asked and has a later one that did not
  (`BufferSessions.OwnMarkedExactly`, `BufferSessions.AskedPacketTakesLatch`). Overlapping
  SetSession calls can lower the id (`BufferSessions.OrderKeptExactly`,
  `BufferSessions.OverlapLowersIds`).
- A keyframe whose PTS lies below the start of the segment makes the 64-bit difference
  wrap, so it cuts at once and the segment's duration falls back to the clock. It can
  follow an audio frame that came first, or a negative PTS cast to unsigned
  (`internal/transcoder/supervisor.go:419-420`). Segments tile media time if and only if
  the cuts are in order (`HlsTimeline.SegmentsTileExactly`); with rising keyframe PTS only
  the first can fail (`HlsTimeline.SegmentsTile`, `HlsTimeline.EarlyKeyframeBreaksTiling`).
- A failed segment write loses the discontinuity mark it carried
  (`HlsRuns.MarkSurvivesExactly`) and shifts the sequence numbers of the segments still
  listed (`HlsPlaylist.SequenceNumberLaw`). The comment at `internal/publisher/hls.go:649`
  calls the number the counter of the first segment in the window; the code computes
  the counter less the window's length.
- The files are trimmed before the playlist is written (`internal/publisher/hls.go:606-611`),
  so after failed manifest writes the playlist left on disk can list a removed file;
  `HlsRuns.LastPlaylistServesExactly` says when it does not.
- The scanner never sees access units. The accumulator's end is off the scanner's by
  exactly the access-unit bytes taken in since it was last emptied
  (`HlsAnchors.AlwaysAnchored`), so a session that mixes them with raw TS can cut in the
  wrong place (`HlsAnchors.MixedSessionMisaligns`). No run ever gives a boundary up
  (`HlsAnchors.BoundariesNeverGivenUp`).
- The matcher drops the leading slashes of a prefix, the prefix test keeps them: "/live"
  is matched by "/live" in the matcher and by "//live" under the prefix test, and no path
  is ever matched by both (`Matcher.LeadingSlashDisagrees`, `Matcher.AgreeExactly`);
  validation refuses such prefixes.

## Model

| member | source | states |
|---|---|---|
| FailoverState.SelectBest | internal/manager/service.go:1269-1286 | the choice is usable, is None exactly when nothing is usable, and without a usable override is the lowest usable priority |
| FailoverState.StreamState.constructor | internal/manager/service.go:378-461 | registration indexes the inputs by priority as idle and activates the best |
| FailoverState.StreamState.FindBest | internal/manager/service.go:1269-1286 | whatever order the input map is walked in, the result is the specified choice |
| FailoverState.StreamState.Record | internal/manager/service.go:142-149 | the bounded newest-first history and the unbounded log take the event |
| FailoverState.StreamState.OnPacket | internal/manager/service.go:606-650 | the packet section's whole new state: liveness stamp, heal, end of exhaustion on the active input |
| FailoverState.StreamState.OnError | internal/manager/service.go:670-720 | the error section: who is degraded, and whether failover follows |
| FailoverState.StreamState.OnTick | internal/manager/service.go:738-786 | the tick's locked section: judged silence, probes queued exactly for the due set, failback decision |
| FailoverState.StreamState.VisitInputs | internal/manager/service.go:753-758 | the walk over the inputs gives the same state and tasks in every order |
| FailoverState.StreamState.VisitInput | internal/manager/service.go:828-889 | visiting one more input extends the visited part by exactly that input |
| FailoverState.StreamState.JudgeSilence | internal/manager/service.go:828-859 | only the active, not yet degraded, silent input is degraded |
| FailoverState.StreamState.QueueProbe | internal/manager/service.go:870-889 | a due probe is marked and reported, anything else left alone |
| FailoverState.StreamState.OnSelect | internal/manager/service.go:898-937 | the first section of a failover: override dropped, exhaustion declared, or a switch to attempt |
| FailoverState.StreamState.OnCommit | internal/manager/service.go:982-1008 | the second section: nothing if dead or raced, else the switch, its stamp and its history entry |
| FailoverState.StreamState.OnProbeOk | internal/manager/service.go:1061-1112 | a probe success heals only the record it was sent for and names the failover to attempt |
| FailoverState.StreamState.OnProbeEnd | internal/manager/service.go:1041-1046 | the probe mark is dropped |
| FailoverState.StreamState.OnSwitchRequest | internal/manager/service.go:1118-1149 | accepted exactly for a usable input of a live stream |
| FailoverState.StreamState.OnUpdateInputs | internal/manager/service.go:1155-1226 | removals, additions and replacements in order, and the failover they call for |
| FailoverState.StreamState.DropInputs | internal/manager/service.go:1179-1187 | the removals, and whether the active input is one |
| FailoverState.StreamState.AdmitInputs | internal/manager/service.go:1189-1199 | the additions, and whether one is below the active priority |
| FailoverState.StreamState.ReplaceInputs | internal/manager/service.go:1201-1210 | the replacements |
| FailoverState.StreamState.OnKill | internal/manager/service.go:464-491 | the stream is marked dead |
| FailoverState.SelectBestFrame | internal/manager/service.go:1269-1286 | probe marks never influence the choice |
| FailoverState.JudgeOne | internal/manager/service.go:828-859 | judging inputs one by one changes the state exactly at the active one |
| FailoverState.DueOne | internal/manager/service.go:870-889 | a probe is due half way through the walk exactly when it is due after it |
| FailoverState.VisitOne | internal/manager/service.go:753-758 | one step of the walk, from any set of inputs visited before |
| FailoverState.VisitedAll | internal/manager/service.go:753-760 | visiting every input is the tick's specification |
| FailoverState.FreshWellKeyed | internal/manager/service.go:378-461 | what registration leaves: every input idle under its own priority, nothing else set |
| FailoverRuns.EditKeepsNoFalseAlarm | internal/manager/service.go:1155-1226 | an edit keeps the active priority, the exhausted flag, the history and the log |
| FailoverRuns.RemoveAllEffect | internal/manager/service.go:1179-1187 | exactly the named inputs and their bookkeeping disappear |
| FailoverRuns.AddAllEffect | internal/manager/service.go:1189-1199 | exactly the named inputs appear, idle, with new identities |
| FailoverRuns.ReplaceAllEffect | internal/manager/service.go:1201-1210 | replacing configurations changes no status and no key |
| FailoverRuns.ActKeepsNoFalseAlarm | internal/manager/service.go:898-1008 | every pending action of every thread keeps an active input from being reported exhausted |
| FailoverRuns.StepKeepsNoFalseAlarm | internal/manager/service.go:606-650 | so does every step of the interleaved engine |
| FailoverRuns.NeverExhaustedWhileActive | internal/manager/service.go:606-650 | over every interleaving: active input delivering implies not exhausted |
| FailoverRuns.RecordKeepsChained | internal/manager/service.go:142-149 | recording keeps the stored history equal to the newest entries of the log and extends its replay |
| FailoverRuns.PacketKeepsChained | internal/manager/service.go:634-645 | the recovery a packet on the active input may log keeps the chain |
| FailoverRuns.ActKeepsChained | internal/manager/service.go:979-1008 | racing commits either extend the chain or change nothing |
| FailoverRuns.StepKeepsChained | internal/manager/service.go:979-1008 | every step keeps the chain |
| FailoverRuns.HistoryChains | internal/manager/service.go:138-149 | over every interleaving the logged switches replay from the registered choice to the active priority |
| FailoverRuns.ReplayLinks | internal/manager/service.go:138-149 | what a replayable log looks like at every position |
| FailoverRuns.ChainedMeans | internal/manager/service.go:634-645 | in a chained state each From is the previous To, the first From the registered choice, the newest To the active one |
| FailoverRuns.HistoryMeans | internal/manager/service.go:142-149 | and the stored history is the newest 20 entries of the log, newest first |
| FailoverProbes.ProbersCount | internal/manager/service.go:776-778 | launching tasks starts one probe per task |
| FailoverProbes.ActOnCount | internal/manager/service.go:1041-1112 | an action passes its probes on, except the one that ends one |
| FailoverProbes.AdvanceKeepsOne | internal/manager/service.go:1041-1112 | one step of one thread keeps one probe in flight for an input exactly when it is marked |
| FailoverProbes.TickKeepsOne | internal/manager/service.go:738-786 | so does a tick, which marks exactly the inputs it queues |
| FailoverProbes.StepKeepsOneExactly | internal/manager/service.go:1155-1226 | for each input, every step of the interleaved engine keeps it, if and only if it is not an edit of the live stream that removes the input while marked |
| FailoverProbes.ActOnStamp | internal/manager/service.go:1061-1068 | for each input, a pending action keeps a stamp exactly while degraded, if and only if it is not the success of a probe sent for an earlier record of an input degraded now |
| FailoverProbes.StepTracksExactly | internal/manager/service.go:606-1226 | every step keeps that, if and only if it is neither such a success nor an edit registering the input again, not removed, while degraded |
| FailoverProbes.StepKeepsTrackedExactly | internal/manager/service.go:606-1226 | for all inputs at once: from any world with the bookkeeping right, a step keeps it if and only if it is none of the three, for any input |
| FailoverProbes.RunTrackedExactly | internal/manager/service.go:606-1226 | the same throughout any run from any world, in both directions |
| FailoverProbes.ProbesStayTracked | internal/manager/service.go:837-889 | over every interleaving from registration: degradedAt is the set of degraded inputs and each input has one probe in flight exactly when marked, throughout, if and only if no step of the run is one of the three |
| FailoverProbes.StepKeepsLive | internal/manager/service.go:1061-1068 | tasks in flight keep designating the record they were sent for, through every step but an edit that removes or registers again an input whose probe is still to report |
| FailoverProbes.StaleOnlyAfterReplacing | internal/manager/service.go:1155-1226 | so over every interleaving a stale success needs such an edit earlier in the run |
| FailoverProbes.DegradedStamp | internal/manager/service.go:698-705 | an input degraded by a step carries that step's time; one that stays degraded keeps its stamp exactly if the step does not untrack it |
| FailoverProbes.StampHoldsExactly | internal/manager/service.go:698-705 | over any run it stays degraded in, the stamp is kept, unchanged, if and only if no step untracks it |
| FailoverProbes.DegradedDueExactly | internal/manager/service.go:870-889 | what makes the probe of a degraded input due, whatever the tick judges silent |
| FailoverProbes.TickQueuesDueProbe | internal/manager/service.go:870-889 | a later tick queues its probe if and only if it is not marked, it is standby or the stream exhausted, 8 s have passed since it degraded, and no step untracked it since |
| FailoverProbes.StaleSuccessUntracks | internal/manager/service.go:1061-1068 | a concrete run, with no input removed, whose stale success leaves a standby degraded with no probe ever due |
| FailoverAtomic.CommitEffect | internal/manager/service.go:982-1008 | an unraced commit activates the choice, ends exhaustion and keeps usability |
| FailoverAtomic.FailoverRepairs | internal/manager/service.go:898-1008 | failover leaves any state served by the best input or declared exhausted, override honoured or dropped |
| FailoverAtomic.EditEffect | internal/manager/service.go:1155-1226 | the keys after an edit, and what stays usable |
| FailoverAtomic.ApplyHealthyExactly | internal/manager/service.go:735-824 | every complete operation keeps the stream healthy exactly when it is not a tick that overlooks a silent active input of negative priority |
| FailoverAtomic.RegisteredHealthyExactly | internal/manager/service.go:378-461 | registration is healthy exactly when given an input |
| FailoverAtomic.AlwaysHealthyExactly | internal/manager/service.go:735-824 | every state of a run of complete operations is exhausted or served by a present, usable input, with a set override the active usable input, if and only if the stream has an input and no tick of the run is such a tick |
| FailoverAtomic.TickSettlesOnBestExactly | internal/manager/service.go:808-824 | after such a run a tick at least 12 s past the last switch leaves the stream exhausted or on exactly the best input, if and only if it is not such a tick |
| FailoverAtomic.NegativePrioritySlips | internal/manager/service.go:748-775 | a stream registered with one input of negative priority that stays silent ends unhealthy and unexhausted |
| FailoverAtomic.ApplyKeys | internal/manager/service.go:735-824 | no operation but an edit changes the set of priorities |
| FailoverAtomic.ValidatedNeverSlips | internal/domain/stream.go:121-131 | with priorities that are not negative, as validation demands of a stream's own inputs, no tick of any run is such a tick |
| FailoverAtomic.TickHealthyExactly | internal/manager/service.go:748-775 | a tick keeps a healthy stream healthy, and 12 s past the last switch leaves it exhausted or on the best input, exactly when it overlooks no silent active input of negative priority |
| FailoverAtomic.FailoverRun | internal/manager/service.go:898-1008 | select, start and commit taken alone are a run of the interleaved engine with the atomic outcome |
| FailoverAtomic.OpIsARun | internal/manager/service.go:898-1008 | so are whole packet, error, switch and edit operations |
| FailoverAtomic.TickIsARun | internal/manager/service.go:738-786 | so is a tick, with both failovers it may ask for |
| FailoverAtomic.ProbeIsARun | internal/manager/service.go:1041-1112 | and a probe, with the failover its success may ask for |
| FailoverCover.ActCovers | internal/manager/service.go:898-1112 | a pending action that is neither a start nor a commit leaves the active input usable, exhausted or still looked after |
| FailoverCover.AdvanceCoversExactly | internal/manager/service.go:898-1008 | one step of one thread keeps the active input looked after exactly when it is not a refused start or an unraced commit onto an input that has failed, with nothing else pending |
| FailoverCover.TickCoversExactly | internal/manager/service.go:738-824 | a tick keeps it so exactly when it overlooks no silent active input of negative priority with nothing else pending |
| FailoverCover.EditCovers | internal/manager/service.go:1155-1226 | an edit always keeps it so |
| FailoverCover.StepCoversExactly | internal/manager/service.go:606-1226 | every step of the interleaved engine keeps it so exactly when it is not one of those three |
| FailoverCover.StartCoveredExactly | internal/manager/service.go:378-461 | registration looks after its active input exactly when it is given one |
| FailoverCover.RunCoversExactly | internal/manager/service.go:606-1226 | the same over any run from any world, in both directions |
| FailoverCover.CoveredExactly | internal/manager/service.go:606-1226 | over every interleaving from registration: an unusable active input is exhausted or looked after throughout if and only if no step is one of those three; and then, whenever nothing is pending, a live stream is exhausted or its active input usable |
| FailoverCover.RacingCommitHidesExhaustion | internal/ingestor/service.go:619-660 | two inputs fault, as two push slots without an encoder do from inside their own start: the run ends unexhausted on a degraded input with nothing usable, nothing pending, and no probe ever due |
| FailoverRescue.PacketRescues | internal/manager/service.go:606-650 | a packet keeps a failover pending for a live exhausted stream with a usable input, unless it heals a standby with none pending |
| FailoverRescue.EditRescues | internal/manager/service.go:1155-1226 | so does an edit, unless it adds inputs, none below the active priority, keeps the active one and none is pending |
| FailoverRescue.AdvanceRescues | internal/manager/service.go:898-1112 | so does one step of one thread, a successful probe included, unless it is a refused start with nothing else pending |
| FailoverRescue.StepRescuesExactly | internal/manager/service.go:606-1226 | every step of the interleaved engine keeps it, if and only if it is not one of those three |
| FailoverRescue.RunRescuesExactly | internal/manager/service.go:606-1226 | the same throughout any run from any world, in both directions |
| FailoverRescue.ExhaustedOnlyWhenNothingUsable | internal/manager/service.go:1100-1112 | over every interleaving from registration it is kept throughout if and only if no step is one of those three; and then, with no failover pending, a live stream is exhausted only if nothing is usable |
| FailoverRescue.HealedStandbyStrands | internal/manager/service.go:606-650 | a concrete run: both inputs fault, the standby delivers again, and nothing switches to it |
| FailoverHealth.StepHealth | internal/manager/service.go:606-1226 | what one step makes of one input: its status and its liveness stamp change only by an edit, a packet, a fault, a silent tick, a probe of this record, or a commit, each in one way |
| FailoverHealth.HealthExactly | internal/manager/service.go:606-1226 | over every interleaving an input's stamp is the time of its registration, last switch or last packet, whichever is latest, and its status is what its latest event of those made it |
| FailoverHealth.TickDegradesExactly | internal/manager/service.go:828-859 | over every interleaving a tick degrades an input if and only if it is the active one of a live stream, not degraded, and last registered, switched to or heard of longer ago than the timeout |
| FailoverHealth.DeliveringNotDegraded | internal/manager/service.go:606-650 | an input that delivered within the timeout is never degraded by a tick |
| FailoverHealth.CooldownsFromLog | internal/manager/service.go:982-1008 | over every interleaving the cooldowns run from the last switch or recovery logged, or from registration |
| FailoverHealth.UnregisteredStays | internal/manager/service.go:464-491 | over every run after it is unregistered, nothing of a stream but its log and its probe marks changes |
| FailoverOutcomes.ProbeSwitchesExactly | internal/manager/service.go:1061-1112 | a successful probe of the input registered now makes an exhausted stream recover on the best input, switches to a better one 12 s after the last switch, and otherwise moves nothing |
| FailoverOutcomes.SwitchObeyedExactly | internal/manager/service.go:1118-1149 | an operator switch makes a usable input the active one, overriding the order, and otherwise changes nothing |
| FailoverOutcomes.FaultSettlesExactly | internal/manager/service.go:670-720 | an error degrades a usable input and leaves the stream on the best one or exhausted with none, unless it is the only input waiting for its encoder |
| FailoverOutcomes.EditSettlesExactly | internal/manager/service.go:1155-1226 | an edit that removes the active input or adds one below it leaves the stream on the best input or exhausted with none; any other moves nothing |
| FailoverOutcomes.QuietTickExactly | internal/manager/service.go:808-824 | a tick that finds the active input heard of in time fails back to a better one if and only if 12 s have passed since the last switch, the stream not being exhausted |
| FailoverOutcomes.SilentTickSettles | internal/manager/service.go:735-806 | a tick that finds it silent leaves the stream on the best input or exhausted with none |
| BufferLayout.ItoaInjective | internal/buffer/rendition.go:16-27 | decimal names are distinct |
| BufferLayout.OwnersDisjoint | internal/buffer/rendition.go:11-13 | no buffer name belongs to two streams |
| BufferLayout.RenditionsDistinct | internal/buffer/rendition.go:16-27 | two rungs of a stream never share a buffer |
| BufferLayout.RenditionsForTranscoder | internal/buffer/rendition.go:32-66 | the loop builds exactly the specified ladder |
| BufferLayout.BestRenditionIndex | internal/buffer/rendition.go:69-83 | the first rung of maximal score, 64-bit wrap included |
| BufferLayout.PlaybackBufferId | internal/buffer/rendition.go:87-93 | the main buffer or a best rung's |
| BufferLayout.ScoreIsResolutionFirstExactly | internal/buffer/rendition.go:69-83 | scores that fit 64 bits rank by resolution then bitrate exactly when extra pixels outweigh the bitrate given up |
| BufferLayout.WrappedScoreExactly | internal/buffer/rendition.go:69-83 | scores of any size do exactly when no rung's lead over one it outranks is outweighed by the 64-bit laps it is ahead |
| BufferLayout.BestIsNotAlwaysLargest | internal/buffer/rendition.go:69-83 | a ladder where the larger resolution loses |
| BufferLayout.WrapInvertsRanking | internal/buffer/rendition.go:69-83 | a ladder whose extra pixels outweigh the bitrate given up, where the 64-bit wrap makes the smaller rung the best |
| StreamDiff.IndexInputs | internal/coordinator/diff.go:83-90 | inputs indexed by priority, later ones winning |
| StreamDiff.ByPriorityLast | internal/coordinator/diff.go:83-90 | the index holds the last input of each priority and nothing else |
| StreamDiff.ListChanged | internal/coordinator/diff.go:92-101 | in any map order, each added and each changed priority once, nothing else |
| StreamDiff.ListMissing | internal/coordinator/diff.go:102-106 | in any map order, each removed priority once, nothing else |
| StreamDiff.DiffInputs | internal/coordinator/diff.go:82-109 | the three lists are the diff of the two maps |
| StreamDiff.DiffListsDisjoint | internal/coordinator/diff.go:82-109 | each priority is in the list its kind calls for and in no other |
| StreamDiff.DiffAppliesToManager | internal/manager/service.go:1155-1226 | applying the diff to the manager's old map gives the new one up to the compared fields, and exactly it when those decide |
| StreamDiff.DiffProfiles | internal/coordinator/diff.go:191-220 | each differing rung listed once, in order, in the right list |
| StreamDiff.ProfileStepKeeps | internal/coordinator/diff.go:191-220 | one turn of the loop extends the three lists by exactly the rung it looks at |
| StreamDiff.DiffTranscoder | internal/coordinator/diff.go:121-188 | a change is reported if and only if the transcoder configuration differs, or the watermark does and the pipeline runs; a full reload if and only if only one side has a transcoder configuration, or the pipeline is needed on either side and the configuration or the watermark differs; and the rung lists |
| StreamDiff.FullReloadExactly | internal/coordinator/coordinator.go:617-619 | the same of the test the coordinator makes |
| StreamDiff.EmptyDiffExactly | internal/coordinator/diff.go:92-108 | no list entry exactly when the maps are the same in the compared fields |
| StreamDiff.ComputeDiff | internal/coordinator/diff.go:66-79 | every flag, both directions |
| Coordinator.TranscoderProfilesFromDomain | internal/coordinator/coordinator.go:1074-1120 | the loop builds exactly the encode ladder |
| Coordinator.LaddersAgree | internal/buffer/rendition.go:32-66 | the publisher's ladder and the coordinator's name the same buffers rung by rung |
| Coordinator.AdvertisedAsEncoded | internal/coordinator/coordinator.go:1074-1120 | each rung is advertised with the size and bitrate it is encoded with: those of its profile, 2500 kbit/s without one, and nothing for a copied or unconfigured video |
| Coordinator.PlaybackNamesCreated | internal/buffer/rendition.go:87-93 | single-rendition outputs read a buffer Start creates |
| Coordinator.LayoutChangeForcesReload | internal/coordinator/coordinator.go:617-619 | any two configurations with different layouts take the full reload |
| Coordinator.SameLadderWithoutReload | internal/coordinator/diff.go:121-188 | and without it ladder, ingest target and layout stay the same |
| Coordinator.Coordinator.CreateRenditions | internal/coordinator/coordinator.go:344-360 | one buffer per profile, and the target list |
| Coordinator.Coordinator.DeleteRenditions | internal/coordinator/coordinator.go:518-524 | exactly the recorded rendition buffers go |
| Coordinator.Coordinator.CreateBuffers | internal/coordinator/coordinator.go:331-360 | exactly the layout is added |
| Coordinator.Coordinator.Rollback | internal/coordinator/coordinator.go:362-397 | exactly the layout is removed |
| Coordinator.Coordinator.StartLocked | internal/coordinator/coordinator.go:313-434 | the whole new state on success and on failure of each dependency |
| Coordinator.Coordinator.StopLocked | internal/coordinator/coordinator.go:490-540 | the whole new state |
| Coordinator.Coordinator.UpdateLocked | internal/coordinator/coordinator.go:557-636 | stop, full reload or neither, as the diff decides |
| Coordinator.Coordinator.ReloadTranscoderFull | internal/coordinator/coordinator.go:640-707 | the whole new state, reloadFailed included |
| Coordinator.Coordinator.Relaunch | internal/coordinator/coordinator.go:691-706 | transcoder and publisher over the rebuilt buffers, either refusing |
| Coordinator.Coordinator.RebuildBuffers | internal/coordinator/coordinator.go:648-686 | the hub between the two layouts |
| Coordinator.OthersUndisturbed | internal/coordinator/coordinator.go:313-540 | a step on one stream leaves every other stream settled |
| Coordinator.StoppedSettles | internal/coordinator/coordinator.go:490-540 | stopping leaves nothing of a stream whose buffers are recorded |
| Coordinator.StartedSettles | internal/coordinator/coordinator.go:313-434 | starting, failing anywhere, leaves the layout or nothing |
| Coordinator.ReloadedHubExact | internal/coordinator/coordinator.go:640-707 | the reload's hub is the new layout |
| Coordinator.ReloadedSettles | internal/coordinator/coordinator.go:640-724 | a reload settles the stream exactly when it does not leak, and what a leak leaves |
| Coordinator.StepSettledExactly | internal/coordinator/coordinator.go:557-724 | every step keeps every stream settled exactly when it is not that failing reload |
| Coordinator.HubAlwaysExact | internal/coordinator/coordinator.go:313-724 | over every sequence of Start, Stop and Update, dependencies failing anywhere: the hub is the current layouts throughout if and only if no reload of the sequence is that failing one |
| Coordinator.RestartHealsLeak | internal/coordinator/coordinator.go:313-434 | starting the stream again, whether or not the start succeeds, recovers what leaked |
| Coordinator.LeakExample | internal/coordinator/coordinator.go:691-699 | a concrete run that leaks |
| FleetCurrent.SameEncoderWithoutReload | internal/coordinator/diff.go:121-188 | without a full reload neither the need for an encoder nor what it is started with changes |
| FleetCurrent.ReloadCurrent | internal/coordinator/coordinator.go:640-724 | a reload leaves the encoder and the publisher with the new configuration, or neither running |
| FleetCurrent.OwnEncoderCurrent | internal/coordinator/coordinator.go:557-636 | every event of a stream keeps its encoder current |
| FleetCurrent.StepEncodersCurrent | internal/coordinator/coordinator.go:313-724 | and every other stream's; outputs stay current if and only if the event is not an update of them alone that the publisher refuses |
| FleetCurrent.EncodersAlwaysCurrent | internal/coordinator/coordinator.go:1017-1036 | throughout every sequence of Start, Stop and Update, dependencies failing anywhere, exactly the running streams that are transcoded have an encoder, started with their transcoder configuration and watermark of now |
| FleetCurrent.OutputsCurrentExactly | internal/coordinator/coordinator.go:622-630 | throughout every sequence each running stream serves its protocols, push targets and policy of now if and only if the publisher refuses no update of them alone |
| FleetCurrent.StartTimesExactly | internal/coordinator/coordinator.go:405-409 | over every sequence each running stream's start time is that of the last Start while it was not running |
| HookBatcher.MergeLimits | internal/hooks/batcher.go:458-512 | each limit is the hook's own where positive, else the global one where positive, else the default, and never below one |
| HookBatcher.HttpBatcher.Enqueue | internal/hooks/batcher.go:117-144 | append, evict the oldest over the cap, count them; when the batch is full |
| HookBatcher.HttpBatcher.TakeBatch | internal/hooks/batcher.go:314-333 | the oldest maxItems move in flight |
| HookBatcher.HttpBatcher.Requeue | internal/hooks/batcher.go:340-373 | a failed batch returns to the front, the oldest evicted over the cap |
| HookBatcher.HttpBatcher.FlushOnce | internal/hooks/batcher.go:263-281 | one take and its outcome |
| HookBatcher.HttpBatcher.DrainOnShutdown | internal/hooks/batcher.go:288-309 | the whole new state: exactly the events the leading successful attempts did not cover are left, in order, and counted |
| HookBatcher.HttpBatcher.Attempt | internal/hooks/batcher.go:288-309 | one attempt delivers the next batch or leaves the queue as it was |
| HookBatcher.FlushedSettles | internal/hooks/batcher.go:263-281 | undisturbed, a flush ships one batch or changes nothing |
| HookBatcher.CoversExactly | internal/hooks/batcher.go:288-309 | what a number of full batches covers |
| HookBatcher.CoveredFrom | internal/hooks/batcher.go:288-309 | once the queue is empty further attempts do not matter |
| HookBatcher.StalledDrain | internal/hooks/batcher.go:288-309 | an attempt that ships nothing ends the drain where it is |
| HookBatcher.DrainEmptiesQueue | internal/hooks/batcher.go:288-309 | the loop bound suffices against a healthy target |
| HookBatcher.DrainShipsUpToFirstFailure | internal/hooks/batcher.go:288-309 | otherwise it ships up to the first failure |
| HookBatcher.EvictKeepsOrder | internal/hooks/batcher.go:117-144 | eviction keeps the rest in order |
| HookBatcher.NextAccounted | internal/hooks/batcher.go:117-373 | every enqueue, take, success and failure keeps the account |
| HookBatcher.NothingReorderedOrLost | internal/hooks/batcher.go:117-373 | over every interleaving: delivered, in-flight and queued are a strictly increasing part of the arrivals, every event accounted for, the cap kept |
| HookBatcher.OnlyOldestDropped | internal/hooks/batcher.go:340-373 | a lost event is older than everything still queued |
| HookBatcher.TalliesExactly | internal/hooks/batcher.go:117-373 | over every interleaving how many events are queued, in flight, delivered and dropped is told by the steps: a batch is as large as it may be, and an event is dropped only for want of room |
| BufferHub.Subscriber.TrySend | internal/buffer/service.go:70-79 | non-blocking send to an open channel |
| BufferHub.Subscriber.Recv | internal/buffer/service.go:25-26 | the oldest buffered packet |
| BufferHub.RingBuffer.Write | internal/buffer/service.go:48-80 | the write of the runs: stamped, logged and offered to every listed subscriber, empty packets changing nothing |
| BufferHub.RingBuffer.StampPacket | internal/buffer/service.go:57-69 | the packet carries the session's id and, once, its marker |
| BufferHub.RingBuffer.FanOut | internal/buffer/service.go:70-79 | exactly the listed subscribers are offered the packet, once each |
| BufferHub.RingBuffer.Subscribe | internal/buffer/service.go:82-88 | the subscription of the runs: a fresh open subscriber joins the end of the list |
| BufferHub.RingBuffer.Unsubscribe | internal/buffer/service.go:90-100 | the departure of the runs: a listed subscriber closes and leaves, the order of the others and their state kept |
| BufferHub.RingBuffer.UnsubscribeAll | internal/buffer/service.go:106-113 | every listed subscriber closes, keeping what it buffers, and the list empties |
| BufferHub.RingBuffer.Install | internal/buffer/service.go:330-333 | the session and its latch, and nothing else |
| BufferHub.Service.Create | internal/buffer/service.go:215-225 | idempotent: an existing buffer is untouched, a new one is empty with no session, the others unchanged |
| BufferHub.Service.Write | internal/buffer/service.go:229-238 | the buffer's write, other buffers and their subscribers untouched |
| BufferHub.Service.Subscribe | internal/buffer/service.go:242-250 | a new subscriber of an existing buffer; every other buffer and subscriber unchanged |
| BufferHub.Service.Delete | internal/buffer/service.go:269-287 | the buffer is gone and its listed subscribers closed, keeping what they buffer; other buffers and their subscribers unchanged |
| BufferHub.Service.SetSession | internal/buffer/service.go:316-335 | the next id and a raised latch on one buffer whose list and log stay, or nothing; other buffers and their subscribers unchanged |
| BufferRuns.OfferAllEffect | internal/buffer/service.go:70-79 | the fan-out pass offers exactly to the listed |
| BufferRuns.CloseAllEffect | internal/buffer/service.go:106-113 | the closing pass closes exactly the listed |
| BufferRuns.WithoutAt | internal/buffer/service.go:90-100 | removing a subscriber by name removes it at its one place, the others in order |
| BufferRuns.StepListSound | internal/buffer/service.go:48-113 | every step keeps the list distinct, open and complete |
| BufferRuns.NeverPanics | internal/buffer/service.go:48-113 | no run sends to a closed channel or closes one twice |
| BufferRuns.WriteSeenBy | internal/buffer/service.go:48-80 | what one write does to one subscriber |
| BufferRuns.OfferFaithful | internal/buffer/service.go:70-79 | an offer keeps received plus buffered an in-order part of the offers, the rest counted |
| BufferRuns.StepViewsSound | internal/buffer/service.go:48-113 | so does every step, and offers are the writes while attached |
| BufferRuns.ViewsAlwaysSound | internal/buffer/service.go:48-113 | over every run |
| BufferRuns.ConcernedStep | internal/buffer/service.go:48-113 | one step looks the same to a subscriber in two buffers that looked the same |
| BufferRuns.OthersAreInvisible | internal/buffer/service.go:48-113 | erasing every other subscriber's operations from a run changes nothing for this one |
| BufferLoss.StepTallies | internal/buffer/service.go:70-79 | one operation changes what is unread and lost of a subscriber as the operations tell it |
| BufferLoss.AlwaysTallies | internal/buffer/service.go:48-113 | so over every run |
| BufferLoss.WriteLostExactly | internal/buffer/service.go:70-79 | after any run a write is lost for a subscriber if and only if the packet is not empty and the subscriber attached with as many unread as it can hold; with room the stamped packet is appended |
| BufferLoss.NothingLostExactly | internal/buffer/service.go:48-113 | after any run a subscriber has received or still holds every packet written while it was attached, in order, if and only if it was never full at one; otherwise it lacks exactly that many |
| BufferSessions.InstallKeeps | internal/buffer/service.go:316-335 | installing a minted id keeps ids spent once |
| BufferSessions.WriteKeeps | internal/buffer/service.go:57-69 | stamping keeps markers and runs exact |
| BufferSessions.SessionsMarked | internal/buffer/service.go:48-80 | over every interleaving: the marker is set exactly where the id changes, and each id is one run |
| BufferSessions.StepOwnExactly | internal/buffer/service.go:57-69 | among the packets that left id and marker to the hub, a step keeps the marker exact if and only if it does not stamp one after the latch has fallen to packets that all asked |
| BufferSessions.OwnMarkedExactly | internal/buffer/service.go:48-80 | over every interleaving the marker is exact among them if and only if no step of the run does that, that is, if and only if no session starts with a packet that asked and has a later one that did not |
| BufferSessions.AskedPacketTakesLatch | internal/buffer/service.go:49-69 | a concrete run in which a packet asking for the marker itself takes the latch and one that did not goes without |
| BufferSessions.LatchTakenExactly | internal/buffer/service.go:49-69 | the latch falls exactly with the first non-empty packet that leaves its id to the hub |
| BufferSessions.IdsRise | internal/buffer/service.go:316-335 | non-overlapping SetSession calls give rising ids |
| BufferSessions.InstallKeepsOrderExactly | internal/buffer/service.go:316-335 | with overlapping calls an install and the packet after it keep the order exactly if the id tops the last one stamped |
| BufferSessions.OrderKeptExactly | internal/buffer/service.go:48-80 | over every interleaving the ids rise if and only if no packet is stamped under a session whose id lies below the last one stamped |
| BufferSessions.OverlapLowersIds | internal/buffer/service.go:316-335 | a concrete pair of overlapping calls that lowers the id |
| HlsScanner.KeyframeScanner.Process188 | internal/publisher/ts_keyframe_scanner.go:94-115 | one packet moves the offsets as specified |
| HlsScanner.KeyframeScanner.ProcessVideoPacket | internal/publisher/ts_keyframe_scanner.go:125-151 | the boundary chosen when an access unit closes |
| HlsScanner.ScannedSound | internal/publisher/ts_keyframe_scanner.go:125-151 | the boundary never goes back |
| HlsScanner.ScannerContract | internal/publisher/ts_keyframe_scanner.go:41-72 | over every stream: the offset counts bytes, boundaries are nondecreasing, packet-aligned and strictly inside |
| HlsScanner.ReportsExactly | internal/publisher/ts_keyframe_scanner.go:94-151 | over every stream the reported boundary is that of the last random access point closed with payload: the latest PAT if it came before it, at most 256 KiB before, else its first packet |
| HlsPlaylist.Configured | internal/publisher/hls.go:119-128 | settings in use are in range, given ones kept when they are |
| HlsPlaylist.WrittenExactly | internal/publisher/hls.go:584-606 | a segment is listed under its flush number exactly when its write succeeded |
| HlsPlaylist.NumbersAccounted | internal/publisher/hls.go:548-606 | written and failed segments account for every number |
| HlsPlaylist.TrimmedEffect | internal/publisher/hls.go:616-629 | trimming keeps the newest window plus history, and the files are exactly those |
| HlsPlaylist.KeptTail | internal/publisher/hls.go:682-690 | the window of what is kept is the window of everything written |
| HlsPlaylist.ShelvedOnDisk | internal/publisher/hls.go:548-612 | one flush's effect on disk and playlists |
| HlsPlaylist.ShelvedSound | internal/publisher/hls.go:606-679 | every playlist ever written is a function of the flushed segments alone |
| HlsPlaylist.SequenceNumberLaw | internal/publisher/hls.go:649-653 | a listed segment's sequence number is its flush number less one plus the later failed writes |
| HlsPlaylist.SequenceNumbersStable | internal/publisher/hls.go:649-653 | with no failed write it is the same in every playlist, the media sequence counting removed segments |
| HlsPlaylist.MediaSequenceRises | internal/publisher/hls.go:649-653 | the media sequence never decreases |
| HlsPlaylist.ListedFilesExist | internal/publisher/hls.go:606-638 | when it is written no playlist lists a trimmed file |
| HlsPlaylist.FileKeptExactly | internal/publisher/hls.go:616-629 | a segment's file is still there exactly when it is among the newest kept |
| HlsPlaylist.StalePlaylistFilesExactly | internal/publisher/hls.go:606-638 | a playlist left behind by failed manifest writes lists only existing files exactly when the segments written since fit beside its window in what is kept |
| HlsPlaylist.TargetExact | internal/publisher/hls.go:640-647 | the target duration is the least that covers what is listed |
| HlsPlaylist.RoundedDurationsFit | internal/publisher/hls.go:640-647 | each listed duration rounds to at most the target |
| HlsPlaylist.FailedWriteRenumbers | internal/publisher/hls.go:584-591 | one failed write renumbers a segment both playlists list |
| HlsSegmenter.Segmenter.WindowTailEntries | internal/publisher/hls.go:682-690 | the newest n entries |
| HlsSegmenter.Segmenter.TrimDisk | internal/publisher/hls.go:616-629 | the trimming loop meets its specification |
| HlsSegmenter.Segmenter.WriteManifest | internal/publisher/hls.go:633-679 | the written playlist |
| HlsSegmenter.Segmenter.SegmentDuration | internal/publisher/hls.go:540-546 | media time, else wall clock, else the target; always positive |
| HlsSegmenter.Segmenter.ResetAccumulator | internal/publisher/hls.go:552-572 | the accumulator empties and re-anchors to the scanner |
| HlsSegmenter.Segmenter.WriteSegment | internal/publisher/hls.go:548-612 | number, file, list, trim, playlist |
| HlsSegmenter.Segmenter.FlushLocked | internal/publisher/hls.go:530-612 | a flush's whole new state |
| HlsSegmenter.Segmenter.DoFlush | internal/publisher/hls.go:520-526 | the shutdown flush |
| HlsSegmenter.Segmenter.OnSessionBoundary | internal/publisher/hls.go:373-383 | flush, schedule the mark, end dropping |
| HlsSegmenter.Segmenter.ShouldDropAVPacket | internal/publisher/hls.go:329-345 | only non-key video is dropped; a video keyframe ends dropping |
| HlsSegmenter.Segmenter.RecordMediaTime | internal/publisher/hls.go:397-405 | first and latest PTS |
| HlsSegmenter.Segmenter.MaybeFlushAtKeyframe | internal/publisher/hls.go:416-434 | a keyframe cuts exactly when the segment is long enough, 64-bit difference |
| HlsSegmenter.Segmenter.AppendSegment188 | internal/publisher/hls.go:349-365 | the packet's bytes, clock start and scanner |
| HlsSegmenter.Segmenter.HandleIncoming | internal/publisher/hls.go:288-315 | one packet's whole effect |
| HlsSegmenter.Segmenter.TryFlushAtIDR | internal/publisher/hls.go:495-517 | split with carry, or give the boundary up |
| HlsSegmenter.Segmenter.TickFlush | internal/publisher/hls.go:444-484 | one tick's whole effect |
| HlsCadence.TickCutsExactly | internal/publisher/hls.go:444-484 | a tick emits a segment if and only if the accumulator is not empty and has filled for the target duration with a new boundary inside it, or for four |
| HlsCadence.PacketClock | internal/publisher/hls.go:349-365 | the clock of a segment starts with the first TS packet to join since the last one was emitted |
| HlsCadence.TickClock | internal/publisher/hls.go:495-517 | a cut at a boundary restarts it, one at a deadline stops it |
| HlsCadence.PacketMedia | internal/publisher/hls.go:397-434 | the media time of a segment starts with the first frame accepted since the last one was emitted, the frame that cut it included, and runs to the latest |
| HlsCadence.TickMedia | internal/publisher/hls.go:552-572 | a tick that emits a segment leaves none |
| HlsRuns.FlushedEffect | internal/publisher/hls.go:530-577 | a flush emits the accumulator as one segment and keeps the rest of the account |
| HlsRuns.SplitEffect | internal/publisher/hls.go:503-516 | a split emits exactly the part before the boundary and keeps exactly the part from it |
| HlsRuns.MarksOfFlush | internal/publisher/hls.go:571-572 | a flushed segment is marked as it should be and so will be the next |
| HlsRuns.SplitLedger | internal/publisher/hls.go:495-517 | a split loses and mixes nothing |
| HlsRuns.BoundedLedger | internal/publisher/hls.go:373-383 | nor does a session boundary |
| HlsRuns.HandledLedger | internal/publisher/hls.go:288-315 | nor does a packet |
| HlsRuns.TickedLedger | internal/publisher/hls.go:444-484 | nor does a tick |
| HlsRuns.SegmentsConserveBytes | internal/publisher/hls.go:288-383 | over every run: each session's bytes are its segments then the accumulator, and the marked segments are exactly those that open a session or follow a deadline cut |
| HlsRuns.AwaitsExactly | internal/publisher/hls.go:464-484 | over every run a keyframe is awaited exactly when the last of deadline cuts, video keyframes and session starts was a deadline cut |
| HlsRuns.FedIsAccepted | internal/publisher/hls.go:288-345 | the bytes are the packets' in order, except non-key video while a deadline cut awaits a keyframe |
| HlsRuns.BoundaryListedMarked | internal/publisher/hls.go:571-606 | a session's first segment, if written, is listed with the mark |
| HlsRuns.MarkSurvivesExactly | internal/publisher/hls.go:571-591 | a failed first write loses the mark unless a deadline cut restores it |
| HlsRuns.ShelfAlwaysSound | internal/publisher/hls.go:606-679 | the shelf is the reference over every run |
| HlsRuns.PlaylistsServe | internal/publisher/hls.go:606-679 | over every run: media sequence nondecreasing, listed files present when written, durations within the target |
| HlsRuns.LastPlaylistServesExactly | internal/publisher/hls.go:606-638 | over every run: exactly when every entry of the last written playlist still exists |
| HlsRuns.SegmentsKeepTheirNumbers | internal/publisher/hls.go:649-653 | with no failed segment write every segment keeps its number in every playlist |
| HlsRuns.SegmentNumbersExactly | internal/publisher/hls.go:649-653 | otherwise it is shifted by exactly the later failed writes |
| HlsAnchors.RawAnchored | internal/publisher/hls.go:349-365 | raw packets keep how far the accumulator's end is off the scanner's |
| HlsAnchors.UnitsAnchored | internal/publisher/hls.go:349-365 | access units add exactly their bytes to it |
| HlsAnchors.HandledAnchored | internal/publisher/hls.go:288-365 | one packet's whole effect on it |
| HlsAnchors.TickedAnchored | internal/publisher/hls.go:444-517 | a tick's effect on it |
| HlsAnchors.FreshSplits | internal/publisher/hls.go:495-511 | a boundary not yet considered lies strictly inside the accumulator |
| HlsAnchors.SplitAnchored | internal/publisher/hls.go:503-516 | a split re-anchors at the boundary, the same bytes off |
| HlsAnchors.FlushedAnchored | internal/publisher/hls.go:566-569 | a flush re-anchors at what was fed |
| HlsAnchors.AlwaysAnchored | internal/publisher/hls.go:185-192 | over every run, sessions mixed or not: start plus length less the fed offset is exactly the access-unit bytes taken in since the accumulator was last emptied |
| HlsAnchors.AnchoredExactly | internal/publisher/hls.go:185-192 | so the two agree if and only if there are none |
| HlsAnchors.UniformAnchored | internal/publisher/hls.go:288-365 | as is the case in a raw session whenever no session mixes access units with raw TS |
| HlsAnchors.BoundariesNeverGivenUp | internal/publisher/hls.go:495-511 | over every run a new boundary lies strictly inside the accumulator, and the abandoning branch is never taken |
| HlsAnchors.NextSegmentStartsAtBoundary | internal/publisher/hls.go:495-517 | over every run a due tick cuts once, moving the offsets to the boundary on a packet edge; with no access-unit bytes in the way the segment is the scanner's bytes up to it and the next one starts with it |
| HlsAnchors.MixedSessionMisaligns | internal/publisher/hls.go:349-365 | a concrete mixed session that is off by the bytes the scanner never saw |
| HlsTimeline.KeyframeCut | internal/publisher/hls.go:416-434 | the segment a keyframe cuts ends at its PTS and is long enough, unless that PTS lies below the segment's start; then it lasts as long as it took by the clock |
| HlsTimeline.FrameStep | internal/publisher/hls.go:397-434 | one frame, its PTS anywhere, cuts or keeps the start of the segment |
| HlsTimeline.RunOnEdge | internal/publisher/hls.go:397-434 | on every run cut only at keyframes the segment in progress starts at the last cut, and every segment lasts and spans its edges where they are in order |
| HlsTimeline.KeyframeCutsExactly | internal/publisher/hls.go:424-429 | a keyframe not below the start of the segment, over a non-empty accumulator, cuts one segment if and only if it comes at least the target duration after it |
| HlsTimeline.FrameCutsExactly | internal/publisher/hls.go:416-434 | over every run a frame cuts, at its PTS, if and only if it is a keyframe over a non-empty accumulator at least the target duration after the last cut or the first frame, the difference wrapping at 64 bits |
| HlsTimeline.CutsAsCalled | internal/publisher/hls.go:416-434 | so with frames that carry bytes the cuts are told by the frames: each segment ends at the first keyframe that comes late enough |
| HlsTimeline.SegmentsShort | internal/publisher/hls.go:407-415 | with keyframes at most g ms apart every segment lasts at least the target duration and less than g ms more |
| HlsTimeline.EveryKeyCuts | internal/publisher/hls.go:407-415 | with keyframes exactly the target duration apart every one is called for |
| HlsTimeline.ExactGopExactSegments | internal/publisher/hls.go:407-415 | and every segment lasts exactly it |
| HlsTimeline.TileExactly | internal/publisher/hls.go:535-546 | a segment spans exactly from one cut to the next, at least the target long, if and only if the second is not below the first |
| HlsTimeline.SegmentsTileExactly | internal/publisher/hls.go:535-558 | on every such run, whatever the PTS, that holds of each segment; so they tile media time with no gap or overlap if and only if the cuts are in order |
| HlsTimeline.CutsAreKeys | internal/publisher/hls.go:416-434 | with rising keyframe PTS the cuts rise |
| HlsTimeline.SegmentsTile | internal/publisher/hls.go:416-434 | then every segment but the first tiles, and all do if and only if the first frame's PTS is not above the first cut's |
| HlsTimeline.Telescope | internal/publisher/hls.go:535-546 | durations add up to the distance between the outer edges if and only if the edges are in order, and to more otherwise |
| HlsTimeline.DurationsTelescope | internal/publisher/hls.go:535-558 | on every such run their sum is the last cut's PTS minus the first frame's if and only if the cuts are in order |
| HlsTimeline.EarlyKeyframeBreaksTiling | internal/publisher/hls.go:416-434 | an audio frame at 100 ms, then a keyframe at 50 ms: the 64-bit difference wraps, the keyframe cuts, and the segment lasts the 20 ms of the clock |
| FlvTag.BuildAVCNaluTag | internal/publisher/push_codec.go:254-276 | the loop builds the specified tag |
| FlvTag.NalsRoundTripExactly | internal/publisher/push_codec.go:269-275 | length-prefixed units read back exactly when every length fits 32 bits |
| FlvTag.CtsRoundTripExactly | internal/publisher/push_codec.go:266-268 | the composition time reads back exactly when it fits 24 bits |
| FlvTag.NalsUnique | internal/publisher/push_codec.go:269-275 | a readable unit list is the one its bytes build |
| FlvTag.TagRoundTripExactly | internal/publisher/push_codec.go:254-276 | reading a built tag gives back slices, key flag and time exactly when they fit |
| FlvTag.TagUnique | internal/publisher/push_codec.go:254-276 | building what was read gives back the bytes |
| PushCodec.PushCodecAdapter.Scan | internal/publisher/push_codec.go:87-119 | cached parameter sets, slices and key flag of one access unit |
| PushCodec.PushCodecAdapter.EnsureMetadata | internal/publisher/push_codec.go:195-220 | metadata sent once, retried until accepted |
| PushCodec.PushCodecAdapter.EnsureSeqHeader | internal/publisher/push_codec.go:126-138 | the header is sent when both sets are cached and not announced |
| PushCodec.PushCodecAdapter.FeedH264 | internal/publisher/push_codec.go:75-156 | one access unit's whole effect, errors included |
| PushCodec.PushCodecAdapter.FeedAAC | internal/publisher/push_codec.go:162-189 | one audio frame's whole effect, errors included |
| PushCodec.CachedOrderly | internal/publisher/push_codec.go:99-119 | changed parameter sets are never taken for announced ones |
| PushCodec.HeadedOrderly | internal/publisher/push_codec.go:126-138 | after the header step cached sets are announced |
| PushCodec.H264Orderly | internal/publisher/push_codec.go:75-156 | an access unit keeps the message order |
| PushCodec.AACOrderly | internal/publisher/push_codec.go:162-189 | an audio frame keeps the message order |
| PushCodec.MessagesInOrder | internal/publisher/push_codec.go:75-220 | over every run and refusal: metadata first and once, slices after a header built from exactly the cached sets, raw audio after the one AAC header |
| PushCodec.ReceiverReadsSlices | internal/publisher/push_codec.go:87-156 | the slice message sent for an access unit reads back as its slices, a key flag if and only if a unit of it is an IDR, and the clamped composition time |
| PushCodec.SlicesExactly | internal/publisher/push_codec.go:90-115 | a unit is sent as a slice if and only if it is not empty, a delimiter or a parameter set |
| PushCodec.SlicesSentExactly | internal/publisher/push_codec.go:119-156 | an access unit's slices are sent, last and stamped with its decoding time modulo 2^32, if and only if it has one, metadata and sequence header are sent or can be, and the session takes them |
| PushCodec.UnitStamped | internal/publisher/push_codec.go:126-156 | every message of an access unit carries that time |
| PushCodec.CompositionTimeClamps | internal/publisher/push_codec.go:145-153 | the composition time is PTS minus DTS, between 0 and the largest 24-bit one |
| PushCodec.AudioSentExactly | internal/publisher/push_codec.go:162-189 | an audio frame is sent without its ADTS header, stamped with its decoding time modulo 2^32, if and only if it is longer than that header, metadata and AAC header are sent or can be, and the session takes it |
| PrefixRouting.SpelledPath | internal/domain/template.go:176-186 | a path that lies under a canonical prefix exists for every prefix |
| PrefixRouting.UnderBoth | internal/domain/template.go:192-209 | two prefixes of one path are comparable on a segment boundary |
| PrefixRouting.OverlapExactly | internal/domain/template.go:188-209 | two prefixes overlap exactly when some path is matched by both, validated or not |
| PrefixRouting.ValidNormal | internal/domain/template.go:125-143 | a valid prefix normalises to something not empty and not starting with a slash |
| Matcher.PathMatcher.constructor | internal/autopublish/matcher.go:35-53 | the entries are the templates' canonical prefixes, longest first |
| Matcher.PathMatcher.Collect | internal/autopublish/matcher.go:41-47 | one template's prefixes are appended in order, the empty ones left out |
| Matcher.PathMatcher.Match | internal/autopublish/matcher.go:58-69 | the scan returns the first matching entry's owner |
| Matcher.CollectedExactly | internal/autopublish/matcher.go:35-48 | an entry for exactly each declared prefix that is not empty |
| Matcher.FirstMatchExactly | internal/autopublish/matcher.go:58-69 | None exactly when nothing matches, else a longest match |
| Matcher.ValidCanon | internal/autopublish/matcher.go:75-79 | on valid prefixes the matcher's canonical form is the normalised one |
| Matcher.MatcherExact | internal/autopublish/matcher.go:35-69 | with valid, non-overlapping prefixes the owner is exactly the template with a matching prefix, None exactly when there is none |
| Matcher.OrderIrrelevant | internal/autopublish/matcher.go:35-69 | template order and sort ties do not matter |
| Matcher.LongestWins | internal/autopublish/matcher.go:24-31 | without the partition the winning prefix is still determined |
| Matcher.AgreeExactly | internal/autopublish/matcher.go:75-85 | matcher and prefix test agree on every path exactly when the trimmed prefix does not start with a slash or is only slashes |
| Matcher.LeadingSlashDisagrees | internal/domain/template.go:176-186 | a prefix that starts with a slash is matched under the prefix test only by paths spelled with two, and by none of those in the matcher |
| Matcher.LeadingSlashExample | internal/domain/template.go:176-186 | prefix "/live": "//live" under the prefix test, "/live" in the matcher |

## Left out

- ABR copy and mixer pipelines: same create, roll back and delete pattern as the normal pipeline.
- HTTP API, metrics, logging, configuration loading and event delivery: no state the properties depend on.
- Input error history, media statistics and degradation flags: recorded beside the modelled state, never read by it.
- Callbacks on exhaustion and recovery: detached goroutines whose order the code does not fix.
- Starting an ingestor, probing, posting a batch, writing a file, accepting a message: their outcome is an input of the step.
- Wall-clock time is an input; within one locked section it is read once.
- FailoverState.StreamState.OnUpdateInputs: input records are pointers in the code; here the map holds values and an identity number tells a record from a later one under the same priority.
- BufferLayout.ScoreIsResolutionFirstExactly: stated for scores that fit 64 bits; WrappedScoreExactly is the statement for all.
- Coordinator.Coordinator.UpdateLocked: the restart of an active input whose URL changed belongs to the ingestor; its effect on the manager is the edit of the inputs.
- FleetCurrent.OutputsCurrentExactly: an update of the outputs that the publisher refuses is taken to change nothing; resolving a watermark's asset to a path, which can fail and disable it, is not modelled, nor is the recorder.
- Coordinator.TranscoderProfilesFromDomain: codec, preset and default mapping of a profile is one opaque value per profile.
- Coordinator.HubAlwaysExact: for stream codes without the character reserved for internal buffers, which validation guarantees, and for updates whose old configuration is the running one.
- StreamDiff.ComputeDiff: protocols, push targets, playback policy, DVR and encoder knobs are compared as whole values; nil and empty lists are not told apart.
- HookBatcher.MergeLimits: the flush interval, timeout and retry count are merged in the same way; no modelled step reads them.
- BufferHub.RingBuffer.Write: packets are values, so the copy made per subscriber is implicit.
- BufferSessions.IdsRise: the 64-bit wrap of the session counter is not modelled.
- HlsSegmenter.Segmenter.HandleIncoming: the TS muxer and the alignment of its output are not part of this model; a packet brings the aligned TS packets it turns into, and bytes dropped by realignment at a session start are not among them.
- HlsScanner.KeyframeScanner.Process188: parsing of PAT, PMT and PES headers is an input, as the kind of the packet.
- HlsScanner.KeyframeScanner.ProcessVideoPacket: keyframe detection in the elementary stream is an input, as a flag.
- HlsAnchors.AlwaysAnchored: for raw TS in whole packets of 188 bytes, which is what the alignment hands on.
- HlsScanner.ScannerContract: parsing of PAT, PMT and elementary streams is an input, as the kind of each packet.
- HlsPlaylist.SequenceNumberLaw: the 64-bit wrap of the segment counter and the formatting of the playlist text are not modelled; the ABR master playlist is not part of this model.
- HlsTimeline.SegmentsTileExactly: for one session cut by keyframes only, ticks and session starts that cut being HlsRuns' subject; durations are real numbers, so the rounding of the six printed decimals is not modelled.
- PushCodec.MessagesInOrder: Annex-B splitting and the building of headers and metadata are library functions that can fail; a session that ends on an error is one of the runs.
- PrefixRouting.OverlapExactly: strings are sequences of code points; malformed UTF-8 is not modelled.
- Matcher.PathMatcher.constructor: the library sort is a sort by falling length; the properties hold for every order of equal lengths.
- The DASH packager, DVR store, native transcoder, ingest registry, stall watchdog and authorisation checks: not part of this model.
