# Verified models of a WebRTC media server

This project models the deterministic state machines of a decentralised WebRTC media server and
proves what they keep over whole runs. Where the server updates an object in place, the model is a
class with the same fields; each of its methods is tied by its `ensures` to a function on values, and
the theorems about runs are proved of those functions.

| part | files |
|---|---|
| recovering and rewriting RTP sequence numbers | `SeqExtend`, `SeqRewrite`, `SeqRewriteInOrder`, `SeqRewriteRepeats`, `SeqRewriteReordered`, `ModularArithmetic` |
| reliable connector protocol | `MsgQueue`, `MsgQueueRuns`, `Lru`, `Connector`, `ConnectorSafety`, `ConnectorAnswers` |
| room lifecycle in the connector's tables | `RoomStorage`, `RoomStorageRuns`, `RoomStorageHooks`, `RoomStorageEvents` |
| audio mixer slots | `AudioMixer`, `AudioMixerRuns` |
| gateway registry | `NodeLists`, `GatewayStore`, `GatewayRuns` |
| UDP port demultiplexer | `SharedPort` |
| endpoint join and leave | `Endpoint`, `EndpointRuns`, `EndpointOutputs` |
| recording: files, framing, cutting, merging | `MemoryFiles`, `Framing`, `FramingRuns`, `RecordChunks`, `SessionRecords`, `SessionRecordRuns`, `EndpointRecording`, `SessionReading`, `SessionHeap`, `RecordMerge` |

`Options` and `Sequences` hold shared definitions. `dafny verify dfyconfig.toml` checks everything.

## What the code does not keep

Several natural expectations are false of the code. Each is stated with its exact condition.

- **Sequence recovery.** Packets up to 2^14 behind and 2^14 ahead of the highest one are not all
  recovered: a jump of exactly half a cycle is read one cycle low. With bounds `back` and `ahead`
  recovery is always right if and only if `back + ahead < 2^15`, or `ahead` is zero and `back` is 2^15
  (`SeqExtend.RecoversIff`).
- **Repeated picture ids.** All packets of a frame carry one picture id, so inputs repeat. A repeated
  input changes nothing, except that an input dropped after the numbers wrapped is not recognised when
  it comes again before the next forwarded one (`SeqRewriteRepeats.RepeatIff`). It is then counted as one
  more drop, and two frames get one picture id (`SeqRewriteRepeats.TwoFramesOneNumber`), or is forwarded
  although dropped (`SeqRewriteRepeats.DroppedFrameForwarded`).
- **Renumbering out of order.** One fixed map gives all outputs of a window unless the stream begins
  with a drop at the very bottom of the window, because the sync point then lies outside it
  (`SeqRewriteReordered.FixedMapIff`).
- **Splicing.** An output half a cycle or more ahead of the last one kept is not kept, nor are those
  after it until they come round. A new stream continues from the last output if and only if that was
  kept (`SeqRewriteInOrder.SpliceContinuesIff`); it always is while outputs advance by less than half a
  cycle (`SeqRewriteInOrder.SteadyKeepsAll`), and may not be later on (`SeqRewriteInOrder.SpliceGoesBack`).
- **Duplicates.** A request evicted from the cache of 10000 keys is delivered again
  (`ConnectorSafety.EvictedTwice`); it is delivered at most once if and only if its arrivals are spaced
  more closely (`ConnectorSafety.DeliveredOnceIff`).
- **Stray answers.** An answer to a request that is still waiting frees its owner, and the request is
  sent all the same (`ConnectorSafety.StrayAnswerStillSent`). An answered request is sent later only if
  it was waiting, and then waits until it is (`MsgQueueRuns.SentLaterIff`).
- **Leaving twice.** A peer that leaves, joins again and leaves in one session may have its first row
  closed twice and its open row never (`RoomStorageHooks.LeaveClosesIff`, `RoomStorageHooks.RejoinLeaks`).
  The room then keeps an open session and its timer never starts (`RoomStorageHooks.LeakedForever`).
- **Joining after shutdown.** An endpoint that was shut down is in a room if and only if it joined one
  after that and no leave request took it out; another shutdown does not
  (`EndpointRuns.InRoomAfterShutdownIff`, `EndpointRuns.JoinAfterShutdownStays`). A leave request that
  finds a join waiting cancels only the wait (`EndpointRuns.LeaveLeavesIff`,
  `EndpointRuns.LeaveCancelsOldJoin`).
- **Recording and disconnects.** An endpoint tells the recorder of a disconnect before its tracks stop,
  and the recorder takes nothing after that: a disconnect in a room with a recorded track always loses
  a row (`EndpointRecording.DisconnectLosesRow`). A stay is recorded completely if and only if no row
  of it comes after a disconnect (`EndpointRecording.RecordingComplete`).
- **Trailing bytes.** A decoder that ignores what follows a value, as the one used for rows does, reads
  frames that no writer produces (`FramingRuns.TrailingByteRead`). What is read cleanly is the encoding of
  its rows if and only if each body is (`FramingRuns.CleanReadIsEncodingIff`).
- **Broken files.** A file cut short loses only its incomplete row, because the composer peeks before it
  pops (`SessionReading.SessionGivesCompleteRows`, `SessionReading.PopEndsAtCut`); but a session whose
  first file has no readable header counts as empty (`SessionReading.BadFirstHeader`).
- **Recording between rooms.** Joining a room discards the rows still pending
  (`SessionRecordRuns.JoinLosesIff`). Media that arrives between a leave and the next join is recorded
  for the room that was left and lost (`EndpointRecording.StrayMediaLost`).

The gateway's load figure is computed in 32 bits and keeps only the low eight bits of a percentage, and
a zone keeps the location it was first heard at; the model does the same.

## Model

Theorems about whole runs and the facts they rest on come first; the rows after `RecordMerge.Compose` link
the objects that are updated in place to the functions the theorems are about.

| member | source | states |
|---|---|---|
| SeqExtend.NextDecodes | packages/media_utils/src/seq_extend.rs:42-63 | every number less than half a cycle from the remembered one is decoded, and which of the two is remembered next |
| SeqExtend.WindowRecovers | packages/media_utils/src/seq_extend.rs:42-63 | a run of any length and any number of cycles returns every true number |
| SeqExtend.RecoversIff | packages/media_utils/src/seq_extend.rs:42-63 | all runs within `back` and `ahead` of the highest number are recovered if and only if their sum is below half a cycle, or equal to it with `ahead` zero |
| SeqExtend.HalfCycleJumpLost | packages/media_utils/src/seq_extend.rs:42-63 | runs of three packets in which a jump of exactly half a cycle is misread |
| SeqRewriteInOrder.RefinesCounter | packages/media_utils/src/seq_rewrite.rs:31-171 | every output of every in-order run, with repeated inputs, drops, offsets of any size and reinits, through any number of wraps, is that of an unbounded counter modulo MAX |
| SeqRewriteInOrder.RunRefines | packages/media_utils/src/seq_rewrite.rs:31-171 | the refinement holds after every call of such a run |
| SeqRewriteInOrder.ConsecutiveOutputs | packages/media_utils/src/seq_rewrite.rs:45-121 | two forwarded inputs with nothing forwarded between give outputs that differ by the input distance less the drops counted, whatever offsets came before |
| SeqRewriteInOrder.TruncateKeepsNet | packages/media_utils/src/seq_rewrite.rs:45-70 | truncating the drop set changes no later output |
| SeqRewriteInOrder.FirstOutput | packages/media_utils/src/seq_rewrite.rs:72-171 | the first output of a stream is the last one plus one plus the offset |
| SeqRewriteInOrder.SpliceContinuesIff | packages/media_utils/src/seq_rewrite.rs:31-171 | in every in-order run, repeats included, a splice continues from the last output plus one plus the offset if and only if that output was kept |
| SeqRewriteInOrder.SteadyKeepsAll | packages/media_utils/src/seq_rewrite.rs:103-118 | while outputs advance by less than half a cycle each, all are kept |
| SeqRewriteInOrder.SpliceGoesBack | packages/media_utils/src/seq_rewrite.rs:103-118 | a run whose last output advanced by one and whose splice goes back half a cycle |
| SeqRewriteRepeats.RepeatsHarmless | packages/media_utils/src/seq_rewrite.rs:45-130 | with no repeat of an input dropped past a wrap, repeated inputs change nothing in any in-order run |
| SeqRewriteRepeats.RepeatIff | packages/media_utils/src/seq_rewrite.rs:123-130 | after any such run, the next call's output and that of every new input after it are right if and only if it does not repeat an input dropped past a wrap, or drops it with no new input left in order |
| SeqRewriteRepeats.OutputsSkipDistinctDrops | packages/media_utils/src/seq_rewrite.rs:45-121 | without such a repeat, consecutive outputs differ by the input distance less the number of distinct inputs dropped between |
| SeqRewriteRepeats.TwoFramesOneNumber | packages/media_core/src/endpoint/internal/local_track/packet_selector/video_vp8_sim.rs:183-192 | for every MAX, a run in which a frame of two packets is dropped past the wrap and the next frame gets the number of the one before |
| SeqRewriteRepeats.DroppedFrameForwarded | packages/media_utils/src/seq_rewrite.rs:123-130 | for every MAX, a run in which an input just dropped is forwarded |
| SeqRewriteReordered.RenumberGap | packages/media_utils/src/seq_rewrite.rs:72-121 | the fixed map keeps order, and the output gap is the input gap less the recorded drops between |
| SeqRewriteReordered.AnchoredFixedMap | packages/media_utils/src/seq_rewrite.rs:45-121 | with at most 1000 recorded drops, in any arrival order inside a half window every forwarded input gets the fixed map's output and no recorded drop is forwarded |
| SeqRewriteReordered.FixedMapIff | packages/media_utils/src/seq_rewrite.rs:45-121 | for which first call all runs in the window follow one fixed map |
| SeqRewriteReordered.DropZeroForwarded | packages/media_utils/src/seq_rewrite.rs:123-130 | a dropped zero at the start of a stream is forwarded later |
| SeqRewriteReordered.DropBottomRenumbers | packages/media_utils/src/seq_rewrite.rs:45-121 | a first drop at the bottom of a window makes one input get two outputs |
| MsgQueue.RetryFinds | packages/media_connector/src/msg_queue.rs:62-77 | a retry is a live id sent longest ago and due, or none is due; only dead ids are discarded |
| MsgQueueRuns.RunKeeps | packages/media_connector/src/msg_queue.rs:18-77 | after every run with fresh ids the tables agree with a log of pushes, sends and acknowledgements: window bound, one bucket per message in flight, keyed by its last send |
| MsgQueueRuns.Partition | packages/media_connector/src/msg_queue.rs:18-48 | each pushed message is in exactly one of waiting, in flight, acknowledged |
| MsgQueueRuns.PopSchedules | packages/media_connector/src/msg_queue.rs:31-48 | which message a pop returns, and that none means nothing is due and nothing may be sent |
| MsgQueueRuns.PopShrinks | packages/media_connector/src/msg_queue.rs:31-77 | each successful pop lowers the count of due and waiting messages by one |
| MsgQueueRuns.DrainBound | packages/media_connector/src/msg_queue.rs:31-77 | popping at one time returns no more messages than were due or waiting |
| MsgQueueRuns.SentLaterIff | packages/media_connector/src/msg_queue.rs:22-48 | a message not in flight, such as one just answered, is sent later only if it is waiting, and then waits until it is sent |
| Lru.CacheIsRecent | packages/media_connector/src/handler_service.rs:96-102 | the bounded cache holds the most recent distinct keys |
| Lru.HitIff | packages/media_connector/src/handler_service.rs:96-102 | a key is recognised if and only if it came before with fewer than `cap` distinct others since |
| Lru.AtMostOneMissIff | packages/media_connector/src/handler_service.rs:96-102 | all duplicates of a key are recognised if and only if its arrivals are spaced that closely |
| Connector.AnswerClearsIff | packages/media_connector/src/agent_service.rs:120-126 | a response removes the request from the send queue if and only if it was not still waiting |
| ConnectorSafety.RunSafe | packages/media_connector/src/agent_service.rs:98-159 | the protocol invariant over a network that loses, duplicates and reorders |
| ConnectorSafety.OwnedAreQueued | packages/media_connector/src/agent_service.rs:103-126 | owners are kept for exactly the waiting and in-flight requests |
| ConnectorSafety.AnsweredOnceNeverResent | packages/media_connector/src/agent_service.rs:118-159 | no owner gets two answers and an answered request is never sent again |
| ConnectorSafety.DeliveredAtMostOnce | packages/media_connector/src/handler_service.rs:96-115 | a request reaches the subscriber at most once while fewer than 10000 others come between its arrivals |
| ConnectorSafety.DeliveredOnceIff | packages/media_connector/src/handler_service.rs:96-115 | in every run whose requests have bodies and find a subscriber, one delivery at most if and only if fewer than 10000 others come between arrivals |
| ConnectorSafety.EvictedIsDeliveredAgain | packages/media_connector/src/handler_service.rs:96-115 | an arrival is delivered if and only if the key is new or 10000 others came since |
| ConnectorSafety.EvictedTwice | packages/media_connector/src/handler_service.rs:96-115 | a legal run of 10001 different requests and the first again, which delivers it twice |
| ConnectorSafety.StrayAnswerStillSent | packages/media_connector/src/agent_service.rs:120-126 | a run in which an answered request is sent |
| ConnectorAnswers.AnswersGoToOwners | packages/media_connector/src/agent_service.rs:103-126 | in every run the k-th answer ever given is to the k-th answered request, goes to the actor that asked it, and carries a body the application replied with under that id |
| ConnectorAnswers.HandedIsAsked | packages/media_connector/src/handler_service.rs:96-115 | in every run what the subscriber is handed for a request has the body and time it was asked with |
| ConnectorAnswers.RepliesConserved | packages/media_connector/src/handler_service.rs:83-89 | in every run a reply is sent exactly as often as the application gave it, to the node it was meant for |
| ConnectorAnswers.StatsCount | packages/media_connector/src/agent_service.rs:79-95 | the figures a tick reports to the subscriber count the requests not yet sent, sent and not acknowledged, and acknowledged |
| RoomStorageRuns.RunGood | packages/media_connector/src/sql_storage.rs:88-121 | at every boundary of every run: one undestroyed row per name, and its timer is set if and only if no session is open |
| RoomStorageRuns.TimerMeans | packages/media_connector/src/sql_storage.rs:299-367 | a running timer means a leave from that room at that time and no open session since |
| RoomStorageRuns.DestroyedOnlyAfterDelay | packages/media_connector/src/sql_storage.rs:88-121 | a room is destroyed only by a tick, after the delay with no open session throughout |
| RoomStorageRuns.DestroyedForever | packages/media_connector/src/sql_storage.rs:441-547 | a destroyed row stays destroyed and never has an open session again |
| RoomStorageEvents.TimerIsLastLeave | packages/media_connector/src/sql_storage.rs:299-367 | in every run the timer of an empty undestroyed room is the time of the last leave from it |
| RoomStorageEvents.TickDestroysIff | packages/media_connector/src/sql_storage.rs:88-121 | a tick destroys a room only if it is empty and was last left at least the delay ago, as the leaves tell; and every such room if there are no more than a hundred |
| RoomStorageEvents.TickAnnounces | packages/media_connector/src/sql_storage.rs:88-121 | a tick fires one more Stopped hook for a room if it destroys it, and none otherwise |
| RoomStorageEvents.HooksConserved | packages/media_connector/src/sql_storage.rs:267-367 | over every run each hook, with its time, is fired exactly as often as caused: PeerJoined by a join, PeerLeaved by a leave, AllPeersLeaved by a leave after which nobody is left, Started by entering a name with no undestroyed row, Stopped by a tick |
| RoomStorageEvents.JoinOpens | packages/media_connector/src/sql_storage.rs:267-298 | after a join the peer has an open session of that number in the undestroyed room of that name |
| RoomStorageEvents.SessionTold | packages/media_connector/src/sql_storage.rs:299-330 | in every run each session row tells of a join of its peer, room and session at its times; a closed one also of a later leave of the same, at the time in the row |
| RoomStorageHooks.HooksAlternate | packages/media_connector/src/sql_storage.rs:441-485 | Started and Stopped strictly alternate for each name, and tell exactly whether an undestroyed row exists |
| RoomStorageHooks.RunOneOpen | packages/media_connector/src/sql_storage.rs:509-534 | a peer has at most one open row per session in every run |
| RoomStorageHooks.LeaveClosesIff | packages/media_connector/src/sql_storage.rs:299-330 | a leave closes the open row, whichever row the query returns, if and only if there is no earlier closed one |
| RoomStorageHooks.RejoinLeaks | packages/media_connector/src/sql_storage.rs:299-330 | a run of join, leave, join, leave that ends with an open session and no timer |
| RoomStorageHooks.LeakedForever | packages/media_connector/src/sql_storage.rs:299-367 | an open row that no leave picks stays open; its room's timer never starts and the room is never destroyed |
| AudioMixer.LinkedSearchesAgree | packages/audio_mixer/src/lib.rs:120-149 | the cached count answers as the scan does, and a full mixer has a slot to take over |
| AudioMixer.PktLinked | packages/audio_mixer/src/lib.rs:69-118 | a packet keeps both tables and the count in agreement |
| AudioMixer.TickKeeps | packages/audio_mixer/src/lib.rs:47-67 | a tick leaves exactly the sources heard within a second, unchanged |
| AudioMixerRuns.RunKeeps | packages/audio_mixer/src/lib.rs:47-149 | after every run the tables mirror each other and a source's time is that of its last packet |
| AudioMixerRuns.HoldersRecentAfterTick | packages/audio_mixer/src/lib.rs:47-67 | right after a tick every slot holder sent a packet within the last second |
| AudioMixerRuns.ListenerKnows | packages/audio_mixer/src/lib.rs:47-118 | a listener of new slots and cleared slots knows the holder of every slot |
| AudioMixerRuns.LosesSlotOnly | packages/audio_mixer/src/lib.rs:47-118 | a slot is lost only by timeout, or at the lowest level to a packet at least 30 louder |
| AudioMixerRuns.AnswerIsHeldSlot | packages/audio_mixer/src/lib.rs:69-118 | a packet is answered with the slot its source then holds, flagged if and only if it did not hold it before, and with none if and only if it then holds none |
| AudioMixerRuns.GetsSlotIff | packages/audio_mixer/src/lib.rs:74-118 | a source without a slot gets one if and only if one is empty, or it is known and at least 30 above the lowest level; which slot, and the level noted with it; no other slot changes |
| AudioMixerRuns.HolderKeepsSlots | packages/audio_mixer/src/lib.rs:69-76 | a packet of a slot holder changes no slot and no noted level |
| AudioMixerRuns.AnswersInRuns | packages/audio_mixer/src/lib.rs:69-118 | the answers are so after every run |
| NodeLists.PingRepresents | packages/media_gateway/src/store/service.rs:56-70 | a sorted list after a ping is the sorted form of the updated map |
| NodeLists.RemoveRepresents | packages/media_gateway/src/store/service.rs:72-78 | removing a node removes it from the map and nothing else |
| NodeLists.UnexpiredRepresents | packages/media_gateway/src/store/service.rs:48-54 | a tick keeps exactly the unexpired nodes, in order |
| GatewayStore.PingZoneRefines | packages/media_gateway/src/store/service.rs:80-123 | a gateway ping updates the map of zones |
| GatewayStore.RemoveGatewayRefines | packages/media_gateway/src/store/service.rs:125-143 | a gateway is removed, and its zone with the last one |
| GatewayStore.UnexpiredZonesRefine | packages/media_gateway/src/store/service.rs:48-54 | a tick keeps exactly the zones with an unexpired gateway |
| GatewayStore.BestForIs | packages/media_gateway/src/store/service.rs:145-160 | none if and only if nothing is known; a least used local node unless a zone is strictly nearer; else a least used gateway of a nearest zone |
| GatewayStore.DestForIs | packages/media_gateway/src/store/service.rs:164-182 | the node itself if it is local and known, else a least used gateway of its zone |
| GatewayStore.DistanceGrows | packages/media_gateway/src/store/service.rs:241-244 | what lies further along both axes is further away |
| GatewayRuns.RunRefines | packages/media_gateway/src/store/service.rs:48-143 | after every run the lists refine the registry of latest pings |
| GatewayRuns.KeptLoad | packages/media_gateway/src/store.rs:139-170 | a node is kept if and only if cpu, memory and disk are below their limits and its active stats are present; its load is the larger of cpu and the wrapped percentage |
| GatewayRuns.RegistryIsLatest | packages/media_gateway/src/store.rs:74-170 | a local node is listed if and only if its latest ping was accepted, in the ping's own fields, and is unexpired, with the larger of that ping's cpu and percentage |
| GatewayRuns.RegistryIsLatestGateway | packages/media_gateway/src/store.rs:74-170 | the same for a gateway of another zone |
| GatewayRuns.LocationIsFirstHeard | packages/media_gateway/src/store/service.rs:80-123 | a zone is known exactly while it has a live gateway, at the location of the ping that first made it known |
| GatewayRuns.BestAfterRun | packages/media_gateway/src/store/service.rs:145-160 | after every run, of the pings alone: a node is found if and only if one is live; a least used local node unless a zone is strictly nearer, else a least used gateway of a nearest zone |
| GatewayRuns.LeastTrulyLoaded | packages/media_gateway/src/store.rs:155-170 | where nothing wraps, no live node has a smaller maximum of cpu and true percentage than a chosen one |
| SharedPort.AddKeepsIff | packages/transport_webrtc/src/shared_port.rs:25-29 | adding keeps the maps inverse if and only if fragment and task are both new or belong together |
| SharedPort.RunInverse | packages/transport_webrtc/src/shared_port.rs:25-57 | after every run both pairs of maps are inverse and the address lists free of duplicates |
| SharedPort.OnlyLiveTasks | packages/transport_webrtc/src/shared_port.rs:43-57 | a packet goes only to a task added and not removed |
| SharedPort.AddressSticks | packages/transport_webrtc/src/shared_port.rs:31-57 | an address keeps its task until the task is removed |
| SharedPort.RoutedIff | packages/transport_webrtc/src/shared_port.rs:43-57 | in every run, of the events alone: a packet goes to a task if and only if its address is tied to it, or is tied to none and the packet names the fragment of that live task, which ties it |
| SharedPort.RemotesFollow | packages/transport_webrtc/src/shared_port.rs:31-57 | the address table is what the packets and removals say |
| SharedPort.UfragsFollow | packages/transport_webrtc/src/shared_port.rs:25-41 | the fragment table holds exactly the fragments of tasks added and not removed since |
| EndpointRuns.RunBracketed | packages/media_core/src/endpoint/internal.rs:91-477 | a consumer of the outputs of any run never fails: cluster, peer-event and recorder brackets alternate and match, and are open exactly for the joined room |
| EndpointRuns.ControlInsideOwnRoom | packages/media_core/src/endpoint/internal.rs:160-318 | every room control follows a Join of the same room with no Join or Leave between; published data carries that Join's peer and mixer controls need its manual mode |
| EndpointRuns.JoinsApart | packages/media_core/src/endpoint/internal.rs:425-477 | between two Joins there is a Leave of the first one's room |
| EndpointRuns.InRoomAfterShutdownIff | packages/media_core/src/endpoint/internal.rs:91-116 | after every run that ends shut down, the endpoint is in a room if and only if it joined one after the shutdown and no leave request took it out |
| EndpointRuns.JoinAfterShutdownStays | packages/media_core/src/endpoint/internal.rs:91-116 | a run that ends shut down and in a room |
| EndpointRuns.LeaveLeavesIff | packages/media_core/src/endpoint/internal.rs:171-179 | a leave request leaves the room if and only if no join waits while in a room |
| EndpointRuns.LeaveCancelsOldJoin | packages/media_core/src/endpoint/internal.rs:171-179 | a run in which a leave request leaves the endpoint in its room |
| EndpointRuns.RequestsConserved | packages/media_core/src/endpoint/internal.rs:160-385 | each id of a request other than one for a track is answered, waiting or forgotten, together as often as it was requested |
| EndpointOutputs.StandsByHistory | packages/media_core/src/endpoint/internal.rs:91-477 | in every run transport state, waiting join, room and shutdown are what the history of requests and reports says |
| EndpointOutputs.OutputsConserved | packages/media_core/src/endpoint/internal.rs:91-477 | over every run each output, of whatever kind and content, is emitted exactly as often as steps caused it, told from the history alone |
| EndpointOutputs.ControlsConserved | packages/media_core/src/endpoint/internal.rs:180-318 | a control of a request is passed on exactly as often as that very request, with its argument, was made in that room; for the mixer in manual mode |
| EndpointOutputs.RepliesConserved | packages/media_core/src/endpoint/internal.rs:160-318 | a request is told `Ok` exactly if it was carried out, and otherwise the error of its kind, each as often as made |
| Framing.FromToBytes | packages/media_record/src/raw_record/chunk_writer.rs:34-35 | a length survives its four bytes |
| FramingRuns.HeaderFirst | packages/media_record/src/raw_record/chunk_reader.rs:58-65 | the first frame of a chunk gives back its header |
| FramingRuns.ReadsBack | packages/media_record/src/raw_record/chunk_reader.rs:67-92 | under any interleaving of peeks and pops the reader answers like a cursor over the rows written, then the end |
| FramingRuns.CutReadsCompleteRows | packages/media_record/src/raw_record/chunk_reader.rs:74-92 | a file cut anywhere gives exactly its complete rows, then the end within a length and an error within a body |
| FramingRuns.CleanReadIff | packages/media_record/src/raw_record/chunk_reader.rs:74-92 | for every codec, a byte string reads to its end without a failure if and only if it is whole frames whose bodies decode and at most three bytes behind them; the rows are what they decode to |
| FramingRuns.CleanReadIsEncodingIff | packages/media_record/src/raw_record/chunk_reader.rs:74-92 | what was read cleanly is the encoding of its rows, up to three stray bytes, if and only if each body is the encoding of its row |
| FramingRuns.TrailingByteRead | packages/protocol/src/record.rs:62-64 | with a decoder that ignores trailing bytes, a frame that reads cleanly and that no writer produces |
| SessionRecordRuns.RunConserves | packages/media_record/src/session.rs:35-108 | in every run the files of a stay hold a beginning of the rows offered for it, once each and in order, numbered from zero with the right times; missing are only pending rows, rows pending at the next join, and rows after a disconnect |
| SessionRecordRuns.JoinLosesIff | packages/media_record/src/session.rs:45-55 | a stay ended by a join is complete if and only if nothing was pending and nothing came after a disconnect |
| SessionRecordRuns.EndedStaysComplete | packages/media_record/src/session.rs:39-74 | with every join after a leave, an ended stay is complete if and only if no row of it was offered after a disconnect |
| SessionRecordRuns.NothingLost | packages/media_record/src/session.rs:39-74 | after the last leave this holds of every stay |
| SessionRecordRuns.RunAgrees | packages/media_record/src/lib.rs:74-108 | the observer of events, ticks and files agrees with the recorder, which the service forgets at the first tick after it was closed |
| SessionRecordRuns.FilesReadBack | packages/media_record/src/session.rs:88-107 | reading the files of a stay gives back the rows written |
| SessionRecordRuns.HeaderReadsBack | packages/media_record/src/session.rs:88-107 | in every run the header read from the i-th file of a stay has the stay's room and peer, the session, and the times of the file's first and last row |
| SessionRecordRuns.CutIff | packages/media_record/src/session.rs:76-86 | in every run in order a step cuts a file if and only if it is no join, rows are unwritten, and it leaves or disconnects or a minute has passed; the file holds all of them |
| SessionRecordRuns.RunShort | packages/media_record/src/session.rs:76-86 | with events in order each file without its last row spans less than a minute |
| SessionRecordRuns.FreshAfterTick | packages/media_record/src/session.rs:76-86 | after a tick the newest pending row is under a minute old and all are under two |
| EndpointRecording.RecordingComplete | packages/media_record/src/lib.rs:103-108 | whatever an endpoint does, if tracks are recorded only in rooms, an ended stay is complete if and only if no row of it came after a disconnect |
| EndpointRecording.DisconnectLosesRow | packages/media_core/src/endpoint/internal.rs:373-384 | every endpoint disconnected in a room, whatever its tracks then emit, if they record a row: that row is in no file whenever the service ticks, so the stay is not complete |
| EndpointRecording.RecordedRoomReachable | packages/media_core/src/endpoint/internal.rs:160-170 | such an endpoint is reached by a run of two steps |
| EndpointRecording.RowIsLateIff | packages/media_record/src/session.rs:39-43 | a row is late if and only if it is offered while the session is not live, as events and ticks alone tell |
| EndpointRecording.StrayMediaLost | packages/media_core/src/endpoint/internal/remote_track.rs:161-163 | media between a leave and the next join is accepted and in no file |
| SessionReading.SessionGivesCompleteRows | packages/media_record/src/raw_record/session_reader.rs:56-76 | with readable headers, peeks and pops in turn give the complete rows of all files in order, each once, and the time of the next, even if files are cut |
| SessionReading.BadFirstHeader | packages/media_record/src/raw_record/session_reader.rs:92-103 | an unreadable first header makes the first peek give nothing |
| SessionReading.PopEndsAtCut | packages/media_record/src/raw_record/session_reader.rs:67-76 | a pop that meets a cut row ends the session |
| SessionHeap.SiftDownHeap | packages/media_record/src/convert/composer.rs:144-146 | changing the top in place restores the heap with the same entries |
| SessionHeap.SiftDownStays | packages/media_record/src/convert/composer.rs:201-210 | an unchanged top stays, so the session popped is the exhausted one |
| SessionHeap.PopIsHeap | packages/media_record/src/convert/composer.rs:208-210 | popping removes the top only and keeps the heap |
| RecordMerge.TakeMerging | packages/media_record/src/convert/composer.rs:37-47 | taking a row keeps every session's remaining rows and the order |
| RecordMerge.Compose | packages/media_record/src/convert/composer.rs:127-211 | the loop ends; every row of every session is processed once, in its session's order; the whole is sorted if and only if every session is |
| SeqExtend.RtpSeqExtend.Generate | packages/media_utils/src/seq_extend.rs:42-63 | the in-place update and result are one step of the value model |
| SeqRewrite.Rewriter.Offset | packages/media_utils/src/seq_rewrite.rs:36-42 | an offset goes to the base, or waits for a pending reinit |
| SeqRewrite.Rewriter.DropInput | packages/media_utils/src/seq_rewrite.rs:45-70 | recording a drop, settling a reinit first and folding the oldest of more than 1000 drops into the base |
| SeqRewrite.Rewriter.GenerateOutput | packages/media_utils/src/seq_rewrite.rs:72-121 | the output, or none for a recorded drop, and the new state |
| MsgQueue.MessageQueue.Ack | packages/media_connector/src/msg_queue.rs:22-29 | only a message in flight is acknowledged |
| MsgQueue.MessageQueue.PopRetryMsgId | packages/media_connector/src/msg_queue.rs:62-77 | the loop ends, computes the specified retry, and no bucket is ever empty |
| MsgQueue.MessageQueue.PopNext | packages/media_connector/src/msg_queue.rs:31-48 | the message and the new tables |
| Connector.ConnectorAgentService.ControlRequest | packages/media_connector/src/agent_service.rs:103-110 | a request gets the next id, an owner and a place in the queue |
| Connector.ConnectorAgentService.DataRecv | packages/media_connector/src/agent_service.rs:118-138 | a response frees the request and goes to its owner; others are ignored |
| Connector.ConnectorAgentService.PopOutput | packages/media_connector/src/agent_service.rs:147-159 | queued outputs first, then the send queue |
| Connector.ConnectorHandlerService.DataRecv | packages/media_connector/src/handler_service.rs:96-121 | a request with a source is remembered and, unless a duplicate, handed on |
| Connector.ConnectorHandlerService.ControlRes | packages/media_connector/src/handler_service.rs:83-89 | a reply goes to the node that asked |
| RoomStorage.ConnectorSqlStorage.UpsertRoomRow | packages/media_connector/src/sql_storage.rs:441-485 | the undestroyed row with its timer cleared, or a new one and a Started hook |
| RoomStorage.ConnectorSqlStorage.UpsertPeerRow | packages/media_connector/src/sql_storage.rs:487-507 | the peer's row, or a new one |
| RoomStorage.ConnectorSqlStorage.OnJoin | packages/media_connector/src/sql_storage.rs:267-298 | the tables and hooks after a join |
| RoomStorage.ConnectorSqlStorage.OnLeave | packages/media_connector/src/sql_storage.rs:299-367 | the tables and hooks after a leave |
| RoomStorage.ConnectorSqlStorage.CloseExitedRooms | packages/media_connector/src/sql_storage.rs:88-121 | at most 100 expired rooms are destroyed, each with a Stopped hook |
| AudioMixerRuns.Allocator.FindEmptySlot | packages/audio_mixer/src/lib.rs:120-127 | the loop finds the first empty slot |
| AudioMixerRuns.Allocator.LowestSlot | packages/audio_mixer/src/lib.rs:133-149 | the loop finds the last slot of the lowest level |
| AudioMixerRuns.Allocator.Packet | packages/audio_mixer/src/lib.rs:69-118 | the new tables and the slot, with no failing `expect` |
| AudioMixerRuns.Allocator.Tick | packages/audio_mixer/src/lib.rs:47-67 | the new tables and the cleared slots |
| GatewayRuns.GatewayStoreObject.PingReceived | packages/media_gateway/src/store.rs:74-110 | which list a ping updates or is removed from |
| GatewayRuns.GatewayStoreObject.Tick | packages/media_gateway/src/store/service.rs:48-54 | the loop over zones computes the specified lists |
| GatewayRuns.GatewayStoreObject.Best | packages/media_gateway/src/store/service.rs:145-160 | the loop computes the specified choice |
| GatewayRuns.GatewayStoreObject.Dest | packages/media_gateway/src/store/service.rs:164-182 | the lookup computes the specified destination |
| SharedPort.SharedUdpPort.Remove | packages/transport_webrtc/src/shared_port.rs:31-41 | the loop removes exactly the task's addresses |
| SharedPort.SharedUdpPort.Map | packages/transport_webrtc/src/shared_port.rs:43-57 | a known address keeps its task, an unknown one is tied by its fragment |
| Endpoint.EndpointInternal.Rpc | packages/media_core/src/endpoint/internal.rs:160-318 | every request: the new state and everything emitted |
| Endpoint.EndpointInternal.StateChanged | packages/media_core/src/endpoint/internal.rs:320-385 | every transport state: the new state and everything emitted |
| Endpoint.EndpointInternal.JoinNew | packages/media_core/src/endpoint/internal.rs:425-449 | a join leaves the room before, then opens the new one |
| Endpoint.EndpointInternal.LeaveCurrent | packages/media_core/src/endpoint/internal.rs:451-477 | tracks are drained before the leave is emitted |
| Endpoint.EndpointInternal.Shutdown | packages/media_core/src/endpoint/internal.rs:91-116 | the first shutdown drains and leaves, later ones do nothing |
| MemoryFiles.MemoryFile.Write | packages/media_record/src/storage/memory.rs:62-67 | the bytes are appended, and `len` counts the unread ones |
| MemoryFiles.MemoryFile.Read | packages/media_record/src/storage/memory.rs:76-92 | what is read is taken off the front; nothing is read only at the end |
| RecordChunks.RecordChunkWriter.Push | packages/media_record/src/raw_record/chunk_writer.rs:33-37 | one frame is appended |
| RecordChunks.RecordChunkReader.Connect | packages/media_record/src/raw_record/chunk_reader.rs:58-65 | the header is the first frame's value, or the call fails |
| RecordChunks.RecordChunkReader.ReadUtilFull | packages/media_record/src/raw_record/chunk_reader.rs:31-39 | the buffer is filled if and only if enough is left |
| RecordChunks.RecordChunkReader.PopRow | packages/media_record/src/raw_record/chunk_reader.rs:74-92 | the peeked row, or what the next frame gives |
| RecordChunks.RecordChunkReader.PeekNextTs | packages/media_record/src/raw_record/chunk_reader.rs:67-72 | the next row's time, and the row is kept |
| SessionRecords.SessionRecord.CutFile | packages/media_record/src/session.rs:76-108 | when a file is cut, its request and its bytes |
| SessionRecords.SessionRecord.PushEvent | packages/media_record/src/session.rs:39-74 | what each event does to the queue and which file comes out |
| MemoryFiles.ReadExact | packages/media_record/src/raw_record/chunk_reader.rs:31-39 | repeated reads fill the buffer if and only if enough is left, however it is split |
| RecordChunks.WriteChunk | packages/media_record/src/session.rs:89-93 | the file holds the header's frame and the rows' frames in order |

## Left out

- Overflow of unsigned 64-bit counters and sums, other than the wrapped differences of record times; the load figure's 32-bit product and eight-bit result wrap as in a release build.
- `TsRewrite`: it overwrites the last timestamp before comparing with it, so it does not extend timestamps.
- `SeqRewrite<256, 60>`, which rewrites a temporal-layer index: the model needs MAX above 1001. The code keeps up to 1000 drops whatever its second parameter, and with a MAX of 256 its own assertion fails for an input above 256 recorded ones.
- `SeqRewrite` with packets reordered across a wrap: late packets are not mapped back a cycle by the code.
- Liveness of the connector protocol: a duplicate is discarded without a new reply, so a lost reply is never repaired.
- Database failures, the session and event tables, and peer events other than join and leave.
- RoomStorage.ConnectorSqlStorage.CloseExitedRooms: requires a clock past the delay, because the code subtracts the delay from the clock in unsigned arithmetic.
- The RtpEngine service store, and `local_stats`, whose figures later pings of a node do not refresh.
- Rounding of distances: the model compares exact squared distances, which order as the distances do.
- Local and remote tracks, the bitrate allocator and the task switcher: they are emitters of their own kinds of output, drained in an arbitrary order. Where their controls and record events lie is not claimed.
- Requests for tracks: the endpoint hands them to the track, and one for an unknown track is never answered.
- Metadata, publish and subscribe settings, addresses and durations in endpoint outputs.
- Endpoint.EndpointInternal.StateChanged: requires an earlier state for a connection result, where the code panics without one.
- The queue of an endpoint is modelled as everything ever output; taking outputs off its front is not.
- The record service's table of sessions: one session is followed, with the service's ticks; requests and uploads of its files are not.
- The serialisation of headers and rows is a parameter; writing one that does not fit the buffer, where the code panics, is excluded by a precondition.
- A frame longer than the reader's buffer, where the code panics, is modelled as a failed read.
- RecordChunks.RecordChunkReader.PopRow: the source must not deliver empty pieces; a file with an empty write in it would look ended early.
- The session reader's order of chunk files: it sorts their keys as text, so from the tenth chunk on they are not in index order. The model takes the files in the order read, and the merge takes each session as the list of rows it gives; a failing download is not modelled.
- What the composer does with a row (mixing, composing, writing media) and its errors.
- The heap of the merge is a sequence that its loop reassigns; the standard library's array is not modelled.
- Uploading of chunk files, HTTP, QUIC, S3, tokens, codecs, SDP and command-line setup.
