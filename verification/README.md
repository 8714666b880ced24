# Mantissa control plane: a verified model

Mantissa is a cluster runtime whose nodes share state by gossip. This project models four of its
control-plane components in Dafny and proves what they keep over whole runs.

- **Gossip.** A node tags each message with its view, remembers identifiers for a while, coalesces and
  batches what it sends, picks a rotating window of peers, and relays what it receives.
- **Agent sessions.** A replicated state machine: operators submit, cancel, close and delete; a
  reconcile loop follows the workload; a comparator picks one among concurrent records.
- **Ingress pools.** A pool takes a bounded set of nodes, spread over the values of a label, and
  replicas agree on one row of a pool.
- **Cluster splits and root schemas.** Each node derives its own view from one split record, and nodes
  negotiate a schema version.

`dafny verify dfyconfig.toml` checks the whole project.

## How it is built

Code that changes things in place is a class or a method with loops (`BoundedSeenCache`,
`GossipDedupeState`, `OutboundWorker`, `Gossip`, `ClusterViewState`, `AgentSession`, `AgentRun`,
`AgentManager`, `IngressPoolRow`, and the selection, coalescing, dispatch and codec loops). Each is
proved equal to a function on values, and the theorems are about those functions. Chains of
comparisons are lexicographic orders on lists of compared fields (`Basics.Key`). Whole runs are folds
of steps: `SeenCache.Replay`, `OutboundWorker.Run`, `GossipCluster.Run`, `AgentController.Written`,
`AgentLifecycle.RunFrom`.

Parameters stand for what the code cannot decide alone: clocks, generated identifiers, hash scores,
placement matching, timestamp parsing, the outcome of a send, and what a reconciliation observes.

| module | models |
|---|---|
| `SeenCache`, `GossipDedupe` | the bounded set of seen identifiers, and its reset on a view change |
| `Messages`, `Coalesce`, `Newest` | message planes, coalescing, and which update survives it |
| `Fanout`, `Dispatch`, `OutboundWorker` | peer windows, batching and sending, the worker loop |
| `SharedCursor`, `WarmCursor` | the fanout cursor shared by the two planes |
| `Inbound`, `GossipCluster`, `GossipDelivery`, `RelayTermination` | receiving, and the protocol over a cluster of nodes: what is delivered, at most once, and that relaying ends |
| `ClusterTransition`, `SplitIsolation` | split views, and gossip between the sides of a split |
| `RootSchema` | schema advertisements and negotiation |
| `AgentTypes`, `AgentController`, `AgentManager` | records, decisions, and the controller that stores them |
| `AgentLifecycle`, `AgentOutcomes`, `AgentShutdown`, `AgentPartialWrite` | whole runs of one session: conservation, what each request leaves, stopping, and half writes |
| `AgentRegistry`, `AgentCodec`, `AgentOwner` | choosing a record, the wire form, the owning node |
| `IngressPool`, `IngressSelection`, `IngressOrder` | pool rows and node selection |
| `Basics`, `Lists`, `Sorting`, `Text` | shared vocabulary |

## Where the code does not meet the obvious property

Each of these keeps the code as it is, shows a failing input, and proves exactly when the property
holds; where a bullet names a case that is settled in part only, it says so.

- A stop report (an update of a workload that is stopping or stopped) is put on the global plane by
  its sender but decoded as view-scoped, so a node in another view drops it
  (`Messages.PlanesAgreeExceptStopReports`, `Inbound.GlobalPlaneCrossesViewsExceptStopReports`,
  `Inbound.StopReportExample`).
- Coalescing digests can keep an older one, because digests that differ only in their timestamp never
  replace each other (`Newest.DigestsKeepNewestIff`, `Newest.StaleDigestExample`).
- A send to a peer with no capability counts as a success, so a peer can get a later chunk without an
  earlier one (`Dispatch.BatchReachesPrefixIff`, `Dispatch.SkippedChunkExample`).
- A split record that assigns a node twice can put it both inside and outside a view
  (`ClusterTransition.InsideAndOutsideCover`, `ClusterTransition.DoubleAssignmentExample`). The request
  path refuses such a split (src/topology/cluster_operations/request.rs:178-182,
  src/cluster/operations/selector.rs:99-104); only a record decoded from a peer can carry one, since
  src/cluster/operations/model.rs:458-475 does not look for repeats.
- At the limit of the 64-bit counters a session update can lose to the value it was made from
  (`AgentRegistry.UpdateIsGreaterIff`, `AgentRegistry.SaturatedExample`). A run retry moves no counter,
  so on a clock that is not ahead it ties or loses (`AgentRegistry.RunUpdateIsGreaterIff`,
  `AgentRegistry.StaleRetryExample`).
- Comparing session records with run records can go round in a circle, so that the pick is beaten by
  another stored record (`AgentRegistry.MixedKindsExample`, `AgentRegistry.PicksUnbeatenIff`).
- The two planes of a tick share one fanout cursor, so a rotation that covers everyone on its own may
  not do so beside the other plane, although the comment at src/gossip/outbound.rs:685-688 promises
  eventual coverage. The topology gives the view-scoped plane a warm list of in-view peers and the
  global plane every row, the local one included (src/topology/sync.rs:784-852, 906-930). With the
  warm list no larger than the fanout, the answer is `SharedCursor.ResetCoversIff`. With all other
  nodes warm it is `WarmCursor.LocalRowCoversIff` and `WarmCursor.WarmCoversIff`. With at least a
  fanout of rows more than warm peers, or a warm list capped at four times a fanout of up to eight, the
  global plane never covers all rows (`WarmCursor.FarRowsUnread`, `WarmCursor.CappedWarmSetStarves`). In between, with a few out-of-view
  rows, there is a closed condition for coverage and one against it (`WarmCursor.GlobalCoversWhen`,
  `WarmCursor.GlobalStarvesWhen`), and for the sizes that meet neither only the fact that whole turns
  make no difference (`WarmCursor.CoverageRepeats`). Inputs that fail are
  `WarmCursor.LargeClusterExample` and `WarmCursor.SmallClusterExample`.
- When only the run of a run/session pair that ends the run is stored, the session is stuck for good
  if the run had a workload, and can be freed otherwise (`AgentPartialWrite.ReleasedIffUnbound`). When
  only the run of a pair that creates it is stored, the same input gets a second run
  (`AgentPartialWrite.HalfCreated`).
- The wire drops timeouts of zero and spaces around text (`AgentCodec.RoundTripIff`,
  `AgentCodec.LossyExample`).

## Model

| member | source | states |
|---|---|---|
| `SeenCache.BoundedSeenCache.constructor` | src/dedupe.rs:20-27 | a new cache is empty and has room for at least one entry |
| `SeenCache.BoundedSeenCache.Record` | src/dedupe.rs:32-43 | answer and new queue are those of the specification; the set stays equal to the queue's distinct identifiers and within capacity |
| `SeenCache.BoundedSeenCache.EvictExpired` | src/dedupe.rs:46-54 | exactly the leading entries older than the time bound go |
| `SeenCache.BoundedSeenCache.EvictOverCapacity` | src/dedupe.rs:57-64 | the oldest entries over capacity go |
| `SeenCache.SlidingWindow` | src/dedupe.rs:32-64 | after any history of calls at nondecreasing times, a call is rejected iff an earlier acceptance of its identifier is younger than the time bound and fewer than `max_entries` acceptances followed it; the size stays bounded |
| `GossipDedupe.GossipDedupeState.constructor` | src/gossip/dedupe.rs:24-30 | a new state is at the given view with nothing seen |
| `GossipDedupe.GossipDedupeState.RotateIfViewChanged` | src/gossip/dedupe.rs:32-39 | a changed view empties the cache, an unchanged one leaves it |
| `GossipDedupe.GossipDedupeState.RecordInbound` | src/gossip/dedupe.rs:41-45 | rotation followed by the cache's answer |
| `GossipDedupe.GossipDedupeState.RecordOutbound` | src/gossip/dedupe.rs:47-50 | rotation followed by recording, the answer dropped |
| `GossipDedupe.RotationForgets` | src/gossip/dedupe.rs:32-50 | the state after any history is the replay of the calls since the view last changed |
| `GossipDedupe.DuplicateOnlyWithinView` | src/gossip/dedupe.rs:32-50 | a call is a duplicate iff it is inside the sliding window of the calls since the view last changed, from any start and history |
| `Messages.PlanesAgreeExceptStopReports` | src/gossip/plane.rs:35-86 | sender plane and wire plane agree iff the message is not a stop report |
| `Messages.GlobalPlaneIff` | src/gossip/plane.rs:35-59 | the sender uses the global plane iff the message is the cluster's name, metadata or master key, a workload removal or a stop report |
| `Messages.ForwardingPreserves` | src/gossip/service.rs:462-515 | every message but the empty one is forwarded, unchanged but for the capability of a join, so on the same planes and about the same peer, and forwarding again changes nothing |
| `Coalesce.CoalescePending` | src/gossip/outbound.rs:57-98 | the list and drop count equal the specification, although the code tracks positions in two maps |
| `Coalesce.CoalesceOne` | src/gossip/outbound.rs:63-95 | one message is inserted, replaced or dropped, with both position maps kept exact |
| `Coalesce.CoalescingIsIncremental` | src/gossip/outbound.rs:57-98 | coalescing `a ++ b` equals coalescing (coalesced `a`) ++ `b`, and the drop counts add up |
| `Coalesce.CoalescedSummarises` | src/gossip/outbound.rs:57-98 | the result holds each key once at its first position, every unkeyed message in order, and the winner of each key; length plus drops is the input length |
| `Newest.WorkloadReplacesTransitively` | src/workload/model.rs:1390-1470 | replacement of workload updates is transitive |
| `Newest.TasksKeepNewest` | src/gossip/outbound.rs:117-133 | for every batch and task, no update in the batch is newer than the one kept |
| `Newest.KeptTaskIsNewest` | src/workload/model.rs:1264-1470 | every batch keeps one event of each task, taken from the batch, and against every other it has the later epoch, then phase version, time and phase; a removal goes by epoch, admission groups and progress records by their own fields |
| `Newest.FirstFamilyIsKept` | src/workload/model.rs:1390-1470 | of task events, admission groups and progress records under one identifier, the kind that came first in the batch is the one kept |
| `Newest.EnclosureKeepsStale` | src/scheduler/digest.rs:345-358 | two digests of one state around a third make a batch keep the third, though a newer one is in it |
| `Newest.DigestsKeepNewestIff` | src/scheduler/digest.rs:345-358 | every batch over a set of digest values keeps the newest iff no two of one state enclose one of another |
| `Newest.KeptDigestIsNewest` | src/scheduler/digest.rs:443-467 | every batch keeps one digest event of each node; it is a removal if there is one, and without an enclosure it has the highest snapshot version, then time, then capacities of all in another state |
| `Newest.StaleDigestExample` | src/gossip/outbound.rs:136-152 | a concrete batch of three digests of which the stale one is kept |
| `Fanout.SelectFanoutWindow` | src/gossip/outbound.rs:701-730 | the window and new cursor equal a walk round the peers in identifier order |
| `Fanout.RingAscends` | src/gossip/outbound.rs:706-711 | the peers are walked in ascending order of their identifiers |
| `Fanout.WindowSize` | src/gossip/outbound.rs:701-730 | a selection has exactly the fanout's number of peers, or all of them, and only listed ones |
| `Fanout.RotationIsFair` | src/gossip/outbound.rs:701-730 | after any number of calls, from any cursor and for any listing orders, each peer was selected the floor or the ceiling of its exact share |
| `Fanout.RotationCoversEveryone` | src/gossip/outbound.rs:701-730 | once the calls made at least one selection per peer, every peer was selected |
| `Dispatch.Chunks` | src/gossip/outbound.rs:428-436 | the chunks join to the messages, and none is empty or over the limit |
| `Dispatch.SplitByPlane` | src/gossip/outbound.rs:348-360 | each plane gets its own messages in order |
| `Dispatch.PlanesPartition` | src/gossip/outbound.rs:348-360 | the two planes together hold every message exactly once |
| `Dispatch.SendToPeer` | src/gossip/outbound.rs:482-537 | the chunks that reach the peer follow the outcome of each send, up to the first failure |
| `Dispatch.DispatchPlane` | src/gossip/outbound.rs:375-476 | the log of sends is batch by batch and peer by peer, without the local node |
| `Dispatch.DispatchBatch` | src/gossip/outbound.rs:440-470 | one batch goes to each selected peer, filtered and chunked |
| `Dispatch.PlaneLogToPeer` | src/gossip/outbound.rs:375-476 | a selected peer gets its share of every batch whatever happens to the others; nobody else gets anything |
| `Dispatch.DispatchPreservesContent` | src/gossip/outbound.rs:482-537 | with no failure, the chunks to a peer spell out the messages not about it, once each and in order |
| `Dispatch.ShareLeavesOutOwnEvents` | src/gossip/outbound.rs:657-685 | a peer's share holds a message iff it is pending and is no topology event or digest whose own node field is that peer |
| `Dispatch.BatchReachesPrefixIff` | src/gossip/outbound.rs:482-560 | the chunks that reach a peer are the batch's first chunks iff none is skipped before one that arrives; then the messages are a prefix, and without repeated messages only then |
| `Dispatch.SkippedChunkExample` | src/gossip/outbound.rs:552-560 | two messages of which only the second arrives |
| `OutboundWorker.OutboundWorker.constructor` | src/gossip/outbound.rs:215-223 | a new worker holds nothing |
| `OutboundWorker.OutboundWorker.OnEnqueue` | src/gossip/outbound.rs:307-315 | the message joins the channel, nothing else changes |
| `OutboundWorker.OutboundWorker.OnReceive` | src/gossip/outbound.rs:307-315 | one message moves from channel to buffer and is recorded as seen |
| `OutboundWorker.OutboundWorker.OnFlush` | src/gossip/outbound.rs:317-331 | the whole channel is drained and registered as seen, in order, before the waiter is queued |
| `OutboundWorker.OutboundWorker.Drain` | src/gossip/outbound.rs:320-328 | the loop moves every message to the buffer in order and registers each with its own reading of view and clock |
| `OutboundWorker.OutboundWorker.OnTick` | src/gossip/outbound.rs:227-305 | the buffer is coalesced, split and dispatched plane by plane, and every waiter is acknowledged |
| `OutboundWorker.OutboundWorker.DispatchOne` | src/gossip/outbound.rs:375-476 | one plane's sends and the moved cursor |
| `OutboundWorker.ChosenPeerGetsThePlane` | src/gossip/outbound.rs:375-537 | with no failure, a chosen peer is sent exactly the plane's messages not about it, and the local node nothing |
| `OutboundWorker.EveryoneElseIsSent` | src/gossip/outbound.rs:375-537 | with no failure, some RPC takes a pending message to a peer iff the peer is chosen, is not the local node, and is not the node the message names |
| `OutboundWorker.ZeroChoosesEveryone` | src/gossip/outbound.rs:387-405 | a fanout of zero chooses all peers of the plane and leaves the cursor, and no fanout is a fanout of five |
| `OutboundWorker.WorkerConserves` | src/gossip/outbound.rs:225-336 | in every run, what was handed over, buffered and queued is what was enqueued, in order, and waiters are acknowledged in order, once each |
| `OutboundWorker.FlushIsBarrier` | src/gossip/outbound.rs:225-336 | when a flush is acknowledged, every message enqueued before it has been sent or superseded by the message sent for its key |
| `OutboundWorker.TickAcknowledges` | src/gossip/outbound.rs:242-304 | the first tick after a flush acknowledges it |
| `SharedCursor.TicksSendToPicks` | src/gossip/outbound.rs:284-299 | over any busy ticks with no failure, the peers that get something on a plane are exactly the picked ones other than the local node, each dispatch starting from the cursor the one before left |
| `SharedCursor.TicksAreTurns` | src/gossip/context.rs:22-38 | with the default context methods both planes get one list, and over busy ticks the view-scoped plane gets the first and the global plane the second window of every turn |
| `SharedCursor.ResetRepeats` | src/gossip/outbound.rs:718-721 | with warm sets no larger than the fanout, every tick sends global messages to the same first peers by identifier |
| `SharedCursor.ResetCoversIff` | src/gossip/outbound.rs:718-721 | then the global plane reaches everyone iff the fanout is at least the population |
| `SharedCursor.SharedRotationCoversIff` | src/gossip/context.rs:22-38 | in that default case each plane reaches every peer from every cursor iff their number is not a multiple of twice the fanout |
| `WarmCursor.GlobalTicks` | src/gossip/outbound.rs:387-404 | whatever peers are warm, as many at every busy tick, the global plane's choices are the windows from the starts the shared cursor takes |
| `WarmCursor.WarmTicks` | src/gossip/outbound.rs:387-404 | and so are the view-scoped plane's, while the same peers stay warm |
| `WarmCursor.FarRowsUnread` | src/gossip/outbound.rs:284-299 | with at most w warm peers and w + fanout rows or more, no busy ticks from any cursor choose a row at w + fanout - 1 or beyond for the global plane |
| `WarmCursor.GlobalCoversWhen` | src/gossip/outbound.rs:284-299 | with fewer than a fanout of rows outside the warm list, the global plane covers all rows from every cursor if both lists end early, or both late, in a turn of two windows |
| `WarmCursor.GlobalStarvesWhen` | src/gossip/outbound.rs:284-299 | and does not if the warm list is a whole number of windows or the rows a whole number of turns |
| `WarmCursor.LocalRowCoversIff` | src/topology/sync.rs:799-812 | with only the local row outside the warm list, the global plane covers all rows from every cursor iff w is not a multiple of the fanout and w + 1 not of twice the fanout |
| `WarmCursor.WarmCoversIff` | src/topology/sync.rs:799-812 | and the view-scoped plane covers the warm list iff w is not a multiple of twice the fanout and, for fanouts above one, neither is w + 1 |
| `WarmCursor.CoverageRepeats` | src/gossip/outbound.rs:284-299 | a whole turn more or less in both lists does not change whether all rows are read |
| `WarmCursor.CoversIffAllRead` | src/gossip/outbound.rs:284-299 | whether a list is covered depends on its size only |
| `WarmCursor.CappedWarmSetStarves` | src/topology/sync.rs:1076-1089 | for fanouts up to eight, once the warm list is capped below the peers in view the global plane does not cover all rows |
| `WarmCursor.LargeClusterExample` | src/topology/sync.rs:1076-1089 | 26 nodes and the default fanout: the last two rows get no global message over any busy ticks |
| `WarmCursor.SmallClusterExample` | src/topology/sync.rs:1076-1089 | 11 nodes and the default fanout: from cursor 0 the same five rows get every global message |
| `Inbound.Gossip.constructor` | src/gossip/service.rs:52-60 | a new service has delivered nothing |
| `Inbound.Gossip.HandleRpc` | src/gossip/service.rs:68-153 | messages are handled in order by the inbound gate |
| `Inbound.Gossip.HandleMessage` | src/gossip/service.rs:100-456 | view check, then dedupe, then delivery and relay, with the state after each exit |
| `Inbound.GlobalPlaneCrossesViewsExceptStopReports` | src/gossip/service.rs:127-140 | a message on the sender's global plane passes another view's check iff it is not a stop report |
| `Inbound.PassesViewCheckIff` | src/gossip/service.rs:127-140 | an encoded message passes iff it comes from the receiver's view, or is on the global plane and no stop report |
| `Inbound.ReceiveExactly` | src/gossip/service.rs:127-416 | a message that passes and is not remembered is delivered, remembered, and queued once more iff relaying, plane or kind asks for it and there is room; any other is neither delivered nor queued |
| `Inbound.StopReportExample` | src/gossip/service.rs:127-140 | a stopped report from another view, put on the global plane by its sender, changes nothing at the receiver |
| `GossipCluster.LosslessIff` | src/dedupe.rs:32-64 | a call finds nothing expired and room for a new identifier iff every entry is still there after it |
| `GossipCluster.DeliveredAtMostOnce` | src/gossip/service.rs:127-153 | in every run in which no cache entry is expired or evicted and no view is installed, each node's actors get an identifier at most once, the originator's never, and each node puts it up for sending at most once |
| `GossipDelivery.DeliveryAdds` | src/gossip/service.rs:127-153 | in every run, with views changing and entries forgotten, a delivered flight adds its message to the receiver's actors iff it is news there, and one copy to its queue iff it may also go out |
| `GossipDelivery.TickSendsExactly` | src/gossip/outbound.rs:227-305 | a tick sends a coalesced message to a node iff the node is a target of the message's plane and not the one it names |
| `GossipDelivery.PathSpreads` | src/gossip/service.rs:127-200 | from any state, along any path of quiet nodes on one view, some schedule gives the message to every node of the path and changes no other |
| `GossipDelivery.MessageCanReachEveryone` | src/gossip/service.rs:127-200 | in a new cluster a message that one node originates can be delivered, once each, to all nodes along any path of one view |
| `RelayTermination.FlightsOfOneIdentifier` | src/gossip/service.rs:432-456 | in such a run, one identifier causes at most one fanout window of sends per node |
| `RelayTermination.SendsWithinChosenWindows` | src/gossip/outbound.rs:375-476 | in such a run, one identifier is sent at most as often as there are peers in the windows chosen by the ticks that flushed it |
| `RelayTermination.StepLessens` | src/gossip/plane.rs:90-94 | every step but an origination lowers a measure of unseen nodes, queued copies and copies in flight |
| `RelayTermination.RelayTerminates` | src/gossip/service.rs:432-456 | such a run takes at most (window + 2) * (nodes + 1) effective steps per originated message |
| `ClusterTransition.FromOperation` | src/cluster/transition.rs:25-106 | the loop and removal compute exactly the derived transition, errors included |
| `ClusterTransition.ClusterViewState.constructor` | src/cluster/view.rs:134-150 | a new state holds the given view and boundary |
| `ClusterTransition.ClusterViewState.Install` | src/cluster/view.rs:177-188 | view and boundary change together |
| `ClusterTransition.SplitSucceedsIff` | src/cluster/transition.rs:42-60 | a split transition exists iff the node is assigned to an existing target; otherwise the error says which |
| `ClusterTransition.SplitTakesAssignedView` | src/cluster/transition.rs:42-105 | a node takes the view at the index of its first assignment, with exactly the nodes assigned there as members; the operation's identity, kind and policies are kept |
| `ClusterTransition.MergeTakesFirstView` | src/cluster/transition.rs:36-41 | a merge takes every node to the first target view with nobody out of view, or is refused when there is none |
| `ClusterTransition.SplitViewsAgree` | src/cluster/transition.rs:42-93 | two assigned nodes that know different peers derive equal views iff they share a target, and otherwise each has the other out of view |
| `ClusterTransition.InsideAndOutsideCover` | src/cluster/transition.rs:62-93 | the two sets cover all known and assigned peers but the node itself, and are disjoint iff no other node is assigned to both the local and another target |
| `ClusterTransition.DoubleAssignmentExample` | src/cluster/transition.rs:63-82 | a node assigned to both targets is inside and outside the view at once |
| `ClusterTransition.InclusionIsSymmetric` | src/cluster/view.rs:162-165 | after install, each node includes the other iff their active views are equal |
| `SplitIsolation.ViewScopedStaysInView` | src/gossip/service.rs:127-140 | from any state, a view-scoped message is never delivered under another view, through any relays |
| `SplitIsolation.SplitIsolates` | src/cluster/transition.rs:42-93 | after a split with distinct targets, a view-scoped payload of one target never reaches an actor of another |
| `RootSchema.MergeIsMaximum` | src/cluster/root_schema.rs:89-106 | a merge is one of its arguments and at least both; it commutes and is idempotent |
| `RootSchema.MergeAssociates` | src/cluster/root_schema.rs:89-106 | merging is associative |
| `RootSchema.MergeConverges` | src/cluster/root_schema.rs:89-106 | any two merge trees over the same advertisements, repeats and all, end in the same snapshot, with a valid range if all ranges are |
| `RootSchema.HighestGenerationWins` | src/cluster/root_schema.rs:89-106 | the result of any merge tree has the highest generation, then the latest time, then the highest versions |
| `RootSchema.NegotiationIsExact` | src/cluster/root_schema.rs:44-119 | for any two ranges the negotiated version is the greatest both support, and absent iff there is none; a snapshot is built iff its range is valid |
| `Text.NormalizeResult` | src/agents/types.rs:697-702 | normalised text is trimmed and not empty, and only such text is left alone |
| `Text.TrimTakesSpacesOnly` | src/agents/types.rs:696-702 | trimming takes off the spaces at both ends and nothing else, and text is blank iff it is all spaces |
| `AgentTypes.AgentSession.constructor` | src/agents/manager.rs:227-227 | a clone of the stored value |
| `AgentTypes.AgentSession.Open` | src/agents/types.rs:235-288 | a new session with its opening events and its first input queued |
| `AgentTypes.AgentSession.PushEvent` | src/agents/types.rs:483-503 | the event is numbered, appended, and the log cut to the last 64 |
| `AgentTypes.AgentSession.QueueInput` | src/agents/types.rs:301-309 | the whole new value of the session |
| `AgentTypes.AgentSession.MarkRunQueued` | src/agents/types.rs:312-326 | the whole new value of the session |
| `AgentTypes.AgentSession.MarkRunRunning` | src/agents/types.rs:329-342 | the whole new value of the session |
| `AgentTypes.AgentSession.MarkWaitingInput` | src/agents/types.rs:345-364 | the whole new value of the session |
| `AgentTypes.AgentSession.MarkFailed` | src/agents/types.rs:367-380 | the whole new value of the session |
| `AgentTypes.AgentSession.MarkCancelRequested` | src/agents/types.rs:383-393 | the whole new value of the session |
| `AgentTypes.AgentSession.MarkCancelledWaitingInput` | src/agents/types.rs:396-416 | the whole new value of the session |
| `AgentTypes.AgentSession.MarkCancelledClosed` | src/agents/types.rs:419-439 | the whole new value of the session |
| `AgentTypes.AgentSession.CancelPendingInput` | src/agents/types.rs:442-455 | the whole new value of the session |
| `AgentTypes.AgentSession.RequestClose` | src/agents/types.rs:458-464 | the whole new value of the session |
| `AgentTypes.AgentSession.Close` | src/agents/types.rs:467-480 | the whole new value of the session |
| `AgentTypes.AgentRun.MarkPendingDetail` | src/agents/types.rs:594-599 | the whole new value of the run |
| `AgentTypes.AgentRun.BindWorkload` | src/agents/types.rs:603-609 | the whole new value of the run |
| `AgentTypes.AgentRun.MarkRunning` | src/agents/types.rs:612-621 | the whole new value of the run |
| `AgentTypes.AgentRun.MarkSucceeded` | src/agents/types.rs:624-631 | the whole new value of the run |
| `AgentTypes.AgentRun.MarkFailed` | src/agents/types.rs:634-641 | the whole new value of the run |
| `AgentTypes.AgentRun.RequestCancel` | src/agents/types.rs:644-648 | the whole new value of the run |
| `AgentTypes.AgentRun.MarkCancelled` | src/agents/types.rs:651-658 | the whole new value of the run |
| `AgentTypes.UpdateKeepsWellFormed` | src/agents/types.rs:301-480 | every update made in its situation keeps which statuses have an active run and which a pending input, and never both |
| `AgentTypes.LogIsRecentHistory` | src/agents/types.rs:483-503 | in every reachable session the log is the last min(64, total) events ever recorded, numbered consecutively, and the counter is the total |
| `AgentController.HandleWritesReachable` | src/agents/manager.rs:173-285 | whatever stale session value and run record a request reads, every session value it writes is the outcome of updates made in their situations |
| `AgentController.EveryValueWrittenIsWellFormed` | src/agents/manager.rs:424-790 | under any interleaving of requests with stale reads, every session value ever written is well-formed |
| `AgentController.LastEventTellsStatus` | src/agents/types.rs:301-480 | in every session that proper updates lead to, the last recorded event tells its status, its run and its pending input |
| `AgentManager.AgentManager.SubmitSession` | src/agents/manager.rs:148-165 | the new session is stored |
| `AgentManager.AgentManager.SubmitInput` | src/agents/manager.rs:173-200 | reply and store are those of the decision, every rejection included |
| `AgentManager.AgentManager.CancelSession` | src/agents/manager.rs:203-235 | reply and store are those of the decision, every rejection included |
| `AgentManager.AgentManager.CancelSessionRun` | src/agents/manager.rs:793-824 | a launched run is asked to stop, another is cancelled at once, with the session updated to match |
| `AgentManager.AgentManager.CloseSession` | src/agents/manager.rs:238-261 | reply and store are those of the decision, every rejection included |
| `AgentManager.AgentManager.CloseSessionRun` | src/agents/manager.rs:827-854 | a launched run is asked to stop and the session is closing, another is cancelled and the session closed |
| `AgentManager.AgentManager.DeleteSession` | src/agents/manager.rs:264-285 | runs first, then the session; only when closed |
| `AgentManager.AgentManager.ReconcileSession` | src/agents/manager.rs:424-445 | the store is that of the decision, missing runs repaired as their session asks |
| `AgentManager.AgentManager.ReconcileRun` | src/agents/manager.rs:448-654 | the store is that of the decision for every workload phase |
| `AgentManager.AgentManager.FinishRun` | src/agents/manager.rs:535-639 | an exited or stopped workload ends run and session by the shutdown that was asked for |
| `AgentManager.AgentManager.CreateRunForSession` | src/agents/manager.rs:657-682 | run first, then session, then the attempt to start |
| `AgentManager.AgentManager.EnsureRunStarted` | src/agents/manager.rs:685-790 | deadline, admission and each outcome of a start |
| `AgentManager.AgentManager.PersistRunAndSession` | src/agents/manager.rs:874-886 | run first, then session |
| `AgentManager.AgentManager.constructor` | src/agents/manager.rs:78-100 | a controller with nothing stored, at the start of a run |
| `AgentManager.AgentManager.Serve` | src/agents/manager.rs:173-445 | serving a request with its handler is one step of the run, keeps it sound, and alters no ended run, closed session or bound workload unless it deletes the session |
| `AgentManager.AgentManager.ServeAll` | src/agents/manager.rs:173-445 | after any list of requests the stored records are those of the run, which is sound: runs are kept, inputs are conserved in order, and at most one run is live |
| `AgentLifecycle.MatchedEndsTogether` | src/agents/manager.rs:448-654 | a run/session pair of updates ends the run iff it releases the session from it |
| `AgentLifecycle.StepKeeps` | src/agents/manager.rs:173-285 | one request keeps the invariant, every run, every ended run and closed session as they were, and every bound workload |
| `AgentLifecycle.EndedStaysEnded` | src/agents/manager.rs:448-682 | through any requests, unless the session is deleted, ended runs and a closed session never change, and a run's prompt and bound workload never change |
| `AgentLifecycle.InputsAreConserved` | src/agents/manager.rs:173-285 | in every run, the accepted inputs are, in order, those that became a run's prompt or were dropped by cancel or close, then the one still pending; two live runs are the same run |
| `AgentLifecycle.RunsAreExplained` | src/agents/manager.rs:657-682 | each stored run carries as its prompt the accepted input it was created for, and no two inputs share a run |
| `AgentShutdown.RequestsAcceptedExactlyWhen` | src/agents/manager.rs:173-285 | in every sound state, input is taken iff it is not blank and the session waits or has failed, cancel works iff queued or running, close iff there is a session, delete iff closed |
| `AgentOutcomes.RefusalsSayWhy` | src/agents/manager.rs:173-285 | the reason of a refusal follows from the input and the status, and a refused request changes nothing |
| `AgentOutcomes.SubmitOutcome` | src/agents/manager.rs:127-170 | a submitted session has its definition, no run, and its trimmed first input queued |
| `AgentOutcomes.InputOutcome` | src/agents/manager.rs:173-200 | an accepted input is queued, trimmed, and no run changes |
| `AgentOutcomes.CancelOutcome` | src/agents/manager.rs:793-824 | cancelling asks a launched run to stop, cancels one without a workload, or drops the pending input, and what becomes of the session in each case |
| `AgentOutcomes.CloseOutcome` | src/agents/manager.rs:827-854 | closing asks a launched run to stop and leaves the session closing; otherwise the session is closed and its run cancelled |
| `AgentOutcomes.DeleteOutcome` | src/agents/manager.rs:264-285 | deleting a closed session leaves neither it nor any of its runs |
| `AgentOutcomes.UnboundOutcome` | src/agents/manager.rs:685-790 | a run without a workload gets the one that was started; it and its session go on without one while admission waits or nothing could be started; an expired deadline or failed start fails both |
| `AgentOutcomes.BoundOutcome` | src/agents/manager.rs:448-654 | run and session after each phase of the bound workload: running, ended by exit code and requested shutdown, failed, or unchanged |
| `AgentOutcomes.IdleOutcome` | src/agents/manager.rs:657-682 | a pending input becomes the prompt of one new run, which the same reconciliation tries to start; with no input nothing changes |
| `AgentOutcomes.RepairOutcome` | src/agents/manager.rs:1136-1153 | a session whose active run record is gone is closed, waits for input or fails, by what was asked of it |
| `AgentShutdown.RunEndsExactlyWhen` | src/agents/manager.rs:448-654 | once the workload is gone, exit code and requested shutdown decide how run and session are left; otherwise the run goes on or fails |
| `AgentShutdown.ShutdownIsHonoured` | src/agents/manager.rs:1120-1133 | through any requests, a launched run asked to stop is still stopping, or has ended cancelled or failed, or is deleted |
| `AgentShutdown.CancelledRunNeverSucceeds` | src/agents/manager.rs:793-854 | after a cancel or close of a launched run, no later state has it succeeded |
| `AgentPartialWrite.HalfPair` | src/agents/manager.rs:874-886 | storing only the run leaves the session naming an ended run iff the update ends the run |
| `AgentPartialWrite.HalfEndedForever` | src/agents/manager.rs:453-455 | if that run has a workload, no sequence of requests takes the session off it |
| `AgentPartialWrite.ReleasedIffUnbound` | src/agents/manager.rs:827-854 | some requests take the session off the ended run iff it has no workload |
| `AgentPartialWrite.HalfCreated` | src/agents/manager.rs:673-682 | storing only the run of a queued input makes the next reconciliation create a second run of it, and leaves the first live with no session naming it |
| `AgentRegistry.SelectBestRecord` | src/agents/registry.rs:148-161 | the loop computes the running best |
| `AgentRegistry.PickIsGreatest` | src/agents/registry.rs:148-217 | in a snapshot of one kind, the pick is stored and no stored value is greater |
| `AgentRegistry.PickedIsNewest` | src/agents/registry.rs:181-217 | the pick has the highest event counter, then phase counter, status, time and identifier of the sessions, and likewise without event counter of the runs |
| `AgentRegistry.PickIgnoresOrder` | src/agents/registry.rs:148-217 | all orders of a snapshot of one kind pick values with equal keys |
| `AgentRegistry.MixedKindsExample` | src/agents/registry.rs:164-179 | three records that compare in a circle, so that the pick depends on the order |
| `AgentRegistry.PicksUnbeatenIff` | src/agents/registry.rs:148-179 | over a set of records, every snapshot picks one that none of it beats iff no record lies by timestamp between two of the other kind whose keys are the other way round |
| `AgentRegistry.PicksTie` | src/agents/registry.rs:148-179 | then all orders of a snapshot pick records that tie |
| `AgentRegistry.UpdateIsGreaterIff` | src/agents/registry.rs:182-200 | an update is strictly greater than its source iff a counter can still move, or it leads to a higher status, or to one as high at a later time |
| `AgentRegistry.SaturatedExample` | src/agents/registry.rs:182-200 | with both counters at their limit, a completed session loses to the running one |
| `AgentRegistry.RunUpdateIsGreaterIff` | src/agents/registry.rs:203-217 | a run update is strictly greater iff it moves the counter below its limit, or leads to a higher status, or to one as high at a later time; a retry only by the time |
| `AgentRegistry.StaleRetryExample` | src/agents/manager.rs:771-779 | a retry on a clock behind the stored time loses, and at the same time ties |
| `AgentRegistry.DescendantIsGreater` | src/agents/registry.rs:182-200 | any chain of updates below the counter limit ends strictly greater |
| `AgentRegistry.NoResurrection` | src/agents/registry.rs:148-200 | a snapshot with a value and any descendant of it picks something strictly greater than the value |
| `AgentCodec.WriteEventList` | src/agents/service.rs:343-348 | each event is written in order |
| `AgentCodec.ReadEventList` | src/agents/service.rs:802-817 | each event is read in order |
| `AgentCodec.ReadSession` | src/agents/service.rs:353-393 | opening a session and overwriting its fields gives exactly what the wire record means, or the mount error |
| `AgentCodec.RoundTripIff` | src/agents/service.rs:307-393 | a written session always reads back, and as itself iff its texts are normal, no timeout is zero, its times parse back, and its counter is its last event's |
| `AgentCodec.WireShowsSession` | src/agents/service.rs:307-350 | which value of the session stands under which name on the wire |
| `AgentCodec.LossyExample` | src/agents/service.rs:745-788 | an idle timeout and a checkpoint interval of zero read back as none |
| `AgentCodec.ReachableRoundTrips` | src/agents/service.rs:307-393 | the lifecycle of every session the controller reaches reads back whole, event counter included, whatever its definition; the whole session does if its definition has normal texts and no zero timeout |
| `AgentOwner.BuildEligibleNodes` | src/agents/manager.rs:948-967 | the eligible nodes, each once, in ascending order |
| `AgentOwner.SelectOwner` | src/agents/manager.rs:970-981 | the loop computes the first node with the greatest score |
| `AgentOwner.OwnerWins` | src/agents/manager.rs:970-981 | the owner has the greatest score, and the smallest identifier among equals |
| `AgentOwner.OwnerIsSchedulable` | src/agents/manager.rs:948-981 | there is an owner iff some node is schedulable and not down, and it is such a node |
| `AgentOwner.OwnersAgree` | src/agents/manager.rs:948-981 | nodes with one eligible set pick one owner, however they list their peers |
| `AgentOwner.OwnerSurvivesOthersLeaving` | src/agents/manager.rs:970-981 | losing nodes other than the owner keeps the owner |
| `AgentOwner.OwnerMovesOnlyToNewNodes` | src/agents/manager.rs:970-981 | gaining nodes keeps the owner or moves to a new node |
| `IngressPool.ValidationIsExact` | src/ingress/types.rs:92-129 | a draft is accepted iff its trimmed form is a valid row |
| `IngressPool.DraftErrorIsFirst` | src/ingress/types.rs:92-113 | a rejected draft gets the first error that applies |
| `IngressPool.IngressPoolRow.MarkDeleted` | src/ingress/types.rs:70-77 | a delete marker with the next generation; a second deletion changes nothing |
| `IngressPool.DeletionMovesOn` | src/ingress/types.rs:70-77 | deleting marks the row, moves its generation on once, outranks it, and keeps what the pool is |
| `IngressPool.TiesAreEqual` | src/ingress/registry.rs:156-168 | rows tie iff they are equal |
| `IngressPool.SelectCanonical` | src/ingress/registry.rs:136-149 | the loop computes the running best |
| `IngressPool.CanonicalIsGreatest` | src/ingress/registry.rs:136-168 | the canonical row is stored and no stored row is greater |
| `IngressPool.HighestGenerationIsCanonical` | src/ingress/registry.rs:136-180 | the canonical row is a delete marker if there is one, and has the highest generation, then the last update time, of its kind |
| `IngressPool.CanonicalIgnoresOrder` | src/ingress/registry.rs:136-168 | the canonical row depends only on which rows there are |
| `IngressPool.CanonicalOfParts` | src/ingress/registry.rs:136-168 | the canonical row of everything is that of the parts' canonical rows, however the rows are divided |
| `IngressPool.AnyDeleteHides` | src/ingress/registry.rs:131-133 | a pool is hidden iff it has no row or some row is a delete marker |
| `IngressPool.DeletedStaysHidden` | src/ingress/types.rs:70-77 | a marked row hides the pool in every snapshot that holds it |
| `IngressSelection.RoundRobin` | src/ingress/types.rs:230-247 | nodes are taken round by round up to the limit; the exit for an empty round is taken iff the limit exceeds the nodes |
| `IngressSelection.OneRound` | src/ingress/types.rs:232-243 | one pass takes the head of each bucket until the limit |
| `IngressSelection.GroupNodes` | src/ingress/types.rs:214-220 | the loop files each node under its label value |
| `IngressSelection.GroupSorted` | src/ingress/types.rs:214-229 | buckets have distinct values and hold exactly the nodes of their value, in order |
| `IngressSelection.BucketsAreSorted` | src/ingress/types.rs:221-229 | sorting the buckets again changes nothing |
| `IngressSelection.SelectSpreadNodes` | src/ingress/types.rs:209-248 | the selection is the start of the round-robin ranking |
| `IngressSelection.SelectIngressPoolNodes` | src/ingress/types.rs:169-206 | the whole selection; the empty-round exit is not taken |
| `IngressSelection.SelectionIsExact` | src/ingress/types.rs:169-206 | exactly min(bound, eligible) nodes, all eligible, none more often than it is a candidate |
| `IngressSelection.SmallerBoundIsPrefix` | src/ingress/types.rs:182-195 | a smaller bound selects a prefix |
| `IngressSelection.SelectionIgnoresOrder` | src/ingress/types.rs:173-181 | the order of the candidates does not matter when identifiers name nodes |
| `IngressSelection.SpreadIsFair` | src/ingress/types.rs:209-248 | there is a round r such that every value in the nodes' label maps, a missing label counting as empty, contributes min(supply, r) or min(supply, r + 1) nodes |
| `IngressOrder.FirstNodesAreTaken` | src/ingress/types.rs:169-248 | a node that is taken comes before every matching one that is not, by host name and then identifier; when the pool spreads, among those with its value of the label |
| `IngressOrder.EarlierValuesFirst` | src/ingress/types.rs:209-248 | a label value earlier in dictionary order gets no fewer nodes than a later one unless it gets all it has |
| `IngressSelection.ReadyIff` | src/ingress/types.rs:163-165 | a pool is ready iff enough nodes match and its bound allows them; for a validated pool, iff enough match |

## Left out

- GossipCluster.DeliveredAtMostOnce: is for runs in which no step loses a cache entry or installs a view; a node that has forgotten an identifier accepts it again.
- GossipDelivery.PathSpreads: says that some schedule delivers; flights may be lost and windows may miss a node, so no delivery is promised of every schedule.
- SharedCursor.TicksSendToPicks: is for ticks in which each plane has a message that names no node, and sends that succeed.
- RelayTermination.RelayTerminates: is for the same runs, and bounds steps by the largest window any tick selects.
- AgentLifecycle.EndedStaysEnded: takes each request with its run/session pair as one atomic step; lost updates between an operator and a stale reconcile worker are covered per written value only.
- AgentCodec.ReachableRoundTrips: is for fewer than 2^64 recorded events, and for clock texts that are trimmed, not empty and parsed by the reader to the instant they were made at.
- AgentManager.AgentManager.ServeAll: is for requests with newly generated identifiers and deletions that list the stored runs, as the source makes them.
- SharedCursor.SharedRotationCoversIff: is for a context with the default methods; the topology's lists are the subject of WarmCursor.
- WarmCursor.GlobalCoversWhen: with two or more, but fewer than a fanout of, rows outside the warm list, sizes that neither it nor GlobalStarvesWhen decides are only reduced to smaller ones by CoverageRepeats; which of them are covered follows no simple rule.
- WarmCursor: all its results are for ticks in which both planes have something to send, and speak of rows chosen; the local row is chosen like any other and then skipped.
- AgentRegistry.NoResurrection: is for chains that stay within the 64-bit phase counter.
- The cluster model numbers the nodes and takes sends to different peers one after the other; the source sends concurrently and bounds each send by a timeout.
- Each lifecycle update reads the clock once in the model; the source reads it once per event it records.
- The wording of fixed status texts is left open: the model only uses that they are trimmed and not empty.
- The execution template, platform, isolation mode and policies of a session are one opaque value, and their part of the codec is not modelled.
- The run record's execution fields and its own wire form are not modelled; they would add a second codec of the same kind.
- Bytes of the wire, invalid UTF-8 and the Cap'n Proto encoding are not modelled; the wire is a record of the fields the writer sets.
- Ingress selection keeps whole nodes; copying out identifier, host name and address is not modelled.
- The reconcile scheduling set, network prerequisites, workload start and stop requests, broadcasting and storage errors are not modelled.
- The scheduler, the replicated registers and tree store, jobs, volumes, configuration, ingress endpoints, tokens, metrics and logging are not modelled.
