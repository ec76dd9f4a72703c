# Verified models of quickwit's cluster and actor cores

This project models the parts of quickwit whose correctness is a matter of whole runs, and proves
what those parts are for.

- **Cluster membership** (`ClusterChange`, `ClusterCarry`, `ClusterRebuild`, `ClusterOrder`,
  `ClusterStream`, `ClusterSubscribers`, `SortedDiff`): live
  nodes maintained from one gossip snapshot to the next, the events published about them, and the
  subscribers that follow those events.
- **Indexing tasks in the gossip state** (`IndexingTasks`): the text format of a task and the loop
  that writes a node's tasks over an existing key-value state.
- **The actor runtime** (`PriorityChannel`, `PriorityAnswers`, `ActorLoop`, `ActorProgress`,
  `ActorModes`, `Supervision`, `SupervisionChecks`, `RespawnedActor`, `SchedulerRuns`,
  `SchedulerRequests`, `KillSwitches`, `ProgressWord`): step machines whose steps are the atomic
  operations of the code, interleaved in every way with the other threads. A run is any finite
  sequence of steps, and the main results hold at every point of every run.
- **The same code in its own form** (`PriorityReceiver`, `ActorTask`, `SupervisorTask`,
  `SchedulerTask`): objects with the source's fields and loops. What other threads do in the gaps
  between two accesses to shared state is an arbitrary parameter. Each method is shown to produce a
  run of the matching step machine, so that everything proved about runs holds of the code. The code
  of the receive operations is in `PriorityReceiver`; `ActorTask` takes them one atomic operation at
  a time.
- **Two sequential cores** (`AllocTracker`, `AllocLocations`, `TopKSelection`): the allocation tracker's
  two tables, and incremental top-k selection.

Atomic operations are sequentially consistent steps, flume queues are unbounded sequences, hash maps
are maps, and time is counted in units of a fixed resolution. Machine arithmetic is written out
where it can wrap: the allocation tracker's 64-bit totals and the progress counter's 32-bit word.

Where a property is not true of the code without a condition, the condition is stated and shown to
be exact, in both directions and for all inputs:

- every order of a diff leaves the same live nodes if and only if every replacement of a chitchat id
  is safe (`OrderIrrelevantIffSafe`), and live nodes stay a rebuild of the latest snapshot if and only
  if no update of a staying id is missed (`RebuildKeptIff`);
- a task survives being written and parsed if and only if its fields are free of separators
  (`RoundTripIffPrintable`), a set of tasks if and only if, besides, the pipeline uids differ
  (`WriteThenParse`);
- an actor that completes has handled a message if and only if it was sent before the actor's last
  reference-count check (`CompletedHandledIffBeforeCheck`);
- the progress word counts the live guards if and only if they are fewer than 2^32 - 1
  (`WordCountsGuardsIffFits`);
- the allocation tables agree if and only if no operation of the session recorded over a location that
  was still tracked (`ConsistentIffNeverOverwritten`).

`LateSendCanBeLost` and `OneGuardTooMany` build whole runs beyond such a limit. `RejoinLostInOneOrder`
and `UnparsedJoinIsForgotten` show single diffs beyond one.

Code and documentation disagree in one place that the model touches. The comment above
`update_self_node_indexing_tasks` (`quickwit/quickwit-cluster/src/cluster.rs:467-473`) describes keys
made of an index and a source id and values that are counts of pipelines. The code writes one key
per pipeline uid, with the index uid, the source id, the fingerprint and the shard ids as its value.
The model follows the code.

## Model

| member | source | states |
|---|---|---|
| SortedDiff.DiffByKeyIsDiff | quickwit/quickwit-common/src/sorted_iter.rs:133-187 | Merging two inputs sorted by key yields, for each key of either input exactly once, whether it was added, removed or is in both, with the values it had. |
| ClusterChange.OnAddedPublishes | quickwit/quickwit-cluster/src/change.rs:137-202 | After a join, a rejoin, a stale join or one that does not parse, replaying the events over the ready nodes gives the new ready nodes, and the events fit what was published before. |
| ClusterChange.OnUpdatedPublishes | quickwit/quickwit-cluster/src/change.rs:204-260 | The same for an update, through every readiness flip, unknown ids, stale generations and states that do not parse. |
| ClusterChange.OnRemovedPublishes | quickwit/quickwit-cluster/src/change.rs:262-286 | The same for a departure, which counts only for the generation on record. |
| ClusterChange.RemoveCarries | quickwit/quickwit-cluster/src/change.rs:137-286 | A published Remove carries the live node as it was when it leaves or is replaced, and the live node as it is now, no longer ready, when it loses readiness. |
| ClusterChange.OnDiffsPublishes | quickwit/quickwit-cluster/src/change.rs:75-135 | For any sequence of diff entries in any order: replaying all events over the old ready nodes gives the new ready nodes, per node id they read Add, Update*, Remove, and each Update names as previous the node last published. |
| ClusterChange.OlderGenerationIgnored | quickwit/quickwit-cluster/src/change.rs:137-286 | Joins, updates and removals from an older generation change neither the map nor the stream. |
| ClusterChange.GenerationNeverDecreases | quickwit/quickwit-cluster/src/change.rs:137-286 | One diff entry never lowers the generation of an id that stays live. |
| ClusterChange.GenerationGrowsWhileLive | quickwit/quickwit-cluster/src/change.rs:75-286 | Over any stretch of a run during which an id stays live its generation never decreases. |
| ClusterCarry.SnapshotCarriesMembers | quickwit/quickwit-cluster/src/change.rs:75-286 | With one id per node and safe replacements, for every order of the diff entries and whether or not states parse: an id that joins is live if its state parses, one that stays keeps its member unless its version changed and the new state parses, one that left is gone. |
| ClusterCarry.LiveNodesAreCarried | quickwit/quickwit-cluster/src/change.rs:75-286 | Hence after every snapshot of every such run each node id is live with the member of its chitchat id's last parsing state, provided the state it joined with parsed. |
| ClusterRebuild.LiveNodesAreRebuilt | quickwit/quickwit-cluster/src/change.rs:75-286 | If moreover every state parses and equal versions mean equal states, the live nodes are after every snapshot the member map built from that snapshot alone. |
| ClusterRebuild.RebuildKeptIff | quickwit/quickwit-cluster/src/change.rs:75-260 | With safe replacements, one snapshot takes a rebuild to a rebuild if and only if each staying id with an unchanged version has an unchanged member and each with a changed version parses as it did before. |
| ClusterOrder.ReplacementOrder | quickwit/quickwit-cluster/src/change.rs:137-286 | For a departure and the join that replaces it, the two orders agree if and only if the join does not parse, or its generation is larger than that of the live node, or differs from that of an id that is not live. |
| ClusterOrder.OrderIrrelevantIffSafe | quickwit/quickwit-cluster/src/change.rs:75-286 | With one id per node on both sides, all orders of the whole diff leave the same live nodes if and only if that holds of every replaced id. |
| ClusterOrder.GrowingGenerationsAreSafe | quickwit/quickwit-cluster/src/change.rs:152-162 | Generations that grow with every change of id make every replacement safe. |
| ClusterRebuild.UnparsedJoinIsForgotten | quickwit/quickwit-cluster/src/change.rs:137-260 | An id that did not parse when it joined is never brought back by an update. |
| ClusterOrder.RejoinLostInOneOrder | quickwit/quickwit-cluster/src/change.rs:137-286 | For a node that returns under another id with a generation that is not larger, even equal, handling the join first loses the node and handling the departure first keeps it. |
| ClusterStream.InvAlways | quickwit/quickwit-cluster/src/cluster.rs:583-626 | Every run of snapshots, subscriptions and closings keeps each listening subscriber's replay equal to the ready nodes and its events alternating. |
| ClusterStream.AddsReplay | quickwit/quickwit-cluster/src/cluster.rs:282-299 | The Add events that a new subscriber is sent, in any key order, replay to exactly the ready nodes. |
| ClusterStream.SubscriberSeesReadyNodes | quickwit/quickwit-cluster/src/cluster.rs:282-318 | For every run and every subscriber, whenever it joined and whether by replay or with an initial list, folding its events by node id gives exactly the ready subset of the live nodes. |
| ClusterStream.SubscriberEventsAlternate | quickwit/quickwit-cluster/src/change.rs:137-286 | For every run and subscriber each event fits those before it: Add of an unknown id, Update of the node last published, Remove of a known id. |
| ClusterStream.ClosedReceivesNothing | quickwit/quickwit-cluster/src/cluster.rs:596-624 | From the moment it closes its end on, a subscriber is sent nothing more in any run. |
| ClusterStream.OnlyClosedAreForgotten | quickwit/quickwit-cluster/src/cluster.rs:596-624 | A snapshot with something to publish keeps exactly the subscribers that still listen. |
| ClusterSubscribers.LiveIsCarried | quickwit/quickwit-cluster/src/cluster.rs:583-626 | Along every run of the change stream with safe replacements the live nodes are the members carried from snapshot to snapshot. |
| ClusterSubscribers.SubscriberSeesCarriedMembers | quickwit/quickwit-cluster/src/cluster.rs:282-318 | In such a run the replay of every open subscriber is, per node id, the ready carried member. |
| ClusterSubscribers.SubscriberSeesRebuild | quickwit/quickwit-cluster/src/cluster.rs:282-318 | If moreover every state parses and equal versions mean equal states, it is the ready member built from the latest snapshot alone, whenever and however the subscriber joined. |
| ClusterSubscribers.MemberFromPairs | quickwit/quickwit-cluster/src/member.rs:175-211 | A state gives a member if and only if it has its services and an address that parses; the member is ready if and only if the readiness key says READY. |
| ClusterSubscribers.SubscriberSeesAnnouncedNodes | quickwit/quickwit-cluster/src/member.rs:30-74 | Hence, in terms of gossiped pairs: a subscriber has a node if and only if the latest snapshot has a chitchat id for it whose readiness key says READY, and then with that id, address and those pairs. |
| ClusterStream.Cluster.constructor | quickwit/quickwit-cluster/src/cluster.rs:628-635 | A new cluster has no live node and no subscriber. |
| ClusterStream.Cluster.OnAddedNode | quickwit/quickwit-cluster/src/change.rs:137-202 | The handler's in-place removal and insertion leave the map and events of the specification for which the publishing lemma is proved. |
| ClusterStream.Cluster.OnUpdatedNode | quickwit/quickwit-cluster/src/change.rs:204-260 | The same for the update handler. |
| ClusterStream.Cluster.OnRemovedNode | quickwit/quickwit-cluster/src/change.rs:262-286 | The same for the removal handler. |
| ClusterStream.Cluster.ComputeClusterChangeEvents | quickwit/quickwit-cluster/src/change.rs:75-135 | The loop over the diff updates the live nodes in place and collects the events of the whole diff in order. |
| ClusterStream.Cluster.ProcessSnapshot | quickwit/quickwit-cluster/src/cluster.rs:596-624 | One turn of the change-stream loop is a snapshot step: events go to all subscribers that still listen, the others are dropped. |
| ClusterStream.Cluster.SubscribeWithReplay | quickwit/quickwit-cluster/src/cluster.rs:282-299 | Subscribing sends one Add per ready node before the subscriber is registered. |
| ClusterStream.Cluster.SubscribeWithInitial | quickwit/quickwit-cluster/src/cluster.rs:307-318 | Subscribing returns the ready nodes of that very moment. |
| IndexingTasks.SplitLast | quickwit/quickwit-cluster/src/cluster.rs:563-581 | One step of the split from the right finds the last separator: the pieces rejoin to the text and the right one is free of it. |
| IndexingTasks.SplitNonEmpty | quickwit/quickwit-cluster/src/cluster.rs:555-561 | Parsed shard ids are non-empty and free of commas. |
| IndexingTasks.SplitJoin | quickwit/quickwit-cluster/src/cluster.rs:539-561 | Splitting undoes joining for non-empty shard ids without commas. |
| IndexingTasks.ParsePrintU64 | quickwit/quickwit-cluster/src/cluster.rs:539-581 | A printed fingerprint is read back. |
| IndexingTasks.SortSorts | quickwit/quickwit-cluster/src/cluster.rs:539-553 | The shard ids are written as a sorted permutation. |
| IndexingTasks.AtMostIff | quickwit/quickwit-cluster/src/cluster.rs:539-553 | The order of that sort: one id is a prefix of the other, or has the smaller character where they first differ. |
| IndexingTasks.IndexUidRoundTrip | quickwit/quickwit-cluster/src/cluster.rs:563-581 | An index uid, whose text contains a colon, is read back when the index id has none. |
| IndexingTasks.PrintableRoundTrips | quickwit/quickwit-cluster/src/cluster.rs:539-581 | A task without separators in its fields is read back with its shard ids sorted. |
| IndexingTasks.ParsedIsPrintable | quickwit/quickwit-cluster/src/cluster.rs:563-581 | Whatever the text, a parsed task has no separator inside its fields. |
| IndexingTasks.RoundTripIffPrintable | quickwit/quickwit-cluster/src/cluster.rs:539-581 | A task survives being printed and parsed if and only if its index id and source id have no colon and its shard ids are non-empty without comma or colon. |
| IndexingTasks.SetTasksEntries | quickwit/quickwit-cluster/src/cluster.rs:517-537 | Over any prior state, the entries under the prefix of indexing tasks are exactly those of the new tasks, and all other entries are untouched. |
| IndexingTasks.WriteThenParse | quickwit/quickwit-cluster/src/cluster.rs:503-537 | Over any prior state, writing tasks and parsing them back yields exactly those tasks, with sorted shard ids, if and only if the pipeline uids are distinct and every task is printable. |
| IndexingTasks.NodeStateCell.SetIndexingTasks | quickwit/quickwit-cluster/src/cluster.rs:521-537 | The two loops that set the new keys and delete the obsolete ones reach that state from any prior one. |
| PriorityChannel.InvAlways | quickwit/quickwit-actors/src/channel_with_priority.rs:229-304 | Every run keeps conservation, priority and what the receive in progress has learnt. |
| PriorityChannel.HighBeforeLaterLow | quickwit/quickwit-actors/src/channel_with_priority.rs:123-145 | In every interleaving of sends with the queue operations inside recv and try_recv, a high-priority message is delivered before every low-priority message sent after it, stash included. |
| PriorityChannel.NothingLostOrReordered | quickwit/quickwit-actors/src/channel_with_priority.rs:229-304 | Delivered, then stash, then the message in hand, then the low queue equals the low messages sent; delivered, then the high queue equals the high messages sent. |
| PriorityChannel.DeliveredOnceInSendOrder | quickwit/quickwit-actors/src/channel_with_priority.rs:229-304 | Two messages of one priority are delivered in send order, neither twice. |
| PriorityChannel.StashNeverOverwritten | quickwit/quickwit-actors/src/channel_with_priority.rs:27-58 | No step replaces a stashed message by another. |
| PriorityChannel.ExhaustedStays | quickwit/quickwit-actors/src/channel_with_priority.rs:152-171 | Once all senders and messages are gone no step brings any back. |
| PriorityChannel.DisconnectedForGood | quickwit/quickwit-actors/src/channel_with_priority.rs:229-304 | After a receive answers Disconnected both queues and the stash are empty at every later point of the run. |
| PriorityChannel.DisconnectedAfterEverything | quickwit/quickwit-actors/src/channel_with_priority.rs:229-304 | Disconnected is answered only once everything sent has been delivered. |
| PriorityAnswers.TryRecvAnswers | quickwit/quickwit-actors/src/channel_with_priority.rs:229-254 | A try_recv without interference answers exactly from the stores it finds: head of the high queue, else stash, else head of the low queue, else disconnected if no sender is left, else no message; and takes out just what it returns. |
| PriorityAnswers.RecvAnswers | quickwit/quickwit-actors/src/channel_with_priority.rs:263-304 | The same for recv, which waits, leaving all stores as they were, when try_recv would answer no message. |
| PriorityAnswers.EndsSoon | quickwit/quickwit-actors/src/channel_with_priority.rs:229-304 | Either ends within nine steps of its own, unless it is a recv with nothing to receive. |
| PriorityAnswers.NoMessageIsJustified | quickwit/quickwit-actors/src/channel_with_priority.rs:229-254 | Whatever the senders do, no message is answered only if at a moment of the call stash and low queue were empty with a sender alive, after an earlier moment of the call at which the high queue was empty. |
| PriorityReceiver.Receiver.constructor | quickwit/quickwit-actors/src/channel_with_priority.rs:127-145 | A new channel is the initial state of the machine. |
| PriorityReceiver.Receiver.Take | quickwit/quickwit-actors/src/channel_with_priority.rs:43-51 | Taking returns what was there and leaves flag and value empty together. |
| PriorityReceiver.Receiver.Place | quickwit/quickwit-actors/src/channel_with_priority.rs:53-57 | Placing sets flag and value together. |
| PriorityReceiver.Receiver.TryRecvHighPriorityMessage | quickwit/quickwit-actors/src/channel_with_priority.rs:205-227 | With sends in every gap: pop, look for a disconnection, pop again; each answer leaves the run where the machine stands. |
| PriorityReceiver.Receiver.TakePending | quickwit/quickwit-actors/src/channel_with_priority.rs:229-270 | The stashed message is returned, or the receive goes on to the queues. |
| PriorityReceiver.Receiver.TryRecv | quickwit/quickwit-actors/src/channel_with_priority.rs:229-254 | Every execution of try_recv, whatever happens in the gaps, is a run of the machine that ends with the outcome returned; no message is answered only on the evidence above; without sends in the gaps the outcome and the stores left are exactly the answer above. |
| PriorityReceiver.Receiver.Recv | quickwit/quickwit-actors/src/channel_with_priority.rs:263-304 | The same for recv, which is ready with its outcome or still waiting in its select; without sends in the gaps it is ready if and only if there is something to answer, with exactly that. |
| PriorityReceiver.Receiver.Select | quickwit/quickwit-actors/src/channel_with_priority.rs:270-303 | Each poll of the biased select looks at the high-priority queue first; left alone it ends where the receive is bound to end. |
| PriorityReceiver.Receiver.SelectLow | quickwit/quickwit-actors/src/channel_with_priority.rs:284-302 | A popped low message is returned only after another look at the high queue, and stashed if that look finds something. |
| PriorityReceiver.Receiver.RecvHighPriority | quickwit/quickwit-actors/src/channel_with_priority.rs:256-261 | The receive of a paused actor returns the head of the high queue or waits for one; stash and low queue are left alone. |
| PriorityReceiver.Consume | quickwit/quickwit-actors/src/channel_with_priority.rs:123-145 | A consumer making any sequence of recv and try_recv calls gets prefixes of what was sent at each priority, and no low message before a high one sent earlier. |
| ActorLoop.InvAlways | quickwit/quickwit-actors/src/spawn_builder.rs:308-349 | Every run keeps the reference count exact, all received messages accounted for, and the conclusions of the emptiness reads. |
| ActorLoop.NoLostWakeUp | quickwit/quickwit-actors/src/mailbox.rs:63-94 | In every interleaving of clone, upgrade, two-step drop, sends and actor steps, an actor waiting on empty stores has another counted mailbox alive or a drop about to send its Nudge. |
| ActorLoop.ReceiveNeverFails | quickwit/quickwit-actors/src/spawn_builder.rs:244-254 | The blocking receive never ends without a message, so its expect never panics. |
| ActorLoop.CompletedHandledIffBeforeCheck | quickwit/quickwit-actors/src/spawn_builder.rs:336-346 | Of an actor that completes, the messages of either priority that it has handled are exactly those sent before its last reference-count check. |
| ActorLoop.CompletedLeavesOnlyNudges | quickwit/quickwit-actors/src/spawn_builder.rs:336-346 | Unless a mailbox was made or the context used to send since that check, a completed actor leaves nothing unhandled but Nudges. |
| ActorLoop.HandledInOrderReceived | quickwit/quickwit-actors/src/spawn_builder.rs:279-291 | Messages are handled in the order received, none skipped, at most one in hand. |
| ActorLoop.LateSendCanBeLost | quickwit/quickwit-actors/src/mailbox.rs:433-440 | A run in which a weak mailbox upgraded after the check sends a message that the completed actor never handles. |
| ActorProgress.AvailableIsHandled | quickwit/quickwit-actors/src/spawn_builder.rs:308-349 | A running actor that is not killed, not disturbed and not in a receive it began while paused has, after 30 steps of its own per waiting message and 25 more, exited, or handled every message sent to it but the one in its hand. |
| ActorProgress.PausedReceiveWaits | quickwit/quickwit-actors/src/spawn_builder.rs:244-254 | The exception is needed: a receive begun while paused takes no step until a high-priority message comes. |
| ActorProgress.AbandonedActorExits | quickwit/quickwit-actors/src/mailbox.rs:63-94 | Once all mailboxes are gone and the Nudge is sent, such an actor exits within that bound. |
| ActorProgress.KilledActorExits | quickwit/quickwit-actors/src/actor_handle.rs:222-229 | Killed with a high-priority message waiting, an actor left alone exits within 27 steps of its own, running or paused, whatever it was doing. |
| ActorModes.PausedLeavesLowWaiting | quickwit/quickwit-actors/src/spawn_builder.rs:244-254 | From the top of the loop on, while the actor is paused no low-priority message is delivered to it, whatever is sent and handled meanwhile. |
| ActorModes.StateFollowsCommands | quickwit/quickwit-actors/src/command.rs:84-107 | Unless others set it, the actor is paused at any point of a run if and only if the last Pause or Resume it handled was a Pause. |
| ActorModes.KilledHandlesNoMore | quickwit/quickwit-actors/src/spawn_builder.rs:279-291 | Once its switch is set an actor handles no more than the message its handler is already at. |
| ActorModes.KilledNeverWaits | quickwit/quickwit-actors/src/spawn_builder.rs:308-313 | Nor does it begin another blocking receive. |
| ActorModes.NudgeOnlyForTheLast | quickwit/quickwit-actors/src/mailbox.rs:63-80 | A drop is to send a Nudge if and only if it leaves no mailbox but that of the context. |
| ActorModes.DrainsBeforeCheck | quickwit/quickwit-actors/src/spawn_builder.rs:314-335 | After its first message a running actor stays in the drain until it reaches its drained hook or exits. |
| ActorModes.HookAfterEmptyReads | quickwit/quickwit-actors/src/spawn_builder.rs:317-329 | The drained hook is called only after the low queue, the stash and the high queue were seen empty, in this order. |
| ActorModes.ExitHasReason | quickwit/quickwit-actors/src/spawn_builder.rs:279-349 | Every exit of every run is final and has its reason: completed only on a last empty read, killed only with the switch set, quit and success only on those commands, these last three and all others also as the answer of a handler or of the drained hook. |
| ActorModes.ExitCommandsObeyed | quickwit/quickwit-actors/src/command.rs:84-107 | Quit and ExitWithSuccess give the exits they ask for. |
| ActorTask.ExecutionEnv.RecvEnvelope | quickwit/quickwit-actors/src/spawn_builder.rs:244-254 | The receive that starts according to the actor's state ends with a message in hand; if the actor is paused throughout, no low-priority message is delivered by it. |
| ActorTask.ExecutionEnv.ProcessOneMessage | quickwit/quickwit-actors/src/spawn_builder.rs:279-306 | The kill check comes first; then the message is handled, or its handler's exit ends the loop. |
| ActorTask.ExecutionEnv.TryRecvEnvelope | quickwit/quickwit-actors/src/spawn_builder.rs:256-258 | One receive of the drain. |
| ActorTask.ExecutionEnv.DrainedIsEmpty | quickwit/quickwit-actors/src/channel_with_priority.rs:199-203 | Emptiness is three separate reads, low queue, stash, high queue, with other threads in between. |
| ActorTask.ExecutionEnv.Drain | quickwit/quickwit-actors/src/spawn_builder.rs:317-329 | The nested loops consume messages until a pass finds all three stores empty. |
| ActorTask.ExecutionEnv.DrainIfRunning | quickwit/quickwit-actors/src/spawn_builder.rs:314-335 | Only a running actor drains, and then calls its drained hook, whose exit ends the loop. |
| ActorTask.ExecutionEnv.CheckCompleted | quickwit/quickwit-actors/src/spawn_builder.rs:336-346 | The actor completes only past the reference-count check and three empty reads after it. |
| ActorTask.ExecutionEnv.ProcessAllAvailableMessages | quickwit/quickwit-actors/src/spawn_builder.rs:308-349 | Every execution of one turn of the loop, beside any other threads and handlers, is a run of the actor machine. |
| ActorTask.ProcessMessages | quickwit/quickwit-actors/src/spawn_builder.rs:271-277 | However many turns it takes, a loop that returns Completed has handled exactly the messages sent before its last check. |
| Supervision.InvAlways | quickwit/quickwit-actors/src/supervisor.rs:125-183 | Every run of sends, incarnations and supervisor steps keeps one consumer, the log of receipts and the fate of every message. |
| Supervision.OneConsumerAtATime | quickwit/quickwit-actors/src/supervisor.rs:145-181 | At every point of every run at most one incarnation is live: the latest. |
| Supervision.ReceivedOnceInSendOrder | quickwit/quickwit-actors/src/supervisor.rs:125-183 | Across any number of restarts messages of one priority reach incarnations in send order, each at most once, never an earlier incarnation after a later one. |
| Supervision.RestartLosesAtMostHand | quickwit/quickwit-actors/src/spawn_builder.rs:279-291 | Whatever an incarnation received it handled, except the one message it holds or held when it ended. |
| Supervision.LossesBoundedByRestarts | quickwit/quickwit-actors/src/supervisor.rs:125-183 | Unhandled receipts never exceed the restarts counted plus the one message in hand. |
| Supervision.NothingLostBetweenIncarnations | quickwit/quickwit-actors/src/supervisor.rs:176-181 | What no incarnation has received is still in the shared inbox, in order. |
| Supervision.MetricsCountRestarts | quickwit/quickwit-actors/src/supervisor.rs:22-27 | The three counters add up to the number of restarts. |
| Supervision.MetricsCountReasons | quickwit/quickwit-actors/src/supervisor.rs:155-174 | Each counter is the number of past incarnations that ended for its reason. |
| Supervision.StopsOnlyForGood | quickwit/quickwit-actors/src/supervisor.rs:132-164 | A supervisor that stopped leaves an actor that ended with success, on request or on a closed downstream, and stopped with that exit. |
| SupervisionChecks.ProgressingIsLeftAlone | quickwit/quickwit-actors/src/supervisor.rs:129-137 | A check of an actor that has not ended and made progress changes nothing at all. |
| SupervisionChecks.CheckFindsFault | quickwit/quickwit-actors/src/actor_handle.rs:86-106 | A check makes the supervisor act if and only if the incarnation is announced as failed, or shows no exit and made no progress; the check itself changes nothing else. |
| SupervisionChecks.ActionHasCause | quickwit/quickwit-actors/src/supervisor.rs:129-154 | In every run, whenever the supervisor is about to kill or waits for an actor to end, the check before found that very incarnation at fault. |
| SupervisionChecks.KillHasCause | quickwit/quickwit-actors/src/supervisor.rs:145-154 | A live incarnation has its switch set because someone else set it, or because the supervisor did, on its latest incarnation, after a check that saw no progress. |
| RespawnedActor.HoldsAlways | quickwit/quickwit-actors/src/supervisor.rs:145-182 | Every run of an actor, other threads and restarts on the same inbox and reference count keeps the actor machine's invariant in each incarnation. |
| RespawnedActor.NoLostWakeUpAcrossRestarts | quickwit/quickwit-actors/src/mailbox.rs:63-94 | Whichever incarnation is waiting on empty stores, another counted mailbox is alive or a drop is about to send its Nudge. |
| RespawnedActor.ReceiveNeverFailsAcrossRestarts | quickwit/quickwit-actors/src/spawn_builder.rs:244-254 | The blocking receive of a respawned actor never ends without a message. |
| RespawnedActor.CompletedAcrossRestarts | quickwit/quickwit-actors/src/spawn_builder.rs:336-346 | When the last incarnation completes, the messages handled or lost in some incarnation's hand are exactly those sent before its check, and no more are lost than there were restarts. |
| SupervisorTask.Supervisor.constructor | quickwit/quickwit-actors/src/supervisor.rs:110-123 | A new supervisor holds the handle of the first incarnation. |
| SupervisorTask.Supervisor.Supervise | quickwit/quickwit-actors/src/supervisor.rs:125-183 | Each supervise step is a run of the machine. A live actor that progressed is left as the others left it; an announced success ends supervision; one at fault has ended and been counted and replaced, or ended for good, or is still waited for, and if alive then killed and nudged. The handle is set again on return, so its expect never panics. |
| SupervisorTask.Supervisor.KillOrJoinActor | quickwit/quickwit-actors/src/actor_handle.rs:222-251 | Afterwards the actor has ended, or its switch is set and a Nudge was sent to it since; nothing else of the supervisor has changed. |
| SupervisorTask.Supervisor.CountAndRespawn | quickwit/quickwit-actors/src/supervisor.rs:155-182 | Each restart increments the counter of its reason by one and puts back the handle of one new incarnation; success, quit and a closed downstream end supervision with that exit and no count. |
| SchedulerRuns.HeadExists | quickwit/quickwit-actors/src/scheduler.rs:49-55 | Pending events with distinct ids have a least element in the order by deadline and id. |
| SchedulerRuns.CallbacksFireInOrder | quickwit/quickwit-actors/src/scheduler.rs:238-262 | Over a whole run with any monotone clock and any jumps, callbacks fire in strictly increasing order of deadline and id, none before its deadline in simulated time. |
| SchedulerRuns.PendingAfterFired | quickwit/quickwit-actors/src/scheduler.rs:238-262 | Every event still pending, whenever scheduled, comes after every event that has fired. |
| SchedulerRuns.FrozenClockIsExact | quickwit/quickwit-actors/src/scheduler.rs:324-349 | With the real clock at a standstill simulated time never passes a pending deadline and each callback fires exactly at its deadline. |
| SchedulerRuns.NeverStalls | quickwit/quickwit-actors/src/scheduler.rs:264-304 | With a client alive and events pending, the idle scheduler has a message queued or a timer that wakes no later than the earliest deadline. |
| SchedulerRuns.AcceleratedTimerIsImmediate | quickwit/quickwit-actors/src/scheduler.rs:108-133 | With time accelerated and no guard that timer is due at once, unless a message is queued or on its way. |
| SchedulerRequests.NeverFiresEarly | quickwit/quickwit-actors/src/scheduler.rs:96-106 | In every run no callback fires before the timeout it was requested with has passed in simulated time since the call of schedule_event. |
| SchedulerRequests.FiresExactlyOnTime | quickwit/quickwit-actors/src/scheduler.rs:257-262 | With the real clock at a standstill it fires exactly its timeout after the simulated time at which its message was processed. |
| SchedulerRequests.RequestIsOneEvent | quickwit/quickwit-actors/src/scheduler.rs:257-262 | Each request is at every point of a run in exactly one place: waiting to be taken up, pending as one event, or fired once. |
| SchedulerRequests.RequestsStand | quickwit/quickwit-actors/src/scheduler.rs:96-106 | No request is ever forgotten or altered, and simulated time never goes back. |
| SchedulerRequests.PassFiresElapsed | quickwit/quickwit-actors/src/scheduler.rs:238-254 | Each pass fires every event that had elapsed when it began. |
| SchedulerRequests.GuardHoldsTime | quickwit/quickwit-actors/src/scheduler.rs:324-341 | While a guard is held simulated time does not jump, unless the guard came after the scheduler had looked. |
| SchedulerRequests.NoJumpUnlessAccelerated | quickwit/quickwit-actors/src/scheduler.rs:324-341 | Without acceleration simulated time never jumps. |
| SchedulerRequests.TimerWakesAtEarliest | quickwit/quickwit-actors/src/scheduler.rs:272-304 | The timer a pass arms wakes when simulated time reaches the earliest pending deadline, not before, or at once if that has passed. |
| SchedulerTask.Task.constructor | quickwit/quickwit-actors/src/scheduler.rs:308-316 | A new scheduler is the initial state of the machine. |
| SchedulerTask.Least | quickwit/quickwit-actors/src/scheduler.rs:343-345 | The head of the heap is the least pending event, none exactly when nothing is pending. |
| SchedulerTask.Task.MayAdvanceTime | quickwit/quickwit-actors/src/scheduler.rs:325-333 | The flag and the guard counter are read one after the other, each read being a step of the machine. |
| SchedulerTask.Task.AdvanceTimeIfNecessary | quickwit/quickwit-actors/src/scheduler.rs:324-341 | The time shift moves to the next deadline only when allowed and only forward, as a step of the machine. |
| SchedulerTask.Task.ScheduleNextTimeout | quickwit/quickwit-actors/src/scheduler.rs:272-304 | The armed timer wakes at the next deadline, or at once when that has passed. |
| SchedulerTask.Task.PopElapsed | quickwit/quickwit-actors/src/scheduler.rs:238-249 | The loop runs the callback of every elapsed event, and of no other, in heap order. |
| SchedulerTask.Task.ProcessTimeMessage | quickwit/quickwit-actors/src/scheduler.rs:238-254 | Every execution of process_time, whatever happens in its gaps, is a run of the machine back to idle. |
| SchedulerTask.Task.ProcessScheduleMessage | quickwit/quickwit-actors/src/scheduler.rs:257-262 | The same for process_schedule, after which the request the message was sent for, with its timeout, is a pending event or has fired. |
| SchedulerTask.Task.HandleNextMessage | quickwit/quickwit-actors/src/scheduler.rs:202-211 | The same for one turn of the receive loop. |
| SchedulerTask.Serve | quickwit/quickwit-actors/src/scheduler.rs:192-216 | Serving any number of messages in any surroundings fires callbacks in order, each for a request that was made and none before its timeout has passed since. |
| KillSwitches.CollectContents | quickwit/quickwit-common/src/kill_switch.rs:39-48 | Swap-removing keeps exactly the children still held, each as often as before. |
| KillSwitches.GarbageCollect | quickwit/quickwit-common/src/kill_switch.rs:39-48 | The loop as written computes that list. |
| KillSwitches.InvAlways | quickwit/quickwit-common/src/kill_switch.rs:63-91 | Every interleaving of child and kill at lock granularity keeps the tree, the mutexes and the sealed subtrees consistent. |
| KillSwitches.KillReachesHeldDescendants | quickwit/quickwit-common/src/kill_switch.rs:82-91 | Once kill has returned every switch reachable through still-held children is dead, including those created meanwhile or since. |
| KillSwitches.OnlyDescendantsDie | quickwit/quickwit-common/src/kill_switch.rs:59-91 | A dead switch is one on which, or on an ancestor of which, kill was called. |
| KillSwitches.KillsTakeBoundedSteps | quickwit/quickwit-common/src/kill_switch.rs:82-91 | The recursion terminates: all kills of a run take at most five steps per child call and three per kill call. |
| KillSwitches.KillsNeverDeadlock | quickwit/quickwit-common/src/kill_switch.rs:82-91 | While kills that hold mutexes across their recursion are running, one of them can step. |
| ProgressWord.EncodeDecode | quickwit/quickwit-common/src/progress.rs:50-69 | Every 32-bit word is the encoding of the state it decodes to. |
| ProgressWord.DecodeEncode | quickwit/quickwit-common/src/progress.rs:50-69 | A state is decoded from its encoding exactly when its level plus two fits 32 bits. |
| ProgressWord.InvAlways | quickwit/quickwit-common/src/progress.rs:77-139 | Every interleaving of loads, compare-exchanges, records, checks and drops keeps the word in step with guards and history. |
| ProgressWord.WordCountsGuards | quickwit/quickwit-common/src/progress.rs:90-110 | The word is one more than the number of live guards, and with none it says whether there was activity since the last check. |
| ProgressWord.DropNeverPanics | quickwit/quickwit-common/src/progress.rs:134-139 | The assertion in the guard's drop never fires. |
| ProgressWord.ChecksAreExact | quickwit/quickwit-common/src/progress.rs:112-129 | A check answers true if and only if progress was recorded or a guard was live since the check before it, or there was none before it. |
| ProgressWord.FirstCheckAfterGuard | quickwit/quickwit-common/src/progress.rs:112-139 | The first check after a moment with a live guard answers true, even if all guards are gone by then. |
| ProgressWord.RetryMeansProgress | quickwit/quickwit-common/src/progress.rs:90-110 | A compare-exchange fails only because, since the load it belongs to, a step changed the word from the loaded value. |
| ProgressWord.WordCountsGuardsIffFits | quickwit/quickwit-common/src/progress.rs:90-110 | Up to the first state of a run with 2^32 - 1 guards or more, the word counts the live guards if and only if they are fewer than that. |
| ProgressWord.OneGuardTooMany | quickwit/quickwit-common/src/progress.rs:90-110 | A run of 2^32 - 1 entries after which all guards are live and the word reads no-update. |
| AllocTracker.ResizeExact | quickwit/quickwit-common/src/alloc_tracker.rs:179-185 | The signed 64-bit detour computes the exact new total while totals stay below 2^63. |
| AllocTracker.UsageCounts | quickwit/quickwit-common/src/alloc_tracker.rs:41-49 | The usage that entries are compared with is the number of tracked locations of the callsite. |
| AllocTracker.ConsistentIffNeverOverwritten | quickwit/quickwit-common/src/alloc_tracker.rs:101-223 | After any session whose totals stay below 2^63, entries exist exactly for the callsites in use with the exact count and sum, if and only if no operation recorded over a tracked location. |
| AllocTracker.NeverSaturates | quickwit/quickwit-common/src/alloc_tracker.rs:200-223 | Even then every tracked location has an entry that covers it, so neither saturating subtraction saturates and the inconsistent branch of a reallocation is never taken. |
| AllocTracker.TablesStayWithinMaxima | quickwit/quickwit-common/src/alloc_tracker.rs:101-143 | Whatever the operations, both tables stay within their maxima. |
| AllocTracker.TotalsReportedEveryInterval | quickwit/quickwit-common/src/alloc_tracker.rs:93-100 | At no point of a session is a callsite's total left a whole reporting interval above its last report. |
| AllocTracker.AllocationReports | quickwit/quickwit-common/src/alloc_tracker.rs:93-143 | An allocation is reported exactly when the bytes tracked for its callsite reach the last report plus the interval; the report carries the true number and sum of tracked locations and the previous report. |
| AllocTracker.ReallocationReports | quickwit/quickwit-common/src/alloc_tracker.rs:145-198 | The same for a reallocation, in place or moving, under the callsite of the original allocation. |
| AllocLocations.LocationsFollowOperations | quickwit/quickwit-common/src/alloc_tracker.rs:101-223 | After any session the location table is, pointer by pointer, what the operations and which of the allocations found room say. |
| AllocLocations.TrackedIffNotTakenAway | quickwit/quickwit-common/src/alloc_tracker.rs:101-223 | Hence a pointer is tracked if and only if the last operation that put something there was not followed by a deallocation of it or a reallocation away from it, and then with the callsite and size given there. |
| AllocLocations.NothingChanges | quickwit/quickwit-common/src/alloc_tracker.rs:101-223 | A stopped tracker, a full one, and an operation on an untracked pointer change nothing. |
| AllocLocations.RefusalsAreExplained | quickwit/quickwit-common/src/alloc_tracker.rs:101-143 | An allocation is refused if and only if the tracker is stopped or a table is at its maximum, and the answer says which. |
| AllocLocations.EverythingFreed | quickwit/quickwit-common/src/alloc_tracker.rs:200-223 | If everything was taken away again, both tables are empty. |
| AllocTracker.Allocations.constructor | quickwit/quickwit-common/src/alloc_tracker.rs:51-67 | The tracker starts stopped and empty with maxima 131072 and 32768. |
| AllocTracker.Allocations.InitSession | quickwit/quickwit-common/src/alloc_tracker.rs:85-91 | Starting a session clears both tables. |
| AllocTracker.Allocations.Allocate | quickwit/quickwit-common/src/alloc_tracker.rs:101-143 | The updates in place reach the state and response of the specification that the session results are about. |
| AllocTracker.Allocations.Reallocate | quickwit/quickwit-common/src/alloc_tracker.rs:149-198 | The same for a reallocation, in place or moving. |
| AllocTracker.Allocations.Deallocate | quickwit/quickwit-common/src/alloc_tracker.rs:200-223 | The same for a deallocation: the pointer is tracked no more and all others as before; a stopped tracker or an untracked pointer changes nothing. |
| TopKSelection.SelectionsAgree | quickwit/quickwit-common/src/binary_heap.rs:52-90 | Any two selections of the k best of the same items have the same sequence of keys, whichever items were chosen among equals. |
| TopKSelection.SelectionIsSortPrefix | quickwit/quickwit-common/src/binary_heap.rs:52-90 | That sequence is the first k keys of every full descending sort. |
| TopKSelection.Head | quickwit/quickwit-common/src/binary_heap.rs:166-168 | The head of the heap is an entry of least order. |
| TopKSelection.IntoSortedItems | quickwit/quickwit-common/src/binary_heap.rs:84-89 | The heap's items come out as a permutation in non-increasing key order. |
| TopKSelection.TopKOf | quickwit/quickwit-common/src/binary_heap.rs:54-90 | The result holds min(k, n) of the items in non-increasing key order, and no omitted item beats a returned one. |
| TopKSelection.TopK.constructor | quickwit/quickwit-common/src/binary_heap.rs:137-143 | A new selection has been given nothing. |
| TopKSelection.TopK.AddEntries | quickwit/quickwit-common/src/binary_heap.rs:155-175 | Adding a batch keeps the heap a selection over everything added so far, for every k including zero. |
| TopKSelection.TopK.AddEntry | quickwit/quickwit-common/src/binary_heap.rs:177-179 | The same for a single item. |
| TopKSelection.TopK.PeekWorst | quickwit/quickwit-common/src/binary_heap.rs:182-184 | A worst item of the selection, none exactly when nothing is selected. |
| TopKSelection.TopK.Finalize | quickwit/quickwit-common/src/binary_heap.rs:187-193 | The result is a selection over everything ever added. |
| TopKSelection.BatchesAgreeWithTopK | quickwit/quickwit-common/src/binary_heap.rs:131-194 | However the input is batched, the incremental result and the one-shot result over the concatenation have the same keys. |

## Left out

- Weak memory orderings: atomics are sequentially consistent steps.
- Bounded queue capacities and back-pressure: queues are unbounded, so a send never blocks or fails for want of room.
- Cancelling a future in the middle of a receive, and the internals of flume and tokio.
- PriorityReceiver.Receiver.Recv: takes a number of polls, since the message it waits for need not come; a receive still waiting can be polled on from where it stands.
- ActorTask.ProcessMessages: takes a number of turns and a budget of steps, since an actor may be kept busy or waiting for ever; how soon an actor left alone works off its inbox or exits is proved about runs of the machine.
- SupervisorTask.Supervisor.Supervise: takes a number of waits, since the actor it joins need not end.
- The Observe message that a healthy check sends: it is one of the messages that others may send at any time.
- `drain_low_priority` and the `drain_for_test` family: helpers that bypass the stash.
- Actor initialisation and finalisation, and `finalize` of the supervisor: they only add exits before and after the loop.
- A pause that takes effect in the middle of a drain: the inner loop does not look at the actor state, and neither does the model.
- Kill switches whose intermediate parent was dropped: parents hold weak references, so the reachability result is about chains of held switches.
- Kill switches and the progress word as objects: they are step machines only, because their code is locks and compare-exchanges on shared memory, which an object with private fields would not capture. Update in place is modelled for `garbage_collect`, on a sequence.
- gRPC channels, warm-up and channel reuse of cluster nodes: nodes are compared by their member data.
- Gossip over gRPC, and the chitchat library: snapshots are arbitrary.
- Printing and parsing of ULIDs and socket addresses: ULID parsing undoes printing, address parsing is any function.
- SortedDiff.DiffByKeyIsDiff: is about a function on two sequences; the lazy iterator with its two peeked heads is not an object of the model.
- ProgressWord.WordCountsGuards: assumes fewer than 2^32 - 1 guards at once, as do the other results on runs of that word; beyond that the word wraps.
- AllocTracker.ConsistentIffNeverOverwritten: assumes besides that no callsite is recorded 2^64 times in a session, which would wrap its count.
- AllocTracker.TotalsReportedEveryInterval: assumes a reporting interval below 2^63, above which its sum with the last report may wrap.
- Overflow of event ids, of time instants and of the supervisor's counters: they are unbounded numbers.
- The hash map's capacity in the allocation tracker, and the allocator wrapper that calls it: which events reach the tracker is arbitrary.
- The standard library's binary heap: its head is some least entry, its array is not modelled.
- Command line, metrics export, search, indexing, storage and everything else in the repository outside these cores.
