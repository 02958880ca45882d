# Sentinel: from the RPC socket to the notification

A model of how the sentinel turns chain logs into notifications, and of the RPC failover layer
underneath, with proofs of the properties the design rests on. Code that updates fields across awaits is
modelled by classes whose methods are proved against value-level functions; whole histories are lists of
steps over those functions, and the theorems quantify over all of them.

- **Ingestion.** `Feed`, `Coverage`, `Subscription`, `HandOver`, `Supervisor`, `Reconnect`. One
  `Subscription` replays a block range in batches while live logs and heads arrive. Every `await` is a point
  where the environment takes a turn. Its turns are lists fixed in advance (`loosePlan` for awaits outside a
  replay, `heldPlan` for those within one, `rpc` for provider failures), and what is handed over is stated as
  a function of the turns taken (`Feed.Passed`), so a contract proved for any lists holds for any
  interleaving and accounts for every item that came in.
- **Aggregation and digests.** `Events`, `Windows`, `Partition`, `Batching`, `ChainWindows`, `Placement`, `Flow`,
  `Conservation`, `Interleaving`, `Coordinator`, `Aggregators`, `Reporting`, `Digests`, `Runtime`. The simple thing
  that the coordinator refines is `Batching.Greedy`: per key, the earliest event opens a window and takes
  everything up to the window's end. `ChainWindows` tells the same windows by block numbers alone, and
  `Placement` says for any order of the logs exactly when the coordinator's windows are these. `Flow` takes a
  flush apart into its steps: the snapshot, the end of each window's notifications together with the discard
  of its record, and what other tasks do in between.
- **Crashes.** `Restart`, `Arrivals`, `Lifecycle`, `Resume`, `Outbox`. A crash takes the store, the digest and the
  checkpoint back to the last snapshot, and nothing back that was sent. `Restart` and `Lifecycle` say which
  windows each process sends, counting all it handed over; `Resume` says that no log at or below the checkpoint
  of any snapshot is lost, with single steps of flushes, digests and direct notifications; `Outbox` says that the
  two tell the same history.
- **Failover.** `Pool`, `Failover`, `Generations`, `Lease`. Connection attempts, liveness checks, operation
  outcomes, elapsed time and the steps of the other provider roles are lists too.
- **Smaller cores.** `LogReader`, `FollowIndex`, `Jobs`, `ChunkText`; `Sorting` is Python's `sorted` as a
  stable insertion sort.

`dafny verify dfyconfig.toml` checks everything.

## Hypotheses

Where a main result needs more than its inputs being well-formed, it says so in these terms.

- The chain is a list of decoded logs, block by block, each with its own identity
  (`Coverage.ChainOrdered`). The provider returns exactly the logs of a range that match a filter.
- A live feed brings a head only after the logs of the blocks it completes (`Coverage.MarksCover`). The logs
  themselves may come in any order: each event source has its own subscription. It is enough that no log
  comes after a mark that claims it (`Coverage.NothingLateMarksCover`). Coverage and delivery counts need no
  more than this.
- For the windows no order of the logs is assumed outright. `Placement.Placed` is a check before each log is
  handed over, and `Placement.ProperIffInPlace` says that it is exact. In groups with windows of one block (six
  of the program's seven) it holds for every log above the checkpoint (`Placement.OneBlockWindows`); in the others
  it is enough that each key comes in block order (`Arrivals.OrderlyInPlace`). A feed that brings the chain block
  by block keeps both through the buffer, and one round of the buffer's sort establishes that order from any
  (`Coverage.SortRepairsOrder`).
- A live feed brings no log after a mark that claims it (`Arrivals.Timely`): needed for the windows only, where a
  log of a flushed window would open another.
- "No unbuffered head while a range is still open" is needed for coverage across failures. It is stated on
  the turns the environment has in store, in `Supervisor.ModuleRuntimeSupervisor.CatchUpFrom` (the turns that head
  reads and pauses can take) and in `Reconnect.CalmOne` (the turns before a connection's replay), together
  with heads that do not go back (`Reconnect.AllBelow`). `Supervisor.RetryCoversIff` gives the exact condition and
  `Reconnect.EarlyHeadLosesLog` a run that breaks without it.
- No flush discards a log that it did not send (`Conservation.CleanRun`), where flushes are taken in steps. The
  program's own sink puts a notification into an unbounded queue and never suspends, so no other task takes a
  step during a flush; then this always holds (`Interleavings.AloneIsAtomic`, `Resume.PromptRun`). A run that loses
  a log (`Interleavings.LateEventIsLost`) needs a sink that suspends.
- Each aggregation group has one aggregator (`ChainWindows.OnePerGroup`), as the dictionary by group name assumes.

## Properties that hold under a condition only

| what | exact condition |
|---|---|
| a retry from checkpoint + 1 covers the range | the checkpoint is at most the last block the failed attempt completed (`Supervisor.RetryCoversIff`) |
| the first catch-up covers its range wherever its first attempt fails | no start block is configured, or it lies above the stored checkpoint (`Supervisor.CatchUpSurvivesFailuresIff`) |
| the windows opened are the chain's, none twice, for any order of logs and marks | before each aggregated log is handed over its window is not flushed yet, and it is a log of the window's first block or one of these came before (`Placement.ProperIffInPlace`; for the logs that come live before a replay `Lifecycle.EarlyLogsIff`; a run in `Batching.EarlyLogSplitsWindow`) |
| a window sent before a crash is not sent again | its mark was handled by the time of the last snapshot, or no later process gets as far (`Restart.SentAgainIff`; a run in `Lifecycle.SentTwice`) |
| a completed connection leaves no gap | no log lies above its head and at or below the head of a catch-up it replaced (`HandOver.GapFreeHandOver`) |
| the stored checkpoint never goes back | it does at the first checkpoint of a process that replays nothing, exactly when the store was above the head minus one already or a live head above that was handed over while the answer was awaited (`Supervisor.ModuleRuntimeSupervisor.EstablishInitialCheckpoint`; a run in `Supervisor.LoweredCheckpoint`); marks never lower it |
| no flush discards a log that it did not send | for every log stored, the flush that is the next to discard its record has the log in its snapshot (`Conservation.CleanIff`); as a check before each event, when flushes follow one another and get through: the event is not a new log of a record still to be discarded (`Conservation.CleanIffQuiet`; a run that loses a log in `Interleavings.LateEventIsLost`) |
| connecting through the liveness check returns with an active endpoint | no other task invalidated that connection during the check (`Generations.AliveReturnIff`; a run in `Generations.ReturnsWithoutEndpoint` reaches the caller's failing assertion) |
| the end of a disconnect leaves a newly opened connection alone | its endpoint was not still disconnecting when it was opened (`Generations.SeveredIff`) |
| joining the chunks gives the text back | the text fits in one chunk, or every line fits and no blank line falls on the start of a chunk (`ChunkText.RoundTripIff`) |

Two more facts are about functions rather than about the program, which never calls them so: the due boundary
of a schedule with an offset (`Jobs.LatestIsDueIff`; the configuration accepts UTC times only) and a chat
migration onto itself (`FollowIndex.MigrateKeepsIff`; such a message is not sent).

## Model

| member | source | states |
|---|---|---|
| `Events.IdentityMeans` | sentinel/models.py:29-35 | two logs are the same occurrence exactly when transaction, log index and address agree, the address in any casing |
| `Events.EventLeqMeans` | sentinel/web3_event_log_reader.py:131-134 | chain order is by block, transaction and log index, and only logs at the same place tie |
| `Sorting.SortSorts` | sentinel/rpc.py:357 | sorting puts a list in order for any total preorder |
| `Sorting.SortedUnique` | sentinel/services/aggregation.py:99-108 | a sorted list without ties is determined by its elements, so the flush order does not depend on storage order |
| `Sorting.SortConcat` | sentinel/services/aggregation.py:99-108 | sorting consecutive stretches separately gives the sort of the whole |
| `Windows.KeyMeans` | sentinel/modules/aggregation.py:108-112 | two events have the same key exactly when the aggregator keys all alike or they are of the same operator |
| `Windows.OpenMeans` | sentinel/modules/aggregation.py:114-121 | a window opened for an event spans as many blocks as its group says, from the event's own on, and is empty |
| `Windows.FirstMatch` | sentinel/app/storage.py:335-348 | the first record of the group and key whose blocks cover the block; none only if no record does |
| `Windows.RouteOf` | sentinel/services/aggregation.py:39-46 | the aggregator that takes an event name, none only if no registered one does |
| `Windows.LaterRouteWins` | sentinel/services/aggregation.py:41-46 | of several aggregators registered for one event name the last one gets it |
| `Windows.KnownMeans` | sentinel/services/aggregation.py:108-124 | a window still belongs to a registered group exactly when one of that name is registered, as for every window an event opens |
| `Windows.WindowLeqIsPreorder` | sentinel/services/aggregation.py:99-108 | the flush key is a total preorder |
| `Windows.WindowLeqTies` | sentinel/services/aggregation.py:99-108 | only records with the same storage key tie in the flush order |
| `Partition.OnEventIsAddTo` | sentinel/services/aggregation.py:65-81 | lookup followed by upsert joins the first window that fits or opens one, and never overwrites another record |
| `Partition.AddToSettled` | sentinel/services/aggregation.py:65-81 | every event stays in the first window, in store order, that fits it |
| `Partition.RedeliveryIsNoOp` | sentinel/modules/aggregation.py:70-76 | handing over a log of the same identity, block, aggregator and key again, whatever else differs, leaves the store unchanged while its window is pending, overlapping windows included |
| `Partition.WindowsShareNoEvent` | sentinel/app/storage.py:335-348 | no event is in two pending windows |
| `Partition.SlotsUnique` | sentinel/app/storage.py:432-443 | storage keys of pending windows are distinct |
| `Partition.FlushInSteps` | sentinel/services/aggregation.py:98-147 | flushing up to m and then up to b gives, in order, what one flush up to b gives |
| `Batching.GreedySnoc` | sentinel/services/aggregation.py:65-81 | appending the next event to the greedy partition is exactly one store step |
| `Batching.RunIsGreedyPartition` | sentinel/services/aggregation.py:55-164 | in every admissible run of events and block marks the flushed windows are the greedy partition up to the checkpoint in flush order, the pending ones the rest of it; `Interleavings.AheadIsAtomic` says when a flush with awaits is such a mark |
| `Batching.BatchingIndependence` | sentinel/services/aggregation.py:55-164 | two placements of block marks over the same events with the same last mark flush the identical windows in the same order and leave the same ones pending |
| `Batching.PendingAboveCheckpoint` | sentinel/services/subscription.py:61-70 | in a forward run no pending window ends at or below the checkpoint, and every aggregated event above it is pending |
| `Batching.EarlyLogSplitsWindow` | sentinel/rpc.py:319-330 | a log handed over live before its window's earlier logs are replayed gets a window of its own, in a group of several blocks |
| `ChainWindows.GreedyIsDeclared` | sentinel/services/aggregation.py:65-81 | cutting block-ordered events greedily gives exactly the windows told by block numbers alone: one opens at each block with an event of its key that the last one does not reach, and each holds exactly its events |
| `ChainWindows.EventHasWindow` | sentinel/modules/aggregation.py:108-121 | every event above the base lies in the last window of its key that opened at or before it |
| `Placement.InPlaceIsDeclared` | sentinel/services/aggregation.py:55-164 | in any order of logs that pass the check, with marks anywhere: what was flushed is exactly the windows the chain declares up to the checkpoint, each with exactly its logs, once, in flush order; what is pending is exactly the open ones with exactly what came |
| `Placement.ProperIffInPlace` | sentinel/services/aggregation.py:65-81 | over all runs of chain logs: every window opened starts where the chain declares one and none is opened twice, if and only if each log passed the check |
| `Placement.OneBlockWindows` | sentinel/modules/aggregation.py:32-61 | with windows of one block the check is only that the log lies above the checkpoint |
| `Placement.HomeIs` | sentinel/modules/aggregation.py:70-71 | the window that the check speaks of is the one declared window of the log's key that contains its block |
| `Restart.SnapshotSound` | sentinel/services/subscription.py:266-281 | every snapshot of any number of lives is again a history of chain logs in their places, so the next life goes on from it |
| `Restart.SentIsDeclared` | sentinel/services/aggregation.py:98-164 | whatever a life sends by any moment, what a crash forgets included, it sends once, in flush order, and it is a window the chain declares with exactly its logs |
| `Restart.SendsExactly` | sentinel/services/subscription.py:61-70 | at any moment a life has sent exactly the declared windows that end above the checkpoint it found and at or below the one it has |
| `Restart.DeclaredIsSent` | sentinel/services/subscription.py:266-299 | once any life has got as far as its end, every declared window has been sent |
| `Restart.SentAgainIff` | sentinel/services/subscription.py:266-299 | a window sent is sent again exactly when its mark came after the last snapshot of its life and a later life gets as far again |
| `Restart.NothingToResume` | sentinel/services/aggregation.py:62-63 | no window of a snapshot is due, so the flush with which a process begins sends nothing |
| `Restart.RestIsPending` | sentinel/services/aggregation.py:65-81 | every aggregated log in a snapshot's history is in one of its windows or in one flushed |
| `Restart.FlushedWasSent` | sentinel/services/aggregation.py:109-164 | and every window flushed in a snapshot's history was really sent, by one of the lives or before |
| `Flows.AddToRecord` | sentinel/app/storage.py:325-348 | storing an event puts it into the record of its group, key and blocks and changes no other record |
| `Flows.DiscardRecord` | sentinel/app/storage.py:329-333 | a discard takes the record of its storage key, whatever that holds by now |
| `Flows.AlwaysSound` | sentinel/services/aggregation.py:65-164 | the store is well-formed after any steps of any number of tasks, interleaved and failing flushes included |
| `Conservation.NothingLost` | sentinel/services/aggregation.py:65-164 | in a run in which no flush discards what it did not send, every log handed to an aggregator is in a pending window or in one whose notifications were all sent, at every moment |
| `Conservation.NothingInvented` | sentinel/services/aggregation.py:65-164 | in any run, whatever is stored, sent or in a snapshot was handed over |
| `Conservation.EventsAreConserved` | sentinel/services/aggregation.py:65-164 | so in such a run a log was routed to an aggregator exactly when it is in a pending window or in a sent one |
| `Conservation.CleanIff` | sentinel/services/aggregation.py:98-164 | over all runs of any number of tasks: exactly when no flush discards a log that it did not send |
| `Conservation.QuietRunsAreClean` | sentinel/services/aggregation.py:98-164 | none does, however many flushes are in progress, as long as no event joins as a new log a record that one of them has still to discard |
| `Conservation.CleanIffQuiet` | sentinel/services/aggregation.py:98-164 | when flushes follow one another and all get through, that condition is exact |
| `Conservation.OnePendingWindowPerLog` | sentinel/app/storage.py:325-348 | no log identity sits in two pending windows, even when late events made windows overlap and the log is decoded differently each time |
| `Conservation.RedeliveryChangesNothing` | sentinel/services/aggregation.py:70-81 | in any history, with any flushes in progress, redelivering a log of a pending window changes nothing |
| `Interleavings.ReadyIsCut` | sentinel/services/aggregation.py:98-108 | discarding everything ready leaves exactly the windows that end after the block |
| `Interleavings.AheadIsAtomic` | sentinel/services/aggregation.py:98-164 | a flush during which only events above its block come in is an atomic flush followed by these events |
| `Interleavings.AheadDoesNotIntrude` | sentinel/services/aggregation.py:70-81 | an event above every window still to be sent joins none of their records |
| `Interleavings.AloneIsAtomic` | sentinel/app/telegram_adapters.py:27-28 | a flush without steps of other tasks, as with a sink that never suspends, discards nothing unsent and is the atomic step |
| `Interleavings.LateEventIsLost` | sentinel/services/aggregation.py:109-164 | with a sink that suspends: a run in which an event joins a window while that window is being sent, and is discarded with it unsent |
| `Coordinator.AggregationWindowStore.PendingFor` | sentinel/app/storage.py:335-348 | the loop finds the first matching record |
| `Coordinator.AggregationCoordinator.Prepare` | sentinel/services/aggregation.py:65-96 | an unrouted event becomes its own notification; a routed one changes the store by exactly the store step |
| `Coordinator.AggregationCoordinator.EmitAll` | sentinel/services/aggregation.py:160-164 | notifications go out in order until the sink raises, and at each await the turn of the other tasks passes, the raising one included |
| `Coordinator.AggregationCoordinator.HandleEvent` | sentinel/services/aggregation.py:55-57 | the whole new state, what other tasks did meanwhile, and when the sink raises |
| `Coordinator.AggregationCoordinator.FlushWindow` | sentinel/services/aggregation.py:109-164 | exactly the aggregator's notifications for the window go out, once each, or none when its group is no longer registered; a record goes only when all went out, one turn of other tasks passing for each, and stays when the sink raised |
| `Coordinator.AggregationCoordinator.FlushReadyWindows` | sentinel/services/aggregation.py:98-147 | the known windows of the snapshot, exactly those that end by the block, go out in flush order, what is sent being the notifications of each, one window after the other, with what other tasks store in between; where the sink raises, those before are gone and wholly sent, all others are still stored |
| `Coordinator.AggregationCoordinator.HandleBlock` | sentinel/services/aggregation.py:59-60 | what goes out is the aggregators' notifications for the windows flushed, window by window in flush order; these are exactly the stored ones of registered groups that end at or below the block; unless events at or below the block came in meanwhile it is the atomic flush step followed by the events that came |
| `Runtime.ModuleRuntime.HandleEvent` | sentinel/services/subscription.py:44-59 | the side effects first, which may raise; then the log goes to the digest, to a window or straight out, and where it went is remembered |
| `Runtime.ModuleRuntime.HandledIsKept` | sentinel/services/subscription.py:44-66 | unless a flush was disturbed, every log handled is stored for or sent in a digest, in a pending window, in a sent one, or went out on its own |
| `Runtime.ModuleRuntime.HandleBlock` | sentinel/services/subscription.py:61-70 | the checkpoint never goes back and moves only when every ready window went out; undisturbed, the flush is the atomic step |
| `Runtime.ModuleRuntime.ResumePending` | sentinel/services/aggregation.py:62-63 | what was ready at the last shutdown is flushed |
| `Runtime.ModuleRuntime.FlushDigest` | sentinel/services/subscription.py:173-174 | after a digest nothing taken before and processed is still stored, and nothing handled is lost |
| `Aggregators.GroupByPartitions` | sentinel/modules/aggregation.py:303-307 | dictionary grouping puts every event in the bucket of its key, each bucket in order and complete, keys distinct |
| `Aggregators.AggregateOperators` | sentinel/modules/aggregation.py:123-137 | one notification per event name and operator with exactly that operator's events in chain order, sorted by name and operator; sources of one notification have the same name and operator id, those of two do not, every pair that occurs is there, and each event is there as often as in the window |
| `Aggregators.OperatorEventOnce` | sentinel/modules/aggregation.py:123-137 | every relevant event is in exactly one notification |
| `Aggregators.AggregateGlobal` | sentinel/modules/aggregation.py:157-166 | one notification with everything relevant in chain order, each event as often as in the window, none if nothing is |
| `Aggregators.LastInfoEvent` | sentinel/modules/aggregation.py:310-314 | the backward search finds the last created or updated event |
| `Aggregators.NotificationForGroup` | sentinel/modules/aggregation.py:262-284 | for a group's own events there is always a notification, and it is the merged one |
| `Aggregators.MergedMeaning` | sentinel/modules/aggregation.py:262-284 | the primary event is the last event, named cleared exactly when it is, created exactly when the group was created and never cleared, else updated; at most one event is made up, with the same identity and arguments |
| `Aggregators.AggregateGroups` | sentinel/modules/aggregation.py:243-260 | exactly one notification per group id, ordered by primary event: sources of one have the same group id, those of two have different ones, and each has every event of its group as often as the window, in chain order; only the last of them may come again under the final name, which is cleared exactly when that event is, and created exactly when the group was created and never cleared |
| `Aggregators.GroupEventOnce` | sentinel/modules/aggregation.py:243-260 | every relevant event is in exactly one notification |
| `Reporting.NotesKeepEvents` | sentinel/modules/aggregation.py:123-284 | with each of the three aggregators every event of a window under its own names is among the sources of one of the window's notifications |
| `Reporting.EveryLogReported` | sentinel/services/aggregation.py:109-164 | every log that was routed since the process started, unless a flush was disturbed, is in a pending window or among the sources of a notification that went out |
| `Reporting.HandledIsReported` | sentinel/services/subscription.py:44-66 | the same for the consumer as a whole, with the digest and with logs that go out on their own |
| `Digests.StoredIsTidy` | sentinel/app/storage.py:471-477 | what `replace` stores is chain-sorted, has one event per identity, and exactly the last one given |
| `Digests.DigestStore.Append` | sentinel/app/storage.py:458-459 | the stored list gains the event in place of any of the same identity |
| `Digests.DigestStore.Discard` | sentinel/app/storage.py:464-469 | exactly the events without a discarded identity stay |
| `Digests.Digest.HandleEvent` | sentinel/services/digest.py:36-41 | only the digest's own event is taken, and then it is stored |
| `Digests.Digest.FlushThrough` | sentinel/services/digest.py:43-60 | exactly what is stored at or below the block goes into one digest in chain order, and nothing happens exactly when all of it lies above; a failed emit removes nothing; with appends during the emit every identity ever taken is stored or was sent, and what lies above the block stays |
| `Feed.PassingMembers` | sentinel/rpc.py:319-343 | exactly the live items above the threshold pass it |
| `Feed.PassedIsPassing` | sentinel/rpc.py:319-343 | of the items that come in before a shutdown a threshold lets exactly those above it through and changes nothing else |
| `Feed.AllBatches` | sentinel/rpc.py:211-236 | the first batches are a prefix of the replay, and all of it when there are as many as it has |
| `Feed.ItemLeqMeans` | sentinel/rpc.py:33-36 | the buffer's sort puts a lower block first, and within a block the logs, in chain order, before the mark |
| `Feed.ItemLeqIsPreorder` | sentinel/rpc.py:33-36 | the buffer's sort key is a total preorder |
| `Coverage.NothingLateMarksCover` | sentinel/rpc.py:332-343 | when no log comes after a mark that claims it, and what marks claim does come, every mark comes after the logs it claims |
| `Coverage.DrainedIsPermutation` | sentinel/rpc.py:345-364 | draining hands over every buffered item exactly once |
| `Coverage.DrainedMarksCover` | sentinel/rpc.py:345-364 | draining in rounds while more arrives never hands over a mark before a log it claims that came before it, whatever the order of the logs |
| `Coverage.DrainedGapless` | sentinel/rpc.py:345-364 | draining keeps a feed that brings the chain block by block without a gap so |
| `Coverage.SortRepairsOrder` | sentinel/rpc.py:33-36 | one sort of the buffer puts logs that came in any order block by block, without a gap and before the marks that claim them |
| `Coverage.ReplayedGapless` | sentinel/rpc.py:200-238 | a replay hands over its whole range without a gap, marks no block before its logs and none above its end, for any batch size |
| `Coverage.PartialReplay` | sentinel/rpc.py:211-238 | what a replay that stopped anywhere has covered: everything up to its last mark |
| `Coverage.CheckpointClaims` | sentinel/services/subscription.py:68-70 | what the checkpoint claims above where it started was handed over |
| `Subscriptions.Subscription.EmitSubscriptionItem` | sentinel/rpc.py:319-343 | a live item is dropped, buffered or handed over, and which one |
| `Subscriptions.Subscription.TakeTurn` | sentinel/rpc.py:319-343 | of what happens at one await exactly what gets past the threshold before a shutdown is buffered or handed over, in order |
| `Subscriptions.Subscription.ReplayBatch` | sentinel/rpc.py:226-236 | a batch hands over its logs and then the mark of its last block; a shutdown leaves a prefix |
| `Subscriptions.Subscription.ReplayRange` | sentinel/rpc.py:200-242 | the replay hands over the whole range batch by batch exactly when the provider answers for each, and otherwise exactly the batches before the failure; a shutdown leaves a prefix |
| `Subscriptions.Subscription.FlushBuffered` | sentinel/rpc.py:345-364 | the drain loop ends, empties the buffer, and hands over in sorted rounds exactly what got past the threshold in the turns since the replay began, once each; a shutdown leaves a prefix |
| `Subscriptions.Subscription.ReplayBlocks` | sentinel/rpc.py:175-198 | for every interleaving: the replayed range first, then exactly what got past the threshold in the turns taken since, and the buffer is gone; after a failure nothing buffered is handed over |
| `HandOver.TimesReplayed` | sentinel/rpc.py:211-236 | a replay hands over each log of its range as often as the chain has it, for any batch size |
| `HandOver.Connect` | sentinel/app/bootstrap.py:312-330 | subscribing, reading a head, replaying up to it and going on live hands over, in this order, what came before the replay, the range, the drained buffer and what came after, all read off the plan; without a shutdown it gets through exactly when the provider answers as often as it takes, and otherwise hands over exactly the batches fetched before the failure |
| `HandOver.StayLive` | sentinel/rpc.py:319-343 | after a completed replay every item of the remaining turns that gets past the threshold before a shutdown is handed over at once |
| `HandOver.HandOverCounts` | sentinel/rpc.py:175-236 | the exact number of times each log is handed over on a connection that got through |
| `HandOver.GapFreeHandOver` | sentinel/app/bootstrap.py:312-330 | such a connection hands over every log from the start block on, above the head once, at or below it twice exactly if it came live before the threshold was set; except, exactly, logs above its head up to the head of a catch-up it replaced |
| `Supervisor.RetryCoversIff` | sentinel/services/subscription.py:330-345 | a retry from checkpoint + 1 covers every chain exactly when the checkpoint is not past the last completed block |
| `Supervisor.BackfillResumes` | sentinel/app/bootstrap.py:48-58 | without a configured block the backfill begins right above the stored checkpoint, no block between; without a checkpoint there is none; a configured block is taken as it is |
| `Supervisor.CatchUpSurvivesFailuresIff` | sentinel/app/bootstrap.py:48-58 | over all chains and all points of failure: exactly when the first catch-up of a process still covers its range after a failed attempt |
| `Supervisor.ModuleRuntimeSupervisor.EstablishInitialCheckpoint` | sentinel/services/subscription.py:307-311 | the head minus one is written over whatever the store holds, and exactly when that lowers the checkpoint |
| `Supervisor.LoweredCheckpoint` | sentinel/services/subscription.py:307-311 | a run of the method in which it does |
| `Supervisor.ModuleRuntimeSupervisor.TryReplay` | sentinel/services/subscription.py:320-330 | one attempt of the retry loop: what comes in while the head is read goes out, then the replay |
| `Supervisor.ModuleRuntimeSupervisor.CatchUpFrom` | sentinel/services/subscription.py:313-346 | with any failures and arrivals: the first attempt begins at the start block whatever the checkpoint and hands over a prefix of its range, each later one begins above the checkpoint the one before left, and the last one its whole range; so a catch-up that gets through at once has handed over every log from the start block; with failures it has too when the start was above the checkpoint and no head comes in the turns that head reads and pauses can take |
| `Reconnect.OneConnection` | sentinel/services/subscription.py:283-299 | wherever a connection ends, what the checkpoint then claims above where it was has been handed over |
| `Reconnect.ReconnectsCover` | sentinel/services/subscription.py:266-299 | over any number of lost connections and partial replays, everything above the persisted and up to the present checkpoint was handed over |
| `Reconnect.Serve` | sentinel/services/subscription.py:193-281 | the loop over connections, each from checkpoint + 1 and each following its own plan: with calm plans everything the checkpoint claims was handed over |
| `Reconnect.EarlyHeadLosesLog` | sentinel/rpc.py:332-343 | a run of the loop over connections in which one head, delivered before the replay buffers, and a provider that then fails lose a log |
| `Reconnect.StreamGapless` | sentinel/rpc.py:345-364 | a connection whose feed comes block by block hands it over so |
| `Arrivals.DrainedTimely` | sentinel/rpc.py:345-364 | draining in rounds puts no log after a mark that claims it and came before it |
| `Arrivals.LiveInOrder` | sentinel/rpc.py:345-364 | the buffer keeps each key in block order, live items after it included |
| `Arrivals.OrderlyInPlace` | sentinel/services/aggregation.py:65-81 | such a stretch, handed over after any sound history, passes the check log by log |
| `Lifecycle.SessionsAreLives` | sentinel/services/subscription.py:266-299 | sessions that resume at checkpoint + 1, with fitting feeds and wherever each ends, are lives that go on soundly, whatever snapshot each leaves |
| `Lifecycle.EarlyLogsIff` | sentinel/rpc.py:319-330 | wherever a session ends: its windows are the chain's, none opened twice, if and only if the logs that came live before its replay passed the check |
| `Lifecycle.AnyOrderFits` | sentinel/modules/aggregation.py:32-61 | with windows of one block every feed whose marks come after the logs they claim, and whose logs come above the checkpoint, is fitting, in any order and before the replay too |
| `Lifecycle.GaplessFits` | sentinel/rpc.py:319-343 | in any groups, so is a feed that brings the chain block by block, in any order within a block |
| `Lifecycle.SocketToWindows` | sentinel/services/subscription.py:44-70 | for any number of sessions with any snapshots, any batch sizes, and live logs before the replay as well as during and after it: each session sends exactly the windows the chain declares between the checkpoint it found and the one it reached, each with exactly its logs, once and in flush order, and no window that is due by then has been left out |
| `Lifecycle.FromCheckpoint` | sentinel/app/bootstrap.py:48-58 | from a bare checkpoint, every window declared above it and due by the checkpoint of a session has been sent |
| `Lifecycle.SentTwice` | sentinel/services/subscription.py:266-281 | a run of two sessions in which the first dies with nothing persisted and both send the same window |
| `Resume.DigestSentIs` | sentinel/services/digest.py:43-60 | a digest is sent exactly when something stored is at or below the checkpoint, holds exactly that in chain order, and what lies above stays stored |
| `Resume.ActKeeps` | sentinel/services/subscription.py:44-70 | no act of the program, a step of any task's flush included, takes a log from where it belongs, unless a flush discards what it did not send |
| `Resume.CrashKeeps` | sentinel/app/storage.py:447-477 | nor does a crash take any log from what its snapshot had, since what was sent stays sent |
| `Resume.ResumeLosesNothing` | sentinel/services/subscription.py:266-299 | however often the process dies and whichever step its snapshots were taken at: at every step every chain log at or below the checkpoint was sent on its own, is in the digest or one sent, or is in a pending window or one wholly sent, in any order of logs and with live logs before the replay, and the checkpoint does not go back within a process |
| `Resume.FoundNeverBack` | sentinel/services/subscription.py:68-70 | over any number of crashes the checkpoint a process finds never lies below one found before |
| `Resume.PromptRun` | sentinel/app/telegram_adapters.py:27-28 | with a sink that never suspends, handling any items discards nothing unsent and leaves exactly the book of the atomic run |
| `Outbox.OutboxIs` | sentinel/services/aggregation.py:98-164 | over any number of crashes the windows really sent are those of each life, one life after the other and nothing taken back, and each snapshot has the windows of its history |
| `Pool.ApplyMeans` | sentinel/rpc_provider.py:279-307 | a step of a role touches its own endpoint only: a failure cools it for exactly one cooldown, a success makes it the preferred one unless it cools |
| `Pool.CooldownsOnlyExtend` | sentinel/rpc_provider.py:279-307 | under any roles' steps with a clock that never goes back, no cooldown moves earlier |
| `Pool.FailureWhileOpening` | sentinel/rpc_provider.py:283-290 | a failure recorded while another role is still opening the endpoint stands, whatever happens in between: that role's success neither lifts the cooldown nor makes the endpoint preferred |
| `Pool.SecondFailureCools` | sentinel/rpc_provider.py:292-307 | one broken stream does not cool an endpoint, a second one does exactly within a cooldown of the first |
| `Pool.RpcEndpointPool.AvailableList` | sentinel/rpc_provider.py:256-274 | exactly the endpoints neither cooling nor excluded, in configured order with the preferred one first |
| `Pool.RpcEndpointPool.Soonest` | sentinel/rpc_provider.py:276-277 | the earliest end of a cooldown among the eligible endpoints |
| `Pool.CandidatesFit` | sentinel/rpc_provider.py:271-274 | the first candidate is the preferred endpoint if it is available, else the first one that is |
| `Pool.RpcEndpointPool.Candidates` | sentinel/rpc_provider.py:256-277 | nothing becomes available before the returned wait, something is available after it, and there is no wait only when everything is excluded |
| `Failover.FallbackRequestProvider.TryOne` | sentinel/rpc_provider.py:427-456 | a success is the active endpoint of the next generation, and preferred unless it cools; a failure cools the endpoint |
| `Failover.FallbackRequestProvider.TryCandidates` | sentinel/rpc_provider.py:427-456 | candidates are opened in order, each attempt ending as the next opening outcome says, up to the first that succeeds; all those before it are cooling |
| `Failover.FallbackRequestProvider.Turn` | sentinel/rpc_provider.py:414-458 | a turn is refused exactly when every endpoint is excluded, sleeps exactly when nothing is available, and otherwise starts with the first choice; nothing that cools is opened; after a failing pass every endpoint was opened in vain, cools or is excluded |
| `Failover.FallbackRequestProvider.ConnectRounds` | sentinel/rpc_provider.py:413-463 | k rounds open at most k times n endpoints, none of them excluded, whatever other roles do meanwhile; every attempt but the last failed; it gives up only after k failing rounds that left no endpoint free, or exactly when every endpoint is excluded |
| `Failover.FallbackRequestProvider.Connect` | sentinel/rpc_provider.py:390-463 | a live endpoint that is not excluded is kept and nothing is opened; otherwise it ends with the endpoint opened last, of the next generation and not excluded, or with none |
| `Failover.FallbackRequestProvider.SleepUntil` | sentinel/rpc_provider.py:422-423 | after the sleep something is available unless another role recorded a failure meanwhile |
| `Failover.FallbackRequestProvider.InvalidateEndpoint` | sentinel/rpc_provider.py:476-496 | only the endpoint and generation that the failed call used may be dropped, and with a cooldown it then cools |
| `Failover.FallbackRequestProvider.AfterFailure` | sentinel/rpc_provider.py:605-634 | how a failure moves the rejected and retried sets; the connection is dropped, and after a second transport failure the endpoint cools |
| `Failover.FallbackRequestProvider.Attempt` | sentinel/rpc_provider.py:591-640 | one turn of the loop calls the operation exactly once, unless connecting gave up: then every attempt since the last call was in vain and no endpoint is left free; the call ends the request as explained or uses up the measure |
| `Failover.FallbackRequestProvider.ExecuteRequest` | sentinel/rpc_provider.py:581-640 | it ends after at most 2n calls; call k ends as outcome k says and goes over the connection there was or over the endpoint opened right before, and an opening succeeds exactly when a call goes over it; with a result exactly when a call was answered; with an all-lost error only when every endpoint is lost; unavailable only when every opening since the last call failed and each endpoint not lost was among them or cools, so never when openings succeed; the error lists the rejecters in order |
| `Failover.TrackedStep` | sentinel/rpc_provider.py:605-640 | every call uses up the measure 2n minus both sets |
| `Failover.Verdict` | sentinel/rpc_provider.py:598-640 | one more call ends the request as explained, or leaves less of the measure |
| `Failover.AtMostTwoCalls` | sentinel/rpc_provider.py:581-640 | at most two calls per endpoint, the second only after a transport failure; lost exactly when it rejected or failed twice |
| `Failover.RejectersDistinct` | sentinel/rpc_provider.py:619-640 | the endpoints named by the all-rejected error are distinct |
| `Generations.StepMeans` | sentinel/rpc_provider.py:390-496 | which steps drop and close the connection, which opens the next generation, and where the lock holder then waits |
| `Generations.EveryRunGuarded` | sentinel/rpc_provider.py:390-496 | under any interleaving generations never go back and the closed connections are exactly all but the live one, each closed once, oldest first |
| `Generations.InvalidationHitsItsOwnGeneration` | sentinel/rpc_provider.py:476-496 | an invalidation closes the connection of the generation it carries or nothing, and never a later one |
| `Generations.InvalidatedOnce` | sentinel/rpc_provider.py:485-496 | a second failure of the same connection finds nothing to close |
| `Generations.NothingSevered` | sentinel/rpc_provider.py:476-500 | in any run in which no endpoint is opened while its transport still disconnects, the end of a disconnect never cuts a later connection |
| `Generations.SeveredIff` | sentinel/rpc_provider.py:656-660 | a connection just opened can be cut by the end of an earlier disconnect exactly when its endpoint was still disconnecting |
| `Generations.AliveReturnIff` | sentinel/rpc_provider.py:400-411 | the "still connected" return leaves an active endpoint exactly when nobody invalidated it during the check |
| `Generations.ReturnsWithoutEndpoint` | sentinel/rpc_provider.py:591-596 | a run in which a request returns from connecting without an endpoint |
| `Lease.EveryRunKept` | sentinel/chain.py:17-74 | in every run one task at most is inside, depth is the number of its unmatched entries, the lease is held just as long, no reader is let in after close, nobody is inside at a disconnect and nobody enters after it |
| `Lease.CloserWaitsForReader` | sentinel/chain.py:44-74 | the closer gets the lock exactly when the reader has exited as often as it entered; until then the reader may re-enter |
| `Lease.SharedChainConnection.EnterBegin` | sentinel/chain.py:17-27 | the owner is let in at once even after close, others are refused after close or wait |
| `Lease.SharedChainConnection.EnterGranted` | sentinel/chain.py:28-33 | a reader that finds the connection closed gives the lock back |
| `Lease.SharedChainConnection.EnterEnd` | sentinel/chain.py:34-42 | a connection leaves the task inside, once; a failed attempt gives the lease back |
| `Lease.SharedChainConnection.Leave` | sentinel/chain.py:44-59 | exit succeeds exactly for a task inside and releases the lease exactly at its last exit |
| `Lease.SharedChainConnection.CloseBegin` | sentinel/chain.py:61-69 | close is refused exactly to a task inside |
| `Lease.SharedChainConnection.CloseGranted` | sentinel/chain.py:69-70 | nobody is inside when the closer has the lock |
| `Lease.SharedChainConnection.CloseFinish` | sentinel/chain.py:70-74 | the lock is given back however closing ends, and a disconnect is recorded only with nobody inside |
| `LogReader.OnePassMeans` | sentinel/web3_event_log_reader.py:107-129 | what is kept of the chain: exactly the logs of the range of some source's contract, with a known topic, a wanted name and passing its predicate, under the name of their topic |
| `LogReader.TakenSplit` | sentinel/web3_event_log_reader.py:101-129 | two consecutive ranges of one source give what their union gives |
| `LogReader.SortedIsOnePass` | sentinel/web3_event_log_reader.py:131-134 | what was collected source by source, sorted, is one pass over the chain |
| `LogReader.BatchSizeDoesNotMatter` | sentinel/rpc.py:210-229 | fetching consecutive ranges in turn gives the whole range, however it is cut |
| `LogReader.OnePassIsInRange` | sentinel/rpc.py:222-229 | the batches fetched are the ranges of the wanted logs that the replay model works with |
| `LogReader.Web3EventLogReader.BlockRanges` | sentinel/web3_event_log_reader.py:151-154 | consecutive ranges from start to end, all but the last of exactly the batch size |
| `LogReader.Web3EventLogReader.GetLogs` | sentinel/web3_event_log_reader.py:136-170 | the provider's answer, with requests at least the interval apart |
| `LogReader.Web3EventLogReader.FetchSource` | sentinel/web3_event_log_reader.py:99-129 | one source adds exactly its wanted logs of the range, or is refused when no known topic has its names |
| `LogReader.Web3EventLogReader.FetchEvents` | sentinel/web3_event_log_reader.py:88-134 | unless stopped, exactly the wanted logs of the range in chain order for any batch size and sources; refused exactly when a source names events that no topic has |
| `FollowIndex.CountedMeans` | sentinel/app/storage.py:188-192 | joining and leaving change whether that chat is active, as that kind, and nothing else |
| `FollowIndex.EveryRunAgrees` | sentinel/app/storage.py:229-305 | over all runs of follow, unfollow, migration and membership changes, a chat is in an operator's set exactly when the operator is in the chat's |
| `FollowIndex.MigrateMoves` | sentinel/handlers/tracking.py:12-66 | the new chat follows what either followed, nothing mentions the old one, everyone else is unaffected |
| `FollowIndex.MigrateTwice` | sentinel/handlers/tracking.py:36-66 | the second announcement of a migration changes nothing |
| `FollowIndex.MigrateKeepsIff` | sentinel/handlers/tracking.py:12-33 | when a migration keeps the agreement |
| `FollowIndex.BotStorage.FollowMessage` | sentinel/handlers/start.py:328-332 | the chat follows every named operator besides what it did, both indexes agree, and no other chat changes |
| `FollowIndex.BotStorage.UnfollowMessage` | sentinel/handlers/start.py:425-437 | nothing happens unless every named operator is followed; then the chat follows none of them, both indexes agree, and no other chat changes |
| `FollowIndex.BotStorage.ChatMigration` | sentinel/handlers/tracking.py:36-66 | the loops compute the migration function, keep the agreement and leave no trace of the old id |
| `FollowIndex.BotStorage.MigrateSubscriptions` | sentinel/handlers/tracking.py:12-33 | chat data is moved, or merged into existing data |
| `FollowIndex.BotStorage.MigrateOperatorSets` | sentinel/app/storage.py:288-305 | the old id is replaced in every operator's set that has it |
| `FollowIndex.BotStorage.DeliverPerChat` | sentinel/app/telegram_adapters.py:102-118 | each active chat that follows one of the operators is rendered once, for exactly the operators it follows |
| `FollowIndex.BotStorage.BroadcastTargets` | sentinel/app/telegram_adapters.py:71-86 | every active chat, or exactly those that follow one of the operators |
| `Jobs.LatestIsTheDueBoundary` | sentinel/jobs.py:205-212 | for a UTC schedule it is the one boundary that is due and less than a day old |
| `Jobs.LatestIsDueIff` | sentinel/jobs.py:205-212 | for a schedule in another zone, exactly when it is the due boundary |
| `Jobs.EveryRunOrderly` | sentinel/jobs.py:76-133 | with failing flushes and a clock that jumps, the marker never goes back and no boundary is flushed twice |
| `Jobs.MarkerIsEarned` | sentinel/jobs.py:76-133 | the marker is set only by a successful flush or by a start with nothing pending |
| `Jobs.OncePerBoundary` | sentinel/jobs.py:108-133 | after a successful flush nothing is flushed or recovered until the next boundary, clock set back included |
| `Jobs.JobContext.Schedule` | sentinel/jobs.py:76-93 | with the boundary due: recovery is queued exactly when the marker is older, or missing with something pending; without both the marker is set to it |
| `Jobs.JobContext.FlushDepositDigest` | sentinel/jobs.py:108-133 | a covered boundary sends nothing; otherwise exactly what is stored up to the processed block is sent before the marker moves to the boundary due, and a failed emit leaves it |
| `ChunkText.SplitJoin` | sentinel/utils.py:39 | splitting into lines and joining them are inverse |
| `ChunkText.ChunksKeep` | sentinel/utils.py:26-60 | every chunk is within the limit and the other characters than newlines all come through in order |
| `ChunkText.ChunksTight` | sentinel/utils.py:26-60 | no chunk ends before it has to: the first line of the next one would not have fitted |
| `ChunkText.RoundTripIff` | sentinel/utils.py:26-60 | when joining the chunks gives the text back |
| `ChunkText.PlainLinesAreFaithful` | sentinel/utils.py:26-60 | it does when no line is blank or over the limit |
| `ChunkText.ChunkText` | sentinel/utils.py:26-60 | the loops compute the chunks, for any limit of at least one, with all of the above |

## Left out

- Two replays at once on one `Subscription`: the supervisor avoids them; a replay starts with no buffer and so restores none.
- `Subscriptions.Subscription.Emit`: there is one consumer, and one that raises in the middle of a replay is not modelled; `Coordinator.AggregationCoordinator.FlushReadyWindows` says what a raising sink leaves behind.
- `Supervisor.ModuleRuntimeSupervisor.CatchUpFrom`: the replacement of the runtime object during a catch-up is not in the loop; the reconnect that follows is a further connection in `Reconnect`.
- `HandOver.Connect`: how far a connection gets that was shut down is stated as a prefix, not turn by turn.
- `Lifecycle.SocketToWindows`: a process that is killed within a flush has sent some of its windows and not others, and a snapshot lies between two items, as with the program's own sink; snapshots and deaths at any step of a flush are in `Resume.ResumeLosesNothing`.
- `Resume.ResumeLosesNothing`: sent means accepted by the sink; what the Telegram queue still holds when the process dies is lost with it.
- `Coordinator.AggregationCoordinator.TakeTurn`: other tasks store events at the awaits of a flush; flushes of other tasks at these awaits are in `Flow` and `Conservation` but not in the class, and a notification that another task sends for an unrouted log is not in this call's list.
- `Flows.AlwaysSound`: a stored window of a group that no aggregator is registered for, which the flush drops unsent on purpose, is not in a run of `Flow`; `Coordinator.NotesFor` has it.
- `Reporting.EveryLogReported`: `DistributionReportAggregator`, which drops incomplete and cross-transaction reports on purpose; an aggregator that raises, which leaves its window pending.
- `Generations.EveryRunGuarded`: startup validation of chain ids and the subscription provider's own listener are not modelled, nor what the library does inside a disconnect beyond cutting the transport at its end.
- `Failover.FallbackRequestProvider.ExecuteRequest`: one request at a time; what concurrent requests do to the shared connection is in `Generations`, and an operation that reconnects by itself counts as a call on the endpoint it started with.
- `Failover.FallbackRequestProvider.ConnectRounds`: unbounded rounds end because the list of failures is finite; endless failure is not a modelled run.
- `Lease.EveryRunKept`: the lock may be granted to any waiting task, a superset of its first-come order; that a waiting task is served in the end is not stated.
- `LogReader.Web3EventLogReader.GetLogs`: a stop during a request is a stop before it; anonymous logs without topics and stateful predicates are not modelled.
- `Reconnect.Serve`: a connection's head is given with it; the model takes the provider's own head, asked for when the given one is zero, to be the same.
- Redelivery after a chain reorganisation, and events of an earlier snapshot that a later program version no longer registers.
- Persistence formats, identifier normalisation, metrics, health, secrets, configuration, chat handlers, message texts and sending.
