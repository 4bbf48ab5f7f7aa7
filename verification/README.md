# ech0 broker kernels, modelled in Dafny

ech0 is a broker of partitioned logs. This project models the deterministic kernels under `broker/` whose behaviour is
hardest to see from the code, and proves what they guarantee over whole runs, for every input, every interleaving and
the store failures named in the models.

| part | modules | main results |
|---|---|---|
| Idempotent producing | `Idempotency`, `IdempotencyRuns`, `Acceptance`, `ExactlyOnce`, `RetryAnswers`, `WindowLimits` | exactly when a request is accepted; a remembered batch is appended again only after 1024 younger ones; when a retry is answered, and with the first attempt's records; accepted epochs never decrease; exactly which batches survive pruning, when a fence holds and when a retry is appended again |
| Live partition moves | `Reassignment`, `Availability` | wherever a move fails, every partition looks like one log that never moved; exactly when an operation fails |
| Consumer groups | `Sticky`, `StickyBalance`, `GroupPlans`, `Stickiness`, `GroupRuns`, `Leases`, `Rebalances` | the balance loop's termination, number of moves and final loads; valid and even plans, saved as such; what a sticky plan keeps when the group changes; generation fencing; until when a member is live and when its lease holds |
| Leadership balancing | `Leadership` | one greedy pass suffices |
| Coalesced producing | `Grouping`, `GroupedApply`, `ShardedApply`, `Receipts`, `Outcomes`, `Batcher`, `EndToEnd`, `CommandRuns` | grouped and scattered application, in any order, is publishing one by one; every caller gets one message, a success exactly if its request deserves it, and a success is a receipt for its own records or, for a duplicate, for those of the request that wrote them, over runs with clean-ups; nobody waits longer than four steps of the runner |
| Raft codec | `Codec`, `RoundTrips`, `Streams` | round trip, exact condition for it, no longer and no shorter input is accepted |
| Partition choice | `Headers`, `Routing` | batches of one key stay together; replicas choose the planned partition |
| Offset commits and acks | `Commits`, `AckOffsets` | when compaction agrees with order; ack tracking is a set |
| Retry and dead letters | `Decimal`, `Retry`, `RetryRuns`, `RetryWorker`, `Dlq`, `DlqPaging` | the retry life cycle and its undoing by replay; how often each retry record is moved; what following a dead-letter query returns, when it ends, and when it ends in an error |

`Basics`, `Sorting`, `Names`, `Messages` and `Logs` hold what these share.

State that the broker updates in place is a class whose methods are proved against functions on the state's value; the
theorems are about those functions. Runs are sequences of states linked by the same functions. Clocks, store failures,
transfer refusals, cancelled contexts and the partition hash are inputs, so each theorem holds for all of them. The
order in which a Go map is walked is an arbitrary choice in the loops that walk it.

Where a promise turned out not to hold in general, a lemma, mostly named `...ExactlyWhen`, gives the condition under
which it does, and a second lemma shows a concrete failure:

| what can fail | exactly when | failure shown |
|---|---|---|
| ranges of a client that does not tile them stay apart | `OverlapExactlyWhen` | `OverlapAccepted` |
| a new batch survives its own pruning, and with it the fence | `NewBatchKeptExactlyWhen`, `FencedExactlyWhen` | `LowerEpochAccepted` |
| a retry is not appended again | `AppendedAgainExactlyWhen` | `SaveFailureDuplicates` |
| a retry is answered | `AnsweredExactlyWhen` | `ShadowedRetryRefused` |
| the placement cache agrees with the store | `LateCacheWriteAgreesExactlyWhen` | `LateCacheWriteHidesRecords` |
| a retry record is moved once | `MovedExactly` | `StrayMovedTwice` |
| sticky loads end even | `EvenExactlyWhen` | `UnevenExample` |
| a round-robin plan is valid | `RoundRobinValidExactlyWhen` | `DealtToStranger` |
| a member that joins is live | `JoinedLiveExactlyWhen` | `JoinedDead` |
| a second planning agrees with the first | `ReplanAgreesExactlyWhen` | `UnstampedRefused` |
| compacted commits agree with their order | `CompactionAgreesExactlyWhen` | `CommitGoesBack` |
| an ack adds exactly its offset | `AckAddsOneExactlyWhen` | `LastOffsetWraps` |
| an ack leaves a drained state | `SkippedDrainExactlyWhen` | `SkippedDrainExample`, `SkippedDrainAgain` |
| a dead-letter query is answered | `QueryErrsExactlyWhen` | `StaleExample` |
| following a dead-letter query ends | `AnsweringEndsExactlyWhen` | `NeverEndsExample` |
| following a dead-letter query returns every match | `AnsweringYieldsAllExactlyWhen` | `ForeignMissed`, `OtherOnlyScanned` |

A reading note: methods that loop over encoded elements or retry records take a ghost function that stands for the
specification of one element, so that the proof of the loop does not depend on what one element looks like.

## Model

| member | source | states |
|---|---|---|
| `Idempotency.Broker.EnsureProducerEpochWritable` | broker/producer_idempotency.go:119-126 | an epoch is writable exactly when no remembered batch has a higher one |
| `Idempotency.Broker.FindProducerPublishedBatch` | broker/producer_idempotency.go:128-158 | the lookup over the stored batches decides as `Find` does: missing, the same batch, or a mismatch |
| `Idempotency.Broker.PruneProducerDedupeWindow` | broker/producer_idempotency.go:240-266 | the oldest batches beyond 1024 are deleted, as many as succeed before a delete fails, none if the listing fails; the error tells which |
| `Idempotency.Broker.AppendIdempotentProduceBatch` | broker/producer_idempotency.go:30-58 | logs, remembered batches and answer after one request, whichever of its store operations fail: both listings, the read, the append, the save, any delete; it succeeds exactly when `OkExactlyWhen` says |
| `IdempotencyRuns.FindCorrect` | broker/producer_idempotency.go:128-158 | nothing found means no batch of the epoch contains the base sequence; a found batch starts there and has the same count |
| `IdempotencyRuns.AppendedMeansNew` | broker/producer_idempotency.go:30-58 | a request that is appended is new: no remembered batch has its key or a higher epoch |
| `IdempotencyRuns.OverlapExactlyWhen` | broker/producer_idempotency.go:152-158 | an appended request overlaps a remembered batch of its epoch if and only if that batch starts strictly inside the request's range |
| `IdempotencyRuns.PruneKeeps` | broker/producer_idempotency.go:240-266 | pruning keeps a batch unless 1024 younger batches of its producer and partition remain |
| `IdempotencyRuns.StepKeeps` | broker/producer_idempotency.go:30-58 | no event of any kind loses a remembered batch before 1024 younger ones have replaced it |
| `Acceptance.MissingExactlyWhen` | broker/producer_idempotency.go:128-158 | the lookup finds nothing if and only if no batch of the epoch contains the base sequence or overflows |
| `Acceptance.AppendsExactlyWhen` | broker/producer_idempotency.go:30-58 | whatever other producers and partitions have stored, a request is appended if and only if it is well formed, the store lists and publishes, offsets are left, its producer used no higher epoch there, and no batch of its epoch there contains its base sequence or overflows |
| `Acceptance.AcceptedExactlyWhen` | broker/producer_idempotency.go:30-102 | it is answered as newly appended, with its own records, if and only if besides the save, the second listing and the deletions the window needs succeed |
| `Acceptance.AcceptedRemembers` | broker/producer_idempotency.go:60-102 | an accepted request's records end its log, no other log changes, and what is remembered names producer, epoch, partition, sequences, offsets and time |
| `Acceptance.OthersChangeNothing` | broker/producer_idempotency.go:30-58 | a request that is not to be appended changes nothing, whatever it is answered |
| `ExactlyOnce.SecondAppendMeansPushedOut` | broker/producer_idempotency.go:30-58 | in every run a remembered batch is appended again only after it has been pushed out of the window |
| `ExactlyOnce.ShortRunsAppendOnce` | broker/producer_idempotency.go:30-58 | runs of at most 1024 events append every remembered batch once |
| `ExactlyOnce.RetryToldTheOriginal` | broker/producer_idempotency.go:160-187 | a retry inside the window changes nothing and is told exactly the records the first attempt wrote, or an error |
| `ExactlyOnce.ReadBackIsOriginal` | broker/producer_idempotency.go:160-187 | what is read back for a batch is what was written for it, whatever was appended or cleaned up since |
| `ExactlyOnce.Producer.NextBatchSequence` | producer_idempotency.go:33-46 | the client hands out the next range of a partition, or an error for no records or 64-bit overflow, changing nothing else |
| `ExactlyOnce.GrantsDisjoint` | producer_idempotency.go:33-46 | ranges granted for a partition never overlap and rise |
| `ExactlyOnce.GrantsTile` | producer_idempotency.go:33-46 | the granted ranges cover every sequence number below the next one |
| `ExactlyOnce.GrantedExactlyWhen` | producer_idempotency.go:33-46 | over every sequence of calls, a call is granted the range just above all granted before if and only if it asks for a record at least and the range ends within 64 bits |
| `ExactlyOnce.SequenceAppendedOnce` | broker/producer_idempotency.go:30-58 | with granted ranges, no sequence number is appended twice while its batch is in the window, in any arrival order |
| `ExactlyOnce.PruneKeepsEpoch` | broker/producer_idempotency.go:240-266 | pruning after a save keeps some batch with at least the saved epoch, if no stored stamp is later |
| `ExactlyOnce.EpochsNeverDecrease` | broker/producer_idempotency.go:119-126 | in every run with a clock that does not run back, accepted epochs of a producer and partition never decrease |
| `RetryAnswers.ReadBackExactlyWhen` | broker/producer_idempotency.go:160-187 | a remembered batch can be read back if and only if the log still holds each of its offsets |
| `RetryAnswers.AnsweredExactlyWhen` | broker/producer_idempotency.go:30-58 | a retry of a remembered batch is answered if and only if the count is the same, the store can be listed and read, no higher epoch fences it, no other batch of its epoch contains its base sequence, no bound is exceeded and no record is gone |
| `RetryAnswers.OkExactlyWhen` | broker/producer_idempotency.go:30-102 | a request succeeds if and only if it is new, or repeats a remembered batch that nothing fences or shadows and whose records are still in the log, and the store does its part |
| `RetryAnswers.ShadowedRetryRefused` | broker/producer_idempotency.go:128-158 | a retry of 5 and 6 is refused once an overlapping batch from 4 on is remembered |
| `RetryAnswers.RetryIsAnswered` | broker/producer_idempotency.go:30-58 | in every run of a client that uses granted ranges, a retry inside the window that is not fenced and whose records were not cleaned up gets exactly the first attempt's records |
| `WindowLimits.KeptExactlyWhen` | broker/producer_idempotency.go:240-266 | pruning keeps a batch if and only if fewer than 1024 younger ones are remembered or the deletions stop before it |
| `WindowLimits.NewBatchKeptExactlyWhen` | broker/producer_idempotency.go:86-102 | a batch just saved survives its own pruning if and only if fewer than 1024 earlier ones are younger or the deletions stop before it |
| `WindowLimits.FencedExactlyWhen` | broker/producer_idempotency.go:119-126 | after a save a lower epoch is fenced if and only if some batch of a higher epoch survives the pruning |
| `WindowLimits.LowerEpochAccepted` | broker/producer_idempotency.go:240-266 | with a clock that steps back, a full window forgets epoch 2 at once and accepts epoch 1 again |
| `WindowLimits.AppendedAgainExactlyWhen` | broker/producer_idempotency.go:30-102 | the same request is appended again right away if and only if offsets and the store allow it and the first attempt's batch was not saved or did not survive its own pruning |
| `WindowLimits.SaveFailureDuplicates` | broker/producer_idempotency.go:86-102 | after a failed save the retry appends the same records a second time |
| `WindowLimits.OverlapAccepted` | broker/producer_idempotency.go:152-158 | with sequences 5 and 6 remembered, a batch of 4 to 6 is accepted |
| `Reassignment.Runtime.Resolve` | broker/shard_resolver.go:41-60 | cache, then placement store, then the default shard, caching what was found |
| `Reassignment.Runtime.EnsureTopic` | broker/shard_resolver.go:62-82 | placements saved and cached for the partitions up to the one that fails, existing ones kept |
| `Reassignment.Runtime.PublishBatchRecords` | broker/sharded_message_runtime.go:134-147 | the resolved shard's log grows by the records and no other log changes, or the publish fails exactly when `FailsExactlyWhen` says |
| `Reassignment.Runtime.ReadRecords` | broker/sharded_message_runtime.go:189-201 | the resolved shard's records from the offset on |
| `Reassignment.Runtime.SaveReassignedPlacement` | broker/partition_reassignment.go:46-59 | placement saved and cached, or neither |
| `Reassignment.Runtime.ReassignPartition` | broker/sharded_message_reassignment.go:18-73 | snapshot, replace, commit, clear, with a failure at any of them leaving what the code leaves |
| `Reassignment.ReplacedIsIdentity` | store/storx_log_partition_move.go:40-63 | a log rebuilt from its snapshot is the same log, next offset included |
| `Reassignment.ResolvedIsPlaced` | broker/shard_resolver.go:41-60 | resolving gives the stored placement and keeps the cache in agreement with it |
| `Reassignment.EnsureKeepsPlaced` | broker/shard_resolver.go:62-82 | setting up a topic moves no partition |
| `Reassignment.MoveLooksLikeNothing` | broker/sharded_message_reassignment.go:18-73 | a move, successful or failed at any point, leaves every partition's apparent log as it was; success means it is on the target |
| `Reassignment.StepLooksLikeOneLog` | broker/sharded_message_runtime.go:119-201 | every operation acts on the apparent logs as on one log per partition |
| `Reassignment.RunLooksLikeOneLog` | broker/sharded_message_reassignment.go:9-73 | over every run the resolved shard holds exactly what was published and acknowledged, and cache and store agree |
| `Reassignment.RepliesLookLikeOneLog` | broker/sharded_message_runtime.go:119-201 | every answer is an error or the one a single unmoved log would give |
| `Reassignment.OffsetsNeverReused` | store/storx_log_partition_move.go:40-63 | no offset is given out twice, across any number of moves |
| `Reassignment.StepPlaces` | broker/sharded_message_reassignment.go:18-73 | an operation changes a partition's placement only if it is a move of it that completes, and then to its target |
| `Reassignment.RunPlaces` | broker/partition_reassignment.go:46-59 | over every run a partition is placed where its last completed move put it |
| `Availability.FailsExactlyWhen` | broker/sharded_message_runtime.go:119-201 | a publish, read, set-up or move fails if and only if the placement is neither cached nor loadable, a shard it needs is not registered, the target is out of range, or one of its own store operations fails |
| `Availability.SetUpStores` | broker/shard_resolver.go:62-82 | a set-up stores and caches the placement of exactly the partitions it gets through, the stored one or the default |
| `Availability.StepKeeps` | broker/shard_resolver.go:41-60 | shards stay registered, and exactly those partitions are cached that were or that the operation finds out about |
| `Availability.StepStaysRegistered` | broker/sharded_message_reassignment.go:18-73 | a partition on a registered shard stays on one |
| `Availability.AcknowledgedExactlyWhen` | broker/sharded_message_runtime.go:134-147 | in every run a publish to a partition that started on a registered shard is acknowledged, with the offsets of a single log, if and only if the append succeeds and the placement loads or an earlier operation found it out; otherwise it fails |
| `Availability.RunSpreads` | broker/shard_resolver.go:84-86 | over every run of a new runtime a partition is at its number modulo the shards until a move of it completes |
| `Reassignment.LateCacheWriteAgreesExactlyWhen` | broker/cluster_coalesced_router.go:103-115 | a resolve outside the partition lock that caches late leaves cache and store in agreement if and only if no move of the partition completed in between, or the last one brought it back |
| `Reassignment.LateCacheWriteHidesRecords` | broker/cluster_coalesced_router.go:103-115 | one completed move in between hides the published record from reads |
| `Sticky.RetainedStickyAssignments` | broker/groups_cooperative.go:40-60 | rows of active subscribed owners of wanted partitions are retained, each partition once: exactly those `RetainedExactlyWhen` names |
| `Stickiness.RetainedExactlyWhen` | broker/groups_cooperative.go:40-60 | exactly these previous rows are retained: of wanted partitions whose owner is an active subscriber, and of several for one partition the least |
| `Sticky.LeastLoadedIsLeast` | broker/groups_cooperative.go:85-102 | the chosen member subscribes and no subscriber is lighter; nobody is chosen only if nobody subscribes |
| `Sticky.AssignMissingPartitions` | broker/groups_cooperative.go:62-75 | missing partitions are placed in order with the member least loaded at that moment |
| `Stickiness.PlacedLeast` | broker/groups_cooperative.go:62-102 | what is retained comes first, and every later row was placed with a subscriber than whom none had fewer rows at that moment |
| `Sticky.MovableIndexCorrect` | broker/groups_cooperative.go:172-199 | an index is offered exactly when some row may move to the target |
| `Sticky.NextMoveCorrect` | broker/groups_cooperative.go:121-170 | a move is found exactly when some member below minLoad wants a topic of a member above maxLoad |
| `Sticky.MoveLowersShortfall` | broker/groups_cooperative.go:121-144 | every move lowers the shortfall below minLoad by one |
| `Sticky.MoveLowersSurplus` | broker/groups_cooperative.go:121-144 | every move lowers the surplus above maxLoad by one |
| `StickyBalance.BalanceStickyAssignments` | broker/groups_cooperative.go:104-119 | the loop ends and computes the balanced rows |
| `StickyBalance.BalanceEndsStuck` | broker/groups_cooperative.go:104-144 | it ends only when no move is possible |
| `StickyBalance.BalanceKeepsRows` | broker/groups_cooperative.go:104-144 | only owners change, and every owner stays a subscriber |
| `StickyBalance.MovesAreDistinct` | broker/groups_cooperative.go:104-144 | no partition is moved twice |
| `StickyBalance.MovedExactlyWhenOwnerChanged` | broker/groups_cooperative.go:104-144 | the moved partitions are exactly those whose owner differs at the end |
| `StickyBalance.EvenExactlyWhen` | broker/groups_cooperative.go:104-144 | with uniform subscriptions the loop makes min(shortfall, surplus) moves, and ends with all loads in bounds if and only if the two are equal |
| `StickyBalance.DivisibleEndsEqual` | broker/groups_cooperative.go:104-144 | with uniform subscriptions and a divisible count all loads end equal |
| `StickyBalance.UnevenExample` | broker/groups_cooperative.go:121-180 | loads 2, 2 and 0 are left as they are |
| `GroupPlans.BuildCooperativeStickyAssignments` | broker/groups_cooperative.go:13-26 | the sticky plan: retain, place, balance, sort; valid, with the counts of rows that could be kept and were |
| `GroupPlans.StickyPlanValid` | broker/groups_cooperative.go:13-102 | every wanted partition has exactly one owner, an active subscriber |
| `GroupPlans.StickyFixpoint` | broker/groups_cooperative.go:13-75 | planning a sticky plan again with the same members and partitions returns it |
| `GroupPlans.StickyCandidateCount` | broker/groups_cooperative.go:201-215 | how many previous rows are of wanted partitions and subscribed members |
| `GroupPlans.StickyAppliedCount` | broker/groups_cooperative.go:217-227 | how many rows name the previous owner |
| `GroupPlans.ReplanKeepsAll` | broker/groups_cooperative.go:13-26 | planning an unchanged group again counts every row as a candidate and as kept |
| `Stickiness.RetainedStaysExactlyWhen` | broker/groups_cooperative.go:13-26 | however members and partitions have changed, a retained row is in the plan if and only if the balance loop does not move it |
| `Stickiness.AppliedExactly` | broker/groups_cooperative.go:201-227 | with one previous owner per partition, the rows that name the previous owner are the candidates less those among them that were moved; so at least the candidates less the moves |
| `GroupPlans.AppendRangeAssignments` | broker/groups.go:195-216 | one topic's partitions dealt in contiguous shares |
| `GroupPlans.SharesTile` | broker/groups.go:195-216 | the shares start one after the other and cover the partitions exactly |
| `GroupPlans.RangeRowsAt` | broker/groups.go:195-216 | the k-th partition goes to the owner whose share contains k |
| `GroupPlans.BuildRangeAssignments` | broker/groups.go:160-193 | the range plan, topic by topic |
| `GroupPlans.RangePlanValid` | broker/groups.go:160-216 | every wanted partition has exactly one owner, an active subscriber |
| `GroupPlans.RangeLoads` | broker/groups.go:195-216 | of a topic's n partitions the j-th of its m subscribers owns n / m, and one more if j < n % m |
| `GroupPlans.RangeEven` | broker/groups.go:160-216 | two subscribers of a topic own numbers of its partitions that differ by at most one |
| `GroupPlans.BuildRoundRobinAssignments` | broker/groups.go:147-158 | partitions dealt in turn, subscriptions ignored |
| `GroupPlans.RoundRobinLoads` | broker/groups.go:147-158 | the j-th member's exact share |
| `GroupPlans.RoundRobinValidExactlyWhen` | broker/groups.go:147-158 | a round-robin plan is valid if and only if the i-th partition's topic is one member i modulo the count subscribes to |
| `GroupPlans.DealtToStranger` | broker/groups.go:147-158 | a member gets a partition of a topic it does not subscribe to |
| `GroupPlans.GroupPartitionsCorrect` | broker/service_apply_groups.go:120-147 | the wanted partitions are those of the topics some active member names, sorted, each once |
| `GroupRuns.GroupStore.JoinGroup` | broker/service_apply_groups.go:18-56 | the member is saved with defaulted timeouts and fresh stamps, or nothing changes and the error says why |
| `GroupRuns.GroupStore.HeartbeatGroup` | broker/service_apply_groups.go:58-76 | a live member's heartbeat is renewed; an expired or unknown one is refused, and a failing save changes nothing |
| `GroupRuns.GroupStore.PollGroup` | broker/service_apply_groups.go:78-93 | a live member's poll stamp is renewed; otherwise, or if the save fails, nothing changes |
| `GroupRuns.GroupStore.RebalanceGroup` | broker/service_apply_groups.go:95-118 | expired members are deleted, some of them if a deletion fails, and the next assignment is saved, if the store accepts it; what it says is told by `SavedPlanValid` and its neighbours |
| `GroupRuns.ActiveMembersUnique` | broker/groups.go:66-79 | the members handed to the assignors are distinct |
| `GroupRuns.NextFollows` | broker/groups.go:81-110 | a new assignment raises the generation by at most one, and keeps it only with unchanged rows |
| `GroupRuns.GenerationsFence` | broker/groups.go:81-110 | over every run generations never decrease and equal generations have equal rows |
| `GroupRuns.LeasesAgree` | broker/group_assignment_validation.go:5-65 | two lease checks that pass with one generation for one partition, at any times of a run, name one member |
| `GroupRuns.HoldersMatchExactlyWhen` | broker/groups_helpers.go:30-51 | holders match the active members if and only if every active member owns something |
| `GroupRuns.UnchangedRebalance` | broker/groups.go:81-110 | an unchanged sticky group keeps its rows, and its generation if and only if every active member owns a partition |
| `Rebalances.SavedPlanValid` | broker/groups.go:112-145 | by range, or sticky with an assignment to keep to, the saved rows give every existing partition of a topic some live member names exactly one owner, a live subscriber, and no other partition any |
| `Rebalances.SavedRangeEven` | broker/groups.go:132-145 | by range, two live subscribers of a topic own numbers of it at most one apart |
| `Rebalances.SavedRoundRobinEven` | broker/groups.go:132-145 | by round robin, the totals of two live members are at most one apart |
| `Rebalances.SavedOneOwner` | broker/groups.go:112-145 | whatever the strategy, every wanted partition has exactly one owner and no other has any |
| `Rebalances.SavedSticks` | broker/groups.go:112-130 | a sticky rebalance takes no more partitions from live subscribers than the balance loop moves, however the group has changed |
| `Rebalances.SavedVersion` | broker/groups.go:81-110 | the first assignment is generation 1; a later one keeps generation and time if and only if the rows are the same in some order and exactly the live members hold them, and is the next generation otherwise |
| `Rebalances.WantedIsLeased` | broker/group_assignment_validation.go:5-65 | right after a rebalance by range or a sticky one, exactly one member passes the lease check for each wanted partition, a live subscriber |
| `Leases.StepMember` | broker/service_apply_groups.go:95-118 | only its own events and a rebalance after its lease has ended touch a member |
| `Leases.TakenOrNothing` | broker/service_apply_groups.go:18-118 | a member's event that is refused or not saved changes nothing, one that is taken leaves the member in the group, and only a rebalance that is saved changes the assignment |
| `Leases.LiveUntil` | store/model.go:264-266 | over every run a member with no events of its own is live exactly until its deadline, unless a rebalance deleted it |
| `Leases.HeartbeatRenews` | broker/service_apply_groups.go:58-76 | a heartbeat restarts the session clock, with new timeouts if given, and not the poll clock of a member that has polled |
| `Leases.PollRenews` | broker/service_apply_groups.go:78-93 | a poll restarts the poll clock and not the session clock |
| `Leases.JoinedLiveExactlyWhen` | store/model.go:264-266 | a member that joins is live at that moment if and only if neither interval ends beyond 64 bits |
| `Leases.JoinedDead` | store/model.go:264-266 | a join at millisecond 1 with the longest session is expired at once |
| `Leases.JoinedLiveUntil` | store/model.go:264-276 | over every run a joined member without further events is live exactly until the shorter interval is over, wrapped sums included |
| `Leases.LeaseExactlyWhen` | broker/group_assignment_validation.go:5-65 | a lease check passes if and only if the member is named and live, brings the generation of the saved assignment, not 0, and is named by the last row of the partition |
| `Leases.JoinRenews` | broker/service_apply_groups.go:18-56 | a join stores the member with its topics and starts both clocks |
| `Leadership.LeaderLoadFromHealth` | broker/cluster_control.go:171-183 | the table counts, for each node that leads a ready group, how many it leads |
| `Leadership.LeastLoadedLeaderTarget` | broker/cluster_control.go:185-207 | the least loaded node, lowest identifier first, if the current leader has at least two more |
| `Leadership.VisitGroup` | broker/cluster_control.go:156-166 | one group's transfer request and the loads after it |
| `Leadership.OnePassSuffices` | broker/cluster_control.go:152-169 | after one pass a node is two above another only if all of its requests that remained were refused |
| `Leadership.TransferLowersEnergy` | broker/cluster_control.go:152-169 | a granted transfer keeps the total and strictly lowers the sum of squared loads |
| `Leadership.PassConservesLoad` | broker/cluster_control.go:152-169 | a pass conserves the total load |
| `Leadership.LoadsTrackLeaders` | broker/cluster_control.go:152-169 | the table tracks who really leads the groups |
| `Leadership.LeadersBalanced` | broker/cluster_control.go:152-169 | with every request granted, real leaders end within one group of each other, and nodes that led nothing lead nothing |
| `Leadership.BalanceLeadership` | broker/cluster_control.go:152-215 | the pass over the sorted groups, within one of even when all requests are granted |
| `Grouping.OneByOneParts` | broker/service_apply.go:95-127 | publishing one by one acts on each partition as its own requests in order |
| `Grouping.OneByOneItems` | broker/service_apply.go:95-127 | and answers each request as its partition stood when its turn came |
| `Grouping.GroupPlans` | broker/service_apply_batches.go:75-83 | each partition's group lists exactly its requests, in order |
| `GroupedApply.GroupRecords` | broker/service_apply_batches.go:126-136 | the group's messages one after the other |
| `GroupedApply.SplitGroupRecords` | broker/service_apply_batches.go:138-163 | splitting succeeds exactly when there is one record per message, and gives each request its slice |
| `GroupedApply.SetGroupError` | broker/service_apply_batches.go:165-170 | exactly the group's items get the error |
| `GroupedApply.CombinedIsFold` | broker/service_apply_batches.go:85-102 | one combined append is the group's appends in order |
| `GroupedApply.SliceIsOwn` | broker/service_apply_batches.go:138-163 | a request's slice is what appending it in its turn would have returned |
| `GroupedApply.Broker.ApplyIndividually` | broker/service_apply_batches.go:113-124 | a group with idempotent requests, one request at a time, each succeeding exactly when `IdempotentSucceedsExactlyWhen` says |
| `GroupedApply.Broker.ApplyTogether` | broker/service_apply_batches.go:85-102 | a plain group, one append, same outcome |
| `GroupedApply.Broker.HasIdempotent` | broker/service_apply_batches.go:104-111 | whether some request of the group is idempotent |
| `GroupedApply.Broker.ApplyGroup` | broker/service_apply_batches.go:85-102 | one group, or its error |
| `GroupedApply.Broker.ApplyProduceBatches` | broker/service_apply_batches.go:11-31 | groups applied in any order give the partitions and answers of publishing one by one |
| `ShardedApply.ShareUpto` | broker/cluster_coalesced_router.go:86-101 | a shard sees of its partitions exactly what the whole sequence does to them |
| `ShardedApply.ShareEffective` | broker/service_apply_batches.go:104-111 | what other shards are sent does not change how a group is applied |
| `ShardedApply.MergeItems` | broker/cluster_coalesced_router.go:140-148 | each answer goes back to its request's index and nowhere else |
| `ShardedApply.RouteByShard` | broker/cluster_coalesced_router.go:72-138 | scatter, apply in any order, gather: again the outcome of publishing one by one |
| `Receipts.DuplicateReceipt` | broker/producer_idempotency.go:160-187 | a duplicate is told the messages last written under its key, at consecutive offsets, all in the log, as many as it sent |
| `Receipts.RememberedTied` | broker/producer_idempotency.go:86-102 | after a request is remembered every remembered batch still stands for the messages written under its key |
| `Receipts.SuccessIsReceipt` | broker/cluster_coalesced_router.go:140-148 | through grouping, combining, splitting and gathering every success names records in its partition: its own messages, or for a duplicate those of the request that wrote them, earlier or in the same command |
| `Outcomes.SucceedsExactlyWhen` | broker/service_apply.go:95-127 | at its partition a request succeeds if and only if planning it again does not refuse it and it is plain and gets published, or idempotent and new or a readable repetition |
| `Outcomes.NoErrorExactlyWhen` | broker/service_apply_batches.go:11-31 | of a command exactly those items have no error whose request is not refused, whose group does not fail, and which deserves success where the requests before it leave its partition |
| `Outcomes.IdempotentSucceedsExactlyWhen` | broker/service_apply_batches.go:113-124 | an idempotent request of a command succeeds if and only if its group does not fail, it is not refused, and it is new or repeats a remembered batch whose records are still there |
| `Outcomes.PlainSucceedsExactlyWhen` | broker/service_apply_batches.go:85-102 | a request of a group without idempotent ones succeeds if and only if its group does not fail |
| `EndToEnd.CommandTied` | broker/service_apply_batches.go:11-31 | after a whole command every remembered batch again stands for what was written, and everything written came from a request |
| `EndToEnd.ServeWorks` | broker/raft_batcher.go:95-145 | a drained batch routed by shard and delivered: one message per caller, the one publishing one by one would give; an answer exactly if the request deserves success, and every answer a receipt |
| `CommandRuns.CleanupTied` | broker/producer_idempotency.go:160-187 | after a clean-up every remembered batch still stands for what was written |
| `CommandRuns.EveryAnswerHasASender` | broker/cluster_coalesced_router.go:72-148 | over every run of commands and clean-ups a success names records that are in the log: its own messages, or for a duplicate those a request sent earlier under the same key |
| `CommandRuns.BrokerAnswersHaveSenders` | broker/service_apply.go:95-127 | the same of the broker's own step |
| `CommandRuns.BrokerSucceedsExactlyWhen` | broker/service_apply_batches.go:11-31 | over every run a request is told of success if and only if it is not refused, its group does not fail and it deserves success where the requests before it leave its partition |
| `Batcher.Queue.Enqueue` | broker/raft_batcher.go:53-62 | the work goes to the end; a runner is to be started exactly when none was running |
| `Batcher.Queue.Drain` | broker/raft_batcher.go:77-83 | everything pending is taken |
| `Batcher.Queue.FinishIfIdle` | broker/raft_batcher.go:85-93 | the runner may return exactly when nothing is pending |
| `Batcher.SplitWorks` | broker/raft_batcher.go:95-105 | cancelled callers are told so, the others are kept in order |
| `Batcher.ApplyWorks` | broker/raft_batcher.go:95-120 | cancelled callers are told so, the others get the result of one command |
| `Batcher.Deliver` | broker/raft_batcher.go:130-145 | item i goes to the i-th live caller; an error or a length mismatch goes to all |
| `Batcher.OneMessageEach` | broker/raft_batcher.go:95-145 | every drained caller gets exactly one message |
| `Batcher.OwnItemEach` | broker/raft_batcher.go:122-145 | a live caller gets its own item: as an answer if and only if the item has no error, and the error otherwise |
| `Batcher.RunKeeps` | broker/raft_batcher.go:36-93 | in every interleaving: one runner if and only if running, nothing pending otherwise, drained and pending are the enqueue order, no caller lost or answered twice |
| `Batcher.AllAnswered` | broker/raft_commit_batcher.go:27-84 | when the last runner has returned every caller has been answered once per enqueue |
| `Batcher.WaitingIsServed` | broker/raft_batcher.go:64-75 | while a caller waits there is a runner with a step to take |
| `Batcher.AnsweredWithinFour` | broker/raft_batcher.go:64-93 | however callers keep enqueueing, everybody waiting is answered by the runner's fourth step from then on, and the first n callers exactly when as many steps as are left for them have been taken |
| `Codec.NumberOfBigEndian` | broker/raft_binary_io.go:44-60 | big-endian bytes read back as the number, for every width |
| `Codec.BytesBack` | broker/raft_binary_io.go:82-92 | length-prefixed bytes that fit come back, whatever follows |
| `Codec.TextBack` | broker/raft_binary_io.go:71-80 | length-prefixed strings that fit come back, whatever follows |
| `Codec.OptionalBack` | broker/raft_binary_io.go:62-69 | optional numbers come back |
| `Codec.ManyBack` | broker/raft_binary_produce_codec.go:70-88 | if each element comes back then a counted list of them does |
| `RoundTrips.HeadersBack` | broker/raft_binary_produce_codec.go:158-173 | record headers come back in order |
| `RoundTrips.TransactionBack` | broker/raft_binary_transaction_codec.go:5-43 | transaction metadata comes back, an unknown control type as none |
| `RoundTrips.MessageBack` | broker/raft_binary_produce_codec.go:144-156 | a record comes back field by field |
| `RoundTrips.PartitioningBack` | broker/raft_binary_produce_codec.go:258-296 | mode and partition come back, the routing key is dropped |
| `RoundTrips.RequestsBack` | broker/raft_binary_produce_codec.go:24-56 | produce batches come back |
| `RoundTrips.CommitsBack` | broker/raft_binary_commit_codec.go:5-32 | offset commits come back unchanged |
| `RoundTrips.MessagesLocal` | broker/raft_binary_produce_codec.go:175-236 | reading records looks only at what it consumes |
| `RoundTrips.RequestsLocal` | broker/raft_binary_produce_codec.go:70-113 | reading produce batches looks only at what it consumes |
| `RoundTrips.CommitsLocal` | broker/raft_binary_commit_codec.go:46-104 | reading offset commits looks only at what it consumes |
| `RoundTrips.RoundTrip` | broker/raft_binary_codec.go:18-67 | an encoded command decodes to itself up to what the format cannot carry, and any trailing byte makes it invalid |
| `RoundTrips.ProduceKeptExactlyWhen` | broker/raft_binary_produce_codec.go:258-296 | a produce command survives unchanged if and only if it has no routing key and only known modes and control types |
| `RoundTrips.CommitsKept` | broker/raft_binary_commit_codec.go:5-104 | a commit command always survives unchanged |
| `RoundTrips.PrefixRejected` | broker/raft_binary_io.go:169-189 | no proper prefix of an encoded command decodes to anything |
| `RoundTrips.EncodeInjective` | broker/raft_binary_codec.go:18-48 | equal encodings come from commands equal up to what the format cannot carry |
| `Streams.Writer.WriteText` | broker/raft_binary_io.go:71-80 | fails exactly when the string is too long, otherwise appends its encoding |
| `Streams.Writer.WriteBytes` | broker/raft_binary_io.go:82-92 | fails exactly when the bytes are too long, otherwise appends their encoding |
| `Streams.Writer.WriteMessage` | broker/raft_binary_produce_codec.go:144-156 | fails exactly when some length does not fit, otherwise appends the record |
| `Streams.Writer.WriteRequests` | broker/raft_binary_produce_codec.go:24-36 | fails exactly when some length does not fit, otherwise appends all batches |
| `Streams.Writer.WriteCommits` | broker/raft_binary_commit_codec.go:5-32 | fails exactly when some length does not fit, otherwise appends all commits |
| `Streams.EncodeProduceBatches` | broker/raft_binary_produce_codec.go:16-22 | the body, or an error exactly when something does not fit |
| `Streams.EncodeCommitOffsets` | broker/raft_binary_commit_codec.go:5-18 | the body, or an error exactly when something does not fit |
| `Streams.EncodeCommand` | broker/raft_binary_codec.go:18-48 | the writers produce exactly the specified encoding |
| `Streams.Reader.RecordAppend` | broker/raft_binary_produce_codec.go:195-236 | reads one record and moves past it, or fails |
| `Streams.Reader.ProduceBatches` | broker/raft_binary_produce_codec.go:70-88 | reads the counted batches and moves past them, or fails |
| `Streams.Reader.Commits` | broker/raft_binary_commit_codec.go:46-64 | reads the counted commits and moves past them, or fails |
| `Streams.DecodeCommand` | broker/raft_binary_codec.go:50-74 | the readers decide exactly as specified: not binary, invalid, or the command |
| `Headers.UpsertHeader` | broker/retry_delay.go:223-231 | the first header with the key is replaced, or a new one appended |
| `Headers.RemoveHeaders` | broker/retry_delay.go:233-242 | exactly the headers with other keys stay, in order |
| `Headers.UpsertLookup` | broker/retry_delay.go:165-172 | an upsert is found under its key and unnoticed under any other |
| `Routing.Router.NextRoundRobin` | broker/router.go:68-75 | the cursor's partition, the cursor one further, other topics untouched |
| `Routing.Router.SelectPartition` | broker/router.go:33-58 | explicit, hashed or round-robin choice, or the error, with the cursor moved only by round robin |
| `Routing.KeyDecides` | broker/service_helpers.go:77-107 | on a topic ordered by key a batch goes to the hash of its key modulo the partitions if and only if it fits and has one non-empty key, so batches of one key stay together |
| `Routing.RoutingKeyDecides` | broker/service_helpers.go:83-121 | on a topic ordered by routing key likewise with the one routing key that the request or its records name |
| `Routing.ModeDecides` | broker/router.go:32-58 | on any other topic a batch that fits goes exactly where its mode sends it |
| `Routing.RoundRobinTurns` | broker/router.go:68-75 | the n-th round-robin batch goes n partitions further round |
| `Routing.ReplanAgreesExactlyWhen` | broker/service_helpers.go:67-120 | planned again with its partition pinned, a request lands there for every cursor if and only if the topic is not ordered by routing key or some record carries one; otherwise it is refused |
| `Routing.UnstampedRefused` | broker/service_helpers.go:67-120 | a batch whose records do not carry its routing key is planned once and refused when planned again |
| `Routing.RecordsWithRoutingKey` | broker/routing_key.go:36-46 | every record is stamped with the request's routing key |
| `Routing.PlanAfterCodec` | broker/raft_binary_produce_codec.go:258-296 | planning does not see what the codec changes |
| `Routing.ReplicasAgree` | broker/cluster_coalesced_router.go:103-115 | a stamped non-empty batch, pinned and sent through the codec, is planned to the same partition for every policy and cursor |
| `Commits.CompactCommitOffsetCommands` | broker/service_apply.go:212-222 | one commit per consumer and partition |
| `Commits.CompactedPicks` | broker/service_apply.go:212-222 | it has the highest offset of its key |
| `Commits.CompactionAgreesExactlyWhen` | broker/service_apply.go:173-222 | compaction saves what saving in order would save for a key if and only if no commit of it has a higher offset than its last one |
| `Commits.CommitGoesBack` | broker/service_apply.go:212-222 | a commit of 5 followed by one of 3: in order 3 stays, compacted 5 |
| `AckOffsets.NormalizePending` | store/offset_pending.go:5-26 | pending offsets sorted, repeats and offsets below next dropped |
| `AckOffsets.NormalizeCorrect` | store/offset_pending.go:5-26 | the result rises strictly and holds exactly the pending offsets not below next |
| `AckOffsets.DrainAckedOffsets` | broker/ack_offsets.go:53-68 | the loop drains as specified, 64-bit increment included |
| `AckOffsets.Consumer.AckOffset` | broker/ack_offsets.go:9-51 | the state saved by one acknowledgement |
| `AckOffsets.AckAddsOneExactlyWhen` | broker/ack_offsets.go:30-68 | whatever is stored, an ack adds exactly its offset to the acknowledged set if and only if it does not complete the range up to the last 64-bit offset; if it does, everything is forgotten |
| `AckOffsets.AfterDenotes` | broker/ack_offsets.go:9-51 | while the log start moves forward the acknowledged offsets are exactly those acknowledged and those below the log start |
| `AckOffsets.OrderDoesNotMatter` | broker/ack_offsets.go:30-68 | with a log start that stays, runs of acks with the same offsets, in any order and repetition, leave the same state |
| `AckOffsets.NextIsLeastUnacked` | broker/ack_offsets.go:53-68 | with a log start that stays, the next offset is the least one not acknowledged |
| `AckOffsets.RecordsWithoutPending` | broker/ack_offsets.go:84-93 | the records whose offsets are not pending, in order |
| `Logs.ReadsExactly` | store/storx_log_read.go:8-30 | a read returns, in offset order, exactly the records from the offset on with room before them |
| `AckOffsets.FetchSkipsAcked` | broker/ack_offsets.go:70-93 | of a fetch from the next offset exactly the records not acknowledged are handed out, also after the log start has moved |
| `AckOffsets.SkippedDrainExactlyWhen` | broker/ack_offsets.go:30-51 | whatever is stored, an ack leaves a drained state if and only if it is not below the next offset or the next offset was not acknowledged early |
| `AckOffsets.SkippedDrainExample` | broker/ack_offsets.go:45-47 | 5 acknowledged early, the log starting at 5, an ack of 3: 5 is saved as next and as pending |
| `AckOffsets.SkippedDrainAgain` | broker/ack_offsets.go:45-47 | and the next ack of 3 saves the same state again, with no log start moving |
| `AckOffsets.LastOffsetWraps` | broker/ack_offsets.go:59-62 | a consumer that committed the last 64-bit offset and acknowledges it starts again from zero |
| `Decimal.ParseFormat` | broker/retry_delay.go:174-199 | a formatted number parses back |
| `Retry.RetryRecordAppend` | broker/retry_apply.go:58-74 | the retry record: the source record with the seven retry headers upserted |
| `Retry.BuildDLQAppend` | broker/retry_helpers.go:75-90 | the dead letter: delivery time dropped, the six dead-letter headers upserted |
| `Retry.ProcessRetryRecord` | broker/retry_apply.go:153-222 | one retry record: not due, failed, back to its origin, to the dead letters, or failed with a dead letter published whose index entry was not saved |
| `Retry.RecordRetryMoves` | broker/retry_apply.go:173-179 | every move is counted once, under where it went |
| `Retry.ProcessFetchedRetryRecords` | broker/retry_apply.go:120-144 | the due prefix is moved in order, the batch stops where it must, the cursor moves only past what was moved by a batch without failure, and what the failing record left behind |
| `RetryRuns.RetryTellsOrigin` | broker/retry_helpers.go:51-73 | a retry record names its origin and count wherever it is stored |
| `RetryRuns.RetryTellsNack` | broker/retry_apply.go:58-74 | a retry record says when it is to be delivered, the last error and the consumer that failed |
| `RetryRuns.RetryWaits` | broker/retry_apply.go:153-222 | a retry record is moved at the time the nack asked for and not before, to its origin while its count is below the limit and to the dead letters from then on |
| `RetryRuns.AroundKeeps` | broker/retry_apply.go:10-74 | after any number of nacks the record names the first copy's place and the count and carries its content |
| `RetryRuns.RetryLifeCycle` | broker/retry_apply.go:197-222 | nacked every time, a message returns to its origin while the count is below the limit and goes to the dead letters then, not before |
| `RetryRuns.DlqTellsOrigin` | broker/dlq_record.go:9-38 | a dead letter names its origin, count, error code and last error |
| `RetryRuns.ReplayRestores` | broker/dlq_record.go:93-98 | replay strips exactly what was added: key, payload, attributes and headers in order are those of the first copy |
| `RetryWorker.RetryRuntime.ApplyProcessRetryBatch` | broker/retry_apply.go:76-144 | one batch: what it publishes and where it leaves the worker's offset, whatever fails |
| `RetryWorker.FetchedExactly` | broker/retry_apply.go:76-118 | a batch fetches the records from its offset on, in order and as many as it may |
| `RetryWorker.PassesBetween` | broker/retry_apply.go:181-195 | a batch that commits has moved exactly the records from its offset up to where it leaves it |
| `RetryWorker.ReachedIsMoved` | broker/retry_apply.go:120-144 | a batch that meets no failure publishes exactly the records it fetches up to the first that is not to go, and commits them unless that one cannot be read |
| `RetryWorker.MovedExactly` | broker/retry_apply.go:76-144 | over every run a retry record that is still there was published once if it is behind the offset, and besides once for each batch that published it and then failed at a later record, at its index entry or at committing |
| `RetryWorker.CommittedOnce` | broker/retry_apply.go:181-195 | whether still there or not, a record is committed at most once |
| `RetryWorker.StrayMovedTwice` | broker/retry_apply.go:213-220 | a dead letter whose index entry is not saved is published again by the next batch |
| `Dlq.AppendMatching` | broker/dlq.go:228-251 | matches of a batch are added up to the limit and how far it looked, or that it met a record that cannot be parsed |
| `Dlq.ScanNextBatch` | broker/dlq.go:209-228 | one batch of the scan: what is found after it, where it leaves off, whether the scan stops there, or that its read or one of its records fails |
| `Dlq.ScanDLQRecords` | broker/dlq.go:179-226 | the scanned page, or an error if and only if a record the page looks at cannot be parsed or one of the batch reads it makes fails |
| `Dlq.BreaksExactlyWhen` | broker/dlq.go:228-251 | a page breaks if and only if a record that cannot be parsed has fewer matches than the limit before it |
| `Dlq.ReadFailsExactlyWhen` | broker/dlq.go:179-226 | a scan fails to read if and only if one of the reads it makes, a batch apart, fails |
| `Dlq.AboutFinds` | broker/dlq_record.go:40-91 | a letter matches the query for everything it says, and whatever else matches it says the same |
| `Dlq.QueryByIndex` | broker/dlq_query_index.go:8-66 | the indexed page, none without entries, or an error if and only if an entry the page looks at names a letter that is gone or cannot be read or parsed |
| `Dlq.ReadRecordAtOffset` | broker/retry_delay.go:68-77 | the letter an entry names, or none if it is gone or cannot be read or parsed |
| `Dlq.QueryDLQ` | broker/dlq.go:156-177 | nothing without the topic, else index first, scan otherwise, or an error where checking the topic, loading offsets or listing the index fails |
| `Dlq.QueryErrsExactlyWhen` | broker/dlq_query_index.go:39-66 | with a working store a query is an error if and only if an entry passing the index's filter names a letter that is gone, with fewer than the limit of matching entries before it |
| `DlqPaging.AnswerExactly` | broker/dlq.go:156-177 | with a working store the pages followed below are exactly what the query answers |
| `DlqPaging.ScanProper` | broker/dlq.go:179-251 | a scanned page holds exactly the matches from its offset to where the next page starts, and passes a record if there is one |
| `DlqPaging.IndexProper` | broker/dlq_query_index.go:8-66 | an indexed page holds exactly the matches indexed under the source topic up to where the next page starts, and passes a record |
| `DlqPaging.GatheredExact` | broker/dlq.go:156-177 | however index and scan alternate, the pages hold matches only, in order and without repetition, and every indexed match of the source passed so far |
| `DlqPaging.PagingYieldsOwn` | broker/dlq.go:156-177 | when there is no more, every indexed match of the source has been returned once in offset order |
| `DlqPaging.PagingYieldsAll` | broker/dlq.go:156-177 | if every match is indexed under the source topic, exactly the matches have been returned |
| `DlqPaging.AnsweringYields` | broker/dlq.go:156-177 | following a query's answers returns exactly the matches indexed under the source topic and those behind every entry passing the index's filter |
| `DlqPaging.AnsweringYieldsAllExactlyWhen` | broker/dlq.go:156-177 | so it returns every match if and only if each is one of these |
| `DlqPaging.PagingEnds` | broker/dlq_record.go:100-102 | with the record at the high watermark present, or from an offset beyond it, paging ends within one page per remaining record |
| `DlqPaging.PagingNeverEnds` | broker/dlq_record.go:100-102 | otherwise every page says there is more |
| `DlqPaging.StaleEnds` | broker/dlq_query_index.go:39-66 | with an entry ahead whose letter is gone no page is the last, and there are at most as many pages as remaining records |
| `DlqPaging.FreshGoesOn` | broker/dlq_query_index.go:39-66 | without one no page is followed by an error |
| `DlqPaging.AnsweringEndsExactlyWhen` | broker/dlq_record.go:100-102 | following a query's answers ends if and only if the record at the high watermark is there, the first offset is beyond it, or an entry ahead names a letter that is gone |
| `DlqPaging.NeverEndsExample` | broker/dlq_record.go:100-102 | two letters published, the second gone: behind the first every page is empty and says there is more |
| `DlqPaging.StaleExample` | broker/retry_delay.go:68-77 | if the index still has the second, asking there is an error |
| `DlqPaging.OtherOnlyScanned` | broker/dlq_index.go:31-45 | a match not indexed under the source topic is returned by a scan and by no indexed page |
| `DlqPaging.ForeignMissed` | broker/dlq_index.go:31-45 | of two matches the one from another source topic is never returned |

## Left out

- `Reassignment`: an append, a placement save or a snapshot either happens or fails without effect; only replace and clear leave partial data behind. Restoring a metadata snapshot, which does not refresh the placement cache, is not modelled, nor are the checks that the topic and partition exist.
- `Reassignment.Runtime`: every operation is one step, as under its partition's lock; resolving outside the lock is treated only by the two late-cache lemmas.
- `Idempotency`: a batch append is all or nothing. Transactions are not modelled.
- `Receipts.SuccessIsReceipt`: records are not cleaned up while a command is applied; clean-ups between commands are treated by `CommandRuns`.
- `Grouping`: planning is an input, as it depends on the order of requests and not on the logs; what planning does is in `Routing`. The remembered batches are kept per partition. Offsets are unbounded here.
- `EndToEnd.ServeWorks`: a command that is cut off after some of its shards have been applied is not modelled. No error message is empty, so an item without an error is a success.
- `ShardedApply`: a shard command that fails is taken not to have been applied. The commit twin of the scatter and gather is the same code and is not repeated.
- `Batcher`: the commit batcher is the same protocol with other payloads; a caller that stops waiting is seen only as a cancelled context.
- `Routing`: the priority policy and the lookup of a missing topic are not modelled; the hash is any function.
- `Streams`: machine integers are 64 bits wide, so a 32-bit length always converts. Nil and empty slices are the same value.
- `Retry`: backoff times are inputs, the priority policy is not modelled, and a dead letter is described by its origin topic rather than by the dead-letter topic's name. A stored record keeps the time stamp it was appended with.
- `RetryWorker`: a record whose origin or topic cannot be loaded counts as one whose publishing fails. There is one worker per partition of a retry topic.
- `Dlq`: the index is any list of letters that were published, in offset order. In `DlqPaging` the store works and every letter can be parsed; where it does not, an answer that is not an error is the same page.
- `Leadership`: leaders change only through granted transfers during a pass.
- `GroupRuns`: generations beyond 64 bits; the run theorems hold for runs of up to that many events. Failing loads and listings of a rebalance have the effect of a failing save and are not told apart from it.
- Storage segments and indexes, retention, quotas, authentication, tenant scoping, delayed delivery, direct messages, metrics, tracing, events, configuration, the admin and TCP servers, the client packages and the Raft library: plumbing or external, with no property of this depth.
