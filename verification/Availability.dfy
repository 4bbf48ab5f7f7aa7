/** When the sharded runtime refuses an operation, and so when it does not, for single steps and over whole runs. */
module Availability {
  import opened Basics
  import opened Logs
  import opened Reassignment

  // ---- Single steps ----

  /** The placement cannot be found out: it is not cached and loading it fails. */
  predicate Unresolved(s: State, tp: TopicPartition, loadFails: bool) {
    loadFails && tp !in s.cache
  }

  /** A set-up stops at a partition it has to set up: loading its placement fails, or saving one that is not stored. */
  predicate SetUpStops(s: State, topic: string, partitions: nat, fault: EnsureFault) {
    match fault
    case NoFault => false
    case LoadFails(at) => at < PartitionCount(partitions)
    case SaveFails(at) => at < PartitionCount(partitions) && TopicPartition(topic, at) !in s.placements
  }

  /** A move to another shard cannot take the data there. */
  predicate TransferStops(s: State, source: ShardID, target: ShardID, f: MoveFaults) {
    source != target && (source !in s.shards || target !in s.shards || f.snapshot || f.replace.Some?)
  }

  /** Every reason there is for an operation to fail. */
  predicate ShouldFail(s: State, e: Event) {
    match e
    case Publish(tp, _, loadFails, appendFails) =>
      Unresolved(s, tp, loadFails) || Placed(s, tp) !in s.shards || appendFails
    case Read(tp, _, _, loadFails, readFails) =>
      Unresolved(s, tp, loadFails) || Placed(s, tp) !in s.shards || readFails
    case Ensure(topic, partitions, fault) => SetUpStops(s, topic, partitions, fault)
    case Move(tp, target, f) =>
      || target >= s.shardCount || Unresolved(s, tp, f.load)
      || TransferStops(s, Placed(s, tp), target, f) || f.save
  }

  lemma {:induction false} MoveFailsExactlyWhen(s: State, tp: TopicPartition, target: ShardID, f: MoveFaults)
    requires CacheAgrees(s) && target < s.shardCount && !Unresolved(s, tp, f.load)
    ensures Moved(s, tp, target, f).1.Failed? <==> TransferStops(s, Placed(s, tp), target, f) || f.save
  {
    ResolvedIsPlaced(s, tp, f.load);
    var s' := Resolved(s, tp, f.load).0;
    TransferFails(s', tp, Placed(s, tp), target, f);
  }

  lemma {:induction false} TransferFails(s: State, tp: TopicPartition, source: ShardID, target: ShardID, f: MoveFaults)
    ensures MovedFrom(s, tp, source, target, f).1.Failed? <==> TransferStops(s, source, target, f) || f.save
  {
  }

  /** With a cache that agrees with the store, an operation fails if and only if there is one of the known reasons. */
  lemma {:induction false} FailsExactlyWhen(s: State, e: Event)
    requires CacheAgrees(s)
    ensures Apply(s, e).1.Failed? <==> ShouldFail(s, e)
  {
    match e
    case Publish(tp, _, loadFails, _) => ResolvedIsPlaced(s, tp, loadFails);
    case Read(tp, _, _, loadFails, _) => ResolvedIsPlaced(s, tp, loadFails);
    case Ensure(_, _, _) =>
    case Move(tp, target, f) =>
      if target < s.shardCount && !Unresolved(s, tp, f.load) { MoveFailsExactlyWhen(s, tp, target, f); }
  }

  // ---- What a set-up stores ----

  lemma {:induction false} EnsuredStores(s: State, topic: string, n: nat, p: nat)
    requires p < n && CacheAgrees(s)
    ensures
      var t, tp := EnsuredUpTo(s, topic, n), TopicPartition(topic, p);
      tp in t.placements && tp in t.cache && t.placements[tp] == t.cache[tp] == Placed(s, tp)
  {
    EnsureKeepsPlaced(s, topic, n - 1);
    if p < n - 1 { EnsuredStores(s, topic, n - 1, p); }
  }

  /** How many partitions a set-up gets through. */
  function SetUp(s: State, topic: string, partitions: nat, fault: EnsureFault): nat {
    if SetUpStops(s, topic, partitions, fault) then fault.at else PartitionCount(partitions)
  }

  /**
   * A set-up stores and caches the placement of each partition it gets through, which is the stored one or the default,
   * and stores nothing for any other.
   */
  lemma {:induction false} SetUpStores(s: State, topic: string, partitions: nat, fault: EnsureFault, tp: TopicPartition)
    requires CacheAgrees(s)
    ensures
      var t := Ensured(s, topic, partitions, fault).0;
      if tp.topic == topic && tp.partition < SetUp(s, topic, partitions, fault) then
        tp in t.placements && tp in t.cache && t.placements[tp] == t.cache[tp] == Placed(s, tp)
      else (tp in t.placements <==> tp in s.placements) && (tp in t.cache <==> tp in s.cache)
  {
    var n := SetUp(s, topic, partitions, fault);
    assert Ensured(s, topic, partitions, fault).0 == EnsuredUpTo(s, topic, n);
    if tp.topic == topic && tp.partition < n {
      EnsuredStores(s, topic, n, tp.partition);
    } else {
      EnsuredElsewhere(s, topic, n, tp);
    }
  }

  // ---- What stays ----

  lemma {:induction false} MoveKeepsShards(
    s: State, tp: TopicPartition, source: ShardID, target: ShardID, f: MoveFaults)
    requires tp in s.cache
    ensures
      var t := MovedFrom(s, tp, source, target, f).0;
      && t.shards.Keys == s.shards.Keys && t.shardCount == s.shardCount
      && forall q :: q in t.cache <==> q in s.cache
  {
    if source != target && source in s.shards && target in s.shards {
      assert {source} <= s.shards.Keys && {target} <= s.shards.Keys;
    }
  }

  /** The event finds out where the partition is. */
  predicate Resolves(s: State, e: Event, tp: TopicPartition) {
    match e
    case Publish(p, _, loadFails, _) => p == tp && !loadFails
    case Read(p, _, _, loadFails, _) => p == tp && !loadFails
    case Ensure(topic, partitions, fault) => topic == tp.topic && tp.partition < SetUp(s, topic, partitions, fault)
    case Move(p, target, f) => p == tp && !f.load && target < s.shardCount
  }

  /** Shards stay registered, and exactly those partitions are cached that were or that the event finds out about. */
  ghost predicate Kept(s: State, e: Event, t: State) {
    && t.shards.Keys == s.shards.Keys && t.shardCount == s.shardCount
    && forall q :: q in t.cache <==> q in s.cache || Resolves(s, e, q)
  }

  lemma {:induction false} PublishKeeps(s: State, e: Event)
    requires CacheAgrees(s) && e.Publish?
    ensures Kept(s, e, Apply(s, e).0)
  {
    ResolvedIsPlaced(s, e.tp, e.loadFails);
    if !ShouldFail(s, e) { assert {Placed(s, e.tp)} <= s.shards.Keys; }
  }

  lemma {:induction false} SetUpKeeps(s: State, e: Event)
    requires CacheAgrees(s) && e.Ensure?
    ensures Kept(s, e, Apply(s, e).0)
  {
    forall q ensures q in Apply(s, e).0.cache <==> q in s.cache || Resolves(s, e, q) {
      SetUpStores(s, e.topic, e.partitions, e.fault, q);
    }
    var n := SetUp(s, e.topic, e.partitions, e.fault);
    EnsuredElsewhere(s, e.topic, n, TopicPartition(e.topic, n));
  }

  lemma {:induction false} MoveKeeps(s: State, e: Event)
    requires CacheAgrees(s) && e.Move?
    ensures Kept(s, e, Apply(s, e).0)
  {
    if e.target < s.shardCount && !Unresolved(s, e.tp, e.faults.load) {
      ResolvedIsPlaced(s, e.tp, e.faults.load);
      MoveKeepsShards(Resolved(s, e.tp, e.faults.load).0, e.tp, Placed(s, e.tp), e.target, e.faults);
    }
  }

  lemma {:induction false} StepKeeps(s: State, e: Event)
    requires CacheAgrees(s)
    ensures Kept(s, e, Apply(s, e).0)
  {
    match e
    case Publish(_, _, _, _) => PublishKeeps(s, e);
    case Read(tp, _, _, loadFails, _) => ResolvedIsPlaced(s, tp, loadFails);
    case Ensure(_, _, _) => SetUpKeeps(s, e);
    case Move(_, _, _) => MoveKeeps(s, e);
  }

  /** A partition on a registered shard stays on one: no move completes to a shard that is not registered. */
  lemma {:induction false} StepStaysRegistered(s: State, e: Event, tp: TopicPartition)
    requires CacheAgrees(s) && Placed(s, tp) in s.shards
    ensures Placed(Apply(s, e).0, tp) in Apply(s, e).0.shards
  {
    StepKeeps(s, e);
    StepPlaces(s, e, tp);
    FailsExactlyWhen(s, e);
    assert Placed(s, tp) in s.shards.Keys;
    if e.Move? && e.tp == tp && Apply(s, e).1 == Done {
      assert e.target in s.shards.Keys;
    }
  }

  // ---- Whole runs ----

  lemma {:induction false} RunKeeps(
    states: seq<State>, events: seq<Event>, replies: seq<Reply>, n: nat, tp: TopicPartition)
    requires IsRun(states, events, replies) && n <= |events| && Placed(states[0], tp) in states[0].shards
    ensures Valid(states[n]) && Placed(states[n], tp) in states[n].shards
  {
    RunLooksLikeOneLog(states, events, replies, n, tp);
    if n > 0 {
      RunKeeps(states, events, replies, n - 1, tp);
      assert IsStep(states, events, replies, n - 1);
      StepStaysRegistered(states[n - 1], events[n - 1], tp);
    }
  }

  /** One of the first n events has found out where the partition is, or it was cached from the start. */
  ghost predicate Known(states: seq<State>, events: seq<Event>, n: nat, tp: TopicPartition)
    requires n <= |events| < |states|
  {
    tp in states[0].cache || exists j: nat :: j < n && Resolves(states[j], events[j], tp)
  }

  lemma {:induction false} KnownNext(states: seq<State>, events: seq<Event>, n: nat, tp: TopicPartition)
    requires 0 < n <= |events| < |states|
    ensures Known(states, events, n, tp)
       <==> Known(states, events, n - 1, tp) || Resolves(states[n - 1], events[n - 1], tp)
  {
    if j: nat :| j < n && Resolves(states[j], events[j], tp) {
      assert j < n - 1 || j == n - 1;
    }
  }

  lemma {:induction false} RunKnows(
    states: seq<State>, events: seq<Event>, replies: seq<Reply>, n: nat, tp: TopicPartition)
    requires IsRun(states, events, replies) && n <= |events|
    ensures tp in states[n].cache <==> Known(states, events, n, tp)
  {
    if n > 0 {
      RunLooksLikeOneLog(states, events, replies, n - 1, tp);
      assert IsStep(states, events, replies, n - 1);
      StepKeeps(states[n - 1], events[n - 1]);
      RunKnows(states, events, replies, n - 1, tp);
      KnownNext(states, events, n, tp);
    }
  }

  /**
   * In every run, a publish to a partition that started out on a registered shard is acknowledged, with the offsets a
   * single log would give, if and only if the append does not fail and the placement can be loaded or an earlier
   * operation has found it out. However often the partition was moved in between, and wherever moves failed.
   */
  lemma {:induction false} AcknowledgedExactlyWhen(
    states: seq<State>, events: seq<Event>, replies: seq<Reply>, k: nat)
    requires IsRun(states, events, replies) && k < |events| && events[k].Publish?
    requires Placed(states[0], events[k].tp) in states[0].shards
    ensures
      var e := events[k];
      var log := Append(Logical(states[0], e.tp), PublishedBy(events, replies, k, e.tp));
      if !e.appendFails && (!e.loadFails || Known(states, events, k, e.tp)) then
        replies[k] == Records(Stamp(log.next, e.payloads))
      else replies[k].Failed?
  {
    var e := events[k];
    RunKeeps(states, events, replies, k, e.tp);
    assert IsStep(states, events, replies, k);
    FailsExactlyWhen(states[k], e);
    RepliesLookLikeOneLog(states, events, replies, k);
    RunKnows(states, events, replies, k, e.tp);
  }

  /** A new runtime spreads partitions by number: each is at its number modulo the shards until a move completes. */
  lemma {:induction false} RunSpreads(
    states: seq<State>, events: seq<Event>, replies: seq<Reply>, n: nat, tp: TopicPartition, shardCount: nat)
    requires IsRun(states, events, replies) && n <= |events| && shardCount > 0
    requires states[0].shardCount == shardCount && states[0].placements == map[]
    ensures Placed(states[n], tp) == match LastMove(events, replies, n, tp)
                                     case None => tp.partition % shardCount
                                     case Some(target) => target
  {
    RunPlaces(states, events, replies, n, tp);
  }
}
