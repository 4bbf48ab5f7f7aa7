/**
 * The sharded message runtime with live partition moves: placement store, placement cache and shard logs, every
 * operation holding its partition's lock.
 */
module Reassignment {
  import opened Basics
  import opened Sorting
  import opened Logs

  type ShardID = nat
  type Shard = map<TopicPartition, Log>

  datatype State = State(
    shardCount: nat, placements: map<TopicPartition, ShardID>, cache: map<TopicPartition, ShardID>,
    shards: map<ShardID, Shard>)

  const Cleared := Log([], 0)

  function Default(s: State, tp: TopicPartition): ShardID {
    if s.shardCount == 0 then 0 else tp.partition % s.shardCount
  }

  /** Where the placement store puts a partition. */
  function Placed(s: State, tp: TopicPartition): ShardID {
    if tp in s.placements then s.placements[tp] else Default(s, tp)
  }

  function LogAt(s: State, id: ShardID, tp: TopicPartition): Log {
    if id in s.shards && tp in s.shards[id] then s.shards[id][tp] else Cleared
  }

  function SetLog(s: State, id: ShardID, tp: TopicPartition, log: Log): State
    requires id in s.shards
  {
    s.(shards := s.shards[id := s.shards[id][tp := log]])
  }

  // ---- Moving a partition's data ----

  predicate OffsetLe(a: Record, b: Record) {
    a.offset <= b.offset
  }

  function NextFromRecords(records: seq<Record>): nat {
    if records == [] then 0
    else Max(NextFromRecords(records[..|records| - 1]), records[|records| - 1].offset + 1)
  }

  /** A partition log rebuilt from a snapshot: records in offset order, next offset above all of them. */
  function Replaced(snapshot: Log): Log {
    Log(Sort(snapshot.records, OffsetLe), Max(snapshot.next, NextFromRecords(snapshot.records)))
  }

  lemma {:induction false} NextAbove(records: seq<Record>, next: nat)
    requires forall r :: r in records ==> r.offset < next
    ensures NextFromRecords(records) <= next
  {
    if records != [] { NextAbove(records[..|records| - 1], next); }
  }

  lemma {:induction false} ReplacedIsIdentity(log: Log)
    requires LogOk(log)
    ensures Replaced(log) == log
  {
    SortOfSorted(log.records, OffsetLe);
    NextAbove(log.records, log.next);
  }

  // ---- Events ----

  /**
   * Where a move fails. A failed replace leaves any log behind in the target and a failed clear leaves any log behind
   * in the source.
   */
  datatype MoveFaults = MoveFaults(load: bool, snapshot: bool, replace: Option<Log>, save: bool, clear: Option<Log>)

  datatype EnsureFault = NoFault | LoadFails(at: nat) | SaveFails(at: nat)

  datatype Event =
    | Publish(tp: TopicPartition, payloads: seq<Payload>, loadFails: bool, appendFails: bool)
    | Read(tp: TopicPartition, offset: nat, maxRecords: nat, loadFails: bool, readFails: bool)
    | Ensure(topic: string, partitions: nat, fault: EnsureFault)
    | Move(tp: TopicPartition, target: ShardID, faults: MoveFaults)

  datatype Reply = Records(records: seq<Record>) | Done | Failed(error: string)

  // ---- Resolving ----

  function Resolved(s: State, tp: TopicPartition, loadFails: bool): (State, Option<ShardID>) {
    if tp in s.cache then (s, Some(s.cache[tp]))
    else if loadFails then (s, None)
    else (s.(cache := s.cache[tp := Placed(s, tp)]), Some(Placed(s, tp)))
  }

  // ---- The steps ----

  function Published(s: State, tp: TopicPartition, payloads: seq<Payload>, loadFails: bool, appendFails: bool)
    : (State, Reply)
  {
    var (s', shard) := Resolved(s, tp, loadFails);
    if shard.None? then (s', Failed("load shard placement"))
    else if shard.value !in s'.shards then (s', Failed("message shard is not registered"))
    else if appendFails then (s', Failed("publish message batch"))
    else
      var log := LogAt(s', shard.value, tp);
      (SetLog(s', shard.value, tp, Append(log, payloads)), Records(Stamp(log.next, payloads)))
  }

  function ReadBy(s: State, tp: TopicPartition, offset: nat, maxRecords: nat, loadFails: bool, readFails: bool)
    : (State, Reply)
  {
    var (s', shard) := Resolved(s, tp, loadFails);
    if shard.None? then (s', Failed("load shard placement"))
    else if shard.value !in s'.shards then (s', Failed("message shard is not registered"))
    else if readFails then (s', Failed("read sharded messages"))
    else (s', Records(ReadFrom(LogAt(s', shard.value, tp), offset, maxRecords)))
  }

  function EnsuredOne(s: State, tp: TopicPartition): State {
    s.(placements := s.placements[tp := Placed(s, tp)], cache := s.cache[tp := Placed(s, tp)])
  }

  function EnsuredUpTo(s: State, topic: string, n: nat): State {
    if n == 0 then s else EnsuredOne(EnsuredUpTo(s, topic, n - 1), TopicPartition(topic, n - 1))
  }

  /** A topic with no partition count gets one partition. */
  function PartitionCount(partitions: nat): nat {
    if partitions == 0 then 1 else partitions
  }

  /** Whether ensuring a partition placement fails: its load does, or its save where nothing was stored yet. */
  predicate EnsureStops(s: State, tp: TopicPartition, fault: EnsureFault) {
    match fault
    case NoFault => false
    case LoadFails(i) => i == tp.partition
    case SaveFails(i) => i == tp.partition && tp !in s.placements
  }

  function Ensured(s: State, topic: string, partitions: nat, fault: EnsureFault): (State, Reply) {
    var n := PartitionCount(partitions);
    if !fault.NoFault? && fault.at < n && EnsureStops(s, TopicPartition(topic, fault.at), fault)
    then (EnsuredUpTo(s, topic, fault.at), Failed("shard placement"))
    else (EnsuredUpTo(s, topic, n), Done)
  }

  /** The commit of a move: the placement is saved and cached, or neither happens. */
  function Committed(s: State, tp: TopicPartition, target: ShardID, saveFails: bool): (State, Reply) {
    if saveFails then (s, Failed("commit partition reassignment"))
    else (s.(placements := s.placements[tp := target], cache := s.cache[tp := target]), Done)
  }

  /** A move once its source shard is known. */
  function MovedFrom(s: State, tp: TopicPartition, source: ShardID, target: ShardID, f: MoveFaults): (State, Reply) {
    if source == target then Committed(s, tp, target, f.save)
    else if source !in s.shards || target !in s.shards then (s, Failed("message shard is not registered"))
    else if f.snapshot then (s, Failed("snapshot source partition"))
    else if f.replace.Some? then (SetLog(s, target, tp, f.replace.value), Failed("restore target partition"))
    else
      var copied := SetLog(s, target, tp, Replaced(LogAt(s, source, tp)));
      var (committed, reply) := Committed(copied, tp, target, f.save);
      if reply.Failed? then (committed, reply)
      else (SetLog(committed, source, tp, if f.clear.Some? then f.clear.value else Cleared), Done)
  }

  function Moved(s: State, tp: TopicPartition, target: ShardID, f: MoveFaults): (State, Reply) {
    if target >= s.shardCount then (s, Failed("target shard is outside configured shard count"))
    else
      var (s', shard) := Resolved(s, tp, f.load);
      if shard.None? then (s', Failed("load shard placement"))
      else MovedFrom(s', tp, shard.value, target, f)
  }

  function Apply(s: State, e: Event): (State, Reply) {
    match e
    case Publish(tp, payloads, loadFails, appendFails) => Published(s, tp, payloads, loadFails, appendFails)
    case Read(tp, offset, maxRecords, loadFails, readFails) => ReadBy(s, tp, offset, maxRecords, loadFails, readFails)
    case Ensure(topic, partitions, fault) => Ensured(s, topic, partitions, fault)
    case Move(tp, target, faults) => Moved(s, tp, target, faults)
  }

  // ---- The runtime, updating its stores in place ----

  class Runtime {
    const shardCount: nat
    var placements: map<TopicPartition, ShardID>
    var cache: map<TopicPartition, ShardID>
    var shards: map<ShardID, Shard>

    constructor (shardCount: nat, shards: map<ShardID, Shard>)
      ensures Value() == State(if shardCount == 0 then 1 else shardCount, map[], map[], shards)
    {
      this.shardCount := if shardCount == 0 then 1 else shardCount;
      this.shards := shards;
      placements, cache := map[], map[];
    }

    ghost function Value(): State
      reads this
    {
      State(shardCount, placements, cache, shards)
    }

    function ShardForPartition(partition: nat): ShardID {
      if shardCount == 0 then 0 else partition % shardCount
    }

    method Resolve(tp: TopicPartition, loadFails: bool) returns (shard: Option<ShardID>)
      modifies this`cache
      ensures (Value(), shard) == Resolved(old(Value()), tp, loadFails)
    {
      if tp in cache { return Some(cache[tp]); }
      if loadFails { return None; }
      var id := if tp in placements then placements[tp] else ShardForPartition(tp.partition);
      cache := cache[tp := id];
      return Some(id);
    }

    method EnsureTopic(topic: string, partitions: nat, fault: EnsureFault) returns (reply: Reply)
      modifies this`placements, this`cache
      ensures (Value(), reply) == Ensured(old(Value()), topic, partitions, fault)
    {
      var n := if partitions == 0 then 1 else partitions;
      ghost var start := Value();
      for p := 0 to n
        invariant Value() == EnsuredUpTo(start, topic, p)
        invariant forall q :: 0 <= q < p ==> !EnsureStops(start, TopicPartition(topic, q), fault)
      {
        var tp := TopicPartition(topic, p);
        EnsuredElsewhere(start, topic, p, tp);
        if fault == LoadFails(p) { return Failed("shard placement"); }
        if tp in placements {
          cache := cache[tp := placements[tp]];
          assert placements == placements[tp := placements[tp]];
        } else {
          if fault == SaveFails(p) { return Failed("shard placement"); }
          placements := placements[tp := ShardForPartition(p)];
          cache := cache[tp := ShardForPartition(p)];
        }
      }
      return Done;
    }

    method PublishBatchRecords(tp: TopicPartition, payloads: seq<Payload>, loadFails: bool, appendFails: bool)
      returns (reply: Reply)
      modifies this`cache, this`shards
      ensures (Value(), reply) == Published(old(Value()), tp, payloads, loadFails, appendFails)
    {
      var shard := Resolve(tp, loadFails);
      if shard.None? { return Failed("load shard placement"); }
      var id := shard.value;
      if id !in shards { return Failed("message shard is not registered"); }
      if appendFails { return Failed("publish message batch"); }
      var log := if tp in shards[id] then shards[id][tp] else Log([], 0);
      shards := shards[id := shards[id][tp := Append(log, payloads)]];
      return Records(Stamp(log.next, payloads));
    }

    method ReadRecords(tp: TopicPartition, offset: nat, maxRecords: nat, loadFails: bool, readFails: bool)
      returns (reply: Reply)
      modifies this`cache
      ensures (Value(), reply) == ReadBy(old(Value()), tp, offset, maxRecords, loadFails, readFails)
    {
      var shard := Resolve(tp, loadFails);
      if shard.None? { return Failed("load shard placement"); }
      var id := shard.value;
      if id !in shards { return Failed("message shard is not registered"); }
      if readFails { return Failed("read sharded messages"); }
      var log := if tp in shards[id] then shards[id][tp] else Log([], 0);
      return Records(ReadFrom(log, offset, maxRecords));
    }

    method SaveReassignedPlacement(tp: TopicPartition, target: ShardID, saveFails: bool) returns (reply: Reply)
      modifies this`placements, this`cache
      ensures (Value(), reply) == Committed(old(Value()), tp, target, saveFails)
    {
      if saveFails { return Failed("commit partition reassignment"); }
      placements := placements[tp := target];
      cache := cache[tp := target];
      return Done;
    }

    method ReassignPartition(tp: TopicPartition, target: ShardID, f: MoveFaults) returns (reply: Reply)
      modifies this
      ensures (Value(), reply) == Moved(old(Value()), tp, target, f)
    {
      if target >= shardCount { return Failed("target shard is outside configured shard count"); }
      var shard := Resolve(tp, f.load);
      if shard.None? { return Failed("load shard placement"); }
      var source := shard.value;
      if source == target {
        reply := SaveReassignedPlacement(tp, target, f.save);
        return;
      }
      if source !in shards || target !in shards { return Failed("message shard is not registered"); }
      if f.snapshot { return Failed("snapshot source partition"); }
      var snapshot := if tp in shards[source] then shards[source][tp] else Log([], 0);
      if f.replace.Some? {
        shards := shards[target := shards[target][tp := f.replace.value]];
        return Failed("restore target partition");
      }
      shards := shards[target := shards[target][tp := Replaced(snapshot)]];
      reply := SaveReassignedPlacement(tp, target, f.save);
      if reply.Failed? { return; }
      var left := if f.clear.Some? then f.clear.value else Cleared;
      shards := shards[source := shards[source][tp := left]];
      return Done;
    }
  }

  lemma {:induction false} EnsuredElsewhere(s: State, topic: string, n: nat, tp: TopicPartition)
    requires tp.topic != topic || tp.partition >= n
    ensures
      var t := EnsuredUpTo(s, topic, n);
      && (tp in t.placements <==> tp in s.placements) && (tp in t.cache <==> tp in s.cache)
      && (tp in s.placements ==> t.placements[tp] == s.placements[tp])
      && (tp in s.cache ==> t.cache[tp] == s.cache[tp])
      && t.shardCount == s.shardCount && t.shards == s.shards
  {
    if n > 0 { EnsuredElsewhere(s, topic, n - 1, tp); }
  }

  // ---- What every step keeps ----

  /** The cache agrees with the placement store. */
  ghost predicate CacheAgrees(s: State) {
    forall tp :: tp in s.cache ==> s.cache[tp] == Placed(s, tp)
  }

  /** The one log a partition appears to have: the one on the shard it is placed on. */
  function Logical(s: State, tp: TopicPartition): Log {
    LogAt(s, Placed(s, tp), tp)
  }

  ghost predicate LogsOk(s: State) {
    forall tp :: LogOk(Logical(s, tp))
  }

  ghost predicate Valid(s: State) {
    CacheAgrees(s) && LogsOk(s)
  }

  lemma {:induction false} ResolvedIsPlaced(s: State, tp: TopicPartition, loadFails: bool)
    requires CacheAgrees(s)
    ensures
      var (s', shard) := Resolved(s, tp, loadFails);
      && CacheAgrees(s') && s' == s.(cache := s'.cache)
      && (shard.Some? ==> shard.value == Placed(s, tp))
      && (shard.None? ==> loadFails && tp !in s.cache)
  {
  }

  /** What an event does to the apparent log of a partition: only a publish that is acknowledged changes it. */
  function LogicalAfter(log: Log, tp: TopicPartition, e: Event, reply: Reply): Log {
    if e.Publish? && e.tp == tp && reply.Records? then Append(log, e.payloads) else log
  }

  /** What the client of a single log would be told. */
  function ExpectedReply(log: Log, e: Event): Reply {
    match e
    case Publish(_, payloads, _, _) => Records(Stamp(log.next, payloads))
    case Read(_, offset, maxRecords, _, _) => Records(ReadFrom(log, offset, maxRecords))
    case Ensure(_, _, _) => Done
    case Move(_, _, _) => Done
  }

  lemma {:induction false} PublishLooksLikeOneLog(s: State, e: Event, tp: TopicPartition)
    requires CacheAgrees(s) && e.Publish?
    ensures
      var (s', reply) := Apply(s, e);
      && CacheAgrees(s') && Logical(s', tp) == LogicalAfter(Logical(s, tp), tp, e, reply)
      && (reply.Failed? || reply == ExpectedReply(Logical(s, e.tp), e))
  {
    ResolvedIsPlaced(s, e.tp, e.loadFails);
  }

  lemma {:induction false} ReadLooksLikeOneLog(s: State, e: Event, tp: TopicPartition)
    requires CacheAgrees(s) && e.Read?
    ensures
      var (s', reply) := Apply(s, e);
      && CacheAgrees(s') && Logical(s', tp) == Logical(s, tp)
      && (reply.Failed? || reply == ExpectedReply(Logical(s, e.tp), e))
  {
    ResolvedIsPlaced(s, e.tp, e.loadFails);
  }

  lemma {:induction false} EnsureKeepsPlaced(s: State, topic: string, n: nat)
    requires CacheAgrees(s)
    ensures
      var t := EnsuredUpTo(s, topic, n);
      && CacheAgrees(t) && t.shards == s.shards && forall tp :: Placed(t, tp) == Placed(s, tp)
  {
    if n > 0 {
      EnsureKeepsPlaced(s, topic, n - 1);
      var t := EnsuredUpTo(s, topic, n - 1);
      EnsuredElsewhere(s, topic, n - 1, TopicPartition(topic, n - 1));
    }
  }

  lemma {:induction false} EnsureLooksLikeNothing(s: State, e: Event, tp: TopicPartition)
    requires CacheAgrees(s) && e.Ensure?
    ensures
      var (s', reply) := Apply(s, e);
      CacheAgrees(s') && Logical(s', tp) == Logical(s, tp) && (reply.Failed? || reply == Done)
  {
    var n := PartitionCount(e.partitions);
    EnsureKeepsPlaced(s, e.topic, n);
    if !e.fault.NoFault? { EnsureKeepsPlaced(s, e.topic, e.fault.at); }
  }

  lemma {:induction false} MoveFromKeepsLog(s: State, tp: TopicPartition, target: ShardID, f: MoveFaults)
    requires CacheAgrees(s) && Replaced(Logical(s, tp)) == Logical(s, tp)
    ensures
      var (s', reply) := MovedFrom(s, tp, Placed(s, tp), target, f);
      && Logical(s', tp) == Logical(s, tp) && (reply.Failed? || reply == Done)
      && (tp in s'.cache ==> s'.cache[tp] == Placed(s', tp))
      && (reply == Done ==> Placed(s', tp) == target)
      && (reply == Done && f.clear.None? && Placed(s, tp) != target ==> LogAt(s', Placed(s, tp), tp) == Cleared)
  {
  }

  lemma {:induction false} MoveFromKeepsOthers(
    s: State, tp: TopicPartition, source: ShardID, target: ShardID, f: MoveFaults, q: TopicPartition)
    requires q != tp
    ensures
      var s' := MovedFrom(s, tp, source, target, f).0;
      && Placed(s', q) == Placed(s, q) && Logical(s', q) == Logical(s, q)
      && (q in s'.cache <==> q in s.cache) && (q in s.cache ==> s'.cache[q] == s.cache[q])
  {
  }

  /**
   * A move is invisible: whether it succeeds or fails, at whatever point, every partition's apparent log stays. When it
   * reports success the partition is on the target, and gone from the source unless the clear failed.
   */
  lemma {:induction false} MoveLooksLikeNothing(
    s: State, tp: TopicPartition, target: ShardID, f: MoveFaults, q: TopicPartition)
    requires Valid(s)
    ensures
      var (s', reply) := Moved(s, tp, target, f);
      && Logical(s', q) == Logical(s, q) && (q in s'.cache ==> s'.cache[q] == Placed(s', q))
      && (reply.Failed? || reply == Done)
      && (reply == Done ==> Placed(s', tp) == target)
      && (reply == Done && f.clear.None? && Placed(s, tp) != target ==> LogAt(s', Placed(s, tp), tp) == Cleared)
  {
    ResolvedIsPlaced(s, tp, f.load);
    if target < s.shardCount && Resolved(s, tp, f.load).1.Some? {
      var s' := Resolved(s, tp, f.load).0;
      assert Logical(s', tp) == Logical(s, tp) && Logical(s', q) == Logical(s, q);
      ReplacedIsIdentity(Logical(s, tp));
      TransferLooksLikeNothing(s', tp, target, f, q);
    }
  }

  lemma {:induction false} TransferLooksLikeNothing(
    s: State, tp: TopicPartition, target: ShardID, f: MoveFaults, q: TopicPartition)
    requires CacheAgrees(s) && Replaced(Logical(s, tp)) == Logical(s, tp)
    ensures
      var (s', reply) := MovedFrom(s, tp, Placed(s, tp), target, f);
      && Logical(s', q) == Logical(s, q) && (q in s'.cache ==> s'.cache[q] == Placed(s', q))
      && (reply.Failed? || reply == Done)
      && (reply == Done ==> Placed(s', tp) == target)
      && (reply == Done && f.clear.None? && Placed(s, tp) != target ==> LogAt(s', Placed(s, tp), tp) == Cleared)
  {
    MoveFromKeepsLog(s, tp, target, f);
    if q != tp { MoveFromKeepsOthers(s, tp, Placed(s, tp), target, f, q); }
  }

  lemma {:induction false} StepLooksLikeOneLog(s: State, e: Event, tp: TopicPartition)
    requires Valid(s)
    ensures
      var (s', reply) := Apply(s, e);
      CacheAgrees(s') && Logical(s', tp) == LogicalAfter(Logical(s, tp), tp, e, reply)
    ensures
      var reply := Apply(s, e).1;
      reply.Failed? || reply == ExpectedReply(if e.Ensure? then Cleared else Logical(s, e.tp), e)
  {
    match e
    case Publish(_, _, _, _) => PublishLooksLikeOneLog(s, e, tp);
    case Read(_, _, _, _, _) => ReadLooksLikeOneLog(s, e, tp);
    case Ensure(_, _, _) => EnsureLooksLikeNothing(s, e, tp);
    case Move(p, target, f) =>
      var s' := Moved(s, p, target, f).0;
      forall q ensures q in s'.cache ==> s'.cache[q] == Placed(s', q) {
        MoveLooksLikeNothing(s, p, target, f, q);
      }
      MoveLooksLikeNothing(s, p, target, f, tp);
  }

  lemma {:induction false} StepValid(s: State, e: Event)
    requires Valid(s)
    ensures Valid(Apply(s, e).0)
  {
    var (s', reply) := Apply(s, e);
    StepLooksLikeOneLog(s, e, TopicPartition("", 0));
    forall tp ensures LogOk(Logical(s', tp)) {
      StepLooksLikeOneLog(s, e, tp);
      if e.Publish? { AppendOk(Logical(s, tp), e.payloads); }
    }
  }

  // ---- Runs ----

  ghost predicate IsStep(states: seq<State>, events: seq<Event>, replies: seq<Reply>, k: nat)
    requires |states| == |events| + 1 && |replies| == |events| && k < |events|
  {
    (states[k + 1], replies[k]) == Apply(states[k], events[k])
  }

  ghost predicate IsRun(states: seq<State>, events: seq<Event>, replies: seq<Reply>) {
    && |states| == |events| + 1 && |replies| == |events| && Valid(states[0])
    && forall k: nat :: k < |events| ==> IsStep(states, events, replies, k)
  }

  /** What the first n events published to a partition, as acknowledged to the clients. */
  function PublishedBy(events: seq<Event>, replies: seq<Reply>, n: nat, tp: TopicPartition): seq<Payload>
    requires n <= |events| == |replies|
  {
    if n == 0 then []
    else
      var e := events[n - 1];
      PublishedBy(events, replies, n - 1, tp)
      + (if e.Publish? && e.tp == tp && replies[n - 1].Records? then e.payloads else [])
  }

  lemma {:induction false} RunStep(
    states: seq<State>, events: seq<Event>, replies: seq<Reply>, k: nat, tp: TopicPartition)
    requires IsRun(states, events, replies) && k < |events| && Valid(states[k])
    ensures Valid(states[k + 1])
    ensures Logical(states[k + 1], tp) == LogicalAfter(Logical(states[k], tp), tp, events[k], replies[k])
  {
    assert IsStep(states, events, replies, k);
    StepValid(states[k], events[k]);
    StepLooksLikeOneLog(states[k], events[k], tp);
  }

  /**
   * Moves are invisible over whole runs: however publishes, reads, topic set-ups and moves are interleaved and wherever
   * they fail, the shard a partition resolves to holds exactly what it held at the start followed by everything
   * published to it and acknowledged since, and the cache agrees with the placement store.
   */
  lemma {:induction false} RunLooksLikeOneLog(
    states: seq<State>, events: seq<Event>, replies: seq<Reply>, n: nat, tp: TopicPartition)
    requires IsRun(states, events, replies) && n <= |events|
    ensures Valid(states[n])
    ensures Logical(states[n], tp) == Append(Logical(states[0], tp), PublishedBy(events, replies, n, tp))
  {
    if n > 0 {
      RunLooksLikeOneLog(states, events, replies, n - 1, tp);
      RunStep(states, events, replies, n - 1, tp);
      var e := events[n - 1];
      AppendTwice(Logical(states[0], tp), PublishedBy(events, replies, n - 1, tp),
                  if e.Publish? && e.tp == tp && replies[n - 1].Records? then e.payloads else []);
    }
  }

  /** Every answer is an error or the one a single log per partition, never moved, would have given. */
  lemma {:induction false} RepliesLookLikeOneLog(states: seq<State>, events: seq<Event>, replies: seq<Reply>, k: nat)
    requires IsRun(states, events, replies) && k < |events| && !events[k].Ensure?
    ensures
      var tp := events[k].tp;
      var log := Append(Logical(states[0], tp), PublishedBy(events, replies, k, tp));
      replies[k].Failed? || replies[k] == ExpectedReply(log, events[k])
  {
    RunLooksLikeOneLog(states, events, replies, k, events[k].tp);
    assert IsStep(states, events, replies, k);
    StepLooksLikeOneLog(states[k], events[k], events[k].tp);
  }

  lemma {:induction false} PublishedGrows(events: seq<Event>, replies: seq<Reply>, i: nat, j: nat, tp: TopicPartition)
    requires |events| == |replies| && i <= j <= |events|
    ensures PublishedBy(events, replies, i, tp) <= PublishedBy(events, replies, j, tp)
    decreases j
  {
    if i < j { PublishedGrows(events, replies, i, j - 1, tp); }
  }

  /** No offset is given out twice, across any number of moves between the two publishes. */
  lemma {:induction false} OffsetsNeverReused(
    states: seq<State>, events: seq<Event>, replies: seq<Reply>, i: nat, j: nat, a: Record, b: Record)
    requires IsRun(states, events, replies) && i < j < |events|
    requires events[i].Publish? && events[j].Publish? && events[i].tp == events[j].tp
    requires replies[i].Records? && a in replies[i].records && replies[j].Records? && b in replies[j].records
    ensures a.offset < b.offset
  {
    var tp := events[i].tp;
    RepliesLookLikeOneLog(states, events, replies, i);
    RepliesLookLikeOneLog(states, events, replies, j);
    PublishedGrows(events, replies, i + 1, j, tp);
    assert |PublishedBy(events, replies, i + 1, tp)| == |PublishedBy(events, replies, i, tp)| + |events[i].payloads|;
  }

  // ---- Resolving outside the partition lock ----

  /** The second half of a resolve whose placement was loaded earlier: the loaded value goes into the cache. */
  function LateCacheWrite(s: State, tp: TopicPartition, loaded: ShardID): State {
    s.(cache := s.cache[tp := loaded])
  }

  /** Only a completed move of a partition changes where it is placed. */
  function PlacedAfter(placed: ShardID, tp: TopicPartition, e: Event, reply: Reply): ShardID {
    if e.Move? && e.tp == tp && reply == Done then e.target else placed
  }

  lemma {:induction false} MovePlaces(s: State, e: Event, tp: TopicPartition)
    requires CacheAgrees(s) && e.Move?
    ensures Placed(Apply(s, e).0, tp) == PlacedAfter(Placed(s, tp), tp, e, Apply(s, e).1)
  {
    var s' := Resolved(s, e.tp, e.faults.load).0;
    ResolvedIsPlaced(s, e.tp, e.faults.load);
    assert Placed(s', tp) == Placed(s, tp);
    MovedFromPlaces(s', e.tp, Placed(s, e.tp), e.target, e.faults, tp);
  }

  lemma {:induction false} MovedFromPlaces(
    s: State, tp: TopicPartition, source: ShardID, target: ShardID, f: MoveFaults, q: TopicPartition)
    ensures
      var (s', reply) := MovedFrom(s, tp, source, target, f);
      Placed(s', q) == (if q == tp && reply == Done then target else Placed(s, q))
  {
  }

  lemma {:induction false} StepPlaces(s: State, e: Event, tp: TopicPartition)
    requires CacheAgrees(s)
    ensures Placed(Apply(s, e).0, tp) == PlacedAfter(Placed(s, tp), tp, e, Apply(s, e).1)
  {
    match e
    case Publish(p, _, loadFails, _) => ResolvedIsPlaced(s, p, loadFails);
    case Read(p, _, _, loadFails, _) => ResolvedIsPlaced(s, p, loadFails);
    case Ensure(topic, partitions, fault) =>
      EnsureKeepsPlaced(s, topic, PartitionCount(partitions));
      if !fault.NoFault? { EnsureKeepsPlaced(s, topic, fault.at); }
    case Move(_, _, _) => MovePlaces(s, e, tp);
  }

  /** The target of the last move of the partition that completed among the first n events. */
  function LastMove(events: seq<Event>, replies: seq<Reply>, n: nat, tp: TopicPartition): Option<ShardID>
    requires n <= |events| == |replies|
  {
    if n == 0 then None
    else if events[n - 1].Move? && events[n - 1].tp == tp && replies[n - 1] == Done then Some(events[n - 1].target)
    else LastMove(events, replies, n - 1, tp)
  }

  /** A partition is where its last completed move put it, or where it was. */
  lemma {:induction false} RunPlaces(
    states: seq<State>, events: seq<Event>, replies: seq<Reply>, n: nat, tp: TopicPartition)
    requires IsRun(states, events, replies) && n <= |events|
    ensures Placed(states[n], tp)
         == match LastMove(events, replies, n, tp) case None => Placed(states[0], tp) case Some(target) => target
  {
    if n > 0 {
      RunPlaces(states, events, replies, n - 1, tp);
      RunLooksLikeOneLog(states, events, replies, n - 1, tp);
      assert IsStep(states, events, replies, n - 1);
      StepPlaces(states[n - 1], events[n - 1], tp);
    }
  }

  /**
   * When a resolve is not one step but loads the placement before a run and caches it afterwards, the cache agrees with
   * the store if and only if no move of the partition completed in between, or the last one that did brought it back to
   * the shard it was loaded from.
   */
  lemma {:induction false} LateCacheWriteAgreesExactlyWhen(
    states: seq<State>, events: seq<Event>, replies: seq<Reply>, n: nat, tp: TopicPartition)
    requires IsRun(states, events, replies) && n <= |events|
    ensures CacheAgrees(LateCacheWrite(states[n], tp, Placed(states[0], tp)))
       <==> || LastMove(events, replies, n, tp).None?
            || LastMove(events, replies, n, tp).value == Placed(states[0], tp)
  {
    RunLooksLikeOneLog(states, events, replies, n, tp);
    RunPlaces(states, events, replies, n, tp);
    var late := LateCacheWrite(states[n], tp, Placed(states[0], tp));
    assert forall q :: Placed(late, q) == Placed(states[n], q);
    assert late.cache[tp] == Placed(states[0], tp);
  }

  /** One completed move in between is enough: the published record is then no longer read. */
  lemma {:induction false} LateCacheWriteHidesRecords(tp: TopicPartition, payload: Payload)
    ensures
      var log := Log([Record(0, payload)], 1);
      var start := State(2, map[tp := 0], map[], map[0 := map[tp := log], 1 := map[]]);
      var moved := Moved(start, tp, 1, MoveFaults(false, false, None, false, None));
      var late := LateCacheWrite(moved.0, tp, Placed(start, tp));
      && CacheAgrees(start) && moved.1 == Done && LogAt(late, 1, tp) == log
      && ReadBy(late, tp, 0, 1, false, false).1 == Records([])
  {
    var log := Log([Record(0, payload)], 1);
    assert LogOk(log);
    ReplacedIsIdentity(log);
    assert Filter<Record>([], From(0)) == [];
  }
}
