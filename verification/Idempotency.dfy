/**
 * The broker's idempotent produce path: duplicate lookup, epoch fencing and the bounded window of published batches.
 */
module Idempotency {
  import opened Basics
  import opened Sorting
  import opened Logs
  import Messages

  /** How many batches of one producer and partition are remembered. */
  const WindowBatches: nat := 1024

  type Id = Messages.Id
  datatype Key = Key(producer: U64, epoch: U64, tp: TopicPartition, base: U64)

  /** A published batch as the metadata store remembers it. */
  datatype Batch = Batch(producer: U64, epoch: U64, tp: TopicPartition, base: U64, count: nat,
                         baseOffset: nat, lastOffset: nat, updatedAt: nat)

  function KeyOf(b: Batch): Key {
    Key(b.producer, b.epoch, b.tp, b.base)
  }

  datatype State = State(logs: map<TopicPartition, Log>, table: seq<Batch>)

  function LogOf(s: State, tp: TopicPartition): Log {
    if tp in s.logs then s.logs[tp] else Log([], 0)
  }

  // ---- The table of published batches ----

  ghost predicate UniqueKeys(table: seq<Batch>) {
    forall i, j :: 0 <= i < j < |table| ==> KeyOf(table[i]) != KeyOf(table[j])
  }

  function Matches(producer: U64, tp: TopicPartition): Batch -> bool {
    (b: Batch) => b.producer == producer && b.tp == tp
  }

  function Other(key: Key): Batch -> bool {
    (b: Batch) => KeyOf(b) != key
  }

  /** The batches remembered for one producer and partition. */
  function View(table: seq<Batch>, producer: U64, tp: TopicPartition): seq<Batch> {
    Filter(table, Matches(producer, tp))
  }

  predicate SequenceLe(a: Batch, b: Batch) {
    if a.epoch != b.epoch then a.epoch < b.epoch else a.base <= b.base
  }

  function ListBatches(table: seq<Batch>, producer: U64, tp: TopicPartition): seq<Batch> {
    Sort(View(table, producer, tp), SequenceLe)
  }

  function Save(table: seq<Batch>, b: Batch): seq<Batch> {
    Filter(table, Other(KeyOf(b))) + [b]
  }

  function DeleteAll(table: seq<Batch>, doomed: seq<Batch>): seq<Batch> {
    if doomed == [] then table
    else Filter(DeleteAll(table, doomed[..|doomed| - 1]), Other(KeyOf(doomed[|doomed| - 1])))
  }

  /** Oldest first. */
  predicate AgeLe(a: Batch, b: Batch) {
    if a.updatedAt != b.updatedAt then a.updatedAt < b.updatedAt else SequenceLe(a, b)
  }

  function ByAge(table: seq<Batch>, producer: U64, tp: TopicPartition): seq<Batch> {
    Sort(View(table, producer, tp), AgeLe)
  }

  /** How many batches pruning has to remove. */
  function Excess(table: seq<Batch>, producer: U64, tp: TopicPartition): nat {
    if |View(table, producer, tp)| <= WindowBatches then 0 else |View(table, producer, tp)| - WindowBatches
  }

  // ---- One request ----

  datatype Request = Request(id: Id, tp: TopicPartition, payloads: seq<Payload>)

  /**
   * Which store operations fail; `relist` is the listing that pruning starts with, and `deletes` the number of prune
   * deletions that succeed before one fails.
   */
  datatype Faults = Faults(list: bool, read: bool, publish: bool, save: bool, relist: bool, deletes: Option<nat>)

  const NoFaults := Faults(false, false, false, false, false, None)

  /** How many deletions pruning gets to, if it does not get to all of them. */
  function Deletes(f: Faults): Option<nat> {
    if f.relist then Some(0) else f.deletes
  }

  datatype Answer = Answer(records: seq<Record>, appended: bool)

  datatype Lookup = Missing | Found(batch: Batch) | Mismatch

  /** The first remembered batch of the epoch whose range contains the request's base sequence decides. */
  function Find(batches: seq<Batch>, id: Id, count: nat): Lookup {
    if batches == [] then Missing
    else
      var b := batches[0];
      if b.epoch != id.epoch then Find(batches[1..], id, count)
      else if b.base > MaxU64 - b.count then Mismatch
      else if !(b.base <= id.base < b.base + b.count) then Find(batches[1..], id, count)
      else if b.base == id.base && b.count == count then Found(b)
      else Mismatch
  }

  predicate Fenced(batches: seq<Batch>, epoch: U64) {
    exists b :: b in batches && b.epoch > epoch
  }

  /** The records of a remembered batch, if the log still holds all of them. */
  function ReadBack(log: Log, b: Batch): Result<seq<Record>> {
    var records := ReadFrom(log, b.baseOffset, b.count);
    if |records| != b.count || b.count == 0 then Err("published producer batch is not fully readable")
    else if records[0].offset != b.baseOffset || records[|records| - 1].offset != b.lastOffset then
      Err("published producer batch offsets changed")
    else Ok(records)
  }

  /** The batch a request is remembered as once its records are at the end of `log`. */
  function Published(log: Log, req: Request, now: nat): Batch
    requires req.payloads != []
  {
    Batch(req.id.producer, req.id.epoch, req.tp, req.id.base, |req.payloads|,
          log.next, log.next + |req.payloads| - 1, now)
  }

  /** Why a request goes no further than the lookup; None when it is to be appended. */
  function Decide(s: State, req: Request, f: Faults): Option<Result<Answer>> {
    if req.payloads == [] then Some(Err("idempotent publish requires at least one record"))
    else if req.id.producer == 0 then Some(Err("producer_id is required for idempotent publish"))
    else if req.id.base > MaxU64 - |req.payloads| then Some(Err("sequence overflows uint64"))
    else if f.list then Some(Err("list producer batches"))
    else
      var batches := ListBatches(s.table, req.id.producer, req.tp);
      if Fenced(batches, req.id.epoch) then Some(Err("producer epoch is fenced"))
      else
        match Find(batches, req.id, |req.payloads|)
        case Mismatch => Some(Err("duplicate sequence does not match published batch"))
        case Found(b) =>
          if f.read then Some(Err("read published producer batch"))
          else
            (match ReadBack(LogOf(s, b.tp), b)
             case Err(e) => Some(Err(e))
             case Ok(records) => Some(Ok(Answer(records, false))))
        case Missing =>
          if f.publish || LogOf(s, req.tp).next + |req.payloads| - 1 > MaxU64 then Some(Err("publish record batch"))
          else None
  }

  /** How many of the oldest batches pruning deletes. */
  function Deleted(table: seq<Batch>, producer: U64, tp: TopicPartition, deletes: Option<nat>): nat {
    var excess := Excess(table, producer, tp);
    if deletes.Some? then Min(deletes.value, excess) else excess
  }

  function Prune(table: seq<Batch>, producer: U64, tp: TopicPartition, deletes: Option<nat>): seq<Batch> {
    DeleteAll(table, ByAge(table, producer, tp)[..Deleted(table, producer, tp, deletes)])
  }

  function Produce(s: State, req: Request, now: nat, f: Faults): (State, Result<Answer>) {
    match Decide(s, req, f)
    case Some(r) => (s, r)
    case None =>
      var log := LogOf(s, req.tp);
      var b := Published(log, req, now);
      var appended := s.(logs := s.logs[req.tp := Append(log, req.payloads)]);
      if b.lastOffset == MaxU64 then (appended, Err("producer offset overflows uint64"))
      else if f.save then (appended, Err("save producer batch"))
      else
        var table := Save(s.table, b);
        var pruned := appended.(table := Prune(table, b.producer, b.tp, Deletes(f)));
        if f.relist then (pruned, Err("list producer batches for pruning"))
        else if f.deletes.Some? && f.deletes.value < Excess(table, b.producer, b.tp) then
          (pruned, Err("delete producer batch"))
        else (pruned, Ok(Answer(Stamp(log.next, req.payloads), true)))
  }

  /** The batch a request newly publishes and remembers, if it does. */
  function Remembers(s: State, req: Request, now: nat, f: Faults): Option<Batch> {
    if Decide(s, req, f).Some? then None
    else
      var b := Published(LogOf(s, req.tp), req, now);
      if b.lastOffset == MaxU64 || f.save then None else Some(b)
  }

  // ---- The broker, updating its stores in place ----

  class Broker {
    var logs: map<TopicPartition, Log>
    var table: seq<Batch>

    ghost function Value(): State
      reads this
    {
      State(logs, table)
    }

    constructor ()
      ensures Value() == State(map[], [])
    {
      logs := map[];
      table := [];
    }

    method EnsureProducerEpochWritable(id: Id, batches: seq<Batch>) returns (ok: bool)
      ensures ok <==> !Fenced(batches, id.epoch)
    {
      for i := 0 to |batches|
        invariant !Fenced(batches[..i], id.epoch)
      {
        if batches[i].epoch > id.epoch { return false; }
        assert batches[..i + 1] == batches[..i] + [batches[i]];
      }
      assert batches[..|batches|] == batches;
      return true;
    }

    method FindProducerPublishedBatch(batches: seq<Batch>, id: Id, count: nat) returns (r: Lookup)
      ensures r == Find(batches, id, count)
    {
      for i := 0 to |batches|
        invariant Find(batches, id, count) == Find(batches[i..], id, count)
      {
        var b := batches[i];
        assert batches[i..][1..] == batches[i + 1..];
        if b.epoch != id.epoch { continue; }
        if b.base > MaxU64 - b.count { return Mismatch; }
        if !(b.base <= id.base < b.base + b.count) { continue; }
        if b.base != id.base || b.count != count { return Mismatch; }
        return Found(b);
      }
      return Missing;
    }

    method PruneProducerDedupeWindow(producer: U64, tp: TopicPartition, f: Faults) returns (r: Result<()>)
      modifies this`table
      ensures table == Prune(old(table), producer, tp, Deletes(f))
      ensures r == if f.relist then Err("list producer batches for pruning")
                   else if f.deletes.Some? && f.deletes.value < Excess(old(table), producer, tp) then
                     Err("delete producer batch")
                   else Ok(())
    {
      if f.relist { return Err("list producer batches for pruning"); }
      var batches := ListBatches(table, producer, tp);
      SortCorrectLength(table, producer, tp);
      if |batches| <= WindowBatches { return Ok(()); }
      var ordered := ByAge(table, producer, tp);
      var removeCount := |ordered| - WindowBatches;
      var removed := DeleteBatches(ordered[..removeCount], f.deletes);
      assert ordered[..removeCount][..removed] == ordered[..removed];
      if removed < removeCount { return Err("delete producer batch"); }
      return Ok(());
    }

    /** Deletes batch after batch until one deletion fails. */
    method DeleteBatches(doomed: seq<Batch>, deletes: Option<nat>) returns (removed: nat)
      modifies this`table
      ensures removed == if deletes.Some? then Min(deletes.value, |doomed|) else |doomed|
      ensures table == DeleteAll(old(table), doomed[..removed])
    {
      removed := 0;
      while removed < |doomed|
        invariant removed <= |doomed| && (deletes.Some? ==> removed <= deletes.value)
        invariant table == DeleteAll(old(table), doomed[..removed])
      {
        if deletes.Some? && deletes.value == removed { return; }
        assert doomed[..removed + 1][..removed] == doomed[..removed];
        table := Filter(table, Other(KeyOf(doomed[removed])));
        removed := removed + 1;
      }
    }

    method AppendIdempotentProduceBatch(req: Request, now: nat, f: Faults) returns (r: Result<Answer>)
      modifies this
      ensures (Value(), r) == Produce(old(Value()), req, now, f)
    {
      if req.payloads == [] { return Err("idempotent publish requires at least one record"); }
      var count := |req.payloads|;
      if req.id.producer == 0 { return Err("producer_id is required for idempotent publish"); }
      if req.id.base > MaxU64 - count { return Err("sequence overflows uint64"); }
      if f.list { return Err("list producer batches"); }
      var batches := ListBatches(table, req.id.producer, req.tp);
      var writable := EnsureProducerEpochWritable(req.id, batches);
      if !writable { return Err("producer epoch is fenced"); }
      var found := FindProducerPublishedBatch(batches, req.id, count);
      match found
      case Mismatch => return Err("duplicate sequence does not match published batch");
      case Found(b) =>
        if f.read { return Err("read published producer batch"); }
        var back := ReadBack(LogOf(State(logs, table), b.tp), b);
        if back.Err? { return Err(back.error); }
        return Ok(Answer(back.value, false));
      case Missing =>
        var log := LogOf(State(logs, table), req.tp);
        if f.publish || log.next + count - 1 > MaxU64 { return Err("publish record batch"); }
        var records := Stamp(log.next, req.payloads);
        logs := logs[req.tp := Append(log, req.payloads)];
        var b := Published(log, req, now);
        if b.lastOffset == MaxU64 { return Err("producer offset overflows uint64"); }
        if f.save { return Err("save producer batch"); }
        table := Save(table, b);
        var pruned := PruneProducerDedupeWindow(b.producer, b.tp, f);
        if pruned.Err? { return Err(pruned.error); }
        return Ok(Answer(records, true));
    }
  }

  lemma {:induction false} SortCorrectLength(table: seq<Batch>, producer: U64, tp: TopicPartition)
    ensures |ListBatches(table, producer, tp)| == |View(table, producer, tp)| == |ByAge(table, producer, tp)|
  {
  }
}
