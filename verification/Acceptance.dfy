/** When an idempotent produce request is accepted, told by the request and the batches that are remembered. */
module Acceptance {
  import opened Basics
  import opened Sorting
  import opened Logs
  import opened Idempotency
  import opened IdempotencyRuns

  /** The request names a producer and a range of sequence numbers that fits in 64 bits. */
  predicate WellFormed(req: Request) {
    req.payloads != [] && req.id.producer != 0 && req.id.base <= MaxU64 - |req.payloads|
  }

  /** No batch remembered for the producer and the partition has a higher epoch. */
  ghost predicate Unfenced(table: seq<Batch>, producer: U64, tp: TopicPartition, epoch: U64) {
    forall b :: b in table && b.producer == producer && b.tp == tp ==> b.epoch <= epoch
  }

  /** No batch remembered for the producer, the partition and the epoch contains the sequence, or overflows. */
  ghost predicate Uncovered(table: seq<Batch>, req: Request) {
    forall b :: b in table && b.producer == req.id.producer && b.tp == req.tp && b.epoch == req.id.epoch ==>
      b.base <= MaxU64 - b.count && !Covers(b.base, b.count, req.id.base)
  }

  lemma {:induction false} UnfencedExactlyWhen(table: seq<Batch>, producer: U64, tp: TopicPartition, epoch: U64)
    ensures Fenced(ListBatches(table, producer, tp), epoch) <==> !Unfenced(table, producer, tp, epoch)
  {
    ListMembers(table, producer, tp);
  }

  /** Nothing is found exactly when no batch of the epoch contains the base sequence, or runs past the last one. */
  lemma {:induction false} MissingExactlyWhen(batches: seq<Batch>, id: Id, count: nat)
    ensures Find(batches, id, count).Missing?
       <==> forall b :: b in batches && b.epoch == id.epoch ==>
              b.base <= MaxU64 - b.count && !Covers(b.base, b.count, id.base)
  {
    if batches != [] {
      MissingExactlyWhen(batches[1..], id, count);
      assert batches == [batches[0]] + batches[1..];
    }
  }

  lemma {:induction false} UncoveredExactlyWhen(table: seq<Batch>, req: Request)
    ensures Find(ListBatches(table, req.id.producer, req.tp), req.id, |req.payloads|).Missing?
       <==> Uncovered(table, req)
  {
    ListMembers(table, req.id.producer, req.tp);
    MissingExactlyWhen(ListBatches(table, req.id.producer, req.tp), req.id, |req.payloads|);
  }

  /**
   * A request is appended if and only if it is well formed, the store lists the batches and publishes, offsets are
   * left, its producer has not used a higher epoch on the partition, and no batch remembered of its own epoch there
   * contains its base sequence. Batches of other producers and partitions do not matter.
   */
  lemma {:induction false} AppendsExactlyWhen(s: State, req: Request, f: Faults)
    ensures Decide(s, req, f).None?
       <==> && WellFormed(req) && !f.list && !f.publish
            && LogOf(s, req.tp).next + |req.payloads| - 1 <= MaxU64
            && Unfenced(s.table, req.id.producer, req.tp, req.id.epoch) && Uncovered(s.table, req)
  {
    UnfencedExactlyWhen(s.table, req.id.producer, req.tp, req.id.epoch);
    UncoveredExactlyWhen(s.table, req);
  }

  /** The request is new: well formed, not fenced, covered by nothing remembered, with offsets left for it. */
  ghost predicate New(s: State, req: Request) {
    && WellFormed(req) && LogOf(s, req.tp).next + |req.payloads| - 1 < MaxU64
    && Unfenced(s.table, req.id.producer, req.tp, req.id.epoch) && Uncovered(s.table, req)
  }

  /** The store does its part in publishing and remembering, down to the last deletion the window needs. */
  ghost predicate StoreTakes(s: State, req: Request, f: Faults) {
    && !f.list && !f.publish && !f.save && !f.relist
    && (f.deletes.Some? ==> |View(s.table, req.id.producer, req.tp)| + 1 <= WindowBatches + f.deletes.value)
  }

  lemma {:induction false} ExcessOfNew(s: State, req: Request, f: Faults, b: Batch)
    requires TableOk(s.table) && Decide(s, req, f).None? && KeyOf(b) == KeyFor(req)
    ensures |View(Save(s.table, b), b.producer, b.tp)| == |View(s.table, req.id.producer, req.tp)| + 1
  {
    AppendedMeansNew(s, req, f);
    SaveNew(s.table, b);
    FilterSnoc(s.table, b, Matches(b.producer, b.tp));
  }

  /** What happens to a request that is to be appended. */
  lemma {:induction false} AppendedOutcome(s: State, req: Request, now: nat, f: Faults)
    requires TableOk(s.table) && Decide(s, req, f).None?
    ensures
      var log, r := LogOf(s, req.tp), Produce(s, req, now, f).1;
      && (r.Ok? <==> && log.next + |req.payloads| - 1 < MaxU64 && !f.save && !f.relist
                     && (f.deletes.Some? ==>
                           |View(s.table, req.id.producer, req.tp)| + 1 <= WindowBatches + f.deletes.value))
      && (r.Ok? ==> r == Ok(Answer(Stamp(log.next, req.payloads), true)))
  {
    ExcessOfNew(s, req, f, Published(LogOf(s, req.tp), req, now));
  }

  lemma {:induction false} DecidedOutcome(s: State, req: Request, now: nat, f: Faults)
    requires Decide(s, req, f).Some?
    ensures Produce(s, req, now, f).1.Ok? ==> !Produce(s, req, now, f).1.value.appended
  {
  }

  /**
   * A request is accepted as new, which is to say published, remembered and answered with its own records, if and only
   * if it is new and the store does its part.
   */
  lemma {:induction false} AcceptedExactlyWhen(s: State, req: Request, now: nat, f: Faults)
    requires TableOk(s.table)
    ensures
      var r := Produce(s, req, now, f).1;
      && (r.Ok? && r.value.appended <==> New(s, req) && StoreTakes(s, req, f))
      && (r.Ok? && r.value.appended ==> r == Ok(Answer(Stamp(LogOf(s, req.tp).next, req.payloads), true)))
  {
    AppendsExactlyWhen(s, req, f);
    if Decide(s, req, f).None? {
      AppendedOutcome(s, req, now, f);
    } else {
      DecidedOutcome(s, req, now, f);
    }
  }

  lemma {:induction false} AppendedLog(s: State, req: Request, now: nat, f: Faults, tp: TopicPartition)
    requires Decide(s, req, f).None?
    ensures LogOf(Produce(s, req, now, f).0, tp)
         == if tp == req.tp then Append(LogOf(s, tp), req.payloads) else LogOf(s, tp)
  {
  }

  lemma {:induction false} RemembersWhat(s: State, req: Request, now: nat, f: Faults)
    requires Decide(s, req, f).None? && LogOf(s, req.tp).next + |req.payloads| - 1 < MaxU64 && !f.save
    ensures
      var log := LogOf(s, req.tp);
      Remembers(s, req, now, f)
      == Some(Batch(req.id.producer, req.id.epoch, req.tp, req.id.base, |req.payloads|,
                    log.next, log.next + |req.payloads| - 1, now))
  {
  }

  /** What accepting a request leaves behind: its records at the end of its log, and what is remembered of it. */
  lemma {:induction false} AcceptedRemembers(s: State, req: Request, now: nat, f: Faults)
    requires TableOk(s.table) && New(s, req) && StoreTakes(s, req, f)
    ensures
      var log, t := LogOf(s, req.tp), Produce(s, req, now, f).0;
      && LogOf(t, req.tp) == Append(log, req.payloads)
      && (forall tp :: tp != req.tp ==> LogOf(t, tp) == LogOf(s, tp))
      && Remembers(s, req, now, f)
         == Some(Batch(req.id.producer, req.id.epoch, req.tp, req.id.base, |req.payloads|,
                       log.next, log.next + |req.payloads| - 1, now))
  {
    AppendsExactlyWhen(s, req, f);
    RemembersWhat(s, req, now, f);
    forall tp ensures LogOf(Produce(s, req, now, f).0, tp)
                   == if tp == req.tp then Append(LogOf(s, tp), req.payloads) else LogOf(s, tp)
    {
      AppendedLog(s, req, now, f, tp);
    }
  }

  /** A request that is not to be appended changes nothing, whatever it is answered. */
  lemma {:induction false} OthersChangeNothing(s: State, req: Request, now: nat, f: Faults)
    requires || !WellFormed(req) || f.list || f.publish
             || !Unfenced(s.table, req.id.producer, req.tp, req.id.epoch) || !Uncovered(s.table, req)
             || LogOf(s, req.tp).next + |req.payloads| - 1 > MaxU64
    ensures Produce(s, req, now, f).0 == s
  {
    AppendsExactlyWhen(s, req, f);
  }
}
