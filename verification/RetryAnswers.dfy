/** When a retry inside the window is answered, and not only answered rightly. */
module RetryAnswers {
  import opened Basics
  import opened Sorting
  import opened Logs
  import opened Idempotency
  import opened IdempotencyRuns
  import opened Acceptance
  import opened ExactlyOnce
  import Messages

  // ---- When a batch can be read back ----

  ghost predicate HasOffset(records: seq<Record>, o: nat) {
    exists r :: r in records && r.offset == o
  }

  /** Records in offset order are consecutive as far as every offset is among them. */
  lemma {:induction false} DenseFrom(found: seq<Record>, base: nat, k: nat)
    requires forall a, b :: 0 <= a < b < |found| ==> found[a].offset < found[b].offset
    requires forall r :: r in found ==> r.offset >= base
    requires forall o :: base <= o <= base + k ==> HasOffset(found, o)
    ensures k < |found| && found[k].offset == base + k
  {
    if k > 0 { DenseFrom(found, base, k - 1); }
    assert HasOffset(found, base + k);
    var i :| 0 <= i < |found| && found[i].offset == base + k;
    NextInLine(found, base, k, i);
  }

  lemma {:induction false} NextInLine(found: seq<Record>, base: nat, k: nat, i: nat)
    requires forall a, b :: 0 <= a < b < |found| ==> found[a].offset < found[b].offset
    requires forall r :: r in found ==> r.offset >= base
    requires i < |found| && found[i].offset == base + k
    requires k > 0 ==> k - 1 < |found| && found[k - 1].offset == base + k - 1
    ensures i == k
  {
    if k == 0 {
      assert found[0] in found;
    } else {
      assert k < |found| ==> found[k - 1].offset < found[k].offset;
    }
  }

  /** A remembered batch can be read back exactly when the log still holds each of its offsets. */
  lemma {:induction false} ReadBackExactlyWhen(log: Log, b: Batch)
    requires LogOk(log) && b.count > 0 && b.lastOffset == b.baseOffset + b.count - 1
    ensures ReadBack(log, b).Ok? <==> forall o :: b.baseOffset <= o <= b.lastOffset ==> HasOffset(log.records, o)
  {
    if ReadBack(log, b).Ok? {
      ReadBackShape(log, b);
      AllOffsets(log, b, ReadBack(log, b).value);
    }
    if forall o :: b.baseOffset <= o <= b.lastOffset ==> HasOffset(log.records, o) {
      ReadsBack(log, b);
    }
  }

  lemma {:induction false} ReadsBack(log: Log, b: Batch)
    requires LogOk(log) && b.count > 0 && b.lastOffset == b.baseOffset + b.count - 1
    requires forall o :: b.baseOffset <= o <= b.lastOffset ==> HasOffset(log.records, o)
    ensures ReadBack(log, b).Ok?
  {
    var found := Filter(log.records, From(b.baseOffset));
    FilterSorted(log.records, From(b.baseOffset), Before);
    FilterMembers(log.records, From(b.baseOffset));
    forall o | b.baseOffset <= o <= b.lastOffset ensures HasOffset(found, o) {
      assert HasOffset(log.records, o);
    }
    DenseFrom(found, b.baseOffset, 0);
    DenseFrom(found, b.baseOffset, b.count - 1);
  }

  lemma {:induction false} AllOffsets(log: Log, b: Batch, records: seq<Record>)
    requires |records| == b.count > 0 && (forall r :: r in records ==> r in log.records)
    requires forall i, j :: 0 <= i < j < |records| ==> records[i].offset < records[j].offset
    requires records[0].offset == b.baseOffset
    requires records[|records| - 1].offset == b.lastOffset == b.baseOffset + b.count - 1
    ensures forall o :: b.baseOffset <= o <= b.lastOffset ==> HasOffset(log.records, o)
  {
    forall o | b.baseOffset <= o <= b.lastOffset ensures HasOffset(log.records, o) {
      Consecutive(records, o - b.baseOffset);
      assert records[o - b.baseOffset] in records;
    }
  }

  // ---- When one retry is answered ----

  /** Batch b is another one of h's producer, epoch and partition, and its range contains h's base sequence. */
  predicate Shadows(b: Batch, h: Batch) {
    b != h && b.producer == h.producer && b.tp == h.tp && b.epoch == h.epoch && Covers(b.base, b.count, h.base)
  }

  ghost predicate Unshadowed(batches: seq<Batch>, h: Batch) {
    forall b :: b in batches ==> !Shadows(b, h)
  }

  /** The batches of h's producer and partition in sequence order, h among them and no other with its key. */
  ghost predicate ListedWith(batches: seq<Batch>, h: Batch) {
    && Sorted(batches, SequenceLe) && h in batches
    && forall b :: b in batches ==> b.producer == h.producer && b.tp == h.tp && (b != h ==> KeyOf(b) != KeyOf(h))
  }

  /** Batches come in sequence order, so one that shadows h is listed before it. */
  lemma {:induction false} FindsHeld(batches: seq<Batch>, id: Id, count: nat, h: Batch)
    requires ListedWith(batches, h) && h.count > 0 && h.epoch == id.epoch && h.base == id.base
    ensures Find(batches, id, count)
         == if Unshadowed(batches, h) && count == h.count && h.base <= MaxU64 - h.count then Found(h) else Mismatch
  {
    if batches[0] == h {
      HeldFirst(batches);
    } else {
      HeldLater(batches, h);
      FindsHeld(batches[1..], id, count, h);
    }
  }

  lemma {:induction false} HeldFirst(batches: seq<Batch>)
    requires batches != [] && ListedWith(batches, batches[0])
    ensures Unshadowed(batches, batches[0])
  {
    forall x | x in batches ensures !Shadows(x, batches[0]) {
      var i :| 0 <= i < |batches| && batches[i] == x;
      assert i > 0 ==> SequenceLe(batches[0], batches[i]);
    }
  }

  lemma {:induction false} HeldLater(batches: seq<Batch>, h: Batch)
    requires ListedWith(batches, h) && batches[0] != h
    ensures ListedWith(batches[1..], h) && (batches[0].epoch == h.epoch ==> batches[0].base < h.base)
    ensures Unshadowed(batches, h) <==> !Shadows(batches[0], h) && Unshadowed(batches[1..], h)
  {
    assert batches == [batches[0]] + batches[1..];
    var i :| 0 <= i < |batches| && batches[i] == h;
    assert batches[1..][i - 1] == h && batches[0] in batches;
    assert SequenceLe(batches[0], batches[i]);
  }

  /**
   * A retry of a remembered batch is answered if and only if it has as many records, the store can be listed and read,
   * no higher epoch has fenced it, no other batch of its epoch contains its base sequence, and the log still holds
   * every record of the batch.
   */
  lemma {:induction false} AnsweredExactlyWhen(s: State, req: Request, now: nat, f: Faults, h: Batch)
    requires TableOk(s.table) && h in s.table && KeyFor(req) == KeyOf(h) && LogOk(LogOf(s, h.tp))
    ensures Produce(s, req, now, f).1.Ok?
       <==> && |req.payloads| == h.count && h.producer != 0 && h.base <= MaxU64 - h.count && !f.list && !f.read
            && Unfenced(s.table, h.producer, h.tp, h.epoch) && Unshadowed(s.table, h)
            && forall o :: h.baseOffset <= o <= h.lastOffset ==> HasOffset(LogOf(s, h.tp).records, o)
  {
    var batches := ListBatches(s.table, h.producer, h.tp);
    ListMembers(s.table, h.producer, h.tp);
    SortCorrect(View(s.table, h.producer, h.tp), SequenceLe);
    forall b | b in batches && b != h ensures KeyOf(b) != KeyOf(h) {
      if KeyOf(b) == KeyOf(h) { SameKeySameBatch(s.table, b, h); }
    }
    FindsHeld(batches, req.id, |req.payloads|, h);
    assert Unshadowed(s.table, h) <==> Unshadowed(batches, h);
    ReadBackExactlyWhen(LogOf(s, h.tp), h);
    UnfencedExactlyWhen(s.table, h.producer, h.tp, h.epoch);
    HeldDecides(s, req, now, f, batches, h, Unshadowed(s.table, h));
  }

  lemma {:induction false} HeldDecides(
    s: State, req: Request, now: nat, f: Faults, batches: seq<Batch>, h: Batch, alone: bool)
    requires batches == ListBatches(s.table, req.id.producer, req.tp) && h.count > 0 && KeyFor(req) == KeyOf(h)
    requires Find(batches, req.id, |req.payloads|)
          == if alone && |req.payloads| == h.count && h.base <= MaxU64 - h.count then Found(h) else Mismatch
    ensures Produce(s, req, now, f).1.Ok?
       <==> && |req.payloads| == h.count && h.producer != 0 && h.base <= MaxU64 - h.count && !f.list && !f.read
            && !Fenced(batches, h.epoch) && alone && ReadBack(LogOf(s, h.tp), h).Ok?
  {
  }

  /** Sequences 5 and 6 are remembered and so is an overlapping batch from 4 on: the retry of 5 and 6 is refused. */
  lemma {:induction false} ShadowedRetryRefused(tp: TopicPartition, payload: Payload)
    ensures
      var h, wide := Batch(1, 0, tp, 5, 2, 0, 1, 0), Batch(1, 0, tp, 4, 3, 2, 4, 0);
      var s := State(map[tp := Log(Stamp(0, [payload, payload, payload, payload, payload]), 5)], [h, wide]);
      Produce(s, Request(Messages.Id(1, 0, 5), tp, [payload, payload]), 0, NoFaults).1.Err?
  {
    var h, wide := Batch(1, 0, tp, 5, 2, 0, 1, 0), Batch(1, 0, tp, 4, 3, 2, 4, 0);
    var s := State(map[tp := Log(Stamp(0, [payload, payload, payload, payload, payload]), 5)], [h, wide]);
    assert h in s.table && wide in s.table && Shadows(wide, h);
    AnsweredExactlyWhen(s, Request(Messages.Id(1, 0, 5), tp, [payload, payload]), 0, NoFaults, h);
  }

  // ---- When one request is answered ----

  /** The request repeats batch h, which nothing fences or shadows, and whose records the log still holds. */
  ghost predicate Repeats(s: State, req: Request, h: Batch) {
    && h in s.table && KeyFor(req) == KeyOf(h) && |req.payloads| == h.count
    && Unfenced(s.table, h.producer, h.tp, h.epoch) && Unshadowed(s.table, h)
    && forall o :: h.baseOffset <= o <= h.lastOffset ==> HasOffset(LogOf(s, h.tp).records, o)
  }

  lemma {:induction false} NotFound(s: State, req: Request)
    requires forall h :: h in s.table ==> KeyFor(req) != KeyOf(h)
    ensures !Find(ListBatches(s.table, req.id.producer, req.tp), req.id, |req.payloads|).Found?
  {
    ListMembers(s.table, req.id.producer, req.tp);
    FindCorrect(ListBatches(s.table, req.id.producer, req.tp), req.id, |req.payloads|);
  }

  lemma {:induction false} OkWithoutKey(s: State, req: Request, now: nat, f: Faults)
    requires !Find(ListBatches(s.table, req.id.producer, req.tp), req.id, |req.payloads|).Found?
    ensures Produce(s, req, now, f).1.Ok? ==> Produce(s, req, now, f).1.value.appended
  {
  }

  lemma {:induction false} OkWithKey(s: State, req: Request, now: nat, f: Faults, h: Batch)
    requires TableOk(s.table) && LogOk(LogOf(s, req.tp)) && h in s.table && KeyFor(req) == KeyOf(h)
    ensures !New(s, req)
    ensures Produce(s, req, now, f).1.Ok? <==> WellFormed(req) && !f.list && !f.read && Repeats(s, req, h)
    ensures forall x :: Repeats(s, req, x) ==> x == h
  {
    assert Covers(h.base, h.count, req.id.base);
    AnsweredExactlyWhen(s, req, now, f, h);
    forall x | Repeats(s, req, x) ensures x == h { SameKeySameBatch(s.table, x, h); }
  }

  /**
   * The answer to a request, exactly: it succeeds if and only if it is well formed, the store does its part, and it is
   * new or repeats a remembered batch.
   */
  lemma {:induction false} OkExactlyWhen(s: State, req: Request, now: nat, f: Faults)
    requires TableOk(s.table) && LogOk(LogOf(s, req.tp))
    ensures Produce(s, req, now, f).1.Ok?
       <==> || (New(s, req) && StoreTakes(s, req, f))
            || (WellFormed(req) && !f.list && !f.read && exists h :: Repeats(s, req, h))
  {
    if h :| h in s.table && KeyFor(req) == KeyOf(h) {
      OkWithKey(s, req, now, f, h);
    } else {
      AcceptedExactlyWhen(s, req, now, f);
      NotFound(s, req);
      OkWithoutKey(s, req, now, f);
    }
  }

  // ---- In a run ----

  /** Batch b was remembered by one of the first n events. */
  ghost predicate RememberedIn(states: seq<State>, events: seq<Event>, n: nat, b: Batch)
    requires n <= |events| < |states|
  {
    exists k: nat :: k < n && RememberedBy(states[k], events[k]) == Some(b)
  }

  lemma {:induction false} StepBatches(s: State, e: Event, b: Batch)
    requires TableOk(s.table) && b in Apply(s, e).table
    ensures b in s.table || RememberedBy(s, e) == Some(b)
  {
    TableAfter(s, e);
    var saved := RememberedBy(s, e);
    if saved.Some? {
      AppendedMeansNew(s, e.req, e.faults);
      SaveNew(s.table, saved.value);
      PruneSubset(Save(s.table, saved.value), saved.value.producer, saved.value.tp, Deletes(e.faults));
    }
  }

  lemma {:induction false} RunBatches(states: seq<State>, events: seq<Event>, n: nat, b: Batch)
    requires IsRun(states, events) && n <= |events| && states[0].table == [] && b in states[n].table
    ensures RememberedIn(states, events, n, b)
  {
    RunTables(states, events, n - 1);
    assert IsStep(states, events, n - 1);
    StepBatches(states[n - 1], events[n - 1], b);
    if b in states[n - 1].table {
      RunBatches(states, events, n - 1, b);
      var k: nat :| k < n - 1 && RememberedBy(states[k], events[k]) == Some(b);
    }
  }

  /** Every batch of h's producer, epoch and partition that is remembered uses a range the client granted. */
  ghost predicate UsesGrants(
    states: seq<State>, events: seq<Event>, tables: seq<Sequences>, calls: seq<Call>, n: nat, h: Batch)
    requires n <= |events| < |states| && Grants(tables, calls)
  {
    forall b :: RememberedIn(states, events, n, b) && b.producer == h.producer && b.tp == h.tp && b.epoch == h.epoch ==>
      exists c :: Granted(tables, calls, c, h.tp.partition, b.base, b.count)
  }

  lemma {:induction false} GrantedApart(
    tables: seq<Sequences>, calls: seq<Call>, partition: nat, c: nat, d: nat, h: Batch, b: Batch)
    requires Grants(tables, calls) && KeyOf(b).(base := h.base) == KeyOf(h)
    requires Granted(tables, calls, c, partition, h.base, h.count)
    requires Granted(tables, calls, d, partition, b.base, b.count)
    ensures b.base <= MaxU64 - b.count && (Covers(b.base, b.count, h.base) ==> KeyOf(b) == KeyOf(h))
  {
    if c < d {
      GrantsDisjoint(tables, calls, c, d, partition, h.base, h.count, b.base, b.count);
    } else if d < c {
      GrantsDisjoint(tables, calls, d, c, partition, b.base, b.count, h.base, h.count);
    }
  }

  lemma {:induction false} TheGrant(
    states: seq<State>, events: seq<Event>, tables: seq<Sequences>, calls: seq<Call>, n: nat, h: Batch, b: Batch)
    returns (c: nat)
    requires IsRun(states, events) && n <= |events| && states[0].table == [] && b in states[n].table
    requires Grants(tables, calls) && UsesGrants(states, events, tables, calls, n, h)
    requires b.producer == h.producer && b.tp == h.tp && b.epoch == h.epoch
    ensures Granted(tables, calls, c, h.tp.partition, b.base, b.count)
  {
    RunBatches(states, events, n, b);
    c :| Granted(tables, calls, c, h.tp.partition, b.base, b.count);
  }

  /** Granted ranges keep the remembered batches apart. */
  lemma {:induction false} GrantsKeepApart(
    states: seq<State>, events: seq<Event>, tables: seq<Sequences>, calls: seq<Call>, n: nat, h: Batch)
    requires IsRun(states, events) && n <= |events| && states[0].table == [] && h in states[n].table
    requires Grants(tables, calls) && UsesGrants(states, events, tables, calls, n, h)
    ensures h.base <= MaxU64 - h.count && Unshadowed(states[n].table, h)
  {
    RunTables(states, events, n);
    var c := TheGrant(states, events, tables, calls, n, h, h);
    GrantedApart(tables, calls, h.tp.partition, c, c, h, h);
    forall b | b in states[n].table && b.producer == h.producer && b.tp == h.tp && b.epoch == h.epoch
      ensures !Shadows(b, h)
    {
      var d := TheGrant(states, events, tables, calls, n, h, b);
      GrantedApart(tables, calls, h.tp.partition, c, d, h, b);
      if KeyOf(b) == KeyOf(h) { SameKeySameBatch(states[n].table, b, h); }
    }
  }

  /** The event does not clean up offset o of the partition. */
  predicate Spares(e: Event, tp: TopicPartition, o: nat) {
    e.Cleanup? && e.tp == tp ==> o !in e.drop
  }

  lemma {:induction false} StepKeepsOffset(s: State, e: Event, tp: TopicPartition, o: nat)
    requires HasOffset(LogOf(s, tp).records, o) && Spares(e, tp, o)
    ensures HasOffset(LogOf(Apply(s, e), tp).records, o)
  {
    var r :| r in LogOf(s, tp).records && r.offset == o;
    var appends := LogOfApply(s, e, tp);
    AfterKeepsRecord(LogOf(s, tp), e, tp, appends, r);
  }

  lemma {:induction false} AfterKeepsRecord(log: Log, e: Event, tp: TopicPartition, appends: bool, r: Record)
    requires r in log.records && Spares(e, tp, r.offset)
    ensures r in LogAfter(log, e, tp, appends).records
  {
    if e.Cleanup? { FilterMembers(log.records, NotIn(e.drop)); }
  }

  lemma {:induction false} RunStepKeepsOffset(
    states: seq<State>, events: seq<Event>, k: nat, tp: TopicPartition, o: nat)
    requires IsRun(states, events) && k < |events| && HasOffset(LogOf(states[k], tp).records, o)
    requires Spares(events[k], tp, o)
    ensures HasOffset(LogOf(states[k + 1], tp).records, o)
  {
    assert IsStep(states, events, k);
    StepKeepsOffset(states[k], events[k], tp, o);
  }

  lemma {:induction false} RunKeepsOffset(
    states: seq<State>, events: seq<Event>, i: nat, j: nat, tp: TopicPartition, o: nat)
    requires IsRun(states, events) && i <= j <= |events| && HasOffset(LogOf(states[i], tp).records, o)
    requires forall k :: i <= k < j ==> Spares(events[k], tp, o)
    ensures HasOffset(LogOf(states[j], tp).records, o)
    decreases j
  {
    if i < j {
      RunKeepsOffset(states, events, i, j - 1, tp, o);
      RunStepKeepsOffset(states, events, j - 1, tp, o);
    }
  }

  lemma {:induction false} WrittenOffset(states: seq<State>, events: seq<Event>, i: nat, h: Batch, o: nat)
    requires IsRun(states, events) && i < |events| && RememberedBy(states[i], events[i]) == Some(h)
    requires h.baseOffset <= o <= h.lastOffset
    ensures HasOffset(LogOf(states[i + 1], h.tp).records, o)
  {
    RememberedShape(states[i], events[i], h);
    assert IsStep(states, events, i);
    var stamped := Stamp(h.baseOffset, events[i].req.payloads);
    assert stamped[o - h.baseOffset] in stamped;
    assert stamped[o - h.baseOffset] in LogOf(states[i + 1], h.tp).records;
  }

  lemma {:induction false} StillThere(states: seq<State>, events: seq<Event>, i: nat, j: nat, h: Batch)
    requires IsRun(states, events) && i < j <= |events| && RememberedBy(states[i], events[i]) == Some(h)
    requires forall k, o :: i < k < j && h.baseOffset <= o <= h.lastOffset ==> Spares(events[k], h.tp, o)
    ensures forall o :: h.baseOffset <= o <= h.lastOffset ==> HasOffset(LogOf(states[j], h.tp).records, o)
  {
    forall o | h.baseOffset <= o <= h.lastOffset ensures HasOffset(LogOf(states[j], h.tp).records, o) {
      WrittenOffset(states, events, i, h, o);
      RunKeepsOffset(states, events, i + 1, j, h.tp, o);
    }
  }

  /**
   * In every run of a client that uses the ranges it granted, a retry with as many records that comes while its batch
   * is in the window, is not fenced and finds its records not cleaned up, is told exactly what the first attempt wrote.
   */
  lemma {:induction false} RetryIsAnswered(
    states: seq<State>, events: seq<Event>, tables: seq<Sequences>, calls: seq<Call>, i: nat, j: nat, h: Batch)
    requires IsRun(states, events) && i < j < |events| && states[0].table == []
    requires RememberedBy(states[i], events[i]) == Some(h) && h in states[j].table
    requires Grants(tables, calls) && UsesGrants(states, events, tables, calls, j, h)
    requires events[j].Send? && KeyFor(events[j].req) == KeyOf(h) && |events[j].req.payloads| == h.count
    requires !events[j].faults.list && !events[j].faults.read
    requires Unfenced(states[j].table, h.producer, h.tp, h.epoch)
    requires forall k, o :: i < k < j && h.baseOffset <= o <= h.lastOffset ==> Spares(events[k], h.tp, o)
    ensures Produce(states[j], events[j].req, events[j].now, events[j].faults).1
         == Ok(Answer(Stamp(h.baseOffset, events[i].req.payloads), false))
  {
    RunTables(states, events, j);
    RunLogs(states, events, j, j, h.tp);
    GrantsKeepApart(states, events, tables, calls, j, h);
    StillThere(states, events, i, j, h);
    RememberedProducer(states[i], events[i], h);
    AnsweredExactlyWhen(states[j], events[j].req, events[j].now, events[j].faults, h);
    RetryToldTheOriginal(states, events, i, j, h);
  }

  lemma {:induction false} RememberedProducer(s: State, e: Event, h: Batch)
    requires RememberedBy(s, e) == Some(h)
    ensures h.producer != 0
  {
  }
}
