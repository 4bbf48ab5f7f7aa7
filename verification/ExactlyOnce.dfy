/** What the idempotent produce path guarantees over whole runs, together with the client that hands out sequences. */
module ExactlyOnce {
  import opened Basics
  import opened Sorting
  import opened Logs
  import opened Idempotency
  import opened IdempotencyRuns

  ghost predicate IsRun(states: seq<State>, events: seq<Event>) {
    && |states| == |events| + 1
    && TableOk(states[0].table) && LogsOk(states[0])
    && forall k: nat :: k < |events| ==> IsStep(states, events, k)
  }

  ghost predicate IsStep(states: seq<State>, events: seq<Event>, k: nat)
    requires k < |events| && |states| == |events| + 1
  {
    states[k + 1] == Apply(states[k], events[k])
  }

  ghost predicate LogsOk(s: State) {
    forall tp :: LogOk(LogOf(s, tp))
  }

  lemma {:induction false} RunStepTable(states: seq<State>, events: seq<Event>, k: nat)
    requires IsRun(states, events) && k < |events| && TableOk(states[k].table)
    ensures TableOk(states[k + 1].table) && |states[k + 1].table| <= |states[k].table| + 1
  {
    assert IsStep(states, events, k);
    StepTableOk(states[k], events[k]);
  }

  lemma {:induction false} RunTables(states: seq<State>, events: seq<Event>, k: nat)
    requires IsRun(states, events) && k <= |events|
    ensures TableOk(states[k].table)
    ensures |states[k].table| <= |states[0].table| + k
  {
    if k > 0 {
      RunTables(states, events, k - 1);
      RunStepTable(states, events, k - 1);
    }
  }

  lemma {:induction false} RunStepKeeps(states: seq<State>, events: seq<Event>, k: nat, h: Batch)
    requires IsRun(states, events) && k < |events|
    requires HeldOrPushedOut(states[k].table, h) || RememberedBy(states[k], events[k]) == Some(h)
    ensures HeldOrPushedOut(states[k + 1].table, h)
  {
    RunTables(states, events, k);
    StepKeeps(states[k], events[k], h);
    assert IsStep(states, events, k);
  }

  lemma {:induction false} RunGoesOnKeeping(states: seq<State>, events: seq<Event>, i: nat, j: nat, h: Batch)
    requires IsRun(states, events) && i <= j <= |events| && HeldOrPushedOut(states[i].table, h)
    ensures HeldOrPushedOut(states[j].table, h)
    decreases j
  {
    if i < j {
      RunGoesOnKeeping(states, events, i, j - 1, h);
      RunStepKeeps(states, events, j - 1, h);
    }
  }

  lemma {:induction false} RunKeeps(states: seq<State>, events: seq<Event>, i: nat, j: nat, h: Batch)
    requires IsRun(states, events) && i < j <= |events|
    requires RememberedBy(states[i], events[i]) == Some(h)
    ensures HeldOrPushedOut(states[j].table, h)
  {
    RunStepKeeps(states, events, i, h);
    RunGoesOnKeeping(states, events, i + 1, j, h);
  }

  /** Event k appends its request's records to the log. */
  ghost predicate Appends(states: seq<State>, events: seq<Event>, k: nat)
    requires k < |events| && |states| == |events| + 1
  {
    events[k].Send? && Decide(states[k], events[k].req, events[k].faults).None?
  }

  /**
   * At most once while in the window: in every run, with any interleaving of other producers, plain publishes,
   * clean-ups, retries and store failures, a batch that was remembered is appended again only after a full window of
   * younger batches of its producer and partition has been remembered.
   */
  lemma {:induction false} SecondAppendMeansPushedOut(states: seq<State>, events: seq<Event>, i: nat, j: nat, h: Batch)
    requires IsRun(states, events) && i < j < |events|
    requires RememberedBy(states[i], events[i]) == Some(h)
    requires Appends(states, events, j) && KeyFor(events[j].req) == KeyOf(h)
    ensures h !in states[j].table
    ensures Count(View(states[j].table, h.producer, h.tp), Younger(h)) >= WindowBatches
  {
    RunTables(states, events, j);
    RunKeeps(states, events, i, j, h);
    AppendedMeansNew(states[j], events[j].req, events[j].faults);
  }

  lemma {:induction false} CountAtMost<T>(s: seq<T>, p: T -> bool)
    ensures Count(s, p) <= |s|
  {
    if s != [] { CountAtMost(s[..|s| - 1], p); }
  }

  /** Runs of at most 1024 events over an empty window append every remembered batch exactly once. */
  lemma {:induction false} ShortRunsAppendOnce(states: seq<State>, events: seq<Event>, i: nat, j: nat, h: Batch)
    requires IsRun(states, events) && states[0].table == [] && |events| <= WindowBatches
    requires i < j < |events|
    requires RememberedBy(states[i], events[i]) == Some(h)
    requires Appends(states, events, j)
    ensures KeyFor(events[j].req) != KeyOf(h)
  {
    if KeyFor(events[j].req) == KeyOf(h) {
      SecondAppendMeansPushedOut(states, events, i, j, h);
      RunTables(states, events, j);
      CountAtMost(View(states[j].table, h.producer, h.tp), Younger(h));
    }
  }

  // ---- What a retry is told ----

  lemma {:induction false} CleanupOk(log: Log, drop: set<nat>)
    requires LogOk(log)
    ensures
      var clean := log.(records := Filter(log.records, NotIn(drop)));
      LogOk(clean) && Continues(log, clean)
  {
    FilterSorted(log.records, NotIn(drop), Before);
    FilterMembers(log.records, NotIn(drop));
  }

  function LogAfter(log: Log, e: Event, tp: TopicPartition, appends: bool): Log {
    match e
    case Send(req, now, f) => if tp == req.tp && appends then Append(log, req.payloads) else log
    case Publish(p, payloads) => if tp == p then Append(log, payloads) else log
    case Cleanup(p, drop) => if tp == p then log.(records := Filter(log.records, NotIn(drop))) else log
  }

  lemma {:induction false} LogOfApply(s: State, e: Event, tp: TopicPartition) returns (appends: bool)
    ensures LogOf(Apply(s, e), tp) == LogAfter(LogOf(s, tp), e, tp, appends)
  {
    appends := e.Send? && Decide(s, e.req, e.faults).None?;
  }

  lemma {:induction false} LogAfterOk(log: Log, e: Event, tp: TopicPartition, appends: bool)
    requires LogOk(log)
    ensures LogOk(LogAfter(log, e, tp, appends)) && Continues(log, LogAfter(log, e, tp, appends))
  {
    assert Continues(log, log);
    match e
    case Send(req, now, f) => AppendOk(log, req.payloads);
    case Publish(p, payloads) => AppendOk(log, payloads);
    case Cleanup(p, drop) => CleanupOk(log, drop);
  }

  lemma {:induction false} StepLogs(s: State, e: Event, tp: TopicPartition)
    requires LogsOk(s)
    ensures LogOk(LogOf(Apply(s, e), tp)) && Continues(LogOf(s, tp), LogOf(Apply(s, e), tp))
  {
    var appends := LogOfApply(s, e, tp);
    LogAfterOk(LogOf(s, tp), e, tp, appends);
  }

  lemma {:induction false} RunStepLogs(states: seq<State>, events: seq<Event>, k: nat, tp: TopicPartition)
    requires IsRun(states, events) && k < |events| && LogsOk(states[k])
    ensures LogOk(LogOf(states[k + 1], tp)) && Continues(LogOf(states[k], tp), LogOf(states[k + 1], tp))
  {
    assert IsStep(states, events, k);
    var next := Apply(states[k], events[k]);
    StepLogs(states[k], events[k], tp);
    assert states[k + 1] == next;
  }

  lemma {:induction false} RunLogs(states: seq<State>, events: seq<Event>, i: nat, j: nat, tp: TopicPartition)
    requires IsRun(states, events) && i <= j <= |events|
    ensures LogsOk(states[j]) && Continues(LogOf(states[i], tp), LogOf(states[j], tp))
    decreases j
  {
    if j > 0 {
      RunLogs(states, events, if i < j then i else j - 1, j - 1, tp);
      forall p ensures LogOk(LogOf(states[j], p)) { RunStepLogs(states, events, j - 1, p); }
      RunStepLogs(states, events, j - 1, tp);
      if i < j {
        ContinuesOnward(LogOf(states[i], tp), LogOf(states[j - 1], tp), LogOf(states[j], tp));
      }
    }
  }

  lemma {:induction false} OffsetsAtLeast(records: seq<Record>, k: nat)
    requires k < |records| && forall i, j :: 0 <= i < j < |records| ==> records[i].offset < records[j].offset
    ensures records[k].offset >= records[0].offset + k
  {
    if k > 0 {
      OffsetsAtLeast(records, k - 1);
      assert records[k - 1].offset < records[k].offset;
    }
  }

  /** n records in offset order whose offsets span n - 1 have consecutive offsets. */
  lemma {:induction false} Consecutive(records: seq<Record>, k: nat)
    requires k < |records| && forall i, j :: 0 <= i < j < |records| ==> records[i].offset < records[j].offset
    requires records[|records| - 1].offset == records[0].offset + |records| - 1
    ensures records[k].offset == records[0].offset + k
  {
    OffsetsAtLeast(records, k);
    OffsetsAtLeast(records[k..], |records| - 1 - k);
    assert records[k..][|records| - 1 - k] == records[|records| - 1];
  }

  /**
   * What is read back for a remembered batch is exactly what was written for it, whatever happened to the log since.
   */
  lemma {:induction false} ReadBackIsOriginal(before: Log, payloads: seq<Payload>, now: Log, b: Batch)
    requires LogOk(before) && LogOk(now) && Continues(Append(before, payloads), now)
    requires payloads != [] && b.baseOffset == before.next && b.count == |payloads|
    requires b.lastOffset == b.baseOffset + b.count - 1
    ensures ReadBack(now, b).Ok? ==> ReadBack(now, b).value == Stamp(before.next, payloads)
  {
    if ReadBack(now, b).Ok? {
      ReadBackShape(now, b);
      ShapeIsOriginal(before, payloads, now, ReadBack(now, b).value);
    }
  }

  lemma {:induction false} ShapeIsOriginal(before: Log, payloads: seq<Payload>, now: Log, records: seq<Record>)
    requires LogOk(before) && Continues(Append(before, payloads), now) && 0 < |records| == |payloads|
    requires forall i, j :: 0 <= i < j < |records| ==> records[i].offset < records[j].offset
    requires forall r :: r in records ==> r in now.records
    requires records[0].offset == before.next && records[|records| - 1].offset == before.next + |payloads| - 1
    ensures records == Stamp(before.next, payloads)
  {
    forall k | 0 <= k < |records| ensures records[k] == Stamp(before.next, payloads)[k] {
      OriginalAt(before, payloads, now, records, k);
    }
  }

  /**
   * What is read back is a run of log records in offset order, as many as remembered, from and to the offsets
   * remembered.
   */
  lemma {:induction false} ReadBackShape(now: Log, b: Batch)
    requires LogOk(now) && b.count > 0 && ReadBack(now, b).Ok?
    ensures
      var records := ReadBack(now, b).value;
      && |records| == b.count && (forall r :: r in records ==> r in now.records)
      && (forall i, j :: 0 <= i < j < |records| ==> records[i].offset < records[j].offset)
      && records[0].offset == b.baseOffset && records[|records| - 1].offset == b.lastOffset
  {
    FilterSorted(now.records, From(b.baseOffset), Before);
    FilterMembers(now.records, From(b.baseOffset));
  }

  lemma {:induction false} OriginalAt(
    before: Log, payloads: seq<Payload>, now: Log, records: seq<Record>, k: nat)
    requires LogOk(before) && Continues(Append(before, payloads), now) && k < |records| == |payloads|
    requires forall i, j :: 0 <= i < j < |records| ==> records[i].offset < records[j].offset
    requires forall r :: r in records ==> r in now.records
    requires records[0].offset == before.next && records[|records| - 1].offset == before.next + |payloads| - 1
    ensures records[k] == Stamp(before.next, payloads)[k]
  {
    Consecutive(records, k);
    assert records[k] in records;
    RecordAt(before, payloads, records[k]);
  }

  lemma {:induction false} RecordAt(log: Log, payloads: seq<Payload>, r: Record)
    requires LogOk(log) && r in Append(log, payloads).records && r.offset >= log.next
    ensures r.offset - log.next < |payloads| && r == Stamp(log.next, payloads)[r.offset - log.next]
  {
    assert r !in log.records;
    var stamped := Stamp(log.next, payloads);
    assert r in stamped;
    var i :| 0 <= i < |stamped| && stamped[i] == r;
  }

  lemma {:induction false} RetryDecided(s: State, req: Request, now: nat, f: Faults, h: Batch)
    requires TableOk(s.table) && h in s.table && KeyFor(req) == KeyOf(h)
    ensures Produce(s, req, now, f).0 == s
    ensures
      var r := Produce(s, req, now, f).1;
      r.Ok? ==> |req.payloads| == h.count && ReadBack(LogOf(s, h.tp), h).Ok?
                && r.value == Answer(ReadBack(LogOf(s, h.tp), h).value, false)
  {
    if Decide(s, req, f).None? {
      AppendedMeansNew(s, req, f);
    } else if Produce(s, req, now, f).1.Ok? {
      var batches := ListBatches(s.table, req.id.producer, req.tp);
      FoundIsHeld(s.table, batches, req, h);
    }
  }

  lemma {:induction false} FoundIsHeld(table: seq<Batch>, batches: seq<Batch>, req: Request, h: Batch)
    requires TableOk(table) && h in table && KeyFor(req) == KeyOf(h)
    requires batches == ListBatches(table, req.id.producer, req.tp)
    ensures
      var found := Find(batches, req.id, |req.payloads|);
      found.Found? ==> found.batch == h && h.count == |req.payloads|
  {
    FindCorrect(batches, req.id, |req.payloads|);
    ListMembers(table, req.id.producer, req.tp);
    var found := Find(batches, req.id, |req.payloads|);
    if found.Found? {
      SameKeySameBatch(table, found.batch, h);
    }
  }

  lemma {:induction false} RememberedShape(s: State, e: Event, h: Batch)
    requires RememberedBy(s, e) == Some(h)
    ensures e.Send? && h.tp == e.req.tp && e.req.payloads != [] && h.count == |e.req.payloads|
    ensures h.baseOffset == LogOf(s, h.tp).next && h.lastOffset == h.baseOffset + h.count - 1
    ensures LogOf(Apply(s, e), h.tp) == Append(LogOf(s, h.tp), e.req.payloads)
  {
  }

  /**
   * A retry while the batch is in the window changes nothing, and is told the records the first attempt wrote (same
   * offsets, same payloads) or an error; never anything else.
   */
  lemma {:induction false} RetryToldTheOriginal(states: seq<State>, events: seq<Event>, i: nat, j: nat, h: Batch)
    requires IsRun(states, events) && i < j < |events|
    requires RememberedBy(states[i], events[i]) == Some(h)
    requires events[j].Send? && KeyFor(events[j].req) == KeyOf(h) && h in states[j].table
    ensures states[j + 1] == states[j]
    ensures
      var r := Produce(states[j], events[j].req, events[j].now, events[j].faults).1;
      r.Ok? ==>
        && r.value == Answer(Stamp(h.baseOffset, events[i].req.payloads), false)
        && |events[j].req.payloads| == |events[i].req.payloads|
  {
    RunTables(states, events, j);
    RetryDecided(states[j], events[j].req, events[j].now, events[j].faults, h);
    assert IsStep(states, events, j);
    ReadBackInRun(states, events, i, j, h);
  }

  lemma {:induction false} ReadBackInRun(states: seq<State>, events: seq<Event>, i: nat, j: nat, h: Batch)
    requires IsRun(states, events) && i < j <= |events|
    requires RememberedBy(states[i], events[i]) == Some(h)
    ensures
      var back := ReadBack(LogOf(states[j], h.tp), h);
      h.count == |events[i].req.payloads| && (back.Ok? ==> back.value == Stamp(h.baseOffset, events[i].req.payloads))
  {
    RememberedShape(states[i], events[i], h);
    assert IsStep(states, events, i);
    RunLogs(states, events, i, i, h.tp);
    RunLogs(states, events, i + 1, j, h.tp);
    ReadBackIsOriginal(LogOf(states[i], h.tp), events[i].req.payloads, LogOf(states[j], h.tp), h);
  }

  lemma {:induction false} SameKeySameBatch(table: seq<Batch>, a: Batch, b: Batch)
    requires UniqueKeys(table) && a in table && b in table && KeyOf(a) == KeyOf(b)
    ensures a == b
  {
    var i :| 0 <= i < |table| && table[i] == a;
    var j :| 0 <= j < |table| && table[j] == b;
    assert i == j;
  }

  // ---- The client's sequence ranges ----

  /** A producer's next sequence number per partition. */
  type Sequences = map<nat, nat>

  function NextOf(sequences: Sequences, partition: nat): nat {
    if partition in sequences then sequences[partition] else 0
  }

  datatype Call = Call(partition: nat, records: int)

  function Grant(sequences: Sequences, c: Call): (Sequences, Result<nat>) {
    if c.records <= 0 then (sequences, Err("producer batch requires at least one record"))
    else if NextOf(sequences, c.partition) > MaxU64 - c.records then
      (sequences, Err("producer sequence overflows uint64"))
    else (sequences[c.partition := NextOf(sequences, c.partition) + c.records], Ok(NextOf(sequences, c.partition)))
  }

  class Producer {
    var sequences: Sequences

    constructor ()
      ensures sequences == map[]
    {
      sequences := map[];
    }

    method NextBatchSequence(partition: nat, records: int) returns (r: Result<nat>)
      modifies this
      ensures (sequences, r) == Grant(old(sequences), Call(partition, records))
    {
      if records <= 0 { return Err("producer batch requires at least one record"); }
      var current := if partition in sequences then sequences[partition] else 0;
      if current > MaxU64 - records { return Err("producer sequence overflows uint64"); }
      sequences := sequences[partition := current + records];
      return Ok(current);
    }
  }

  /** The client's table after each call, starting from a new producer. */
  ghost predicate Grants(tables: seq<Sequences>, calls: seq<Call>) {
    && |tables| == |calls| + 1 && tables[0] == map[]
    && forall k :: 0 <= k < |calls| ==> tables[k + 1] == Grant(tables[k], calls[k]).0
  }

  /** Call k was granted `count` sequence numbers of the partition from `base`. */
  ghost predicate Granted(tables: seq<Sequences>, calls: seq<Call>, k: nat, partition: nat, base: nat, count: nat)
    requires Grants(tables, calls)
  {
    k < |calls| && calls[k] == Call(partition, count) && Grant(tables[k], calls[k]).1 == Ok(base)
  }

  lemma {:induction false} SequencesGrow(tables: seq<Sequences>, calls: seq<Call>, i: nat, j: nat, partition: nat)
    requires Grants(tables, calls) && i <= j <= |calls|
    ensures NextOf(tables[i], partition) <= NextOf(tables[j], partition)
    decreases j
  {
    if i < j { SequencesGrow(tables, calls, i, j - 1, partition); }
  }

  /** How many sequence numbers of the partition the first n calls were granted. */
  ghost function TotalGranted(tables: seq<Sequences>, calls: seq<Call>, n: nat, partition: nat): nat
    requires Grants(tables, calls) && n <= |calls|
  {
    if n == 0 then 0
    else
      TotalGranted(tables, calls, n - 1, partition)
      + (if calls[n - 1].partition == partition && Grant(tables[n - 1], calls[n - 1]).1.Ok?
         then calls[n - 1].records else 0)
  }

  lemma {:induction false} NextIsTotal(tables: seq<Sequences>, calls: seq<Call>, n: nat, partition: nat)
    requires Grants(tables, calls) && n <= |calls|
    ensures NextOf(tables[n], partition) == TotalGranted(tables, calls, n, partition)
  {
    if n > 0 { NextIsTotal(tables, calls, n - 1, partition); }
  }

  /**
   * A call is granted the range just above all ranges granted before, if and only if it asks for at least one number
   * and the range ends within 64 bits.
   */
  lemma {:induction false} GrantedExactlyWhen(tables: seq<Sequences>, calls: seq<Call>, k: nat, base: nat)
    requires Grants(tables, calls) && k < |calls|
    ensures Grant(tables[k], calls[k]).1 == Ok(base)
       <==> && calls[k].records > 0 && base == TotalGranted(tables, calls, k, calls[k].partition)
            && base + calls[k].records <= MaxU64
  {
    NextIsTotal(tables, calls, k, calls[k].partition);
  }

  /** Two ranges granted for a partition are the same range or disjoint, the later one above the earlier one. */
  lemma {:induction false} GrantsDisjoint(tables: seq<Sequences>, calls: seq<Call>, k: nat, l: nat, partition: nat,
                       base: nat, count: nat, base': nat, count': nat)
    requires Grants(tables, calls) && k < l
    requires Granted(tables, calls, k, partition, base, count) && Granted(tables, calls, l, partition, base', count')
    ensures base + count <= base'
  {
    SequencesGrow(tables, calls, k + 1, l, partition);
  }

  /** The ranges granted so far cover every sequence number below the next one. */
  lemma {:induction false} GrantsTile(tables: seq<Sequences>, calls: seq<Call>, n: nat, partition: nat, q: nat)
    returns (k: nat, base: nat, count: nat)
    requires Grants(tables, calls) && n <= |calls| && q < NextOf(tables[n], partition)
    ensures k < n && Granted(tables, calls, k, partition, base, count) && Covers(base, count, q)
  {
    if q < NextOf(tables[n - 1], partition) {
      k, base, count := GrantsTile(tables, calls, n - 1, partition, q);
    } else {
      k, base, count := n - 1, NextOf(tables[n - 1], partition), calls[n - 1].records;
    }
  }

  /**
   * Exactly once, number by number: if two requests of one producer, epoch and partition use ranges the client
   * granted, and both cover sequence number q, then the second is appended only after the first has been pushed out
   * of the window.
   */
  lemma {:induction false} SequenceAppendedOnce(
    states: seq<State>, events: seq<Event>, tables: seq<Sequences>, calls: seq<Call>,
    i: nat, j: nat, h: Batch, k: nat, l: nat, q: nat)
    requires IsRun(states, events) && i < j < |events| && Grants(tables, calls)
    requires RememberedBy(states[i], events[i]) == Some(h) && Appends(states, events, j)
    requires
      var req := events[j].req;
      && req.id.producer == h.producer && req.id.epoch == h.epoch && req.tp == h.tp
      && Granted(tables, calls, k, h.tp.partition, h.base, h.count)
      && Granted(tables, calls, l, h.tp.partition, req.id.base, |req.payloads|)
      && Covers(h.base, h.count, q) && Covers(req.id.base, |req.payloads|, q)
    ensures Count(View(states[j].table, h.producer, h.tp), Younger(h)) >= WindowBatches
  {
    var req := events[j].req;
    if k < l {
      GrantsDisjoint(tables, calls, k, l, h.tp.partition, h.base, h.count, req.id.base, |req.payloads|);
    } else if l < k {
      GrantsDisjoint(tables, calls, l, k, h.tp.partition, req.id.base, |req.payloads|, h.base, h.count);
    }
    SecondAppendMeansPushedOut(states, events, i, j, h);
  }

  // ---- Fencing survives pruning ----

  ghost predicate EpochKept(table: seq<Batch>, h: Batch) {
    exists b :: b in table && b.producer == h.producer && b.tp == h.tp && b.epoch >= h.epoch
  }

  /** Pruning never removes the newest batch, and with a sane clock that batch has the highest epoch. */
  lemma {:induction false} PruneKeepsEpoch(table: seq<Batch>, n: Batch, deletes: Option<nat>)
    requires UniqueKeys(table) && n in table
    requires forall b :: b in table && b.producer == n.producer && b.tp == n.tp ==> b.updatedAt <= n.updatedAt
    ensures EpochKept(Prune(table, n.producer, n.tp, deletes), n)
  {
    var k := Deleted(table, n.producer, n.tp, deletes);
    var oldest := ByAge(table, n.producer, n.tp);
    ByAgeCorrect(table, n.producer, n.tp);
    assert n in oldest;
    NewestStays(table, n, oldest, k);
  }

  lemma {:induction false} NewestStays(table: seq<Batch>, n: Batch, oldest: seq<Batch>, k: nat)
    requires UniqueKeys(table) && n in oldest && k < |oldest|
    requires Sorted(oldest, AgeLe) && multiset(View(table, n.producer, n.tp)) == multiset(oldest)
    requires forall b :: b in oldest ==> b.updatedAt <= n.updatedAt
    ensures EpochKept(DeleteAll(table, oldest[..k]), n)
  {
    var last := oldest[|oldest| - 1];
    var i :| 0 <= i < |oldest| && oldest[i] == n;
    assert i == |oldest| - 1 || AgeLe(oldest[i], last);
    assert last in oldest;
    assert last.epoch >= n.epoch;
    DeleteListed(table, n.producer, n.tp, oldest, k);
    assert last == oldest[k..][|oldest| - 1 - k];
    assert last in multiset(oldest[k..]);
    var after := DeleteAll(table, oldest[..k]);
    assert last in View(after, n.producer, n.tp);
    ViewMembers(after, n.producer, n.tp);
  }

  lemma {:induction false} PruneElsewhere(
    table: seq<Batch>, producer: U64, tp: TopicPartition, deletes: Option<nat>, b: Batch)
    requires b in table && (b.producer != producer || b.tp != tp)
    ensures b in Prune(table, producer, tp, deletes)
  {
    var k := Deleted(table, producer, tp, deletes);
    var doomed := ByAge(table, producer, tp)[..k];
    var m := Matches(b.producer, b.tp);
    forall d, x | d in doomed && m(x) ensures KeyOf(x) != KeyOf(d) {
      MatchesDoomed(table, producer, tp, k, d);
    }
    DeleteElsewhere(table, doomed, m);
    ViewMembers(table, b.producer, b.tp);
    ViewMembers(DeleteAll(table, doomed), b.producer, b.tp);
  }

  lemma {:induction false} StepEpoch(s: State, e: Event, h: Batch)
    requires TableOk(s.table)
    requires e.Send? ==> forall b :: b in s.table ==> b.updatedAt <= e.now
    requires EpochKept(s.table, h) || RememberedBy(s, e) == Some(h)
    ensures EpochKept(Apply(s, e).table, h)
  {
    TableAfter(s, e);
    var saved := RememberedBy(s, e);
    if saved.Some? {
      var n := saved.value;
      AppendedMeansNew(s, e.req, e.faults);
      SaveKeepsEpoch(s.table, n, h, Deletes(e.faults));
    }
  }

  lemma {:induction false} SaveKeepsEpoch(table: seq<Batch>, n: Batch, h: Batch, deletes: Option<nat>)
    requires UniqueKeys(table) && (EpochKept(table, h) || n == h)
    requires forall b :: b in table ==> KeyOf(b) != KeyOf(n) && b.updatedAt <= n.updatedAt
    requires forall b :: b in table && b.producer == n.producer && b.tp == n.tp ==> b.epoch <= n.epoch
    ensures EpochKept(Prune(Save(table, n), n.producer, n.tp, deletes), h)
  {
    SaveNew(table, n);
    SaveUnique(table, n);
    if h.producer == n.producer && h.tp == n.tp {
      PruneKeepsEpoch(table + [n], n, deletes);
    } else {
      var b :| b in table && b.producer == h.producer && b.tp == h.tp && b.epoch >= h.epoch;
      PruneElsewhere(table + [n], n.producer, n.tp, deletes, b);
    }
  }

  /** The clock never runs backwards, nor behind what is already stored. */
  ghost predicate SaneClock(table: seq<Batch>, events: seq<Event>) {
    && (forall i, j :: 0 <= i < j < |events| && events[i].Send? && events[j].Send? ==> events[i].now <= events[j].now)
    && (forall b, j :: b in table && 0 <= j < |events| && events[j].Send? ==> b.updatedAt <= events[j].now)
  }

  lemma {:induction false} RunClock(states: seq<State>, events: seq<Event>, k: nat, j: nat)
    requires IsRun(states, events) && SaneClock(states[0].table, events)
    requires k <= j < |events| && events[j].Send?
    ensures forall b :: b in states[k].table ==> b.updatedAt <= events[j].now
  {
    if k > 0 {
      RunClock(states, events, k - 1, j);
      RunTables(states, events, k - 1);
      StepStamps(states[k - 1], events[k - 1]);
      assert IsStep(states, events, k - 1);
    }
  }

  lemma {:induction false} StepStamps(s: State, e: Event)
    requires TableOk(s.table)
    ensures forall b :: b in Apply(s, e).table ==> b in s.table || (e.Send? && b.updatedAt == e.now)
  {
    TableAfter(s, e);
    var saved := RememberedBy(s, e);
    if saved.Some? {
      AppendedMeansNew(s, e.req, e.faults);
      SaveNew(s.table, saved.value);
      PruneSubset(Save(s.table, saved.value), saved.value.producer, saved.value.tp, Deletes(e.faults));
    }
  }

  lemma {:induction false} RunStepEpoch(states: seq<State>, events: seq<Event>, k: nat, h: Batch)
    requires IsRun(states, events) && SaneClock(states[0].table, events) && k < |events|
    requires EpochKept(states[k].table, h) || RememberedBy(states[k], events[k]) == Some(h)
    ensures EpochKept(states[k + 1].table, h)
  {
    RunTables(states, events, k);
    if events[k].Send? {
      RunClock(states, events, k, k);
    }
    StepEpoch(states[k], events[k], h);
    assert IsStep(states, events, k);
  }

  lemma {:induction false} RunEpoch(states: seq<State>, events: seq<Event>, i: nat, j: nat, h: Batch)
    requires IsRun(states, events) && SaneClock(states[0].table, events) && i <= j <= |events|
    requires EpochKept(states[i].table, h)
    ensures EpochKept(states[j].table, h)
    decreases j
  {
    if i < j {
      RunEpoch(states, events, i, j - 1, h);
      RunStepEpoch(states, events, j - 1, h);
    }
  }

  /**
   * Fencing survives pruning: in every run with a sane clock, accepted epochs of a producer and partition never
   * decrease.
   */
  lemma {:induction false} EpochsNeverDecrease(states: seq<State>, events: seq<Event>, i: nat, j: nat, h: Batch)
    requires IsRun(states, events) && SaneClock(states[0].table, events) && i < j < |events|
    requires RememberedBy(states[i], events[i]) == Some(h)
    requires Appends(states, events, j) && events[j].req.id.producer == h.producer && events[j].req.tp == h.tp
    ensures h.epoch <= events[j].req.id.epoch
  {
    RunStepEpoch(states, events, i, h);
    RunEpoch(states, events, i + 1, j, h);
    RunTables(states, events, j);
    AppendedMeansNew(states[j], events[j].req, events[j].faults);
  }
}
