/** What the bounded window gives up: which batches pruning keeps, and so when a fence or a duplicate check is lost. */
module WindowLimits {
  import opened Basics
  import opened Sorting
  import opened Logs
  import opened Idempotency
  import opened IdempotencyRuns
  import opened Acceptance
  import Messages

  // ---- Which batches pruning keeps ----

  /** How many remembered batches of b's producer and partition are younger than b. */
  ghost function YoungerThan(table: seq<Batch>, b: Batch): nat {
    Count(View(table, b.producer, b.tp), Younger(b))
  }

  /**
   * A batch survives pruning if fewer than a full window of younger ones is remembered, or if pruning stops after at
   * most as many deletions as there are older ones.
   */
  ghost predicate Survives(table: seq<Batch>, b: Batch, deletes: Option<nat>) {
    || YoungerThan(table, b) < WindowBatches
    || (deletes.Some? && deletes.value + YoungerThan(table, b) < |View(table, b.producer, b.tp)|)
  }

  /** Oldest first, with no two batches of one key, and all of one producer and partition. */
  ghost predicate AgeOrdered(oldest: seq<Batch>) {
    && Sorted(oldest, AgeLe)
    && (forall j, k :: 0 <= j < k < |oldest| ==> KeyOf(oldest[j]) != KeyOf(oldest[k]))
    && forall a, b :: a in oldest && b in oldest ==> a.producer == b.producer && a.tp == b.tp
  }

  lemma {:induction false} NoneYounger(oldest: seq<Batch>, i: nat)
    requires AgeOrdered(oldest) && i < |oldest|
    ensures Count(oldest[..i + 1], Younger(oldest[i])) == 0
  {
    var b, upto := oldest[i], oldest[..i + 1];
    forall x | x in upto ensures !Younger(b)(x) {
      var j :| 0 <= j <= i && upto[j] == x;
      assert oldest[j] in oldest && oldest[i] in oldest;
      assert j < i ==> AgeLe(oldest[j], oldest[i]) && KeyOf(oldest[j]) != KeyOf(oldest[i]);
    }
    CountNone(upto, Younger(b));
  }

  lemma {:induction false} AllYounger(oldest: seq<Batch>, i: nat)
    requires AgeOrdered(oldest) && i < |oldest|
    ensures Count(oldest[i + 1..], Younger(oldest[i])) == |oldest| - 1 - i
  {
    var b, after := oldest[i], oldest[i + 1..];
    forall x | x in after ensures Younger(b)(x) {
      var j :| 0 <= j < |after| && after[j] == x;
      assert AgeLe(oldest[i], oldest[i + 1 + j]) && KeyOf(oldest[i]) != KeyOf(oldest[i + 1 + j]);
      assert oldest[i] in oldest && oldest[i + 1 + j] in oldest;
    }
    CountAll(after, Younger(b));
  }

  /** In age order, exactly the batches after the i-th one are younger than it. */
  lemma {:induction false} YoungerAfter(oldest: seq<Batch>, i: nat)
    requires AgeOrdered(oldest) && i < |oldest|
    ensures Count(oldest, Younger(oldest[i])) == |oldest| - 1 - i
  {
    assert oldest == oldest[..i + 1] + oldest[i + 1..];
    CountConcat(oldest[..i + 1], oldest[i + 1..], Younger(oldest[i]));
    NoneYounger(oldest, i);
    AllYounger(oldest, i);
  }

  lemma {:induction false} KeysApart(table: seq<Batch>, oldest: seq<Batch>)
    requires UniqueKeys(table) && Distinct(oldest) && forall b :: b in oldest ==> b in table
    ensures forall j, k :: 0 <= j < k < |oldest| ==> KeyOf(oldest[j]) != KeyOf(oldest[k])
  {
    forall j, k | 0 <= j < k < |oldest| ensures KeyOf(oldest[j]) != KeyOf(oldest[k]) {
      assert oldest[j] in oldest && oldest[k] in oldest;
      var a :| 0 <= a < |table| && table[a] == oldest[j];
      var b :| 0 <= b < |table| && table[b] == oldest[k];
    }
  }

  /** Deleting the k oldest of a view keeps the i-th oldest exactly when i is at least k. */
  lemma {:induction false} KeptAfter(table: seq<Batch>, oldest: seq<Batch>, i: nat, k: nat)
    requires UniqueKeys(table) && i < |oldest| && k <= |oldest| && Distinct(oldest)
    requires multiset(View(table, oldest[i].producer, oldest[i].tp)) == multiset(oldest)
    ensures oldest[i] in DeleteAll(table, oldest[..k]) <==> i >= k
  {
    var b := oldest[i];
    var after := DeleteAll(table, oldest[..k]);
    DeleteListed(table, b.producer, b.tp, oldest, k);
    ViewMembers(after, b.producer, b.tp);
    assert b in after <==> b in multiset(View(after, b.producer, b.tp));
    if i >= k {
      assert oldest[k..][i - k] == b;
    }
  }

  /** Pruning keeps a batch exactly when it survives. */
  lemma {:induction false} KeptExactlyWhen(table: seq<Batch>, b: Batch, deletes: Option<nat>)
    requires UniqueKeys(table) && b in table
    ensures b in Prune(table, b.producer, b.tp, deletes) <==> Survives(table, b, deletes)
  {
    var oldest := ByAge(table, b.producer, b.tp);
    ByAgeCorrect(table, b.producer, b.tp);
    ByAgeUnique(table, b.producer, b.tp);
    KeysApart(table, oldest);
    var i :| 0 <= i < |oldest| && oldest[i] == b;
    YoungerAfter(oldest, i);
    CountPermutation(oldest, View(table, b.producer, b.tp), Younger(b));
    KeptAfter(table, oldest, i, Deleted(table, b.producer, b.tp, deletes));
  }

  /**
   * A newly saved batch survives its own pruning if and only if fewer than 1024 of the batches remembered before it are
   * younger, or pruning fails before it gets to it. With a clock that does not run back none is younger.
   */
  lemma {:induction false} NewBatchKeptExactlyWhen(table: seq<Batch>, n: Batch, deletes: Option<nat>)
    requires UniqueKeys(table) && forall b :: b in table ==> KeyOf(b) != KeyOf(n)
    ensures n in Prune(Save(table, n), n.producer, n.tp, deletes)
       <==> || YoungerThan(table, n) < WindowBatches
            || (deletes.Some? && deletes.value + YoungerThan(table, n) <= |View(table, n.producer, n.tp)|)
  {
    var view := View(table, n.producer, n.tp);
    SaveNew(table, n);
    SaveUnique(table, n);
    FilterSnoc(table, n, Matches(n.producer, n.tp));
    CountConcat(view, [n], Younger(n));
    KeptExactlyWhen(Save(table, n), n, deletes);
  }

  // ---- When a fence holds ----

  /**
   * After a batch has been remembered, requests of a lower epoch are fenced if and only if some batch of a higher
   * epoch, the new one or one from before, survives the pruning.
   */
  lemma {:induction false} FencedExactlyWhen(s: State, e: Event, n: Batch, epoch: U64)
    requires TableOk(s.table) && RememberedBy(s, e) == Some(n)
    ensures Fenced(ListBatches(Apply(s, e).table, n.producer, n.tp), epoch)
       <==> exists b :: b in View(s.table + [n], n.producer, n.tp) && b.epoch > epoch
                        && Survives(s.table + [n], b, Deletes(e.faults))
  {
    var full, after := s.table + [n], Apply(s, e).table;
    TableAfter(s, e);
    AppendedMeansNew(s, e.req, e.faults);
    SaveNew(s.table, n);
    SaveUnique(s.table, n);
    ListMembers(after, n.producer, n.tp);
    ViewMembers(full, n.producer, n.tp);
    PruneSubset(full, n.producer, n.tp, Deletes(e.faults));
    forall b | b in View(full, n.producer, n.tp)
      ensures b in ListBatches(after, n.producer, n.tp) <==> Survives(full, b, Deletes(e.faults))
    {
      KeptExactlyWhen(full, b, Deletes(e.faults));
    }
    assert forall b :: b in ListBatches(after, n.producer, n.tp) ==> b in View(full, n.producer, n.tp);
  }

  // ---- A fence lost to a clock that steps back ----

  /** A full window of epoch 1, every batch stamped 100. */
  function FullWindow(tp: TopicPartition): (table: seq<Batch>)
    ensures |table| == WindowBatches
    ensures forall i :: 0 <= i < |table| ==> table[i] == Batch(1, 1, tp, i, 1, i, i, 100)
  {
    seq(WindowBatches, i requires 0 <= i < WindowBatches => Batch(1, 1, tp, i, 1, i, i, 100))
  }

  lemma {:induction false} FullWindowOk(tp: TopicPartition, n: Batch)
    requires n.producer == 1 && n.tp == tp && n.epoch == 2 && n.updatedAt < 100
    ensures TableOk(FullWindow(tp)) && YoungerThan(FullWindow(tp) + [n], n) == WindowBatches
  {
    var table := FullWindow(tp);
    FilterAll(table, Matches(1, tp));
    FilterSnoc(table, n, Matches(1, tp));
    CountAll(table, Younger(n));
    CountConcat(table, [n], Younger(n));
  }

  /** Sequences 5 and 6 are remembered, a batch of 4 to 6 is accepted. */
  lemma {:induction false} OverlapAccepted(tp: TopicPartition, payload: Payload)
    ensures
      var b := Batch(1, 0, tp, 5, 2, 0, 1, 0);
      var req := Request(Messages.Id(1, 0, 4), tp, [payload, payload, payload]);
      && TableOk([b]) && Decide(State(map[tp := Log([], 2)], [b]), req, NoFaults).None?
      && Covers(b.base, b.count, 5) && Covers(req.id.base, |req.payloads|, 5)
  {
    var b := Batch(1, 0, tp, 5, 2, 0, 1, 0);
    var req := Request(Messages.Id(1, 0, 4), tp, [payload, payload, payload]);
    AppendsExactlyWhen(State(map[tp := Log([], 2)], [b]), req, NoFaults);
  }

  /** The batch of the new epoch does not survive, and with it goes the fence. */
  lemma {:induction false} NewestForgotten(s: State, e: Event, n: Batch)
    requires s.table == FullWindow(n.tp) && RememberedBy(s, e) == Some(n) && e.faults == NoFaults
    requires n.producer == 1 && n.epoch == 2 && n.updatedAt < 100
    ensures forall b :: b in Apply(s, e).table ==> b in s.table
  {
    FullWindowOk(n.tp, n);
    TableAfter(s, e);
    AppendedMeansNew(s, e.req, e.faults);
    SaveNew(s.table, n);
    SaveUnique(s.table, n);
    PruneSubset(s.table + [n], n.producer, n.tp, None);
    KeptExactlyWhen(s.table + [n], n, None);
  }

  /**
   * With a clock that steps back a fence is lost: epoch 2 is accepted into a full window of younger batches and
   * forgotten at once, and then epoch 1 is accepted again.
   */
  lemma {:induction false} LowerEpochAccepted(tp: TopicPartition, payload: Payload)
    ensures
      var s := State(map[tp := Log([], WindowBatches)], FullWindow(tp));
      var newer, older := Request(Messages.Id(1, 2, 0), tp, [payload]), Request(Messages.Id(1, 1, 5000), tp, [payload]);
      var (t, first) := Produce(s, newer, 5, NoFaults);
      var second := Produce(t, older, 101, NoFaults).1;
      first.Ok? && first.value.appended && second.Ok? && second.value.appended
  {
    var s := State(map[tp := Log([], WindowBatches)], FullWindow(tp));
    var newer, older := Request(Messages.Id(1, 2, 0), tp, [payload]), Request(Messages.Id(1, 1, 5000), tp, [payload]);
    var t := Produce(s, newer, 5, NoFaults).0;
    AppendsExactlyWhen(s, newer, NoFaults);
    NewestForgotten(s, Send(newer, 5, NoFaults), Published(LogOf(s, tp), newer, 5));
    AppendsExactlyWhen(t, older, NoFaults);
  }

  // ---- When a retry is appended again ----

  /** A request to be appended still is once batches are gone and nothing new is remembered. */
  lemma {:induction false} FewerBatches(s: State, t: State, req: Request, f: Faults, again: Faults)
    requires Decide(s, req, f).None? && forall b :: b in t.table ==> b in s.table
    ensures Decide(t, req, again).None?
       <==> !again.list && !again.publish && LogOf(t, req.tp).next + |req.payloads| - 1 <= MaxU64
  {
    AppendsExactlyWhen(s, req, f);
    AppendsExactlyWhen(t, req, again);
  }

  /**
   * Exactly when a retry is appended again: right after a request was published, the same request is appended a second
   * time if and only if the store lets it, offsets are left for it, and the first attempt was not remembered, because
   * saving its batch failed or because the batch did not survive its own pruning.
   */
  lemma {:induction false} AppendedAgainExactlyWhen(s: State, req: Request, now: nat, f: Faults, again: Faults)
    requires TableOk(s.table) && Decide(s, req, f).None?
    ensures
      var log, n := LogOf(s, req.tp), Published(LogOf(s, req.tp), req, now);
      Decide(Produce(s, req, now, f).0, req, again).None?
      <==> && !again.list && !again.publish && log.next + 2 * |req.payloads| - 1 <= MaxU64
           && (f.save || !Survives(s.table + [n], n, Deletes(f)))
  {
    var t, n := Produce(s, req, now, f).0, Published(LogOf(s, req.tp), req, now);
    assert LogOf(t, req.tp) == Append(LogOf(s, req.tp), req.payloads);
    if n.lastOffset == MaxU64 || f.save {
      assert t.table == s.table;
      FewerBatches(s, t, req, f, again);
    } else {
      AppendedMeansNew(s, req, f);
      SaveNew(s.table, n);
      SaveUnique(s.table, n);
      KeptExactlyWhen(s.table + [n], n, Deletes(f));
      RetryOfRemembered(s, t, req, n, f, again);
    }
  }

  lemma {:induction false} RetryOfRemembered(s: State, t: State, req: Request, n: Batch, f: Faults, again: Faults)
    requires TableOk(s.table) && Decide(s, req, f).None? && KeyOf(n) == KeyFor(req) && n.count > 0
    requires n.lastOffset == n.baseOffset + n.count - 1 && UniqueKeys(s.table + [n])
    requires t.table == Prune(s.table + [n], n.producer, n.tp, Deletes(f))
    ensures Decide(t, req, again).None?
       <==> && n !in t.table && !again.list && !again.publish
            && LogOf(t, req.tp).next + |req.payloads| - 1 <= MaxU64
  {
    var full := s.table + [n];
    PruneSubset(full, n.producer, n.tp, Deletes(f));
    DeleteUnique(full, ByAge(full, n.producer, n.tp)[..Deleted(full, n.producer, n.tp, Deletes(f))]);
    if n in t.table {
      if Decide(t, req, again).None? { AppendedMeansNew(t, req, again); }
    } else {
      FewerBatches(s, t, req, f, again);
    }
  }

  /** When remembering a published batch fails, the error invites a retry that appends the records a second time. */
  lemma {:induction false} SaveFailureDuplicates(s: State, req: Request, now: nat, f: Faults, later: nat)
    requires Decide(s, req, f).None? && f.save && LogOf(s, req.tp).next + 2 * |req.payloads| - 1 < MaxU64
    ensures
      var (failed, r) := Produce(s, req, now, f);
      var (again, r') := Produce(failed, req, later, NoFaults);
      var log := LogOf(s, req.tp);
      && r.Err? && r'.Ok?
      && LogOf(again, req.tp).records
         == log.records + Stamp(log.next, req.payloads) + Stamp(log.next + |req.payloads|, req.payloads)
  {
    var failed := Produce(s, req, now, f).0;
    SaveFails(s, req, now, f);
    FewerBatches(s, failed, req, f, NoFaults);
    AppendsRest(failed, req, later);
  }

  lemma {:induction false} SaveFails(s: State, req: Request, now: nat, f: Faults)
    requires Decide(s, req, f).None? && f.save
    ensures
      var (failed, r) := Produce(s, req, now, f);
      r.Err? && failed.table == s.table && LogOf(failed, req.tp) == Append(LogOf(s, req.tp), req.payloads)
  {
  }

  lemma {:induction false} AppendsRest(s: State, req: Request, now: nat)
    requires Decide(s, req, NoFaults).None? && LogOf(s, req.tp).next + |req.payloads| - 1 < MaxU64
    ensures
      var (again, r) := Produce(s, req, now, NoFaults);
      r.Ok? && LogOf(again, req.tp) == Append(LogOf(s, req.tp), req.payloads)
  {
  }
}
