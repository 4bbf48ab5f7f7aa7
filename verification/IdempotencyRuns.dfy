/** Exactly-once and fencing over whole runs of the idempotent produce path. */
module IdempotencyRuns {
  import opened Basics
  import opened Sorting
  import opened Logs
  import opened Idempotency

  // ---- Deleting from the table ----

  lemma {:induction false} FilterUnique(table: seq<Batch>, p: Batch -> bool)
    requires UniqueKeys(table)
    ensures UniqueKeys(Filter(table, p))
  {
    if table != [] {
      var before, b := table[..|table| - 1], table[|table| - 1];
      FilterUnique(before, p);
      FilterMembers(before, p);
      forall x | x in Filter(before, p) ensures KeyOf(x) != KeyOf(b) {
        var i :| 0 <= i < |before| && before[i] == x;
        assert table[i] == x;
      }
    }
  }

  lemma {:induction false} DeleteUnique(table: seq<Batch>, doomed: seq<Batch>)
    requires UniqueKeys(table)
    ensures UniqueKeys(DeleteAll(table, doomed))
  {
    if doomed != [] {
      DeleteUnique(table, doomed[..|doomed| - 1]);
      FilterUnique(DeleteAll(table, doomed[..|doomed| - 1]), Other(KeyOf(doomed[|doomed| - 1])));
    }
  }

  lemma {:induction false} SaveUnique(table: seq<Batch>, b: Batch)
    requires UniqueKeys(table)
    ensures UniqueKeys(Save(table, b))
  {
    var rest := Filter(table, Other(KeyOf(b)));
    FilterUnique(table, Other(KeyOf(b)));
    FilterMembers(table, Other(KeyOf(b)));
    forall i | 0 <= i < |rest| ensures KeyOf(rest[i]) != KeyOf(b) {
      assert rest[i] in rest;
    }
  }

  lemma {:induction false} FilterAll<T>(s: seq<T>, p: T -> bool)
    requires forall x :: x in s ==> p(x)
    ensures Filter(s, p) == s
  {
    if s != [] {
      FilterAll(s[..|s| - 1], p);
      assert s == s[..|s| - 1] + [s[|s| - 1]];
    }
  }

  lemma {:induction false} FilterSnoc<T>(s: seq<T>, x: T, p: T -> bool)
    ensures Filter(s + [x], p) == Filter(s, p) + (if p(x) then [x] else [])
  {
    assert (s + [x])[..|s|] == s;
  }

  lemma {:induction false} EarlierKeysDiffer(table: seq<Batch>, x: Batch)
    requires UniqueKeys(table + [x])
    ensures UniqueKeys(table)
    ensures forall y :: y in table ==> KeyOf(y) != KeyOf(x)
  {
    var all := table + [x];
    assert forall i :: 0 <= i < |table| ==> all[i] == table[i];
    forall y | y in table ensures KeyOf(y) != KeyOf(x) {
      var i :| 0 <= i < |table| && table[i] == y;
      assert KeyOf(all[i]) != KeyOf(all[|table|]);
    }
  }

  /** Deleting a batch by its key takes exactly that batch out of any view holding it. */
  lemma {:induction false} DeleteOne(table: seq<Batch>, b: Batch, m: Batch -> bool)
    requires UniqueKeys(table) && b in table && m(b)
    ensures multiset(Filter(table, m)) == multiset(Filter(Filter(table, Other(KeyOf(b))), m)) + multiset{b}
  {
    var before, x := table[..|table| - 1], table[|table| - 1];
    var p := Other(KeyOf(b));
    assert table == before + [x];
    EarlierKeysDiffer(before, x);
    FilterSnoc(before, x, p);
    FilterSnoc(before, x, m);
    if x == b {
      FilterAll(before, p);
      assert Filter(table, p) == before;
      assert Filter(table, m) == Filter(before, m) + [b];
    } else {
      assert b in before;
      DeleteOne(before, b, m);
      FilterSnoc(Filter(before, p), x, m);
      AddTail(Filter(before, m), Filter(Filter(before, p), m), if m(x) then [x] else [], b);
    }
  }

  lemma {:induction false} AddTail<T>(whole: seq<T>, part: seq<T>, tail: seq<T>, b: T)
    requires multiset(whole) == multiset(part) + multiset{b}
    ensures multiset(whole + tail) == multiset(part + tail) + multiset{b}
  {
  }

  lemma {:induction false} ViewMembers(table: seq<Batch>, producer: U64, tp: TopicPartition)
    ensures forall b :: b in View(table, producer, tp) <==> b in table && b.producer == producer && b.tp == tp
  {
    FilterMembers(table, Matches(producer, tp));
  }

  lemma {:induction false} AgeOrder()
    ensures TotalPreorder(AgeLe)
  {
  }

  lemma {:induction false} ByAgeCorrect(table: seq<Batch>, producer: U64, tp: TopicPartition)
    ensures Sorted(ByAge(table, producer, tp), AgeLe)
    ensures multiset(ByAge(table, producer, tp)) == multiset(View(table, producer, tp))
    ensures |ByAge(table, producer, tp)| == |View(table, producer, tp)|
    ensures forall b :: b in ByAge(table, producer, tp) <==> b in table && b.producer == producer && b.tp == tp
  {
    AgeOrder();
    SortCorrect(View(table, producer, tp), AgeLe);
    ViewMembers(table, producer, tp);
    forall b ensures b in ByAge(table, producer, tp) <==> b in View(table, producer, tp) {
      assert b in multiset(ByAge(table, producer, tp)) <==> b in multiset(View(table, producer, tp));
    }
  }

  lemma {:induction false} RemoveHead<T>(oldest: seq<T>, whole: multiset<T>, part: multiset<T>)
    requires oldest != [] && whole == multiset(oldest) && whole == part + multiset{oldest[0]}
    ensures part == multiset(oldest[1..])
  {
    MultisetTail(oldest);
    assert part == whole - multiset{oldest[0]};
  }

  lemma {:induction false} DeleteNext(table: seq<Batch>, producer: U64, tp: TopicPartition, oldest: seq<Batch>)
    requires UniqueKeys(table) && oldest != [] && multiset(View(table, producer, tp)) == multiset(oldest)
    ensures multiset(View(Filter(table, Other(KeyOf(oldest[0]))), producer, tp)) == multiset(oldest[1..])
  {
    var b := oldest[0];
    assert b in table && b.producer == producer && b.tp == tp by {
      assert b in multiset(oldest);
      assert b in View(table, producer, tp);
      ViewMembers(table, producer, tp);
    }
    DeleteOne(table, b, Matches(producer, tp));
    RemoveHead(oldest, multiset(View(table, producer, tp)),
               multiset(View(Filter(table, Other(KeyOf(b))), producer, tp)));
  }

  lemma {:induction false} DeleteAllStep(table: seq<Batch>, doomed: seq<Batch>, k: nat)
    requires 0 < k <= |doomed|
    ensures DeleteAll(table, doomed[..k]) == Filter(DeleteAll(table, doomed[..k - 1]), Other(KeyOf(doomed[k - 1])))
  {
    assert doomed[..k][..k - 1] == doomed[..k - 1];
  }

  /** Deleting the first k batches of a listed view leaves a view of exactly the others. */
  lemma {:induction false} DeleteListed(
    table: seq<Batch>, producer: U64, tp: TopicPartition, listed: seq<Batch>, k: nat)
    requires UniqueKeys(table) && k <= |listed| && multiset(View(table, producer, tp)) == multiset(listed)
    ensures multiset(View(DeleteAll(table, listed[..k]), producer, tp)) == multiset(listed[k..])
  {
    if k == 0 {
      assert listed[0..] == listed;
    } else {
      DeleteListed(table, producer, tp, listed, k - 1);
      DeleteUnique(table, listed[..k - 1]);
      DeleteNext(DeleteAll(table, listed[..k - 1]), producer, tp, listed[k - 1..]);
      DeleteAllStep(table, listed, k);
      assert listed[k - 1..][1..] == listed[k..];
    }
  }

  /** Deleting batches of one producer and partition leaves every other view alone. */
  lemma {:induction false} DeleteElsewhere(table: seq<Batch>, doomed: seq<Batch>, m: Batch -> bool)
    requires forall d, b :: d in doomed && m(b) ==> KeyOf(b) != KeyOf(d)
    ensures Filter(DeleteAll(table, doomed), m) == Filter(table, m)
  {
    if doomed != [] {
      var before, d := doomed[..|doomed| - 1], doomed[|doomed| - 1];
      assert doomed == before + [d];
      DeleteElsewhere(table, before, m);
      FilterFilter(DeleteAll(table, before), Other(KeyOf(d)), m);
    }
  }

  lemma {:induction false} FilterFilter(table: seq<Batch>, p: Batch -> bool, m: Batch -> bool)
    requires forall b :: m(b) ==> p(b)
    ensures Filter(Filter(table, p), m) == Filter(table, m)
  {
    if table != [] {
      var before, x := table[..|table| - 1], table[|table| - 1];
      FilterFilter(before, p, m);
      FilterConcat(Filter(before, p), if p(x) then [x] else [], m);
      assert Filter([x], m) == Filter([], m) + (if m(x) then [x] else []);
    }
  }

  // ---- Held in the window, or pushed out of it ----

  /** Batches that are younger than h, in the order the window is pruned. */
  function Younger(h: Batch): Batch -> bool {
    (b: Batch) => AgeLe(h, b) && b != h
  }

  /** At least a full window of batches younger than h is remembered. */
  ghost predicate PushedOut(table: seq<Batch>, h: Batch) {
    Count(View(table, h.producer, h.tp), Younger(h)) >= WindowBatches
  }

  lemma {:induction false} SuffixAllYounger(oldest: seq<Batch>, k: nat, h: Batch)
    requires Sorted(oldest, AgeLe) && 0 < k <= |oldest|
    requires AgeLe(h, oldest[k - 1]) && h !in oldest[k..]
    ensures Count(oldest[k..], Younger(h)) == |oldest| - k
  {
    var rest := oldest[k..];
    forall i | 0 <= i < |rest| ensures Younger(h)(rest[i]) {
      assert rest[i] == oldest[k + i];
      assert AgeLe(oldest[k - 1], oldest[k + i]);
      assert rest[i] in rest;
    }
    CountAll(rest, Younger(h));
  }

  lemma {:induction false} PrefixNoneYounger(oldest: seq<Batch>, k: nat, h: Batch)
    requires Sorted(oldest, AgeLe) && 0 < k <= |oldest| && !AgeLe(h, oldest[k - 1])
    ensures Count(oldest[..k], Younger(h)) == 0
  {
    var first := oldest[..k];
    forall i | 0 <= i < |first| ensures !Younger(h)(first[i]) {
      assert first[i] == oldest[i];
      assert i == k - 1 || AgeLe(oldest[i], oldest[k - 1]);
    }
    CountNone(first, Younger(h));
  }

  lemma {:induction false} SuffixKeepsCount(oldest: seq<Batch>, k: nat, h: Batch)
    requires Sorted(oldest, AgeLe) && k <= |oldest| && (k > 0 ==> !AgeLe(h, oldest[k - 1]))
    ensures Count(oldest[k..], Younger(h)) == Count(oldest, Younger(h))
  {
    if k > 0 {
      PrefixNoneYounger(oldest, k, h);
    }
    CountConcat(oldest[..k], oldest[k..], Younger(h));
    assert oldest[..k] + oldest[k..] == oldest;
  }

  /** Dropping the k oldest of a sorted view either drops nothing younger than h or leaves only younger ones. */
  lemma {:induction false} SuffixYounger(oldest: seq<Batch>, k: nat, h: Batch)
    requires Sorted(oldest, AgeLe) && k <= |oldest| && |oldest| - k >= WindowBatches
    requires h !in oldest[k..]
    requires h in oldest[..k] || Count(oldest, Younger(h)) >= WindowBatches
    ensures Count(oldest[k..], Younger(h)) >= WindowBatches
  {
    if h in oldest[..k] {
      var i :| 0 <= i < k && oldest[..k][i] == h;
      assert oldest[i] == h;
      assert i == k - 1 || AgeLe(oldest[i], oldest[k - 1]);
      SuffixAllYounger(oldest, k, h);
    } else if k > 0 && AgeLe(h, oldest[k - 1]) {
      SuffixAllYounger(oldest, k, h);
    } else {
      SuffixKeepsCount(oldest, k, h);
    }
  }

  ghost predicate HeldOrPushedOut(table: seq<Batch>, h: Batch) {
    h in table || PushedOut(table, h)
  }

  lemma {:induction false} ByAgeUnique(table: seq<Batch>, producer: U64, tp: TopicPartition)
    requires UniqueKeys(table)
    ensures Distinct(ByAge(table, producer, tp))
  {
    var view := View(table, producer, tp);
    FilterUnique(table, Matches(producer, tp));
    assert Distinct(view);
    ByAgeCorrect(table, producer, tp);
    DistinctPermutation(view, ByAge(table, producer, tp));
  }

  lemma {:induction false} MatchesDoomed(table: seq<Batch>, producer: U64, tp: TopicPartition, k: nat, b: Batch)
    requires k <= |ByAge(table, producer, tp)| && b in ByAge(table, producer, tp)[..k]
    ensures b in table && b.producer == producer && b.tp == tp
  {
    ByAgeCorrect(table, producer, tp);
    assert b in ByAge(table, producer, tp);
  }

  lemma {:induction false} PruneKeepsHere(table: seq<Batch>, h: Batch, oldest: seq<Batch>, k: nat)
    requires UniqueKeys(table) && HeldOrPushedOut(table, h)
    requires Sorted(oldest, AgeLe) && multiset(View(table, h.producer, h.tp)) == multiset(oldest)
    requires k <= |oldest| && |oldest| - k >= WindowBatches
    ensures HeldOrPushedOut(DeleteAll(table, oldest[..k]), h)
  {
    var view, after := View(table, h.producer, h.tp), View(DeleteAll(table, oldest[..k]), h.producer, h.tp);
    DeleteListed(table, h.producer, h.tp, oldest, k);
    ViewMembers(DeleteAll(table, oldest[..k]), h.producer, h.tp);
    if h in oldest[k..] {
      assert h in multiset(after);
    } else {
      ViewMembers(table, h.producer, h.tp);
      YoungerRemain(view, after, oldest, k, h);
    }
  }

  lemma {:induction false} YoungerRemain(view: seq<Batch>, after: seq<Batch>, oldest: seq<Batch>, k: nat, h: Batch)
    requires Sorted(oldest, AgeLe) && multiset(view) == multiset(oldest)
    requires k <= |oldest| && |oldest| - k >= WindowBatches && multiset(after) == multiset(oldest[k..])
    requires h in view || Count(view, Younger(h)) >= WindowBatches
    requires h !in oldest[k..]
    ensures Count(after, Younger(h)) >= WindowBatches
  {
    if h in view {
      assert h in multiset(oldest);
      assert oldest == oldest[..k] + oldest[k..];
    } else {
      CountPermutation(oldest, view, Younger(h));
    }
    SuffixYounger(oldest, k, h);
    CountPermutation(after, oldest[k..], Younger(h));
  }

  lemma {:induction false} PruneKeepsElsewhere(table: seq<Batch>, producer: U64, tp: TopicPartition, h: Batch, k: nat)
    requires HeldOrPushedOut(table, h) && k <= |ByAge(table, producer, tp)|
    requires h.producer != producer || h.tp != tp
    ensures HeldOrPushedOut(DeleteAll(table, ByAge(table, producer, tp)[..k]), h)
  {
    var doomed := ByAge(table, producer, tp)[..k];
    var m := Matches(h.producer, h.tp);
    forall d, b | d in doomed && m(b) ensures KeyOf(b) != KeyOf(d) {
      MatchesDoomed(table, producer, tp, k, d);
    }
    DeleteElsewhere(table, doomed, m);
    ViewMembers(table, h.producer, h.tp);
    ViewMembers(DeleteAll(table, doomed), h.producer, h.tp);
  }

  /** Pruning keeps every batch it does not push out. */
  lemma {:induction false} PruneKeeps(
    table: seq<Batch>, producer: U64, tp: TopicPartition, deletes: Option<nat>, h: Batch)
    requires UniqueKeys(table) && HeldOrPushedOut(table, h)
    ensures HeldOrPushedOut(Prune(table, producer, tp, deletes), h)
    ensures UniqueKeys(Prune(table, producer, tp, deletes))
  {
    var k := Deleted(table, producer, tp, deletes);
    DeleteUnique(table, ByAge(table, producer, tp)[..k]);
    if h.producer != producer || h.tp != tp {
      PruneKeepsElsewhere(table, producer, tp, h, k);
    } else if k > 0 {
      ByAgeCorrect(table, producer, tp);
      PruneKeepsHere(table, h, ByAge(table, producer, tp), k);
    }
  }

  // ---- Lookups ----

  ghost predicate TableOk(table: seq<Batch>) {
    && UniqueKeys(table)
    && forall b :: b in table ==> b.count >= 1 && b.lastOffset == b.baseOffset + b.count - 1
  }

  lemma {:induction false} FindCorrect(batches: seq<Batch>, id: Id, count: nat)
    ensures
      match Find(batches, id, count)
      case Missing =>
        forall b :: b in batches && b.epoch == id.epoch ==> !(b.base <= id.base < b.base + b.count)
      case Found(b) => b in batches && b.epoch == id.epoch && b.base == id.base && b.count == count
      case Mismatch => true
  {
    if batches != [] { FindCorrect(batches[1..], id, count); }
  }

  lemma {:induction false} ListMembers(table: seq<Batch>, producer: U64, tp: TopicPartition)
    ensures forall b :: b in ListBatches(table, producer, tp) <==> b in table && b.producer == producer && b.tp == tp
  {
    SortCorrect(View(table, producer, tp), SequenceLe);
    ViewMembers(table, producer, tp);
    forall b ensures b in ListBatches(table, producer, tp) <==> b in View(table, producer, tp) {
      assert b in multiset(ListBatches(table, producer, tp)) <==> b in multiset(View(table, producer, tp));
    }
  }

  function KeyFor(req: Request): Key {
    Key(req.id.producer, req.id.epoch, req.tp, req.id.base)
  }

  /** A request is appended only if no remembered batch has its key, and none has a higher epoch. */
  lemma {:induction false} AppendedMeansNew(s: State, req: Request, f: Faults)
    requires TableOk(s.table) && Decide(s, req, f).None?
    ensures forall b :: b in s.table ==> KeyOf(b) != KeyFor(req)
    ensures forall b :: b in s.table && b.producer == req.id.producer && b.tp == req.tp ==> b.epoch <= req.id.epoch
  {
    var batches := ListBatches(s.table, req.id.producer, req.tp);
    ListMembers(s.table, req.id.producer, req.tp);
    FindCorrect(batches, req.id, |req.payloads|);
    forall b | b in s.table && b.producer == req.id.producer && b.tp == req.tp
      ensures b.epoch <= req.id.epoch && KeyOf(b) != KeyFor(req)
    {
      assert b in batches;
    }
  }

  /** The range of `count` sequence numbers from `base` contains q. */
  predicate Covers(base: nat, count: nat, q: nat) {
    base <= q < base + count
  }

  /**
   * The lookup tests only the base sequence, so a client that does not tile its ranges can get an overlapping batch
   * accepted: an appended request overlaps a remembered batch of its epoch if and only if that batch starts strictly
   * inside the request's range.
   */
  lemma {:induction false} OverlapExactlyWhen(s: State, req: Request, f: Faults, b: Batch)
    requires TableOk(s.table) && Decide(s, req, f).None?
    requires b in s.table && b.producer == req.id.producer && b.tp == req.tp && b.epoch == req.id.epoch
    ensures (exists q :: Covers(b.base, b.count, q) && Covers(req.id.base, |req.payloads|, q))
       <==> req.id.base < b.base < req.id.base + |req.payloads|
  {
    var batches := ListBatches(s.table, req.id.producer, req.tp);
    ListMembers(s.table, req.id.producer, req.tp);
    FindCorrect(batches, req.id, |req.payloads|);
    assert b in batches;
    if req.id.base < b.base < req.id.base + |req.payloads| {
      assert Covers(b.base, b.count, b.base) && Covers(req.id.base, |req.payloads|, b.base);
    }
  }

  // ---- Saving ----

  lemma {:induction false} SaveNew(table: seq<Batch>, b: Batch)
    requires forall x :: x in table ==> KeyOf(x) != KeyOf(b)
    ensures Save(table, b) == table + [b]
  {
    FilterAll(table, Other(KeyOf(b)));
  }

  lemma {:induction false} SaveKeeps(table: seq<Batch>, b: Batch, h: Batch)
    requires HeldOrPushedOut(table, h) && forall x :: x in table ==> KeyOf(x) != KeyOf(b)
    ensures HeldOrPushedOut(Save(table, b), h)
  {
    SaveNew(table, b);
    var m := Matches(h.producer, h.tp);
    FilterSnoc(table, b, m);
    CountConcat(View(table, h.producer, h.tp), if m(b) then [b] else [], Younger(h));
  }

  // ---- Runs ----

  /** Requests, plain publishes, and clean-ups that drop records from a partition log. */
  datatype Event =
    | Send(req: Request, now: nat, faults: Faults)
    | Publish(tp: TopicPartition, payloads: seq<Payload>)
    | Cleanup(tp: TopicPartition, drop: set<nat>)

  function NotIn(drop: set<nat>): Record -> bool {
    (r: Record) => r.offset !in drop
  }

  function Apply(s: State, e: Event): State {
    match e
    case Send(req, now, f) => Produce(s, req, now, f).0
    case Publish(tp, payloads) => s.(logs := s.logs[tp := Append(LogOf(s, tp), payloads)])
    case Cleanup(tp, drop) =>
      s.(logs := s.logs[tp := LogOf(s, tp).(records := Filter(LogOf(s, tp).records, NotIn(drop)))])
  }

  /** The batch an event newly publishes and remembers, if it does. */
  function RememberedBy(s: State, e: Event): Option<Batch> {
    if e.Send? then Remembers(s, e.req, e.now, e.faults) else None
  }

  lemma {:induction false} TableAfter(s: State, e: Event)
    ensures Apply(s, e).table ==
              match RememberedBy(s, e)
              case None => s.table
              case Some(b) => Prune(Save(s.table, b), b.producer, b.tp, Deletes(e.faults))
  {
  }

  lemma {:induction false} DeleteSubset(table: seq<Batch>, doomed: seq<Batch>)
    ensures forall b :: b in DeleteAll(table, doomed) ==> b in table
    ensures |DeleteAll(table, doomed)| <= |table|
  {
    if doomed != [] {
      DeleteSubset(table, doomed[..|doomed| - 1]);
      FilterMembers(DeleteAll(table, doomed[..|doomed| - 1]), Other(KeyOf(doomed[|doomed| - 1])));
    }
  }

  lemma {:induction false} PruneSubset(table: seq<Batch>, producer: U64, tp: TopicPartition, deletes: Option<nat>)
    ensures forall b :: b in Prune(table, producer, tp, deletes) ==> b in table
    ensures |Prune(table, producer, tp, deletes)| <= |table|
  {
    var k := Deleted(table, producer, tp, deletes);
    DeleteSubset(table, ByAge(table, producer, tp)[..k]);
  }

  lemma {:induction false} StepTableOk(s: State, e: Event)
    requires TableOk(s.table)
    ensures TableOk(Apply(s, e).table)
    ensures |Apply(s, e).table| <= |s.table| + 1
  {
    TableAfter(s, e);
    var saved := RememberedBy(s, e);
    if saved.Some? {
      var b := saved.value;
      AppendedMeansNew(s, e.req, e.faults);
      SaveNew(s.table, b);
      SaveUnique(s.table, b);
      var k := Deleted(Save(s.table, b), b.producer, b.tp, Deletes(e.faults));
      DeleteUnique(Save(s.table, b), ByAge(Save(s.table, b), b.producer, b.tp)[..k]);
      PruneSubset(Save(s.table, b), b.producer, b.tp, Deletes(e.faults));
    }
  }

  /** No event loses a batch from the window without a full window of younger ones replacing it. */
  lemma {:induction false} StepKeeps(s: State, e: Event, h: Batch)
    requires TableOk(s.table)
    requires HeldOrPushedOut(s.table, h) || RememberedBy(s, e) == Some(h)
    ensures HeldOrPushedOut(Apply(s, e).table, h)
  {
    TableAfter(s, e);
    var saved := RememberedBy(s, e);
    if saved.Some? {
      var b := saved.value;
      AppendedMeansNew(s, e.req, e.faults);
      SaveNew(s.table, b);
      SaveUnique(s.table, b);
      if HeldOrPushedOut(s.table, h) {
        SaveKeeps(s.table, b, h);
      }
      PruneKeeps(Save(s.table, b), b.producer, b.tp, Deletes(e.faults), h);
    }
  }
}
