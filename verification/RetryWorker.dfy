/** The retry worker over time: batches that move what is due, and how often each retry record is moved. */
module RetryWorker {
  import opened Basics
  import opened Messages
  import opened Sorting
  import opened Retry

  /** A move that was published, and the retry record it was made of. */
  datatype Publication = Publication(offset: nat, move: Move)

  /** One partition of a retry topic, the worker's committed offset, and everything its batches have published. */
  datatype Worker = Worker(records: seq<Stored>, next: nat, cursor: nat, published: seq<Publication>)

  /** `fate` is what is to become of each retry record at the time of the batch, as `FateOf` tells it. */
  datatype Event =
    | Nack(message: Message)
    | Batch(fate: Stored -> Fate, maxRecords: nat, fault: nat -> Fault, fetchFails: bool, ackFails: bool)
    | Expire(drop: set<nat>)

  predicate Before(a: Stored, b: Stored) {
    a.offset < b.offset
  }

  ghost predicate Valid(w: Worker) {
    && Sorted(w.records, Before) && (forall r :: r in w.records ==> r.offset < w.next)
    && w.cursor <= w.next <= MaxU64 + 1
  }

  // ---- One batch ----

  function From(cursor: nat): Stored -> bool {
    (r: Stored) => r.offset >= cursor
  }

  function Fetched(w: Worker, maxRecords: nat): seq<Stored> {
    var found := Filter(w.records, From(w.cursor));
    if |found| <= maxRecords then found else found[..maxRecords]
  }

  /** How many of the fetched records the batch moves. */
  function Moves(w: Worker, e: Event): (n: nat)
    requires e.Batch?
    ensures n <= |Fetched(w, e.maxRecords)|
  {
    MovedCount(Fetched(w, e.maxRecords), e.fate, e.fault, 0)
  }

  function Stop(w: Worker, e: Event): Processing
    requires e.Batch?
  {
    StopsAt(Fetched(w, e.maxRecords), e.fate, e.fault)
  }

  /** What moving the first n of these records publishes. */
  function Publications(records: seq<Stored>, fate: Stored -> Fate, n: nat): seq<Publication>
    requires n <= |records|
  {
    if n == 0 then []
    else
      Publications(records, fate, n - 1)
      + (if fate(records[n - 1]).Goes? then [Publication(records[n - 1].offset, fate(records[n - 1]).move)] else [])
  }

  /** A dead letter left behind by the record the batch failed at. */
  function StrayFrom(fetched: seq<Stored>, fate: Stored -> Fate, fault: nat -> Fault): seq<Publication> {
    var n, stop := MovedCount(fetched, fate, fault, 0), StopsAt(fetched, fate, fault);
    if n < |fetched| && stop.Failure? && stop.stray.Some?
    then [Publication(fetched[n].offset, stop.stray.value)] else []
  }

  function StrayOf(w: Worker, e: Event): seq<Publication>
    requires e.Batch?
  {
    StrayFrom(Fetched(w, e.maxRecords), e.fate, e.fault)
  }

  function PublishedBy(w: Worker, e: Event): seq<Publication>
    requires e.Batch?
  {
    if e.fetchFails then [] else Publications(Fetched(w, e.maxRecords), e.fate, Moves(w, e)) + StrayOf(w, e)
  }

  /** The batch commits what it moved. */
  predicate Advances(w: Worker, e: Event)
    requires e.Batch?
  {
    !e.fetchFails && !Stop(w, e).Failure? && !e.ackFails && Moves(w, e) > 0
  }

  function Apply(w: Worker, e: Event): Worker {
    match e
    case Nack(message) =>
      if w.next > MaxU64 then w else w.(records := w.records + [Stored(w.next, message)], next := w.next + 1)
    case Batch(_, maxRecords, _, _, _) =>
      w.(published := w.published + PublishedBy(w, e),
         cursor := if Advances(w, e) then Fetched(w, maxRecords)[Moves(w, e) - 1].offset + 1 else w.cursor)
    case Expire(drop) => w.(records := Filter(w.records, Kept(drop)))
  }

  function Kept(drop: set<nat>): Stored -> bool {
    (r: Stored) => r.offset !in drop
  }

  // ---- The worker, updating its offset in place ----

  class RetryRuntime {
    var records: seq<Stored>
    var next: nat
    var cursor: nat
    var published: seq<Publication>

    constructor ()
      ensures Value() == Worker([], 0, 0, [])
    {
      records, next, cursor, published := [], 0, 0, [];
    }

    ghost function Value(): Worker
      reads this
    {
      Worker(records, next, cursor, published)
    }

    method ApplyProcessRetryBatch(
      topic: Text, partition: U32, nowMS: U64, maxRecords: nat, maxAttempts: Text -> U32, fault: nat -> Fault,
      fetchFails: bool, ackFails: bool, ghost fate: Stored -> Fate)
      returns (committed: Result<Option<nat>>)
      requires Valid(Value()) && Tells(fate, topic, partition, nowMS, maxAttempts)
      modifies this`cursor, this`published
      ensures Value() == Apply(old(Value()), Batch(fate, maxRecords, fault, fetchFails, ackFails))
      ensures cursor == if committed.Ok? && committed.value.Some? then committed.value.value else old(cursor)
    {
      if fetchFails { return Err("fetch retry records"); }
      var fetched := Fetched(Worker(records, next, cursor, published), maxRecords);
      FetchedOk(Value(), maxRecords);
      var moves, stray, last, failed :=
        ProcessFetchedRetryRecords(fetched, topic, partition, nowMS, maxAttempts, fault, fate);
      var out := Publish(fetched, moves, stray, fate, fault);
      published := published + out;
      if failed { return Err("process retry records"); }
      if last.None? { return Ok(None); }
      if ackFails { return Err("ack retry records"); }
      cursor := last.value;
      return Ok(last);
    }

    /** What a batch that made these moves, and perhaps left a dead letter behind, has published. */
    method Publish(
      fetched: seq<Stored>, moves: seq<Move>, stray: Option<Move>, ghost fate: Stored -> Fate,
      ghost fault: nat -> Fault)
      returns (out: seq<Publication>)
      requires |moves| == MovedCount(fetched, fate, fault, 0)
      requires forall i :: 0 <= i < |moves| ==> fate(fetched[i]) == Goes(moves[i])
      requires stray == if StopsAt(fetched, fate, fault).Failure? then StopsAt(fetched, fate, fault).stray else None
      ensures out == Publications(fetched, fate, |moves|) + StrayFrom(fetched, fate, fault)
    {
      out := [];
      for i := 0 to |moves|
        invariant out == Publications(fetched, fate, i)
      {
        out := out + [Publication(fetched[i].offset, moves[i])];
      }
      if stray.Some? { out := out + [Publication(fetched[|moves|].offset, stray.value)]; }
    }
  }

  lemma {:induction false} FetchedOk(w: Worker, maxRecords: nat)
    requires Valid(w)
    ensures Sorted(Fetched(w, maxRecords), Before)
    ensures forall i :: 0 <= i < |Fetched(w, maxRecords)| ==> w.cursor <= Fetched(w, maxRecords)[i].offset <= MaxU64
  {
    FilterMembers(w.records, From(w.cursor));
    FilterSorted(w.records, From(w.cursor), Before);
    var found, fetched := Filter(w.records, From(w.cursor)), Fetched(w, maxRecords);
    forall i | 0 <= i < |fetched| ensures w.cursor <= fetched[i].offset <= MaxU64 {
      assert fetched[i] == found[i] && found[i] in found;
    }
  }

  /** A batch fetches the records from its offset on, in order and as many as it may. */
  lemma {:induction false} FetchedExactly(w: Worker, maxRecords: nat, i: nat)
    requires Valid(w)
    ensures |Fetched(w, maxRecords)| == Min(maxRecords, Count(w.records, From(w.cursor)))
    ensures i < |Fetched(w, maxRecords)| ==>
              && Fetched(w, maxRecords)[i] in w.records
              && Count(w.records, FetchedBefore(w.cursor, Fetched(w, maxRecords)[i].offset)) == i
  {
    var found := Filter(w.records, From(w.cursor));
    FilterLength(w.records, From(w.cursor));
    if i < |Fetched(w, maxRecords)| {
      FilterMembers(w.records, From(w.cursor));
      FilterSorted(w.records, From(w.cursor), Before);
      assert found[i] in found;
      FetchedPlace(w.records, found, w.cursor, i);
    }
  }

  function FetchedBefore(cursor: nat, offset: nat): Stored -> bool {
    (r: Stored) => cursor <= r.offset < offset
  }

  lemma {:induction false} FilterLength(records: seq<Stored>, p: Stored -> bool)
    ensures |Filter(records, p)| == Count(records, p)
  {
    if records != [] { FilterLength(records[..|records| - 1], p); }
  }

  lemma {:induction false} CountFrom(records: seq<Stored>, cursor: nat, offset: nat)
    ensures Count(Filter(records, From(cursor)), FetchedBefore(cursor, offset))
         == Count(records, FetchedBefore(cursor, offset))
  {
    if records != [] {
      CountFrom(records[..|records| - 1], cursor, offset);
      CountFilterLast(records, From(cursor), FetchedBefore(cursor, offset));
    }
  }

  lemma {:induction false} FetchedPlace(records: seq<Stored>, found: seq<Stored>, cursor: nat, i: nat)
    requires found == Filter(records, From(cursor)) && Sorted(found, Before) && i < |found|
    requires forall r :: r in found ==> r.offset >= cursor
    ensures Count(records, FetchedBefore(cursor, found[i].offset)) == i
  {
    var p := FetchedBefore(cursor, found[i].offset);
    CountFrom(records, cursor, found[i].offset);
    assert found == found[..i] + found[i..];
    CountConcat(found[..i], found[i..], p);
    AllEarlier(found, cursor, i);
    NoneLater(found, cursor, i);
  }

  lemma {:induction false} AllEarlier(found: seq<Stored>, cursor: nat, i: nat)
    requires Sorted(found, Before) && i < |found| && forall r :: r in found ==> r.offset >= cursor
    ensures Count(found[..i], FetchedBefore(cursor, found[i].offset)) == i
  {
    var earlier, p := found[..i], FetchedBefore(cursor, found[i].offset);
    forall x | x in earlier ensures p(x) {
      var k :| 0 <= k < i && earlier[k] == x;
      assert Before(found[k], found[i]) && found[k] in found;
    }
    CountAll(earlier, p);
  }

  lemma {:induction false} NoneLater(found: seq<Stored>, cursor: nat, i: nat)
    requires Sorted(found, Before) && i < |found|
    ensures Count(found[i..], FetchedBefore(cursor, found[i].offset)) == 0
  {
    var later, p := found[i..], FetchedBefore(cursor, found[i].offset);
    forall x | x in later ensures !p(x) {
      var k :| 0 <= k < |later| && later[k] == x;
      assert k > 0 ==> Before(found[i], found[i + k]);
    }
    CountNone(later, p);
  }

  // ---- How often a record is moved ----

  function Of(o: nat): Publication -> bool {
    (p: Publication) => p.offset == o
  }

  ghost predicate Holds(records: seq<Stored>, o: nat) {
    exists r :: r in records && r.offset == o
  }

  lemma {:induction false} HoldsSnoc(records: seq<Stored>, r: Stored, o: nat)
    ensures Holds(records + [r], o) <==> Holds(records, o) || r.offset == o
  {
    if Holds(records, o) {
      var x :| x in records && x.offset == o;
      assert x in records + [r];
    }
    if r.offset == o { assert r in records + [r]; }
  }

  lemma {:induction false} CountOne(p: Publication, o: nat)
    ensures Count([p], Of(o)) == if p.offset == o then 1 else 0
  {
    assert [p][..0] == [];
  }

  /** Moving a prefix publishes each of its records once. */
  lemma {:induction false} PublicationsCount(
    records: seq<Stored>, fate: Stored -> Fate, fault: nat -> Fault, n: nat, o: nat)
    requires Sorted(records, Before) && n <= MovedCount(records, fate, fault, 0)
    ensures Count(Publications(records, fate, n), Of(o)) == if Holds(records[..n], o) then 1 else 0
  {
    if n > 0 {
      var r := records[n - 1];
      PublicationsCount(records, fate, fault, n - 1, o);
      MovedSucceed(records, fate, fault, 0);
      assert Succeeds(fate(r), fault(n - 1));
      assert records[..n] == records[..n - 1] + [r];
      HoldsSnoc(records[..n - 1], r, o);
      HeldBelow(records, n - 1);
      CountConcat(Publications(records, fate, n - 1), [Publication(r.offset, fate(r).move)], Of(o));
      CountOne(Publication(r.offset, fate(r).move), o);
    }
  }

  lemma {:induction false} HeldBelow(records: seq<Stored>, n: nat)
    requires Sorted(records, Before) && n < |records|
    ensures !Holds(records[..n], records[n].offset)
  {
    forall x | x in records[..n] ensures x.offset != records[n].offset {
      var i :| 0 <= i < n && records[..n][i] == x;
      assert Before(records[i], records[n]);
    }
  }

  /** The batch moves the record and commits that it did. */
  ghost predicate Passes(w: Worker, e: Event, o: nat) {
    e.Batch? && Advances(w, e) && Holds(Fetched(w, e.maxRecords)[..Moves(w, e)], o)
  }

  /**
   * The batch publishes the record and does not commit it: a later record of the batch fails, or saving its own index
   * entry does, or committing the batch.
   */
  ghost predicate Repeats(w: Worker, e: Event, o: nat) {
    && e.Batch? && !e.fetchFails
    && ((Holds(Fetched(w, e.maxRecords)[..Moves(w, e)], o) && (Stop(w, e).Failure? || e.ackFails))
        || LeftAt(Fetched(w, e.maxRecords), e.fate, e.fault, o))
  }

  lemma {:induction false} StepPublishes(w: Worker, e: Event, o: nat)
    requires Valid(w)
    ensures Count(Apply(w, e).published, Of(o))
         == Count(w.published, Of(o)) + (if Passes(w, e, o) || Repeats(w, e, o) then 1 else 0)
  {
    if e.Batch? {
      CountConcat(w.published, PublishedBy(w, e), Of(o));
      if !e.fetchFails { BatchPublishes(w, e, o); }
    }
  }

  /** The record is the one the batch failed at, and it left a dead letter behind. */
  ghost predicate LeftAt(fetched: seq<Stored>, fate: Stored -> Fate, fault: nat -> Fault, o: nat) {
    var n, stop := MovedCount(fetched, fate, fault, 0), StopsAt(fetched, fate, fault);
    n < |fetched| && fetched[n].offset == o && stop.Failure? && stop.stray.Some?
  }

  lemma {:induction false} StrayCount(fetched: seq<Stored>, fate: Stored -> Fate, fault: nat -> Fault, o: nat)
    requires Sorted(fetched, Before)
    ensures Count(StrayFrom(fetched, fate, fault), Of(o)) == if LeftAt(fetched, fate, fault, o) then 1 else 0
    ensures LeftAt(fetched, fate, fault, o) ==> !Holds(fetched[..MovedCount(fetched, fate, fault, 0)], o)
  {
    var n, stray := MovedCount(fetched, fate, fault, 0), StrayFrom(fetched, fate, fault);
    if stray != [] {
      CountOne(stray[0], o);
      HeldBelow(fetched, n);
    }
  }

  lemma {:induction false} BatchPublishes(w: Worker, e: Event, o: nat)
    requires Valid(w) && e.Batch? && !e.fetchFails
    ensures Count(PublishedBy(w, e), Of(o)) == if Passes(w, e, o) || Repeats(w, e, o) then 1 else 0
  {
    var fetched, n := Fetched(w, e.maxRecords), Moves(w, e);
    FetchedOk(w, e.maxRecords);
    PublicationsCount(fetched, e.fate, e.fault, n, o);
    StrayCount(fetched, e.fate, e.fault, o);
    CountConcat(Publications(fetched, e.fate, n), StrayFrom(fetched, e.fate, e.fault), Of(o));
    if n == 0 { assert fetched[..0] == []; }
  }

  /** A batch that commits passes exactly the records from its cursor up to where it leaves it. */
  lemma {:induction false} PassesBetween(w: Worker, e: Event, o: nat)
    requires Valid(w) && e.Batch? && Advances(w, e)
    ensures w.cursor < Apply(w, e).cursor <= w.next
    ensures Passes(w, e, o) <==> Holds(w.records, o) && w.cursor <= o < Apply(w, e).cursor
  {
    var n, found := Moves(w, e), Filter(w.records, From(w.cursor));
    FetchedOk(w, e.maxRecords);
    FoundHolds(w, o);
    assert Fetched(w, e.maxRecords)[..n] == found[..n] && found[n - 1] in found;
    PrefixHolds(found, n, o);
  }

  lemma {:induction false} FoundHolds(w: Worker, o: nat)
    requires Valid(w)
    ensures
      var found := Filter(w.records, From(w.cursor));
      && Sorted(found, Before) && (forall r :: r in found ==> w.cursor <= r.offset < w.next)
      && (Holds(found, o) <==> Holds(w.records, o) && w.cursor <= o)
  {
    FilterMembers(w.records, From(w.cursor));
    FilterSorted(w.records, From(w.cursor), Before);
    var found := Filter(w.records, From(w.cursor));
    if Holds(w.records, o) && o >= w.cursor {
      var r :| r in w.records && r.offset == o;
      assert r in found;
    }
    if Holds(found, o) {
      var r :| r in found && r.offset == o;
      assert r in w.records;
    }
  }

  lemma {:induction false} PrefixHolds(found: seq<Stored>, n: nat, o: nat)
    requires Sorted(found, Before) && 0 < n <= |found|
    ensures Holds(found[..n], o) <==> Holds(found, o) && o <= found[n - 1].offset
  {
    if Holds(found, o) {
      var r :| r in found && r.offset == o;
      var i :| 0 <= i < |found| && found[i] == r;
      if i < n {
        assert found[..n][i] == r;
        assert i < n - 1 ==> Before(found[i], found[n - 1]);
      } else {
        assert Before(found[n - 1], found[i]);
      }
    }
    if Holds(found[..n], o) {
      var r :| r in found[..n] && r.offset == o;
      var i :| 0 <= i < n && found[..n][i] == r;
      assert found[i] == r && (i < n - 1 ==> Before(found[i], found[n - 1]));
    }
  }

  lemma {:induction false} StepValid(w: Worker, e: Event)
    requires Valid(w)
    ensures Valid(Apply(w, e)) && w.cursor <= Apply(w, e).cursor
  {
    match e
    case Nack(message) =>
      if w.next <= MaxU64 {
        forall i | 0 <= i < |w.records| ensures Before(w.records[i], Stored(w.next, message)) {
          assert w.records[i] in w.records;
        }
      }
    case Batch(_, _, _, _, _) => if Advances(w, e) { PassesBetween(w, e, 0); }
    case Expire(drop) =>
      FilterMembers(w.records, Kept(drop));
      FilterSorted(w.records, Kept(drop), Before);
  }

  // ---- What a batch gets done ----

  /** The store does its part in the batch. */
  ghost predicate Unhindered(e: Event) {
    e.Batch? && !e.fetchFails && !e.ackFails && forall i: nat :: e.fault(i).NoFault?
  }

  /** The batch fetches the record, and it and all those fetched before it are to go. */
  ghost predicate Reached(w: Worker, e: Event, o: nat)
    requires e.Batch?
  {
    exists i: nat :: i < |Fetched(w, e.maxRecords)| && Fetched(w, e.maxRecords)[i].offset == o && AllGo(w, e, i + 1)
  }

  ghost predicate AllGo(w: Worker, e: Event, n: nat)
    requires e.Batch? && n <= |Fetched(w, e.maxRecords)|
  {
    forall j :: 0 <= j < n ==> e.fate(Fetched(w, e.maxRecords)[j]).Goes?
  }

  lemma {:induction false} UnhinderedMoves(w: Worker, e: Event)
    requires Unhindered(e)
    ensures AllGo(w, e, Moves(w, e))
    ensures Moves(w, e) < |Fetched(w, e.maxRecords)| ==> !e.fate(Fetched(w, e.maxRecords)[Moves(w, e)]).Goes?
  {
    var fetched := Fetched(w, e.maxRecords);
    MovedSucceed(fetched, e.fate, e.fault, 0);
    assert e.fault(Moves(w, e)).NoFault?;
  }

  /**
   * A batch the store does not hinder publishes exactly the records it reaches; and it commits them unless the record
   * it stops at cannot be read.
   */
  lemma {:induction false} ReachedIsMoved(w: Worker, e: Event, o: nat)
    requires Valid(w) && Unhindered(e)
    ensures Count(PublishedBy(w, e), Of(o)) == if Reached(w, e, o) then 1 else 0
    ensures Passes(w, e, o) <==> Reached(w, e, o) && !Stop(w, e).Failure?
    ensures Stop(w, e).Failure?
       <==> Moves(w, e) < |Fetched(w, e.maxRecords)| && e.fate(Fetched(w, e.maxRecords)[Moves(w, e)]).Unreadable?
  {
    BatchPublishes(w, e, o);
    UnhinderedMoves(w, e);
    UnhinderedStop(w, e, o);
    HoldsReached(w, e, o);
  }

  lemma {:induction false} UnhinderedStop(w: Worker, e: Event, o: nat)
    requires Unhindered(e)
    ensures !LeftAt(Fetched(w, e.maxRecords), e.fate, e.fault, o)
    ensures Stop(w, e).Failure?
       <==> Moves(w, e) < |Fetched(w, e.maxRecords)| && e.fate(Fetched(w, e.maxRecords)[Moves(w, e)]).Unreadable?
  {
    UnhinderedMoves(w, e);
    assert e.fault(Moves(w, e)).NoFault?;
  }

  lemma {:induction false} HoldsReached(w: Worker, e: Event, o: nat)
    requires Unhindered(e)
    ensures Holds(Fetched(w, e.maxRecords)[..Moves(w, e)], o) <==> Reached(w, e, o)
  {
    var fetched, n := Fetched(w, e.maxRecords), Moves(w, e);
    UnhinderedMoves(w, e);
    if Holds(fetched[..n], o) {
      var r :| r in fetched[..n] && r.offset == o;
      var i: nat :| i < n && fetched[..n][i] == r;
      assert fetched[i].offset == o && AllGo(w, e, i + 1);
    }
    if Reached(w, e, o) {
      var i: nat :| i < |fetched| && fetched[i].offset == o && AllGo(w, e, i + 1);
      assert i < n;
      assert fetched[..n][i] == fetched[i];
    }
  }

  // ---- Runs ----

  ghost predicate IsStep(states: seq<Worker>, events: seq<Event>, k: nat)
    requires |states| == |events| + 1 && k < |events|
  {
    states[k + 1] == Apply(states[k], events[k])
  }

  ghost predicate IsRun(states: seq<Worker>, events: seq<Event>) {
    && |states| == |events| + 1 && Valid(states[0]) && states[0].published == []
    && forall k: nat :: k < |events| ==> IsStep(states, events, k)
  }

  lemma {:induction false} RunValid(states: seq<Worker>, events: seq<Event>, n: nat)
    requires IsRun(states, events) && n <= |events|
    ensures Valid(states[n]) && states[0].cursor <= states[n].cursor
  {
    if n > 0 {
      RunValid(states, events, n - 1);
      assert IsStep(states, events, n - 1);
      StepValid(states[n - 1], events[n - 1]);
    }
  }

  /** How many of the first n batches passed the record. */
  ghost function PassCount(states: seq<Worker>, events: seq<Event>, n: nat, o: nat): nat
    requires n <= |events| < |states|
  {
    if n == 0 then 0
    else PassCount(states, events, n - 1, o) + (if Passes(states[n - 1], events[n - 1], o) then 1 else 0)
  }

  /** How many of the first n batches published the record without committing it. */
  ghost function RepeatCount(states: seq<Worker>, events: seq<Event>, n: nat, o: nat): nat
    requires n <= |events| < |states|
  {
    if n == 0 then 0
    else RepeatCount(states, events, n - 1, o) + (if Repeats(states[n - 1], events[n - 1], o) then 1 else 0)
  }

  lemma {:induction false} RunPublishes(states: seq<Worker>, events: seq<Event>, n: nat, o: nat)
    requires IsRun(states, events) && n <= |events|
    ensures Count(states[n].published, Of(o))
         == PassCount(states, events, n, o) + RepeatCount(states, events, n, o)
  {
    if n > 0 {
      RunPublishes(states, events, n - 1, o);
      RunValid(states, events, n - 1);
      assert IsStep(states, events, n - 1);
      StepPublishes(states[n - 1], events[n - 1], o);
      NotBoth(states[n - 1], events[n - 1], o);
    }
  }

  lemma {:induction false} NotBoth(w: Worker, e: Event, o: nat)
    requires Valid(w)
    ensures !(Passes(w, e, o) && Repeats(w, e, o))
  {
  }

  /** How a step changes which records are behind the cursor and still there. */
  lemma {:induction false} StepBehind(w: Worker, e: Event, o: nat)
    requires Valid(w)
    ensures Passes(w, e, o) ==> w.cursor <= o < Apply(w, e).cursor
    ensures Holds(Apply(w, e).records, o) && o < Apply(w, e).cursor ==>
              Passes(w, e, o) || (Holds(w.records, o) && o < w.cursor)
  {
    match e
    case Nack(message) => if w.next <= MaxU64 { HoldsSnoc(w.records, Stored(w.next, message), o); }
    case Batch(_, _, _, _, _) => if Advances(w, e) { PassesBetween(w, e, o); }
    case Expire(drop) => FilterMembers(w.records, Kept(drop));
  }

  lemma {:induction false} RunPasses(states: seq<Worker>, events: seq<Event>, n: nat, o: nat)
    requires IsRun(states, events) && n <= |events| && states[0].cursor <= o
    ensures PassCount(states, events, n, o) <= if o < states[n].cursor then 1 else 0
    ensures Holds(states[n].records, o) && o < states[n].cursor ==> PassCount(states, events, n, o) == 1
  {
    if n > 0 {
      RunPasses(states, events, n - 1, o);
      RunValid(states, events, n - 1);
      assert IsStep(states, events, n - 1);
      StepBehind(states[n - 1], events[n - 1], o);
      StepValid(states[n - 1], events[n - 1]);
    }
  }

  /**
   * Nothing is skipped, and nothing is moved twice without a reason: over every run, with any nacks, expiries and
   * failures, a retry record that is still there has been published once if it is behind the worker's offset, and
   * besides once for each batch that published it and then failed at a later record, at saving its index entry or at
   * committing.
   */
  lemma {:induction false} MovedExactly(states: seq<Worker>, events: seq<Event>, n: nat, o: nat)
    requires IsRun(states, events) && n <= |events| && states[0].cursor <= o && Holds(states[n].records, o)
    ensures Count(states[n].published, Of(o))
         == (if o < states[n].cursor then 1 else 0) + RepeatCount(states, events, n, o)
  {
    RunPublishes(states, events, n, o);
    RunPasses(states, events, n, o);
  }

  /** Whether it is still there or not, a record is committed at most once. */
  lemma {:induction false} CommittedOnce(states: seq<Worker>, events: seq<Event>, n: nat, o: nat)
    requires IsRun(states, events) && n <= |events| && states[0].cursor <= o
    ensures Count(states[n].published, Of(o)) <= 1 + RepeatCount(states, events, n, o)
  {
    RunPublishes(states, events, n, o);
    RunPasses(states, events, n, o);
  }

  /**
   * The dead letter of the only record is published, its index entry is not saved, and the next batch publishes it
   * again.
   */
  lemma {:induction false} StrayMovedTwice(r: Stored, letter: Move, fate: Stored -> Fate)
    requires r.offset == 0 && letter.ToDeadLetter? && fate(r) == Goes(letter)
    ensures
      var w := Worker([r], 1, 0, []);
      var failing, passing := Batch(fate, 1, _ => IndexFails, false, false), Batch(fate, 1, _ => NoFault, false, false);
      Apply(Apply(w, failing), passing)
      == w.(published := [Publication(0, letter), Publication(0, letter)], cursor := 1)
  {
    var w := Worker([r], 1, 0, []);
    var failing, passing := Batch(fate, 1, _ => IndexFails, false, false), Batch(fate, 1, _ => NoFault, false, false);
    assert [r][..0] == [];
    assert Filter([r], From(0)) == [r];
    assert Moves(w, failing) == 0;
    assert Stop(w, failing) == Failure(Some(letter));
    var after := Apply(w, failing);
    assert after == w.(published := [Publication(0, letter)]);
    assert Moves(after, passing) == 1;
    assert Publications([r], fate, 1) == [Publication(0, letter)];
  }
}
