/** Building a consumer group's plan: sticky, range and round-robin assignment, and the partitions a group wants. */
module GroupPlans {
  import opened Basics
  import opened Sorting
  import opened Names
  import opened Sticky
  import opened StickyBalance

  // ---- What a correct plan is ----

  function ForPartition(tp: TopicPartition): Row -> bool {
    (r: Row) => PartitionOf(r) == tp
  }

  /** How many owners a partition has. */
  function Owners(rows: seq<Row>, tp: TopicPartition): nat {
    Count(rows, ForPartition(tp))
  }

  predicate Subscribed(active: seq<Member>, topic: string) {
    exists m :: m in active && topic in m.topics
  }

  /**
   * Every wanted partition somebody subscribes to has exactly one owner, others none; owners are subscribed members.
   */
  ghost predicate ValidPlan(rows: seq<Row>, active: seq<Member>, partitions: seq<TopicPartition>) {
    && OwnersSubscribed(rows, active)
    && forall tp :: Owners(rows, tp) == (if tp in partitions && Subscribed(active, tp.topic) then 1 else 0)
  }

  lemma {:induction false} OwnersPositive(rows: seq<Row>, tp: TopicPartition)
    ensures Owners(rows, tp) > 0 <==> tp in Assigned(rows)
  {
    if rows != [] {
      var before, r := rows[..|rows| - 1], rows[|rows| - 1];
      OwnersPositive(before, tp);
      AssignedExtend(before, r);
      assert rows == before + [r];
    }
  }

  // ---- Sticky plans ----

  function StickyPlan(previous: seq<Row>, active: seq<Member>, partitions: seq<TopicPartition>): seq<Row>
    requires UniqueMembers(active)
  {
    var kept := Retain(Sort(previous, RowLe), active, partitions);
    Sort(BalanceSticky(AssignMissing(kept, active, partitions), active), RowLe)
  }

  /** The owner table: later rows win. */
  function OwnerOf(rows: seq<Row>, tp: TopicPartition): Option<string> {
    if rows == [] then None
    else if PartitionOf(rows[|rows| - 1]) == tp then Some(rows[|rows| - 1].member)
    else OwnerOf(rows[..|rows| - 1], tp)
  }

  /** A previous row that could be kept. */
  function Candidate(active: seq<Member>, partitions: seq<TopicPartition>): Row -> bool {
    (r: Row) => PartitionOf(r) in partitions && Wants(active, r.member, r.topic)
  }

  /** A row whose member held the partition before. */
  function HeldBefore(previous: seq<Row>): Row -> bool {
    (r: Row) => OwnerOf(previous, PartitionOf(r)) == Some(r.member)
  }

  method StickyCandidateCount(previous: seq<Row>, active: seq<Member>, partitions: seq<TopicPartition>)
    returns (count: nat)
    ensures count == Count(previous, Candidate(active, partitions))
  {
    count := 0;
    for i := 0 to |previous|
      invariant count == Count(previous[..i], Candidate(active, partitions))
    {
      assert previous[..i + 1][..i] == previous[..i];
      if PartitionOf(previous[i]) in partitions && Wants(active, previous[i].member, previous[i].topic) {
        count := count + 1;
      }
    }
    assert previous[..|previous|] == previous;
  }

  method StickyAppliedCount(rows: seq<Row>, previous: seq<Row>) returns (count: nat)
    ensures count == Count(rows, HeldBefore(previous))
  {
    count := 0;
    for i := 0 to |rows|
      invariant count == Count(rows[..i], HeldBefore(previous))
    {
      assert rows[..i + 1][..i] == rows[..i];
      if OwnerOf(previous, PartitionOf(rows[i])) == Some(rows[i].member) { count := count + 1; }
    }
    assert rows[..|rows|] == rows;
  }

  method BuildCooperativeStickyAssignments(previous: seq<Row>, active: seq<Member>, partitions: seq<TopicPartition>)
    returns (rows: seq<Row>, candidates: nat, applied: nat)
    requires UniqueMembers(active)
    ensures rows == StickyPlan(previous, active, partitions)
    ensures ValidPlan(rows, active, partitions)
    ensures candidates == Count(previous, Candidate(active, partitions))
    ensures applied == Count(rows, HeldBefore(previous))
  {
    rows := RetainedStickyAssignments(previous, active, partitions);
    rows := AssignMissingPartitions(rows, active, partitions);
    rows := BalanceStickyAssignments(rows, active);
    candidates := StickyCandidateCount(previous, active, partitions);
    applied := StickyAppliedCount(rows, previous);
    RowOrder();
    SortCorrect(rows, RowLe);
    CountPermutation(Sort(rows, RowLe), rows, HeldBefore(previous));
    rows := Sort(rows, RowLe);
    StickyPlanValid(previous, active, partitions);
  }

  lemma {:induction false} SubscribedRow(rows: seq<Row>, active: seq<Member>, r: Row)
    requires r in rows && OwnersSubscribed(rows, active)
    ensures Subscribed(active, r.topic)
  {
    var m :| m in active && m.id == r.member && r.topic in m.topics;
  }

  lemma {:induction false} RetainSound(previous: seq<Row>, active: seq<Member>, partitions: seq<TopicPartition>)
    ensures
      var kept := Retain(previous, active, partitions);
      && OwnersSubscribed(kept, active)
      && (forall tp :: Owners(kept, tp) <= 1)
      && (forall tp :: tp in Assigned(kept) ==> tp in partitions)
  {
    if previous != [] {
      RetainSound(previous[..|previous| - 1], active, partitions);
      var kept := Retain(previous[..|previous| - 1], active, partitions);
      var r := previous[|previous| - 1];
      if Retain(previous, active, partitions) != kept {
        ExtendSound(kept, active, r);
        AssignedExtend(kept, r);
      }
    }
  }

  /** Adding a row for an unassigned partition with a subscribed owner keeps owners unique and subscribed. */
  lemma {:induction false} ExtendSound(rows: seq<Row>, active: seq<Member>, r: Row)
    requires OwnersSubscribed(rows, active) && Wants(active, r.member, r.topic)
    requires forall tp :: Owners(rows, tp) <= 1
    requires PartitionOf(r) !in Assigned(rows)
    ensures OwnersSubscribed(rows + [r], active)
    ensures forall tp :: Owners(rows + [r], tp) <= 1
  {
    assert (rows + [r])[..|rows|] == rows;
    OwnersPositive(rows, PartitionOf(r));
    forall tp ensures Owners(rows + [r], tp) <= 1 {
      assert Owners(rows + [r], tp) == Owners(rows, tp) + (if PartitionOf(r) == tp then 1 else 0);
    }
  }

  /** Owners unique and subscribed, only wanted partitions assigned, and the first `done` of them if subscribed. */
  ghost predicate SoundUpTo(rows: seq<Row>, active: seq<Member>, partitions: seq<TopicPartition>, done: nat)
    requires done <= |partitions|
  {
    && OwnersSubscribed(rows, active)
    && (forall tp :: Owners(rows, tp) <= 1)
    && (forall tp :: tp in Assigned(rows) ==> tp in partitions)
    && (forall tp :: tp in partitions[..done] && Subscribed(active, tp.topic) ==> tp in Assigned(rows))
  }

  lemma {:induction false} SoundNext(
    mid: seq<Row>, out: seq<Row>, active: seq<Member>, partitions: seq<TopicPartition>, done: nat)
    requires done < |partitions| && SoundUpTo(mid, active, partitions, done)
    requires OwnersSubscribed(out, active) && forall tp :: Owners(out, tp) <= 1
    requires Assigned(mid) <= Assigned(out) <= Assigned(mid) + {partitions[done]}
    requires Subscribed(active, partitions[done].topic) ==> partitions[done] in Assigned(out)
    ensures SoundUpTo(out, active, partitions, done + 1)
  {
    assert partitions[..done + 1] == partitions[..done] + [partitions[done]];
  }

  /** Placing the next partition keeps what has been placed sound. */
  ghost predicate KeepsSound(place: Placer, active: seq<Member>, partitions: seq<TopicPartition>) {
    forall rows, k: nat :: k < |partitions| && SoundUpTo(rows, active, partitions, k) ==>
                             SoundUpTo(place(rows, partitions[k]), active, partitions, k + 1)
  }

  lemma {:induction false} PlaceAllSound(
    place: Placer, rows: seq<Row>, active: seq<Member>, partitions: seq<TopicPartition>, done: nat)
    requires done <= |partitions| && SoundUpTo(rows, active, partitions, 0) && KeepsSound(place, active, partitions)
    ensures SoundUpTo(PlaceAll(place, rows, partitions[..done]), active, partitions, done)
  {
    if done > 0 {
      PlaceAllSound(place, rows, active, partitions, done - 1);
      assert partitions[..done][..done - 1] == partitions[..done - 1];
      var mid := PlaceAll(place, rows, partitions[..done - 1]);
      assert SoundUpTo(place(mid, partitions[done - 1]), active, partitions, done);
    }
  }

  lemma {:induction false} AssignMissingSound(rows: seq<Row>, active: seq<Member>, partitions: seq<TopicPartition>)
    requires SoundUpTo(rows, active, partitions, 0)
    ensures SoundUpTo(AssignMissing(rows, active, partitions), active, partitions, |partitions|)
  {
    var place := PlaceAmong(active);
    forall mid, k: nat | k < |partitions| && SoundUpTo(mid, active, partitions, k)
      ensures SoundUpTo(place(mid, partitions[k]), active, partitions, k + 1)
    {
      PlaceNextSound(mid, active, partitions, k);
    }
    PlaceAllSound(place, rows, active, partitions, |partitions|);
    assert partitions[..|partitions|] == partitions;
  }

  lemma {:induction false} PlaceNextSound(
    rows: seq<Row>, active: seq<Member>, partitions: seq<TopicPartition>, done: nat)
    requires done < |partitions| && SoundUpTo(rows, active, partitions, done)
    ensures SoundUpTo(Place(rows, active, partitions[done]), active, partitions, done + 1)
  {
    PlaceSound(rows, active, partitions[done]);
    SoundNext(rows, Place(rows, active, partitions[done]), active, partitions, done);
  }

  lemma {:induction false} PlaceSound(rows: seq<Row>, active: seq<Member>, tp: TopicPartition)
    requires OwnersSubscribed(rows, active)
    requires forall x :: Owners(rows, x) <= 1
    ensures
      var out := Place(rows, active, tp);
      && OwnersSubscribed(out, active)
      && (forall x :: Owners(out, x) <= 1)
      && Assigned(rows) <= Assigned(out) <= Assigned(rows) + {tp}
      && (Subscribed(active, tp.topic) ==> tp in Assigned(out))
  {
    LeastLoadedIsLeast(rows, active, tp.topic);
    if tp !in Assigned(rows) && LeastLoadedEligible(rows, active, tp.topic).Some? {
      var m := LeastLoadedEligible(rows, active, tp.topic).value;
      var r := Row(m.id, tp.topic, tp.partition);
      assert Wants(active, r.member, r.topic);
      ExtendSound(rows, active, r);
      AssignedExtend(rows, r);
    }
  }

  lemma {:induction false} OwnersPointwise(a: seq<Row>, b: seq<Row>, tp: TopicPartition)
    requires |a| == |b| && forall i :: 0 <= i < |a| ==> PartitionOf(a[i]) == PartitionOf(b[i])
    ensures Owners(a, tp) == Owners(b, tp)
  {
    if a != [] { OwnersPointwise(a[..|a| - 1], b[..|b| - 1], tp); }
  }

  lemma {:induction false} SubscribedPermutation(a: seq<Row>, b: seq<Row>, active: seq<Member>)
    requires multiset(a) == multiset(b) && OwnersSubscribed(a, active)
    ensures OwnersSubscribed(b, active)
  {
    forall r | r in b ensures Wants(active, r.member, r.topic) {
      assert r in multiset(b);
      assert r in a;
    }
  }

  /** The rows the loop starts from: one owner per subscribed partition. */
  lemma {:induction false} PlacedValid(previous: seq<Row>, active: seq<Member>, partitions: seq<TopicPartition>)
    ensures ValidPlan(AssignMissing(Retain(previous, active, partitions), active, partitions), active, partitions)
  {
    var kept := Retain(previous, active, partitions);
    RetainSound(previous, active, partitions);
    AssignMissingSound(kept, active, partitions);
    var rows := AssignMissing(kept, active, partitions);
    forall tp ensures Owners(rows, tp) == (if tp in partitions && Subscribed(active, tp.topic) then 1 else 0) {
      OwnersPositive(rows, tp);
      if tp in Assigned(rows) {
        var r :| r in rows && PartitionOf(r) == tp;
        SubscribedRow(rows, active, r);
      }
    }
  }

  lemma {:induction false} BalanceKeepsValid(rows: seq<Row>, active: seq<Member>, partitions: seq<TopicPartition>)
    requires UniqueMembers(active) && ValidPlan(rows, active, partitions)
    ensures |BalanceSticky(rows, active)| == |rows|
    ensures ValidPlan(BalanceSticky(rows, active), active, partitions)
  {
    if rows != [] && active != [] {
      BalanceKeepsRows(rows, active, MinLoad(rows, active), MaxLoad(rows, active));
      forall tp ensures Owners(BalanceSticky(rows, active), tp) == Owners(rows, tp) {
        OwnersPointwise(BalanceSticky(rows, active), rows, tp);
      }
    }
  }

  lemma {:induction false} SortKeepsValid(rows: seq<Row>, active: seq<Member>, partitions: seq<TopicPartition>)
    requires ValidPlan(rows, active, partitions)
    ensures ValidPlan(Sort(rows, RowLe), active, partitions)
  {
    RowOrder();
    SortCorrect(rows, RowLe);
    SubscribedPermutation(rows, Sort(rows, RowLe), active);
    forall tp ensures Owners(Sort(rows, RowLe), tp) == Owners(rows, tp) {
      CountPermutation(Sort(rows, RowLe), rows, ForPartition(tp));
    }
  }

  /** A sticky plan gives every wanted partition exactly one owner, an active subscriber, whatever the previous rows. */
  lemma {:induction false} StickyPlanValid(previous: seq<Row>, active: seq<Member>, partitions: seq<TopicPartition>)
    requires UniqueMembers(active)
    ensures ValidPlan(StickyPlan(previous, active, partitions), active, partitions)
  {
    var placed := AssignMissing(Retain(Sort(previous, RowLe), active, partitions), active, partitions);
    PlacedValid(Sort(previous, RowLe), active, partitions);
    BalanceKeepsValid(placed, active, partitions);
    SortKeepsValid(BalanceSticky(placed, active), active, partitions);
  }

  lemma {:induction false} StickyPlanSorted(previous: seq<Row>, active: seq<Member>, partitions: seq<TopicPartition>)
    requires UniqueMembers(active)
    ensures Sorted(StickyPlan(previous, active, partitions), RowLe)
  {
    var kept := Retain(Sort(previous, RowLe), active, partitions);
    RowOrder();
    SortCorrect(BalanceSticky(AssignMissing(kept, active, partitions), active), RowLe);
  }

  // ---- A sticky plan is a fixpoint ----

  lemma {:induction false} RetainKeepsAll(rows: seq<Row>, active: seq<Member>, partitions: seq<TopicPartition>)
    requires OwnersSubscribed(rows, active)
    requires forall tp :: Owners(rows, tp) <= 1
    requires forall r :: r in rows ==> PartitionOf(r) in partitions
    ensures Retain(rows, active, partitions) == rows
  {
    if rows != [] {
      var before, r := rows[..|rows| - 1], rows[|rows| - 1];
      assert rows == before + [r];
      assert r in rows;
      forall tp ensures Owners(before, tp) <= 1 { assert Owners(rows, tp) <= 1; }
      RetainKeepsAll(before, active, partitions);
      OwnersPositive(before, PartitionOf(r));
      assert Owners(rows, PartitionOf(r)) <= 1;
    }
  }

  lemma {:induction false} NothingMissing(rows: seq<Row>, active: seq<Member>, partitions: seq<TopicPartition>)
    requires forall tp :: tp in partitions && Subscribed(active, tp.topic) ==> tp in Assigned(rows)
    ensures AssignMissing(rows, active, partitions) == rows
  {
    if partitions != [] {
      var tp := partitions[|partitions| - 1];
      NothingMissing(rows, active, partitions[..|partitions| - 1]);
      LeastLoadedIsLeast(rows, active, tp.topic);
    }
  }

  lemma {:induction false} StuckPermutation(a: seq<Row>, b: seq<Row>, active: seq<Member>, minLoad: nat, maxLoad: nat)
    requires multiset(a) == multiset(b) && Stuck(a, active, minLoad, maxLoad)
    ensures Stuck(b, active, minLoad, maxLoad)
  {
    forall m, r | m in active && r in b && Load(b, m.id) < minLoad && Load(b, r.member) > maxLoad
      ensures r.topic !in m.topics
    {
      CountPermutation(a, b, OwnedBy(m.id));
      CountPermutation(a, b, OwnedBy(r.member));
      assert r in multiset(b);
      assert r in a;
    }
  }

  lemma {:induction false} SameLoadBounds(a: seq<Row>, b: seq<Row>, active: seq<Member>)
    requires |a| == |b| && active != []
    ensures MinLoad(a, active) == MinLoad(b, active) && MaxLoad(a, active) == MaxLoad(b, active)
  {
  }

  lemma {:induction false} IdleBetween(
    rows: seq<Row>, sorted: seq<Row>, active: seq<Member>, lo: nat, hi: nat)
    requires UniqueMembers(active) && lo <= hi && multiset(sorted) == multiset(Balance(rows, active, lo, hi))
    ensures Balance(sorted, active, lo, hi) == sorted
  {
    BalanceEndsStuck(rows, active, lo, hi);
    StuckPermutation(Balance(rows, active, lo, hi), sorted, active, lo, hi);
    StuckStops(sorted, active, lo, hi);
  }

  /** What has been balanced, in whatever order its rows are listed, is left as it is. */
  lemma {:induction false} BalanceStickyIdle(rows: seq<Row>, sorted: seq<Row>, active: seq<Member>)
    requires UniqueMembers(active) && |BalanceSticky(rows, active)| == |rows|
    requires multiset(sorted) == multiset(BalanceSticky(rows, active))
    ensures BalanceSticky(sorted, active) == sorted
  {
    assert |multiset(sorted)| == |multiset(BalanceSticky(rows, active))|;
    if sorted != [] && active != [] {
      SameLoadBounds(sorted, rows, active);
      IdleBetween(rows, sorted, active, MinLoad(rows, active), MaxLoad(rows, active));
    }
  }

  lemma {:induction false} ValidFacts(rows: seq<Row>, active: seq<Member>, partitions: seq<TopicPartition>)
    requires ValidPlan(rows, active, partitions)
    ensures forall tp :: Owners(rows, tp) <= 1
    ensures forall r :: r in rows ==> PartitionOf(r) in partitions
    ensures forall tp :: tp in partitions && Subscribed(active, tp.topic) ==> tp in Assigned(rows)
  {
    forall tp ensures Owners(rows, tp) > 0 <==> tp in Assigned(rows) { OwnersPositive(rows, tp); }
    forall r | r in rows ensures PartitionOf(r) in partitions {
      assert PartitionOf(r) in Assigned(rows);
      assert Owners(rows, PartitionOf(r)) > 0;
    }
  }

  /** Rebalancing a sticky plan with the same members and partitions returns the same rows. */
  lemma {:induction false} StickyFixpoint(previous: seq<Row>, active: seq<Member>, partitions: seq<TopicPartition>)
    requires UniqueMembers(active)
    ensures
      var rows := StickyPlan(previous, active, partitions);
      StickyPlan(rows, active, partitions) == rows
  {
    var placed := AssignMissing(Retain(Sort(previous, RowLe), active, partitions), active, partitions);
    var balanced := BalanceSticky(placed, active);
    var rows := StickyPlan(previous, active, partitions);
    RowOrder();
    SortCorrect(balanced, RowLe);
    SortOfSorted(rows, RowLe);
    StickyPlanValid(previous, active, partitions);
    ValidFacts(rows, active, partitions);
    RetainKeepsAll(rows, active, partitions);
    NothingMissing(rows, active, partitions);
    PlacedValid(Sort(previous, RowLe), active, partitions);
    BalanceKeepsValid(placed, active, partitions);
    BalanceStickyIdle(placed, rows, active);
  }

  lemma {:induction false} OnlyOwner(rows: seq<Row>, r: Row)
    requires r in rows && Owners(rows, PartitionOf(r)) <= 1
    ensures OwnerOf(rows, PartitionOf(r)) == Some(r.member)
  {
    var n := |rows| - 1;
    assert rows == rows[..n] + [rows[n]];
    if r in rows[..n] {
      OwnersPositive(rows[..n], PartitionOf(r));
      OnlyOwner(rows[..n], r);
    }
  }

  /** Planning an unchanged group again counts every row as a candidate and as kept. */
  lemma {:induction false} ReplanKeepsAll(previous: seq<Row>, active: seq<Member>, partitions: seq<TopicPartition>)
    requires UniqueMembers(active)
    ensures
      var rows := StickyPlan(previous, active, partitions);
      && Count(rows, Candidate(active, partitions)) == |rows|
      && Count(StickyPlan(rows, active, partitions), HeldBefore(rows)) == |rows|
  {
    var rows := StickyPlan(previous, active, partitions);
    StickyFixpoint(previous, active, partitions);
    StickyPlanValid(previous, active, partitions);
    ValidFacts(rows, active, partitions);
    forall r | r in rows ensures Candidate(active, partitions)(r) && HeldBefore(rows)(r) { OnlyOwner(rows, r); }
    CountAll(rows, Candidate(active, partitions));
    CountAll(rows, HeldBefore(rows));
  }

  // ---- Range plans ----

  /** Each owner gets `base` partitions, the first `extra` owners one more. */
  function ShareStart(base: nat, extra: nat, i: nat): nat {
    if i == 0 then 0 else ShareStart(base, extra, i - 1) + base + (if i - 1 < extra then 1 else 0)
  }

  lemma {:induction false} ShareStartClosed(base: nat, extra: nat, i: nat)
    ensures ShareStart(base, extra, i) == i * base + Min(i, extra)
  {
    if i > 0 {
      ShareStartClosed(base, extra, i - 1);
      assert i * base == (i - 1) * base + base;
    }
  }

  lemma {:induction false} SharesOrdered(base: nat, extra: nat, i: nat, j: nat)
    requires i <= j
    ensures ShareStart(base, extra, i) <= ShareStart(base, extra, j)
    decreases j
  {
    if i < j { SharesOrdered(base, extra, i, j - 1); }
  }

  /** The shares of all owners together cover exactly the n partitions. */
  lemma {:induction false} SharesTile(n: nat, owners: nat, i: nat)
    requires owners > 0 && i <= owners
    ensures ShareStart(n / owners, n % owners, owners) == n
    ensures ShareStart(n / owners, n % owners, i) <= n
  {
    var base, extra := n / owners, n % owners;
    ShareStartClosed(base, extra, owners);
    assert n == owners * base + extra;
    SharesOrdered(base, extra, i, owners);
  }

  function RowsFor(id: string, partitions: seq<TopicPartition>): (rows: seq<Row>)
    ensures |rows| == |partitions|
  {
    seq(|partitions|, i requires 0 <= i < |partitions| => Row(id, partitions[i].topic, partitions[i].partition))
  }

  /** Where the i-th owner's share starts. */
  function Cut(owners: seq<Member>, partitions: seq<TopicPartition>, i: nat): (c: nat)
    requires owners != [] && i <= |owners|
    ensures c <= |partitions| && (i == |owners| ==> c == |partitions|)
  {
    SharesTile(|partitions|, |owners|, i);
    ShareStart(|partitions| / |owners|, |partitions| % |owners|, i)
  }

  lemma {:induction false} CutStep(owners: seq<Member>, partitions: seq<TopicPartition>, i: nat, j: nat)
    requires owners != [] && i < |owners| && i <= j <= |owners|
    ensures Cut(owners, partitions, 0) == 0
    ensures Cut(owners, partitions, i) <= Cut(owners, partitions, j)
    ensures Cut(owners, partitions, i + 1) - Cut(owners, partitions, i)
         == |partitions| / |owners| + (if i < |partitions| % |owners| then 1 else 0)
  {
    SharesOrdered(|partitions| / |owners|, |partitions| % |owners|, i, j);
  }

  /** The shares of the first i owners, one contiguous run of partitions each. */
  function RangeRows(owners: seq<Member>, partitions: seq<TopicPartition>, i: nat): (rows: seq<Row>)
    requires owners != [] && i <= |owners|
    ensures |rows| == Cut(owners, partitions, i)
  {
    if i == 0 then []
    else
      CutStep(owners, partitions, i - 1, i);
      RangeRows(owners, partitions, i - 1) +
      RowsFor(owners[i - 1].id, partitions[Cut(owners, partitions, i - 1)..Cut(owners, partitions, i)])
  }

  function RangeTopic(owners: seq<Member>, partitions: seq<TopicPartition>): seq<Row> {
    if owners == [] then [] else RangeRows(owners, partitions, |owners|)
  }

  method AppendRangeAssignments(owners: seq<Member>, partitions: seq<TopicPartition>) returns (rows: seq<Row>)
    ensures rows == RangeTopic(owners, partitions)
  {
    rows := [];
    if owners == [] { return; }
    var base := |partitions| / |owners|;
    var extra := |partitions| % |owners|;
    var cursor := 0;
    for i := 0 to |owners|
      invariant cursor == Cut(owners, partitions, i)
      invariant rows == RangeRows(owners, partitions, i)
    {
      var size := base;
      if i < extra { size := size + 1; }
      CutStep(owners, partitions, i, i + 1);
      rows := rows + RowsFor(owners[i].id, partitions[cursor..cursor + size]);
      cursor := cursor + size;
    }
  }

  /** The k-th partition belongs to the owner whose share contains k. */
  lemma {:induction false} RangeRowsAt(owners: seq<Member>, partitions: seq<TopicPartition>, upTo: nat, i: nat, k: nat)
    requires i < upTo <= |owners|
    requires Cut(owners, partitions, i) <= k < Cut(owners, partitions, i + 1)
    ensures k < |RangeRows(owners, partitions, upTo)|
    ensures RangeRows(owners, partitions, upTo)[k] == Row(owners[i].id, partitions[k].topic, partitions[k].partition)
  {
    var lo, hi := Cut(owners, partitions, upTo - 1), Cut(owners, partitions, upTo);
    var before := RangeRows(owners, partitions, upTo - 1);
    assert lo <= hi by { CutStep(owners, partitions, upTo - 1, upTo); }
    var share := RowsFor(owners[upTo - 1].id, partitions[lo..hi]);
    assert RangeRows(owners, partitions, upTo) == before + share;
    if i < upTo - 1 {
      assert Cut(owners, partitions, i + 1) <= lo by { CutStep(owners, partitions, i + 1, upTo - 1); }
      RangeRowsAt(owners, partitions, upTo - 1, i, k);
      assert (before + share)[k] == before[k];
    } else {
      assert (before + share)[k] == share[k - lo];
    }
  }

  lemma {:induction false} ShareOf(
    owners: seq<Member>, partitions: seq<TopicPartition>, upTo: nat, k: nat) returns (i: nat)
    requires owners != [] && upTo <= |owners| && k < Cut(owners, partitions, upTo)
    ensures i < upTo && Cut(owners, partitions, i) <= k < Cut(owners, partitions, i + 1)
  {
    if k >= Cut(owners, partitions, upTo - 1) {
      i := upTo - 1;
    } else {
      i := ShareOf(owners, partitions, upTo - 1, k);
    }
  }

  /** Every partition of the topic is dealt once, in order, to one of its subscribers. */
  lemma {:induction false} RangeTopicRows(owners: seq<Member>, partitions: seq<TopicPartition>)
    ensures
      var rows := RangeTopic(owners, partitions);
      && |rows| == (if owners == [] then 0 else |partitions|)
      && forall k :: 0 <= k < |rows| ==>
           && PartitionOf(rows[k]) == partitions[k]
           && exists m :: m in owners && m.id == rows[k].member
  {
    if owners != [] {
      var rows := RangeTopic(owners, partitions);
      forall k | 0 <= k < |rows|
        ensures PartitionOf(rows[k]) == partitions[k] && exists m :: m in owners && m.id == rows[k].member
      {
        var i := ShareOf(owners, partitions, |owners|, k);
        RangeRowsAt(owners, partitions, |owners|, i, k);
        assert owners[i] in owners;
      }
    }
  }

  function OfTopic(topic: string): TopicPartition -> bool {
    (tp: TopicPartition) => tp.topic == topic
  }

  predicate PartitionLe(a: TopicPartition, b: TopicPartition) {
    a.partition <= b.partition
  }

  /** The topics of the partitions, each once. */
  function TopicsOf(partitions: seq<TopicPartition>): (topics: seq<string>) {
    if partitions == [] then []
    else
      var topics := TopicsOf(partitions[..|partitions| - 1]);
      var topic := partitions[|partitions| - 1].topic;
      if topic in topics then topics else topics + [topic]
  }

  function RangeShare(active: seq<Member>, partitions: seq<TopicPartition>, topic: string): seq<Row> {
    RangeTopic(Filter(active, Subscribes(topic)), Sort(Filter(partitions, OfTopic(topic)), PartitionLe))
  }

  function RangeOver(active: seq<Member>, partitions: seq<TopicPartition>, topics: seq<string>): seq<Row> {
    if topics == [] then []
    else RangeOver(active, partitions, topics[..|topics| - 1]) + RangeShare(active, partitions, topics[|topics| - 1])
  }

  function RangePlan(active: seq<Member>, partitions: seq<TopicPartition>): seq<Row> {
    RangeOver(active, partitions, Sort(TopicsOf(partitions), StringLe))
  }

  lemma {:induction false} RangeOverStep(
    active: seq<Member>, partitions: seq<TopicPartition>, topics: seq<string>, i: nat)
    requires i < |topics|
    ensures RangeOver(active, partitions, topics[..i + 1])
         == RangeOver(active, partitions, topics[..i]) + RangeShare(active, partitions, topics[i])
  {
    assert topics[..i + 1][..i] == topics[..i];
  }

  method BuildRangeAssignments(active: seq<Member>, partitions: seq<TopicPartition>) returns (rows: seq<Row>)
    ensures rows == RangePlan(active, partitions)
  {
    rows := [];
    var topics := Sort(TopicsOf(partitions), StringLe);
    for i := 0 to |topics|
      invariant rows == RangeOver(active, partitions, topics[..i])
    {
      RangeOverStep(active, partitions, topics, i);
      var share := AppendRangeAssignments(Filter(active, Subscribes(topics[i])),
                                          Sort(Filter(partitions, OfTopic(topics[i])), PartitionLe));
      rows := rows + share;
    }
    assert topics[..|topics|] == topics;
  }

  function Is(tp: TopicPartition): TopicPartition -> bool {
    (x: TopicPartition) => x == tp
  }

  lemma {:induction false} CountFiltered(s: seq<TopicPartition>, topic: string, tp: TopicPartition)
    ensures Count(Filter(s, OfTopic(topic)), Is(tp)) == (if tp.topic == topic then Count(s, Is(tp)) else 0)
  {
    if s != [] {
      var before, x := s[..|s| - 1], s[|s| - 1];
      CountFiltered(before, topic, tp);
      CountConcat(Filter(before, OfTopic(topic)), if OfTopic(topic)(x) then [x] else [], Is(tp));
    }
  }

  lemma {:induction false} OwnersAsCount(rows: seq<Row>, partitions: seq<TopicPartition>, tp: TopicPartition)
    requires |rows| == |partitions| && forall k :: 0 <= k < |rows| ==> PartitionOf(rows[k]) == partitions[k]
    ensures Owners(rows, tp) == Count(partitions, Is(tp))
  {
    if rows != [] { OwnersAsCount(rows[..|rows| - 1], partitions[..|rows| - 1], tp); }
  }

  /** One topic's share holds each of its partitions as often as it is wanted, if anybody subscribes. */
  lemma {:induction false} RangeShareOwners(
    active: seq<Member>, partitions: seq<TopicPartition>, topic: string, tp: TopicPartition)
    ensures Owners(RangeShare(active, partitions, topic), tp)
         == (if tp.topic == topic && Subscribed(active, topic) then Count(partitions, Is(tp)) else 0)
  {
    var owners := Filter(active, Subscribes(topic));
    var wanted := Filter(partitions, OfTopic(topic));
    FilterMembers(active, Subscribes(topic));
    SortCorrect(wanted, PartitionLe);
    RangeTopicRows(owners, Sort(wanted, PartitionLe));
    CountFiltered(partitions, topic, tp);
    CountPermutation(Sort(wanted, PartitionLe), wanted, Is(tp));
    if Subscribed(active, topic) {
      var m :| m in active && topic in m.topics;
      assert m in owners;
      OwnersAsCount(RangeShare(active, partitions, topic), Sort(wanted, PartitionLe), tp);
    } else {
      FilterNone(active, Subscribes(topic));
    }
  }

  lemma {:induction false} RangeShareRow(active: seq<Member>, partitions: seq<TopicPartition>, topic: string, k: nat)
    requires k < |RangeShare(active, partitions, topic)|
    ensures
      var r := RangeShare(active, partitions, topic)[k];
      Wants(active, r.member, r.topic)
  {
    var owners := Filter(active, Subscribes(topic));
    var wanted := Filter(partitions, OfTopic(topic));
    var sorted := Sort(wanted, PartitionLe);
    RangeTopicRows(owners, sorted);
    SortCorrect(wanted, PartitionLe);
    assert sorted[k] in multiset(sorted);
    assert sorted[k] in wanted;
    FilterMembers(partitions, OfTopic(topic));
    FilterMembers(active, Subscribes(topic));
  }

  lemma {:induction false} RangeShareSubscribed(active: seq<Member>, partitions: seq<TopicPartition>, topic: string)
    ensures OwnersSubscribed(RangeShare(active, partitions, topic), active)
  {
    var rows := RangeShare(active, partitions, topic);
    forall k | 0 <= k < |rows| ensures Wants(active, rows[k].member, rows[k].topic) {
      RangeShareRow(active, partitions, topic, k);
    }
  }

  lemma {:induction false} RangeOverOwnersStep(
    active: seq<Member>, partitions: seq<TopicPartition>, topics: seq<string>, tp: TopicPartition)
    requires topics != []
    ensures
      var topic := topics[|topics| - 1];
      Owners(RangeOver(active, partitions, topics), tp)
      == Owners(RangeOver(active, partitions, topics[..|topics| - 1]), tp)
         + (if tp.topic == topic && Subscribed(active, topic) then Count(partitions, Is(tp)) else 0)
  {
    var before, topic := topics[..|topics| - 1], topics[|topics| - 1];
    RangeShareOwners(active, partitions, topic, tp);
    CountConcat(RangeOver(active, partitions, before), RangeShare(active, partitions, topic), ForPartition(tp));
  }

  lemma {:induction false} LastOfDistinct(topics: seq<string>, t: string)
    requires Distinct(topics) && topics != []
    ensures Distinct(topics[..|topics| - 1]) && topics[|topics| - 1] !in topics[..|topics| - 1]
    ensures t in topics <==> t in topics[..|topics| - 1] || t == topics[|topics| - 1]
  {
    assert topics == topics[..|topics| - 1] + [topics[|topics| - 1]];
  }

  lemma {:induction false} RangeOverOwners(
    active: seq<Member>, partitions: seq<TopicPartition>, topics: seq<string>, tp: TopicPartition)
    requires Distinct(topics)
    ensures Owners(RangeOver(active, partitions, topics), tp)
         == (if tp.topic in topics && Subscribed(active, tp.topic) then Count(partitions, Is(tp)) else 0)
  {
    if topics != [] {
      LastOfDistinct(topics, tp.topic);
      RangeOverOwners(active, partitions, topics[..|topics| - 1], tp);
      RangeOverOwnersStep(active, partitions, topics, tp);
    }
  }

  lemma {:induction false} RangeOverSubscribed(
    active: seq<Member>, partitions: seq<TopicPartition>, topics: seq<string>)
    ensures OwnersSubscribed(RangeOver(active, partitions, topics), active)
  {
    if topics != [] {
      RangeOverSubscribed(active, partitions, topics[..|topics| - 1]);
      RangeShareSubscribed(active, partitions, topics[|topics| - 1]);
    }
  }

  lemma {:induction false} TopicsOfMembers(partitions: seq<TopicPartition>)
    ensures Distinct(TopicsOf(partitions))
    ensures forall tp :: tp in partitions ==> tp.topic in TopicsOf(partitions)
  {
    if partitions != [] {
      TopicsOfMembers(partitions[..|partitions| - 1]);
      assert partitions == partitions[..|partitions| - 1] + [partitions[|partitions| - 1]];
    }
  }

  lemma {:induction false} CountOnce(s: seq<TopicPartition>, tp: TopicPartition)
    requires Distinct(s)
    ensures Count(s, Is(tp)) == (if tp in s then 1 else 0)
  {
    if s != [] {
      var before, x := s[..|s| - 1], s[|s| - 1];
      CountOnce(before, tp);
      assert s == before + [x];
    }
  }

  /** A range plan gives every wanted partition exactly one owner, an active subscriber. */
  lemma {:induction false} RangePlanValid(active: seq<Member>, partitions: seq<TopicPartition>)
    requires Distinct(partitions)
    ensures ValidPlan(RangePlan(active, partitions), active, partitions)
  {
    var topics := Sort(TopicsOf(partitions), StringLe);
    StringOrder();
    SortCorrect(TopicsOf(partitions), StringLe);
    TopicsOfMembers(partitions);
    DistinctPermutation(TopicsOf(partitions), topics);
    RangeOverSubscribed(active, partitions, topics);
    forall tp ensures Owners(RangePlan(active, partitions), tp)
                   == (if tp in partitions && Subscribed(active, tp.topic) then 1 else 0) {
      RangeOverOwners(active, partitions, topics, tp);
      CountOnce(partitions, tp);
      if tp in partitions {
        assert tp.topic in multiset(TopicsOf(partitions));
        assert tp.topic in topics;
      }
    }
  }

  // ---- Round robin, which looks at no subscription ----

  function RoundRobinPlan(active: seq<Member>, partitions: seq<TopicPartition>): (rows: seq<Row>)
    requires active != []
    ensures |rows| == |partitions|
  {
    if partitions == [] then []
    else
      var i := |partitions| - 1;
      RoundRobinPlan(active, partitions[..i]) +
      [Row(active[i % |active|].id, partitions[i].topic, partitions[i].partition)]
  }

  method BuildRoundRobinAssignments(active: seq<Member>, partitions: seq<TopicPartition>) returns (rows: seq<Row>)
    requires active != []
    ensures rows == RoundRobinPlan(active, partitions)
  {
    rows := [];
    for i := 0 to |partitions|
      invariant rows == RoundRobinPlan(active, partitions[..i])
    {
      assert partitions[..i + 1][..i] == partitions[..i];
      var owner := active[i % |active|];
      rows := rows + [Row(owner.id, partitions[i].topic, partitions[i].partition)];
    }
    assert partitions[..|partitions|] == partitions;
  }

  lemma {:induction false} DivModStep(i: nat, m: nat)
    requires m > 0
    ensures if i % m == m - 1 then (i + 1) / m == i / m + 1 && (i + 1) % m == 0
            else (i + 1) / m == i / m && (i + 1) % m == i % m + 1
  {
    var q, r := i / m, i % m;
    assert i + 1 == m * q + (r + 1);
    if r == m - 1 {
      assert i + 1 == m * (q + 1);
      DivModUnique(i + 1, m, q + 1, 0);
    } else {
      DivModUnique(i + 1, m, q, r + 1);
    }
  }

  /** How many of n items dealt in turn to m members the j-th one gets. */
  function DealtTo(n: nat, m: nat, j: nat): nat
    requires m > 0
  {
    n / m + (if j < n % m then 1 else 0)
  }

  lemma {:induction false} DealOne(n: nat, m: nat, j: nat)
    requires j < m
    ensures DealtTo(n + 1, m, j) == DealtTo(n, m, j) + (if n % m == j then 1 else 0)
  {
    DivModStep(n, m);
  }

  lemma {:induction false} LoadSnoc(rows: seq<Row>, r: Row, id: string)
    ensures Load(rows + [r], id) == Load(rows, id) + (if r.member == id then 1 else 0)
  {
    assert (rows + [r])[..|rows|] == rows;
  }

  /** Round robin deals evenly: the j-th of m members gets n / m partitions, and one more if j < n % m. */
  lemma {:induction false} RoundRobinLoads(active: seq<Member>, partitions: seq<TopicPartition>, j: nat)
    requires UniqueMembers(active) && j < |active|
    ensures Load(RoundRobinPlan(active, partitions), active[j].id) == DealtTo(|partitions|, |active|, j)
  {
    if partitions != [] {
      var i := |partitions| - 1;
      RoundRobinLoads(active, partitions[..i], j);
      DealOne(i, |active|, j);
      var r := Row(active[i % |active|].id, partitions[i].topic, partitions[i].partition);
      LoadSnoc(RoundRobinPlan(active, partitions[..i]), r, active[j].id);
      assert RoundRobinPlan(active, partitions) == RoundRobinPlan(active, partitions[..i]) + [r];
    }
  }

  lemma {:induction false} RoundRobinRow(active: seq<Member>, partitions: seq<TopicPartition>, i: nat)
    requires active != [] && i < |partitions|
    ensures RoundRobinPlan(active, partitions)[i]
         == Row(active[i % |active|].id, partitions[i].topic, partitions[i].partition)
  {
    var n := |partitions| - 1;
    if i < n { RoundRobinRow(active, partitions[..n], i); }
  }

  /** Member i % n subscribes to the topic of the i-th partition. */
  predicate DealtToSubscriber(active: seq<Member>, partitions: seq<TopicPartition>, i: nat)
    requires active != [] && i < |partitions|
  {
    partitions[i].topic in active[i % |active|].topics
  }

  lemma {:induction false} WantsOwn(active: seq<Member>, j: nat, topic: string)
    requires UniqueMembers(active) && j < |active|
    ensures Wants(active, active[j].id, topic) <==> topic in active[j].topics
  {
    if topic in active[j].topics { assert active[j] in active; }
    if Wants(active, active[j].id, topic) {
      var m :| m in active && m.id == active[j].id && topic in m.topics;
      var k :| 0 <= k < |active| && active[k] == m;
      assert k == j;
    }
  }

  lemma {:induction false} DealtOwners(active: seq<Member>, partitions: seq<TopicPartition>, i: nat)
    requires UniqueMembers(active) && active != [] && i < |partitions|
    ensures
      var row := RoundRobinPlan(active, partitions)[i];
      && PartitionOf(row) == partitions[i]
      && (Wants(active, row.member, row.topic) <==> DealtToSubscriber(active, partitions, i))
  {
    RoundRobinRow(active, partitions, i);
    WantsOwn(active, i % |active|, partitions[i].topic);
  }

  /** Round robin deals a valid plan if and only if it happens to deal every partition to a subscriber. */
  lemma {:induction false} RoundRobinValidExactlyWhen(active: seq<Member>, partitions: seq<TopicPartition>)
    requires UniqueMembers(active) && active != [] && Distinct(partitions)
    ensures ValidPlan(RoundRobinPlan(active, partitions), active, partitions)
       <==> forall i: nat :: i < |partitions| ==> DealtToSubscriber(active, partitions, i)
  {
    var rows := RoundRobinPlan(active, partitions);
    forall i: nat | i < |partitions|
      ensures PartitionOf(rows[i]) == partitions[i]
      ensures Wants(active, rows[i].member, rows[i].topic) <==> DealtToSubscriber(active, partitions, i)
    {
      DealtOwners(active, partitions, i);
    }
    if ValidPlan(rows, active, partitions) {
      forall i: nat | i < |partitions| ensures DealtToSubscriber(active, partitions, i) { assert rows[i] in rows; }
    }
    if forall i: nat :: i < |partitions| ==> DealtToSubscriber(active, partitions, i) {
      DealtIsValid(active, partitions, rows);
    }
  }

  lemma {:induction false} DealtIsValid(active: seq<Member>, partitions: seq<TopicPartition>, rows: seq<Row>)
    requires Distinct(partitions) && |rows| == |partitions|
    requires forall i: nat :: i < |rows| ==> PartitionOf(rows[i]) == partitions[i]
    requires forall i: nat :: i < |rows| ==> Wants(active, rows[i].member, rows[i].topic)
    ensures ValidPlan(rows, active, partitions)
  {
    forall tp ensures Owners(rows, tp) == (if tp in partitions && Subscribed(active, tp.topic) then 1 else 0) {
      OwnersAsCount(rows, partitions, tp);
      CountOnce(partitions, tp);
      if tp in partitions {
        var i :| 0 <= i < |partitions| && partitions[i] == tp;
        var m :| m in active && m.id == rows[i].member && rows[i].topic in m.topics;
        assert tp.topic in m.topics;
      }
    }
  }

  /** Two partitions of a topic only the first of two members subscribes to: the second gets one all the same. */
  lemma {:induction false} DealtToStranger(first: Member, second: Member, topic: string)
    requires first.id != second.id && topic in first.topics && topic !in second.topics
    ensures
      var partitions := [TopicPartition(topic, 0), TopicPartition(topic, 1)];
      !ValidPlan(RoundRobinPlan([first, second], partitions), [first, second], partitions)
  {
    var active, partitions := [first, second], [TopicPartition(topic, 0), TopicPartition(topic, 1)];
    RoundRobinValidExactlyWhen(active, partitions);
    assert 1 % |active| == 1;
    assert !DealtToSubscriber(active, partitions, 1);
  }

  // ---- How evenly range deals each topic ----

  function OwnedIn(id: string, topic: string): Row -> bool {
    (r: Row) => r.member == id && r.topic == topic
  }

  lemma {:induction false} RowsForLoad(id: string, partitions: seq<TopicPartition>, other: string)
    ensures Load(RowsFor(id, partitions), other) == if other == id then |partitions| else 0
  {
    if other == id {
      CountAll(RowsFor(id, partitions), OwnedBy(other));
    } else {
      CountNone(RowsFor(id, partitions), OwnedBy(other));
    }
  }

  lemma {:induction false} CutSize(owners: seq<Member>, partitions: seq<TopicPartition>, i: nat)
    requires i < |owners|
    ensures Cut(owners, partitions, i + 1) - Cut(owners, partitions, i) == DealtTo(|partitions|, |owners|, i)
  {
    CutStep(owners, partitions, i, i + 1);
  }

  /** The i-th owner's share adds its size to the owner's load and to nobody else's. */
  lemma {:induction false} ShareLoad(owners: seq<Member>, partitions: seq<TopicPartition>, i: nat, id: string)
    requires i < |owners|
    ensures Load(RangeRows(owners, partitions, i + 1), id)
         == Load(RangeRows(owners, partitions, i), id)
            + (if owners[i].id == id then Cut(owners, partitions, i + 1) - Cut(owners, partitions, i) else 0)
  {
    CutStep(owners, partitions, i, i + 1);
    var share := partitions[Cut(owners, partitions, i)..Cut(owners, partitions, i + 1)];
    RowsForLoad(owners[i].id, share, id);
    CountConcat(RangeRows(owners, partitions, i), RowsFor(owners[i].id, share), OwnedBy(id));
  }

  /** The k-th share adds its size to the load exactly if the k-th owner is the member. */
  ghost predicate AddsAt(owners: seq<Member>, size: nat -> nat, load: nat -> nat, id: string, k: nat)
    requires k < |owners|
  {
    load(k + 1) == load(k) + (if owners[k].id == id then size(k) else 0)
  }

  lemma {:induction false} OneShare(owners: seq<Member>, size: nat -> nat, load: nat -> nat, i: nat, j: nat)
    requires UniqueMembers(owners) && j < |owners| && i <= |owners| && load(0) == 0
    requires forall k: nat :: k < |owners| ==> AddsAt(owners, size, load, owners[j].id, k)
    ensures load(i) == if j < i then size(j) else 0
  {
    if i > 0 {
      OneShare(owners, size, load, i - 1, j);
      assert AddsAt(owners, size, load, owners[j].id, i - 1);
    }
  }

  ghost function LoadUpTo(owners: seq<Member>, partitions: seq<TopicPartition>, id: string): nat -> nat
    requires owners != []
  {
    (k: nat) => if k <= |owners| then Load(RangeRows(owners, partitions, k), id) else 0
  }

  ghost function Dealt(n: nat, m: nat): nat -> nat
    requires m > 0
  {
    (k: nat) => DealtTo(n, m, k)
  }

  lemma {:induction false} ShareAdds(owners: seq<Member>, partitions: seq<TopicPartition>, id: string, k: nat)
    requires k < |owners|
    ensures AddsAt(owners, Dealt(|partitions|, |owners|), LoadUpTo(owners, partitions, id), id, k)
  {
    ShareLoad(owners, partitions, k, id);
    CutSize(owners, partitions, k);
  }

  lemma {:induction false} RangeRowsLoad(owners: seq<Member>, partitions: seq<TopicPartition>, j: nat)
    requires UniqueMembers(owners) && j < |owners|
    ensures Load(RangeTopic(owners, partitions), owners[j].id) == DealtTo(|partitions|, |owners|, j)
  {
    var size, load := Dealt(|partitions|, |owners|), LoadUpTo(owners, partitions, owners[j].id);
    forall k: nat | k < |owners| ensures AddsAt(owners, size, load, owners[j].id, k) {
      ShareAdds(owners, partitions, owners[j].id, k);
    }
    OneShare(owners, size, load, |owners|, j);
  }

  lemma {:induction false} SubscribersUnique(active: seq<Member>, topic: string)
    requires UniqueMembers(active)
    ensures UniqueMembers(Filter(active, Subscribes(topic)))
  {
    if active != [] {
      var before, last := active[..|active| - 1], active[|active| - 1];
      SubscribersUnique(before, topic);
      FilterMembers(before, Subscribes(topic));
      forall m | m in Filter(before, Subscribes(topic)) ensures m.id != last.id {
        var i :| 0 <= i < |before| && before[i] == m;
        assert active[i] == m;
      }
    }
  }

  lemma {:induction false} CountAlike<T>(s: seq<T>, p: T -> bool, q: T -> bool)
    requires forall x :: x in s ==> p(x) == q(x)
    ensures Count(s, p) == Count(s, q)
  {
    if s != [] { CountAlike(s[..|s| - 1], p, q); }
  }

  lemma {:induction false} ShareOfTopic(active: seq<Member>, partitions: seq<TopicPartition>, topic: string)
    ensures forall r :: r in RangeShare(active, partitions, topic) ==> r.topic == topic
  {
    var owners, wanted := Filter(active, Subscribes(topic)), Filter(partitions, OfTopic(topic));
    var sorted := Sort(wanted, PartitionLe);
    RangeTopicRows(owners, sorted);
    SortLeast(wanted, PartitionLe);
    FilterMembers(partitions, OfTopic(topic));
    var rows := RangeShare(active, partitions, topic);
    forall k | 0 <= k < |rows| ensures rows[k].topic == topic { assert sorted[k] in sorted; }
  }

  lemma {:induction false} RangeOverLoad(
    active: seq<Member>, partitions: seq<TopicPartition>, topics: seq<string>, id: string, topic: string)
    requires Distinct(topics)
    ensures Count(RangeOver(active, partitions, topics), OwnedIn(id, topic))
         == if topic in topics then Load(RangeShare(active, partitions, topic), id) else 0
  {
    if topics != [] {
      var before, last := topics[..|topics| - 1], topics[|topics| - 1];
      LastOfDistinct(topics, topic);
      RangeOverLoad(active, partitions, before, id, topic);
      ShareOfTopic(active, partitions, last);
      var share := RangeShare(active, partitions, last);
      CountConcat(RangeOver(active, partitions, before), share, OwnedIn(id, topic));
      if last == topic {
        CountAlike(share, OwnedIn(id, topic), OwnedBy(id));
      } else {
        CountNone(share, OwnedIn(id, topic));
      }
    }
  }

  /**
   * Range deals every topic evenly: of the n partitions of a topic, the j-th of its m subscribers owns n / m, and one
   * more if j < n % m.
   */
  lemma {:induction false} RangeLoads(active: seq<Member>, partitions: seq<TopicPartition>, topic: string, j: nat)
    requires UniqueMembers(active) && j < |Filter(active, Subscribes(topic))|
    ensures
      var owners := Filter(active, Subscribes(topic));
      Count(RangePlan(active, partitions), OwnedIn(owners[j].id, topic))
      == DealtTo(Count(partitions, OfTopic(topic)), |owners|, j)
  {
    var owners, wanted := Filter(active, Subscribes(topic)), Filter(partitions, OfTopic(topic));
    var topics := Sort(TopicsOf(partitions), StringLe);
    StringOrder();
    SortLeast(TopicsOf(partitions), StringLe);
    SortCorrect(TopicsOf(partitions), StringLe);
    TopicsOfMembers(partitions);
    DistinctPermutation(TopicsOf(partitions), topics);
    RangeOverLoad(active, partitions, topics, owners[j].id, topic);
    SubscribersUnique(active, topic);
    FilterCounts(partitions, OfTopic(topic));
    if topic in topics {
      RangeRowsLoad(owners, Sort(wanted, PartitionLe), j);
    } else {
      CountNone(partitions, OfTopic(topic));
      DivModUnique(0, |owners|, 0, 0);
    }
  }

  lemma {:induction false} FilterCounts<T>(s: seq<T>, p: T -> bool)
    ensures |Filter(s, p)| == Count(s, p)
  {
    if s != [] { FilterCounts(s[..|s| - 1], p); }
  }

  /** So no two subscribers of a topic own numbers of its partitions that differ by more than one. */
  lemma {:induction false} RangeEven(
    active: seq<Member>, partitions: seq<TopicPartition>, topic: string, a: Member, b: Member)
    requires UniqueMembers(active) && a in active && b in active && topic in a.topics && topic in b.topics
    ensures Count(RangePlan(active, partitions), OwnedIn(a.id, topic))
         <= Count(RangePlan(active, partitions), OwnedIn(b.id, topic)) + 1
  {
    var owners := Filter(active, Subscribes(topic));
    FilterMembers(active, Subscribes(topic));
    assert a in owners && b in owners;
    var i :| 0 <= i < |owners| && owners[i] == a;
    var j :| 0 <= j < |owners| && owners[j] == b;
    RangeLoads(active, partitions, topic, i);
    RangeLoads(active, partitions, topic, j);
  }

  // ---- The partitions a group wants ----

  datatype Topic = Topic(name: string, partitions: nat)

  predicate TopicPartitionLe(a: TopicPartition, b: TopicPartition) {
    if a.topic == b.topic then a.partition <= b.partition else StringLe(a.topic, b.topic)
  }

  lemma {:induction false} TopicPartitionOrder()
    ensures TotalOrder(TopicPartitionLe)
  {
    StringOrder();
  }

  function AllOf(topic: Topic): (tps: seq<TopicPartition>)
    ensures |tps| == topic.partitions
  {
    seq(topic.partitions, i requires i >= 0 => TopicPartition(topic.name, i))
  }

  function WantedPartitions(catalog: seq<Topic>, active: seq<Member>): seq<TopicPartition> {
    if catalog == [] then []
    else
      var topic := catalog[|catalog| - 1];
      WantedPartitions(catalog[..|catalog| - 1], active) +
      (if Subscribed(active, topic.name) then AllOf(topic) else [])
  }

  function GroupPartitions(catalog: seq<Topic>, active: seq<Member>): seq<TopicPartition> {
    Sort(WantedPartitions(catalog, active), TopicPartitionLe)
  }

  lemma {:induction false} WantedMembers(catalog: seq<Topic>, active: seq<Member>)
    requires forall i, j :: 0 <= i < j < |catalog| ==> catalog[i].name != catalog[j].name
    ensures Distinct(WantedPartitions(catalog, active))
    ensures forall tp :: tp in WantedPartitions(catalog, active) <==>
              && Subscribed(active, tp.topic)
              && exists t :: t in catalog && t.name == tp.topic && tp.partition < t.partitions
  {
    if catalog != [] {
      var before, topic := catalog[..|catalog| - 1], catalog[|catalog| - 1];
      WantedMembers(before, active);
      assert catalog == before + [topic];
      var old_, more := WantedPartitions(before, active), (if Subscribed(active, topic.name) then AllOf(topic) else []);
      forall tp | tp in more ensures tp !in old_ {
        assert tp.topic == topic.name;
      }
      forall tp
        ensures tp in more
           <==> Subscribed(active, topic.name) && tp.topic == topic.name && tp.partition < topic.partitions
      {
        if Subscribed(active, topic.name) && tp.topic == topic.name && tp.partition < topic.partitions {
          assert more[tp.partition] == tp;
        }
      }
    }
  }

  /**
   * The partitions handed to the assignors are, without repetition, the existing partitions of topics some member
   * subscribes to; so in a valid plan every one of them has an owner.
   */
  lemma {:induction false} GroupPartitionsCorrect(catalog: seq<Topic>, active: seq<Member>)
    requires forall i, j :: 0 <= i < j < |catalog| ==> catalog[i].name != catalog[j].name
    ensures Distinct(GroupPartitions(catalog, active))
    ensures forall tp :: tp in GroupPartitions(catalog, active) <==>
              && Subscribed(active, tp.topic)
              && exists t :: t in catalog && t.name == tp.topic && tp.partition < t.partitions
  {
    var wanted := WantedPartitions(catalog, active);
    WantedMembers(catalog, active);
    TopicPartitionOrder();
    SortCorrect(wanted, TopicPartitionLe);
    DistinctPermutation(wanted, GroupPartitions(catalog, active));
    forall tp ensures tp in GroupPartitions(catalog, active) <==> tp in wanted {
      assert tp in multiset(wanted) <==> tp in multiset(GroupPartitions(catalog, active));
    }
  }
}
