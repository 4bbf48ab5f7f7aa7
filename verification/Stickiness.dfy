/** How sticky a sticky plan is when the group changes: what is retained, what is placed anew, and what still moves. */
module Stickiness {
  import opened Basics
  import opened Sorting
  import opened Sticky
  import opened StickyBalance
  import opened GroupPlans

  // ---- What is retained ----

  /** A partition is retained exactly if some previous row of it could be kept. */
  lemma {:induction false} RetainedPartitions(
    previous: seq<Row>, active: seq<Member>, partitions: seq<TopicPartition>, tp: TopicPartition)
    ensures tp in Assigned(Retain(previous, active, partitions))
       <==> exists r :: r in previous && Candidate(active, partitions)(r) && PartitionOf(r) == tp
  {
    if previous != [] {
      var before, last := previous[..|previous| - 1], previous[|previous| - 1];
      RetainedPartitions(before, active, partitions, tp);
      AssignedExtend(Retain(before, active, partitions), last);
      assert previous == before + [last];
      if Candidate(active, partitions)(last) && PartitionOf(last) == tp { assert last in previous; }
    }
  }

  /** The least of its partition's rows, in the order of rows, that could be kept. */
  ghost predicate LeastCandidate(rows: seq<Row>, active: seq<Member>, partitions: seq<TopicPartition>, r: Row) {
    && r in rows && Candidate(active, partitions)(r)
    && forall x :: x in rows && Candidate(active, partitions)(x) && PartitionOf(x) == PartitionOf(r) ==> RowLe(r, x)
  }

  lemma {:induction false} RetainStep(
    before: seq<Row>, last: Row, active: seq<Member>, partitions: seq<TopicPartition>, r: Row)
    requires forall x :: x in before ==> RowLe(x, last)
    requires r in Retain(before, active, partitions) <==> LeastCandidate(before, active, partitions, r)
    requires last in Retain(before, active, partitions) <==> LeastCandidate(before, active, partitions, last)
    requires forall x :: x in Retain(before, active, partitions) ==> x in before
    ensures r in Retain(before + [last], active, partitions) <==> LeastCandidate(before + [last], active, partitions, r)
  {
    var kept := Retain(before, active, partitions);
    assert (before + [last])[..|before|] == before;
    RowOrder();
    RetainedPartitions(before, active, partitions, PartitionOf(last));
    if Candidate(active, partitions)(last) && PartitionOf(last) in Assigned(kept) {
      var k :| k in kept && PartitionOf(k) == PartitionOf(last);
      assert RowLe(k, last);
      LaterCandidate(before, last, active, partitions, r);
    }
  }

  lemma {:induction false} LaterCandidate(
    before: seq<Row>, last: Row, active: seq<Member>, partitions: seq<TopicPartition>, r: Row)
    requires forall x :: x in before ==> RowLe(x, last)
    requires exists k :: k in before && Candidate(active, partitions)(k) && PartitionOf(k) == PartitionOf(last)
    ensures LeastCandidate(before + [last], active, partitions, r) <==> LeastCandidate(before, active, partitions, r)
  {
    RowOrder();
    var k :| k in before && Candidate(active, partitions)(k) && PartitionOf(k) == PartitionOf(last);
    assert k in before + [last];
  }

  lemma {:induction false} RetainMembers(previous: seq<Row>, active: seq<Member>, partitions: seq<TopicPartition>)
    ensures forall r :: r in Retain(previous, active, partitions) ==> r in previous
  {
    if previous != [] {
      RetainMembers(previous[..|previous| - 1], active, partitions);
      assert previous == previous[..|previous| - 1] + [previous[|previous| - 1]];
    }
  }

  lemma {:induction false} RetainSortedExactly(
    rows: seq<Row>, active: seq<Member>, partitions: seq<TopicPartition>, r: Row)
    requires Sorted(rows, RowLe)
    ensures r in Retain(rows, active, partitions) <==> LeastCandidate(rows, active, partitions, r)
  {
    if rows != [] {
      var before, last := rows[..|rows| - 1], rows[|rows| - 1];
      RetainSortedExactly(before, active, partitions, r);
      RetainSortedExactly(before, active, partitions, last);
      RetainMembers(before, active, partitions);
      forall x | x in before ensures RowLe(x, last) {
        var i :| 0 <= i < |before| && before[i] == x;
        assert RowLe(rows[i], rows[|rows| - 1]);
      }
      assert rows == before + [last];
      RetainStep(before, last, active, partitions, r);
    }
  }

  /**
   * Exactly these previous rows are retained: those of wanted partitions whose owner is an active subscriber, and of
   * several for one partition the least.
   */
  lemma {:induction false} RetainedExactlyWhen(
    previous: seq<Row>, active: seq<Member>, partitions: seq<TopicPartition>, r: Row)
    ensures r in Retain(Sort(previous, RowLe), active, partitions) <==> LeastCandidate(previous, active, partitions, r)
  {
    RowOrder();
    SortCorrect(previous, RowLe);
    SortLeast(previous, RowLe);
    RetainSortedExactly(Sort(previous, RowLe), active, partitions, r);
  }

  // ---- What is placed ----

  /** The k-th row was placed with a subscriber than whom no subscriber had fewer of the rows before it. */
  ghost predicate PlacedWithLeast(rows: seq<Row>, active: seq<Member>, partitions: seq<TopicPartition>, k: nat)
    requires k < |rows|
  {
    && PartitionOf(rows[k]) in partitions && PartitionOf(rows[k]) !in Assigned(rows[..k])
    && Wants(active, rows[k].member, rows[k].topic)
    && forall m :: m in active && rows[k].topic in m.topics ==> Load(rows[..k], rows[k].member) <= Load(rows[..k], m.id)
  }

  lemma {:induction false} PlaceOne(rows: seq<Row>, active: seq<Member>, tp: TopicPartition)
    ensures
      var out := Place(rows, active, tp);
      || out == rows
      || (|out| == |rows| + 1 && out[..|rows|] == rows && PlacedWithLeast(out, active, [tp], |rows|))
  {
    LeastLoadedIsLeast(rows, active, tp.topic);
    var out := Place(rows, active, tp);
    if out != rows { assert out[..|rows|] == rows; }
  }

  /** The rows kept come first, and every row after them was placed with a least loaded subscriber at that moment. */
  lemma {:induction false} PlacedLeast(kept: seq<Row>, active: seq<Member>, partitions: seq<TopicPartition>, k: nat)
    ensures
      var rows := AssignMissing(kept, active, partitions);
      && kept <= rows
      && (|kept| <= k < |rows| ==> PlacedWithLeast(rows, active, partitions, k))
  {
    if partitions != [] {
      var before, tp := partitions[..|partitions| - 1], partitions[|partitions| - 1];
      PlacedLeast(kept, active, before, k);
      var mid, rows := AssignMissing(kept, active, before), AssignMissing(kept, active, partitions);
      PlaceOne(mid, active, tp);
      assert rows == Place(mid, active, tp);
      if |kept| <= k < |rows| { PlacedStays(mid, rows, active, before, tp, partitions, k); }
    }
  }

  lemma {:induction false} PlacedStays(
    mid: seq<Row>, rows: seq<Row>, active: seq<Member>, before: seq<TopicPartition>, tp: TopicPartition,
    partitions: seq<TopicPartition>, k: nat)
    requires partitions == before + [tp] && k < |rows|
    requires k < |mid| ==> PlacedWithLeast(mid, active, before, k)
    requires rows == mid || (|rows| == |mid| + 1 && rows[..|mid|] == mid && PlacedWithLeast(rows, active, [tp], |mid|))
    ensures PlacedWithLeast(rows, active, partitions, k)
  {
    if k < |mid| {
      assert rows[..k] == mid[..k] && rows[k] == mid[k];
    }
  }

  // ---- What moves ----

  /** The rows before balancing: those retained, then those placed. */
  function Placed(previous: seq<Row>, active: seq<Member>, partitions: seq<TopicPartition>): seq<Row> {
    AssignMissing(Retain(Sort(previous, RowLe), active, partitions), active, partitions)
  }

  /** The indexes of the rows that balancing moves. */
  ghost function StickyMoves(previous: seq<Row>, active: seq<Member>, partitions: seq<TopicPartition>): seq<nat>
    requires UniqueMembers(active)
  {
    var rows := Placed(previous, active, partitions);
    if rows == [] || active == [] then [] else Moves(rows, active, MinLoad(rows, active), MaxLoad(rows, active))
  }

  lemma {:induction false} BalancedAt(previous: seq<Row>, active: seq<Member>, partitions: seq<TopicPartition>, i: nat)
    requires UniqueMembers(active) && i < |Placed(previous, active, partitions)|
    ensures
      var rows := Placed(previous, active, partitions);
      var final := BalanceSticky(rows, active);
      && |final| == |rows| && PartitionOf(final[i]) == PartitionOf(rows[i])
      && (i in StickyMoves(previous, active, partitions) <==> final[i] != rows[i])
  {
    var rows := Placed(previous, active, partitions);
    if active != [] {
      var lo, hi := MinLoad(rows, active), MaxLoad(rows, active);
      MovedExactlyWhenOwnerChanged(rows, active, lo, hi, i);
      BalanceKeepsPartitions(rows, active, lo, hi);
    }
  }

  /**
   * A sticky plan is sticky: a row that is retained is in the plan exactly if balancing does not move it, for every
   * change of members and partitions.
   */
  lemma {:induction false} RetainedStaysExactlyWhen(
    previous: seq<Row>, active: seq<Member>, partitions: seq<TopicPartition>, i: nat)
    requires UniqueMembers(active) && i < |Retain(Sort(previous, RowLe), active, partitions)|
    ensures Retain(Sort(previous, RowLe), active, partitions)[i] in StickyPlan(previous, active, partitions)
       <==> i !in StickyMoves(previous, active, partitions)
  {
    var kept, rows := Retain(Sort(previous, RowLe), active, partitions), Placed(previous, active, partitions);
    var final, plan := BalanceSticky(rows, active), StickyPlan(previous, active, partitions);
    PlacedLeast(kept, active, partitions, 0);
    BalancedAt(previous, active, partitions, i);
    RowOrder();
    SortLeast(final, RowLe);
    PlacedValid(Sort(previous, RowLe), active, partitions);
    ValidFacts(rows, active, partitions);
    assert kept[i] == rows[i] && plan == Sort(final, RowLe);
    if kept[i] in final {
      var j :| 0 <= j < |final| && final[j] == kept[i];
      BalancedAt(previous, active, partitions, j);
      OnePerPartition(rows, i, j);
    }
  }

  lemma {:induction false} TwoOwners(rows: seq<Row>, i: nat, j: nat)
    requires i < j < |rows| && PartitionOf(rows[i]) == PartitionOf(rows[j])
    ensures Owners(rows, PartitionOf(rows[i])) >= 2
  {
    var tp := PartitionOf(rows[i]);
    assert rows == rows[..j] + rows[j..];
    CountConcat(rows[..j], rows[j..], ForPartition(tp));
    OwnersPositive(rows[..j], tp);
    OwnersPositive(rows[j..], tp);
    assert rows[..j][i] == rows[i] && rows[j..][0] == rows[j];
  }

  lemma {:induction false} OnePerPartition(rows: seq<Row>, i: nat, j: nat)
    requires i < |rows| && j < |rows| && PartitionOf(rows[i]) == PartitionOf(rows[j])
    requires Owners(rows, PartitionOf(rows[i])) <= 1
    ensures i == j
  {
    if i < j {
      TwoOwners(rows, i, j);
    } else if j < i {
      TwoOwners(rows, j, i);
    }
  }

  // ---- How many owners are kept ----

  /** With one owner per partition, everything that could be kept is retained. */
  lemma {:induction false} RetainIsFilter(previous: seq<Row>, active: seq<Member>, partitions: seq<TopicPartition>)
    requires forall tp :: Owners(previous, tp) <= 1
    ensures Retain(previous, active, partitions) == Filter(previous, Candidate(active, partitions))
  {
    if previous != [] {
      var before, last := previous[..|previous| - 1], previous[|previous| - 1];
      forall tp ensures Owners(before, tp) <= 1 { assert Owners(previous, tp) <= 1; }
      RetainIsFilter(before, active, partitions);
      RetainedPartitions(before, active, partitions, PartitionOf(last));
      OwnersPositive(before, PartitionOf(last));
      assert Owners(previous, PartitionOf(last)) <= 1;
    }
  }

  function Below(k: nat): nat -> bool {
    (i: nat) => i < k
  }

  lemma {:induction false} CountBelowStep(moves: seq<nat>, k: nat)
    requires Distinct(moves)
    ensures Count(moves, Below(k + 1)) == Count(moves, Below(k)) + (if k in moves then 1 else 0)
  {
    if moves != [] {
      var before, last := moves[..|moves| - 1], moves[|moves| - 1];
      CountBelowStep(before, k);
      assert moves == before + [last];
    }
  }

  /** Of the first n elements those count that are below k and not among the moves. */
  lemma {:induction false} CountUnmoved(final: seq<Row>, p: Row -> bool, k: nat, moves: seq<nat>, n: nat)
    requires n <= |final| && Distinct(moves)
    requires forall i: nat :: i < |final| ==> (p(final[i]) <==> i < k && i !in moves)
    ensures Count(final[..n], p) + Count(moves, Below(Min(n, k))) == Min(n, k)
  {
    if n == 0 {
      CountNone(moves, Below(0));
    } else {
      CountUnmoved(final, p, k, moves, n - 1);
      assert final[..n][..n - 1] == final[..n - 1];
      if n <= k { CountBelowStep(moves, n - 1); }
    }
  }

  lemma {:induction false} MovesDistinct(previous: seq<Row>, active: seq<Member>, partitions: seq<TopicPartition>)
    requires UniqueMembers(active)
    ensures Distinct(StickyMoves(previous, active, partitions))
  {
    var rows := Placed(previous, active, partitions);
    if rows != [] && active != [] { MovesAreDistinct(rows, active, MinLoad(rows, active), MaxLoad(rows, active)); }
  }

  lemma {:induction false} OwnerNamed(rows: seq<Row>, tp: TopicPartition)
    requires OwnerOf(rows, tp).Some?
    ensures exists r :: r in rows && PartitionOf(r) == tp && r.member == OwnerOf(rows, tp).value
  {
    var n := |rows| - 1;
    assert rows == rows[..n] + [rows[n]];
    if PartitionOf(rows[n]) != tp { OwnerNamed(rows[..n], tp); }
  }

  /** After balancing, a partition has its previous owner exactly if its row was retained and not moved. */
  lemma {:induction false} HeldExactlyWhen(
    previous: seq<Row>, active: seq<Member>, partitions: seq<TopicPartition>, i: nat)
    requires UniqueMembers(active) && (forall tp :: Owners(previous, tp) <= 1)
    requires i < |Placed(previous, active, partitions)|
    ensures |BalanceSticky(Placed(previous, active, partitions), active)| == |Placed(previous, active, partitions)|
    ensures HeldBefore(previous)(BalanceSticky(Placed(previous, active, partitions), active)[i])
       <==> && i < |Retain(Sort(previous, RowLe), active, partitions)|
            && i !in StickyMoves(previous, active, partitions)
  {
    var kept, rows := Retain(Sort(previous, RowLe), active, partitions), Placed(previous, active, partitions);
    var final := BalanceSticky(rows, active);
    PlacedLeast(kept, active, partitions, 0);
    BalancedAt(previous, active, partitions, i);
    PlacedValid(Sort(previous, RowLe), active, partitions);
    if i < |kept| {
      assert kept[i] == rows[i] && kept[i] in kept;
      RetainedExactlyWhen(previous, active, partitions, kept[i]);
      OnlyOwner(previous, kept[i]);
    } else if HeldBefore(previous)(final[i]) {
      BalanceKeepsValid(rows, active, partitions);
      ValidFacts(final, active, partitions);
      assert final[i] in final;
      OwnerNamed(previous, PartitionOf(final[i]));
      NotRetained(previous, active, partitions, kept, rows, final[i], i);
    }
  }

  lemma {:induction false} NotRetained(
    previous: seq<Row>, active: seq<Member>, partitions: seq<TopicPartition>, kept: seq<Row>, rows: seq<Row>, r: Row,
    i: nat)
    requires kept == Retain(Sort(previous, RowLe), active, partitions) && kept <= rows && |kept| <= i < |rows|
    requires ValidPlan(rows, active, partitions) && PartitionOf(rows[i]) == PartitionOf(r)
    requires Candidate(active, partitions)(r)
    ensures r !in previous
  {
    RowOrder();
    SortLeast(previous, RowLe);
    ValidFacts(rows, active, partitions);
    RetainedPartitions(Sort(previous, RowLe), active, partitions, PartitionOf(r));
    NotAmong(kept, rows, i);
  }

  /** In rows with one owner per partition, the partition of a later row is not among the earlier ones. */
  lemma {:induction false} NotAmong(kept: seq<Row>, rows: seq<Row>, i: nat)
    requires kept <= rows && |kept| <= i < |rows| && forall tp :: Owners(rows, tp) <= 1
    ensures PartitionOf(rows[i]) !in Assigned(kept)
  {
    forall j: nat | j < |kept| ensures PartitionOf(kept[j]) != PartitionOf(rows[i]) {
      if PartitionOf(kept[j]) == PartitionOf(rows[i]) { OnePerPartition(rows, j, i); }
    }
  }

  /**
   * How many partitions stay with their previous owner, exactly: if no partition had two owners, as many as could be
   * kept less those of them that balancing moves; so at least the candidates less the number of moves.
   */
  lemma {:induction false} AppliedExactly(previous: seq<Row>, active: seq<Member>, partitions: seq<TopicPartition>)
    requires UniqueMembers(active) && forall tp :: Owners(previous, tp) <= 1
    ensures
      var applied := Count(StickyPlan(previous, active, partitions), HeldBefore(previous));
      var candidates := Count(previous, Candidate(active, partitions));
      var moves := StickyMoves(previous, active, partitions);
      applied + Count(moves, Below(candidates)) == candidates && applied + |moves| >= candidates
  {
    var kept := Retain(Sort(previous, RowLe), active, partitions);
    var final := BalanceSticky(Placed(previous, active, partitions), active);
    var moves, held := StickyMoves(previous, active, partitions), HeldBefore(previous);
    KeptCount(previous, active, partitions);
    HeldCount(previous, active, partitions);
    RowOrder();
    SortCorrect(final, RowLe);
    CountPermutation(Sort(final, RowLe), final, held);
    CountLength(moves, Below(|kept|));
  }

  lemma {:induction false} HeldCount(previous: seq<Row>, active: seq<Member>, partitions: seq<TopicPartition>)
    requires UniqueMembers(active) && forall tp :: Owners(previous, tp) <= 1
    ensures
      var final := BalanceSticky(Placed(previous, active, partitions), active);
      var kept := |Retain(Sort(previous, RowLe), active, partitions)|;
      Count(final, HeldBefore(previous)) + Count(StickyMoves(previous, active, partitions), Below(kept)) == kept
  {
    var kept, rows := Retain(Sort(previous, RowLe), active, partitions), Placed(previous, active, partitions);
    var final, moves := BalanceSticky(rows, active), StickyMoves(previous, active, partitions);
    PlacedLeast(kept, active, partitions, 0);
    if rows != [] { BalancedAt(previous, active, partitions, 0); }
    forall i: nat | i < |final| ensures HeldBefore(previous)(final[i]) <==> i < |kept| && i !in moves {
      HeldExactlyWhen(previous, active, partitions, i);
    }
    MovesDistinct(previous, active, partitions);
    CountUnmoved(final, HeldBefore(previous), |kept|, moves, |final|);
    assert final[..|final|] == final;
  }

  lemma {:induction false} CountLength<T>(s: seq<T>, p: T -> bool)
    ensures Count(s, p) <= |s|
  {
    if s != [] { CountLength(s[..|s| - 1], p); }
  }

  lemma {:induction false} KeptCount(previous: seq<Row>, active: seq<Member>, partitions: seq<TopicPartition>)
    requires forall tp :: Owners(previous, tp) <= 1
    ensures |Retain(Sort(previous, RowLe), active, partitions)| == Count(previous, Candidate(active, partitions))
  {
    var sorted := Sort(previous, RowLe);
    RowOrder();
    SortCorrect(previous, RowLe);
    forall tp ensures Owners(sorted, tp) <= 1 {
      CountPermutation(sorted, previous, ForPartition(tp));
      assert Owners(previous, tp) <= 1;
    }
    RetainIsFilter(sorted, active, partitions);
    FilterCounts(sorted, Candidate(active, partitions));
    CountPermutation(sorted, previous, Candidate(active, partitions));
  }
}
