/** The sticky balance loop: termination, how many moves it makes, and what it leaves behind. */
module StickyBalance {
  import opened Basics
  import opened Sorting
  import opened Sticky

  // ---- The loop ----

  function Balance(rows: seq<Row>, active: seq<Member>, minLoad: nat, maxLoad: nat): (r: seq<Row>)
    requires minLoad <= maxLoad && UniqueMembers(active)
    decreases Shortfall(rows, active, minLoad)
  {
    NextMoveCorrect(rows, active, minLoad, maxLoad);
    match NextMove(rows, active, minLoad, maxLoad)
    case None => rows
    case Some(mv) =>
      MoveLowersShortfall(rows, active, minLoad, maxLoad, mv.0, mv.1);
      MeasuresNonNegative(Shift(rows, mv.0, mv.1), active, minLoad, maxLoad);
      Balance(Shift(rows, mv.0, mv.1), active, minLoad, maxLoad)
  }

  function MinLoad(rows: seq<Row>, active: seq<Member>): nat
    requires active != []
  {
    |rows| / |active|
  }

  function MaxLoad(rows: seq<Row>, active: seq<Member>): (m: nat)
    requires active != []
    ensures MinLoad(rows, active) <= m <= MinLoad(rows, active) + 1
  {
    if |rows| % |active| != 0 then MinLoad(rows, active) + 1 else MinLoad(rows, active)
  }

  function BalanceSticky(rows: seq<Row>, active: seq<Member>): seq<Row>
    requires UniqueMembers(active)
  {
    if rows == [] || active == [] then rows
    else Balance(rows, active, MinLoad(rows, active), MaxLoad(rows, active))
  }

  method BalanceStickyAssignments(start: seq<Row>, active: seq<Member>) returns (rows: seq<Row>)
    requires UniqueMembers(active)
    ensures rows == BalanceSticky(start, active)
  {
    rows := start;
    if rows == [] || active == [] { return; }
    var minLoad := |rows| / |active|;
    var maxLoad := minLoad;
    if |rows| % |active| != 0 { maxLoad := maxLoad + 1; }
    while true
      invariant Balance(rows, active, minLoad, maxLoad) == Balance(start, active, minLoad, maxLoad)
      decreases Shortfall(rows, active, minLoad)
    {
      NextMoveCorrect(rows, active, minLoad, maxLoad);
      var move := NextMove(rows, active, minLoad, maxLoad);
      if move.None? { return; }
      MoveLowersShortfall(rows, active, minLoad, maxLoad, move.value.0, move.value.1);
      MeasuresNonNegative(Shift(rows, move.value.0, move.value.1), active, minLoad, maxLoad);
      rows := Shift(rows, move.value.0, move.value.1);
    }
  }

  /** The indexes of the rows the loop moves, in order. */
  ghost function Moves(rows: seq<Row>, active: seq<Member>, minLoad: nat, maxLoad: nat): seq<nat>
    requires minLoad <= maxLoad && UniqueMembers(active)
    decreases Shortfall(rows, active, minLoad)
  {
    NextMoveCorrect(rows, active, minLoad, maxLoad);
    match NextMove(rows, active, minLoad, maxLoad)
    case None => []
    case Some(mv) =>
      MoveLowersShortfall(rows, active, minLoad, maxLoad, mv.0, mv.1);
      MeasuresNonNegative(Shift(rows, mv.0, mv.1), active, minLoad, maxLoad);
      [mv.0] + Moves(Shift(rows, mv.0, mv.1), active, minLoad, maxLoad)
  }

  /** Induction over the loop, one move at a time. */
  lemma {:induction false} Unroll(rows: seq<Row>, active: seq<Member>, minLoad: nat, maxLoad: nat)
    requires minLoad <= maxLoad && UniqueMembers(active)
    ensures
      match NextMove(rows, active, minLoad, maxLoad)
      case None =>
        && Stuck(rows, active, minLoad, maxLoad)
        && Balance(rows, active, minLoad, maxLoad) == rows
        && Moves(rows, active, minLoad, maxLoad) == []
      case Some(mv) =>
        && mv.0 < |rows| && mv.1 in active && Load(rows, mv.1.id) < minLoad && Movable(rows, mv.1, maxLoad, rows[mv.0])
        && Shortfall(Shift(rows, mv.0, mv.1), active, minLoad) == Shortfall(rows, active, minLoad) - 1
        && Shortfall(rows, active, minLoad) >= 1
        && Balance(rows, active, minLoad, maxLoad) == Balance(Shift(rows, mv.0, mv.1), active, minLoad, maxLoad)
        && Moves(rows, active, minLoad, maxLoad) == [mv.0] + Moves(Shift(rows, mv.0, mv.1), active, minLoad, maxLoad)
  {
    NextMoveCorrect(rows, active, minLoad, maxLoad);
    var move := NextMove(rows, active, minLoad, maxLoad);
    if move.Some? {
      MoveLowersShortfall(rows, active, minLoad, maxLoad, move.value.0, move.value.1);
      MeasuresNonNegative(Shift(rows, move.value.0, move.value.1), active, minLoad, maxLoad);
    }
  }

  /** The loop stops only when no member below minLoad subscribes to a topic held by a member above maxLoad. */
  lemma {:induction false} BalanceEndsStuck(rows: seq<Row>, active: seq<Member>, minLoad: nat, maxLoad: nat)
    requires minLoad <= maxLoad && UniqueMembers(active)
    ensures Stuck(Balance(rows, active, minLoad, maxLoad), active, minLoad, maxLoad)
    decreases Shortfall(rows, active, minLoad)
  {
    Unroll(rows, active, minLoad, maxLoad);
    var move := NextMove(rows, active, minLoad, maxLoad);
    if move.Some? {
      BalanceEndsStuck(Shift(rows, move.value.0, move.value.1), active, minLoad, maxLoad);
    }
  }

  lemma {:induction false} BalanceKeepsPartitions(rows: seq<Row>, active: seq<Member>, minLoad: nat, maxLoad: nat)
    requires minLoad <= maxLoad && UniqueMembers(active)
    ensures
      var final := Balance(rows, active, minLoad, maxLoad);
      |final| == |rows| && forall i :: 0 <= i < |rows| ==> PartitionOf(final[i]) == PartitionOf(rows[i])
    decreases Shortfall(rows, active, minLoad)
  {
    Unroll(rows, active, minLoad, maxLoad);
    var move := NextMove(rows, active, minLoad, maxLoad);
    if move.Some? {
      var next := Shift(rows, move.value.0, move.value.1);
      BalanceKeepsPartitions(next, active, minLoad, maxLoad);
      assert forall j :: 0 <= j < |rows| ==> PartitionOf(next[j]) == PartitionOf(rows[j]);
    }
  }

  lemma {:induction false} BalanceKeepsSubscribed(rows: seq<Row>, active: seq<Member>, minLoad: nat, maxLoad: nat)
    requires minLoad <= maxLoad && UniqueMembers(active) && OwnersSubscribed(rows, active)
    ensures OwnersSubscribed(Balance(rows, active, minLoad, maxLoad), active)
    decreases Shortfall(rows, active, minLoad)
  {
    Unroll(rows, active, minLoad, maxLoad);
    var move := NextMove(rows, active, minLoad, maxLoad);
    if move.Some? {
      ShiftKeepsSubscribed(rows, active, move.value.0, move.value.1);
      BalanceKeepsSubscribed(Shift(rows, move.value.0, move.value.1), active, minLoad, maxLoad);
    }
  }

  /** Only owners change: the loop moves no row, adds none, drops none, and every owner stays subscribed. */
  lemma {:induction false} BalanceKeepsRows(rows: seq<Row>, active: seq<Member>, minLoad: nat, maxLoad: nat)
    requires minLoad <= maxLoad && UniqueMembers(active)
    ensures
      var final := Balance(rows, active, minLoad, maxLoad);
      && |final| == |rows|
      && (forall i :: 0 <= i < |rows| ==> PartitionOf(final[i]) == PartitionOf(rows[i]))
      && (OwnersSubscribed(rows, active) ==> OwnersSubscribed(final, active))
  {
    BalanceKeepsPartitions(rows, active, minLoad, maxLoad);
    if OwnersSubscribed(rows, active) {
      BalanceKeepsSubscribed(rows, active, minLoad, maxLoad);
    }
  }

  lemma {:induction false} ShiftKeepsSubscribed(rows: seq<Row>, active: seq<Member>, i: nat, to: Member)
    requires OwnersSubscribed(rows, active)
    requires i < |rows| && to in active && rows[i].topic in to.topics
    ensures OwnersSubscribed(Shift(rows, i, to), active)
  {
    var next := Shift(rows, i, to);
    forall r | r in next ensures Wants(active, r.member, r.topic) {
      var j :| 0 <= j < |next| && next[j] == r;
      if j != i { assert rows[j] in rows; }
    }
  }

  // ---- No partition moves twice ----

  lemma {:induction false} SettledRowsStay(rows: seq<Row>, active: seq<Member>, minLoad: nat, maxLoad: nat, i: nat)
    requires minLoad <= maxLoad && UniqueMembers(active)
    requires i < |rows| && Load(rows, rows[i].member) <= maxLoad
    ensures i !in Moves(rows, active, minLoad, maxLoad)
    ensures |Balance(rows, active, minLoad, maxLoad)| == |rows|
    ensures Balance(rows, active, minLoad, maxLoad)[i] == rows[i]
    decreases Shortfall(rows, active, minLoad)
  {
    Unroll(rows, active, minLoad, maxLoad);
    var move := NextMove(rows, active, minLoad, maxLoad);
    if move.Some? {
      ShiftLoads(rows, move.value.0, move.value.1, rows[i].member);
      SettledRowsStay(Shift(rows, move.value.0, move.value.1), active, minLoad, maxLoad, i);
    }
  }

  lemma {:induction false} ConsDistinct(i: nat, rest: seq<nat>)
    requires i !in rest && Distinct(rest)
    ensures Distinct([i] + rest)
  {
    var all := [i] + rest;
    forall a, b | 0 <= a < b < |all| ensures all[a] != all[b] {
      assert all[b] == rest[b - 1];
    }
  }

  /** The loop never moves a partition twice. */
  lemma {:induction false} MovesAreDistinct(rows: seq<Row>, active: seq<Member>, minLoad: nat, maxLoad: nat)
    requires minLoad <= maxLoad && UniqueMembers(active)
    ensures Distinct(Moves(rows, active, minLoad, maxLoad))
    decreases Shortfall(rows, active, minLoad)
  {
    Unroll(rows, active, minLoad, maxLoad);
    var move := NextMove(rows, active, minLoad, maxLoad);
    if move.Some? {
      var (i, to) := move.value;
      MovesAreDistinct(Shift(rows, i, to), active, minLoad, maxLoad);
      ShiftLoads(rows, i, to, to.id);
      SettledRowsStay(Shift(rows, i, to), active, minLoad, maxLoad, i);
      ConsDistinct(i, Moves(Shift(rows, i, to), active, minLoad, maxLoad));
    }
  }

  /** The partitions the loop moves are exactly those whose owner changed. */
  lemma {:induction false} MovedExactlyWhenOwnerChanged(
    rows: seq<Row>, active: seq<Member>, minLoad: nat, maxLoad: nat, j: nat)
    requires minLoad <= maxLoad && UniqueMembers(active) && j < |rows|
    ensures |Balance(rows, active, minLoad, maxLoad)| == |rows|
    ensures j in Moves(rows, active, minLoad, maxLoad)
       <==> Balance(rows, active, minLoad, maxLoad)[j].member != rows[j].member
    decreases Shortfall(rows, active, minLoad)
  {
    Unroll(rows, active, minLoad, maxLoad);
    var move := NextMove(rows, active, minLoad, maxLoad);
    if move.Some? {
      var (i, to) := move.value;
      if i == j {
        ShiftLoads(rows, i, to, to.id);
        SettledRowsStay(Shift(rows, i, to), active, minLoad, maxLoad, i);
      } else {
        MovedExactlyWhenOwnerChanged(Shift(rows, i, to), active, minLoad, maxLoad, j);
      }
    }
  }

  // ---- How far the loop gets ----

  /** Every move takes one off the shortfall and one off the surplus. */
  lemma {:induction false} MovesSpendBoth(rows: seq<Row>, active: seq<Member>, minLoad: nat, maxLoad: nat)
    requires minLoad <= maxLoad && UniqueMembers(active) && OwnersSubscribed(rows, active)
    ensures
      var moves, final := |Moves(rows, active, minLoad, maxLoad)|, Balance(rows, active, minLoad, maxLoad);
      && Shortfall(final, active, minLoad) == Shortfall(rows, active, minLoad) - moves
      && Surplus(final, active, maxLoad) == Surplus(rows, active, maxLoad) - moves
    decreases Shortfall(rows, active, minLoad)
  {
    Unroll(rows, active, minLoad, maxLoad);
    var move := NextMove(rows, active, minLoad, maxLoad);
    if move.Some? {
      var (i, to) := move.value;
      MoveLowersSurplus(rows, active, minLoad, maxLoad, i, to);
      ShiftKeepsSubscribed(rows, active, i, to);
      MovesSpendBoth(Shift(rows, i, to), active, minLoad, maxLoad);
    }
  }

  /** Every member subscribes to every topic that is assigned. */
  ghost predicate UniformSubscriptions(rows: seq<Row>, active: seq<Member>) {
    forall m, r :: m in active && r in rows ==> r.topic in m.topics
  }

  lemma {:induction false} OwnedRow(rows: seq<Row>, id: string)
    requires Load(rows, id) > 0
    ensures exists r :: r in rows && r.member == id
  {
    var n := |rows| - 1;
    if rows[n].member == id {
      assert rows[n] in rows;
    } else {
      OwnedRow(rows[..n], id);
      var r :| r in rows[..n] && r.member == id;
      assert r in rows;
    }
  }

  /** With uniform subscriptions a stuck state has no member below minLoad or none above maxLoad. */
  lemma {:induction false} StuckUniform(rows: seq<Row>, active: seq<Member>, minLoad: nat, maxLoad: nat)
    requires Stuck(rows, active, minLoad, maxLoad) && UniformSubscriptions(rows, active)
    ensures Shortfall(rows, active, minLoad) == 0 || Surplus(rows, active, maxLoad) == 0
  {
    MeasuresNonNegative(rows, active, minLoad, maxLoad);
    if low :| low in active && Load(rows, low.id) < minLoad {
      forall high | high in active ensures Load(rows, high.id) <= maxLoad {
        if Load(rows, high.id) > maxLoad {
          OwnedRow(rows, high.id);
        }
      }
    }
  }

  lemma {:induction false} BalanceKeepsUniform(rows: seq<Row>, active: seq<Member>, minLoad: nat, maxLoad: nat)
    requires minLoad <= maxLoad && UniqueMembers(active) && UniformSubscriptions(rows, active)
    ensures UniformSubscriptions(Balance(rows, active, minLoad, maxLoad), active)
  {
    BalanceKeepsRows(rows, active, minLoad, maxLoad);
    var final := Balance(rows, active, minLoad, maxLoad);
    forall m, r | m in active && r in final ensures r.topic in m.topics {
      var i :| 0 <= i < |final| && final[i] == r;
      assert PartitionOf(final[i]) == PartitionOf(rows[i]);
      assert rows[i] in rows;
    }
  }

  /** All loads lie between minLoad and maxLoad. */
  ghost predicate Even(rows: seq<Row>, active: seq<Member>, minLoad: nat, maxLoad: nat) {
    forall m :: m in active ==> minLoad <= Load(rows, m.id) <= maxLoad
  }

  /**
   * With uniform subscriptions the loop makes exactly min(shortfall, surplus) moves, and it evens out the loads if
   * and only if the shortfall it starts from equals the surplus it starts from.
   */
  lemma {:induction false} EvenExactlyWhen(rows: seq<Row>, active: seq<Member>, minLoad: nat, maxLoad: nat)
    requires minLoad <= maxLoad && UniqueMembers(active)
    requires OwnersSubscribed(rows, active) && UniformSubscriptions(rows, active)
    ensures
      var shortfall, surplus := Shortfall(rows, active, minLoad), Surplus(rows, active, maxLoad);
      && |Moves(rows, active, minLoad, maxLoad)| == Min(shortfall, surplus)
      && (Even(Balance(rows, active, minLoad, maxLoad), active, minLoad, maxLoad) <==> shortfall == surplus)
  {
    var final := Balance(rows, active, minLoad, maxLoad);
    MovesSpendBoth(rows, active, minLoad, maxLoad);
    BalanceEndsStuck(rows, active, minLoad, maxLoad);
    BalanceKeepsUniform(rows, active, minLoad, maxLoad);
    StuckUniform(final, active, minLoad, maxLoad);
    MeasuresNonNegative(final, active, minLoad, maxLoad);
  }

  lemma {:induction false} LoadsAddUp(rows: seq<Row>, active: seq<Member>)
    requires UniqueMembers(active) && OwnersSubscribed(rows, active)
    ensures Sum(active, (id: string) => Load(rows, id)) == |rows|
  {
    var f := (id: string) => Load(rows, id);
    if rows == [] {
      SumNonNegative(active, f);
    } else {
      var before, r := rows[..|rows| - 1], rows[|rows| - 1];
      assert forall x :: x in before ==> x in rows;
      LoadsAddUp(before, active);
      assert r in rows;
      var m :| m in active && m.id == r.member;
      var k :| 0 <= k < |active| && active[k] == m;
      SumDiffersAt(active, f, (id: string) => Load(before, id), k);
    }
  }

  lemma {:induction false} SumOfDifferences(rows: seq<Row>, active: seq<Member>, q: nat)
    ensures Shortfall(rows, active, q) - Surplus(rows, active, q)
         == q * |active| - Sum(active, (id: string) => Load(rows, id))
  {
    if active != [] {
      SumOfDifferences(rows, active[..|active| - 1], q);
      assert q * |active| == q * (|active| - 1) + q;
    }
  }

  /** When the partitions divide evenly among members with uniform subscriptions, all loads end equal. */
  lemma {:induction false} DivisibleEndsEqual(rows: seq<Row>, active: seq<Member>)
    requires UniqueMembers(active) && active != [] && |rows| % |active| == 0
    requires OwnersSubscribed(rows, active) && UniformSubscriptions(rows, active)
    ensures forall m :: m in active ==> Load(BalanceSticky(rows, active), m.id) == |rows| / |active|
  {
    var q := |rows| / |active|;
    if rows != [] {
      LoadsAddUp(rows, active);
      SumOfDifferences(rows, active, q);
      assert q * |active| == |rows|;
      EvenExactlyWhen(rows, active, q, q);
    }
  }

  lemma {:induction false} StuckStops(rows: seq<Row>, active: seq<Member>, minLoad: nat, maxLoad: nat)
    requires minLoad <= maxLoad && UniqueMembers(active) && Stuck(rows, active, minLoad, maxLoad)
    ensures Balance(rows, active, minLoad, maxLoad) == rows
  {
    NextMoveCorrect(rows, active, minLoad, maxLoad);
    Unroll(rows, active, minLoad, maxLoad);
  }

  /** Without divisibility the loop can stop uneven: with loads 2, 2 and 0 it makes no move. */
  lemma {:induction false} UnevenExample(active: seq<Member>, rows: seq<Row>)
    requires active == [Member("a", ["t"]), Member("b", ["t"]), Member("c", ["t"])]
    requires rows == [Row("a", "t", 0), Row("a", "t", 1), Row("b", "t", 2), Row("b", "t", 3)]
    ensures UniqueMembers(active) && UniformSubscriptions(rows, active)
    ensures BalanceSticky(rows, active) == rows
    ensures Load(rows, "a") == 2 && Load(rows, "b") == 2 && Load(rows, "c") == 0
  {
    assert UniformSubscriptions(rows, active) by {
      assert forall m :: m in active ==> m.topics == ["t"];
    }
    CountThese(rows, "a");
    CountThese(rows, "b");
    CountThese(rows, "c");
    NoneAboveStops(rows, active);
  }

  lemma {:induction false} NoneAboveStops(rows: seq<Row>, active: seq<Member>)
    requires UniqueMembers(active) && active != [] && rows != []
    requires forall r :: r in rows ==> Load(rows, r.member) <= MaxLoad(rows, active)
    ensures BalanceSticky(rows, active) == rows
  {
    StuckStops(rows, active, MinLoad(rows, active), MaxLoad(rows, active));
  }

  lemma {:induction false} CountThese(rows: seq<Row>, id: string)
    requires |rows| == 4
    ensures Load(rows, id) == (if rows[0].member == id then 1 else 0) + (if rows[1].member == id then 1 else 0)
                            + (if rows[2].member == id then 1 else 0) + (if rows[3].member == id then 1 else 0)
  {
    var p := OwnedBy(id);
    assert rows[..3][..2] == rows[..2] && rows[..2][..1] == rows[..1] && rows[..1][..0] == [];
    assert Count(rows[..1], p) == (if p(rows[0]) then 1 else 0);
    assert Count(rows[..2], p) == Count(rows[..1], p) + (if p(rows[1]) then 1 else 0);
    assert Count(rows[..3], p) == Count(rows[..2], p) + (if p(rows[2]) then 1 else 0);
  }
}
