/** The cooperative-sticky assignor: keep what can be kept, place what is missing, then even out the loads. */
module Sticky {
  import opened Basics
  import opened Sorting
  import opened Names

  datatype Member = Member(id: string, topics: seq<string>)
  datatype Row = Row(member: string, topic: string, partition: nat)

  function PartitionOf(r: Row): TopicPartition {
    TopicPartition(r.topic, r.partition)
  }

  /** Rows are ordered by topic, partition and member. */
  predicate RowLe(a: Row, b: Row) {
    if a.topic == b.topic then
      if a.partition == b.partition then StringLe(a.member, b.member) else a.partition < b.partition
    else StringLe(a.topic, b.topic)
  }

  lemma {:induction false} RowOrder()
    ensures TotalOrder(RowLe)
  {
    StringOrder();
  }

  function OwnedBy(id: string): Row -> bool {
    (r: Row) => r.member == id
  }

  /** How many partitions a member holds. */
  function Load(rows: seq<Row>, id: string): nat {
    Count(rows, OwnedBy(id))
  }

  predicate Wants(active: seq<Member>, id: string, topic: string) {
    exists m :: m in active && m.id == id && topic in m.topics
  }

  ghost predicate UniqueMembers(active: seq<Member>) {
    forall i, j :: 0 <= i < j < |active| ==> active[i].id != active[j].id
  }

  function Assigned(rows: seq<Row>): set<TopicPartition> {
    set r | r in rows :: PartitionOf(r)
  }

  lemma {:induction false} AssignedExtend(rows: seq<Row>, r: Row)
    ensures Assigned(rows + [r]) == Assigned(rows) + {PartitionOf(r)}
  {
    assert forall x :: x in rows + [r] <==> x in rows || x == r;
    assert PartitionOf(r) in Assigned(rows + [r]) by { assert r in rows + [r]; }
    forall x | x in rows ensures PartitionOf(x) in Assigned(rows + [r]) { assert x in rows + [r]; }
  }

  // ---- Keeping previous owners ----

  function Retain(previous: seq<Row>, active: seq<Member>, partitions: seq<TopicPartition>): seq<Row> {
    if previous == [] then []
    else
      var kept := Retain(previous[..|previous| - 1], active, partitions);
      var r := previous[|previous| - 1];
      if PartitionOf(r) in Assigned(kept) || PartitionOf(r) !in partitions || !Wants(active, r.member, r.topic)
      then kept
      else kept + [r]
  }

  method RetainedStickyAssignments(previous: seq<Row>, active: seq<Member>, partitions: seq<TopicPartition>)
    returns (kept: seq<Row>)
    ensures kept == Retain(Sort(previous, RowLe), active, partitions)
  {
    var ordered := Sort(previous, RowLe);
    kept := [];
    var seen: set<TopicPartition> := {};
    for i := 0 to |ordered|
      invariant kept == Retain(ordered[..i], active, partitions)
      invariant seen == Assigned(kept)
    {
      assert ordered[..i + 1][..i] == ordered[..i];
      var r := ordered[i];
      if PartitionOf(r) in seen || PartitionOf(r) !in partitions { continue; }
      if !Wants(active, r.member, r.topic) { continue; }
      kept := kept + [r];
      seen := seen + {PartitionOf(r)};
    }
    assert ordered[..|ordered|] == ordered;
  }

  // ---- Placing partitions nobody holds ----

  /** Lighter members first, then by identifier. */
  function LighterFirst(rows: seq<Row>): (Member, Member) -> bool {
    (a: Member, b: Member) =>
      if Load(rows, a.id) == Load(rows, b.id) then StringLe(a.id, b.id) else Load(rows, a.id) < Load(rows, b.id)
  }

  lemma {:induction false} LighterFirstOrder(rows: seq<Row>)
    ensures TotalPreorder(LighterFirst(rows))
  {
    StringOrder();
  }

  function Subscribes(topic: string): Member -> bool {
    (m: Member) => topic in m.topics
  }

  function LeastLoadedEligible(rows: seq<Row>, active: seq<Member>, topic: string): Option<Member> {
    var candidates := Sort(Filter(active, Subscribes(topic)), LighterFirst(rows));
    if candidates == [] then None else Some(candidates[0])
  }

  /**
   * The chosen member subscribes to the topic and no subscriber is lighter; nobody is chosen only if nobody subscribes.
   */
  lemma {:induction false} LeastLoadedIsLeast(rows: seq<Row>, active: seq<Member>, topic: string)
    ensures
      match LeastLoadedEligible(rows, active, topic)
      case None => forall m :: m in active ==> topic !in m.topics
      case Some(w) =>
        && w in active && topic in w.topics
        && forall m :: m in active && topic in m.topics ==> Load(rows, w.id) <= Load(rows, m.id)
  {
    var eligible := Filter(active, Subscribes(topic));
    FilterMembers(active, Subscribes(topic));
    assert forall m :: m in eligible <==> m in active && topic in m.topics;
    LeastFirst(rows, eligible);
  }

  lemma {:induction false} LeastFirst(rows: seq<Row>, eligible: seq<Member>)
    ensures
      var candidates := Sort(eligible, LighterFirst(rows));
      && |candidates| == |eligible|
      && (eligible != [] ==> candidates[0] in eligible)
      && (forall m :: m in eligible ==> Load(rows, candidates[0].id) <= Load(rows, m.id))
  {
    LighterFirstOrder(rows);
    SortLeast(eligible, LighterFirst(rows));
  }

  function Place(rows: seq<Row>, active: seq<Member>, tp: TopicPartition): seq<Row> {
    if tp in Assigned(rows) then rows
    else
      match LeastLoadedEligible(rows, active, tp.topic)
      case None => rows
      case Some(m) => rows + [Row(m.id, tp.topic, tp.partition)]
  }

  type Placer = (seq<Row>, TopicPartition) -> seq<Row>

  /** The rows after placing the partitions one after the other. */
  function PlaceAll(place: Placer, rows: seq<Row>, partitions: seq<TopicPartition>): seq<Row> {
    if partitions == [] then rows
    else place(PlaceAll(place, rows, partitions[..|partitions| - 1]), partitions[|partitions| - 1])
  }

  function PlaceAmong(active: seq<Member>): Placer {
    (rows: seq<Row>, tp: TopicPartition) => Place(rows, active, tp)
  }

  function AssignMissing(rows: seq<Row>, active: seq<Member>, partitions: seq<TopicPartition>): seq<Row> {
    PlaceAll(PlaceAmong(active), rows, partitions)
  }

  method AssignMissingPartitions(kept: seq<Row>, active: seq<Member>, partitions: seq<TopicPartition>)
    returns (rows: seq<Row>)
    ensures rows == AssignMissing(kept, active, partitions)
  {
    rows := kept;
    var taken := Assigned(rows);
    for i := 0 to |partitions|
      invariant rows == AssignMissing(kept, active, partitions[..i])
      invariant taken == Assigned(rows)
    {
      assert partitions[..i + 1][..i] == partitions[..i];
      var tp := partitions[i];
      if tp in taken { continue; }
      var owner := LeastLoadedEligible(rows, active, tp.topic);
      if owner.None? { continue; }
      AssignedExtend(rows, Row(owner.value.id, tp.topic, tp.partition));
      rows := rows + [Row(owner.value.id, tp.topic, tp.partition)];
      taken := taken + {tp};
    }
    assert partitions[..|partitions|] == partitions;
  }

  // ---- Evening out ----

  function Underloaded(rows: seq<Row>, minLoad: nat): Member -> bool {
    (m: Member) => Load(rows, m.id) < minLoad
  }

  datatype Placed = Placed(index: nat, row: Row)

  /** Rows of heavier members first, then later rows first. */
  function HeavierFirst(rows: seq<Row>): (Placed, Placed) -> bool {
    (a: Placed, b: Placed) =>
      if Load(rows, a.row.member) == Load(rows, b.row.member) then RowLe(b.row, a.row)
      else Load(rows, a.row.member) > Load(rows, b.row.member)
  }

  lemma {:induction false} HeavierFirstOrder(rows: seq<Row>)
    ensures TotalPreorder(HeavierFirst(rows))
  {
    RowOrder();
  }

  /** A row may move to the target: another member above maxLoad holds it, and the target subscribes to its topic. */
  predicate Movable(rows: seq<Row>, target: Member, maxLoad: nat, r: Row) {
    r.member != target.id && Load(rows, r.member) > maxLoad && r.topic in target.topics
  }

  function MovableRows(rows: seq<Row>, upTo: nat, target: Member, maxLoad: nat): seq<Placed>
    requires upTo <= |rows|
  {
    if upTo == 0 then []
    else MovableRows(rows, upTo - 1, target, maxLoad) +
         (if Movable(rows, target, maxLoad, rows[upTo - 1]) then [Placed(upTo - 1, rows[upTo - 1])] else [])
  }

  function MovableIndex(rows: seq<Row>, target: Member, maxLoad: nat): Option<nat> {
    var candidates := Sort(MovableRows(rows, |rows|, target, maxLoad), HeavierFirst(rows));
    if candidates == [] then None else Some(candidates[0].index)
  }

  lemma {:induction false} MovableRowsMembers(rows: seq<Row>, upTo: nat, target: Member, maxLoad: nat)
    requires upTo <= |rows|
    ensures forall c :: c in MovableRows(rows, upTo, target, maxLoad) <==>
                        c.index < upTo && c.row == rows[c.index] && Movable(rows, target, maxLoad, c.row)
  {
    if upTo > 0 { MovableRowsMembers(rows, upTo - 1, target, maxLoad); }
  }

  /** An index is offered exactly when some row may move, and that row may move. */
  lemma {:induction false} MovableIndexCorrect(rows: seq<Row>, target: Member, maxLoad: nat)
    ensures
      match MovableIndex(rows, target, maxLoad)
      case None => forall r :: r in rows ==> !Movable(rows, target, maxLoad, r)
      case Some(i) => i < |rows| && Movable(rows, target, maxLoad, rows[i])
  {
    var all := MovableRows(rows, |rows|, target, maxLoad);
    var candidates := Sort(all, HeavierFirst(rows));
    HeavierFirstOrder(rows);
    SortCorrect(all, HeavierFirst(rows));
    MovableRowsMembers(rows, |rows|, target, maxLoad);
    if candidates == [] {
      assert all == [];
      forall r | r in rows ensures !Movable(rows, target, maxLoad, r) {
        var i :| 0 <= i < |rows| && rows[i] == r;
        assert Placed(i, r) !in all;
      }
    } else {
      assert candidates[0] in multiset(candidates);
      assert candidates[0] in all;
    }
  }

  /** The first target, in order, that some row may move to; and that row's index. */
  function FirstMove(rows: seq<Row>, targets: seq<Member>, maxLoad: nat): Option<(nat, Member)> {
    if targets == [] then None
    else
      match MovableIndex(rows, targets[0], maxLoad)
      case None => FirstMove(rows, targets[1..], maxLoad)
      case Some(i) => Some((i, targets[0]))
  }

  function Targets(rows: seq<Row>, active: seq<Member>, minLoad: nat): seq<Member> {
    Sort(Filter(active, Underloaded(rows, minLoad)), LighterFirst(rows))
  }

  function NextMove(rows: seq<Row>, active: seq<Member>, minLoad: nat, maxLoad: nat): Option<(nat, Member)> {
    FirstMove(rows, Targets(rows, active, minLoad), maxLoad)
  }

  lemma {:induction false} FirstMoveCorrect(rows: seq<Row>, targets: seq<Member>, maxLoad: nat)
    ensures
      match FirstMove(rows, targets, maxLoad)
      case None => forall m, r :: m in targets && r in rows ==> !Movable(rows, m, maxLoad, r)
      case Some(mv) => mv.0 < |rows| && mv.1 in targets && Movable(rows, mv.1, maxLoad, rows[mv.0])
  {
    if targets != [] {
      MovableIndexCorrect(rows, targets[0], maxLoad);
      FirstMoveCorrect(rows, targets[1..], maxLoad);
    }
  }

  lemma {:induction false} TargetsMembers(rows: seq<Row>, active: seq<Member>, minLoad: nat)
    ensures forall m :: m in Targets(rows, active, minLoad) <==> m in active && Load(rows, m.id) < minLoad
  {
    var under := Filter(active, Underloaded(rows, minLoad));
    LighterFirstOrder(rows);
    SortCorrect(under, LighterFirst(rows));
    FilterMembers(active, Underloaded(rows, minLoad));
    forall m ensures m in Targets(rows, active, minLoad) <==> m in under {
      assert m in multiset(Targets(rows, active, minLoad)) <==> m in multiset(under);
    }
  }

  /**
   * A move takes a row from a member above maxLoad to a subscribed member below minLoad, and there is no move only
   * when no member below minLoad subscribes to a topic held by a member above maxLoad.
   */
  lemma {:induction false} NextMoveCorrect(rows: seq<Row>, active: seq<Member>, minLoad: nat, maxLoad: nat)
    requires minLoad <= maxLoad
    ensures
      match NextMove(rows, active, minLoad, maxLoad)
      case None => Stuck(rows, active, minLoad, maxLoad)
      case Some(mv) =>
        && mv.0 < |rows| && mv.1 in active
        && Load(rows, mv.1.id) < minLoad
        && Movable(rows, mv.1, maxLoad, rows[mv.0])
    ensures NextMove(rows, active, minLoad, maxLoad).None? <==> Stuck(rows, active, minLoad, maxLoad)
  {
    TargetsMembers(rows, active, minLoad);
    FirstMoveCorrect(rows, Targets(rows, active, minLoad), maxLoad);
    var mv := NextMove(rows, active, minLoad, maxLoad);
    if mv.Some? {
      assert rows[mv.value.0] in rows;
    }
  }

  ghost predicate Stuck(rows: seq<Row>, active: seq<Member>, minLoad: nat, maxLoad: nat) {
    forall m, r :: m in active && r in rows && Load(rows, m.id) < minLoad && Load(rows, r.member) > maxLoad
                   ==> r.topic !in m.topics
  }

  function Shift(rows: seq<Row>, i: nat, to: Member): seq<Row>
    requires i < |rows|
  {
    rows[i := Row(to.id, rows[i].topic, rows[i].partition)]
  }

  lemma {:induction false} ShiftLoads(rows: seq<Row>, i: nat, to: Member, id: string)
    requires i < |rows| && rows[i].member != to.id
    ensures Load(Shift(rows, i, to), id)
         == Load(rows, id) - (if id == rows[i].member then 1 else 0) + (if id == to.id then 1 else 0)
  {
    CountUpdate(rows, i, Row(to.id, rows[i].topic, rows[i].partition), OwnedBy(id));
  }

  // ---- Measures of imbalance ----

  function Sum(active: seq<Member>, f: string -> int): int {
    if active == [] then 0 else Sum(active[..|active| - 1], f) + f(active[|active| - 1].id)
  }

  lemma {:induction false} SumAgrees(active: seq<Member>, f: string -> int, g: string -> int)
    requires forall m :: m in active ==> f(m.id) == g(m.id)
    ensures Sum(active, f) == Sum(active, g)
  {
    if active != [] { SumAgrees(active[..|active| - 1], f, g); }
  }

  lemma {:induction false} SumDiffersAt(active: seq<Member>, f: string -> int, g: string -> int, k: nat)
    requires k < |active| && UniqueMembers(active)
    requires forall m :: m in active && m.id != active[k].id ==> f(m.id) == g(m.id)
    ensures Sum(active, f) - Sum(active, g) == f(active[k].id) - g(active[k].id)
  {
    var n := |active| - 1;
    if k == n {
      SumAgrees(active[..n], f, g);
    } else {
      assert active[..n][k] == active[k];
      SumDiffersAt(active[..n], f, g, k);
      assert active[n].id != active[k].id;
    }
  }

  function Below(rows: seq<Row>, minLoad: nat): string -> int {
    (id: string) => Max(minLoad - Load(rows, id), 0)
  }

  function Above(rows: seq<Row>, maxLoad: nat): string -> int {
    (id: string) => Max(Load(rows, id) - maxLoad, 0)
  }

  /** How many partitions the members below minLoad lack, in total. */
  function Shortfall(rows: seq<Row>, active: seq<Member>, minLoad: nat): int {
    Sum(active, Below(rows, minLoad))
  }

  /** How many partitions the members above maxLoad hold too many, in total. */
  function Surplus(rows: seq<Row>, active: seq<Member>, maxLoad: nat): int {
    Sum(active, Above(rows, maxLoad))
  }

  lemma {:induction false} SumNonNegative(active: seq<Member>, f: string -> int)
    requires forall id :: f(id) >= 0
    ensures Sum(active, f) >= 0
    ensures Sum(active, f) == 0 <==> forall m :: m in active ==> f(m.id) == 0
  {
    if active != [] {
      SumNonNegative(active[..|active| - 1], f);
      assert active == active[..|active| - 1] + [active[|active| - 1]];
    }
  }

  lemma {:induction false} MeasuresNonNegative(rows: seq<Row>, active: seq<Member>, minLoad: nat, maxLoad: nat)
    ensures Shortfall(rows, active, minLoad) >= 0 && Surplus(rows, active, maxLoad) >= 0
    ensures Shortfall(rows, active, minLoad) == 0 <==> forall m :: m in active ==> Load(rows, m.id) >= minLoad
    ensures Surplus(rows, active, maxLoad) == 0 <==> forall m :: m in active ==> Load(rows, m.id) <= maxLoad
  {
    SumNonNegative(active, Below(rows, minLoad));
    SumNonNegative(active, Above(rows, maxLoad));
    forall m | m in active
      ensures Below(rows, minLoad)(m.id) == 0 <==> Load(rows, m.id) >= minLoad
      ensures Above(rows, maxLoad)(m.id) == 0 <==> Load(rows, m.id) <= maxLoad
    {
    }
  }

  /** The members of the rows are active members subscribed to the rows' topics. */
  ghost predicate OwnersSubscribed(rows: seq<Row>, active: seq<Member>) {
    forall r :: r in rows ==> Wants(active, r.member, r.topic)
  }

  /** Every move lowers the shortfall by exactly one. */
  lemma {:induction false} MoveLowersShortfall(
    rows: seq<Row>, active: seq<Member>, minLoad: nat, maxLoad: nat, i: nat, to: Member)
    requires minLoad <= maxLoad && UniqueMembers(active)
    requires i < |rows| && to in active && Load(rows, to.id) < minLoad && Movable(rows, to, maxLoad, rows[i])
    ensures Shortfall(Shift(rows, i, to), active, minLoad) == Shortfall(rows, active, minLoad) - 1
  {
    var next := Shift(rows, i, to);
    var k :| 0 <= k < |active| && active[k] == to;
    forall m | m in active
      ensures Load(next, m.id)
           == Load(rows, m.id) - (if m.id == rows[i].member then 1 else 0) + (if m.id == to.id then 1 else 0)
    {
      ShiftLoads(rows, i, to, m.id);
    }
    SumDiffersAt(active, Below(next, minLoad), Below(rows, minLoad), k);
  }

  /** Every move lowers the surplus by exactly one. */
  lemma {:induction false} MoveLowersSurplus(
    rows: seq<Row>, active: seq<Member>, minLoad: nat, maxLoad: nat, i: nat, to: Member)
    requires minLoad <= maxLoad && UniqueMembers(active) && OwnersSubscribed(rows, active)
    requires i < |rows| && to in active && Load(rows, to.id) < minLoad && Movable(rows, to, maxLoad, rows[i])
    ensures Surplus(Shift(rows, i, to), active, maxLoad) == Surplus(rows, active, maxLoad) - 1
  {
    var next := Shift(rows, i, to);
    assert rows[i] in rows;
    var from :| from in active && from.id == rows[i].member;
    var k :| 0 <= k < |active| && active[k] == from;
    forall m | m in active
      ensures Above(next, maxLoad)(m.id) == Above(rows, maxLoad)(m.id) - (if m.id == from.id then 1 else 0)
    {
      AboveAfterShift(rows, i, to, maxLoad, m.id);
    }
    SumDiffersAt(active, Above(next, maxLoad), Above(rows, maxLoad), k);
  }

  lemma {:induction false} AboveAfterShift(rows: seq<Row>, i: nat, to: Member, maxLoad: nat, id: string)
    requires i < |rows| && Load(rows, to.id) < maxLoad < Load(rows, rows[i].member)
    ensures Above(Shift(rows, i, to), maxLoad)(id) == Above(rows, maxLoad)(id) - (if id == rows[i].member then 1 else 0)
  {
    ShiftLoads(rows, i, to, id);
  }
}
