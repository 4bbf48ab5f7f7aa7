/** What a rebalance saves, told by the members that are live at the time and the topics there are. */
module Rebalances {
  import opened Basics
  import opened Sorting
  import opened Names
  import opened Sticky
  import opened StickyBalance
  import opened GroupPlans
  import opened Stickiness
  import opened GroupRuns
  import opened Leases

  // ---- The group at the time ----

  ghost predicate DistinctTopics(catalog: seq<Topic>) {
    forall i, j :: 0 <= i < j < |catalog| ==> catalog[i].name != catalog[j].name
  }

  ghost predicate LiveMember(g: Group, now: U64, m: Member) {
    exists x :: x in g.members && !ExpiredAt(x, now) && x.who == m
  }

  /** A live member of this name subscribes to the topic. */
  ghost predicate LiveSubscriber(g: Group, now: U64, id: string, topic: string) {
    exists m :: LiveMember(g, now, m) && m.id == id && topic in m.topics
  }

  /** The partition exists and its topic has a live subscriber. */
  ghost predicate Wanted(g: Group, catalog: seq<Topic>, now: U64, tp: TopicPartition) {
    && (exists t :: t in catalog && t.name == tp.topic && tp.partition < t.partitions)
    && exists m :: LiveMember(g, now, m) && tp.topic in m.topics
  }

  /** Every wanted partition has one owner and no other has any. */
  ghost predicate OneOwnerEach(rows: seq<Row>, g: Group, catalog: seq<Topic>, now: U64) {
    forall tp :: Owners(rows, tp) == (if Wanted(g, catalog, now, tp) then 1 else 0)
  }

  /** The assignment a rebalance saves. */
  function Rebalanced(g: Group, sticky: bool, strategy: Strategy, catalog: seq<Topic>, now: U64): Assignment
    requires UniqueIds(g.members)
  {
    Apply(g, Rebalance(sticky, strategy, catalog, now, NoFault)).assignment.value
  }

  function ActiveAt(g: Group, now: U64): seq<Member> {
    ActiveMembers(Filter(g.members, Remaining(now, NoFault)), now)
  }

  lemma {:induction false} AliveAre(members: seq<GroupMember>, now: U64, x: GroupMember)
    ensures x in Sort(Filter(Filter(members, Remaining(now, NoFault)), NotExpired(now)), IdLe)
       <==> x in members && !ExpiredAt(x, now)
  {
    var kept := Filter(members, Remaining(now, NoFault));
    FilterMembers(members, Remaining(now, NoFault));
    FilterMembers(kept, NotExpired(now));
    StringOrder();
    SortLeast(Filter(kept, NotExpired(now)), IdLe);
  }

  lemma {:induction false} ActiveAre(g: Group, now: U64)
    requires UniqueIds(g.members)
    ensures UniqueMembers(ActiveAt(g, now))
    ensures forall m :: m in ActiveAt(g, now) <==> LiveMember(g, now, m)
  {
    var kept := Filter(g.members, Remaining(now, NoFault));
    FilterKeepsUnique(g.members, Remaining(now, NoFault));
    ActiveMembersUnique(kept, now);
    var sorted, active := Sort(Filter(kept, NotExpired(now)), IdLe), ActiveAt(g, now);
    forall x ensures x in sorted <==> x in g.members && !ExpiredAt(x, now) { AliveAre(g.members, now, x); }
    SubscriptionsOf(sorted);
  }

  lemma {:induction false} SubscriptionsOf(members: seq<GroupMember>)
    ensures forall m :: m in Subscriptions(members) <==> exists x :: x in members && x.who == m
  {
    var all := Subscriptions(members);
    forall x | x in members ensures x.who in all {
      var i :| 0 <= i < |members| && members[i] == x;
      assert all[i] == x.who;
    }
  }

  lemma {:induction false} WantedAre(g: Group, catalog: seq<Topic>, now: U64)
    requires UniqueIds(g.members) && DistinctTopics(catalog)
    ensures
      var active := ActiveAt(g, now);
      var partitions := GroupPartitions(catalog, active);
      && Distinct(partitions)
      && (forall tp :: tp in partitions <==> Wanted(g, catalog, now, tp))
      && forall tp :: tp in partitions ==> Subscribed(active, tp.topic)
  {
    var active := ActiveAt(g, now);
    ActiveAre(g, now);
    GroupPartitionsCorrect(catalog, active);
    forall topic ensures Subscribed(active, topic) <==> exists m :: LiveMember(g, now, m) && topic in m.topics {}
  }

  lemma {:induction false} RowsInOrder(rows: seq<Row>)
    ensures multiset(Sort(rows, RowLe)) == multiset(rows) && Sorted(Sort(rows, RowLe), RowLe)
  {
    RowOrder();
    SortCorrect(rows, RowLe);
  }

  lemma {:induction false} NextRows(previous: Option<Assignment>, rows: seq<Row>, active: seq<Member>, now: U64)
    ensures NextAssignment(previous, rows, active, now).rows == rows
  {
  }

  lemma {:induction false} RebalancedPlan(g: Group, sticky: bool, strategy: Strategy, catalog: seq<Topic>, now: U64)
    requires UniqueIds(g.members) && UniqueMembers(ActiveAt(g, now))
    ensures Rebalanced(g, sticky, strategy, catalog, now)
         == Plan(sticky, strategy, g.assignment, ActiveAt(g, now), catalog, now)
  {
  }

  lemma {:induction false} PlanSorts(
    sticky: bool, strategy: Strategy, previous: Option<Assignment>, active: seq<Member>, catalog: seq<Topic>, now: U64)
    requires UniqueMembers(active)
    ensures Plan(sticky, strategy, previous, active, catalog, now).rows
         == Sort(BuildRows(sticky, strategy, previous, active, catalog), RowLe)
  {
    NextRows(previous, Sort(BuildRows(sticky, strategy, previous, active, catalog), RowLe), active, now);
  }

  /** A rebalance saves the sorted rows of the plan for the live members. */
  lemma {:induction false} RebalancedRows(g: Group, sticky: bool, strategy: Strategy, catalog: seq<Topic>, now: U64)
    returns (built: seq<Row>)
    requires UniqueIds(g.members)
    ensures UniqueMembers(ActiveAt(g, now))
    ensures built == BuildRows(sticky, strategy, g.assignment, ActiveAt(g, now), catalog)
    ensures multiset(Rebalanced(g, sticky, strategy, catalog, now).rows) == multiset(built)
  {
    ActiveAre(g, now);
    built := BuildRows(sticky, strategy, g.assignment, ActiveAt(g, now), catalog);
    RebalancedPlan(g, sticky, strategy, catalog, now);
    PlanSorts(sticky, strategy, g.assignment, ActiveAt(g, now), catalog, now);
    RowsInOrder(built);
  }

  // ---- Every wanted partition has one owner, a subscriber ----

  lemma {:induction false} ValidForGroup(
    rows: seq<Row>, saved: seq<Row>, g: Group, catalog: seq<Topic>, now: U64)
    requires UniqueIds(g.members) && DistinctTopics(catalog) && multiset(saved) == multiset(rows)
    requires ValidPlan(rows, ActiveAt(g, now), GroupPartitions(catalog, ActiveAt(g, now)))
    ensures OneOwnerEach(saved, g, catalog, now)
    ensures forall r :: r in saved ==> LiveSubscriber(g, now, r.member, r.topic)
  {
    ActiveAre(g, now);
    WantedAre(g, catalog, now);
    forall tp ensures Owners(saved, tp) == (if Wanted(g, catalog, now, tp) then 1 else 0) {
      CountPermutation(saved, rows, ForPartition(tp));
    }
    forall r | r in saved ensures LiveSubscriber(g, now, r.member, r.topic) {
      assert r in multiset(saved);
      assert r in rows;
    }
  }

  lemma {:induction false} NobodyWants(g: Group, catalog: seq<Topic>, now: U64)
    requires UniqueIds(g.members) && DistinctTopics(catalog) && ActiveAt(g, now) == []
    ensures ValidPlan([], ActiveAt(g, now), GroupPartitions(catalog, ActiveAt(g, now)))
  {
  }

  /**
   * The saved plan is valid: after a rebalance by range, or a sticky one with an assignment to keep to, every
   * existing partition of a topic some live member names has exactly one owner, no other partition has any, and every
   * owner is a live subscriber.
   */
  lemma {:induction false} SavedPlanValid(g: Group, sticky: bool, strategy: Strategy, catalog: seq<Topic>, now: U64)
    requires UniqueIds(g.members) && DistinctTopics(catalog)
    requires strategy == Range || (sticky && g.assignment.Some?)
    ensures
      var rows := Rebalanced(g, sticky, strategy, catalog, now).rows;
      && OneOwnerEach(rows, g, catalog, now)
      && forall r :: r in rows ==> LiveSubscriber(g, now, r.member, r.topic)
  {
    var built := RebalancedRows(g, sticky, strategy, catalog, now);
    var active := ActiveAt(g, now);
    var partitions := GroupPartitions(catalog, active);
    WantedAre(g, catalog, now);
    if active == [] {
      NobodyWants(g, catalog, now);
    } else if sticky && g.assignment.Some? {
      StickyPlanValid(g.assignment.value.rows, active, partitions);
    } else {
      RangePlanValid(active, partitions);
    }
    ValidForGroup(built, Rebalanced(g, sticky, strategy, catalog, now).rows, g, catalog, now);
  }

  // ---- How even it is ----

  /** By range, without an assignment to keep to, two subscribers of a topic own numbers of it at most one apart. */
  lemma {:induction false} SavedRangeEven(
    g: Group, sticky: bool, catalog: seq<Topic>, now: U64, topic: string, a: Member, b: Member)
    requires UniqueIds(g.members) && !(sticky && g.assignment.Some?)
    requires LiveMember(g, now, a) && LiveMember(g, now, b) && topic in a.topics && topic in b.topics
    ensures
      var rows := Rebalanced(g, sticky, Range, catalog, now).rows;
      Count(rows, OwnedIn(a.id, topic)) <= Count(rows, OwnedIn(b.id, topic)) + 1
  {
    var rows := Rebalanced(g, sticky, Range, catalog, now).rows;
    var built := RebalancedRows(g, sticky, Range, catalog, now);
    var active := ActiveAt(g, now);
    ActiveAre(g, now);
    RangeEven(active, GroupPartitions(catalog, active), topic, a, b);
    CountPermutation(rows, built, OwnedIn(a.id, topic));
    CountPermutation(rows, built, OwnedIn(b.id, topic));
  }

  lemma {:induction false} DealtEvenly(active: seq<Member>, partitions: seq<TopicPartition>, a: Member, b: Member)
    requires UniqueMembers(active) && a in active && b in active
    ensures Load(RoundRobinPlan(active, partitions), a.id) <= Load(RoundRobinPlan(active, partitions), b.id) + 1
  {
    var i :| 0 <= i < |active| && active[i] == a;
    var j :| 0 <= j < |active| && active[j] == b;
    RoundRobinLoads(active, partitions, i);
    RoundRobinLoads(active, partitions, j);
  }

  /** By round robin, without an assignment to keep to, the totals of two live members are at most one apart. */
  lemma {:induction false} SavedRoundRobinEven(
    g: Group, sticky: bool, catalog: seq<Topic>, now: U64, a: Member, b: Member)
    requires UniqueIds(g.members) && !(sticky && g.assignment.Some?)
    requires LiveMember(g, now, a) && LiveMember(g, now, b)
    ensures
      var rows := Rebalanced(g, sticky, RoundRobin, catalog, now).rows;
      Load(rows, a.id) <= Load(rows, b.id) + 1
  {
    var rows := Rebalanced(g, sticky, RoundRobin, catalog, now).rows;
    var built := RebalancedRows(g, sticky, RoundRobin, catalog, now);
    var active := ActiveAt(g, now);
    ActiveAre(g, now);
    DealtEvenly(active, GroupPartitions(catalog, active), a, b);
    CountPermutation(rows, built, OwnedBy(a.id));
    CountPermutation(rows, built, OwnedBy(b.id));
  }

  lemma {:induction false} DealtOnce(active: seq<Member>, partitions: seq<TopicPartition>, tp: TopicPartition)
    requires UniqueMembers(active) && active != [] && Distinct(partitions)
    ensures Owners(RoundRobinPlan(active, partitions), tp) == (if tp in partitions then 1 else 0)
  {
    var rows := RoundRobinPlan(active, partitions);
    forall i: nat | i < |rows| ensures PartitionOf(rows[i]) == partitions[i] { DealtOwners(active, partitions, i); }
    OwnersAsCount(rows, partitions, tp);
    CountOnce(partitions, tp);
  }

  /** Whatever the strategy, every wanted partition has exactly one owner and no other partition has any. */
  lemma {:induction false} SavedOneOwner(g: Group, sticky: bool, strategy: Strategy, catalog: seq<Topic>, now: U64)
    requires UniqueIds(g.members) && DistinctTopics(catalog)
    ensures OneOwnerEach(Rebalanced(g, sticky, strategy, catalog, now).rows, g, catalog, now)
  {
    if strategy == Range || (sticky && g.assignment.Some?) {
      SavedPlanValid(g, sticky, strategy, catalog, now);
    } else {
      var rows := Rebalanced(g, sticky, strategy, catalog, now).rows;
      var built := RebalancedRows(g, sticky, strategy, catalog, now);
      var active := ActiveAt(g, now);
      WantedAre(g, catalog, now);
      forall tp ensures Owners(rows, tp) == (if Wanted(g, catalog, now, tp) then 1 else 0) {
        CountPermutation(rows, built, ForPartition(tp));
        if active != [] { DealtOnce(active, GroupPartitions(catalog, active), tp); }
      }
    }
  }

  // ---- How sticky it is ----

  /** The row's owner is live and still subscribes, and its partition still exists. */
  ghost predicate Keepable(g: Group, catalog: seq<Topic>, now: U64, r: Row) {
    Wanted(g, catalog, now, PartitionOf(r)) && LiveSubscriber(g, now, r.member, r.topic)
  }

  ghost function KeepableAt(g: Group, catalog: seq<Topic>, now: U64): Row -> bool {
    (r: Row) => Keepable(g, catalog, now, r)
  }

  /** How many rows a sticky rebalance moves to even out the loads. */
  ghost function MovesOf(g: Group, catalog: seq<Topic>, now: U64): nat
    requires UniqueIds(g.members) && g.assignment.Some?
  {
    ActiveAre(g, now);
    var active := ActiveAt(g, now);
    |StickyMoves(g.assignment.value.rows, active, GroupPartitions(catalog, active))|
  }

  /**
   * A sticky rebalance takes no more partitions from a live subscriber than evening out the loads moves, however the
   * members and the topics have changed.
   */
  lemma {:induction false} SavedSticks(g: Group, strategy: Strategy, catalog: seq<Topic>, now: U64)
    requires UniqueIds(g.members) && DistinctTopics(catalog) && g.assignment.Some?
    requires forall tp :: Owners(g.assignment.value.rows, tp) <= 1
    ensures
      var previous := g.assignment.value.rows;
      Count(Rebalanced(g, true, strategy, catalog, now).rows, HeldBefore(previous)) + MovesOf(g, catalog, now)
      >= Count(previous, KeepableAt(g, catalog, now))
  {
    var previous, rows := g.assignment.value.rows, Rebalanced(g, true, strategy, catalog, now).rows;
    var built := RebalancedRows(g, true, strategy, catalog, now);
    var active := ActiveAt(g, now);
    var partitions := GroupPartitions(catalog, active);
    ActiveAre(g, now);
    WantedAre(g, catalog, now);
    CountAlike(previous, Candidate(active, partitions), KeepableAt(g, catalog, now));
    CountPermutation(rows, built, HeldBefore(previous));
    if active == [] {
      CountNone(previous, Candidate(active, partitions));
    } else {
      AppliedExactly(previous, active, partitions);
    }
  }

  // ---- Generations ----

  /** Exactly the live members hold something. */
  ghost predicate HeldByLive(rows: seq<Row>, g: Group, now: U64) {
    && (forall r :: r in rows ==> exists m :: LiveMember(g, now, m) && m.id == r.member)
    && forall m :: LiveMember(g, now, m) ==> exists r :: r in rows && r.member == m.id
  }

  lemma {:induction false} HoldersAreLive(rows: seq<Row>, g: Group, now: U64)
    requires UniqueIds(g.members)
    ensures HoldersMatch(rows, ActiveAt(g, now)) <==> HeldByLive(rows, g, now)
  {
    var active := ActiveAt(g, now);
    ActiveAre(g, now);
    var ids := MemberIds(active);
    if HoldersMatch(rows, active) {
      SameSize(ids, Holders(rows));
      assert forall r :: r in rows ==> r.member in ids;
    }
    if HeldByLive(rows, g, now) {
      assert Holders(rows) == ids;
    }
  }

  lemma {:induction false} SameSize(a: set<string>, b: set<string>)
    requires a <= b && |a| == |b|
    ensures a == b
  {
    assert |b| == |a| + |b - a| by { assert b == a + (b - a); }
  }

  lemma {:induction false} SameHolders(a: seq<Row>, b: seq<Row>, g: Group, now: U64)
    requires multiset(a) == multiset(b)
    ensures HeldByLive(a, g, now) ==> HeldByLive(b, g, now)
  {
    forall r ensures r in a <==> r in b { assert r in multiset(a) <==> r in multiset(b); }
  }

  lemma {:induction false} EqualExactlyWhen(a: seq<Row>, b: seq<Row>)
    ensures RowsEqual(a, b) <==> multiset(a) == multiset(b)
  {
    RowOrder();
    SortCorrect(a, RowLe);
    SortCorrect(b, RowLe);
    if multiset(a) == multiset(b) {
      assert |multiset(a)| == |a| && |multiset(b)| == |b|;
      SortedIsUnique(Sort(a, RowLe), Sort(b, RowLe), RowLe);
    }
  }

  ghost predicate Versioned(previous: Option<Assignment>, next: Assignment, g: Group, now: U64) {
    match previous
    case None => next.generation == 1 && next.updatedAtMS == now
    case Some(a) =>
      if multiset(a.rows) == multiset(next.rows) && HeldByLive(next.rows, g, now) then
        next.generation == a.generation && next.updatedAtMS == a.updatedAtMS
      else next.generation == Plus(a.generation, 1) && next.updatedAtMS == now
  }

  lemma {:induction false} StableExactlyWhen(before: seq<Row>, after: seq<Row>, g: Group, now: U64)
    requires UniqueIds(g.members)
    ensures Stable(before, after, ActiveAt(g, now))
       <==> multiset(before) == multiset(after) && HeldByLive(after, g, now)
  {
    EqualExactlyWhen(before, after);
    HoldersAreLive(before, g, now);
    HoldersAreLive(after, g, now);
    if multiset(before) == multiset(after) { SameHolders(after, before, g, now); }
  }

  lemma {:induction false} NextVersioned(previous: Option<Assignment>, rows: seq<Row>, g: Group, now: U64)
    requires UniqueIds(g.members)
    ensures
      var next := NextAssignment(previous, rows, ActiveAt(g, now), now);
      next.rows == rows && Versioned(previous, next, g, now)
  {
    if previous.Some? { StableExactlyWhen(previous.value.rows, rows, g, now); }
  }

  /**
   * The first assignment is generation 1. A later one keeps generation and time exactly if its rows are those before,
   * in whatever order, and exactly the live members hold them; otherwise it is the next generation, saved now.
   */
  lemma {:induction false} SavedVersion(g: Group, sticky: bool, strategy: Strategy, catalog: seq<Topic>, now: U64)
    requires UniqueIds(g.members)
    ensures Versioned(g.assignment, Rebalanced(g, sticky, strategy, catalog, now), g, now)
  {
    ActiveAre(g, now);
    var built := BuildRows(sticky, strategy, g.assignment, ActiveAt(g, now), catalog);
    NextVersioned(g.assignment, Sort(built, RowLe), g, now);
  }

  // ---- Who may consume then ----

  lemma {:induction false} OwnedByOne(rows: seq<Row>, tp: TopicPartition) returns (r: Row)
    requires Owners(rows, tp) == 1
    ensures r in rows && PartitionOf(r) == tp && OwnerOf(rows, tp) == Some(r.member)
  {
    OwnersPositive(rows, tp);
    r :| r in rows && PartitionOf(r) == tp;
    OnlyOwner(rows, r);
  }

  lemma {:induction false} StillLive(g: Group, after: Group, id: string, topic: string, now: U64)
    requires UniqueIds(g.members) && UniqueIds(after.members)
    requires after.members == Filter(g.members, Remaining(now, NoFault)) && LiveSubscriber(g, now, id, topic)
    ensures Live(after, id, now).Some?
  {
    FilterMembers(g.members, Remaining(now, NoFault));
    var m :| LiveMember(g, now, m) && m.id == id && topic in m.topics;
    var x :| x in g.members && !ExpiredAt(x, now) && x.who == m;
    assert now < Deadline(x) && x in after.members;
    LiveExactlyWhen(after, id, now);
  }

  /** Exactly this member passes the lease check for the partition with the saved generation, if that is not 0. */
  ghost predicate LeasedOnlyBy(g: Group, id: string, tp: TopicPartition, now: U64)
    requires g.assignment.Some?
  {
    var generation := g.assignment.value.generation;
    forall x :: ValidateLease(g, x, generation, tp, now).Ok? <==> x == id && generation != 0
  }

  lemma {:induction false} OwnerIsLeased(g: Group, after: Group, tp: TopicPartition, now: U64)
    returns (id: string)
    requires UniqueIds(g.members) && UniqueIds(after.members) && forall m :: m in g.members ==> m.who.id != ""
    requires after.assignment.Some? && Owners(after.assignment.value.rows, tp) == 1
    requires forall r :: r in after.assignment.value.rows ==> LiveSubscriber(g, now, r.member, r.topic)
    requires after.members == Filter(g.members, Remaining(now, NoFault))
    ensures LiveSubscriber(g, now, id, tp.topic) && LeasedOnlyBy(after, id, tp, now)
  {
    var r := OwnedByOne(after.assignment.value.rows, tp);
    id := r.member;
    StillLive(g, after, id, tp.topic, now);
    var m :| LiveMember(g, now, m) && m.id == id && tp.topic in m.topics;
    assert id != "";
  }

  /**
   * Right after such a rebalance exactly one member passes the lease check for each wanted partition with the saved
   * generation, and it is a live subscriber; with a generation that has wrapped to 0 nobody does.
   */
  lemma {:induction false} WantedIsLeased(
    g: Group, sticky: bool, strategy: Strategy, catalog: seq<Topic>, now: U64, tp: TopicPartition)
    returns (id: string)
    requires UniqueIds(g.members) && DistinctTopics(catalog) && Wanted(g, catalog, now, tp)
    requires forall m :: m in g.members ==> m.who.id != ""
    requires strategy == Range || (sticky && g.assignment.Some?)
    ensures
      var after := Apply(g, Rebalance(sticky, strategy, catalog, now, NoFault));
      LiveSubscriber(g, now, id, tp.topic) && LeasedOnlyBy(after, id, tp, now)
  {
    var after := Apply(g, Rebalance(sticky, strategy, catalog, now, NoFault));
    ApplyKeepsUnique(g, Rebalance(sticky, strategy, catalog, now, NoFault));
    SavedPlanValid(g, sticky, strategy, catalog, now);
    assert Owners(after.assignment.value.rows, tp) == 1;
    id := OwnerIsLeased(g, after, tp, now);
  }
}
