/**
 * A consumer group over time: joins, heartbeats, polls, expiries and rebalances, and the leases checked against them.
 */
module GroupRuns {
  import opened Basics
  import opened Sorting
  import opened Names
  import opened Sticky
  import opened StickyBalance
  import opened GroupPlans

  const DefaultSessionTimeoutMS: U64 := 30000
  const DefaultMaxPollIntervalMS: U64 := 300000

  datatype GroupMember = GroupMember(
    who: Member, sessionTimeoutMS: U64, maxPollIntervalMS: U64, joinedAtMS: U64, lastHeartbeatMS: U64, lastPollMS: U64)

  datatype Assignment = Assignment(generation: U64, rows: seq<Row>, updatedAtMS: U64)

  datatype Strategy = RoundRobin | Range

  /** One group's metadata: its members and its latest saved assignment. */
  datatype Group = Group(members: seq<GroupMember>, assignment: Option<Assignment>)

  ghost predicate UniqueIds(members: seq<GroupMember>) {
    forall i, j :: 0 <= i < j < |members| ==> members[i].who.id != members[j].who.id
  }

  /** A group never holds two members with one identifier. */
  type ValidGroup = g: Group | UniqueIds(g.members) witness Group([], None)

  // ---- Membership ----

  /** 64-bit addition. */
  function Plus(a: U64, b: U64): U64 {
    (a + b) % (MaxU64 + 1)
  }

  function SessionTimeout(m: GroupMember): U64 {
    if m.sessionTimeoutMS == 0 then 1 else m.sessionTimeoutMS
  }

  function PollTimeout(m: GroupMember): U64 {
    if m.maxPollIntervalMS != 0 then m.maxPollIntervalMS else SessionTimeout(m)
  }

  function LastPoll(m: GroupMember): U64 {
    if m.lastPollMS != 0 then m.lastPollMS else if m.lastHeartbeatMS != 0 then m.lastHeartbeatMS else m.joinedAtMS
  }

  function ExpiresAt(m: GroupMember): U64 {
    Plus(m.lastHeartbeatMS, SessionTimeout(m))
  }

  function PollExpiresAt(m: GroupMember): U64 {
    Plus(LastPoll(m), PollTimeout(m))
  }

  predicate ExpiredAt(m: GroupMember, now: U64) {
    now >= ExpiresAt(m) || now >= PollExpiresAt(m)
  }

  function NotExpired(now: U64): GroupMember -> bool {
    (m: GroupMember) => !ExpiredAt(m, now)
  }

  function NotNamed(id: string): GroupMember -> bool {
    (m: GroupMember) => m.who.id != id
  }

  predicate IdLe(a: GroupMember, b: GroupMember) {
    StringLe(a.who.id, b.who.id)
  }

  /** Saving a member replaces any earlier entry with its identifier. */
  function SaveMember(members: seq<GroupMember>, m: GroupMember): seq<GroupMember> {
    Filter(members, NotNamed(m.who.id)) + [m]
  }

  function LoadMember(members: seq<GroupMember>, id: string): Option<GroupMember> {
    if members == [] then None
    else if members[|members| - 1].who.id == id then Some(members[|members| - 1])
    else LoadMember(members[..|members| - 1], id)
  }

  function Subscriptions(members: seq<GroupMember>): (ms: seq<Member>)
    ensures |ms| == |members|
    ensures forall i :: 0 <= i < |ms| ==> ms[i] == members[i].who
  {
    seq(|members|, i requires 0 <= i < |members| => members[i].who)
  }

  function ActiveMembers(members: seq<GroupMember>, now: U64): seq<Member> {
    Subscriptions(Sort(Filter(members, NotExpired(now)), IdLe))
  }

  lemma {:induction false} AppendKeepsUnique(members: seq<GroupMember>, m: GroupMember)
    requires UniqueIds(members) && forall x :: x in members ==> x.who.id != m.who.id
    ensures UniqueIds(members + [m])
  {
    var all := members + [m];
    forall i, j | 0 <= i < j < |all| ensures all[i].who.id != all[j].who.id {
      assert all[i] == members[i] && members[i] in members;
    }
  }

  lemma {:induction false} FilterKeepsUnique(members: seq<GroupMember>, p: GroupMember -> bool)
    requires UniqueIds(members)
    ensures UniqueIds(Filter(members, p))
  {
    if members != [] {
      var before := members[..|members| - 1];
      FilterKeepsUnique(before, p);
      FilterMembers(before, p);
      var m := members[|members| - 1];
      forall x | x in Filter(before, p) ensures x.who.id != m.who.id {
        var i :| 0 <= i < |before| && before[i] == x;
        assert members[i] == x;
      }
      AppendKeepsUnique(Filter(before, p), m);
    }
  }

  /** The member list handed to the assignors never names a member twice. */
  lemma {:induction false} ActiveMembersUnique(members: seq<GroupMember>, now: U64)
    requires UniqueIds(members)
    ensures UniqueMembers(ActiveMembers(members, now))
  {
    var alive := Filter(members, NotExpired(now));
    var sorted := Sort(alive, IdLe);
    FilterKeepsUnique(members, NotExpired(now));
    StringOrder();
    SortCorrect(alive, IdLe);
    DistinctPermutation(alive, sorted);
    forall i, j | 0 <= i < j < |sorted| ensures sorted[i].who.id != sorted[j].who.id {
      assert sorted[i] in multiset(sorted) && sorted[j] in multiset(sorted);
      assert sorted[i] in alive && sorted[j] in alive;
    }
  }

  // ---- Building a plan ----

  function BuildRows(sticky: bool, strategy: Strategy, previous: Option<Assignment>, active: seq<Member>,
                     catalog: seq<Topic>): seq<Row>
    requires UniqueMembers(active)
  {
    if active == [] then []
    else
      var partitions := GroupPartitions(catalog, active);
      if sticky && previous.Some? then StickyPlan(previous.value.rows, active, partitions)
      else if strategy == Range then RangePlan(active, partitions)
      else RoundRobinPlan(active, partitions)
  }

  predicate RowsEqual(a: seq<Row>, b: seq<Row>) {
    |a| == |b| && Sort(a, RowLe) == Sort(b, RowLe)
  }

  function Holders(rows: seq<Row>): set<string> {
    set r | r in rows :: r.member
  }

  predicate HoldersMatch(rows: seq<Row>, active: seq<Member>) {
    |Holders(rows)| == |active| && forall m :: m in active ==> m.id in Holders(rows)
  }

  predicate Stable(previous: seq<Row>, next: seq<Row>, active: seq<Member>) {
    RowsEqual(previous, next) && HoldersMatch(previous, active) && HoldersMatch(next, active)
  }

  function Plan(sticky: bool, strategy: Strategy, previous: Option<Assignment>, active: seq<Member>,
                catalog: seq<Topic>, now: U64): Assignment
    requires UniqueMembers(active)
  {
    NextAssignment(previous, Sort(BuildRows(sticky, strategy, previous, active, catalog), RowLe), active, now)
  }

  function NextAssignment(previous: Option<Assignment>, rows: seq<Row>, active: seq<Member>, now: U64): Assignment {
    match previous
    case None => Assignment(1, rows, now)
    case Some(a) =>
      if Stable(a.rows, rows, active) then Assignment(a.generation, rows, a.updatedAtMS)
      else Assignment(Plus(a.generation, 1), rows, now)
  }

  // ---- The steps ----

  /**
   * Where a rebalance fails: deleting the expired members, of which only some are gone then, or anything after that up
   * to saving the new assignment.
   */
  datatype RebalanceFault = NoFault | DeleteFails(gone: set<string>) | SaveFails

  /** What happens to a group; `saved` says whether the metadata store accepted the member. */
  datatype Event =
    | Join(id: string, topics: seq<string>, sessionMS: U64, pollMS: U64, now: U64, saved: bool)
    | Heartbeat(id: string, newSessionMS: Option<U64>, newPollMS: Option<U64>, now: U64, saved: bool)
    | Poll(id: string, now: U64, saved: bool)
    | Rebalance(sticky: bool, strategy: Strategy, catalog: seq<Topic>, now: U64, fault: RebalanceFault)

  /** The members a rebalance at this time leaves. */
  function Remaining(now: U64, fault: RebalanceFault): GroupMember -> bool {
    (m: GroupMember) => !ExpiredAt(m, now) || (fault.DeleteFails? && m.who.id !in fault.gone)
  }

  function OrDefault(value: U64, default: U64): U64 {
    if value == 0 then default else value
  }

  function Live(g: Group, id: string, now: U64): Option<GroupMember> {
    match LoadMember(g.members, id)
    case None => None
    case Some(m) => if ExpiredAt(m, now) then None else Some(m)
  }

  function Apply(g: Group, e: Event): Group
    requires UniqueIds(g.members)
  {
    match e
    case Join(id, topics, sessionMS, pollMS, now, saved) =>
      if id == "" || !saved then g
      else
        g.(members := SaveMember(g.members, GroupMember(Member(id, topics),
                                                        OrDefault(sessionMS, DefaultSessionTimeoutMS),
                                                        OrDefault(pollMS, DefaultMaxPollIntervalMS), now, now, now)))
    case Heartbeat(id, newSessionMS, newPollMS, now, saved) =>
      (match if saved then Live(g, id, now) else None
       case None => g
       case Some(m) =>
         var session := if newSessionMS.Some? && newSessionMS.value > 0 then newSessionMS.value else m.sessionTimeoutMS;
         var poll := if newPollMS.Some? && newPollMS.value > 0 then newPollMS.value else m.maxPollIntervalMS;
         g.(members := SaveMember(g.members, m.(sessionTimeoutMS := session, maxPollIntervalMS := poll,
                                                lastHeartbeatMS := now))))
    case Poll(id, now, saved) =>
      (match if saved then Live(g, id, now) else None
       case None => g
       case Some(m) => g.(members := SaveMember(g.members, m.(lastPollMS := if now == 0 then 1 else now))))
    case Rebalance(sticky, strategy, catalog, now, fault) =>
      var kept := Filter(g.members, Remaining(now, fault));
      FilterKeepsUnique(g.members, Remaining(now, fault));
      ActiveMembersUnique(kept, now);
      if fault.NoFault? then
        Group(kept, Some(Plan(sticky, strategy, g.assignment, ActiveMembers(kept, now), catalog, now)))
      else Group(kept, g.assignment)
  }

  lemma {:induction false} SaveKeepsUnique(members: seq<GroupMember>, m: GroupMember)
    requires UniqueIds(members)
    ensures UniqueIds(SaveMember(members, m))
  {
    FilterKeepsUnique(members, NotNamed(m.who.id));
    FilterMembers(members, NotNamed(m.who.id));
    AppendKeepsUnique(Filter(members, NotNamed(m.who.id)), m);
  }

  lemma {:induction false} ApplyKeepsUnique(g: Group, e: Event)
    requires UniqueIds(g.members)
    ensures UniqueIds(Apply(g, e).members)
  {
    match e
    case Join(id, topics, sessionMS, pollMS, now, saved) =>
      if id != "" && saved {
        var next := Apply(g, e);
        SaveKeepsUnique(g.members, next.members[|next.members| - 1]);
      }
    case Heartbeat(id, newSessionMS, newPollMS, now, saved) =>
      if saved && Live(g, id, now).Some? {
        var next := Apply(g, e);
        SaveKeepsUnique(g.members, next.members[|next.members| - 1]);
        LoadNamed(g.members, id);
      }
    case Poll(id, now, saved) =>
      if saved && Live(g, id, now).Some? {
        var next := Apply(g, e);
        SaveKeepsUnique(g.members, next.members[|next.members| - 1]);
        LoadNamed(g.members, id);
      }
    case Rebalance(sticky, strategy, catalog, now, fault) =>
      FilterKeepsUnique(g.members, Remaining(now, fault));
  }

  lemma {:induction false} LoadNamed(members: seq<GroupMember>, id: string)
    requires LoadMember(members, id).Some?
    ensures LoadMember(members, id).value.who.id == id
  {
    if members[|members| - 1].who.id != id { LoadNamed(members[..|members| - 1], id); }
  }

  /** The broker's group metadata, updated in place by the applied commands. */
  class GroupStore {
    var members: seq<GroupMember>
    var assignment: Option<Assignment>

    ghost predicate Valid()
      reads this
    {
      UniqueIds(members)
    }

    ghost function Value(): Group
      reads this
    {
      Group(members, assignment)
    }

    constructor ()
      ensures Valid() && Value() == Group([], None)
    {
      members := [];
      assignment := None;
    }

    method JoinGroup(
      id: string, topics: seq<string>, sessionMS: U64, pollMS: U64, now: U64, saved: bool)
      returns (r: Result<GroupMember>)
      requires Valid()
      modifies this
      ensures Valid() && Value() == Apply(old(Value()), Join(id, topics, sessionMS, pollMS, now, saved))
      ensures r.Ok? <==> id != "" && saved
      ensures r.Ok? ==> LoadMember(members, id) == Some(r.value)
    {
      ApplyKeepsUnique(Value(), Join(id, topics, sessionMS, pollMS, now, saved));
      if id == "" {
        return Err("group and member_id are required");
      }
      var m := GroupMember(Member(id, topics), OrDefault(sessionMS, DefaultSessionTimeoutMS),
                           OrDefault(pollMS, DefaultMaxPollIntervalMS), now, now, now);
      if !saved { return Err("save group member"); }
      members := SaveMember(members, m);
      return Ok(m);
    }

    method HeartbeatGroup(id: string, newSessionMS: Option<U64>, newPollMS: Option<U64>, now: U64, saved: bool)
      returns (ok: bool)
      requires Valid()
      modifies this
      ensures Valid() && Value() == Apply(old(Value()), Heartbeat(id, newSessionMS, newPollMS, now, saved))
      ensures ok <==> saved && Live(old(Value()), id, now).Some?
    {
      ApplyKeepsUnique(Value(), Heartbeat(id, newSessionMS, newPollMS, now, saved));
      var live := Live(Group(members, assignment), id, now);
      if live.None? { return false; }
      var m := live.value;
      if newSessionMS.Some? && newSessionMS.value > 0 { m := m.(sessionTimeoutMS := newSessionMS.value); }
      if newPollMS.Some? && newPollMS.value > 0 { m := m.(maxPollIntervalMS := newPollMS.value); }
      m := m.(lastHeartbeatMS := now);
      if !saved { return false; }
      LoadNamed(members, id);
      members := SaveMember(members, m);
      return true;
    }

    method PollGroup(id: string, now: U64, saved: bool) returns (ok: bool)
      requires Valid()
      modifies this
      ensures Valid() && Value() == Apply(old(Value()), Poll(id, now, saved))
      ensures ok <==> saved && Live(old(Value()), id, now).Some?
    {
      ApplyKeepsUnique(Value(), Poll(id, now, saved));
      var live := Live(Group(members, assignment), id, now);
      if live.None? { return false; }
      var m := live.value.(lastPollMS := now);
      if m.lastPollMS == 0 { m := m.(lastPollMS := 1); }
      if !saved { return false; }
      LoadNamed(members, id);
      members := SaveMember(members, m);
      return true;
    }

    method BuildGroupAssignments(sticky: bool, strategy: Strategy, active: seq<Member>, catalog: seq<Topic>)
      returns (rows: seq<Row>)
      requires UniqueMembers(active)
      ensures rows == BuildRows(sticky, strategy, assignment, active, catalog)
    {
      if active == [] { return []; }
      var partitions := GroupPartitions(catalog, active);
      if sticky && assignment.Some? {
        var candidates, applied;
        rows, candidates, applied := BuildCooperativeStickyAssignments(assignment.value.rows, active, partitions);
      } else if strategy == Range {
        rows := BuildRangeAssignments(active, partitions);
      } else {
        rows := BuildRoundRobinAssignments(active, partitions);
      }
    }

    method VersionAssignment(rows: seq<Row>, active: seq<Member>, now: U64) returns (next: Assignment)
      ensures next == NextAssignment(assignment, rows, active, now)
    {
      next := Assignment(1, rows, now);
      if assignment.Some? {
        next := next.(generation := Plus(assignment.value.generation, 1));
        if Stable(assignment.value.rows, rows, active) {
          next := next.(generation := assignment.value.generation, updatedAtMS := assignment.value.updatedAtMS);
        }
      }
    }

    method RebalanceGroup(sticky: bool, strategy: Strategy, catalog: seq<Topic>, now: U64, fault: RebalanceFault)
      returns (r: Result<Assignment>)
      requires Valid()
      modifies this
      ensures Valid() && Value() == Apply(old(Value()), Rebalance(sticky, strategy, catalog, now, fault))
      ensures r.Ok? <==> fault.NoFault?
      ensures r.Ok? ==> assignment == Some(r.value)
    {
      ApplyKeepsUnique(Value(), Rebalance(sticky, strategy, catalog, now, fault));
      ghost var start := Value();
      members := Filter(members, Remaining(now, fault));
      FilterKeepsUnique(start.members, Remaining(now, fault));
      if fault.DeleteFails? { return Err("delete expired group members"); }
      ActiveMembersUnique(members, now);
      var active := ActiveMembers(members, now);
      var rows := BuildGroupAssignments(sticky, strategy, active, catalog);
      var next := VersionAssignment(Sort(rows, RowLe), active, now);
      if fault.SaveFails? { return Err("save group assignment"); }
      assignment := Some(next);
      return Ok(next);
    }
  }

  // ---- Whole runs ----

  /** The states a new group goes through. */
  ghost predicate IsRun(states: seq<ValidGroup>, events: seq<Event>) {
    && |states| == |events| + 1
    && states[0].assignment.None?
    && forall k: nat :: k < |events| ==> IsStep(states, events, k)
  }

  ghost predicate IsStep(states: seq<ValidGroup>, events: seq<Event>, k: nat)
    requires |states| == |events| + 1 && k < |events|
  {
    states[k + 1] == Apply(states[k], events[k])
  }

  /** `b` may follow `a` in the history of saved assignments. */
  ghost predicate Follows(a: Option<Assignment>, b: Option<Assignment>) {
    a.Some? ==>
      && b.Some?
      && a.value.generation <= b.value.generation
      && (a.value.generation == b.value.generation ==> a.value.rows == b.value.rows)
  }

  ghost predicate SortedRows(a: Option<Assignment>) {
    a.Some? ==> Sorted(a.value.rows, RowLe)
  }

  /** A new assignment advances the generation by at most one, and not at all only with unchanged rows. */
  lemma {:induction false} NextFollows(previous: Option<Assignment>, rows: seq<Row>, active: seq<Member>, now: U64)
    requires SortedRows(previous) && Sorted(rows, RowLe)
    requires previous.Some? ==> previous.value.generation < MaxU64
    ensures
      var next := NextAssignment(previous, rows, active, now);
      && Follows(previous, Some(next)) && SortedRows(Some(next))
      && next.generation <= (if previous.Some? then previous.value.generation else 0) + 1
  {
    if previous.Some? && Stable(previous.value.rows, rows, active) {
      StableMeansSame(previous.value.rows, rows, active);
    }
  }

  lemma {:induction false} StableMeansSame(before: seq<Row>, after: seq<Row>, active: seq<Member>)
    requires Sorted(before, RowLe) && Sorted(after, RowLe) && Stable(before, after, active)
    ensures before == after
  {
    SortOfSorted(before, RowLe);
    SortOfSorted(after, RowLe);
  }

  lemma {:induction false} ApplyFollows(g: Group, e: Event)
    requires UniqueIds(g.members) && SortedRows(g.assignment)
    requires g.assignment.Some? ==> g.assignment.value.generation < MaxU64
    ensures
      var next := Apply(g, e).assignment;
      && Follows(g.assignment, next) && SortedRows(next)
      && (next.Some? ==> next.value.generation <= (if g.assignment.Some? then g.assignment.value.generation else 0) + 1)
  {
    if e.Rebalance? && e.fault.NoFault? {
      var kept := Filter(g.members, Remaining(e.now, e.fault));
      FilterKeepsUnique(g.members, Remaining(e.now, e.fault));
      ActiveMembersUnique(kept, e.now);
      var active := ActiveMembers(kept, e.now);
      var built := BuildRows(e.sticky, e.strategy, g.assignment, active, e.catalog);
      RowOrder();
      SortCorrect(built, RowLe);
      NextFollows(g.assignment, Sort(built, RowLe), active, e.now);
    }
  }

  function Generation(a: Option<Assignment>): nat {
    if a.Some? then a.value.generation else 0
  }

  lemma {:induction false} RunStep(states: seq<ValidGroup>, events: seq<Event>, k: nat)
    requires IsRun(states, events) && k < |events|
    requires SortedRows(states[k].assignment) && Generation(states[k].assignment) < MaxU64
    ensures Follows(states[k].assignment, states[k + 1].assignment) && SortedRows(states[k + 1].assignment)
    ensures Generation(states[k + 1].assignment) <= Generation(states[k].assignment) + 1
  {
    assert IsStep(states, events, k);
    ApplyFollows(states[k], events[k]);
  }

  lemma {:induction false} RunBounded(states: seq<ValidGroup>, events: seq<Event>, k: nat)
    requires IsRun(states, events) && k <= |events| <= MaxU64
    ensures SortedRows(states[k].assignment) && Generation(states[k].assignment) <= k
  {
    if k > 0 {
      RunBounded(states, events, k - 1);
      RunStep(states, events, k - 1);
    }
  }

  /**
   * Generation fencing: over every run of a new group, of any length 64-bit generations can count, saved
   * generations never decrease and two assignments saved with the same generation have the same rows.
   */
  lemma {:induction false} GenerationsFence(states: seq<ValidGroup>, events: seq<Event>, i: nat, j: nat)
    requires IsRun(states, events) && i <= j <= |events| <= MaxU64
    ensures Follows(states[i].assignment, states[j].assignment)
    decreases j
  {
    if i < j {
      GenerationsFence(states, events, i, j - 1);
      RunBounded(states, events, j - 1);
      RunStep(states, events, j - 1);
    }
  }

  // ---- Leases ----

  function ValidateLease(g: Group, id: string, generation: U64, tp: TopicPartition, now: U64): Result<()> {
    if id == "" then Err("group and member_id are required")
    else if generation == 0 then Err("generation is required")
    else if Live(g, id, now).None? then Err("group member not found or lease expired")
    else if g.assignment.None? then Err("no active assignment")
    else if g.assignment.value.generation != generation then Err("stale consumer group generation")
    else
      match OwnerOf(g.assignment.value.rows, tp)
      case None => Err("no owner")
      case Some(owner) => if owner == id then Ok(()) else Err("not the owner")
  }

  /** Two lease checks that pass with one generation for one partition, at any two times of a run, name one member. */
  lemma {:induction false} LeasesAgree(
    states: seq<ValidGroup>, events: seq<Event>, i: nat, j: nat, a: string, b: string,
    generation: U64, tp: TopicPartition, nowA: U64, nowB: U64)
    requires IsRun(states, events) && i <= |events| && j <= |events| <= MaxU64
    requires ValidateLease(states[i], a, generation, tp, nowA).Ok?
    requires ValidateLease(states[j], b, generation, tp, nowB).Ok?
    ensures a == b
  {
    if i <= j {
      GenerationsFence(states, events, i, j);
    } else {
      GenerationsFence(states, events, j, i);
    }
  }

  // ---- When a rebalance keeps its generation ----

  lemma {:induction false} MemberIds(active: seq<Member>) returns (ids: set<string>)
    requires UniqueMembers(active)
    ensures ids == (set m | m in active :: m.id) && |ids| == |active|
  {
    if active == [] {
      ids := {};
    } else {
      var before, last := active[..|active| - 1], active[|active| - 1];
      ids := MemberIds(before);
      assert active == before + [last];
      assert last.id !in ids;
      ids := ids + {last.id};
    }
  }

  /** The holders of subscribed rows match the active members exactly when every active member holds something. */
  lemma {:induction false} HoldersMatchExactlyWhen(rows: seq<Row>, active: seq<Member>)
    requires UniqueMembers(active) && OwnersSubscribed(rows, active)
    ensures HoldersMatch(rows, active) <==> forall m :: m in active ==> Load(rows, m.id) > 0
  {
    var ids := MemberIds(active);
    forall m | m in active ensures Load(rows, m.id) > 0 <==> m.id in Holders(rows) {
      if Load(rows, m.id) > 0 {
        OwnedRow(rows, m.id);
      }
      if m.id in Holders(rows) {
        var r :| r in rows && r.member == m.id;
        HeldCounts(rows, r);
      }
    }
    assert Holders(rows) <= ids by {
      forall h | h in Holders(rows) ensures h in ids {
        var r :| r in rows && r.member == h;
        var m :| m in active && m.id == h;
      }
    }
    if forall m :: m in active ==> m.id in Holders(rows) {
      assert Holders(rows) == ids;
    }
  }

  lemma {:induction false} HeldCounts(rows: seq<Row>, r: Row)
    requires r in rows
    ensures Load(rows, r.member) > 0
  {
    var n := |rows| - 1;
    if rows[n] != r {
      assert rows == rows[..n] + [rows[n]];
      HeldCounts(rows[..n], r);
    }
  }

  /**
   * Rebalancing an unchanged sticky group returns the same rows, and keeps the generation if and only if every
   * active member owns at least one partition.
   */
  lemma {:induction false} UnchangedRebalance(
    previous: Assignment, active: seq<Member>, catalog: seq<Topic>, strategy: Strategy,
    before: seq<Row>, now: U64)
    requires UniqueMembers(active) && active != []
    requires previous.rows == StickyPlan(before, active, GroupPartitions(catalog, active))
    ensures
      var next := Plan(true, strategy, Some(previous), active, catalog, now);
      && next.rows == previous.rows
      && (next.generation == previous.generation <==> forall m :: m in active ==> Load(previous.rows, m.id) > 0)
  {
    var partitions := GroupPartitions(catalog, active);
    StickyFixpoint(before, active, partitions);
    StickyPlanSorted(before, active, partitions);
    StickyPlanValid(before, active, partitions);
    RowOrder();
    SortOfSorted(previous.rows, RowLe);
    assert BuildRows(true, strategy, Some(previous), active, catalog) == previous.rows;
    SameRowsNext(previous, active, now);
    HoldersMatchExactlyWhen(previous.rows, active);
  }

  lemma {:induction false} SameRowsNext(previous: Assignment, active: seq<Member>, now: U64)
    ensures NextAssignment(Some(previous), previous.rows, active, now).generation == previous.generation
       <==> HoldersMatch(previous.rows, active)
  {
  }
}
