/** How long a group member stays live: what renews its lease, what leaves it alone, and when it ends. */
module Leases {
  import opened Basics
  import opened Sorting
  import opened Sticky
  import opened GroupPlans
  import opened GroupRuns

  // ---- Finding a member after a save or a deletion ----

  lemma {:induction false} LoadNone(members: seq<GroupMember>, id: string)
    requires forall m :: m in members ==> m.who.id != id
    ensures LoadMember(members, id).None?
  {
    if members != [] { LoadNone(members[..|members| - 1], id); }
  }

  lemma {:induction false} LoadSnoc(members: seq<GroupMember>, m: GroupMember, id: string)
    ensures LoadMember(members + [m], id) == if m.who.id == id then Some(m) else LoadMember(members, id)
  {
    assert (members + [m])[..|members|] == members;
  }

  function Passing(m: Option<GroupMember>, p: GroupMember -> bool): Option<GroupMember> {
    if m.Some? && p(m.value) then m else None
  }

  lemma {:induction false} LoadFiltered(members: seq<GroupMember>, p: GroupMember -> bool, id: string)
    requires UniqueIds(members)
    ensures LoadMember(Filter(members, p), id) == Passing(LoadMember(members, id), p)
  {
    if members != [] {
      var before, last := members[..|members| - 1], members[|members| - 1];
      LoadFiltered(before, p, id);
      if last.who.id == id {
        forall m | m in before ensures m.who.id != id {
          var i :| 0 <= i < |before| && before[i] == m;
          assert members[i] == m;
        }
        LoadNone(before, id);
      }
      LoadSnoc(Filter(before, p), last, id);
      assert Filter(before, p) + [] == Filter(before, p);
    }
  }

  lemma {:induction false} LoadSaved(members: seq<GroupMember>, m: GroupMember, id: string)
    requires UniqueIds(members)
    ensures LoadMember(SaveMember(members, m), id) == if id == m.who.id then Some(m) else LoadMember(members, id)
  {
    var others := Filter(members, NotNamed(m.who.id));
    LoadSnoc(others, m, id);
    LoadFiltered(members, NotNamed(m.who.id), id);
    if LoadMember(members, id).Some? { LoadNamed(members, id); }
  }

  // ---- Events about others ----

  /** The event is the member's own. */
  predicate Concerns(e: Event, id: string) {
    !e.Rebalance? && e.id == id
  }

  /** The event deletes the member, its lease having ended. */
  predicate Removes(e: Event, m: GroupMember) {
    e.Rebalance? && !Remaining(e.now, e.fault)(m)
  }

  function SparedBy(e: Event): GroupMember -> bool {
    (m: GroupMember) => !Removes(e, m)
  }

  /** The member an event of a member saves, if it saves one. */
  lemma {:induction false} SavedBy(g: Group, e: Event) returns (saved: Option<GroupMember>)
    requires UniqueIds(g.members) && !e.Rebalance?
    ensures Apply(g, e).members == (if saved.Some? then SaveMember(g.members, saved.value) else g.members)
    ensures saved.Some? ==> saved.value.who.id == e.id
  {
    saved := None;
    var next := Apply(g, e).members;
    match e
    case Join(id, _, _, _, _, ok) => if id != "" && ok { saved := Some(next[|next| - 1]); }
    case Heartbeat(id, _, _, now, ok) =>
      if ok && Live(g, id, now).Some? {
        LoadNamed(g.members, id);
        saved := Some(next[|next| - 1]);
      }
    case Poll(id, now, ok) =>
      if ok && Live(g, id, now).Some? {
        LoadNamed(g.members, id);
        saved := Some(next[|next| - 1]);
      }
  }

  /** Only its own events and a rebalance after its lease has ended touch a member. */
  lemma {:induction false} StepMember(g: Group, e: Event, id: string)
    requires UniqueIds(g.members) && !Concerns(e, id)
    ensures LoadMember(Apply(g, e).members, id)
         == Passing(LoadMember(g.members, id), SparedBy(e))
  {
    if e.Rebalance? {
      LoadFiltered(g.members, Remaining(e.now, e.fault), id);
    } else {
      var saved := SavedBy(g, e);
      if saved.Some? { LoadSaved(g.members, saved.value, id); }
    }
  }

  /** The group takes the event: the store saves, and a join is named or the member it is about is live. */
  predicate Taken(g: Group, e: Event) {
    match e
    case Join(id, _, _, _, _, saved) => id != "" && saved
    case Heartbeat(id, _, _, now, saved) => saved && Live(g, id, now).Some?
    case Poll(id, now, saved) => saved && Live(g, id, now).Some?
    case Rebalance(_, _, _, _, fault) => fault.NoFault?
  }

  /**
   * A member's event that is not taken changes nothing, one that is taken leaves the member in the group, and only a
   * rebalance that is taken changes the assignment.
   */
  lemma {:induction false} TakenOrNothing(g: Group, e: Event)
    requires UniqueIds(g.members)
    ensures !e.Rebalance? && !Taken(g, e) ==> Apply(g, e) == g
    ensures !e.Rebalance? && Taken(g, e) ==> LoadMember(Apply(g, e).members, e.id).Some?
    ensures !(e.Rebalance? && Taken(g, e)) ==> Apply(g, e).assignment == g.assignment
  {
    if !e.Rebalance? && Taken(g, e) {
      var saved := SavedBy(g, e);
      if saved.Some? {
        LoadSaved(g.members, saved.value, e.id);
      } else {
        LoadNamed(g.members, e.id);
      }
    }
  }

  // ---- Leases over runs ----

  /** One of the events from i up to j deletes the member. */
  ghost predicate RemovedIn(events: seq<Event>, i: nat, j: nat, m: GroupMember)
    requires i <= j <= |events|
  {
    exists k: nat :: i <= k < j && Removes(events[k], m)
  }

  lemma {:induction false} RunStepMember(states: seq<ValidGroup>, events: seq<Event>, k: nat, id: string)
    requires IsRun(states, events) && k < |events| && !Concerns(events[k], id)
    ensures LoadMember(states[k + 1].members, id) == Passing(LoadMember(states[k].members, id), SparedBy(events[k]))
  {
    assert IsStep(states, events, k);
    StepMember(states[k], events[k], id);
  }

  lemma {:induction false} RunMember(
    states: seq<ValidGroup>, events: seq<Event>, i: nat, j: nat, id: string, m: GroupMember)
    requires IsRun(states, events) && i <= j <= |events| && LoadMember(states[i].members, id) == Some(m)
    requires forall k :: i <= k < j ==> !Concerns(events[k], id)
    ensures LoadMember(states[j].members, id) == if RemovedIn(events, i, j, m) then None else Some(m)
    decreases j
  {
    if i < j {
      RunMember(states, events, i, j - 1, id, m);
      RunStepMember(states, events, j - 1, id);
      RemovedNext(events, i, j, m);
    }
  }

  lemma {:induction false} RemovedNext(events: seq<Event>, i: nat, j: nat, m: GroupMember)
    requires i < j <= |events|
    ensures RemovedIn(events, i, j, m) <==> RemovedIn(events, i, j - 1, m) || Removes(events[j - 1], m)
  {
    if RemovedIn(events, i, j, m) {
      var k: nat :| i <= k < j && Removes(events[k], m);
      assert k < j - 1 || k == j - 1;
    }
  }

  /** When the member's lease ends: its session or its poll interval, whichever runs out first. */
  function Deadline(m: GroupMember): U64 {
    if ExpiresAt(m) < PollExpiresAt(m) then ExpiresAt(m) else PollExpiresAt(m)
  }

  /**
   * A member with no events of its own stays live exactly until its deadline, unless a rebalance that took place after
   * the deadline (by a clock that has stepped back since) has deleted it.
   */
  lemma {:induction false} LiveUntil(
    states: seq<ValidGroup>, events: seq<Event>, i: nat, j: nat, id: string, m: GroupMember, now: U64)
    requires IsRun(states, events) && i <= j <= |events| && LoadMember(states[i].members, id) == Some(m)
    requires forall k :: i <= k < j ==> !Concerns(events[k], id)
    ensures Live(states[j], id, now).Some? <==> now < Deadline(m) && !RemovedIn(events, i, j, m)
  {
    RunMember(states, events, i, j, id, m);
  }

  lemma {:induction false} NotRemoved(events: seq<Event>, i: nat, j: nat, m: GroupMember)
    requires i <= j <= |events| && forall k :: i <= k < j && events[k].Rebalance? ==> events[k].now < Deadline(m)
    ensures !RemovedIn(events, i, j, m)
  {
  }

  // ---- What renews a lease ----

  /** A join starts both clocks. */
  lemma {:induction false} JoinRenews(g: Group, e: Event)
    requires UniqueIds(g.members) && e.Join? && e.id != "" && e.saved
    ensures
      var m := LoadMember(Apply(g, e).members, e.id);
      && m.Some? && m.value.who == Member(e.id, e.topics)
      && ExpiresAt(m.value) == Plus(e.now, OrDefault(e.sessionMS, DefaultSessionTimeoutMS))
      && PollExpiresAt(m.value) == Plus(e.now, OrDefault(e.pollMS, DefaultMaxPollIntervalMS))
  {
    var m := GroupMember(Member(e.id, e.topics), OrDefault(e.sessionMS, DefaultSessionTimeoutMS),
                         OrDefault(e.pollMS, DefaultMaxPollIntervalMS), e.now, e.now, e.now);
    LoadSaved(g.members, m, e.id);
  }

  predicate Given(timeout: Option<U64>) {
    timeout.Some? && timeout.value > 0
  }

  /**
   * A heartbeat of a live member restarts the session clock, with the new timeout if it brings one. The poll clock
   * stays where it was, but for a new poll interval; and it starts with the heartbeat if the member never polled.
   */
  lemma {:induction false} HeartbeatRenews(g: Group, e: Event, m: GroupMember)
    requires UniqueIds(g.members) && e.Heartbeat? && e.saved && Live(g, e.id, e.now) == Some(m)
    ensures
      var after := LoadMember(Apply(g, e).members, e.id);
      var session := if Given(e.newSessionMS) then e.newSessionMS.value else SessionTimeout(m);
      && after.Some? && after.value.who == m.who && ExpiresAt(after.value) == Plus(e.now, session)
      && (m.lastPollMS > 0 ==> LastPoll(after.value) == m.lastPollMS)
      && (m.lastPollMS == 0 && e.now > 0 ==> LastPoll(after.value) == e.now)
      && (Given(e.newPollMS) ==> PollTimeout(after.value) == e.newPollMS.value)
      && (!Given(e.newPollMS) && m.maxPollIntervalMS > 0 ==> PollTimeout(after.value) == PollTimeout(m))
  {
    var session := if Given(e.newSessionMS) then e.newSessionMS.value else m.sessionTimeoutMS;
    var poll := if Given(e.newPollMS) then e.newPollMS.value else m.maxPollIntervalMS;
    LoadNamed(g.members, e.id);
    LoadSaved(g.members, m.(sessionTimeoutMS := session, maxPollIntervalMS := poll, lastHeartbeatMS := e.now), e.id);
  }

  /** A poll of a live member restarts the poll clock, and leaves the session clock where it was. */
  lemma {:induction false} PollRenews(g: Group, e: Event, m: GroupMember)
    requires UniqueIds(g.members) && e.Poll? && e.saved && Live(g, e.id, e.now) == Some(m)
    ensures
      var after := LoadMember(Apply(g, e).members, e.id);
      && after.Some? && after.value.who == m.who && ExpiresAt(after.value) == ExpiresAt(m)
      && PollExpiresAt(after.value) == Plus(if e.now == 0 then 1 else e.now, PollTimeout(m))
  {
    LoadNamed(g.members, e.id);
    LoadSaved(g.members, m.(lastPollMS := if e.now == 0 then 1 else e.now), e.id);
  }

  // ---- Ends beyond 64 bits ----

  lemma {:induction false} PlusWraps(a: U64, b: U64)
    ensures Plus(a, b) == if a + b <= MaxU64 then a + b else a + b - MaxU64 - 1
  {
  }

  /**
   * A member that joins at `now` is live at that moment if and only if neither its session nor its poll interval ends
   * beyond the last 64-bit millisecond.
   */
  lemma {:induction false} JoinedLiveExactlyWhen(g: Group, e: Event)
    requires UniqueIds(g.members) && e.Join? && e.id != "" && e.saved
    ensures Live(Apply(g, e), e.id, e.now).Some?
       <==> && e.now + OrDefault(e.sessionMS, DefaultSessionTimeoutMS) <= MaxU64
            && e.now + OrDefault(e.pollMS, DefaultMaxPollIntervalMS) <= MaxU64
  {
    JoinRenews(g, e);
    PlusWraps(e.now, OrDefault(e.sessionMS, DefaultSessionTimeoutMS));
    PlusWraps(e.now, OrDefault(e.pollMS, DefaultMaxPollIntervalMS));
  }

  /** A member that joins at millisecond 1 with the longest session is expired at once. */
  lemma {:induction false} JoinedDead(g: Group)
    requires UniqueIds(g.members)
    ensures Live(Apply(g, Join("m", [], 0xFFFF_FFFF_FFFF_FFFF, 0, 1, true)), "m", 1).None?
  {
    JoinedLiveExactlyWhen(g, Join("m", [], 0xFFFF_FFFF_FFFF_FFFF, 0, 1, true));
  }

  /**
   * In every run, a member that joined at `now` with no event of its own since, and with no rebalance after its lease
   * ended, is live exactly until the shorter of its two intervals is over; if either end lies beyond 64 bits it is cut
   * off at the wrapped sum.
   */
  lemma {:induction false} JoinedLiveUntil(
    states: seq<ValidGroup>, events: seq<Event>, i: nat, j: nat, now: U64)
    requires IsRun(states, events) && i < j <= |events|
    requires events[i].Join? && events[i].id != "" && events[i].saved
    requires forall k :: i < k < j ==> !Concerns(events[k], events[i].id)
    requires
      var e := events[i];
      var session := Plus(e.now, OrDefault(e.sessionMS, DefaultSessionTimeoutMS));
      var poll := Plus(e.now, OrDefault(e.pollMS, DefaultMaxPollIntervalMS));
      forall k :: i < k < j && events[k].Rebalance? ==> events[k].now < session && events[k].now < poll
    ensures
      var e := events[i];
      Live(states[j], e.id, now).Some?
      <==> && now < Plus(e.now, OrDefault(e.sessionMS, DefaultSessionTimeoutMS))
           && now < Plus(e.now, OrDefault(e.pollMS, DefaultMaxPollIntervalMS))
  {
    assert IsStep(states, events, i);
    JoinRenews(states[i], events[i]);
    var m := LoadMember(states[i + 1].members, events[i].id).value;
    NotRemoved(events, i + 1, j, m);
    LiveUntil(states, events, i + 1, j, events[i].id, m, now);
  }

  // ---- When a lease holds ----

  /** The member of this name is in the group and its lease has not ended. */
  ghost predicate LiveNamed(g: Group, id: string, now: U64) {
    exists m :: m in g.members && m.who.id == id && now < Deadline(m)
  }

  lemma {:induction false} LoadExactlyWhen(members: seq<GroupMember>, id: string, m: GroupMember)
    requires UniqueIds(members)
    ensures LoadMember(members, id) == Some(m) <==> m in members && m.who.id == id
  {
    if members != [] {
      var before, last := members[..|members| - 1], members[|members| - 1];
      LoadExactlyWhen(before, id, m);
      assert members == before + [last];
      if m in before {
        var i :| 0 <= i < |before| && before[i] == m;
        assert members[i] == m;
      }
    }
  }

  lemma {:induction false} LiveExactlyWhen(g: Group, id: string, now: U64)
    requires UniqueIds(g.members)
    ensures Live(g, id, now).Some? <==> LiveNamed(g, id, now)
  {
    if Live(g, id, now).Some? { LoadExactlyWhen(g.members, id, Live(g, id, now).value); }
    if LiveNamed(g, id, now) {
      var m :| m in g.members && m.who.id == id && now < Deadline(m);
      LoadExactlyWhen(g.members, id, m);
    }
  }

  /** The last row of the partition names the member. */
  ghost predicate LastNames(rows: seq<Row>, tp: TopicPartition, id: string) {
    exists i: nat :: i < |rows| && LastRowAt(rows, tp, id, i)
  }

  ghost predicate LastRowAt(rows: seq<Row>, tp: TopicPartition, id: string, i: nat)
    requires i < |rows|
  {
    && PartitionOf(rows[i]) == tp && rows[i].member == id
    && forall j :: i < j < |rows| ==> PartitionOf(rows[j]) != tp
  }

  lemma {:induction false} OwnerExactlyWhen(rows: seq<Row>, tp: TopicPartition, id: string)
    ensures OwnerOf(rows, tp) == Some(id) <==> LastNames(rows, tp, id)
  {
    if rows != [] {
      var n := |rows| - 1;
      OwnerExactlyWhen(rows[..n], tp, id);
      if PartitionOf(rows[n]) == tp {
        if rows[n].member == id { assert LastRowAt(rows, tp, id, n); }
      } else if LastNames(rows[..n], tp, id) {
        var i: nat :| i < n && LastRowAt(rows[..n], tp, id, i);
        assert LastRowAt(rows, tp, id, i);
      } else if LastNames(rows, tp, id) {
        var i: nat :| i < |rows| && LastRowAt(rows, tp, id, i);
        assert LastRowAt(rows[..n], tp, id, i);
      }
    }
  }

  /**
   * A lease check passes exactly for a named live member that brings the generation of the saved assignment and is
   * named by the last row of the partition.
   */
  lemma {:induction false} LeaseExactlyWhen(g: Group, id: string, generation: U64, tp: TopicPartition, now: U64)
    requires UniqueIds(g.members)
    ensures ValidateLease(g, id, generation, tp, now).Ok?
       <==> && id != "" && generation != 0 && LiveNamed(g, id, now)
            && g.assignment.Some? && g.assignment.value.generation == generation
            && LastNames(g.assignment.value.rows, tp, id)
  {
    LiveExactlyWhen(g, id, now);
    if g.assignment.Some? { OwnerExactlyWhen(g.assignment.value.rows, tp, id); }
  }
}
