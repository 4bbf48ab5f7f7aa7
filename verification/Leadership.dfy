/** The greedy pass that evens out raft leadership over the nodes of a cluster. */
module Leadership {
  import opened Basics
  import opened Sorting

  datatype RaftGroup = RaftGroup(groupID: nat, leaderID: nat, ready: bool)
  datatype Transfer = Transfer(groupID: nat, targetNode: nat, requested: bool)

  type Loads = map<nat, nat>

  function LoadOf(load: Loads, node: nat): nat {
    if node in load then load[node] else 0
  }

  /** The groups that count towards a node's load. */
  function CountedFor(node: nat): RaftGroup -> bool {
    (g: RaftGroup) => g.ready && g.leaderID != 0 && g.leaderID == node
  }

  function LedBy(node: nat): RaftGroup -> bool {
    (g: RaftGroup) => g.leaderID == node
  }

  predicate GroupLe(a: RaftGroup, b: RaftGroup) {
    a.groupID <= b.groupID
  }

  ghost predicate LoadsCount(load: Loads, groups: seq<RaftGroup>) {
    && (forall n :: LoadOf(load, n) == Count(groups, CountedFor(n)))
    && (forall n :: n in load ==> load[n] > 0)
  }

  method LeaderLoadFromHealth(groups: seq<RaftGroup>) returns (load: Loads)
    ensures LoadsCount(load, groups)
  {
    load := map[];
    for i := 0 to |groups|
      invariant LoadsCount(load, groups[..i])
    {
      var group := groups[i];
      assert groups[..i + 1][..i] == groups[..i];
      if group.ready && group.leaderID != 0 {
        load := load[group.leaderID := LoadOf(load, group.leaderID) + 1];
      }
    }
    assert groups[..|groups|] == groups;
  }

  /** The node with the smallest load, the smallest identifier breaking ties. */
  ghost predicate IsLeast(load: Loads, node: nat) {
    node in load &&
    forall k :: k in load ==> load[node] < load[k] || (load[node] == load[k] && node <= k)
  }

  lemma {:induction false} LeastExists(load: Loads)
    requires load != map[]
    ensures exists n :: IsLeast(load, n)
    decreases |load|
  {
    var k :| k in load;
    var rest := load - {k};
    assert load.Keys == rest.Keys + {k};
    if rest == map[] {
      assert IsLeast(load, k);
    } else {
      LeastExists(rest);
      var n :| IsLeast(rest, n);
      if load[k] < load[n] || (load[k] == load[n] && k <= n) {
        assert IsLeast(load, k);
      } else {
        assert IsLeast(load, n);
      }
    }
  }

  ghost function Least(load: Loads): (n: nat)
    requires load != map[]
    ensures IsLeast(load, n)
  {
    LeastExists(load);
    var n :| IsLeast(load, n);
    n
  }

  /** Where a group led by `current` should move, if anywhere. */
  ghost function Target(load: Loads, current: nat): Option<nat> {
    if load == map[] || current == 0 || LoadOf(load, current) < load[Least(load)] + 2 then None
    else Some(Least(load))
  }

  method LeastLoadedLeaderTarget(load: Loads, current: nat) returns (r: Option<nat>)
    ensures r == Target(load, current)
  {
    var found, target, targetLoad := false, 0, 0;
    var rest := load.Keys;
    while rest != {}
      invariant rest <= load.Keys
      invariant found <==> rest != load.Keys
      invariant found ==> target in load && targetLoad == load[target]
      invariant found ==> forall k :: k in load.Keys - rest ==>
                                targetLoad < load[k] || (targetLoad == load[k] && target <= k)
    {
      var nodeID :| nodeID in rest;
      var count := load[nodeID];
      if !found || count < targetLoad || (count == targetLoad && nodeID < target) {
        target, targetLoad, found := nodeID, count, true;
      }
      rest := rest - {nodeID};
    }
    if !found {
      assert load.Keys == {};
      return None;
    }
    assert IsLeast(load, target);
    if current == 0 || LoadOf(load, current) - targetLoad < 2 {
      return None;
    }
    return Some(target);
  }

  /** Loads and requested transfers after some groups have been looked at. */
  datatype Progress = Progress(load: Loads, transfers: seq<Transfer>)

  /** What the pass does with one group; `accepts` says which transfer requests the cluster grants. */
  ghost function Visit(p: Progress, g: RaftGroup, accepts: nat -> bool): Progress {
    match Target(p.load, g.leaderID)
    case None => p
    case Some(t) =>
      if t == g.leaderID then p
      else
        var transfer := Transfer(g.groupID, t, accepts(g.groupID));
        if accepts(g.groupID) then
          var lowered := p.load[g.leaderID := Max(LoadOf(p.load, g.leaderID) - 1, 0)];
          Progress(lowered[t := LoadOf(lowered, t) + 1], p.transfers + [transfer])
        else
          Progress(p.load, p.transfers + [transfer])
  }

  ghost function Pass(load: Loads, groups: seq<RaftGroup>, accepts: nat -> bool): Progress {
    if groups == [] then Progress(load, [])
    else Visit(Pass(load, groups[..|groups| - 1], accepts), groups[|groups| - 1], accepts)
  }

  // ---- What one visit does ----

  /** A visit moves one unit of load from a node at least two above the least loaded node to that node, or nothing. */
  lemma {:induction false} VisitShape(p: Progress, g: RaftGroup, accepts: nat -> bool)
    ensures
      var q := Visit(p, g, accepts);
      match Target(p.load, g.leaderID)
      case None => q == p
      case Some(t) =>
        && t in p.load && g.leaderID in p.load && t != g.leaderID && IsLeast(p.load, t)
        && p.load[g.leaderID] >= p.load[t] + 2
        && q.transfers == p.transfers + [Transfer(g.groupID, t, accepts(g.groupID))]
        && q.load == (if accepts(g.groupID)
                      then p.load[g.leaderID := p.load[g.leaderID] - 1][t := p.load[t] + 1]
                      else p.load)
  {
  }

  /** No node is more than one below this one. */
  ghost predicate Settled(load: Loads, a: nat)
    requires a in load
  {
    forall b :: b in load ==> load[a] <= load[b] + 1
  }

  lemma {:induction false} PassKeepsNodes(load: Loads, groups: seq<RaftGroup>, accepts: nat -> bool)
    ensures Pass(load, groups, accepts).load.Keys == load.Keys
  {
    if groups != [] {
      PassKeepsNodes(load, groups[..|groups| - 1], accepts);
      VisitShape(Pass(load, groups[..|groups| - 1], accepts), groups[|groups| - 1], accepts);
    }
  }

  /** Once a node is settled it stays settled. */
  lemma {:induction false} VisitKeepsSettled(p: Progress, g: RaftGroup, accepts: nat -> bool, a: nat)
    requires a in p.load && Settled(p.load, a)
    ensures a in Visit(p, g, accepts).load && Settled(Visit(p, g, accepts).load, a)
  {
    VisitShape(p, g, accepts);
  }

  /** Requests made for groups led by `a` that the cluster granted, respectively refused. */
  ghost function Granted(load: Loads, groups: seq<RaftGroup>, accepts: nat -> bool, a: nat): nat {
    if groups == [] then 0
    else
      var g := groups[|groups| - 1];
      var before := groups[..|groups| - 1];
      Granted(load, before, accepts, a) +
      (if g.leaderID == a && Target(Pass(load, before, accepts).load, a).Some? && accepts(g.groupID) then 1 else 0)
  }

  ghost function Refused(load: Loads, groups: seq<RaftGroup>, accepts: nat -> bool, a: nat): nat {
    if groups == [] then 0
    else
      var g := groups[|groups| - 1];
      var before := groups[..|groups| - 1];
      Refused(load, before, accepts, a) +
      (if g.leaderID == a && Target(Pass(load, before, accepts).load, a).Some? && !accepts(g.groupID) then 1 else 0)
  }

  /** A node still unsettled has had a request made for each of its groups, and lost exactly the granted ones. */
  lemma {:induction false} UnsettledAccounting(load: Loads, groups: seq<RaftGroup>, accepts: nat -> bool, a: nat)
    requires a in load && a != 0
    ensures
      var now := Pass(load, groups, accepts).load;
      a in now &&
      (!Settled(now, a) ==>
         && now[a] + Granted(load, groups, accepts, a) == load[a]
         && Granted(load, groups, accepts, a) + Refused(load, groups, accepts, a) == Count(groups, LedBy(a)))
  {
    if groups != [] {
      var before, g := groups[..|groups| - 1], groups[|groups| - 1];
      var p := Pass(load, before, accepts);
      UnsettledAccounting(load, before, accepts, a);
      VisitShape(p, g, accepts);
      if Settled(p.load, a) {
        VisitKeepsSettled(p, g, accepts, a);
      } else if g.leaderID == a {
        assert Target(p.load, a).Some?;
      }
    }
  }

  lemma {:induction false} CountedAreLed(groups: seq<RaftGroup>, a: nat)
    ensures Count(groups, CountedFor(a)) <= Count(groups, LedBy(a))
  {
    if groups != [] {
      CountedAreLed(groups[..|groups| - 1], a);
    }
  }

  /**
   * One greedy pass suffices. Whatever groups are unready, leaderless or refused, and in whatever order the
   * groups are visited: a node left two or more above another had at least as many refusals as its final load.
   */
  lemma {:induction false} OnePassSuffices(load: Loads, groups: seq<RaftGroup>, accepts: nat -> bool, a: nat, b: nat)
    requires LoadsCount(load, groups)
    requires a in load && b in load
    ensures
      var final := Pass(load, groups, accepts).load;
      && a in final && b in final
      && (final[a] >= final[b] + 2 ==> Refused(load, groups, accepts, a) >= final[a])
  {
    PassKeepsNodes(load, groups, accepts);
    assert LoadOf(load, a) > 0 && LoadOf(load, a) == Count(groups, CountedFor(a));
    assert a != 0 by {
      if a == 0 {
        NobodyCountsForZero(groups);
      }
    }
    CountedAreLed(groups, a);
    UnsettledAccounting(load, groups, accepts, a);
  }

  lemma {:induction false} NobodyCountsForZero(groups: seq<RaftGroup>)
    ensures Count(groups, CountedFor(0)) == 0
  {
    if groups != [] {
      NobodyCountsForZero(groups[..|groups| - 1]);
    }
  }

  lemma {:induction false} NoRefusals(load: Loads, groups: seq<RaftGroup>, accepts: nat -> bool, a: nat)
    requires forall g :: g in groups ==> accepts(g.groupID)
    ensures Refused(load, groups, accepts, a) == 0
  {
    if groups != [] {
      NoRefusals(load, groups[..|groups| - 1], accepts, a);
    }
  }

  // ---- Conservation and progress of the loads ----

  /** Sum of w(load) over all nodes. */
  ghost function Weigh(load: Loads, w: nat -> nat): nat
    decreases |load|
  {
    if load == map[] then 0
    else
      var k :| k in load;
      w(load[k]) + Weigh(load - {k}, w)
  }

  lemma {:induction false} WeighSplit(load: Loads, w: nat -> nat, k: nat)
    requires k in load
    ensures Weigh(load, w) == w(load[k]) + Weigh(load - {k}, w)
    decreases |load|
  {
    var j :| j in load && Weigh(load, w) == w(load[j]) + Weigh(load - {j}, w);
    if j != k {
      WeighSplit(load - {j}, w, k);
      WeighSplit(load - {k}, w, j);
      assert load - {j} - {k} == load - {k} - {j};
    }
  }

  lemma {:induction false} WeighMove(load: Loads, moved: Loads, w: nat -> nat, c: nat, t: nat)
    requires c in load && t in load && c != t && moved.Keys == load.Keys
    requires forall n :: n in load && n != c && n != t ==> moved[n] == load[n]
    ensures Weigh(moved, w) - Weigh(load, w) == w(moved[c]) + w(moved[t]) - w(load[c]) - w(load[t])
  {
    WeighSplit(load, w, c);
    WeighSplit(load - {c}, w, t);
    WeighSplit(moved, w, c);
    WeighSplit(moved - {c}, w, t);
    assert moved - {c} - {t} == load - {c} - {t};
  }

  const Same: nat -> nat := (x: nat) => x
  const Square: nat -> nat := (x: nat) => x * x

  lemma {:induction false} SquaresDrop(x: nat, y: nat)
    requires x >= y + 2
    ensures Square(x - 1) + Square(y + 1) + 2 * (x - y - 1) == Square(x) + Square(y)
  {
    assert (x - 1) * (x - 1) == x * x - 2 * x + 1;
    assert (y + 1) * (y + 1) == y * y + 2 * y + 1;
  }

  lemma {:induction false} MoveLowers(load: Loads, moved: Loads, w: nat -> nat, c: nat, t: nat, drop: nat)
    requires c in load && t in load && c != t && moved.Keys == load.Keys
    requires forall n :: n in load && n != c && n != t ==> moved[n] == load[n]
    requires w(load[c]) + w(load[t]) == w(moved[c]) + w(moved[t]) + drop
    ensures Weigh(moved, w) + drop == Weigh(load, w)
  {
    WeighMove(load, moved, w, c, t);
  }

  /** moved differs from load by one unit, taken from c and given to t. */
  ghost predicate Moved(load: Loads, moved: Loads, c: nat, t: nat) {
    && c in load && t in load && c != t && moved.Keys == load.Keys
    && (forall n :: n in load && n != c && n != t ==> moved[n] == load[n])
    && moved[c] + 1 == load[c] && moved[t] == load[t] + 1
  }

  lemma {:induction false} MoveKeepsTotal(load: Loads, moved: Loads, c: nat, t: nat)
    requires Moved(load, moved, c, t)
    ensures Weigh(moved, Same) == Weigh(load, Same)
  {
    MoveLowers(load, moved, Same, c, t, 0);
  }

  lemma {:induction false} MoveLowersSquares(load: Loads, moved: Loads, c: nat, t: nat)
    requires Moved(load, moved, c, t) && load[c] >= load[t] + 2
    ensures Weigh(moved, Square) + 2 * (load[c] - load[t] - 1) == Weigh(load, Square)
  {
    SquaresDrop(load[c], load[t]);
    MoveLowers(load, moved, Square, c, t, 2 * (load[c] - load[t] - 1));
  }

  /** A granted transfer keeps the total load and strictly lowers the sum of squared loads. */
  lemma {:induction false} TransferLowersEnergy(p: Progress, g: RaftGroup, accepts: nat -> bool)
    ensures
      var q := Visit(p, g, accepts);
      && Weigh(q.load, Same) == Weigh(p.load, Same)
      && if Target(p.load, g.leaderID).Some? && accepts(g.groupID)
         then Weigh(q.load, Square) < Weigh(p.load, Square)
         else q.load == p.load
  {
    VisitShape(p, g, accepts);
    if Target(p.load, g.leaderID).Some? && accepts(g.groupID) {
      var moved, t := Visit(p, g, accepts).load, Target(p.load, g.leaderID).value;
      MoveKeepsTotal(p.load, moved, g.leaderID, t);
      MoveLowersSquares(p.load, moved, g.leaderID, t);
    }
  }

  lemma {:induction false} PassConservesLoad(load: Loads, groups: seq<RaftGroup>, accepts: nat -> bool)
    ensures Weigh(Pass(load, groups, accepts).load, Same) == Weigh(load, Same)
    ensures Weigh(Pass(load, groups, accepts).load, Square) <= Weigh(load, Square)
  {
    if groups != [] {
      PassConservesLoad(load, groups[..|groups| - 1], accepts);
      TransferLowersEnergy(Pass(load, groups[..|groups| - 1], accepts), groups[|groups| - 1], accepts);
    }
  }

  // ---- The actual leaders ----

  ghost function Leaders(groups: seq<RaftGroup>): (l: seq<nat>) {
    if groups == [] then [] else Leaders(groups[..|groups| - 1]) + [groups[|groups| - 1].leaderID]
  }

  /** Who leads a group after it has been visited with these loads. */
  ghost function NewLeader(load: Loads, g: RaftGroup, accepts: nat -> bool): nat {
    var target := Target(load, g.leaderID);
    if target.Some? && accepts(g.groupID) then target.value else g.leaderID
  }

  lemma {:induction false} VisitTracksLeader(p: Progress, g: RaftGroup, accepts: nat -> bool, n: nat)
    ensures LoadOf(Visit(p, g, accepts).load, n) + (if n == g.leaderID then 1 else 0)
         == LoadOf(p.load, n) + (if n == NewLeader(p.load, g, accepts) then 1 else 0)
  {
    VisitShape(p, g, accepts);
  }

  /** Who leads each group once the granted transfers have happened. */
  ghost function LeadersAfter(load: Loads, groups: seq<RaftGroup>, accepts: nat -> bool): (l: seq<nat>)
    ensures |l| == |groups|
  {
    if groups == [] then []
    else
      var before := groups[..|groups| - 1];
      LeadersAfter(load, before, accepts) +
      [NewLeader(Pass(load, before, accepts).load, groups[|groups| - 1], accepts)]
  }

  /** The load table tracks the true number of groups led: `unvisited` stands for the groups still to come. */
  lemma {:induction false} LoadsTrackLeaders(
    load: Loads, groups: seq<RaftGroup>, unvisited: nat, accepts: nat -> bool, n: nat)
    requires LoadOf(load, n) == multiset(Leaders(groups))[n] + unvisited
    ensures LoadOf(Pass(load, groups, accepts).load, n) == multiset(LeadersAfter(load, groups, accepts))[n] + unvisited
  {
    if groups != [] {
      var before, g := groups[..|groups| - 1], groups[|groups| - 1];
      LoadsTrackLeaders(load, before, unvisited + (if n == g.leaderID then 1 else 0), accepts, n);
      VisitTracksLeader(Pass(load, before, accepts), g, accepts, n);
    }
  }

  lemma {:induction false} AllCounted(groups: seq<RaftGroup>, n: nat)
    requires forall g :: g in groups ==> g.ready && g.leaderID != 0
    ensures Count(groups, CountedFor(n)) == multiset(Leaders(groups))[n]
  {
    if groups != [] {
      AllCounted(groups[..|groups| - 1], n);
    }
  }

  lemma {:induction false} LoadIsLeadersAfter(load: Loads, groups: seq<RaftGroup>, accepts: nat -> bool, n: nat)
    requires LoadsCount(load, groups)
    requires forall g :: g in groups ==> g.ready && g.leaderID != 0
    ensures LoadOf(load, n) == multiset(Leaders(groups))[n]
    ensures LoadOf(Pass(load, groups, accepts).load, n) == multiset(LeadersAfter(load, groups, accepts))[n]
  {
    AllCounted(groups, n);
    LoadsTrackLeaders(load, groups, 0, accepts, n);
  }

  /**
   * With every group ready and led and every request granted, one pass leaves the real leaders balanced: any two
   * nodes that led something differ by at most one group, and no node that led nothing leads anything.
   */
  lemma {:induction false} LeadersBalanced(load: Loads, groups: seq<RaftGroup>, accepts: nat -> bool, a: nat, b: nat)
    requires LoadsCount(load, groups)
    requires forall g :: g in groups ==> g.ready && g.leaderID != 0 && accepts(g.groupID)
    requires b in Leaders(groups)
    ensures
      var after := multiset(LeadersAfter(load, groups, accepts));
      if a in Leaders(groups) then after[a] <= after[b] + 1 else after[a] == 0
  {
    LoadIsLeadersAfter(load, groups, accepts, a);
    LoadIsLeadersAfter(load, groups, accepts, b);
    PassKeepsNodes(load, groups, accepts);
    assert b in multiset(Leaders(groups));
    if a in Leaders(groups) {
      assert a in multiset(Leaders(groups));
      OnePassSuffices(load, groups, accepts, a, b);
      NoRefusals(load, groups, accepts, a);
    } else {
      assert a !in multiset(Leaders(groups));
    }
  }

  /** The order in which the groups are sorted before the pass does not disturb what is counted. */
  lemma {:induction false} SortedGroupsCountTheSame(load: Loads, groups: seq<RaftGroup>)
    requires LoadsCount(load, groups)
    ensures LoadsCount(load, Sort(groups, GroupLe))
    ensures multiset(Sort(groups, GroupLe)) == multiset(groups)
  {
    SortCorrect(groups, GroupLe);
    forall n ensures Count(Sort(groups, GroupLe), CountedFor(n)) == Count(groups, CountedFor(n)) {
      CountPermutation(Sort(groups, GroupLe), groups, CountedFor(n));
    }
  }

  ghost predicate WithinOne(load: Loads) {
    forall a, b :: a in load && b in load ==> load[a] <= load[b] + 1
  }

  lemma {:induction false} SortedPassBalances(start: Loads, groups: seq<RaftGroup>, accepts: nat -> bool)
    requires LoadsCount(start, groups)
    ensures
      (forall g :: g in groups ==> accepts(g.groupID)) ==> WithinOne(Pass(start, Sort(groups, GroupLe), accepts).load)
  {
    var ordered := Sort(groups, GroupLe);
    SortedGroupsCountTheSame(start, groups);
    if forall g :: g in groups ==> accepts(g.groupID) {
      forall g | g in ordered ensures accepts(g.groupID) {
        assert g in multiset(ordered);
      }
      PassBalances(start, ordered, accepts);
    }
  }

  lemma {:induction false} PassBalances(start: Loads, groups: seq<RaftGroup>, accepts: nat -> bool)
    requires LoadsCount(start, groups) && forall g :: g in groups ==> accepts(g.groupID)
    ensures WithinOne(Pass(start, groups, accepts).load)
  {
    var load := Pass(start, groups, accepts).load;
    PassKeepsNodes(start, groups, accepts);
    forall a, b | a in load && b in load ensures load[a] <= load[b] + 1 {
      OnePassSuffices(start, groups, accepts, a, b);
      NoRefusals(start, groups, accepts, a);
    }
  }

  lemma {:induction false} PassStep(start: Loads, groups: seq<RaftGroup>, i: nat, accepts: nat -> bool)
    requires i < |groups|
    ensures Pass(start, groups[..i + 1], accepts) == Visit(Pass(start, groups[..i], accepts), groups[i], accepts)
  {
    assert groups[..i + 1][..i] == groups[..i];
  }

  method VisitGroups(ordered: seq<RaftGroup>, accepts: nat -> bool, start: Loads)
    returns (transfers: seq<Transfer>, load: Loads)
    ensures Pass(start, ordered, accepts) == Progress(load, transfers)
  {
    load, transfers := start, [];
    for i := 0 to |ordered|
      invariant Pass(start, ordered[..i], accepts) == Progress(load, transfers)
    {
      PassStep(start, ordered, i, accepts);
      load, transfers := VisitGroup(ordered[i], accepts, load, transfers);
    }
    assert ordered[..|ordered|] == ordered;
  }

  method VisitGroup(group: RaftGroup, accepts: nat -> bool, load: Loads, transfers: seq<Transfer>)
    returns (newLoad: Loads, newTransfers: seq<Transfer>)
    ensures Visit(Progress(load, transfers), group, accepts) == Progress(newLoad, newTransfers)
  {
    newLoad, newTransfers := load, transfers;
    var target := LeastLoadedLeaderTarget(load, group.leaderID);
    if target.None? || target.value == group.leaderID { return; }
    newTransfers := transfers + [Transfer(group.groupID, target.value, accepts(group.groupID))];
    if accepts(group.groupID) {
      newLoad := newLoad[group.leaderID := Max(LoadOf(newLoad, group.leaderID) - 1, 0)];
      newLoad := newLoad[target.value := LoadOf(newLoad, target.value) + 1];
    }
  }

  method BalanceLeadership(groups: seq<RaftGroup>, accepts: nat -> bool)
    returns (transfers: seq<Transfer>, load: Loads, ghost start: Loads)
    ensures LoadsCount(start, groups)
    ensures Pass(start, Sort(groups, GroupLe), accepts) == Progress(load, transfers)
    ensures (forall g :: g in groups ==> accepts(g.groupID)) ==> WithinOne(load)
  {
    var counted := LeaderLoadFromHealth(groups);
    start := counted;
    transfers, load := VisitGroups(Sort(groups, GroupLe), accepts, counted);
    SortedPassBalances(start, groups, accepts);
  }
}
