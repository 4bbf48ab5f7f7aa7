/**
 * Applying many produce requests at once: group them by partition, append each group's records together, split the
 * result; against publishing the requests one at a time.
 */
module Grouping {
  import opened Basics
  import opened Logs
  import I = Idempotency
  import M = Messages

  /** A partition's log together with the producer batches remembered for it. */
  datatype Part = Part(log: Log, batches: seq<I.Batch>)

  type Parts = map<TopicPartition, Part>

  function PartOf(parts: Parts, tp: TopicPartition): Part {
    if tp in parts then parts[tp] else Part(Log([], 0), [])
  }

  /** A request after planning: refused, or bound for a partition. */
  datatype Planned = Refused(error: string) | Planned(tp: TopicPartition, id: Option<M.Id>, messages: seq<Payload>)

  /** What one caller is told. */
  datatype Item = Item(partition: nat, records: seq<Record>, appended: bool, error: Option<string>)

  const Blank := Item(0, [], false, None)

  function Failure(error: string): Item {
    Blank.(error := Some(error))
  }

  /** What the surroundings do to one request: clock, store failures, and whether planning it again refuses it. */
  datatype Env = Env(now: nat, faults: I.Faults, refusal: Option<string>)

  // ---- One request at one partition ----

  /** What applying one request does to its partition, and what its caller is told. */
  type Stepper = (Part, TopicPartition, Planned, Env) -> (Part, Item)

  function Step(p: Part, tp: TopicPartition, r: Planned, e: Env): (Part, Item) {
    if r.Refused? then (p, Failure(r.error))
    else if e.refusal.Some? then (p, Failure(e.refusal.value))
    else if r.id.None? then
      if e.faults.publish then (p, Failure("publish record batch"))
      else
        (p.(log := Append(p.log, r.messages)), Item(tp.partition, Stamp(p.log.next, r.messages), true, None))
    else
      var (s, answer) :=
        I.Produce(I.State(map[tp := p.log], p.batches), I.Request(r.id.value, tp, r.messages), e.now, e.faults);
      (Part(I.LogOf(s, tp), s.table),
       match answer
       case Err(error) => Failure(error)
       case Ok(a) => Item(tp.partition, a.records, a.appended, None))
  }

  predicate Targets(r: Planned, tp: TopicPartition) {
    r.Planned? && r.tp == tp
  }

  /** A partition after those of the first i requests that go to it, taken in order. */
  function Upto(step: Stepper, p: Part, reqs: seq<Planned>, es: seq<Env>, tp: TopicPartition, i: nat): Part
    requires i <= |reqs| == |es|
  {
    if i == 0 then p
    else
      var before := Upto(step, p, reqs, es, tp, i - 1);
      if Targets(reqs[i - 1], tp) then step(before, tp, reqs[i - 1], es[i - 1]).0 else before
  }

  /** Partitions whose whole group fails, with the reason. */
  type Failing = TopicPartition -> Option<string>

  function PartAfter(
    step: Stepper, parts: Parts, reqs: seq<Planned>, es: seq<Env>, failing: Failing, tp: TopicPartition): Part
    requires |reqs| == |es|
  {
    if failing(tp).Some? then PartOf(parts, tp) else Upto(step, PartOf(parts, tp), reqs, es, tp, |reqs|)
  }

  function ItemFor(step: Stepper, parts: Parts, reqs: seq<Planned>, es: seq<Env>, failing: Failing, i: nat): Item
    requires i < |reqs| == |es|
  {
    match reqs[i]
    case Refused(error) => Failure(error)
    case Planned(tp, _, _) =>
      match failing(tp)
      case Some(error) => Failure(error)
      case None => step(Upto(step, PartOf(parts, tp), reqs, es, tp, i), tp, reqs[i], es[i]).1
  }

  // ---- One at a time ----

  /** The requests published one after the other. */
  function OneByOne(step: Stepper, parts: Parts, reqs: seq<Planned>, es: seq<Env>, failing: Failing, i: nat)
    : (r: (Parts, seq<Item>))
    requires i <= |reqs| == |es|
    ensures |r.1| == i
  {
    if i == 0 then (parts, [])
    else
      var (before, items) := OneByOne(step, parts, reqs, es, failing, i - 1);
      match reqs[i - 1]
      case Refused(error) => (before, items + [Failure(error)])
      case Planned(tp, _, _) =>
        match failing(tp)
        case Some(error) => (before, items + [Failure(error)])
        case None =>
          var (p, item) := step(PartOf(before, tp), tp, reqs[i - 1], es[i - 1]);
          (before[tp := p], items + [item])
  }

  lemma {:induction false} OneByOneParts(
    step: Stepper, parts: Parts, reqs: seq<Planned>, es: seq<Env>, failing: Failing, i: nat, tp: TopicPartition)
    requires i <= |reqs| == |es|
    ensures PartOf(OneByOne(step, parts, reqs, es, failing, i).0, tp)
         == if failing(tp).Some? then PartOf(parts, tp) else Upto(step, PartOf(parts, tp), reqs, es, tp, i)
  {
    if i > 0 { OneByOneParts(step, parts, reqs, es, failing, i - 1, tp); }
  }

  lemma {:induction false} OneByOneItems(
    step: Stepper, parts: Parts, reqs: seq<Planned>, es: seq<Env>, failing: Failing, i: nat, k: nat)
    requires k < i <= |reqs| == |es|
    ensures OneByOne(step, parts, reqs, es, failing, i).1[k] == ItemFor(step, parts, reqs, es, failing, k)
  {
    if k < i - 1 {
      OneByOneItems(step, parts, reqs, es, failing, i - 1, k);
    } else if reqs[k].Planned? {
      OneByOneParts(step, parts, reqs, es, failing, k, reqs[k].tp);
    }
  }

  // ---- Groups ----

  /** The requests among the first n that go to a partition, in order. */
  function IndexesOf(reqs: seq<Planned>, tp: TopicPartition, n: nat): (idx: seq<nat>)
    requires n <= |reqs|
  {
    if n == 0 then []
    else
      var before := IndexesOf(reqs, tp, n - 1);
      if Targets(reqs[n - 1], tp) then before + [n - 1] else before
  }

  lemma {:induction false} IndexesCorrect(reqs: seq<Planned>, tp: TopicPartition, n: nat)
    requires n <= |reqs|
    ensures
      var idx := IndexesOf(reqs, tp, n);
      && (forall i :: i in idx <==> 0 <= i < n && Targets(reqs[i], tp))
      && (forall a, b :: 0 <= a < b < |idx| ==> idx[a] < idx[b])
  {
    if n > 0 {
      IndexesCorrect(reqs, tp, n - 1);
      var before := IndexesOf(reqs, tp, n - 1);
      assert forall a :: 0 <= a < |before| ==> before[a] in before;
    }
  }

  type Groups = map<TopicPartition, seq<nat>>

  function GroupOf(groups: Groups, tp: TopicPartition): seq<nat> {
    if tp in groups then groups[tp] else []
  }

  ghost predicate AreGroups(groups: Groups, reqs: seq<Planned>, n: nat)
    requires n <= |reqs|
  {
    forall tp :: GroupOf(groups, tp) == IndexesOf(reqs, tp, n)
  }

  lemma {:induction false} GroupsGrow(groups: Groups, reqs: seq<Planned>, n: nat)
    requires n < |reqs| && AreGroups(groups, reqs, n)
    ensures
      var after := if reqs[n].Planned? then groups[reqs[n].tp := GroupOf(groups, reqs[n].tp) + [n]] else groups;
      AreGroups(after, reqs, n + 1)
  {
    var after := if reqs[n].Planned? then groups[reqs[n].tp := GroupOf(groups, reqs[n].tp) + [n]] else groups;
    forall tp ensures GroupOf(after, tp) == IndexesOf(reqs, tp, n + 1) {
      assert GroupOf(groups, tp) == IndexesOf(reqs, tp, n);
    }
  }

  method GroupPlans(reqs: seq<Planned>) returns (groups: Groups)
    ensures AreGroups(groups, reqs, |reqs|)
    ensures forall tp :: tp in groups ==> groups[tp] != []
  {
    groups := map[];
    for i := 0 to |reqs|
      invariant AreGroups(groups, reqs, i)
      invariant forall tp :: tp in groups ==> groups[tp] != []
    {
      GroupsGrow(groups, reqs, i);
      if reqs[i].Planned? {
        groups := groups[reqs[i].tp := GroupOf(groups, reqs[i].tp) + [i]];
      }
    }
  }

  /** A group with an idempotent request is applied request by request. */
  predicate Individually(reqs: seq<Planned>, tp: TopicPartition) {
    exists i :: 0 <= i < |reqs| && Targets(reqs[i], tp) && reqs[i].id.Some?
  }

  /** Requests of a group appended as a whole have no failures of their own and are not planned again. */
  function Effective(reqs: seq<Planned>, es: seq<Env>): (out: seq<Env>)
    requires |es| == |reqs|
    ensures |out| == |es|
  {
    seq(|es|, i requires 0 <= i < |es| =>
      if reqs[i].Planned? && !Individually(reqs, reqs[i].tp) then Env(es[i].now, I.NoFaults, None) else es[i])
  }

  /** Between two indexes of a group, nothing happens to its partition. */
  lemma {:induction false} UptoSkips(
    step: Stepper, p: Part, reqs: seq<Planned>, es: seq<Env>, tp: TopicPartition, a: nat, b: nat)
    requires a <= b <= |reqs| == |es| && forall i :: a <= i < b ==> !Targets(reqs[i], tp)
    ensures Upto(step, p, reqs, es, tp, a) == Upto(step, p, reqs, es, tp, b)
    decreases b
  {
    if a < b { UptoSkips(step, p, reqs, es, tp, a, b - 1); }
  }

  /** Where the k-th request of a group stands, or the end. */
  function At(idx: seq<nat>, k: nat, n: nat): nat
    requires k <= |idx|
  {
    if k < |idx| then idx[k] else n
  }

  ghost predicate Increasing(idx: seq<nat>) {
    forall a: nat, b: nat :: a < b < |idx| ==> Below(idx, a, b)
  }

  ghost predicate Below(idx: seq<nat>, a: nat, b: nat)
    requires a < b < |idx|
  {
    idx[a] < idx[b]
  }

  /** idx lists, in order, exactly the requests that go to the partition. */
  ghost predicate IsGroup(idx: seq<nat>, reqs: seq<Planned>, tp: TopicPartition) {
    Increasing(idx) && forall i: nat :: Listed(idx, reqs, tp, i)
  }

  ghost predicate Listed(idx: seq<nat>, reqs: seq<Planned>, tp: TopicPartition, i: nat) {
    i in idx <==> i < |reqs| && Targets(reqs[i], tp)
  }

  lemma {:induction false} IndexesAreGroup(reqs: seq<Planned>, tp: TopicPartition)
    ensures IsGroup(IndexesOf(reqs, tp, |reqs|), reqs, tp)
  {
    IndexesCorrect(reqs, tp, |reqs|);
  }

  lemma {:induction false} GroupMember(idx: seq<nat>, reqs: seq<Planned>, tp: TopicPartition, k: nat)
    requires IsGroup(idx, reqs, tp) && k < |idx|
    ensures idx[k] < |reqs| && Targets(reqs[idx[k]], tp)
  {
    assert idx[k] in idx && Listed(idx, reqs, tp, idx[k]);
  }

  lemma {:induction false} IndexOrder(idx: seq<nat>, a: nat, b: nat)
    requires Increasing(idx) && a < |idx| && b < |idx|
    ensures a < b <==> idx[a] < idx[b]
  {
    if a < b {
      assert Below(idx, a, b);
    } else if b < a {
      assert Below(idx, b, a);
    }
  }

  lemma {:induction false} NoneBetween(idx: seq<nat>, reqs: seq<Planned>, tp: TopicPartition, k: nat)
    requires IsGroup(idx, reqs, tp) && k <= |idx|
    ensures At(idx, k, |reqs|) <= |reqs|
    ensures forall i :: (if k == 0 then 0 else idx[k - 1] + 1) <= i < At(idx, k, |reqs|) ==> !Targets(reqs[i], tp)
  {
    if k < |idx| { GroupMember(idx, reqs, tp, k); }
    forall i: nat | (if k == 0 then 0 else idx[k - 1] + 1) <= i < At(idx, k, |reqs|) ensures !Targets(reqs[i], tp) {
      if Targets(reqs[i], tp) {
        assert Listed(idx, reqs, tp, i);
        var j :| 0 <= j < |idx| && idx[j] == i;
        if k > 0 { IndexOrder(idx, j, k - 1); }
        if k < |idx| { IndexOrder(idx, j, k); }
      }
    }
  }

  /** One more request of the group moves its partition one step on. */
  lemma {:induction false} GroupStep(
    step: Stepper, p: Part, reqs: seq<Planned>, es: seq<Env>, tp: TopicPartition, idx: seq<nat>, k: nat)
    requires |reqs| == |es| && IsGroup(idx, reqs, tp) && k < |idx|
    ensures idx[k] < |reqs| && Targets(reqs[idx[k]], tp) && At(idx, k + 1, |reqs|) <= |reqs|
    ensures Upto(step, p, reqs, es, tp, At(idx, k + 1, |reqs|))
         == step(Upto(step, p, reqs, es, tp, idx[k]), tp, reqs[idx[k]], es[idx[k]]).0
  {
    GroupMember(idx, reqs, tp, k);
    if k + 1 < |idx| { assert Below(idx, k, k + 1); }
    NoneBetween(idx, reqs, tp, k + 1);
    UptoSkips(step, p, reqs, es, tp, idx[k] + 1, At(idx, k + 1, |reqs|));
  }

  lemma {:induction false} GroupStart(
    step: Stepper, p: Part, reqs: seq<Planned>, es: seq<Env>, tp: TopicPartition, idx: seq<nat>)
    requires |reqs| == |es| && IsGroup(idx, reqs, tp)
    ensures At(idx, 0, |reqs|) <= |reqs| && Upto(step, p, reqs, es, tp, At(idx, 0, |reqs|)) == p
  {
    NoneBetween(idx, reqs, tp, 0);
    UptoSkips(step, p, reqs, es, tp, 0, At(idx, 0, |reqs|));
  }
}
