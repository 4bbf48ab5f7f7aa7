/** The grouped apply path as the broker runs it, and that it does what publishing one by one does. */
module GroupedApply {
  import opened Basics
  import opened Logs
  import opened Grouping
  import I = Idempotency

  // ---- One combined append ----

  ghost predicate InRange(idx: seq<nat>, reqs: seq<Planned>) {
    forall k :: 0 <= k < |idx| ==> idx[k] < |reqs| && reqs[idx[k]].Planned?
  }

  lemma {:induction false} GroupInRange(idx: seq<nat>, reqs: seq<Planned>, tp: TopicPartition)
    requires IsGroup(idx, reqs, tp)
    ensures InRange(idx, reqs)
  {
    forall k | 0 <= k < |idx| ensures idx[k] < |reqs| && reqs[idx[k]].Planned? {
      GroupMember(idx, reqs, tp, k);
    }
  }

  ghost function Concat<T>(gs: seq<seq<T>>): seq<T> {
    if gs == [] then [] else Concat(gs[..|gs| - 1]) + gs[|gs| - 1]
  }

  lemma {:induction false} ConcatStep<T>(gs: seq<seq<T>>, k: nat)
    requires k < |gs|
    ensures Concat(gs[..k + 1]) == Concat(gs[..k]) + gs[k]
  {
    assert gs[..k + 1][..k] == gs[..k];
  }

  lemma {:induction false} ConcatPrefix<T>(gs: seq<seq<T>>, k: nat)
    requires k <= |gs|
    ensures Concat(gs[..k]) <= Concat(gs)
  {
    if k == |gs| {
      assert gs[..k] == gs;
    } else {
      var n := |gs| - 1;
      ConcatPrefix(gs[..n], k);
      assert gs[..n][..k] == gs[..k];
    }
  }

  /** Where the k-th part begins in the whole. */
  ghost function Start<T>(gs: seq<seq<T>>, k: nat): nat
    requires k <= |gs|
  {
    if k == 0 then 0 else Start(gs, k - 1) + |gs[k - 1]|
  }

  lemma {:induction false} StartIsLength<T>(gs: seq<seq<T>>, k: nat)
    requires k <= |gs|
    ensures |Concat(gs[..k])| == Start(gs, k)
  {
    if k > 0 {
      StartIsLength(gs, k - 1);
      ConcatStep(gs, k - 1);
    }
  }

  lemma {:induction false} StartsWithin<T>(gs: seq<seq<T>>, k: nat)
    requires k <= |gs|
    ensures Start(gs, k) <= Start(gs, |gs|) == |Concat(gs)|
  {
    StartIsLength(gs, k);
    StartIsLength(gs, |gs|);
    ConcatPrefix(gs, k);
    assert gs[..|gs|] == gs;
  }

  ghost function Cut(records: seq<Record>, lo: nat, n: nat): seq<Record> {
    if lo + n <= |records| then records[lo..lo + n] else []
  }

  /** The records that answer the k-th of these batches. */
  ghost function Slice(gs: seq<seq<Payload>>, k: nat, records: seq<Record>): seq<Record>
    requires k < |gs|
  {
    Cut(records, Start(gs, k), |gs[k]|)
  }

  lemma {:induction false} CutStamp(
    next: nat, all: seq<Payload>, lo: nat, before: seq<Payload>, part: seq<Payload>, rest: seq<Payload>)
    requires lo == |before| && all == before + part + rest
    ensures Cut(Stamp(next, all), lo, |part|) == Stamp(next + lo, part)
  {
    var cut := Cut(Stamp(next, all), lo, |part|);
    forall i | 0 <= i < |part| ensures cut[i] == Stamp(next + lo, part)[i] {
      assert all[lo + i] == part[i];
    }
  }

  /** The k-th batch's slice of the combined result is what appending it in its turn would have returned. */
  lemma {:induction false} SliceIsOwn(gs: seq<seq<Payload>>, k: nat, next: nat, all: seq<Payload>)
    requires k < |gs| && all == Concat(gs)
    ensures Slice(gs, k, Stamp(next, all)) == Stamp(next + Start(gs, k), gs[k])
  {
    var rest := ConcatAround(gs, k);
    StartIsLength(gs, k);
    CutStamp(next, all, Start(gs, k), Concat(gs[..k]), gs[k], rest);
  }

  lemma {:induction false} ConcatAround<T>(gs: seq<seq<T>>, k: nat) returns (rest: seq<T>)
    requires k < |gs|
    ensures Concat(gs) == Concat(gs[..k]) + gs[k] + rest
  {
    ConcatStep(gs, k);
    ConcatPrefix(gs, k + 1);
    rest := Concat(gs)[|Concat(gs[..k + 1])|..];
  }

  /** gs are the messages of the group's requests, request by request. */
  ghost predicate AreBatches(gs: seq<seq<Payload>>, reqs: seq<Planned>, idx: seq<nat>)
    requires InRange(idx, reqs)
  {
    |gs| == |idx| && forall k: nat :: k < |idx| ==> BatchAt(gs, reqs, idx, k)
  }

  ghost predicate BatchAt(gs: seq<seq<Payload>>, reqs: seq<Planned>, idx: seq<nat>, k: nat)
    requires k < |gs| == |idx| && InRange(idx, reqs)
  {
    gs[k] == reqs[idx[k]].messages
  }

  lemma {:induction false} TheBatches(reqs: seq<Planned>, idx: seq<nat>) returns (gs: seq<seq<Payload>>)
    requires InRange(idx, reqs)
    ensures AreBatches(gs, reqs, idx)
  {
    gs := seq(|idx|, k requires 0 <= k < |idx| => reqs[idx[k]].messages);
    assert forall k: nat :: k < |idx| ==> BatchAt(gs, reqs, idx, k);
  }

  /** The requests of the group are plain, and nothing fails or is refused. */
  ghost predicate Plain(reqs: seq<Planned>, es: seq<Env>, idx: seq<nat>)
    requires |es| == |reqs| && InRange(idx, reqs)
  {
    forall k :: 0 <= k < |idx| ==> PlainAt(reqs, es, idx[k])
  }

  ghost predicate PlainAt(reqs: seq<Planned>, es: seq<Env>, i: nat)
    requires i < |es| == |reqs| && reqs[i].Planned?
  {
    reqs[i].id.None? && es[i].faults == I.NoFaults && es[i].refusal.None?
  }

  /** A plain request is appended at the end of its partition's log. */
  ghost predicate AppendsPlain(step: Stepper) {
    forall p: Part, tp: TopicPartition, r: Planned, e: Env {:trigger step(p, tp, r, e)} ::
      r.Planned? && r.id.None? && e.faults == I.NoFaults && e.refusal.None? ==>
        step(p, tp, r, e)
        == (p.(log := Append(p.log, r.messages)), Item(tp.partition, Stamp(p.log.next, r.messages), true, None))
  }

  lemma {:induction false} StepAppendsPlain()
    ensures AppendsPlain(Step)
  {
  }

  /** Appending a plain group's messages together is appending them request by request. */
  lemma {:induction false} CombinedIsFold(
    step: Stepper, p: Part, reqs: seq<Planned>, es: seq<Env>, tp: TopicPartition, idx: seq<nat>,
    gs: seq<seq<Payload>>, k: nat)
    requires |reqs| == |es| && IsGroup(idx, reqs, tp) && InRange(idx, reqs) && Plain(reqs, es, idx)
    requires AppendsPlain(step)
    requires AreBatches(gs, reqs, idx) && k <= |idx|
    ensures At(idx, k, |reqs|) <= |reqs|
    ensures Upto(step, p, reqs, es, tp, At(idx, k, |reqs|)) == p.(log := Append(p.log, Concat(gs[..k])))
  {
    if k == 0 {
      GroupStart(step, p, reqs, es, tp, idx);
      assert Append(p.log, []) == p.log;
    } else {
      var i := idx[k - 1];
      CombinedIsFold(step, p, reqs, es, tp, idx, gs, k - 1);
      GroupStep(step, p, reqs, es, tp, idx, k - 1);
      assert PlainAt(reqs, es, i) && BatchAt(gs, reqs, idx, k - 1);
      AppendTwice(p.log, Concat(gs[..k - 1]), gs[k - 1]);
      ConcatStep(gs, k - 1);
    }
  }

  method GroupRecords(reqs: seq<Planned>, idx: seq<nat>, ghost gs: seq<seq<Payload>>) returns (messages: seq<Payload>)
    requires InRange(idx, reqs) && AreBatches(gs, reqs, idx)
    ensures messages == Concat(gs)
  {
    messages := [];
    for k := 0 to |idx|
      invariant messages == Concat(gs[..k])
    {
      ConcatStep(gs, k);
      assert BatchAt(gs, reqs, idx, k);
      messages := messages + reqs[idx[k]].messages;
    }
    assert gs[..|gs|] == gs;
  }

  /** Splitting works exactly when there is one record per message; then each request gets its own slice. */
  method SplitGroupRecords(
    reqs: seq<Planned>, tp: TopicPartition, idx: seq<nat>, records: seq<Record>, items: array<Item>,
    ghost gs: seq<seq<Payload>>)
    returns (ok: bool)
    requires items.Length == |reqs| && InRange(idx, reqs) && Increasing(idx)
    requires AreBatches(gs, reqs, idx)
    modifies items
    ensures ok <==> |records| == Start(gs, |gs|)
    ensures ok ==> forall k :: 0 <= k < |idx| ==> items[idx[k]] == Item(tp.partition, Slice(gs, k, records), true, None)
    ensures forall i :: 0 <= i < items.Length && i !in idx ==> items[i] == old(items[i])
  {
    var cursor := 0;
    for k := 0 to |idx|
      invariant cursor == Start(gs, k) <= |records|
      invariant forall j :: 0 <= j < k ==> items[idx[j]] == Item(tp.partition, Slice(gs, j, records), true, None)
      invariant forall i :: 0 <= i < items.Length && i !in idx ==> items[i] == old(items[i])
    {
      var count := |reqs[idx[k]].messages|;
      assert BatchAt(gs, reqs, idx, k);
      if cursor + count > |records| {
        StartsWithin(gs, k + 1);
        return false;
      }
      forall j: nat | j < k ensures idx[j] != idx[k] { assert Below(idx, j, k); }
      items[idx[k]] := Item(tp.partition, records[cursor..cursor + count], true, None);
      cursor := cursor + count;
    }
    return cursor == |records|;
  }

  method SetGroupError(idx: seq<nat>, error: string, items: array<Item>)
    requires forall k :: 0 <= k < |idx| ==> idx[k] < items.Length
    requires Increasing(idx)
    modifies items
    ensures forall i :: 0 <= i < items.Length ==>
              items[i] == if i in idx then old(items[i]).(error := Some(error)) else old(items[i])
  {
    for k := 0 to |idx|
      invariant forall i :: 0 <= i < items.Length ==>
                  items[i] == if i in idx[..k] then old(items[i]).(error := Some(error)) else old(items[i])
    {
      forall j: nat | j < k ensures idx[j] != idx[k] { assert Below(idx, j, k); }
      items[idx[k]] := items[idx[k]].(error := Some(error));
      assert idx[..k + 1] == idx[..k] + [idx[k]];
    }
    assert idx[..|idx|] == idx;
  }

  lemma {:induction false} PlainStep(
    step: Stepper, u: Part, p: Part, r: Planned, e: Env, tp: TopicPartition, before: seq<Payload>, lo: nat)
    requires AppendsPlain(step) && r.Planned? && r.id.None? && e.faults == I.NoFaults && e.refusal.None?
    requires u == p.(log := Append(p.log, before)) && lo == |before|
    ensures step(u, tp, r, e).1 == Item(tp.partition, Stamp(p.log.next + lo, r.messages), true, None)
  {
  }

  lemma {:induction false} PlainItem(
    step: Stepper, p: Part, reqs: seq<Planned>, es: seq<Env>, tp: TopicPartition, idx: seq<nat>,
    gs: seq<seq<Payload>>, k: nat)
    requires |reqs| == |es| && IsGroup(idx, reqs, tp) && InRange(idx, reqs) && Plain(reqs, es, idx)
    requires AppendsPlain(step)
    requires AreBatches(gs, reqs, idx) && k < |idx|
    ensures step(Upto(step, p, reqs, es, tp, idx[k]), tp, reqs[idx[k]], es[idx[k]]).1
         == Item(tp.partition, Stamp(p.log.next + Start(gs, k), gs[k]), true, None)
  {
    CombinedIsFold(step, p, reqs, es, tp, idx, gs, k);
    assert PlainAt(reqs, es, idx[k]) && BatchAt(gs, reqs, idx, k);
    StartIsLength(gs, k);
    PlainStep(
      step, Upto(step, p, reqs, es, tp, idx[k]), p, reqs[idx[k]], es[idx[k]], tp, Concat(gs[..k]), Start(gs, k));
  }

  lemma {:induction false} TogetherItem(
    step: Stepper, p: Part, reqs: seq<Planned>, es: seq<Env>, tp: TopicPartition, idx: seq<nat>,
    gs: seq<seq<Payload>>, k: nat,
    all: seq<Payload>)
    requires |reqs| == |es| && IsGroup(idx, reqs, tp) && InRange(idx, reqs) && Plain(reqs, es, idx)
    requires AppendsPlain(step)
    requires AreBatches(gs, reqs, idx) && k < |idx| && all == Concat(gs)
    ensures step(Upto(step, p, reqs, es, tp, idx[k]), tp, reqs[idx[k]], es[idx[k]]).1
         == Item(tp.partition, Slice(gs, k, Stamp(p.log.next, all)), true, None)
  {
    PlainItem(step, p, reqs, es, tp, idx, gs, k);
    SliceIsOwn(gs, k, p.log.next, all);
  }

  lemma {:induction false} WholeGroup(
    step: Stepper, p: Part, reqs: seq<Planned>, es: seq<Env>, tp: TopicPartition, idx: seq<nat>, gs: seq<seq<Payload>>)
    requires |reqs| == |es| && IsGroup(idx, reqs, tp) && InRange(idx, reqs) && Plain(reqs, es, idx)
    requires AppendsPlain(step)
    requires AreBatches(gs, reqs, idx)
    ensures Upto(step, p, reqs, es, tp, |reqs|) == p.(log := Append(p.log, Concat(gs)))
    ensures Start(gs, |gs|) == |Concat(gs)|
  {
    CombinedIsFold(step, p, reqs, es, tp, idx, gs, |idx|);
    StartIsLength(gs, |gs|);
    assert gs[..|gs|] == gs;
  }

  // ---- The broker's partitions, updated in place ----

  class Broker {
    const step: Stepper
    var parts: Parts

    constructor (parts: Parts)
      ensures this.step == Step && this.parts == parts
    {
      this.step, this.parts := Step, parts;
    }

    /** A group with idempotent requests: each in turn, at the partition the group was planned for. */
    method ApplyIndividually(reqs: seq<Planned>, es: seq<Env>, tp: TopicPartition, idx: seq<nat>, items: array<Item>)
      requires items.Length == |reqs| == |es| && IsGroup(idx, reqs, tp) && InRange(idx, reqs) && Increasing(idx)
      modifies this, items
      ensures parts == old(parts)[tp := Upto(step, PartOf(old(parts), tp), reqs, es, tp, |reqs|)]
      ensures forall i :: 0 <= i < items.Length ==>
                items[i] ==
                  if i in idx then step(Upto(step, PartOf(old(parts), tp), reqs, es, tp, i), tp, reqs[i], es[i]).1
                  else old(items[i])
    {
      ghost var p := PartOf(parts, tp);
      var current := if tp in parts then parts[tp] else Part(Log([], 0), []);
      GroupStart(step, p, reqs, es, tp, idx);
      for k := 0 to |idx|
        invariant At(idx, k, |reqs|) <= |reqs| && current == Upto(step, p, reqs, es, tp, At(idx, k, |reqs|))
        invariant parts == old(parts)
        invariant forall i :: 0 <= i < items.Length ==>
                    items[i] == if i in idx[..k] then step(Upto(step, p, reqs, es, tp, i), tp, reqs[i], es[i]).1
                                else old(items[i])
      {
        var i := idx[k];
        GroupStep(step, p, reqs, es, tp, idx, k);
        var (next, item) := step(current, tp, reqs[i], es[i]);
        current := next;
        items[i] := item;
        assert idx[..k + 1] == idx[..k] + [idx[k]];
      }
      assert idx[..|idx|] == idx;
      parts := parts[tp := current];
    }

    /** A plain group: one append of all its messages, split among its requests. */
    method ApplyTogether(reqs: seq<Planned>, es: seq<Env>, tp: TopicPartition, idx: seq<nat>, items: array<Item>)
      requires items.Length == |reqs| == |es| && IsGroup(idx, reqs, tp) && InRange(idx, reqs) && Increasing(idx)
      requires Plain(reqs, es, idx) && AppendsPlain(step)
      modifies this, items
      ensures parts == old(parts)[tp := Upto(step, PartOf(old(parts), tp), reqs, es, tp, |reqs|)]
      ensures forall i :: 0 <= i < items.Length ==>
                items[i] ==
                  if i in idx then step(Upto(step, PartOf(old(parts), tp), reqs, es, tp, i), tp, reqs[i], es[i]).1
                  else old(items[i])
    {
      ghost var p := PartOf(parts, tp);
      ghost var gs := TheBatches(reqs, idx);
      var part := if tp in parts then parts[tp] else Part(Log([], 0), []);
      var messages := GroupRecords(reqs, idx, gs);
      var records := Stamp(part.log.next, messages);
      parts := parts[tp := part.(log := Append(part.log, messages))];
      var ok := SplitGroupRecords(reqs, tp, idx, records, items, gs);
      WholeGroup(step, p, reqs, es, tp, idx, gs);
      forall k | 0 <= k < |idx|
        ensures items[idx[k]] == step(Upto(step, p, reqs, es, tp, idx[k]), tp, reqs[idx[k]], es[idx[k]]).1
      {
        TogetherItem(step, p, reqs, es, tp, idx, gs, k, messages);
      }
    }

    method HasIdempotent(reqs: seq<Planned>, tp: TopicPartition, idx: seq<nat>) returns (found: bool)
      requires IsGroup(idx, reqs, tp) && InRange(idx, reqs)
      ensures found <==> Individually(reqs, tp)
    {
      for k := 0 to |idx|
        invariant forall j :: 0 <= j < k ==> reqs[idx[j]].id.None?
      {
        if reqs[idx[k]].id.Some? {
          GroupMember(idx, reqs, tp, k);
          return true;
        }
      }
      forall i: nat | i < |reqs| && Targets(reqs[i], tp) ensures reqs[i].id.None? {
        assert Listed(idx, reqs, tp, i);
        var j :| 0 <= j < |idx| && idx[j] == i;
      }
      return false;
    }

    method ApplyGroup(
      reqs: seq<Planned>, es: seq<Env>, tp: TopicPartition, idx: seq<nat>, error: Option<string>, items: array<Item>)
      requires items.Length == |reqs| == |es| && IsGroup(idx, reqs, tp) && InRange(idx, reqs) && AppendsPlain(step)
      requires !Individually(reqs, tp) ==> Plain(reqs, es, idx)
      requires forall i :: 0 <= i < items.Length && i in idx ==> items[i] == Blank
      modifies this, items
      ensures parts == if error.Some? then old(parts)
                       else old(parts)[tp := Upto(step, PartOf(old(parts), tp), reqs, es, tp, |reqs|)]
      ensures forall i :: 0 <= i < items.Length ==>
                items[i] == if i !in idx then old(items[i])
                            else if error.Some? then Failure(error.value)
                            else step(Upto(step, PartOf(old(parts), tp), reqs, es, tp, i), tp, reqs[i], es[i]).1
    {
      if error.Some? {
        SetGroupError(idx, error.value, items);
        return;
      }
      var individually := HasIdempotent(reqs, tp, idx);
      if individually {
        ApplyIndividually(reqs, es, tp, idx, items);
      } else {
        ApplyTogether(reqs, es, tp, idx, items);
      }
    }

    method ReportRefusals(reqs: seq<Planned>) returns (items: array<Item>)
      ensures fresh(items) && items.Length == |reqs|
      ensures forall i :: 0 <= i < |reqs| ==> items[i] == if reqs[i].Refused? then Failure(reqs[i].error) else Blank
    {
      items := new Item[|reqs|](i => Blank);
      for i := 0 to |reqs|
        invariant forall j :: 0 <= j < |reqs| ==>
                    items[j] == if j < i && reqs[j].Refused? then Failure(reqs[j].error) else Blank
      {
        if reqs[i].Refused? { items[i] := items[i].(error := Some(reqs[i].error)); }
      }
    }

    /** One more partition's group goes through. */
    method ApplyNext(
      reqs: seq<Planned>, es: seq<Env>, failing: Failing, tp: TopicPartition, idx: seq<nat>, items: array<Item>,
      ghost start: Parts, ghost done: set<TopicPartition>)
      requires items.Length == |reqs| == |es| && AppendsPlain(step) && idx == IndexesOf(reqs, tp, |reqs|)
      requires PlainOrIndividual(reqs, es) && tp !in done
      requires PartsDone(step, parts, start, reqs, es, failing, done)
      requires ItemsDone(step, items[..], start, reqs, es, failing, done)
      modifies this, items
      ensures PartsDone(step, parts, start, reqs, es, failing, done + {tp})
      ensures ItemsDone(step, items[..], start, reqs, es, failing, done + {tp})
    {
      IndexesAreGroup(reqs, tp);
      GroupInRange(idx, reqs, tp);
      if !Individually(reqs, tp) { PlainGroup(reqs, es, tp, idx); }
      ghost var oldParts, oldItems := parts, items[..];
      GroupStillBlank(step, items[..], start, reqs, es, failing, done, tp, idx);
      ApplyGroup(reqs, es, tp, idx, failing(tp), items);
      PartsGoOn(step, oldParts, parts, start, reqs, es, failing, done, tp);
      ItemsGoOn(step, oldItems, items[..], start, reqs, es, failing, done, tp, idx);
    }

    method ApplyGroups(
      reqs: seq<Planned>, es: seq<Env>, failing: Failing, groups: Groups, items: array<Item>)
      requires items.Length == |reqs| == |es| && AppendsPlain(step) && AreGroups(groups, reqs, |reqs|)
      requires PlainOrIndividual(reqs, es) && ItemsDone(step, items[..], parts, reqs, es, failing, {})
      modifies this, items
      ensures PartsDone(step, parts, old(parts), reqs, es, failing, groups.Keys)
      ensures ItemsDone(step, items[..], old(parts), reqs, es, failing, groups.Keys)
    {
      var left := groups.Keys;
      ghost var start := parts;
      while left != {}
        invariant left <= groups.Keys
        invariant PartsDone(step, parts, start, reqs, es, failing, groups.Keys - left)
        invariant ItemsDone(step, items[..], start, reqs, es, failing, groups.Keys - left)
        decreases |left|
      {
        var tp :| tp in left;
        assert GroupOf(groups, tp) == IndexesOf(reqs, tp, |reqs|);
        ghost var done := groups.Keys - left;
        ApplyNext(reqs, es, failing, tp, groups[tp], items, start, done);
        left := left - {tp};
        assert groups.Keys - left == done + {tp};
      }
      assert groups.Keys - left == groups.Keys;
    }

    /**
     * Planned requests grouped by partition, the groups applied in any order: every partition ends up, and every
     * caller is answered, as if the requests had been published one at a time in the order given.
     */
    method ApplyProduceBatches(reqs: seq<Planned>, env: seq<Env>, failing: Failing) returns (items: array<Item>)
      requires |env| == |reqs| && AppendsPlain(step)
      modifies this
      ensures fresh(items)
      ensures forall tp :: PartOf(parts, tp)
                        == PartOf(OneByOne(step, old(parts), reqs, Effective(reqs, env), failing, |reqs|).0, tp)
      ensures items[..] == OneByOne(step, old(parts), reqs, Effective(reqs, env), failing, |reqs|).1
    {
      var es := Effective(reqs, env);
      items := ReportRefusals(reqs);
      var groups := GroupPlans(reqs);
      EffectiveIsPlain(reqs, env);
      ApplyGroups(reqs, es, failing, groups, items);
      AllDone(step, parts, items[..], old(parts), reqs, es, failing, groups);
    }
  }

  /** The partitions in `done` have been through their group; the others are as at the start. */
  ghost predicate PartsDone(
    step: Stepper, parts: Parts, start: Parts, reqs: seq<Planned>, es: seq<Env>, failing: Failing,
    done: set<TopicPartition>)
    requires |reqs| == |es|
  {
    forall tp :: PartOf(parts, tp)
              == if tp in done then PartAfter(step, start, reqs, es, failing, tp) else PartOf(start, tp)
  }

  /** Requests to partitions in `done`, and refused ones, have been answered; the others not. */
  ghost predicate ItemsDone(
    step: Stepper, items: seq<Item>, start: Parts, reqs: seq<Planned>, es: seq<Env>, failing: Failing,
    done: set<TopicPartition>)
    requires |reqs| == |es|
  {
    |items| == |reqs| && forall i :: 0 <= i < |reqs| ==>
      items[i] == if reqs[i].Planned? && reqs[i].tp !in done then Blank else ItemFor(step, start, reqs, es, failing, i)
  }

  ghost predicate PlainOrIndividual(reqs: seq<Planned>, es: seq<Env>)
    requires |reqs| == |es|
  {
    forall i :: 0 <= i < |reqs| && reqs[i].Planned? && !Individually(reqs, reqs[i].tp) ==> PlainAt(reqs, es, i)
  }

  lemma {:induction false} EffectiveIsPlain(reqs: seq<Planned>, env: seq<Env>)
    requires |env| == |reqs|
    ensures PlainOrIndividual(reqs, Effective(reqs, env))
  {
  }

  lemma {:induction false} PlainGroup(reqs: seq<Planned>, es: seq<Env>, tp: TopicPartition, idx: seq<nat>)
    requires |es| == |reqs| && IsGroup(idx, reqs, tp) && InRange(idx, reqs)
    requires PlainOrIndividual(reqs, es) && !Individually(reqs, tp)
    ensures Plain(reqs, es, idx)
  {
    forall k: nat | k < |idx| ensures PlainAt(reqs, es, idx[k]) {
      GroupMember(idx, reqs, tp, k);
    }
  }

  lemma {:induction false} GroupStillBlank(
    step: Stepper, items: seq<Item>, start: Parts, reqs: seq<Planned>, es: seq<Env>, failing: Failing,
    done: set<TopicPartition>,
    tp: TopicPartition, idx: seq<nat>)
    requires |reqs| == |es| && ItemsDone(step, items, start, reqs, es, failing, done)
    requires IsGroup(idx, reqs, tp) && tp !in done
    ensures forall i :: 0 <= i < |items| && i in idx ==> items[i] == Blank
  {
    forall i | 0 <= i < |items| && i in idx ensures items[i] == Blank {
      assert Listed(idx, reqs, tp, i);
    }
  }

  lemma {:induction false} PartsGoOn(
    step: Stepper, before: Parts, after: Parts, start: Parts, reqs: seq<Planned>, es: seq<Env>, failing: Failing,
    done: set<TopicPartition>, tp: TopicPartition)
    requires |reqs| == |es| && PartsDone(step, before, start, reqs, es, failing, done) && tp !in done
    requires after == if failing(tp).Some? then before
                      else before[tp := Upto(step, PartOf(before, tp), reqs, es, tp, |reqs|)]
    ensures PartsDone(step, after, start, reqs, es, failing, done + {tp})
  {
    assert PartOf(before, tp) == PartOf(start, tp);
    forall q
      ensures PartOf(after, q)
           == if q in done + {tp} then PartAfter(step, start, reqs, es, failing, q) else PartOf(start, q)
    {
      assert PartOf(before, q) == if q in done then PartAfter(step, start, reqs, es, failing, q) else PartOf(start, q);
    }
  }

  lemma {:induction false} ItemsGoOn(
    step: Stepper, before: seq<Item>, after: seq<Item>, start: Parts, reqs: seq<Planned>, es: seq<Env>,
    failing: Failing,
    done: set<TopicPartition>, tp: TopicPartition, idx: seq<nat>)
    requires |reqs| == |es| == |after| && ItemsDone(step, before, start, reqs, es, failing, done)
    requires IsGroup(idx, reqs, tp) && tp !in done
    requires forall i :: 0 <= i < |after| ==>
               after[i] == if i !in idx then before[i]
                           else if failing(tp).Some? then Failure(failing(tp).value)
                           else step(Upto(step, PartOf(start, tp), reqs, es, tp, i), tp, reqs[i], es[i]).1
    ensures ItemsDone(step, after, start, reqs, es, failing, done + {tp})
  {
    forall i: nat | i < |reqs|
      ensures after[i] == if reqs[i].Planned? && reqs[i].tp !in done + {tp} then Blank
                          else ItemFor(step, start, reqs, es, failing, i)
    {
      assert Listed(idx, reqs, tp, i);
    }
  }

  lemma {:induction false} AllDone(
    step: Stepper, parts: Parts, items: seq<Item>, start: Parts, reqs: seq<Planned>, es: seq<Env>, failing: Failing,
    groups: Groups)
    requires |reqs| == |es| && AreGroups(groups, reqs, |reqs|)
    requires PartsDone(step, parts, start, reqs, es, failing, groups.Keys)
    requires ItemsDone(step, items, start, reqs, es, failing, groups.Keys)
    ensures forall tp :: PartOf(parts, tp) == PartOf(OneByOne(step, start, reqs, es, failing, |reqs|).0, tp)
    ensures items == OneByOne(step, start, reqs, es, failing, |reqs|).1
  {
    forall tp ensures PartOf(parts, tp) == PartOf(OneByOne(step, start, reqs, es, failing, |reqs|).0, tp) {
      if tp !in groups { UngroupedStays(step, start, reqs, es, failing, groups, tp); }
      OneByOneParts(step, start, reqs, es, failing, |reqs|, tp);
    }
    forall i: nat | i < |reqs| ensures items[i] == OneByOne(step, start, reqs, es, failing, |reqs|).1[i] {
      if reqs[i].Planned? { PlannedIsGrouped(groups, reqs, i); }
      OneByOneItems(step, start, reqs, es, failing, |reqs|, i);
    }
  }

  lemma {:induction false} PlannedIsGrouped(groups: Groups, reqs: seq<Planned>, i: nat)
    requires AreGroups(groups, reqs, |reqs|) && i < |reqs| && reqs[i].Planned?
    ensures reqs[i].tp in groups
  {
    var tp := reqs[i].tp;
    IndexesCorrect(reqs, tp, |reqs|);
    assert i in IndexesOf(reqs, tp, |reqs|) && GroupOf(groups, tp) == IndexesOf(reqs, tp, |reqs|);
  }

  lemma {:induction false} UngroupedStays(
    step: Stepper, parts: Parts, reqs: seq<Planned>, es: seq<Env>, failing: Failing, groups: Groups, tp: TopicPartition)
    requires |es| == |reqs| && AreGroups(groups, reqs, |reqs|) && tp !in groups
    ensures PartAfter(step, parts, reqs, es, failing, tp) == PartOf(parts, tp)
  {
    assert GroupOf(groups, tp) == IndexesOf(reqs, tp, |reqs|);
    IndexesCorrect(reqs, tp, |reqs|);
    UptoSkips(step, PartOf(parts, tp), reqs, es, tp, 0, |reqs|);
  }
}
