/** Routing a coalesced command by shard: scatter the requests, apply each shard's share, gather the answers. */
module ShardedApply {
  import opened Basics
  import opened Grouping
  import opened GroupedApply

  type Placement = TopicPartition -> nat

  /** A shard, named as if it were a partition, so that requests are grouped by shard as they are by partition. */
  function ShardKey(shard: nat): TopicPartition {
    TopicPartition("", shard)
  }

  function ToShard(r: Planned, shardOf: Placement): Planned {
    if r.Refused? then r else r.(tp := ShardKey(shardOf(r.tp)))
  }

  function ByShard(reqs: seq<Planned>, shardOf: Placement): (out: seq<Planned>)
    ensures |out| == |reqs| && forall i :: 0 <= i < |reqs| ==> out[i] == ToShard(reqs[i], shardOf)
  {
    seq(|reqs|, i requires 0 <= i < |reqs| => ToShard(reqs[i], shardOf))
  }

  /** idx lists, in order, exactly the requests whose partitions are on the shard. */
  ghost predicate IsShare(idx: seq<nat>, reqs: seq<Planned>, shardOf: Placement, shard: nat) {
    IsGroup(idx, ByShard(reqs, shardOf), ShardKey(shard))
  }

  lemma {:induction false} ShareMember(idx: seq<nat>, reqs: seq<Planned>, shardOf: Placement, shard: nat, i: nat)
    requires IsShare(idx, reqs, shardOf, shard) && i < |reqs|
    ensures i in idx <==> reqs[i].Planned? && shardOf(reqs[i].tp) == shard
  {
    assert Listed(idx, ByShard(reqs, shardOf), ShardKey(shard), i);
  }

  lemma {:induction false} ShareAt(idx: seq<nat>, reqs: seq<Planned>, shardOf: Placement, shard: nat, k: nat)
    requires IsShare(idx, reqs, shardOf, shard) && k < |idx|
    ensures idx[k] < |reqs| && reqs[idx[k]].Planned? && shardOf(reqs[idx[k]].tp) == shard
  {
    GroupMember(idx, ByShard(reqs, shardOf), ShardKey(shard), k);
  }

  function Picked<T>(xs: seq<T>, idx: seq<nat>): (out: seq<T>)
    requires forall k :: 0 <= k < |idx| ==> idx[k] < |xs|
    ensures |out| == |idx| && forall k :: 0 <= k < |idx| ==> out[k] == xs[idx[k]]
  {
    seq(|idx|, k requires 0 <= k < |idx| => xs[idx[k]])
  }

  ghost predicate Within(idx: seq<nat>, n: nat) {
    forall k :: 0 <= k < |idx| ==> idx[k] < n
  }

  lemma {:induction false} ShareWithin(idx: seq<nat>, reqs: seq<Planned>, shardOf: Placement, shard: nat)
    requires IsShare(idx, reqs, shardOf, shard)
    ensures Within(idx, |reqs|)
  {
    forall k | 0 <= k < |idx| ensures idx[k] < |reqs| { ShareAt(idx, reqs, shardOf, shard, k); }
  }

  // ---- A shard sees of its partitions what the whole run does to them ----

  lemma {:induction false} ShareSkips(
    step: Stepper, p: Part, reqs: seq<Planned>, es: seq<Env>, shardOf: Placement, idx: seq<nat>, tp: TopicPartition,
    k: nat, from: nat)
    requires |reqs| == |es| && IsShare(idx, reqs, shardOf, shardOf(tp)) && k <= |idx|
    requires from == (if k == 0 then 0 else idx[k - 1] + 1)
    ensures from <= At(idx, k, |reqs|) <= |reqs|
    ensures Upto(step, p, reqs, es, tp, from) == Upto(step, p, reqs, es, tp, At(idx, k, |reqs|))
  {
    var moved, key := ByShard(reqs, shardOf), ShardKey(shardOf(tp));
    NoneBetween(idx, moved, key, k);
    if k > 0 { GroupMember(idx, moved, key, k - 1); }
    if 0 < k < |idx| { assert Below(idx, k - 1, k); }
    forall i | from <= i < At(idx, k, |reqs|) ensures !Targets(reqs[i], tp) {
      assert !Targets(moved[i], key);
    }
    UptoSkips(step, p, reqs, es, tp, from, At(idx, k, |reqs|));
  }

  lemma {:induction false} ShareUpto(
    step: Stepper, p: Part, reqs: seq<Planned>, es: seq<Env>, shardOf: Placement, idx: seq<nat>, tp: TopicPartition,
    k: nat)
    requires |reqs| == |es| && IsShare(idx, reqs, shardOf, shardOf(tp)) && k <= |idx| && Within(idx, |reqs|)
    ensures At(idx, k, |reqs|) <= |reqs|
    ensures Upto(step, p, Picked(reqs, idx), Picked(es, idx), tp, k) == Upto(step, p, reqs, es, tp, At(idx, k, |reqs|))
  {
    if k == 0 {
      ShareSkips(step, p, reqs, es, shardOf, idx, tp, 0, 0);
    } else {
      ShareUpto(step, p, reqs, es, shardOf, idx, tp, k - 1);
      ShareSkips(step, p, reqs, es, shardOf, idx, tp, k, idx[k - 1] + 1);
    }
  }

  /** What a shard does with its share, partition by partition and answer by answer, is what the whole run does. */
  lemma {:induction false} ShareParts(
    step: Stepper, parts: Parts, reqs: seq<Planned>, es: seq<Env>, shardOf: Placement, idx: seq<nat>,
    failing: Failing, tp: TopicPartition)
    requires |reqs| == |es| && IsShare(idx, reqs, shardOf, shardOf(tp)) && Within(idx, |reqs|)
    ensures PartOf(OneByOne(step, parts, Picked(reqs, idx), Picked(es, idx), failing, |idx|).0, tp)
         == PartAfter(step, parts, reqs, es, failing, tp)
  {
    OneByOneParts(step, parts, Picked(reqs, idx), Picked(es, idx), failing, |idx|, tp);
    ShareUpto(step, PartOf(parts, tp), reqs, es, shardOf, idx, tp, |idx|);
  }

  lemma {:induction false} OtherParts(
    step: Stepper, parts: Parts, reqs: seq<Planned>, es: seq<Env>, shardOf: Placement, shard: nat, idx: seq<nat>,
    failing: Failing,
    tp: TopicPartition)
    requires |reqs| == |es| && IsShare(idx, reqs, shardOf, shard) && Within(idx, |reqs|) && shardOf(tp) != shard
    ensures PartOf(OneByOne(step, parts, Picked(reqs, idx), Picked(es, idx), failing, |idx|).0, tp) == PartOf(parts, tp)
  {
    var sub := Picked(reqs, idx);
    OneByOneParts(step, parts, sub, Picked(es, idx), failing, |idx|, tp);
    forall k | 0 <= k < |idx| ensures !Targets(sub[k], tp) { ShareAt(idx, reqs, shardOf, shard, k); }
    UptoSkips(step, PartOf(parts, tp), sub, Picked(es, idx), tp, 0, |idx|);
  }

  lemma {:induction false} ShareItem(
    step: Stepper, parts: Parts, reqs: seq<Planned>, es: seq<Env>, shardOf: Placement, shard: nat, idx: seq<nat>,
    failing: Failing, k: nat)
    requires |reqs| == |es| && IsShare(idx, reqs, shardOf, shard) && Within(idx, |reqs|) && k < |idx|
    ensures OneByOne(step, parts, Picked(reqs, idx), Picked(es, idx), failing, |idx|).1[k]
         == ItemFor(step, parts, reqs, es, failing, idx[k])
  {
    ShareAt(idx, reqs, shardOf, shard, k);
    OneByOneItems(step, parts, Picked(reqs, idx), Picked(es, idx), failing, |idx|, k);
    ShareUpto(step, PartOf(parts, reqs[idx[k]].tp), reqs, es, shardOf, idx, reqs[idx[k]].tp, k);
  }

  /** Whether a group is applied request by request does not depend on what other shards are sent. */
  lemma {:induction false} ShareEffective(
    reqs: seq<Planned>, env: seq<Env>, shardOf: Placement, shard: nat, idx: seq<nat>)
    requires |reqs| == |env| && IsShare(idx, reqs, shardOf, shard) && Within(idx, |reqs|)
    ensures Effective(Picked(reqs, idx), Picked(env, idx)) == Picked(Effective(reqs, env), idx)
  {
    var sub := Picked(reqs, idx);
    forall k | 0 <= k < |idx| ensures sub[k].Planned? && Individually(sub, sub[k].tp) == Individually(reqs, sub[k].tp) {
      ShareAt(idx, reqs, shardOf, shard, k);
      SameIndividually(reqs, shardOf, shard, idx, sub[k].tp);
    }
  }

  lemma {:induction false} SameIndividually(
    reqs: seq<Planned>, shardOf: Placement, shard: nat, idx: seq<nat>, tp: TopicPartition)
    requires IsShare(idx, reqs, shardOf, shard) && Within(idx, |reqs|) && shardOf(tp) == shard
    ensures Individually(Picked(reqs, idx), tp) == Individually(reqs, tp)
  {
    var sub := Picked(reqs, idx);
    if Individually(reqs, tp) {
      var i :| 0 <= i < |reqs| && Targets(reqs[i], tp) && reqs[i].id.Some?;
      ShareMember(idx, reqs, shardOf, shard, i);
      var k :| 0 <= k < |idx| && idx[k] == i;
      assert Targets(sub[k], tp) && sub[k].id.Some?;
    }
    if Individually(sub, tp) {
      var k :| 0 <= k < |sub| && Targets(sub[k], tp) && sub[k].id.Some?;
      assert Targets(reqs[idx[k]], tp) && reqs[idx[k]].id.Some?;
    }
  }

  // ---- Scatter and gather ----

  /** A shard whose command fails fails every group on it. */
  function Merged(failing: Failing, shardOf: Placement, shardError: nat -> Option<string>): Failing {
    (tp: TopicPartition) => if shardError(shardOf(tp)).Some? then shardError(shardOf(tp)) else failing(tp)
  }

  ghost predicate PartsGathered(
    step: Stepper, parts: Parts, start: Parts, reqs: seq<Planned>, es: seq<Env>, failing: Failing, shardOf: Placement,
    done: set<nat>)
    requires |reqs| == |es|
  {
    forall tp :: PartOf(parts, tp)
              == if shardOf(tp) in done then PartAfter(step, start, reqs, es, failing, tp) else PartOf(start, tp)
  }

  ghost predicate ItemsGathered(
    step: Stepper, items: seq<Item>, start: Parts, reqs: seq<Planned>, es: seq<Env>, failing: Failing,
    shardOf: Placement,
    done: set<nat>)
    requires |reqs| == |es|
  {
    |items| == |reqs| && forall i :: 0 <= i < |reqs| ==>
      items[i] == if reqs[i].Planned? && shardOf(reqs[i].tp) !in done then Blank
          else ItemFor(step, start, reqs, es, failing, i)
  }

  /** The answer a shard gave to the request with index i, or the shard's error. */
  ghost predicate Answered(
    after: seq<Item>, before: seq<Item>, idx: seq<nat>, error: Option<string>, answers: seq<Item>)
    requires |after| == |before| && Within(idx, |after|)
  {
    && (forall i :: 0 <= i < |after| && i !in idx ==> after[i] == before[i])
    && (error.Some? ==> forall k :: 0 <= k < |idx| ==> after[idx[k]] == before[idx[k]].(error := error))
    && (error.None? ==> |answers| == |idx| && forall k :: 0 <= k < |idx| ==> after[idx[k]] == answers[k])
  }

  method MergeItems(idx: seq<nat>, answers: array<Item>, items: array<Item>)
    requires answers != items && answers.Length == |idx| && Within(idx, items.Length) && Increasing(idx)
    modifies items
    ensures Answered(items[..], old(items[..]), idx, None, answers[..])
  {
    for k := 0 to |idx|
      invariant forall j :: 0 <= j < k ==> items[idx[j]] == answers[j]
      invariant forall i :: 0 <= i < items.Length && i !in idx ==> items[i] == old(items[i])
      invariant answers[..] == old(answers[..])
    {
      forall j: nat | j < k ensures idx[j] != idx[k] { assert Below(idx, j, k); }
      items[idx[k]] := answers[k];
    }
  }

  lemma {:induction false} PartsGatherOn(
    step: Stepper, before: Parts, after: Parts, start: Parts, reqs: seq<Planned>, es: seq<Env>, failing: Failing,
    shardOf: Placement,
    shardError: nat -> Option<string>, done: set<nat>, shard: nat, idx: seq<nat>)
    requires |reqs| == |es| && IsShare(idx, reqs, shardOf, shard) && Within(idx, |reqs|) && shard !in done
    requires PartsGathered(step, before, start, reqs, es, Merged(failing, shardOf, shardError), shardOf, done)
    requires forall tp :: PartOf(after, tp)
               == if shardError(shard).Some? then PartOf(before, tp)
                  else PartOf(OneByOne(step, before, Picked(reqs, idx), Picked(es, idx), failing, |idx|).0, tp)
    ensures PartsGathered(step, after, start, reqs, es, Merged(failing, shardOf, shardError), shardOf, done + {shard})
  {
    var merged := Merged(failing, shardOf, shardError);
    forall tp ensures PartOf(after, tp)
                   == if shardOf(tp) in done + {shard} then PartAfter(step, start, reqs, es, merged, tp)
                      else PartOf(start, tp)
    {
      assert PartOf(before, tp) == if shardOf(tp) in done then PartAfter(step, start, reqs, es, merged, tp)
          else PartOf(start, tp);
      if shardOf(tp) == shard {
        ShareParts(step, before, reqs, es, shardOf, idx, failing, tp);
      } else {
        OtherParts(step, before, reqs, es, shardOf, shard, idx, failing, tp);
      }
    }
  }

  lemma {:induction false} ItemsGatherOn(
    step: Stepper, parts: Parts, before: seq<Item>, after: seq<Item>, answers: seq<Item>, start: Parts,
    reqs: seq<Planned>,
    es: seq<Env>, failing: Failing, shardOf: Placement, shardError: nat -> Option<string>, done: set<nat>, shard: nat,
    idx: seq<nat>)
    requires |reqs| == |es| == |after| && IsShare(idx, reqs, shardOf, shard) && Within(idx, |reqs|) && shard !in done
    requires PartsGathered(step, parts, start, reqs, es, Merged(failing, shardOf, shardError), shardOf, done)
    requires ItemsGathered(step, before, start, reqs, es, Merged(failing, shardOf, shardError), shardOf, done)
    requires Answered(after, before, idx, shardError(shard), answers)
    requires shardError(shard).None? ==>
               answers == OneByOne(step, parts, Picked(reqs, idx), Picked(es, idx), failing, |idx|).1
    ensures ItemsGathered(step, after, start, reqs, es, Merged(failing, shardOf, shardError), shardOf, done + {shard})
  {
    var merged := Merged(failing, shardOf, shardError);
    forall i: nat | i < |reqs|
      ensures after[i] == if reqs[i].Planned? && shardOf(reqs[i].tp) !in done + {shard} then Blank
                          else ItemFor(step, start, reqs, es, merged, i)
    {
      ShareMember(idx, reqs, shardOf, shard, i);
      if i in idx {
        var k :| 0 <= k < |idx| && idx[k] == i;
        var tp := reqs[i].tp;
        assert PartOf(parts, tp) == PartOf(start, tp);
        if shardError(shard).None? {
          ShareItem(step, parts, reqs, es, shardOf, shard, idx, failing, k);
        }
      }
    }
  }

  /** One shard's share is applied as one command, and its answers are gathered. */
  method RouteShard(
    broker: Broker, reqs: seq<Planned>, env: seq<Env>, shardOf: Placement, failing: Failing,
    shardError: nat -> Option<string>, shard: nat, idx: seq<nat>, items: array<Item>, ghost start: Parts,
    ghost es: seq<Env>, ghost done: set<nat>)
    requires |env| == |reqs| == items.Length && AppendsPlain(broker.step) && es == Effective(reqs, env)
    requires IsShare(idx, reqs, shardOf, shard) && Within(idx, |reqs|) && shard !in done
    requires PartsGathered(
               broker.step, broker.parts, start, reqs, es, Merged(failing, shardOf, shardError), shardOf, done)
    requires ItemsGathered(broker.step, items[..], start, reqs, es, Merged(failing, shardOf, shardError), shardOf, done)
    modifies broker, items
    ensures PartsGathered(
              broker.step, broker.parts, start, reqs, es, Merged(failing, shardOf, shardError), shardOf, done + {shard})
    ensures ItemsGathered(
              broker.step, items[..], start, reqs, es, Merged(failing, shardOf, shardError), shardOf, done + {shard})
  {
    ghost var oldParts, oldItems, answers := broker.parts, items[..], [];
    if shardError(shard).Some? {
      SetGroupError(idx, shardError(shard).value, items);
    } else {
      ShareEffective(reqs, env, shardOf, shard, idx);
      var result := broker.ApplyProduceBatches(Picked(reqs, idx), Picked(env, idx), failing);
      answers := result[..];
      MergeItems(idx, result, items);
    }
    PartsGatherOn(broker.step, oldParts, broker.parts, start, reqs, es, failing, shardOf, shardError, done, shard, idx);
    ItemsGatherOn(broker.step, oldParts, oldItems, items[..], answers, start, reqs, es, failing, shardOf, shardError,
                  done, shard, idx);
  }

  /**
   * Requests scattered to their shards, each shard applying its share as one command, in any order; the answers
   * gathered back by index. Partitions and answers are again those of publishing one at a time in the order given.
   */
  method RouteByShard(
    broker: Broker, reqs: seq<Planned>, env: seq<Env>, shardOf: Placement, failing: Failing,
    shardError: nat -> Option<string>)
    returns (items: array<Item>)
    requires |env| == |reqs| && AppendsPlain(broker.step)
    modifies broker
    ensures fresh(items)
    ensures
      var es, merged := Effective(reqs, env), Merged(failing, shardOf, shardError);
      var all := OneByOne(broker.step, old(broker.parts), reqs, es, merged, |reqs|);
      items[..] == all.1 && forall tp :: PartOf(broker.parts, tp) == PartOf(all.0, tp)
  {
    items := broker.ReportRefusals(reqs);
    var groups := GroupPlans(ByShard(reqs, shardOf));
    var left := groups.Keys;
    ghost var start, es, merged := broker.parts, Effective(reqs, env), Merged(failing, shardOf, shardError);
    ghost var done: set<nat> := {};
    while left != {}
      invariant fresh(items) && left <= groups.Keys && items.Length == |reqs|
      invariant PartsGathered(broker.step, broker.parts, start, reqs, es, merged, shardOf, done)
      invariant ItemsGathered(broker.step, items[..], start, reqs, es, merged, shardOf, done)
      invariant forall key :: key in groups ==> (key in left <==> key.partition !in done)
      decreases |left|
    {
      var key :| key in left;
      var idx, shard := groups[key], key.partition;
      ShardGroup(groups, reqs, shardOf, key);
      ShareWithin(idx, reqs, shardOf, shard);
      RouteShard(broker, reqs, env, shardOf, failing, shardError, shard, idx, items, start, es, done);
      forall other | other in groups && other.partition == shard ensures other == key {
        ShardGroup(groups, reqs, shardOf, other);
      }
      left, done := left - {key}, done + {shard};
    }
    AllGathered(broker.step, broker.parts, items[..], start, reqs, es, merged, shardOf, groups, done);
  }

  lemma {:induction false} ShardGroup(groups: Groups, reqs: seq<Planned>, shardOf: Placement, key: TopicPartition)
    requires AreGroups(groups, ByShard(reqs, shardOf), |reqs|) && key in groups && groups[key] != []
    ensures key == ShardKey(key.partition) && IsShare(groups[key], reqs, shardOf, key.partition)
  {
    var moved := ByShard(reqs, shardOf);
    assert GroupOf(groups, key) == IndexesOf(moved, key, |moved|);
    IndexesAreGroup(moved, key);
    GroupMember(groups[key], moved, key, 0);
  }

  lemma {:induction false} AllGathered(
    step: Stepper, parts: Parts, items: seq<Item>, start: Parts, reqs: seq<Planned>, es: seq<Env>, failing: Failing,
    shardOf: Placement, groups: Groups, done: set<nat>)
    requires |reqs| == |es| && AreGroups(groups, ByShard(reqs, shardOf), |reqs|)
    requires forall key :: key in groups ==> key.partition in done
    requires PartsGathered(step, parts, start, reqs, es, failing, shardOf, done)
    requires ItemsGathered(step, items, start, reqs, es, failing, shardOf, done)
    ensures forall tp :: PartOf(parts, tp) == PartOf(OneByOne(step, start, reqs, es, failing, |reqs|).0, tp)
    ensures items == OneByOne(step, start, reqs, es, failing, |reqs|).1
  {
    forall i: nat | i < |reqs| && reqs[i].Planned? ensures shardOf(reqs[i].tp) in done {
      PlannedIsGrouped(groups, ByShard(reqs, shardOf), i);
    }
    forall tp ensures PartOf(parts, tp) == PartOf(OneByOne(step, start, reqs, es, failing, |reqs|).0, tp) {
      if shardOf(tp) !in done {
        UptoSkips(step, PartOf(start, tp), reqs, es, tp, 0, |reqs|);
      }
      OneByOneParts(step, start, reqs, es, failing, |reqs|, tp);
    }
    forall i: nat | i < |reqs| ensures items[i] == OneByOne(step, start, reqs, es, failing, |reqs|).1[i] {
      OneByOneItems(step, start, reqs, es, failing, |reqs|, i);
    }
  }
}
