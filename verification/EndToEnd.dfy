/** The coalesced produce path from the waiting caller to the partition log and back. */
module EndToEnd {
  import opened Basics
  import opened Sorting
  import opened Grouping
  import opened GroupedApply
  import opened ShardedApply
  import opened Receipts
  import opened Outcomes
  import opened Batcher

  /** For every partition, what was written under each key. */
  type Histories = TopicPartition -> History

  /** In every partition, remembered batches stand for what was written. */
  ghost predicate AllTied(hs: Histories, parts: Parts) {
    forall tp :: Tied(hs(tp), PartOf(parts, tp), tp)
  }

  /** A broker that holds nothing has nothing to account for. */
  lemma {:induction false} NothingWritten()
    ensures AllTied((tp: TopicPartition) => map[], map[])
  {
  }

  /** The histories after a command: groups that fail write nothing. */
  ghost function HistoriesAfter(
    step: Stepper, note: Noter, hs: Histories, parts: Parts, reqs: seq<Planned>, es: seq<Env>,
    failing: Failing): Histories
    requires |reqs| == |es|
  {
    (tp: TopicPartition) =>
      if failing(tp).Some? then hs(tp) else Notes(step, note, hs(tp), PartOf(parts, tp), reqs, es, tp, |reqs|)
  }

  /** Everything in the later histories was written before or is in a request of the command. */
  ghost predicate Accounted(hs: Histories, after: Histories, reqs: seq<Planned>) {
    forall tp, key :: key in after(tp) ==> WrittenUnder(key, after(tp)[key], hs(tp), reqs, tp, |reqs|)
  }

  lemma {:induction false} CommandTied(
    step: Stepper, note: Noter, hs: Histories, parts: Parts, after: Parts, reqs: seq<Planned>, es: seq<Env>,
    failing: Failing)
    requires |reqs| == |es| && Answers(step, note) && NotesOwn(note) && AllTied(hs, parts)
    requires forall tp :: PartOf(after, tp) == PartOf(OneByOne(step, parts, reqs, es, failing, |reqs|).0, tp)
    ensures AllTied(HistoriesAfter(step, note, hs, parts, reqs, es, failing), after)
    ensures Accounted(hs, HistoriesAfter(step, note, hs, parts, reqs, es, failing), reqs)
  {
    var later := HistoriesAfter(step, note, hs, parts, reqs, es, failing);
    forall tp ensures Tied(later(tp), PartOf(after, tp), tp) {
      OneByOneParts(step, parts, reqs, es, failing, |reqs|, tp);
      assert Tied(hs(tp), PartOf(parts, tp), tp);
      UptoTied(step, note, hs(tp), PartOf(parts, tp), reqs, es, tp, |reqs|);
    }
    forall tp, key | key in later(tp) ensures WrittenUnder(key, later(tp)[key], hs(tp), reqs, tp, |reqs|) {
      if failing(tp).None? { NotesWritten(step, note, hs(tp), PartOf(parts, tp), reqs, es, tp, |reqs|, key); }
    }
  }

  /** The message goes to the caller; it is an answer exactly if it should be, and then a receipt for the request. */
  ghost predicate Served(
    d: Delivery, caller: Work, hs: Histories, parts: Parts, reqs: seq<Planned>, i: nat, succeeds: bool)
    requires i < |reqs|
  {
    && d.work == caller && (d.message.Answer? <==> succeeds)
    && (d.message.Answer? ==>
          && d.message.item.error.None? && reqs[i].Planned?
          && Receives(d.message.item, hs(reqs[i].tp), PartOf(parts, reqs[i].tp).log, reqs, i))
  }

  /**
   * The callers who should be answered, by their place among the live ones: neither the request's shard nor its group
   * fails, and the request deserves success where the requests before it leave its partition.
   */
  ghost function Answered(
    parts: Parts, reqs: seq<Planned>, es: seq<Env>, failing: Failing, shardOf: Placement,
    shardError: nat -> Option<string>): nat -> bool
    requires |reqs| == |es|
  {
    (i: nat) =>
      && i < |reqs| && reqs[i].Planned?
      && shardError(shardOf(reqs[i].tp)).None? && failing(reqs[i].tp).None?
      && Deserves(Upto(Step, PartOf(parts, reqs[i].tp), reqs, es, reqs[i].tp, i), reqs[i].tp, reqs[i], es[i])
  }

  /** An item that reports success is a receipt. */
  lemma {:induction false} ItemReceives(
    step: Stepper, note: Noter, hs: Histories, parts: Parts, after: Parts, reqs: seq<Planned>, es: seq<Env>,
    failing: Failing, i: nat)
    requires i < |reqs| == |es| && Answers(step, note) && NotesOwn(note) && AllTied(hs, parts)
    requires forall tp :: PartOf(after, tp) == PartOf(OneByOne(step, parts, reqs, es, failing, |reqs|).0, tp)
    requires OneByOne(step, parts, reqs, es, failing, |reqs|).1[i].error.None?
    ensures
      var item := OneByOne(step, parts, reqs, es, failing, |reqs|).1[i];
      reqs[i].Planned? && Receives(item, hs(reqs[i].tp), PartOf(after, reqs[i].tp).log, reqs, i)
  {
    OneByOneItems(step, parts, reqs, es, failing, |reqs|, i);
    var tp := reqs[i].tp;
    assert Tied(hs(tp), PartOf(parts, tp), tp);
    SuccessIsReceipt(step, note, hs(tp), parts, reqs, es, failing, i);
    assert PartOf(after, tp) == PartOf(OneByOne(step, parts, reqs, es, failing, |reqs|).0, tp);
  }

  lemma {:induction false} ItemDeserved(
    hs: Histories, parts: Parts, reqs: seq<Planned>, es: seq<Env>, failing: Failing, shardOf: Placement,
    shardError: nat -> Option<string>, i: nat)
    requires i < |reqs| == |es| && AllTied(hs, parts)
    ensures OneByOne(Step, parts, reqs, es, Merged(failing, shardOf, shardError), |reqs|).1[i].error.None?
       <==> Answered(parts, reqs, es, failing, shardOf, shardError)(i)
  {
    StepAnswers();
    StepJudged();
    var w := if reqs[i].Planned? then hs(reqs[i].tp) else map[];
    NoErrorExactlyWhen(Step, Note, Fair(), w, parts, reqs, es, Merged(failing, shardOf, shardError), i);
  }

  lemma {:induction false} CallerServed(
    works: seq<Work>, cancelled: Work -> bool, route: Route, hs: Histories, after: Parts, reqs: seq<Planned>,
    items: seq<Item>, i: nat)
    requires i < |reqs| == |Filter(works, Live(cancelled))| == |items|
    requires route(Filter(works, Live(cancelled))) == Ok(items)
    requires items[i].error.None? ==>
               reqs[i].Planned? && Receives(items[i], hs(reqs[i].tp), PartOf(after, reqs[i].tp).log, reqs, i)
    ensures |Deliveries(works, cancelled, route)| == |Filter(works, cancelled)| + |reqs|
    ensures Served(Deliveries(works, cancelled, route)[|Filter(works, cancelled)| + i],
                   Filter(works, Live(cancelled))[i], hs, after, reqs, i, items[i].error.None?)
  {
    OwnItemEach(works, cancelled, route, i);
  }

  /**
   * Serving a drained batch: the live callers' requests are routed as one command and the answers delivered. Every
   * caller gets one message; it is an answer exactly if the request deserves to succeed; an answer is a receipt, for
   * the caller's own messages or, for a duplicate, for the messages of the request that wrote them; and what is
   * remembered afterwards again stands for what was written, so that the same holds of the next batch.
   */
  method ServeWorks(
    broker: Broker, works: seq<Work>, cancelled: Work -> bool, requestOf: Work -> Planned, envOf: Work -> Env,
    shardOf: Placement, failing: Failing, shardError: nat -> Option<string>, ghost hs: Histories)
    returns (sent: seq<Delivery>, ghost after: Histories)
    requires broker.step == Step && AllTied(hs, broker.parts)
    modifies broker
    ensures
      var active := Filter(works, Live(cancelled));
      var reqs := All(active, requestOf);
      var all := OneByOne(Step, old(broker.parts), reqs, Effective(reqs, All(active, envOf)),
                          Merged(failing, shardOf, shardError), |reqs|);
      && sent == ToEach(Filter(works, cancelled), Failed("produce batch context done")) + ToOwn(active, all.1)
      && forall tp :: PartOf(broker.parts, tp) == PartOf(all.0, tp)
    ensures
      var reqs := All(Filter(works, Live(cancelled)), requestOf);
      && AllTied(after, broker.parts) && Accounted(hs, after, reqs)
      && (forall w :: Count(sent, IsFor(w)) == Count(works, Is(w)))
      && |sent| == |Filter(works, cancelled)| + |reqs|
      && forall i: nat :: i < |reqs| ==>
           Served(sent[|Filter(works, cancelled)| + i], Filter(works, Live(cancelled))[i], hs, broker.parts, reqs, i,
                  Answered(old(broker.parts), reqs, Effective(reqs, All(Filter(works, Live(cancelled)), envOf)),
                           failing, shardOf, shardError)(i))
  {
    var active, gone := SplitWorks(works, cancelled);
    if |active| == 0 {
      ghost var nowhere: Route := _ => Ok([]);
      assert gone == Deliveries(works, cancelled, nowhere);
      forall w ensures Count(gone, IsFor(w)) == Count(works, Is(w)) { OneMessageEach(works, cancelled, nowhere, w); }
      return gone, hs;
    }
    var reqs, env := All(active, requestOf), All(active, envOf);
    ghost var start, es, merged := broker.parts, Effective(reqs, env), Merged(failing, shardOf, shardError);
    StepAppendsPlain();
    StepAnswers();
    NoteOwn();
    var items := RouteByShard(broker, reqs, env, shardOf, failing, shardError);
    var delivered := Deliver(active, Ok(items[..]));
    sent, after := gone + delivered, HistoriesAfter(Step, Note, hs, start, reqs, es, merged);
    CommandTied(Step, Note, hs, start, broker.parts, reqs, es, merged);
    ghost var answers := items[..];
    ghost var route: Route := _ => Ok(answers);
    assert sent == Deliveries(works, cancelled, route);
    forall w ensures Count(sent, IsFor(w)) == Count(works, Is(w)) { OneMessageEach(works, cancelled, route, w); }
    forall i: nat | i < |reqs|
      ensures |sent| == |Filter(works, cancelled)| + |reqs|
      ensures Served(sent[|Filter(works, cancelled)| + i], Filter(works, Live(cancelled))[i], hs, broker.parts, reqs, i,
                     Answered(start, reqs, es, failing, shardOf, shardError)(i))
    {
      ItemDeserved(hs, start, reqs, es, failing, shardOf, shardError, i);
      if answers[i].error.None? { ItemReceives(Step, Note, hs, start, broker.parts, reqs, es, merged, i); }
      CallerServed(works, cancelled, route, hs, broker.parts, reqs, answers, i);
    }
  }
}
