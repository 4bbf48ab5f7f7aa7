/** Runs of coalesced commands with clean-ups in between, and what their callers are told. */
module CommandRuns {
  import opened Basics
  import opened Sorting
  import opened Logs
  import opened Grouping
  import opened Receipts
  import opened EndToEnd
  import opened Outcomes
  import E = ExactlyOnce
  import I = Idempotency
  import R = IdempotencyRuns

  /** A command with the surroundings of its requests and the groups that fail, or a clean-up of a partition log. */
  datatype Event =
    | Command(reqs: seq<Planned>, es: seq<Env>, failing: Failing)
    | Cleanup(tp: TopicPartition, drop: set<nat>)

  function Cleaned(p: Part, drop: set<nat>): Part {
    p.(log := p.log.(records := Filter(p.log.records, R.NotIn(drop))))
  }

  /** What a clean-up leaves still stands for what was written. */
  lemma {:induction false} CleanupTied(w: History, p: Part, tp: TopicPartition, drop: set<nat>)
    requires Tied(w, p, tp)
    ensures Tied(w, Cleaned(p, drop), tp)
  {
    E.CleanupOk(p.log, drop);
    FilterMembers(p.log.records, R.NotIn(drop));
    forall b | b in p.batches ensures TiedTo(w, Cleaned(p, drop).log, tp, b) { assert TiedTo(w, p.log, tp, b); }
  }

  /** A partition after an event. */
  ghost function PartNext(step: Stepper, parts: Parts, e: Event, tp: TopicPartition): Part
    requires e.Command? ==> |e.reqs| == |e.es|
  {
    match e
    case Command(reqs, es, failing) => PartOf(OneByOne(step, parts, reqs, es, failing, |reqs|).0, tp)
    case Cleanup(p, drop) => if p == tp then Cleaned(PartOf(parts, tp), drop) else PartOf(parts, tp)
  }

  ghost predicate IsStep(step: Stepper, states: seq<Parts>, events: seq<Event>, k: nat)
    requires |states| == |events| + 1 && k < |events|
  {
    (events[k].Command? ==> |events[k].reqs| == |events[k].es|) && Follows(step, states[k], states[k + 1], events[k])
  }

  ghost predicate Follows(step: Stepper, parts: Parts, after: Parts, e: Event)
    requires e.Command? ==> |e.reqs| == |e.es|
  {
    forall tp :: PartOf(after, tp) == PartNext(step, parts, e, tp)
  }

  /** The partitions of a new broker through these events. */
  ghost predicate IsRun(step: Stepper, states: seq<Parts>, events: seq<Event>) {
    && |states| == |events| + 1 && states[0] == map[]
    && forall k: nat :: k < |events| ==> IsStep(step, states, events, k)
  }

  /** Request i of command k was sent to the partition under the key, with these messages. */
  ghost predicate SentIn(events: seq<Event>, k: nat, i: nat, tp: TopicPartition, key: I.Key, messages: seq<Payload>) {
    && k < |events| && events[k].Command? && i < |events[k].reqs|
    && SentUnder(key, messages, events[k].reqs[i], tp)
  }

  /** One of the first n commands holds such a request. */
  ghost predicate SentBefore(events: seq<Event>, n: nat, tp: TopicPartition, key: I.Key, messages: seq<Payload>) {
    exists k: nat, i: nat :: k < n && SentIn(events, k, i, tp, key, messages)
  }

  /** Everything in the histories was sent by one of the first n commands. */
  ghost predicate Sourced(hs: Histories, events: seq<Event>, n: nat) {
    forall tp, key :: key in hs(tp) ==> SentBefore(events, n, tp, key, hs(tp)[key])
  }

  lemma {:induction false} SourcedNext(hs: Histories, after: Histories, events: seq<Event>, n: nat)
    requires n < |events| && events[n].Command? && Sourced(hs, events, n) && Accounted(hs, after, events[n].reqs)
    ensures Sourced(after, events, n + 1)
  {
    forall tp, key | key in after(tp) ensures SentBefore(events, n + 1, tp, key, after(tp)[key]) {
      WrittenSent(hs, events, n, tp, key, after(tp)[key], |events[n].reqs|);
    }
  }

  lemma {:induction false} WrittenSent(
    hs: Histories, events: seq<Event>, n: nat, tp: TopicPartition, key: I.Key, messages: seq<Payload>, i: nat)
    requires n < |events| && events[n].Command? && i <= |events[n].reqs| && Sourced(hs, events, n)
    requires WrittenUnder(key, messages, hs(tp), events[n].reqs, tp, i)
    ensures SentBefore(events, n, tp, key, messages)
         || exists j: nat :: j < i && SentIn(events, n, j, tp, key, messages)
    ensures SentBefore(events, n + 1, tp, key, messages)
  {
    if key in hs(tp) && hs(tp)[key] == messages {
      var k: nat, j: nat :| k < n && SentIn(events, k, j, tp, key, messages);
    } else {
      var j: nat :| j < i && SentUnder(key, messages, events[n].reqs[j], tp);
      assert SentIn(events, n, j, tp, key, messages);
    }
  }

  lemma {:induction false} SourcedLater(hs: Histories, events: seq<Event>, n: nat)
    requires Sourced(hs, events, n)
    ensures Sourced(hs, events, n + 1)
  {
    forall tp, key | key in hs(tp) ensures SentBefore(events, n + 1, tp, key, hs(tp)[key]) {
      var k: nat, j: nat :| k < n && SentIn(events, k, j, tp, key, hs(tp)[key]);
    }
  }

  lemma {:induction false} CleanupAllTied(hs: Histories, parts: Parts, after: Parts, p: TopicPartition, drop: set<nat>)
    requires AllTied(hs, parts)
    requires forall tp :: PartOf(after, tp) == if p == tp then Cleaned(PartOf(parts, tp), drop) else PartOf(parts, tp)
    ensures AllTied(hs, after)
  {
    forall tp ensures Tied(hs(tp), PartOf(after, tp), tp) {
      assert Tied(hs(tp), PartOf(parts, tp), tp);
      CleanupTied(hs(tp), PartOf(parts, tp), tp, drop);
    }
  }

  /** At every moment of a run, remembered batches stand for messages that one of the commands so far sent. */
  lemma {:induction false} RunTied(step: Stepper, note: Noter, states: seq<Parts>, events: seq<Event>, n: nat)
    returns (hs: Histories)
    requires Answers(step, note) && NotesOwn(note) && IsRun(step, states, events) && n <= |events|
    ensures AllTied(hs, states[n]) && Sourced(hs, events, n)
  {
    if n == 0 {
      NothingWritten();
      hs := (tp: TopicPartition) => map[];
    } else {
      var before := RunTied(step, note, states, events, n - 1);
      hs := StepTied(step, note, states, events, n - 1, before);
    }
  }

  lemma {:induction false} StepTied(
    step: Stepper, note: Noter, states: seq<Parts>, events: seq<Event>, n: nat, before: Histories)
    returns (hs: Histories)
    requires Answers(step, note) && NotesOwn(note) && IsRun(step, states, events) && n < |events|
    requires AllTied(before, states[n]) && Sourced(before, events, n)
    ensures AllTied(hs, states[n + 1]) && Sourced(hs, events, n + 1)
  {
    assert IsStep(step, states, events, n);
    match events[n]
    case Command(reqs, es, failing) =>
      hs := HistoriesAfter(step, note, before, states[n], reqs, es, failing);
      CommandTied(step, note, before, states[n], states[n + 1], reqs, es, failing);
      SourcedNext(before, hs, events, n);
    case Cleanup(p, drop) =>
      hs := before;
      CleanupAllTied(before, states[n], states[n + 1], p, drop);
      SourcedLater(before, events, n);
  }

  /** What a caller told of success is told, in terms of the requests of the run. */
  ghost predicate ToldRightly(item: Item, log: Log, events: seq<Event>, n: nat, i: nat)
    requires n < |events| && events[n].Command? && i < |events[n].reqs|
  {
    var r := events[n].reqs[i];
    && r.Planned? && item.partition == r.tp.partition && |item.records| == |r.messages|
    && (item.appended ==> Receipt(item.records, r.messages, log))
    && (!item.appended ==> r.id.Some? && exists told :: ToldEarlier(item.records, told, log, events, n, i))
  }

  /**
   * The records are a receipt for messages that a request sent under the same key, in an earlier command or earlier in
   * this one.
   */
  ghost predicate ToldEarlier(
    records: seq<Record>, told: seq<Payload>, log: Log, events: seq<Event>, n: nat, i: nat)
    requires n < |events| && events[n].Command? && i < |events[n].reqs|
    requires events[n].reqs[i].Planned? && events[n].reqs[i].id.Some?
  {
    var r := events[n].reqs[i];
    var key := R.KeyFor(IdempotentRequest(r.tp, r));
    && Receipt(records, told, log)
    && (SentBefore(events, n, r.tp, key, told)
        || exists j: nat :: j < i && SentIn(events, n, j, r.tp, key, told))
  }

  lemma {:induction false} ReceivesRightly(item: Item, hs: Histories, log: Log, events: seq<Event>, n: nat, i: nat)
    requires n < |events| && events[n].Command? && i < |events[n].reqs| && Sourced(hs, events, n)
    requires events[n].reqs[i].Planned? && Receives(item, hs(events[n].reqs[i].tp), log, events[n].reqs, i)
    ensures ToldRightly(item, log, events, n, i)
  {
    if !item.appended {
      var r := events[n].reqs[i];
      var key := R.KeyFor(IdempotentRequest(r.tp, r));
      var told :| Receipt(item.records, told, log) && WrittenUnder(key, told, hs(r.tp), events[n].reqs, r.tp, i);
      WrittenSent(hs, events, n, r.tp, key, told, i);
      assert ToldEarlier(item.records, told, log, events, n, i);
    }
  }

  /**
   * Over every run of commands and clean-ups of a new broker: whoever is told of success is told records that are in
   * its partition when its command ends. They hold its own messages or, for a duplicate, the messages a request sent
   * earlier under the same producer, epoch, partition and sequence.
   */
  lemma {:induction false} EveryAnswerHasASender(
    step: Stepper, note: Noter, states: seq<Parts>, events: seq<Event>, n: nat, i: nat)
    requires Answers(step, note) && NotesOwn(note) && IsRun(step, states, events)
    requires n < |events| && events[n].Command? && |events[n].reqs| == |events[n].es| && i < |events[n].reqs|
    ensures
      var (reqs, es) := (events[n].reqs, events[n].es);
      var item := OneByOne(step, states[n], reqs, es, events[n].failing, |reqs|).1[i];
      item.error.None? ==>
        reqs[i].Planned? && ToldRightly(item, PartOf(states[n + 1], reqs[i].tp).log, events, n, i)
  {
    var hs := RunTied(step, note, states, events, n);
    var reqs, es, failing := events[n].reqs, events[n].es, events[n].failing;
    var item := OneByOne(step, states[n], reqs, es, failing, |reqs|).1[i];
    if item.error.None? {
      assert IsStep(step, states, events, n);
      ItemReceives(step, note, hs, states[n], states[n + 1], reqs, es, failing, i);
      ReceivesRightly(item, hs, PartOf(states[n + 1], reqs[i].tp).log, events, n, i);
    }
  }

  /** The broker's own step has what the run theorem asks for. */
  lemma {:induction false} BrokerAnswersHaveSenders(states: seq<Parts>, events: seq<Event>, n: nat, i: nat)
    requires IsRun(Step, states, events)
    requires n < |events| && events[n].Command? && |events[n].reqs| == |events[n].es| && i < |events[n].reqs|
    ensures
      var (reqs, es) := (events[n].reqs, events[n].es);
      var item := OneByOne(Step, states[n], reqs, es, events[n].failing, |reqs|).1[i];
      item.error.None? ==>
        reqs[i].Planned? && ToldRightly(item, PartOf(states[n + 1], reqs[i].tp).log, events, n, i)
  {
    StepAnswers();
    NoteOwn();
    EveryAnswerHasASender(Step, Note, states, events, n, i);
  }

  /**
   * Over every run, whatever was sent, cleaned up and failed before: a request is told of success if and only if it is
   * not refused, its group does not fail, and it deserves success where the requests before it leave its partition.
   */
  lemma {:induction false} BrokerSucceedsExactlyWhen(states: seq<Parts>, events: seq<Event>, n: nat, i: nat)
    requires IsRun(Step, states, events)
    requires n < |events| && events[n].Command? && |events[n].reqs| == |events[n].es| && i < |events[n].reqs|
    ensures
      var (reqs, es) := (events[n].reqs, events[n].es);
      OneByOne(Step, states[n], reqs, es, events[n].failing, |reqs|).1[i].error.None?
      <==> SucceedsIn(Step, Fair(), states[n], reqs, es, events[n].failing, i)
  {
    StepAnswers();
    NoteOwn();
    StepJudged();
    var reqs := events[n].reqs;
    var hs := RunTied(Step, Note, states, events, n);
    var w := if reqs[i].Planned? then hs(reqs[i].tp) else map[];
    NoErrorExactlyWhen(Step, Note, Fair(), w, states[n], reqs, events[n].es, events[n].failing, i);
  }
}
