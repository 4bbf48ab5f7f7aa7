/** What a success tells a producer: its own records, or for a duplicate those of the request that wrote them. */
module Receipts {
  import opened Basics
  import opened Logs
  import opened Grouping
  import I = Idempotency
  import R = IdempotencyRuns
  import E = ExactlyOnce

  /** For every sequence key, the messages last written under it. */
  type History = map<I.Key, seq<Payload>>

  // ---- Remembered batches stand for what was written ----

  /** At the offsets of batch b the log holds nothing but these messages, each in its place. */
  ghost predicate Holds(log: Log, b: I.Batch, messages: seq<Payload>) {
    && b.count == |messages| && b.lastOffset < log.next
    && forall r :: r in log.records && b.baseOffset <= r.offset <= b.lastOffset ==> IsAt(r, b.baseOffset, messages)
  }

  ghost predicate IsAt(r: Record, base: nat, messages: seq<Payload>) {
    base <= r.offset < base + |messages| && r.payload == messages[r.offset - base]
  }

  /** Every batch the partition remembers stands for the messages last written under its key. */
  ghost predicate Tied(w: History, p: Part, tp: TopicPartition) {
    && LogOk(p.log) && R.TableOk(p.batches)
    && forall b :: b in p.batches ==> TiedTo(w, p.log, tp, b)
  }

  ghost predicate TiedTo(w: History, log: Log, tp: TopicPartition, b: I.Batch) {
    b.tp == tp && I.KeyOf(b) in w && Holds(log, b, w[I.KeyOf(b)])
  }

  /** These records are the messages at consecutive offsets, and the log holds them. */
  ghost predicate Receipt(records: seq<Record>, messages: seq<Payload>, log: Log) {
    && (exists base: nat :: records == Stamp(base, messages))
    && forall r :: r in records ==> r in log.records
  }

  lemma {:induction false} AppendHolds(log: Log, payloads: seq<Payload>, b: I.Batch, messages: seq<Payload>)
    requires Holds(log, b, messages)
    ensures Holds(Append(log, payloads), b, messages)
  {
    var after := Append(log, payloads);
    forall r | r in after.records && b.baseOffset <= r.offset <= b.lastOffset ensures IsAt(r, b.baseOffset, messages) {
      assert r in log.records;
    }
  }

  lemma {:induction false} NewHolds(log: Log, payloads: seq<Payload>, b: I.Batch)
    requires LogOk(log) && payloads != [] && b.count == |payloads|
    requires b.baseOffset == log.next && b.lastOffset == log.next + |payloads| - 1
    ensures Holds(Append(log, payloads), b, payloads)
  {
    var after := Append(log, payloads);
    forall r | r in after.records && b.baseOffset <= r.offset <= b.lastOffset ensures IsAt(r, b.baseOffset, payloads) {
      E.RecordAt(log, payloads, r);
    }
  }

  // ---- One idempotent request ----

  function StateOf(p: Part, tp: TopicPartition): I.State {
    I.State(map[tp := p.log], p.batches)
  }

  lemma {:induction false} RememberedTied(
    w: History, p: Part, tp: TopicPartition, req: I.Request, now: nat, f: I.Faults)
    requires Tied(w, p, tp) && req.tp == tp && I.Remembers(StateOf(p, tp), req, now, f).Some?
    ensures
      var t := I.Produce(StateOf(p, tp), req, now, f).0;
      Tied(w[R.KeyFor(req) := req.payloads], Part(I.LogOf(t, tp), t.table), tp)
  {
    var s, n := StateOf(p, tp), I.Remembers(StateOf(p, tp), req, now, f).value;
    var t, e := I.Produce(s, req, now, f).0, R.Send(req, now, f);
    R.AppendedMeansNew(s, req, f);
    R.StepTableOk(s, e);
    R.TableAfter(s, e);
    R.SaveNew(s.table, n);
    R.PruneSubset(s.table + [n], n.producer, n.tp, I.Deletes(f));
    assert I.LogOf(t, tp) == Append(p.log, req.payloads);
    AppendOk(p.log, req.payloads);
    NewHolds(p.log, req.payloads, n);
    StillTied(w, p, tp, R.KeyFor(req), req.payloads, n, t.table);
  }

  /** What was tied before is tied after an append under a new key, and so is the batch it is remembered as. */
  lemma {:induction false} StillTied(
    w: History, p: Part, tp: TopicPartition, key: I.Key, payloads: seq<Payload>, n: I.Batch, table: seq<I.Batch>)
    requires Tied(w, p, tp) && forall b :: b in p.batches ==> I.KeyOf(b) != key
    requires n.tp == tp && I.KeyOf(n) == key && Holds(Append(p.log, payloads), n, payloads)
    requires forall b :: b in table ==> b in p.batches || b == n
    ensures forall b :: b in table ==> TiedTo(w[key := payloads], Append(p.log, payloads), tp, b)
  {
    forall b | b in table ensures TiedTo(w[key := payloads], Append(p.log, payloads), tp, b) {
      if b != n {
        assert TiedTo(w, p.log, tp, b);
        AppendHolds(p.log, payloads, b, w[I.KeyOf(b)]);
      }
    }
  }

  lemma {:induction false} UnsavedTied(w: History, p: Part, tp: TopicPartition, req: I.Request, now: nat, f: I.Faults)
    requires Tied(w, p, tp) && req.tp == tp && I.Remembers(StateOf(p, tp), req, now, f).None?
    ensures
      var t := I.Produce(StateOf(p, tp), req, now, f).0;
      Tied(w, Part(I.LogOf(t, tp), t.table), tp)
  {
    var t := I.Produce(StateOf(p, tp), req, now, f).0;
    assert t.table == p.batches;
    if I.LogOf(t, tp) != p.log {
      assert I.LogOf(t, tp) == Append(p.log, req.payloads);
      AppendOk(p.log, req.payloads);
      forall b | b in t.table ensures TiedTo(w, I.LogOf(t, tp), tp, b) {
        assert TiedTo(w, p.log, tp, b);
        AppendHolds(p.log, req.payloads, b, w[I.KeyOf(b)]);
      }
    }
  }

  /** What is read back for a batch is a receipt for the messages the batch stands for. */
  lemma {:induction false} ReadBackReceipt(log: Log, b: I.Batch, messages: seq<Payload>)
    requires LogOk(log) && Holds(log, b, messages) && b.count > 0 && b.lastOffset == b.baseOffset + b.count - 1
    requires I.ReadBack(log, b).Ok?
    ensures Receipt(I.ReadBack(log, b).value, messages, log)
  {
    E.ReadBackShape(log, b);
    InPlace(log, b, messages, I.ReadBack(log, b).value);
  }

  lemma {:induction false} InPlace(log: Log, b: I.Batch, messages: seq<Payload>, records: seq<Record>)
    requires Holds(log, b, messages) && |records| == b.count > 0 && (forall r :: r in records ==> r in log.records)
    requires forall i, j :: 0 <= i < j < |records| ==> records[i].offset < records[j].offset
    requires records[0].offset == b.baseOffset
    requires records[|records| - 1].offset == b.lastOffset == b.baseOffset + b.count - 1
    ensures records == Stamp(b.baseOffset, messages)
  {
    forall k | 0 <= k < |records| ensures records[k] == Stamp(b.baseOffset, messages)[k] {
      E.Consecutive(records, k);
      assert records[k] in records;
      assert IsAt(records[k], b.baseOffset, messages);
    }
  }

  /** A duplicate is told the records of the request that wrote them. */
  lemma {:induction false} DuplicateReceipt(w: History, p: Part, tp: TopicPartition, req: I.Request, f: I.Faults)
    requires Tied(w, p, tp) && req.tp == tp && I.Decide(StateOf(p, tp), req, f).Some?
    requires I.Decide(StateOf(p, tp), req, f).value.Ok?
    ensures
      var a := I.Decide(StateOf(p, tp), req, f).value.value;
      && !a.appended && R.KeyFor(req) in w && Receipt(a.records, w[R.KeyFor(req)], p.log)
      && |w[R.KeyFor(req)]| == |req.payloads|
  {
    var batches := I.ListBatches(p.batches, req.id.producer, req.tp);
    var b := FoundBatch(StateOf(p, tp), req, f);
    R.ListMembers(p.batches, req.id.producer, req.tp);
    assert TiedTo(w, p.log, tp, b);
    ReadBackReceipt(p.log, b, w[I.KeyOf(b)]);
  }

  lemma {:induction false} FoundBatch(s: I.State, req: I.Request, f: I.Faults) returns (b: I.Batch)
    requires I.Decide(s, req, f).Some? && I.Decide(s, req, f).value.Ok?
    ensures b in I.ListBatches(s.table, req.id.producer, req.tp)
    ensures b.epoch == req.id.epoch && b.base == req.id.base && b.count == |req.payloads|
    ensures I.ReadBack(I.LogOf(s, b.tp), b).Ok?
    ensures I.Decide(s, req, f).value.value == I.Answer(I.ReadBack(I.LogOf(s, b.tp), b).value, false)
  {
    var batches := I.ListBatches(s.table, req.id.producer, req.tp);
    R.FindCorrect(batches, req.id, |req.payloads|);
    b := I.Find(batches, req.id, |req.payloads|).batch;
  }

  // ---- One request at one partition ----

  /** What applying one request adds to the history. */
  type Noter = (History, Part, TopicPartition, Planned, Env) -> History

  function IdempotentRequest(tp: TopicPartition, r: Planned): I.Request
    requires r.Planned? && r.id.Some?
  {
    I.Request(r.id.value, tp, r.messages)
  }

  /** A request writes under its key exactly when its batch is remembered. */
  function Note(w: History, p: Part, tp: TopicPartition, r: Planned, e: Env): History {
    if r.Refused? || r.id.None? || e.refusal.Some? then w
    else if I.Remembers(StateOf(p, tp), IdempotentRequest(tp, r), e.now, e.faults).Some? then
      w[R.KeyFor(IdempotentRequest(tp, r)) := r.messages]
    else w
  }

  /** The messages a success of the request stands for: its own, or those last written under its key. */
  function Meant(w: History, tp: TopicPartition, r: Planned): seq<Payload>
    requires r.Planned?
  {
    if r.id.Some? && R.KeyFor(IdempotentRequest(tp, r)) in w then w[R.KeyFor(IdempotentRequest(tp, r))] else r.messages
  }

  /** What a success says, given the history and the log after it. */
  ghost predicate Tells(item: Item, w: History, log: Log, tp: TopicPartition, r: Planned)
    requires r.Planned?
  {
    && item.partition == tp.partition && |item.records| == |r.messages|
    && Receipt(item.records, Meant(w, tp, r), log)
    && (item.appended ==> Meant(w, tp, r) == r.messages)
    && (!item.appended ==> r.id.Some? && R.KeyFor(IdempotentRequest(tp, r)) in w)
  }

  ghost predicate AnswersAt(step: Stepper, note: Noter, w: History, p: Part, tp: TopicPartition, r: Planned, e: Env)
    requires r.Planned?
  {
    var (q, item) := step(p, tp, r, e);
    var after := note(w, p, tp, r, e);
    Tied(w, p, tp) ==>
      && Tied(after, q, tp) && p.log.records <= q.log.records
      && (item.error.None? ==> Tells(item, after, q.log, tp, r))
      && (item.error.None? && !item.appended ==> q == p && after == w)
  }

  ghost predicate Answers(step: Stepper, note: Noter) {
    forall w, p, tp, r: Planned, e :: r.Planned? ==> AnswersAt(step, note, w, p, tp, r, e)
  }

  /** Idempotent requests: the history follows the remembered batches, and a success is a receipt for what it names. */
  lemma {:induction false} IdempotentAnswers(w: History, p: Part, tp: TopicPartition, r: Planned, e: Env)
    requires r.Planned? && r.id.Some? && e.refusal.None?
    ensures AnswersAt(Step, Note, w, p, tp, r, e)
  {
    var req := IdempotentRequest(tp, r);
    var s := StateOf(p, tp);
    if Tied(w, p, tp) {
      if I.Remembers(s, req, e.now, e.faults).Some? {
        RememberedTied(w, p, tp, req, e.now, e.faults);
      } else {
        UnsavedTied(w, p, tp, req, e.now, e.faults);
      }
      ProduceGrows(s, req, e.now, e.faults);
      if I.Produce(s, req, e.now, e.faults).1.Ok? { ProduceTells(w, p, tp, req, e.now, e.faults); }
    }
  }

  lemma {:induction false} ProduceGrows(s: I.State, req: I.Request, now: nat, f: I.Faults)
    ensures I.LogOf(s, req.tp).records <= I.LogOf(I.Produce(s, req, now, f).0, req.tp).records
  {
  }

  lemma {:induction false} ProduceTells(w: History, p: Part, tp: TopicPartition, req: I.Request, now: nat, f: I.Faults)
    requires Tied(w, p, tp) && req.tp == tp && I.Produce(StateOf(p, tp), req, now, f).1.Ok?
    ensures
      var s := StateOf(p, tp);
      var (t, answer) := I.Produce(s, req, now, f);
      var after := if I.Remembers(s, req, now, f).Some? then w[R.KeyFor(req) := req.payloads] else w;
      && R.KeyFor(req) in after && |answer.value.records| == |req.payloads|
      && Receipt(answer.value.records, after[R.KeyFor(req)], I.LogOf(t, tp))
      && (answer.value.appended ==> after[R.KeyFor(req)] == req.payloads)
      && (!answer.value.appended ==> t == s && after == w)
  {
    var s := StateOf(p, tp);
    if I.Decide(s, req, f).Some? {
      DuplicateReceipt(w, p, tp, req, f);
    } else {
      assert I.Remembers(s, req, now, f).Some?;
      var t, answer := I.Produce(s, req, now, f).0, I.Produce(s, req, now, f).1.value;
      assert answer.records == Stamp(p.log.next, req.payloads);
      assert I.LogOf(t, tp) == Append(p.log, req.payloads);
    }
  }

  /** Plain requests tell their own messages and leave the history alone. */
  lemma {:induction false} PlainAnswers(w: History, p: Part, tp: TopicPartition, r: Planned, e: Env)
    requires r.Planned? && (r.id.None? || e.refusal.Some?)
    ensures AnswersAt(Step, Note, w, p, tp, r, e)
  {
    if Tied(w, p, tp) && e.refusal.None? && !e.faults.publish {
      AppendOk(p.log, r.messages);
      var after := Append(p.log, r.messages);
      forall b | b in p.batches ensures TiedTo(w, after, tp, b) {
        assert TiedTo(w, p.log, tp, b);
        AppendHolds(p.log, r.messages, b, w[I.KeyOf(b)]);
      }
    }
  }

  lemma {:induction false} StepAnswers()
    ensures Answers(Step, Note)
  {
    forall w, p, tp, r: Planned, e | r.Planned? ensures AnswersAt(Step, Note, w, p, tp, r, e) {
      if r.id.Some? && e.refusal.None? {
        IdempotentAnswers(w, p, tp, r, e);
      } else {
        PlainAnswers(w, p, tp, r, e);
      }
    }
  }

  // ---- A whole command ----

  /** The history of a partition after those of the first i requests that go to it, taken in order. */
  function Notes(
    step: Stepper, note: Noter, w: History, p: Part, reqs: seq<Planned>, es: seq<Env>, tp: TopicPartition,
    i: nat): History
    requires i <= |reqs| == |es|
  {
    if i == 0 then w
    else
      var before := Notes(step, note, w, p, reqs, es, tp, i - 1);
      if Targets(reqs[i - 1], tp) then
        note(before, Upto(step, p, reqs, es, tp, i - 1), tp, reqs[i - 1], es[i - 1])
      else before
  }

  lemma {:induction false} UptoTied(
    step: Stepper, note: Noter, w: History, p: Part, reqs: seq<Planned>, es: seq<Env>, tp: TopicPartition, i: nat)
    requires i <= |reqs| == |es| && Answers(step, note) && Tied(w, p, tp)
    ensures Tied(Notes(step, note, w, p, reqs, es, tp, i), Upto(step, p, reqs, es, tp, i), tp)
  {
    if i > 0 {
      UptoTied(step, note, w, p, reqs, es, tp, i - 1);
      if Targets(reqs[i - 1], tp) {
        assert AnswersAt(step, note, Notes(step, note, w, p, reqs, es, tp, i - 1),
                         Upto(step, p, reqs, es, tp, i - 1), tp, reqs[i - 1], es[i - 1]);
      }
    }
  }

  lemma {:induction false} UptoGrows(
    step: Stepper, note: Noter, w: History, p: Part, reqs: seq<Planned>, es: seq<Env>, tp: TopicPartition, i: nat,
    j: nat)
    requires i <= j <= |reqs| == |es| && Answers(step, note) && Tied(w, p, tp)
    ensures Upto(step, p, reqs, es, tp, i).log.records <= Upto(step, p, reqs, es, tp, j).log.records
    decreases j
  {
    if i < j {
      UptoGrows(step, note, w, p, reqs, es, tp, i, j - 1);
      UptoTied(step, note, w, p, reqs, es, tp, j - 1);
      if Targets(reqs[j - 1], tp) {
        assert AnswersAt(step, note, Notes(step, note, w, p, reqs, es, tp, j - 1),
                         Upto(step, p, reqs, es, tp, j - 1), tp, reqs[j - 1], es[j - 1]);
      }
    }
  }

  /** A noter writes nothing but a request's own messages under its own key. */
  ghost predicate NotesOwn(note: Noter) {
    forall w, p, tp, r: Planned, e :: r.Planned? ==>
      || note(w, p, tp, r, e) == w
      || (r.id.Some? && note(w, p, tp, r, e) == w[R.KeyFor(IdempotentRequest(tp, r)) := r.messages])
  }

  /** These messages are what the history has under the key, or what one of the first i requests sent under it. */
  ghost predicate WrittenUnder(
    key: I.Key, messages: seq<Payload>, w: History, reqs: seq<Planned>, tp: TopicPartition, i: nat)
    requires i <= |reqs|
  {
    || (key in w && w[key] == messages)
    || exists k :: 0 <= k < i && SentUnder(key, messages, reqs[k], tp)
  }

  predicate SentUnder(key: I.Key, messages: seq<Payload>, r: Planned, tp: TopicPartition) {
    Targets(r, tp) && r.id.Some? && R.KeyFor(IdempotentRequest(tp, r)) == key && r.messages == messages
  }

  /** Everything in the history was written by somebody. */
  lemma {:induction false} NotesWritten(
    step: Stepper, note: Noter, w: History, p: Part, reqs: seq<Planned>, es: seq<Env>, tp: TopicPartition, i: nat,
    key: I.Key)
    requires i <= |reqs| == |es| && NotesOwn(note) && key in Notes(step, note, w, p, reqs, es, tp, i)
    ensures WrittenUnder(key, Notes(step, note, w, p, reqs, es, tp, i)[key], w, reqs, tp, i)
  {
    if i > 0 {
      var before := Notes(step, note, w, p, reqs, es, tp, i - 1);
      var after := Notes(step, note, w, p, reqs, es, tp, i);
      if key in before && after[key] == before[key] {
        NotesWritten(step, note, w, p, reqs, es, tp, i - 1, key);
      } else {
        assert SentUnder(key, after[key], reqs[i - 1], tp);
      }
    }
  }

  /** What a caller who is told of success is told: its own messages, or for a duplicate those the writer sent. */
  ghost predicate Receives(item: Item, w: History, log: Log, reqs: seq<Planned>, i: nat)
    requires i < |reqs|
  {
    var r := reqs[i];
    && r.Planned? && item.partition == r.tp.partition && |item.records| == |r.messages|
    && (item.appended ==> Receipt(item.records, r.messages, log))
    && (!item.appended ==>
          && r.id.Some?
          && exists told :: Receipt(item.records, told, log)
                            && WrittenUnder(R.KeyFor(IdempotentRequest(r.tp, r)), told, w, reqs, r.tp, i))
  }

  lemma {:induction false} ReceiptKept(records: seq<Record>, messages: seq<Payload>, log: Log, later: Log)
    requires Receipt(records, messages, log) && log.records <= later.records
    ensures Receipt(records, messages, later)
  {
    forall r | r in records ensures r in later.records {
      var k :| 0 <= k < |log.records| && log.records[k] == r;
      assert later.records[k] == r;
    }
  }

  lemma {:induction false} TellsReceives(item: Item, w: History, after: History, log: Log, reqs: seq<Planned>, i: nat)
    requires i < |reqs| && reqs[i].Planned? && Tells(item, after, log, reqs[i].tp, reqs[i])
    requires !item.appended ==>
               var key := R.KeyFor(IdempotentRequest(reqs[i].tp, reqs[i]));
               WrittenUnder(key, after[key], w, reqs, reqs[i].tp, i)
    ensures Receives(item, w, log, reqs, i)
  {
    if !item.appended {
      assert Receipt(item.records, after[R.KeyFor(IdempotentRequest(reqs[i].tp, reqs[i]))], log);
    }
  }

  lemma {:induction false} ReceivesLater(item: Item, w: History, log: Log, later: Log, reqs: seq<Planned>, i: nat)
    requires i < |reqs| && Receives(item, w, log, reqs, i) && log.records <= later.records
    ensures Receives(item, w, later, reqs, i)
  {
    if item.appended {
      ReceiptKept(item.records, reqs[i].messages, log, later);
    } else {
      var key := R.KeyFor(IdempotentRequest(reqs[i].tp, reqs[i]));
      var told :| Receipt(item.records, told, log) && WrittenUnder(key, told, w, reqs, reqs[i].tp, i);
      ReceiptKept(item.records, told, log, later);
    }
  }

  lemma {:induction false} StepReceives(
    step: Stepper, note: Noter, w: History, p: Part, reqs: seq<Planned>, es: seq<Env>, i: nat)
    requires i < |reqs| == |es| && Answers(step, note) && NotesOwn(note) && reqs[i].Planned? && Tied(w, p, reqs[i].tp)
    ensures
      var tp := reqs[i].tp;
      var (q, item) := step(Upto(step, p, reqs, es, tp, i), tp, reqs[i], es[i]);
      item.error.None? ==> Receives(item, w, q.log, reqs, i)
  {
    var tp := reqs[i].tp;
    var before, notes := Upto(step, p, reqs, es, tp, i), Notes(step, note, w, p, reqs, es, tp, i);
    var (q, item) := step(before, tp, reqs[i], es[i]);
    UptoTied(step, note, w, p, reqs, es, tp, i);
    assert AnswersAt(step, note, notes, before, tp, reqs[i], es[i]);
    if item.error.None? {
      var after := note(notes, before, tp, reqs[i], es[i]);
      if !item.appended {
        NotesWritten(step, note, w, p, reqs, es, tp, i, R.KeyFor(IdempotentRequest(tp, reqs[i])));
      }
      TellsReceives(item, w, after, q.log, reqs, i);
    }
  }

  /**
   * Through grouping, combined appends, splitting, scattering and gathering: whoever is told of success is told records
   * that are in its partition when the run ends. They are its own messages, message by message; or, for a duplicate,
   * the messages of the request that wrote them, in an earlier command or earlier in this one.
   */
  lemma {:induction false} SuccessIsReceipt(
    step: Stepper, note: Noter, w: History, parts: Parts, reqs: seq<Planned>, es: seq<Env>, failing: Failing, i: nat)
    requires Answers(step, note) && NotesOwn(note) && i < |reqs| == |es|
    requires OneByOne(step, parts, reqs, es, failing, |reqs|).1[i].error.None?
    requires reqs[i].Planned? ==> Tied(w, PartOf(parts, reqs[i].tp), reqs[i].tp)
    ensures
      var (after, items) := OneByOne(step, parts, reqs, es, failing, |reqs|);
      reqs[i].Planned? && Receives(items[i], w, PartOf(after, reqs[i].tp).log, reqs, i)
  {
    OneByOneItems(step, parts, reqs, es, failing, |reqs|, i);
    var tp := reqs[i].tp;
    var p := PartOf(parts, tp);
    OneByOneParts(step, parts, reqs, es, failing, |reqs|, tp);
    StepReceives(step, note, w, p, reqs, es, i);
    UptoGrows(step, note, w, p, reqs, es, tp, i + 1, |reqs|);
    ReceivesLater(OneByOne(step, parts, reqs, es, failing, |reqs|).1[i], w, Upto(step, p, reqs, es, tp, i + 1).log,
                  Upto(step, p, reqs, es, tp, |reqs|).log, reqs, i);
  }

  lemma {:induction false} NoteOwn()
    ensures NotesOwn(Note)
  {
  }
}