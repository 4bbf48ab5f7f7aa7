/** When a caller of the produce path is told of success: exactly which requests of a command have no error. */
module Outcomes {
  import opened Basics
  import opened Logs
  import opened Grouping
  import opened Receipts
  import I = Idempotency
  import R = IdempotencyRuns
  import A = Acceptance
  import W = RetryAnswers

  // ---- One request at one partition ----

  /** Whether a request should succeed at a partition. */
  type Verdict = (Part, TopicPartition, Planned, Env) -> bool

  /** The store does its part, and the request is new or repeats a batch whose records are still there. */
  ghost predicate Admitted(s: I.State, req: I.Request, f: I.Faults) {
    || (A.New(s, req) && A.StoreTakes(s, req, f))
    || (A.WellFormed(req) && !f.list && !f.read && exists h :: W.Repeats(s, req, h))
  }

  /** Planning it again does not refuse the request, and it is plain and gets published, or is admitted. */
  ghost predicate Deserves(p: Part, tp: TopicPartition, r: Planned, e: Env) {
    && r.Planned? && e.refusal.None?
    && if r.id.None? then !e.faults.publish else Admitted(StateOf(p, tp), IdempotentRequest(tp, r), e.faults)
  }

  /** The step reports no error exactly where the verdict says so. */
  ghost predicate Judges(step: Stepper, ok: Verdict) {
    forall w, p, tp, r: Planned, e :: r.Planned? && Tied(w, p, tp) ==> JudgedAt(step, ok, p, tp, r, e)
  }

  ghost predicate JudgedAt(step: Stepper, ok: Verdict, p: Part, tp: TopicPartition, r: Planned, e: Env) {
    step(p, tp, r, e).1.error.None? <==> ok(p, tp, r, e)
  }

  ghost function Fair(): Verdict {
    (p: Part, tp: TopicPartition, r: Planned, e: Env) => Deserves(p, tp, r, e)
  }

  lemma {:induction false} StepReports(p: Part, tp: TopicPartition, r: Planned, e: Env)
    requires r.Planned? && r.id.Some? && e.refusal.None?
    ensures Step(p, tp, r, e).1.error.None?
       <==> I.Produce(StateOf(p, tp), IdempotentRequest(tp, r), e.now, e.faults).1.Ok?
  {
  }

  /** A request succeeds at its partition if and only if it deserves to. */
  lemma {:induction false} SucceedsExactlyWhen(w: History, p: Part, tp: TopicPartition, r: Planned, e: Env)
    requires Tied(w, p, tp)
    ensures Step(p, tp, r, e).1.error.None? <==> Deserves(p, tp, r, e)
  {
    if r.Planned? && r.id.Some? && e.refusal.None? {
      StepReports(p, tp, r, e);
      W.OkExactlyWhen(StateOf(p, tp), IdempotentRequest(tp, r), e.now, e.faults);
    }
  }

  lemma {:induction false} StepJudged()
    ensures Judges(Step, Fair())
  {
    forall w, p, tp, r: Planned, e | r.Planned? && Tied(w, p, tp) ensures JudgedAt(Step, Fair(), p, tp, r, e) {
      SucceedsExactlyWhen(w, p, tp, r, e);
    }
  }

  // ---- A whole command ----

  /** The request is not refused, its group does not fail, and it deserves success where the requests before it leave
      its partition. */
  ghost predicate SucceedsIn(
    step: Stepper, ok: Verdict, parts: Parts, reqs: seq<Planned>, es: seq<Env>, failing: Failing, i: nat)
    requires i < |reqs| == |es|
  {
    && reqs[i].Planned? && failing(reqs[i].tp).None?
    && ok(Upto(step, PartOf(parts, reqs[i].tp), reqs, es, reqs[i].tp, i), reqs[i].tp, reqs[i], es[i])
  }

  /** The items of a command that have no error are exactly those of the requests that deserve it. */
  lemma {:induction false} NoErrorExactlyWhen(
    step: Stepper, note: Noter, ok: Verdict, w: History, parts: Parts, reqs: seq<Planned>, es: seq<Env>,
    failing: Failing, i: nat)
    requires Answers(step, note) && Judges(step, ok) && i < |reqs| == |es|
    requires reqs[i].Planned? ==> Tied(w, PartOf(parts, reqs[i].tp), reqs[i].tp)
    ensures OneByOne(step, parts, reqs, es, failing, |reqs|).1[i].error.None?
       <==> SucceedsIn(step, ok, parts, reqs, es, failing, i)
  {
    OneByOneItems(step, parts, reqs, es, failing, |reqs|, i);
    if reqs[i].Planned? && failing(reqs[i].tp).None? {
      var tp := reqs[i].tp;
      var p := PartOf(parts, tp);
      UptoTied(step, note, w, p, reqs, es, tp, i);
      assert JudgedAt(step, ok, Upto(step, p, reqs, es, tp, i), tp, reqs[i], es[i]);
    }
  }

  /**
   * An idempotent request of a command succeeds if and only if its group does not fail, planning it again does not
   * refuse it, and it is admitted: new, or a repetition of a remembered batch that can still be read.
   */
  lemma {:induction false} IdempotentSucceedsExactlyWhen(
    w: History, parts: Parts, reqs: seq<Planned>, env: seq<Env>, failing: Failing, i: nat)
    requires i < |reqs| == |env| && reqs[i].Planned? && reqs[i].id.Some?
    requires Tied(w, PartOf(parts, reqs[i].tp), reqs[i].tp)
    ensures
      var tp, es := reqs[i].tp, Effective(reqs, env);
      var before := Upto(Step, PartOf(parts, tp), reqs, es, tp, i);
      OneByOne(Step, parts, reqs, es, failing, |reqs|).1[i].error.None?
      <==> && failing(tp).None? && env[i].refusal.None?
           && Admitted(StateOf(before, tp), IdempotentRequest(tp, reqs[i]), env[i].faults)
  {
    assert Targets(reqs[i], reqs[i].tp);
    StepAnswers();
    StepJudged();
    NoErrorExactlyWhen(Step, Note, Fair(), w, parts, reqs, Effective(reqs, env), failing, i);
  }

  /** A plain request of a group without idempotent ones succeeds if and only if its group does not fail. */
  lemma {:induction false} PlainSucceedsExactlyWhen(
    w: History, parts: Parts, reqs: seq<Planned>, env: seq<Env>, failing: Failing, i: nat)
    requires i < |reqs| == |env| && reqs[i].Planned? && !Individually(reqs, reqs[i].tp)
    requires Tied(w, PartOf(parts, reqs[i].tp), reqs[i].tp)
    ensures OneByOne(Step, parts, reqs, Effective(reqs, env), failing, |reqs|).1[i].error.None?
       <==> failing(reqs[i].tp).None?
  {
    assert Targets(reqs[i], reqs[i].tp);
    StepAnswers();
    StepJudged();
    NoErrorExactlyWhen(Step, Note, Fair(), w, parts, reqs, Effective(reqs, env), failing, i);
  }
}
