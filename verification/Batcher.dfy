/** The coalescing batcher: callers enqueue work, one runner drains it in batches and answers every caller. */
module Batcher {
  import opened Basics
  import opened Sorting
  import opened Grouping

  /** A waiting caller. */
  type Work = nat

  datatype Message = Answer(item: Item) | Failed(error: string)

  datatype Delivery = Delivery(work: Work, message: Message)

  // ---- The queue ----

  datatype QueueState = QueueState(running: bool, pending: seq<Work>)

  function Enqueued(q: QueueState, work: Work): QueueState {
    QueueState(true, q.pending + [work])
  }

  function Drained(q: QueueState): QueueState {
    q.(pending := [])
  }

  function Finished(q: QueueState): QueueState {
    if q.pending == [] then q.(running := false) else q
  }

  class Queue {
    var running: bool
    var pending: seq<Work>

    constructor ()
      ensures Value() == QueueState(false, [])
    {
      running, pending := false, [];
    }

    ghost function Value(): QueueState
      reads this
    {
      QueueState(running, pending)
    }

    /** The caller starts a runner when told to. */
    method Enqueue(work: Work) returns (start: bool)
      modifies this
      ensures Value() == Enqueued(old(Value()), work) && start == !old(running)
    {
      pending := pending + [work];
      if running { return false; }
      running := true;
      return true;
    }

    method Drain() returns (works: seq<Work>)
      modifies this
      ensures works == old(pending) && Value() == Drained(old(Value()))
    {
      works := pending;
      pending := [];
    }

    method FinishIfIdle() returns (done: bool)
      modifies this
      ensures done == (old(pending) == []) && Value() == Finished(old(Value()))
    {
      if |pending| > 0 { return false; }
      running := false;
      return true;
    }
  }

  // ---- Answering a drained batch ----

  /** Routes the requests of live callers; an error, or one item per request. */
  type Route = seq<Work> -> Result<seq<Item>>

  function Live(cancelled: Work -> bool): Work -> bool {
    (w: Work) => !cancelled(w)
  }

  function ToEach(works: seq<Work>, message: Message): (out: seq<Delivery>)
    ensures |out| == |works| && forall i :: 0 <= i < |works| ==> out[i] == Delivery(works[i], message)
  {
    seq(|works|, i requires 0 <= i < |works| => Delivery(works[i], message))
  }

  function MessageOf(item: Item): Message {
    if item.error.None? then Answer(item) else Failed(item.error.value)
  }

  function ToOwn(works: seq<Work>, items: seq<Item>): (out: seq<Delivery>)
    requires |items| == |works|
    ensures |out| == |works|
  {
    seq(|works|, i requires 0 <= i < |works| =>
      Delivery(works[i], MessageOf(items[i])))
  }

  function ToActive(active: seq<Work>, route: Route): (out: seq<Delivery>)
    ensures |out| == |active|
  {
    if active == [] then []
    else
      match route(active)
      case Err(error) => ToEach(active, Failed(error))
      case Ok(items) =>
        if |items| != |active| then ToEach(active, Failed("produce batch result length mismatch"))
        else ToOwn(active, items)
  }

  /** Cancelled callers first, then the others with the result of the one command sent for them. */
  function Deliveries(works: seq<Work>, cancelled: Work -> bool, route: Route): seq<Delivery> {
    ToEach(Filter(works, cancelled), Failed("produce batch context done"))
    + ToActive(Filter(works, Live(cancelled)), route)
  }

  /** Callers that have given up are told so; the others are kept, in order. */
  method SplitWorks(works: seq<Work>, cancelled: Work -> bool) returns (active: seq<Work>, sent: seq<Delivery>)
    ensures active == Filter(works, Live(cancelled))
    ensures sent == ToEach(Filter(works, cancelled), Failed("produce batch context done"))
  {
    active, sent := [], [];
    for i := 0 to |works|
      invariant active == Filter(works[..i], Live(cancelled))
      invariant sent == ToEach(Filter(works[..i], cancelled), Failed("produce batch context done"))
    {
      assert works[..i + 1][..i] == works[..i];
      if cancelled(works[i]) {
        sent := sent + [Delivery(works[i], Failed("produce batch context done"))];
      } else {
        active := active + [works[i]];
      }
    }
    assert works[..|works|] == works;
  }

  method ApplyWorks(works: seq<Work>, cancelled: Work -> bool, route: Route) returns (sent: seq<Delivery>)
    ensures sent == Deliveries(works, cancelled, route)
  {
    var active, gone := SplitWorks(works, cancelled);
    if |active| == 0 { return gone; }
    var result := route(active);
    var answers := Deliver(active, result);
    sent := gone + answers;
  }

  method Deliver(active: seq<Work>, result: Result<seq<Item>>) returns (sent: seq<Delivery>)
    requires active != []
    ensures sent == ToActive(active, _ => result)
  {
    if result.Err? || |result.value| != |active| {
      var error := if result.Err? then result.error else "produce batch result length mismatch";
      sent := [];
      for i := 0 to |active|
        invariant sent == ToEach(active, Failed(error))[..i]
      {
        sent := sent + [Delivery(active[i], Failed(error))];
      }
    } else {
      sent := [];
      for i := 0 to |active|
        invariant sent == ToOwn(active, result.value)[..i]
      {
        var item := result.value[i];
        sent := sent + [Delivery(active[i], MessageOf(item))];
      }
    }
  }

  // ---- Every drained caller gets exactly one message ----

  function Is(w: Work): Work -> bool {
    (x: Work) => x == w
  }

  function IsFor(w: Work): Delivery -> bool {
    (d: Delivery) => d.work == w
  }

  lemma {:induction false} SameWorks(sent: seq<Delivery>, works: seq<Work>, w: Work)
    requires |sent| == |works| && forall i :: 0 <= i < |works| ==> sent[i].work == works[i]
    ensures Count(sent, IsFor(w)) == Count(works, Is(w))
  {
    if works != [] { SameWorks(sent[..|sent| - 1], works[..|works| - 1], w); }
  }

  lemma {:induction false} CountSplit(works: seq<Work>, cancelled: Work -> bool, w: Work)
    ensures Count(Filter(works, cancelled), Is(w)) + Count(Filter(works, Live(cancelled)), Is(w)) == Count(works, Is(w))
  {
    if works != [] {
      var before, x := works[..|works| - 1], works[|works| - 1];
      CountSplit(before, cancelled, w);
      CountFilterLast(works, cancelled, Is(w));
      CountFilterLast(works, Live(cancelled), Is(w));
    }
  }

  lemma {:induction false} OneMessageEach(works: seq<Work>, cancelled: Work -> bool, route: Route, w: Work)
    ensures Count(Deliveries(works, cancelled, route), IsFor(w)) == Count(works, Is(w))
  {
    var gone, active := Filter(works, cancelled), Filter(works, Live(cancelled));
    var first, second := ToEach(gone, Failed("produce batch context done")), ToActive(active, route);
    CountConcat(first, second, IsFor(w));
    SameWorks(first, gone, w);
    SameWorks(second, active, w);
    CountSplit(works, cancelled, w);
  }

  /** What a live caller should be told: its own item or the item's error, or what went wrong for everybody. */
  ghost predicate ToldRightly(message: Message, result: Result<seq<Item>>, callers: nat, i: nat) {
    match result
    case Err(error) => message == Failed(error)
    case Ok(items) =>
      if |items| != callers || i >= |items| then message.Failed?
      else
        && (message.Answer? <==> items[i].error.None?)
        && (message.Answer? ==> message.item == items[i])
        && (message.Failed? ==> Some(message.error) == items[i].error)
  }

  /**
   * A live caller's message is its own item, picked out by its place among the live callers: an answer exactly if the
   * item has no error, and the error otherwise; and if the command fails as a whole, that error. Those who have given
   * up come first and are told of a failure.
   */
  lemma {:induction false} OwnItemEach(works: seq<Work>, cancelled: Work -> bool, route: Route, i: nat)
    ensures
      var gone, active := Filter(works, cancelled), Filter(works, Live(cancelled));
      var sent := Deliveries(works, cancelled, route);
      && |sent| == |gone| + |active|
      && (i < |gone| ==> sent[i].work == gone[i] && sent[i].message.Failed?)
      && (i < |active| ==>
            && sent[|gone| + i].work == active[i]
            && ToldRightly(sent[|gone| + i].message, route(active), |active|, i))
  {
    var gone, active := Filter(works, cancelled), Filter(works, Live(cancelled));
    var first, second := ToEach(gone, Failed("produce batch context done")), ToActive(active, route);
    assert Deliveries(works, cancelled, route) == first + second;
    if i < |active| { assert (first + second)[|gone| + i] == second[i]; }
  }

  // ---- The protocol: any number of callers, and the runners they start ----

  datatype Phase = Waiting | Applying(works: seq<Work>) | Finishing

  /** `drained` and `sent` record what has happened; `runners` are the runners started and not yet returned. */
  datatype State = State(
    queue: QueueState, runners: seq<Phase>, enqueued: seq<Work>, drained: seq<seq<Work>>, sent: seq<Delivery>)

  const Idle := State(QueueState(false, []), [], [], [], [])

  datatype Event =
    | Enqueue(work: Work)
    | Drain(runner: nat)
    | Reply(runner: nat, cancelled: Work -> bool, route: Route)
    | Finish(runner: nat)

  predicate Enabled(s: State, e: Event) {
    match e
    case Enqueue(_) => true
    case Drain(r) => r < |s.runners| && s.runners[r].Waiting?
    case Reply(r, _, _) => r < |s.runners| && s.runners[r].Applying?
    case Finish(r) => r < |s.runners| && s.runners[r].Finishing?
  }

  function Without<T>(s: seq<T>, i: nat): seq<T>
    requires i < |s|
  {
    s[..i] + s[i + 1..]
  }

  function Next(s: State, e: Event): State
    requires Enabled(s, e)
  {
    match e
    case Enqueue(w) =>
      s.(queue := Enqueued(s.queue, w), enqueued := s.enqueued + [w],
         runners := if s.queue.running then s.runners else s.runners + [Waiting])
    case Drain(r) =>
      s.(queue := Drained(s.queue), drained := s.drained + [s.queue.pending],
         runners := s.runners[r := if s.queue.pending == [] then Finishing else Applying(s.queue.pending)])
    case Reply(r, cancelled, route) =>
      s.(sent := s.sent + Deliveries(s.runners[r].works, cancelled, route), runners := s.runners[r := Finishing])
    case Finish(r) =>
      s.(queue := Finished(s.queue),
         runners := if s.queue.pending == [] then Without(s.runners, r) else s.runners[r := Waiting])
  }

  function Flatten(batches: seq<seq<Work>>): seq<Work> {
    if batches == [] then [] else Flatten(batches[..|batches| - 1]) + batches[|batches| - 1]
  }

  /** What the runner has drained but not yet answered. */
  function InHand(s: State): seq<Work> {
    if |s.runners| == 1 && s.runners[0].Applying? then s.runners[0].works else []
  }

  ghost predicate Conserved(s: State, w: Work) {
    Count(s.sent, IsFor(w)) + Count(InHand(s), Is(w)) + Count(s.queue.pending, Is(w)) == Count(s.enqueued, Is(w))
  }

  /** There is exactly one runner when running and none otherwise, and nothing waits when not running. */
  predicate OneRunner(s: State) {
    |s.runners| == (if s.queue.running then 1 else 0) && (!s.queue.running ==> s.queue.pending == [])
  }

  ghost predicate Inv(s: State) {
    && OneRunner(s)
    && Flatten(s.drained) + s.queue.pending == s.enqueued
    && forall w :: Conserved(s, w)
  }

  lemma {:induction false} EnqueueKeeps(s: State, work: Work)
    requires Inv(s)
    ensures Inv(Next(s, Enqueue(work)))
  {
    var t := Next(s, Enqueue(work));
    assert Flatten(s.drained) + (s.queue.pending + [work]) == (Flatten(s.drained) + s.queue.pending) + [work];
    forall w ensures Conserved(t, w) {
      assert Conserved(s, w);
      CountConcat(s.queue.pending, [work], Is(w));
      CountConcat(s.enqueued, [work], Is(w));
    }
  }

  lemma {:induction false} DrainKeeps(s: State, r: nat)
    requires Inv(s) && Enabled(s, Drain(r))
    ensures Inv(Next(s, Drain(r)))
  {
    var t := Next(s, Drain(r));
    assert t.drained[..|t.drained| - 1] == s.drained;
    assert Flatten(t.drained) + [] == Flatten(t.drained);
    forall w ensures Conserved(t, w) {
      assert Conserved(s, w);
    }
  }

  lemma {:induction false} AnswerKeeps(s: State, r: nat, cancelled: Work -> bool, route: Route)
    requires Inv(s) && Enabled(s, Reply(r, cancelled, route))
    ensures Inv(Next(s, Reply(r, cancelled, route)))
  {
    var t, works := Next(s, Reply(r, cancelled, route)), s.runners[r].works;
    forall w ensures Conserved(t, w) {
      assert Conserved(s, w);
      AnswerConserves(s, t, works, Deliveries(works, cancelled, route), w);
      OneMessageEach(works, cancelled, route, w);
    }
  }

  lemma {:induction false} AnswerConserves(s: State, t: State, works: seq<Work>, answers: seq<Delivery>, w: Work)
    requires InHand(s) == works && InHand(t) == [] && t.queue == s.queue && t.enqueued == s.enqueued
    requires t.sent == s.sent + answers && Conserved(s, w)
    ensures Count(answers, IsFor(w)) == Count(works, Is(w)) ==> Conserved(t, w)
  {
    CountConcat(s.sent, answers, IsFor(w));
  }

  lemma {:induction false} FinishKeeps(s: State, r: nat)
    requires Inv(s) && Enabled(s, Finish(r))
    ensures Inv(Next(s, Finish(r)))
  {
    var t := Next(s, Finish(r));
    forall w ensures Conserved(t, w) {
      assert Conserved(s, w);
    }
  }

  ghost predicate IsStep(states: seq<State>, events: seq<Event>, k: nat)
    requires |states| == |events| + 1 && k < |events|
  {
    Enabled(states[k], events[k]) && states[k + 1] == Next(states[k], events[k])
  }

  ghost predicate IsRun(states: seq<State>, events: seq<Event>) {
    && |states| == |events| + 1 && states[0] == Idle
    && forall k: nat :: k < |events| ==> IsStep(states, events, k)
  }

  lemma {:induction false} StepKeeps(s: State, e: Event)
    requires Inv(s) && Enabled(s, e)
    ensures Inv(Next(s, e))
  {
    match e
    case Enqueue(work) => EnqueueKeeps(s, work);
    case Drain(r) => DrainKeeps(s, r);
    case Reply(r, cancelled, route) => AnswerKeeps(s, r, cancelled, route);
    case Finish(r) => FinishKeeps(s, r);
  }

  /**
   * In every interleaving there is exactly one runner when running and none otherwise, nothing waits when not running,
   * the drained batches followed by what is pending are the enqueue order, and every caller's messages, its place in
   * the runner's hand and its place in the queue account for its enqueues: nothing is lost or answered twice.
   */
  lemma {:induction false} RunKeeps(states: seq<State>, events: seq<Event>, k: nat)
    requires IsRun(states, events) && k <= |events|
    ensures Inv(states[k])
  {
    if k > 0 {
      RunKeeps(states, events, k - 1);
      assert IsStep(states, events, k - 1);
      StepKeeps(states[k - 1], events[k - 1]);
    }
  }

  /** Once the last runner has returned, every enqueued caller has been sent exactly one message per enqueue. */
  lemma {:induction false} AllAnswered(states: seq<State>, events: seq<Event>, k: nat, w: Work)
    requires IsRun(states, events) && k <= |events| && states[k].runners == []
    ensures Count(states[k].sent, IsFor(w)) == Count(states[k].enqueued, Is(w))
    ensures Flatten(states[k].drained) == states[k].enqueued
  {
    RunKeeps(states, events, k);
    assert Conserved(states[k], w);
  }

  /** Whenever a caller waits, the runner has a step to take: work is never left with nobody to pick it up. */
  lemma {:induction false} WaitingIsServed(
    states: seq<State>, events: seq<Event>, k: nat, cancelled: Work -> bool, route: Route)
    requires IsRun(states, events) && k <= |events| && (states[k].queue.pending != [] || InHand(states[k]) != [])
    ensures |states[k].runners| == 1
    ensures
      || Enabled(states[k], Drain(0)) || Enabled(states[k], Reply(0, cancelled, route))
      || Enabled(states[k], Finish(0))
  {
    RunKeeps(states, events, k);
  }

  // ---- How long a caller waits ----

  /** How many callers, in the order of their enqueues, have been answered. */
  function Answered(s: State): int {
    |s.enqueued| - |s.queue.pending| - |InHand(s)|
  }

  ghost predicate EndsWith(whole: seq<Work>, part: seq<Work>) {
    |part| <= |whole| && whole[|whole| - |part|..] == part
  }

  /** What is in the runner's hand was drained last. */
  ghost predicate HandLast(s: State) {
    EndsWith(Flatten(s.drained), InHand(s))
  }

  lemma {:induction false} FlattenSnoc(batches: seq<seq<Work>>, batch: seq<Work>)
    ensures EndsWith(Flatten(batches + [batch]), batch)
  {
    assert (batches + [batch])[..|batches|] == batches;
  }

  /** A step puts what it drains into the runner's hand, or leaves the hand as it is, or empties it. */
  lemma {:induction false} StepHand(s: State, e: Event)
    requires OneRunner(s) && Enabled(s, e)
    ensures
      var t := Next(s, e);
      || InHand(t) == []
      || (InHand(t) == InHand(s) && t.drained == s.drained)
      || t.drained == s.drained + [InHand(t)]
  {
  }

  lemma {:induction false} StepHandLast(s: State, e: Event)
    requires OneRunner(s) && HandLast(s) && Enabled(s, e)
    ensures HandLast(Next(s, e))
  {
    StepHand(s, e);
    FlattenSnoc(s.drained, InHand(Next(s, e)));
  }

  lemma {:induction false} RunStepHandLast(states: seq<State>, events: seq<Event>, k: nat)
    requires IsRun(states, events) && k < |events| && HandLast(states[k])
    ensures HandLast(states[k + 1])
  {
    RunKeeps(states, events, k);
    assert IsStep(states, events, k);
    StepHandLast(states[k], events[k]);
  }

  lemma {:induction false} RunHandLast(states: seq<State>, events: seq<Event>, k: nat)
    requires IsRun(states, events) && k <= |events|
    ensures HandLast(states[k])
  {
    if k > 0 {
      RunHandLast(states, events, k - 1);
      RunStepHandLast(states, events, k - 1);
    }
  }

  /** The messages sent are those of the callers answered, first come first. */
  lemma {:induction false} SentToFirst(s: State, w: Work)
    requires Inv(s) && HandLast(s)
    ensures 0 <= Answered(s) <= |s.enqueued|
    ensures Count(s.sent, IsFor(w)) == Count(s.enqueued[..Answered(s)], Is(w))
  {
    var first, drained := s.enqueued[..Answered(s)], Flatten(s.drained);
    assert drained == first + InHand(s) && s.enqueued == drained + s.queue.pending;
    CountConcat(first, InHand(s), Is(w));
    CountConcat(drained, s.queue.pending, Is(w));
    assert Conserved(s, w);
  }

  /** How many steps the runner takes until the first n callers are answered. */
  function StepsLeft(s: State, n: nat): nat {
    if n <= Answered(s) then 0
    else if n <= Answered(s) + |InHand(s)| then 1
    else if s.runners == [] || s.runners[0].Waiting? then 2
    else if s.runners[0].Finishing? then 3
    else 4
  }

  /** Enqueues do not delay anybody, and every step of the runner brings the answer one step closer. */
  lemma {:induction false} StepBrings(s: State, e: Event, n: nat)
    requires OneRunner(s) && Enabled(s, e) && n <= |s.enqueued|
    ensures StepsLeft(Next(s, e), n)
         == if e.Enqueue? || StepsLeft(s, n) == 0 then StepsLeft(s, n) else StepsLeft(s, n) - 1
    ensures s.enqueued <= Next(s, e).enqueued
  {
  }

  /** How many steps the runner took from event k up to event m. */
  function RunnerSteps(events: seq<Event>, k: nat, m: nat): nat
    requires k <= m <= |events|
  {
    if k == m then 0 else RunnerSteps(events, k, m - 1) + (if events[m - 1].Enqueue? then 0 else 1)
  }

  lemma {:induction false} RunStepBrings(states: seq<State>, events: seq<Event>, k: nat, n: nat)
    requires IsRun(states, events) && k < |events| && n <= |states[k].enqueued|
    ensures
      var left := StepsLeft(states[k], n);
      StepsLeft(states[k + 1], n) == if events[k].Enqueue? || left == 0 then left else left - 1
    ensures states[k].enqueued <= states[k + 1].enqueued
  {
    RunKeeps(states, events, k);
    assert IsStep(states, events, k);
    StepBrings(states[k], events[k], n);
  }

  lemma {:induction false} StepsSpent(states: seq<State>, events: seq<Event>, k: nat, m: nat, n: nat)
    requires IsRun(states, events) && k <= m <= |events| && n <= |states[k].enqueued|
    ensures StepsLeft(states[m], n) == Max(0, StepsLeft(states[k], n) - RunnerSteps(events, k, m))
    ensures states[k].enqueued <= states[m].enqueued
    decreases m
  {
    if k < m {
      StepsSpent(states, events, k, m - 1, n);
      RunStepBrings(states, events, m - 1, n);
    }
  }

  /**
   * However callers keep enqueueing, everybody who waits is answered by the fourth step of the runner from now on, and
   * the first n callers exactly when the runner has taken as many steps as are left for them.
   */
  lemma {:induction false} AnsweredWithinFour(
    states: seq<State>, events: seq<Event>, k: nat, m: nat, n: nat, w: Work)
    requires IsRun(states, events) && k <= m <= |events| && n <= |states[k].enqueued|
    ensures Answered(states[m]) >= n <==> RunnerSteps(events, k, m) >= StepsLeft(states[k], n)
    ensures RunnerSteps(events, k, m) >= 4 ==>
              Count(states[m].sent, IsFor(w)) >= Count(states[k].enqueued, Is(w))
  {
    StepsSpent(states, events, k, m, n);
    StepsSpent(states, events, k, m, |states[k].enqueued|);
    SentSoFar(states, events, m, w);
    if RunnerSteps(events, k, m) >= 4 {
      FirstCover(states[k].enqueued, states[m].enqueued, Answered(states[m]), w);
    }
  }

  lemma {:induction false} SentSoFar(states: seq<State>, events: seq<Event>, m: nat, w: Work)
    requires IsRun(states, events) && m <= |events|
    ensures 0 <= Answered(states[m]) <= |states[m].enqueued|
    ensures Count(states[m].sent, IsFor(w)) == Count(states[m].enqueued[..Answered(states[m])], Is(w))
  {
    RunKeeps(states, events, m);
    RunHandLast(states, events, m);
    SentToFirst(states[m], w);
  }

  lemma {:induction false} FirstCover(all: seq<Work>, enqueued: seq<Work>, answered: nat, w: Work)
    requires all <= enqueued && |all| <= answered <= |enqueued|
    ensures Count(enqueued[..answered], Is(w)) >= Count(all, Is(w))
  {
    var first := enqueued[..answered];
    assert first == all + first[|all|..];
    CountConcat(all, first[|all|..], Is(w));
  }
}
