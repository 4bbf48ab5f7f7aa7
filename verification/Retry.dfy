/** Redelivery: a nacked record goes to the retry topic, back to its origin, and in the end to the dead-letter topic. */
module Retry {
  import opened Basics
  import opened Messages
  import opened Headers
  import opened Sorting
  import opened Decimal

  const RetryTopic: Text := "x-retry-original-topic"
  const RetryPartition: Text := "x-retry-original-partition"
  const RetryOffset: Text := "x-retry-original-offset"
  const RetryCount: Text := "x-retry-count"
  const DeliverAt: Text := "x-retry-deliver-at-ms"
  const LastError: Text := "x-retry-last-error"
  const FailedConsumer: Text := "x-retry-failed-consumer"
  const DlqTopic: Text := "x-dlq-original-topic"
  const DlqPartition: Text := "x-dlq-original-partition"
  const DlqOffset: Text := "x-dlq-original-offset"
  const DlqRetryCount: Text := "x-dlq-retry-count"
  const DlqErrorCode: Text := "x-dlq-error-code"
  const DlqErrorMessage: Text := "x-dlq-error-message"
  const RetryExhausted: Text := "retry_exhausted"

  /** Every header the retry and dead-letter paths add. */
  const Reserved: set<Text> :=
    {RetryTopic, RetryPartition, RetryOffset, RetryCount, DeliverAt, LastError, FailedConsumer,
     DlqTopic, DlqPartition, DlqOffset, DlqRetryCount, DlqErrorCode, DlqErrorMessage}

  // ---- Several headers at once ----

  function UpsertAll(headers: seq<Header>, added: seq<Header>): seq<Header> {
    if added == [] then headers
    else
      var n := |added| - 1;
      Upsert(UpsertAll(headers, added[..n]), added[n].key, added[n].value)
  }

  ghost predicate DistinctKeys(added: seq<Header>) {
    forall i, j :: 0 <= i < j < |added| ==> added[i].key != added[j].key
  }

  lemma {:induction false} UpsertAllFinds(headers: seq<Header>, added: seq<Header>, i: nat)
    requires DistinctKeys(added) && i < |added|
    ensures Lookup(UpsertAll(headers, added), added[i].key) == Some(added[i].value)
  {
    var n := |added| - 1;
    UpsertLookup(UpsertAll(headers, added[..n]), added[n].key, added[n].value, added[i].key);
    if i < n { UpsertAllFinds(headers, added[..n], i); }
  }

  lemma {:induction false} RemoveForgetsAll(headers: seq<Header>, added: seq<Header>, keys: set<Text>)
    requires forall h :: h in added ==> h.key in keys
    ensures Remove(UpsertAll(headers, added), keys) == Remove(headers, keys)
  {
    if added != [] {
      var n := |added| - 1;
      assert added[n] in added;
      RemoveForgetsAll(headers, added[..n], keys);
      RemoveForgets(UpsertAll(headers, added[..n]), added[n].key, added[n].value, keys);
    }
  }

  lemma {:induction false} RemoveAgain(headers: seq<Header>, some: set<Text>, keys: set<Text>)
    requires some <= keys
    ensures Remove(Remove(headers, some), keys) == Remove(headers, keys)
  {
    if headers != [] {
      var before, h := headers[..|headers| - 1], headers[|headers| - 1];
      RemoveAgain(before, some, keys);
      FilterConcat(Remove(before, some), if h.key !in some then [h] else [], NotKeyed(keys));
      assert [h][..0] == [];
    }
  }

  method UpsertHeaders(headers: seq<Header>, added: seq<Header>) returns (out: seq<Header>)
    ensures out == UpsertAll(headers, added)
  {
    out := headers;
    for i := 0 to |added|
      invariant out == UpsertAll(headers, added[..i])
    {
      assert added[..i + 1][..i] == added[..i];
      out := UpsertHeader(out, added[i].key, added[i].value);
    }
    assert added[..|added|] == added;
  }

  // ---- Where a record came from ----

  datatype Origin = Origin(topic: Text, partition: U32, offset: U64, retries: U32)

  function HeaderText(headers: seq<Header>, key: Text): Text {
    match Lookup(headers, key) case None => "" case Some(v) => TextOf(v)
  }

  /** A numeric header: absent when missing or empty, an error when it is not a number that fits. */
  function HeaderNumber(headers: seq<Header>, key: Text, max: nat): Result<Option<nat>> {
    match Lookup(headers, key)
    case None => Ok(None)
    case Some(v) =>
      if v == [] then Ok(None)
      else match Parse(v, max) case None => Err("invalid header") case Some(n) => Ok(Some(n))
  }

  function OrElse(n: Option<nat>, default: nat): nat {
    match n case None => default case Some(v) => v
  }

  function OriginOf(headers: seq<Header>, topic: Text, partition: U32, offset: U64): Result<Origin> {
    var named := HeaderText(headers, RetryTopic);
    match HeaderNumber(headers, RetryPartition, MaxU32)
    case Err(e) => Err(e)
    case Ok(p) =>
      match HeaderNumber(headers, RetryOffset, MaxU64)
      case Err(e) => Err(e)
      case Ok(o) =>
        match HeaderNumber(headers, RetryCount, MaxU32)
        case Err(e) => Err(e)
        case Ok(c) =>
          NumbersFit(headers);
          Ok(Origin(if named == "" then topic else named, OrElse(p, partition), OrElse(o, offset), OrElse(c, 0)))
  }

  lemma {:induction false} NumbersFit(headers: seq<Header>)
    ensures forall key, max :: HeaderNumber(headers, key, max).Ok? ==>
        OrElse(HeaderNumber(headers, key, max).value, 0) <= max
  {
  }

  // ---- Nacking ----

  /** What comes with a nack: who failed, why, and when to try again. */
  datatype Nack = Nack(consumer: Text, lastError: Text, deliverAtMS: U64)

  /** A stored record made ready to be appended again. */
  function Clone(m: Message): Message {
    m.(transaction := None)
  }

  /** The 32-bit count after this one. */
  function NextCount(n: U32): U32 {
    if n == 0xFFFF_FFFF then 0 else n + 1
  }

  function RetryHeaders(o: Origin, count: U32, nack: Nack): seq<Header> {
    [Header(RetryTopic, BytesOf(o.topic)),
     Header(RetryPartition, Format(o.partition)),
     Header(RetryOffset, Format(o.offset)),
     Header(RetryCount, Format(count)),
     Header(DeliverAt, Format(nack.deliverAtMS)),
     Header(LastError, BytesOf(if nack.lastError == "" then "unknown" else nack.lastError)),
     Header(FailedConsumer, BytesOf(nack.consumer))]
  }

  function RetryMessage(m: Message, o: Origin, nack: Nack): Message {
    Clone(m).(headers := UpsertAll(m.headers, RetryHeaders(o, NextCount(o.retries), nack)))
  }

  /** The record a nack of a record at this place publishes to the retry topic, and its origin. */
  function Nacked(m: Message, topic: Text, partition: U32, offset: U64, nack: Nack): Result<(Origin, Message)> {
    if nack.consumer == "" then Err("consumer is required")
    else
      match OriginOf(m.headers, topic, partition, offset)
      case Err(e) => Err(e)
      case Ok(o) => Ok((o, RetryMessage(m, o, nack)))
  }

  // ---- Moving a due record on ----

  datatype Move =
    | ToOrigin(topic: Text, partition: U32, message: Message)
    | ToDeadLetter(topic: Text, partition: U32, message: Message)

  function DlqHeaders(o: Origin, errorMessage: Text): seq<Header> {
    [Header(DlqTopic, BytesOf(o.topic)),
     Header(DlqPartition, Format(o.partition)),
     Header(DlqOffset, Format(o.offset)),
     Header(DlqRetryCount, Format(o.retries)),
     Header(DlqErrorCode, BytesOf(RetryExhausted)),
     Header(DlqErrorMessage, BytesOf(errorMessage))]
  }

  function DlqMessage(m: Message, o: Origin): Message {
    var failed := HeaderText(m.headers, LastError);
    var added := DlqHeaders(o, if failed == "" then "unknown" else failed);
    Clone(m).(expiresAtMS := None, headers := UpsertAll(Remove(m.headers, {DeliverAt}), added))
  }

  /** Back to the origin while the count is below the limit, to the dead-letter topic after that. */
  function Moved(m: Message, o: Origin, maxAttempts: U32): Move {
    if o.retries < maxAttempts then ToOrigin(o.topic, o.partition, Clone(m))
    else ToDeadLetter(o.topic, o.partition, DlqMessage(m, o))
  }

  function Replayed(m: Message): Message {
    Clone(m).(expiresAtMS := None, headers := Remove(m.headers, Reserved))
  }

  method RetryRecordAppend(m: Message, o: Origin, nack: Nack) returns (r: Message)
    ensures r == RetryMessage(m, o, nack)
  {
    var headers := UpsertHeaders(m.headers, RetryHeaders(o, NextCount(o.retries), nack));
    return Clone(m).(headers := headers);
  }

  method BuildDLQAppend(m: Message, o: Origin) returns (r: Message)
    ensures r == DlqMessage(m, o)
  {
    var failed := HeaderText(m.headers, LastError);
    var kept := RemoveHeaders(m.headers, {DeliverAt});
    var headers := UpsertHeaders(kept, DlqHeaders(o, if failed == "" then "unknown" else failed));
    return Clone(m).(expiresAtMS := None, headers := headers);
  }

  // ---- Processing what is due ----

  datatype Stored = Stored(offset: nat, message: Message)

  function Due(m: Message, nowMS: U64): Result<bool> {
    match HeaderNumber(m.headers, DeliverAt, MaxU64)
    case Err(e) => Err(e)
    case Ok(at) => Ok(at.None? || at.value <= nowMS)
  }

  /** What is to become of a retry record now. */
  datatype Fate = NotYet | Unreadable | Goes(move: Move)

  function FateOf(r: Stored, topic: Text, partition: U32, nowMS: U64, maxAttempts: Text -> U32): Fate
    requires r.offset <= MaxU64
  {
    match Due(r.message, nowMS)
    case Err(_) => Unreadable
    case Ok(false) => NotYet
    case Ok(true) =>
      match OriginOf(r.message.headers, topic, partition, r.offset)
      case Err(_) => Unreadable
      case Ok(o) => Goes(Moved(r.message, o, maxAttempts(o.topic)))
  }

  /** fate stands for FateOf, so that the loop over a batch need not look inside it. */
  ghost predicate Tells(fate: Stored -> Fate, topic: Text, partition: U32, nowMS: U64, maxAttempts: Text -> U32) {
    forall r: Stored {:trigger FateOf(r, topic, partition, nowMS, maxAttempts)} ::
      r.offset <= MaxU64 ==> fate(r) == FateOf(r, topic, partition, nowMS, maxAttempts)
  }

  /** What fails while a record is moved; saving the index happens after a dead letter has been published. */
  datatype Fault = NoFault | PublishFails | IndexFails

  /** The dead letter is published and its index entry is not saved. */
  predicate Strays(fate: Fate, fault: Fault) {
    fate.Goes? && fate.move.ToDeadLetter? && fault.IndexFails?
  }

  predicate Succeeds(fate: Fate, fault: Fault) {
    fate.Goes? && !fault.PublishFails? && !Strays(fate, fault)
  }

  /** What became of a record; a failure may have published a dead letter all the same. */
  datatype Processing = NotDue | Failure(stray: Option<Move>) | Done(move: Move)

  function Processed(fate: Fate, fault: Fault): Processing {
    match fate
    case NotYet => NotDue
    case Unreadable => Failure(None)
    case Goes(move) =>
      if Succeeds(fate, fault) then Done(move) else Failure(if Strays(fate, fault) then Some(move) else None)
  }

  method ProcessRetryRecord(
    r: Stored, topic: Text, partition: U32, nowMS: U64, maxAttempts: Text -> U32, fault: Fault,
    ghost fate: Stored -> Fate)
    returns (p: Processing)
    requires r.offset <= MaxU64 && Tells(fate, topic, partition, nowMS, maxAttempts)
    ensures p == Processed(fate(r), fault)
  {
    assert fate(r) == FateOf(r, topic, partition, nowMS, maxAttempts);
    var due := Due(r.message, nowMS);
    if due.Err? { return Failure(None); }
    if !due.value { return NotDue; }
    var origin := OriginOf(r.message.headers, topic, partition, r.offset);
    if origin.Err? || fault.PublishFails? { return Failure(None); }
    var o := origin.value;
    if o.retries < maxAttempts(o.topic) {
      return Done(ToOrigin(o.topic, o.partition, Clone(r.message)));
    }
    var letter := BuildDLQAppend(r.message, o);
    var move := ToDeadLetter(o.topic, o.partition, letter);
    if fault.IndexFails? { return Failure(Some(move)); }
    return Done(move);
  }

  function IsHome(): Move -> bool {
    (m: Move) => m.ToOrigin?
  }

  method RecordRetryMoves(moves: seq<Move>) returns (origins: nat, deadLetters: nat)
    ensures origins == Count(moves, IsHome()) && origins + deadLetters == |moves|
  {
    origins, deadLetters := 0, 0;
    for i := 0 to |moves|
      invariant origins == Count(moves[..i], IsHome()) && origins + deadLetters == i
    {
      assert moves[..i + 1][..i] == moves[..i];
      if moves[i].ToDeadLetter? { deadLetters := deadLetters + 1; } else { origins := origins + 1; }
    }
    assert moves[..|moves|] == moves;
  }

  /** How many records, from the i-th on, a batch gets through before one is not due yet or fails. */
  function MovedCount(records: seq<Stored>, fate: Stored -> Fate, fault: nat -> Fault, i: nat): (n: nat)
    requires i <= |records|
    ensures i <= n <= |records|
    decreases |records| - i
  {
    if i < |records| && Succeeds(fate(records[i]), fault(i)) then MovedCount(records, fate, fault, i + 1) else i
  }

  /** What becomes of the record the batch stops at; a batch that gets through ends as if nothing more were due. */
  function StopsAt(records: seq<Stored>, fate: Stored -> Fate, fault: nat -> Fault): Processing {
    var n := MovedCount(records, fate, fault, 0);
    if n < |records| then Processed(fate(records[n]), fault(n)) else NotDue
  }

  lemma {:induction false} MovedSucceed(records: seq<Stored>, fate: Stored -> Fate, fault: nat -> Fault, i: nat)
    requires i <= |records|
    decreases |records| - i
    ensures
      var n := MovedCount(records, fate, fault, i);
      && (forall j :: i <= j < n ==> Succeeds(fate(records[j]), fault(j)))
      && (n < |records| ==> !Succeeds(fate(records[n]), fault(n)))
  {
    if i < |records| && Succeeds(fate(records[i]), fault(i)) { MovedSucceed(records, fate, fault, i + 1); }
  }

  /**
   * One batch of retry records: a prefix is moved on, in order and each as it is due; the batch stops at the first
   * record that is not yet due or fails, and only a batch without failure advances the cursor, to just behind what it
   * moved. A record that fails may have left a dead letter behind.
   */
  method ProcessFetchedRetryRecords(
    records: seq<Stored>, topic: Text, partition: U32, nowMS: U64, maxAttempts: Text -> U32, fault: nat -> Fault,
    ghost fate: Stored -> Fate)
    returns (moves: seq<Move>, stray: Option<Move>, cursor: Option<nat>, failed: bool)
    requires forall i :: 0 <= i < |records| ==> records[i].offset <= MaxU64
    requires Tells(fate, topic, partition, nowMS, maxAttempts)
    ensures |moves| == MovedCount(records, fate, fault, 0)
    ensures forall i :: 0 <= i < |moves| ==> fate(records[i]) == Goes(moves[i])
    ensures !failed && |moves| < |records| ==> fate(records[|moves|]).NotYet?
    ensures failed <==> StopsAt(records, fate, fault).Failure?
    ensures stray == if failed then StopsAt(records, fate, fault).stray else None
    ensures cursor == if failed || moves == [] then None else Some(records[|moves| - 1].offset + 1)
  {
    moves, stray, cursor, failed := [], None, None, false;
    for i := 0 to |records|
      invariant |moves| == i && !failed && stray.None?
      invariant MovedCount(records, fate, fault, 0) == MovedCount(records, fate, fault, i)
      invariant forall j :: 0 <= j < i ==> fate(records[j]) == Goes(moves[j])
      invariant cursor == if i == 0 then None else Some(records[i - 1].offset + 1)
    {
      var p := ProcessRetryRecord(records[i], topic, partition, nowMS, maxAttempts, fault(i), fate);
      if p.NotDue? { return; }
      if p.Failure? { stray, cursor, failed := p.stray, None, true; return; }
      moves := moves + [p.move];
      cursor := Some(records[i].offset + 1);
    }
  }
}
