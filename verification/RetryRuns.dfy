/** The life of a message that fails on every delivery, from the first nack to its replay from the dead-letter topic. */
module RetryRuns {
  import opened Basics
  import opened Messages
  import opened Headers
  import opened Decimal
  import opened Retry

  lemma {:induction false} RetryKeysDiffer()
    ensures RetryTopic != RetryPartition && RetryTopic != RetryOffset && RetryTopic != RetryCount
    ensures RetryPartition != RetryOffset && RetryPartition != RetryCount && RetryOffset != RetryCount
    ensures DeliverAt !in {RetryTopic, RetryPartition, RetryOffset, RetryCount}
    ensures LastError !in {RetryTopic, RetryPartition, RetryOffset, RetryCount, DeliverAt}
    ensures FailedConsumer !in {RetryTopic, RetryPartition, RetryOffset, RetryCount, DeliverAt, LastError}
  {
    assert |RetryTopic| == 22 && |RetryPartition| == 26 && |RetryOffset| == 23 && |RetryCount| == 13;
    assert |DeliverAt| == 21 && |LastError| == 18 && |FailedConsumer| == 23;
    assert RetryOffset[8] == 'o' && FailedConsumer[8] == 'f';
  }

  lemma {:induction false} DlqKeysDiffer()
    ensures DlqTopic != DlqPartition && DlqTopic != DlqOffset && DlqPartition != DlqOffset
    ensures DlqRetryCount !in {DlqTopic, DlqPartition, DlqOffset}
    ensures DlqErrorCode !in {DlqTopic, DlqPartition, DlqOffset, DlqRetryCount}
    ensures DlqErrorMessage !in {DlqTopic, DlqPartition, DlqOffset, DlqRetryCount, DlqErrorCode}
  {
    assert |DlqTopic| == 20 && |DlqPartition| == 24 && |DlqOffset| == 21 && |DlqRetryCount| == 17;
    assert |DlqErrorCode| == 16 && |DlqErrorMessage| == 19;
  }

  lemma {:induction false} RetryHeadersDistinct(o: Origin, count: U32, nack: Nack)
    ensures DistinctKeys(RetryHeaders(o, count, nack))
    ensures forall h :: h in RetryHeaders(o, count, nack) ==> h.key in Reserved
  {
    RetryKeysDiffer();
  }

  lemma {:induction false} DlqHeadersDistinct(o: Origin, errorMessage: Text)
    ensures DistinctKeys(DlqHeaders(o, errorMessage))
    ensures forall h :: h in DlqHeaders(o, errorMessage) ==> h.key in Reserved
  {
    DlqKeysDiffer();
  }

  lemma {:induction false} TextHeader(headers: seq<Header>, key: Text, text: Text)
    requires Lookup(headers, key) == Some(BytesOf(text))
    ensures HeaderText(headers, key) == text
  {
    TextOfBytesOf(text);
  }

  lemma {:induction false} NumberHeader(headers: seq<Header>, key: Text, n: nat, max: nat)
    requires Lookup(headers, key) == Some(Format(n)) && n <= max
    ensures HeaderNumber(headers, key, max) == Ok(Some(n))
  {
    ParseFormat(n, max);
  }

  /** A retry record tells its origin and count, whatever it is told about its own place. */
  lemma {:induction false} RetryTellsOrigin(m: Message, o: Origin, nack: Nack, partition: U32, offset: U64)
    ensures OriginOf(RetryMessage(m, o, nack).headers, o.topic, partition, offset)
        == Ok(o.(retries := NextCount(o.retries)))
  {
    var added := RetryHeaders(o, NextCount(o.retries), nack);
    var headers := UpsertAll(m.headers, added);
    RetryHeadersDistinct(o, NextCount(o.retries), nack);
    UpsertAllFinds(m.headers, added, 0);
    UpsertAllFinds(m.headers, added, 1);
    UpsertAllFinds(m.headers, added, 2);
    UpsertAllFinds(m.headers, added, 3);
    TextHeader(headers, RetryTopic, o.topic);
    NumberHeader(headers, RetryPartition, o.partition, MaxU32);
    NumberHeader(headers, RetryOffset, o.offset, MaxU64);
    NumberHeader(headers, RetryCount, NextCount(o.retries), MaxU32);
  }

  /** What a nack says is in the record it publishes: when to deliver it again, what went wrong, and for whom. */
  lemma {:induction false} RetryTellsNack(m: Message, o: Origin, nack: Nack)
    ensures
      var headers := RetryMessage(m, o, nack).headers;
      && HeaderNumber(headers, DeliverAt, MaxU64) == Ok(Some(nack.deliverAtMS))
      && HeaderText(headers, LastError) == (if nack.lastError == "" then "unknown" else nack.lastError)
      && HeaderText(headers, FailedConsumer) == nack.consumer
  {
    var added := RetryHeaders(o, NextCount(o.retries), nack);
    var headers := UpsertAll(m.headers, added);
    RetryHeadersDistinct(o, NextCount(o.retries), nack);
    UpsertAllFinds(m.headers, added, 4);
    UpsertAllFinds(m.headers, added, 5);
    UpsertAllFinds(m.headers, added, 6);
    NumberHeader(headers, DeliverAt, nack.deliverAtMS, MaxU64);
    TextHeader(headers, LastError, if nack.lastError == "" then "unknown" else nack.lastError);
    TextHeader(headers, FailedConsumer, nack.consumer);
  }

  /**
   * A retry record is moved on from the time the nack asked for and not before: back to its origin while its count is
   * below the limit of the origin's topic, to the dead-letter topic from then on.
   */
  lemma {:induction false} RetryWaits(
    m: Message, o: Origin, nack: Nack, offset: U64, partition: U32, nowMS: U64, maxAttempts: Text -> U32)
    ensures
      var r := RetryMessage(m, o, nack);
      FateOf(Stored(offset, r), o.topic, partition, nowMS, maxAttempts)
      == if nowMS < nack.deliverAtMS then NotYet
         else if NextCount(o.retries) < maxAttempts(o.topic) then Goes(ToOrigin(o.topic, o.partition, r))
         else Goes(ToDeadLetter(o.topic, o.partition, DlqMessage(r, o.(retries := NextCount(o.retries)))))
  {
    RetryTellsNack(m, o, nack);
    RetryTellsOrigin(m, o, nack, partition, offset);
  }

  lemma {:induction false} RetryKeepsContent(m: Message, o: Origin, nack: Nack)
    ensures
      var r := RetryMessage(m, o, nack);
      && Remove(r.headers, Reserved) == Remove(m.headers, Reserved)
      && r.(headers := m.headers) == m.(transaction := None)
  {
    var added := RetryHeaders(o, NextCount(o.retries), nack);
    RetryHeadersDistinct(o, NextCount(o.retries), nack);
    RemoveForgetsAll(m.headers, added, Reserved);
  }

  // ---- The round trip ----

  /** The k-th time around: the offset of the copy that is nacked, and the nack. */
  datatype Trip = Trip(offset: U64, nack: Nack)

  /** The retry record after k nacks, each redelivered copy being nacked at the origin, and the origin it was given. */
  function Around(m: Message, topic: Text, partition: U32, trips: seq<Trip>, k: nat): Result<(Origin, Message)>
    requires 0 < k <= |trips|
  {
    var t := trips[k - 1];
    if k == 1 then Nacked(m, topic, partition, t.offset, t.nack)
    else
      match Around(m, topic, partition, trips, k - 1)
      case Err(e) => Err(e)
      case Ok(before) => Nacked(Clone(before.1), topic, partition, t.offset, t.nack)
  }

  ghost predicate Unreserved(m: Message) {
    forall h :: h in m.headers ==> h.key !in Reserved
  }

  lemma {:induction false} NotFound(headers: seq<Header>, key: Text)
    requires forall h :: h in headers ==> h.key != key
    ensures Lookup(headers, key) == None
  {
    if headers != [] {
      assert headers[0] in headers;
      NotFound(headers[1..], key);
    }
  }

  lemma {:induction false} FreshOrigin(m: Message, topic: Text, partition: U32, offset: U64)
    requires Unreserved(m)
    ensures OriginOf(m.headers, topic, partition, offset) == Ok(Origin(topic, partition, offset, 0))
  {
    NotFound(m.headers, RetryTopic);
    NotFound(m.headers, RetryPartition);
    NotFound(m.headers, RetryOffset);
    NotFound(m.headers, RetryCount);
  }

  /** r has the content of m, apart from reserved headers, and names origin o wherever it is stored. */
  ghost predicate Carries(r: Message, m: Message, o: Origin) {
    && Remove(r.headers, Reserved) == Remove(m.headers, Reserved) && r.(headers := m.headers) == m.(transaction := None)
    && forall p: U32, at: U64 :: Names(r, o, p, at)
  }

  ghost predicate Names(r: Message, o: Origin, p: U32, at: U64) {
    OriginOf(r.headers, o.topic, p, at) == Ok(o)
  }

  lemma {:induction false} OnceAround(m: Message, first: Message, partition: U32, t: Trip, origin: Origin)
    requires t.nack.consumer != "" && OriginOf(m.headers, origin.topic, partition, t.offset) == Ok(origin)
    requires Remove(m.headers, Reserved) == Remove(first.headers, Reserved)
    requires Clone(m).(headers := first.headers) == Clone(first)
    ensures
      var r := Nacked(m, origin.topic, partition, t.offset, t.nack);
      r.Ok? && r.value.0 == origin && Carries(r.value.1, first, origin.(retries := NextCount(origin.retries)))
  {
    RetryKeepsContent(m, origin, t.nack);
    var r := RetryMessage(m, origin, t.nack);
    forall p: U32, o: U64 ensures Names(r, origin.(retries := NextCount(origin.retries)), p, o) {
      RetryTellsOrigin(m, origin, t.nack, p, o);
    }
  }

  /**
   * However often it goes around, and wherever its copies are stored, the retry record after k nacks names the first
   * copy's topic, partition and offset and the count k, and carries the first copy's content.
   */
  lemma {:induction false} AroundKeeps(m: Message, topic: Text, partition: U32, trips: seq<Trip>, k: nat)
    requires Unreserved(m) && 0 < k <= |trips| && k <= MaxU32
    requires forall t :: t in trips ==> t.nack.consumer != ""
    ensures
      var r := Around(m, topic, partition, trips, k);
      && r.Ok? && r.value.0 == Origin(topic, partition, trips[0].offset, k - 1)
      && Carries(r.value.1, m, Origin(topic, partition, trips[0].offset, k))
  {
    assert trips[k - 1] in trips;
    if k == 1 {
      FirstTrip(m, topic, partition, trips[0]);
    } else {
      AroundKeeps(m, topic, partition, trips, k - 1);
      var before := Around(m, topic, partition, trips, k - 1).value.1;
      NextTrip(m, before, partition, trips[k - 1], Origin(topic, partition, trips[0].offset, k - 1));
    }
  }

  lemma {:induction false} FirstTrip(m: Message, topic: Text, partition: U32, t: Trip)
    requires Unreserved(m) && t.nack.consumer != ""
    ensures
      var r := Nacked(m, topic, partition, t.offset, t.nack);
      && r.Ok? && r.value.0 == Origin(topic, partition, t.offset, 0)
      && Carries(r.value.1, m, Origin(topic, partition, t.offset, 1))
  {
    FreshOrigin(m, topic, partition, t.offset);
    OnceAround(m, m, partition, t, Origin(topic, partition, t.offset, 0));
  }

  lemma {:induction false} NextTrip(m: Message, before: Message, partition: U32, t: Trip, origin: Origin)
    requires t.nack.consumer != "" && Carries(before, m, origin) && origin.retries < MaxU32
    ensures
      var r := Nacked(Clone(before), origin.topic, partition, t.offset, t.nack);
      r.Ok? && r.value.0 == origin && Carries(r.value.1, m, origin.(retries := origin.retries + 1))
  {
    assert Names(before, origin, partition, t.offset);
    OnceAround(Clone(before), m, partition, t, origin);
  }

  /**
   * Nacked on every delivery, a message comes back to its origin partition after each of the first maxAttempts - 1
   * nacks and goes to the dead letters after the next one, and not before.
   */
  lemma {:induction false} RetryLifeCycle(
    m: Message, topic: Text, partition: U32, trips: seq<Trip>, k: nat, maxAttempts: U32, p: U32, o: U64)
    requires Unreserved(m) && 0 < k <= |trips| && k <= MaxU32
    requires forall t :: t in trips ==> t.nack.consumer != ""
    ensures Around(m, topic, partition, trips, k).Ok?
    ensures OriginOf(Around(m, topic, partition, trips, k).value.1.headers, topic, p, o).Ok?
    ensures
      var retry := Around(m, topic, partition, trips, k).value.1;
      var origin := OriginOf(retry.headers, topic, p, o).value;
      var move := Moved(retry, origin, maxAttempts);
      && move.topic == topic && move.partition == partition && origin == Origin(topic, partition, trips[0].offset, k)
      && (move.ToOrigin? <==> k < maxAttempts)
      && (move.ToOrigin? ==> move.message == retry.(transaction := None))
      && (move.ToDeadLetter? ==> move.message == DlqMessage(retry, origin))
  {
    AroundKeeps(m, topic, partition, trips, k);
    assert Names(Around(m, topic, partition, trips, k).value.1, Origin(topic, partition, trips[0].offset, k), p, o);
  }

  // ---- The dead letter ----

  /** What the dead-letter query reads back from a record's headers. */
  function DlqOrigin(headers: seq<Header>): Option<Origin> {
    var p, o, c := HeaderNumber(headers, DlqPartition, MaxU32), HeaderNumber(headers, DlqOffset, MaxU64),
                   HeaderNumber(headers, DlqRetryCount, MaxU32);
    if p.Ok? && o.Ok? && c.Ok? && p.value.Some? && o.value.Some? && c.value.Some? then
      NumbersFit(headers);
      Some(Origin(HeaderText(headers, DlqTopic), p.value.value, o.value.value, c.value.value))
    else None
  }

  lemma {:induction false} DlqTellsOrigin(m: Message, o: Origin)
    ensures DlqOrigin(DlqMessage(m, o).headers) == Some(o)
    ensures HeaderText(DlqMessage(m, o).headers, DlqErrorCode) == RetryExhausted
    ensures HeaderText(DlqMessage(m, o).headers, DlqErrorMessage)
         == if HeaderText(m.headers, LastError) == "" then "unknown" else HeaderText(m.headers, LastError)
  {
    var failed := HeaderText(m.headers, LastError);
    var added := DlqHeaders(o, if failed == "" then "unknown" else failed);
    var base := Remove(m.headers, {DeliverAt});
    var headers := UpsertAll(base, added);
    DlqHeadersDistinct(o, if failed == "" then "unknown" else failed);
    UpsertAllFinds(base, added, 0);
    UpsertAllFinds(base, added, 1);
    UpsertAllFinds(base, added, 2);
    UpsertAllFinds(base, added, 3);
    UpsertAllFinds(base, added, 4);
    UpsertAllFinds(base, added, 5);
    TextHeader(headers, DlqTopic, o.topic);
    NumberHeader(headers, DlqPartition, o.partition, MaxU32);
    NumberHeader(headers, DlqOffset, o.offset, MaxU64);
    NumberHeader(headers, DlqRetryCount, o.retries, MaxU32);
    TextHeader(headers, DlqErrorCode, RetryExhausted);
    TextHeader(headers, DlqErrorMessage, if failed == "" then "unknown" else failed);
  }

  lemma {:induction false} ReplayStrips(m: Message, o: Origin)
    ensures Replayed(DlqMessage(m, o)) == Clone(m).(expiresAtMS := None, headers := Remove(m.headers, Reserved))
  {
    var failed := HeaderText(m.headers, LastError);
    var text: Text := if failed == "" then "unknown" else failed;
    DlqHeadersDistinct(o, text);
    RemoveForgetsAll(Remove(m.headers, {DeliverAt}), DlqHeaders(o, text), Reserved);
    RemoveAgain(m.headers, {DeliverAt}, Reserved);
  }

  /**
   * After any number of trips the dead letter names the first copy's place and the number of nacks, and replaying it
   * strips exactly what was added: key, payload, attributes and headers, in their order, are those of the first copy.
   */
  lemma {:induction false} ReplayRestores(m: Message, topic: Text, partition: U32, trips: seq<Trip>, k: nat)
    requires Unreserved(m) && 0 < k <= |trips| && k <= MaxU32
    requires forall t :: t in trips ==> t.nack.consumer != ""
    ensures Around(m, topic, partition, trips, k).Ok?
    ensures
      var origin := Origin(topic, partition, trips[0].offset, k);
      var letter := DlqMessage(Around(m, topic, partition, trips, k).value.1, origin);
      && DlqOrigin(letter.headers) == Some(origin)
      && Replayed(letter) == m.(transaction := None, expiresAtMS := None)
  {
    AroundKeeps(m, topic, partition, trips, k);
    RemoveNothing(m.headers, Reserved);
    var retry := Around(m, topic, partition, trips, k).value.1;
    DlqTellsOrigin(retry, Origin(topic, partition, trips[0].offset, k));
    ReplayStrips(retry, Origin(topic, partition, trips[0].offset, k));
  }
}
