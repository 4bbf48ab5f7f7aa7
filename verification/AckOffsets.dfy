/** Per-record acknowledgement: the next offset and the offsets acknowledged beyond it. */
module AckOffsets {
  import opened Basics
  import opened Sorting
  import opened Logs

  datatype Offsets = Offsets(next: U64, pending: seq<U64>)

  // ---- Normalising ----

  predicate Le(a: U64, b: U64) {
    a <= b
  }

  ghost predicate Rising(s: seq<U64>) {
    forall i, j :: 0 <= i < j < |s| ==> s[i] < s[j]
  }

  /** Of a sorted list, the first of each run of equal offsets that is not below next. */
  function Kept(s: seq<U64>, next: U64): seq<U64> {
    if s == [] then []
    else
      var n := |s| - 1;
      if s[n] < next || (n > 0 && s[n] == s[n - 1]) then Kept(s[..n], next) else Kept(s[..n], next) + [s[n]]
  }

  function Normalize(next: U64, pending: seq<U64>): seq<U64> {
    Kept(Sort(pending, Le), next)
  }

  lemma {:induction false} KeptCorrect(s: seq<U64>, next: U64)
    requires Sorted(s, Le)
    ensures Rising(Kept(s, next)) && forall o :: o in Kept(s, next) <==> o in s && o >= next
  {
    if s != [] {
      var n := |s| - 1;
      KeptCorrect(s[..n], next);
      assert s == s[..n] + [s[n]];
      if s[n] >= next && (n == 0 || s[n] != s[n - 1]) {
        var before := Kept(s[..n], next);
        forall k | 0 <= k < |before| ensures before[k] < s[n] {
          assert before[k] in before;
          var i :| 0 <= i < n && s[..n][i] == before[k];
          assert Le(s[i], s[n]) && (i < n - 1 ==> Le(s[i], s[n - 1])) && Le(s[n - 1], s[n]);
        }
      }
    }
  }

  lemma {:induction false} NormalizeCorrect(next: U64, pending: seq<U64>)
    ensures Rising(Normalize(next, pending))
    ensures forall o :: o in Normalize(next, pending) <==> o in pending && o >= next
  {
    SortCorrect(pending, Le);
    SortLeast(pending, Le);
    KeptCorrect(Sort(pending, Le), next);
  }

  lemma {:induction false} SortedOffsets(pending: seq<U64>)
    ensures forall i :: 0 < i < |pending| ==> Sort(pending, Le)[i - 1] <= Sort(pending, Le)[i]
  {
    SortCorrect(pending, Le);
    var s := Sort(pending, Le);
    forall i | 0 < i < |pending| ensures s[i - 1] <= s[i] {
      assert Le(s[i - 1], s[i]);
    }
  }

  method NormalizeSorted(next: U64, sorted: seq<U64>) returns (out: seq<U64>)
    requires forall i :: 0 < i < |sorted| ==> sorted[i - 1] <= sorted[i]
    ensures out == Kept(sorted, next)
  {
    out := [];
    var previous: U64 := 0;
    for i := 0 to |sorted|
      invariant out == Kept(sorted[..i], next)
      invariant i > 0 && sorted[i - 1] >= next ==> previous == sorted[i - 1]
      invariant i == 0 || sorted[i - 1] < next ==> previous == 0
    {
      assert sorted[..i + 1][..i] == sorted[..i];
      if sorted[i] < next { continue; }
      if i > 0 && sorted[i] == previous { continue; }
      out := out + [sorted[i]];
      previous := sorted[i];
    }
    assert sorted[..|sorted|] == sorted;
  }

  method NormalizePending(next: U64, pending: seq<U64>) returns (out: seq<U64>)
    ensures out == Normalize(next, pending)
  {
    SortedOffsets(pending);
    out := NormalizeSorted(next, Sort(pending, Le));
  }

  // ---- Draining ----

  /** The next 64-bit value. */
  function Succ(x: U64): U64 {
    if x == 0xFFFF_FFFF_FFFF_FFFF then 0 else x + 1
  }

  function Drain(next: U64, pending: seq<U64>): Offsets
    decreases |pending|
  {
    if pending != [] && pending[0] == next then Drain(Succ(next), pending[1..]) else Offsets(next, pending)
  }

  function Drained(next: U64, pending: seq<U64>): Offsets {
    var s := Drain(next, Normalize(next, pending));
    Offsets(s.next, Normalize(s.next, s.pending))
  }

  method DrainAckedOffsets(next: U64, pending: seq<U64>) returns (r: Offsets)
    ensures r == Drained(next, pending)
  {
    var n := next;
    var p := NormalizePending(next, pending);
    ghost var start := p;
    while |p| > 0 && p[0] == n
      invariant Drain(next, start) == Drain(n, p)
      decreases |p|
    {
      n := Succ(n);
      p := p[1..];
    }
    var q := NormalizePending(n, p);
    return Offsets(n, q);
  }

  /** What is known of the consumer: its stored state, or the start of the log. */
  function Known(stored: Option<Offsets>, logStart: U64): Offsets {
    match stored
    case None => Offsets(logStart, [])
    case Some(s) => Offsets(Max(s.next, logStart), s.pending)
  }

  /** One acknowledgement, as saved; saving normalises. */
  function Ack(stored: Option<Offsets>, logStart: U64, offset: U64): Offsets {
    var s := Known(stored, logStart);
    var t := if offset < s.next then s else Drained(s.next, s.pending + [offset]);
    Offsets(t.next, Normalize(t.next, t.pending))
  }

  class Consumer {
    var stored: Option<Offsets>

    constructor ()
      ensures stored == None
    {
      stored := None;
    }

    method AckOffset(logStart: U64, offset: U64)
      modifies this
      ensures stored == Some(Ack(old(stored), logStart, offset))
    {
      var next, pending := logStart, [];
      if stored.Some? {
        next := if stored.value.next < logStart then logStart else stored.value.next;
        pending := stored.value.pending;
      }
      if offset >= next {
        var drained := DrainAckedOffsets(next, pending + [offset]);
        next, pending := drained.next, drained.pending;
      }
      pending := NormalizePending(next, pending);
      stored := Some(Offsets(next, pending));
    }
  }

  // ---- The state denotes the set of acknowledged offsets ----

  ghost predicate Acked(s: Offsets, o: nat) {
    o < s.next || o in s.pending
  }

  /** Nothing left to drain, and each later offset listed once, in order. */
  ghost predicate Canonical(s: Offsets) {
    Rising(s.pending) && forall o :: o in s.pending ==> o > s.next
  }

  lemma {:induction false} RisingUnique(a: seq<U64>, b: seq<U64>)
    requires Rising(a) && Rising(b) && forall o :: o in a <==> o in b
    ensures a == b
  {
    assert a != [] ==> a[0] in a;
    assert b != [] ==> b[0] in b;
    if a != [] {
      assert a[0] == b[0];
      forall o ensures o in a[1..] <==> o in b[1..] {
        TailMember(a, o);
        TailMember(b, o);
      }
      RisingUnique(a[1..], b[1..]);
      assert a == [a[0]] + a[1..] && b == [b[0]] + b[1..];
    }
  }

  /** Canonical states with the same acknowledged offsets are equal. */
  lemma {:induction false} CanonicalUnique(s: Offsets, t: Offsets)
    requires Canonical(s) && Canonical(t) && forall o: nat :: Acked(s, o) <==> Acked(t, o)
    ensures s == t
  {
    assert Acked(s, s.next) <==> Acked(t, s.next);
    assert Acked(s, t.next) <==> Acked(t, t.next);
    assert s.next == t.next;
    forall o ensures o in s.pending <==> o in t.pending {
      assert Acked(s, o) <==> Acked(t, o);
    }
    RisingUnique(s.pending, t.pending);
  }

  lemma {:induction false} FirstIsLeast(pending: seq<U64>, o: U64)
    requires Rising(pending) && o in pending
    ensures pending[0] <= o
  {
    var i :| 0 <= i < |pending| && pending[i] == o;
  }

  /** Draining stops at the first offset that is not listed, if there is one, and forgets nothing. */
  lemma {:induction false} DrainCorrect(next: U64, pending: seq<U64>, gap: U64)
    requires Rising(pending) && forall o :: o in pending ==> next <= o
    requires next <= gap && gap !in pending
    decreases |pending|
    ensures
      var r := Drain(next, pending);
      && Canonical(r) && next <= r.next <= gap
      && (forall o :: o in r.pending ==> o in pending)
      && forall o: nat :: Acked(r, o) <==> o < next || o in pending
  {
    if pending != [] && pending[0] == next {
      forall o ensures o in pending[1..] <==> o in pending && o != next { TailMember(pending, o); }
      DrainCorrect(next + 1, pending[1..], gap);
    } else {
      assert pending != [] ==> pending[0] in pending;
      forall o | o in pending ensures o > next { FirstIsLeast(pending, o); }
    }
  }

  /** When every offset up to the last one is listed, draining runs through all of them and wraps to zero. */
  lemma {:induction false} DrainWraps(next: U64, pending: seq<U64>)
    requires Rising(pending) && forall o: U64 :: o in pending <==> next <= o
    decreases |pending|
    ensures Drain(next, pending) == Offsets(0, [])
  {
    assert next in pending && pending[0] in pending;
    FirstIsLeast(pending, next);
    forall o: U64 ensures o in pending[1..] <==> o in pending && o != next { TailMember(pending, o); }
    if next < 0xFFFF_FFFF_FFFF_FFFF { DrainWraps(next + 1, pending[1..]); }
  }

  /** Every offset from `next` up to the last 64-bit one is in the list. */
  ghost predicate Complete(next: U64, pending: seq<U64>) {
    forall o: U64 :: next <= o ==> o in pending
  }

  lemma {:induction false} DrainedCorrect(next: U64, pending: seq<U64>)
    requires !Complete(next, pending)
    ensures
      var r := Drained(next, pending);
      Canonical(r) && r.next >= next && forall o: nat :: Acked(r, o) <==> o < next || o in pending
  {
    var gap: U64 :| next <= gap && gap !in pending;
    NormalizeCorrect(next, pending);
    var s := Drain(next, Normalize(next, pending));
    DrainCorrect(next, Normalize(next, pending), gap);
    NormalizeCorrect(s.next, s.pending);
  }

  lemma {:induction false} DrainedWraps(next: U64, pending: seq<U64>)
    requires Complete(next, pending)
    ensures Drained(next, pending) == Offsets(0, [])
  {
    NormalizeCorrect(next, pending);
    DrainWraps(next, Normalize(next, pending));
  }

  lemma {:induction false} NormalizeCanonical(s: Offsets)
    requires Canonical(s)
    ensures Normalize(s.next, s.pending) == s.pending
  {
    NormalizeCorrect(s.next, s.pending);
    RisingUnique(Normalize(s.next, s.pending), s.pending);
  }

  /** The ack is for the last offset missing up to the end of the 64-bit range. */
  ghost predicate Wraps(s: Offsets, offset: U64) {
    offset >= s.next && Complete(s.next, s.pending + [offset])
  }

  lemma {:induction false} AckAdds(stored: Option<Offsets>, logStart: U64, offset: U64)
    requires !Wraps(Known(stored, logStart), offset)
    ensures
      var s, t := Known(stored, logStart), Ack(stored, logStart, offset);
      && t.next >= s.next && (offset >= s.next || Canonical(s) ==> Canonical(t))
      && forall o: nat :: Acked(t, o) <==> Acked(s, o) || o == offset
  {
    var s := Known(stored, logStart);
    if offset < s.next {
      NormalizeCorrect(s.next, s.pending);
    } else {
      DrainedCorrect(s.next, s.pending + [offset]);
      NormalizeCanonical(Drained(s.next, s.pending + [offset]));
    }
  }

  lemma {:induction false} AckWraps(stored: Option<Offsets>, logStart: U64, offset: U64)
    requires Wraps(Known(stored, logStart), offset)
    ensures Ack(stored, logStart, offset) == Offsets(0, [])
  {
    var s := Known(stored, logStart);
    DrainedWraps(s.next, s.pending + [offset]);
    NormalizeCorrect(0, []);
  }

  /**
   * Whatever is stored, an ack adds exactly its offset to the acknowledged ones if and only if it does not complete the
   * whole 64-bit range; if it does, everything is forgotten.
   */
  lemma {:induction false} AckAddsOneExactlyWhen(stored: Option<Offsets>, logStart: U64, offset: U64)
    ensures
      var s, t := Known(stored, logStart), Ack(stored, logStart, offset);
      && ((forall o: nat :: Acked(t, o) <==> Acked(s, o) || o == offset) <==> !Wraps(s, offset))
      && (Wraps(s, offset) ==> t == Offsets(0, []))
  {
    if Wraps(Known(stored, logStart), offset) {
      AckWraps(stored, logStart, offset);
      assert !Acked(Ack(stored, logStart, offset), offset);
    } else {
      AckAdds(stored, logStart, offset);
    }
  }

  /** A consumer whose committed offset is the last 64-bit one, and which acknowledges it, starts again from zero. */
  lemma {:induction false} LastOffsetWraps(last: U64)
    requires last == 0xFFFF_FFFF_FFFF_FFFF
    ensures Ack(Some(Offsets(last, [])), 0, last) == Offsets(0, [])
  {
    AckWraps(Some(Offsets(last, [])), 0, last);
  }

  // ---- Any order, any repetition, and a log start that moves forward ----

  /**
   * The state after the first n acknowledgements of a consumer without stored state; starts[i] is the log start then.
   */
  function After(acks: seq<U64>, starts: seq<U64>, n: nat): Option<Offsets>
    requires n <= |acks| == |starts|
  {
    if n == 0 then None else Some(Ack(After(acks, starts, n - 1), starts[n - 1], acks[n - 1]))
  }

  /** The consumer as the next operation sees it, with the log starting at `logStart`. */
  function Seen(acks: seq<U64>, starts: seq<U64>, logStart: U64): Offsets
    requires |acks| == |starts|
  {
    Known(After(acks, starts, |acks|), logStart)
  }

  /** Retention only moves the log start forward, up to where it is now. */
  ghost predicate Forward(starts: seq<U64>, logStart: U64) {
    && (forall i, j :: 0 <= i < j < |starts| ==> starts[i] <= starts[j])
    && (forall i :: 0 <= i < |starts| ==> starts[i] <= logStart)
  }

  /** Some offset from the log start on has not been acknowledged. */
  ghost predicate Unfinished(acks: seq<U64>, logStart: U64) {
    !Complete(logStart, acks)
  }

  lemma {:induction false} AfterDenotesUpto(acks: seq<U64>, starts: seq<U64>, n: nat, logStart: U64)
    requires n <= |acks| == |starts| && Forward(starts[..n], logStart) && Unfinished(acks[..n], logStart)
    ensures forall o: nat :: Acked(Known(After(acks, starts, n), logStart), o) <==> o < logStart || o in acks[..n]
  {
    if n > 0 {
      var start, offset := starts[n - 1], acks[n - 1];
      assert acks[..n] == acks[..n - 1] + [offset];
      ForwardBefore(starts, n, logStart);
      UnfinishedBefore(acks[..n - 1], offset, start, logStart);
      AfterDenotesUpto(acks, starts, n - 1, start);
      NoWrap(Known(After(acks, starts, n - 1), start), acks[..n - 1], start, offset, logStart);
      AckAdds(After(acks, starts, n - 1), start, offset);
      var s, t := Known(After(acks, starts, n - 1), start), Ack(After(acks, starts, n - 1), start, offset);
      forall o: nat ensures Acked(Known(Some(t), logStart), o) <==> o < logStart || o in acks[..n] {
        AckedLater(t, logStart, o);
        assert Acked(t, o) <==> Acked(s, o) || o == offset;
        assert Acked(s, o) <==> o < start || o in acks[..n - 1];
      }
    }
  }

  lemma {:induction false} AckedLater(t: Offsets, logStart: U64, o: nat)
    ensures Acked(Known(Some(t), logStart), o) <==> o < logStart || Acked(t, o)
  {
  }

  lemma {:induction false} ForwardBefore(starts: seq<U64>, n: nat, logStart: U64)
    requires 0 < n <= |starts| && Forward(starts[..n], logStart)
    ensures Forward(starts[..n - 1], starts[n - 1]) && starts[n - 1] <= logStart
  {
    var upto, before := starts[..n], starts[..n - 1];
    assert upto[n - 1] == starts[n - 1] && forall i :: 0 <= i < n - 1 ==> before[i] == upto[i];
  }

  lemma {:induction false} UnfinishedBefore(acks: seq<U64>, offset: U64, start: U64, logStart: U64)
    requires start <= logStart && Unfinished(acks + [offset], logStart)
    ensures Unfinished(acks, start)
  {
    var gap: U64 :| logStart <= gap && gap !in acks + [offset];
    assert gap !in acks;
  }

  lemma {:induction false} NoWrap(s: Offsets, acks: seq<U64>, start: U64, offset: U64, logStart: U64)
    requires start <= logStart && Unfinished(acks + [offset], logStart)
    requires forall o: nat :: Acked(s, o) <==> o < start || o in acks
    ensures !Wraps(s, offset)
  {
    var gap: U64 :| logStart <= gap && gap !in acks + [offset];
    assert !Acked(s, gap);
    assert gap !in s.pending + [offset];
  }

  /**
   * Ack tracking is a set: while the log start moves forward and some offset is still missing, the offsets counted as
   * acknowledged are exactly those that were acknowledged and those the log no longer holds.
   */
  lemma {:induction false} AfterDenotes(acks: seq<U64>, starts: seq<U64>, logStart: U64)
    requires |acks| == |starts| && Forward(starts, logStart) && Unfinished(acks, logStart)
    ensures forall o: nat :: Acked(Seen(acks, starts, logStart), o) <==> o < logStart || o in acks
  {
    assert acks[..|acks|] == acks && starts[..|acks|] == starts;
    AfterDenotesUpto(acks, starts, |acks|, logStart);
  }

  lemma {:induction false} FixedStartCanonical(acks: seq<U64>, starts: seq<U64>, n: nat, logStart: U64)
    requires n <= |acks| == |starts| && (forall i :: 0 <= i < |starts| ==> starts[i] == logStart)
    requires Unfinished(acks[..n], logStart)
    ensures Canonical(Known(After(acks, starts, n), logStart))
    ensures n > 0 ==> After(acks, starts, n).value.next >= logStart
  {
    if n > 0 {
      assert acks[..n] == acks[..n - 1] + [acks[n - 1]];
      FixedStartCanonical(acks, starts, n - 1, logStart);
      AfterDenotesUpto(acks, starts, n - 1, logStart);
      NoWrap(Known(After(acks, starts, n - 1), logStart), acks[..n - 1], logStart, acks[n - 1], logStart);
      AckAdds(After(acks, starts, n - 1), logStart, acks[n - 1]);
    }
  }

  function Fixed(acks: seq<U64>, logStart: U64): (starts: seq<U64>)
    ensures |starts| == |acks| && forall i :: 0 <= i < |starts| ==> starts[i] == logStart
  {
    seq(|acks|, i => logStart)
  }

  /**
   * With a log start that stays, two runs of acks that acknowledge the same offsets, in whatever order and however
   * often, leave the same state.
   */
  lemma {:induction false} OrderDoesNotMatter(a: seq<U64>, b: seq<U64>, logStart: U64)
    requires Unfinished(a, logStart) && forall o: U64 :: o >= logStart ==> (o in a <==> o in b)
    ensures Seen(a, Fixed(a, logStart), logStart) == Seen(b, Fixed(b, logStart), logStart)
  {
    var gap: U64 :| logStart <= gap && gap !in a;
    assert gap !in b;
    AfterDenotes(a, Fixed(a, logStart), logStart);
    AfterDenotes(b, Fixed(b, logStart), logStart);
    assert a[..|a|] == a && b[..|b|] == b;
    FixedStartCanonical(a, Fixed(a, logStart), |a|, logStart);
    FixedStartCanonical(b, Fixed(b, logStart), |b|, logStart);
    CanonicalUnique(Seen(a, Fixed(a, logStart), logStart), Seen(b, Fixed(b, logStart), logStart));
  }

  /** With a log start that stays, the next offset is the least one not acknowledged. */
  lemma {:induction false} NextIsLeastUnacked(acks: seq<U64>, logStart: U64, o: U64)
    requires Unfinished(acks, logStart)
    ensures
      var next := Seen(acks, Fixed(acks, logStart), logStart).next;
      && next >= logStart && next !in acks && (logStart <= o < next ==> o in acks)
  {
    var s := Seen(acks, Fixed(acks, logStart), logStart);
    AfterDenotes(acks, Fixed(acks, logStart), logStart);
    assert acks[..|acks|] == acks;
    FixedStartCanonical(acks, Fixed(acks, logStart), |acks|, logStart);
    assert !Acked(s, s.next);
    assert Acked(s, o) <==> o < logStart || o in acks;
  }

  // ---- Filtering a fetch ----

  function Unlisted(pending: seq<U64>): Record -> bool {
    (r: Record) => r.offset !in pending
  }

  method RecordsWithoutPending(records: seq<Record>, pending: seq<U64>) returns (out: seq<Record>)
    ensures out == Filter(records, Unlisted(pending))
  {
    out := [];
    for i := 0 to |records|
      invariant out == Filter(records[..i], Unlisted(pending))
    {
      assert records[..i + 1][..i] == records[..i];
      if records[i].offset !in pending { out := out + [records[i]]; }
    }
    assert records[..|records|] == records;
  }

  /**
   * Of the records from the next offset on, exactly those not acknowledged are handed out, wherever the log starts by
   * now.
   */
  lemma {:induction false} FetchSkipsAcked(
    acks: seq<U64>, starts: seq<U64>, logStart: U64, records: seq<Record>, r: Record)
    requires |acks| == |starts| && Forward(starts, logStart) && Unfinished(acks, logStart)
    requires forall x :: x in records ==> Seen(acks, starts, logStart).next <= x.offset <= MaxU64
    ensures
      r in Filter(records, Unlisted(Seen(acks, starts, logStart).pending)) <==> r in records && r.offset !in acks
  {
    var s := Seen(acks, starts, logStart);
    AfterDenotes(acks, starts, logStart);
    FilterMembers(records, Unlisted(s.pending));
    if r in records {
      assert Acked(s, r.offset) <==> r.offset < logStart || r.offset in acks;
    }
  }

  // ---- Acks that are answered without draining ----

  /**
   * Whatever is stored, an ack leaves a drained state if and only if it is not below the next offset, or the next
   * offset was not itself acknowledged early: below it, the ack is answered without draining.
   */
  lemma {:induction false} SkippedDrainExactlyWhen(stored: Option<Offsets>, logStart: U64, offset: U64)
    ensures
      var s := Known(stored, logStart);
      Canonical(Ack(stored, logStart, offset)) <==> offset >= s.next || s.next !in s.pending
  {
    var s := Known(stored, logStart);
    if offset < s.next {
      NormalizeCorrect(s.next, s.pending);
    } else if Wraps(s, offset) {
      AckWraps(stored, logStart, offset);
    } else {
      AckAdds(stored, logStart, offset);
    }
  }

  /** Offset 5 was acknowledged early and the log now starts there: an ack of 3 saves 5 as both next and pending. */
  lemma {:induction false} SkippedDrainExample()
    ensures Ack(Some(Offsets(0, [5])), 5, 3) == Offsets(5, [5])
  {
    NormalizeCorrect(5, [5]);
    RisingUnique(Normalize(5, [5]), [5]);
  }

  /** It stays so: the state just saved is saved again by another ack below it, with no log start moving. */
  lemma {:induction false} SkippedDrainAgain()
    ensures Ack(Some(Offsets(5, [5])), 5, 3) == Offsets(5, [5])
  {
    NormalizeCorrect(5, [5]);
    RisingUnique(Normalize(5, [5]), [5]);
  }
}
