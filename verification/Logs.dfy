/** Partition logs: append-only, with offsets assigned in order. */
module Logs {
  import opened Sorting
  import Messages

  type Payload = Messages.Message

  datatype Record = Record(offset: nat, payload: Payload)

  /** A partition log: records in offset order, and the next offset to assign. */
  datatype Log = Log(records: seq<Record>, next: nat)

  predicate Before(a: Record, b: Record) {
    a.offset < b.offset
  }

  ghost predicate LogOk(log: Log) {
    && (forall i, j :: 0 <= i < j < |log.records| ==> log.records[i].offset < log.records[j].offset)
    && (forall r :: r in log.records ==> r.offset < log.next)
  }

  function Stamp(next: nat, payloads: seq<Payload>): (records: seq<Record>)
    ensures |records| == |payloads|
    ensures forall i {:trigger records[i]} :: 0 <= i < |payloads| ==> records[i] == Record(next + i, payloads[i])
  {
    seq(|payloads|, i requires 0 <= i < |payloads| => Record(next + i, payloads[i]))
  }

  function Append(log: Log, payloads: seq<Payload>): Log {
    Log(log.records + Stamp(log.next, payloads), log.next + |payloads|)
  }

  lemma {:induction false} AppendTwice(log: Log, a: seq<Payload>, b: seq<Payload>)
    ensures Append(Append(log, a), b) == Append(log, a + b)
  {
    assert Stamp(log.next, a + b) == Stamp(log.next, a) + Stamp(log.next + |a|, b);
  }

  function From(offset: nat): Record -> bool {
    (r: Record) => r.offset >= offset
  }

  function ReadFrom(log: Log, offset: nat, maxRecords: nat): seq<Record> {
    var found := Filter(log.records, From(offset));
    if |found| <= maxRecords then found else found[..maxRecords]
  }

  function Between(low: nat, high: nat): Record -> bool {
    (r: Record) => low <= r.offset < high
  }

  /** Reading returns records of the log in offset order, exactly those from the offset on with room before them. */
  lemma {:induction false} ReadsExactly(log: Log, offset: nat, maxRecords: nat, r: Record)
    requires LogOk(log)
    ensures Sorted(ReadFrom(log, offset, maxRecords), Before)
    ensures r in ReadFrom(log, offset, maxRecords)
       <==> r in log.records && r.offset >= offset && Count(log.records, Between(offset, r.offset)) < maxRecords
  {
    var found := Filter(log.records, From(offset));
    FoundInOrder(log, offset, r);
    TakenSorted(found, maxRecords);
    CountFiltered(log.records, offset, r.offset);
    if r in found { RoomExactlyWhen(found, offset, maxRecords, r); }
    assert ReadFrom(log, offset, maxRecords) == Taken(found, maxRecords);
  }

  ghost predicate AllFrom(found: seq<Record>, offset: nat) {
    forall x :: x in found ==> x.offset >= offset
  }

  lemma {:induction false} FoundInOrder(log: Log, offset: nat, r: Record)
    requires LogOk(log)
    ensures
      var found := Filter(log.records, From(offset));
      Sorted(found, Before) && AllFrom(found, offset) && (r in found <==> r in log.records && r.offset >= offset)
  {
    FilterMembers(log.records, From(offset));
    FilterSorted(log.records, From(offset), Before);
  }

  lemma {:induction false} RoomExactlyWhen(found: seq<Record>, offset: nat, maxRecords: nat, r: Record)
    requires Sorted(found, Before) && r in found && AllFrom(found, offset)
    ensures r in Taken(found, maxRecords) <==> Count(found, Between(offset, r.offset)) < maxRecords
  {
    var i :| 0 <= i < |found| && found[i] == r;
    PlaceInOrder(found, offset, i);
    TakenExactlyWhen(found, maxRecords, i);
  }

  function Taken(found: seq<Record>, maxRecords: nat): seq<Record> {
    if |found| <= maxRecords then found else found[..maxRecords]
  }

  lemma {:induction false} TakenSorted(found: seq<Record>, maxRecords: nat)
    requires Sorted(found, Before)
    ensures Sorted(Taken(found, maxRecords), Before) && forall r :: r in Taken(found, maxRecords) ==> r in found
  {
  }

  lemma {:induction false} TakenExactlyWhen(found: seq<Record>, maxRecords: nat, i: nat)
    requires Sorted(found, Before) && i < |found|
    ensures found[i] in Taken(found, maxRecords) <==> i < maxRecords
  {
    var read := Taken(found, maxRecords);
    if i < maxRecords { assert read[i] == found[i]; }
    if found[i] in read {
      var j :| 0 <= j < |read| && read[j] == found[i];
      assert found[j] == found[i];
      assert j < i ==> Before(found[j], found[i]);
    }
  }

  lemma {:induction false} CountFiltered(records: seq<Record>, low: nat, high: nat)
    ensures Count(Filter(records, From(low)), Between(low, high)) == Count(records, Between(low, high))
  {
    if records != [] {
      CountFiltered(records[..|records| - 1], low, high);
      CountFilterLast(records, From(low), Between(low, high));
    }
  }

  lemma {:induction false} AllBefore(found: seq<Record>, low: nat, i: nat)
    requires Sorted(found, Before) && i < |found| && AllFrom(found, low)
    ensures Count(found[..i], Between(low, found[i].offset)) == i
  {
    var before, high := found[..i], found[i].offset;
    forall x | x in before ensures Between(low, high)(x) {
      var k :| 0 <= k < i && before[k] == x;
      assert Before(found[k], found[i]) && found[k] in found;
    }
    CountAll(before, Between(low, high));
  }

  lemma {:induction false} NoneAfter(found: seq<Record>, low: nat, i: nat)
    requires Sorted(found, Before) && i < |found|
    ensures Count(found[i..], Between(low, found[i].offset)) == 0
  {
    var after, high := found[i..], found[i].offset;
    forall x | x in after ensures !Between(low, high)(x) {
      var k :| 0 <= k < |after| && after[k] == x;
      assert k > 0 ==> Before(found[i], found[i + k]);
    }
    CountNone(after, Between(low, high));
  }

  /** In offset order, as many records come before one as its place says. */
  lemma {:induction false} PlaceInOrder(found: seq<Record>, low: nat, i: nat)
    requires Sorted(found, Before) && i < |found| && AllFrom(found, low)
    ensures Count(found, Between(low, found[i].offset)) == i
  {
    assert found == found[..i] + found[i..];
    CountConcat(found[..i], found[i..], Between(low, found[i].offset));
    AllBefore(found, low, i);
    NoneAfter(found, low, i);
  }

  /** b continues a: offsets below a's end name the records they named in a. */
  ghost predicate Continues(a: Log, b: Log) {
    b.next >= a.next && forall r :: r in b.records && r.offset < a.next ==> r in a.records
  }

  lemma {:induction false} ContinuesOnward(a: Log, b: Log, c: Log)
    requires Continues(a, b) && Continues(b, c)
    ensures Continues(a, c)
  {
  }

  lemma {:induction false} AppendOk(log: Log, payloads: seq<Payload>)
    requires LogOk(log)
    ensures LogOk(Append(log, payloads)) && Continues(log, Append(log, payloads))
  {
    forall i | 0 <= i < |log.records| ensures log.records[i].offset < log.next {
      assert log.records[i] in log.records;
    }
  }
}
