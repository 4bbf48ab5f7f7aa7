/** The writer and reader of the binary Raft commands: a growing buffer, and a position that moves through the data. */
module Streams {
  import opened Basics
  import opened Messages
  import opened Codec
  import opened RoundTrips

  /**
   * f is g. Methods that write or read element after element speak of f, so that what g does to one element stays out
   * of the reasoning about the loop.
   */
  ghost predicate Stands<T(!new), U(!new)>(f: T -> U, g: T -> U) {
    forall x {:trigger g(x)} :: f(x) == g(x)
  }

  class Writer {
    var buf: Bytes

    constructor ()
      ensures buf == []
    {
      buf := [];
    }

    method WriteRaw(b: Bytes)
      modifies this
      ensures buf == old(buf) + b
    {
      buf := buf + b;
    }

    method WriteBool(b: bool)
      modifies this
      ensures buf == old(buf) + PutBool(b)
    {
      if b { WriteRaw(BigEndian(1, 1)); } else { WriteRaw(BigEndian(1, 0)); }
    }

    method WriteOptional(x: Option<U64>)
      modifies this
      ensures buf == old(buf) + PutOptional(x)
    {
      if x.None? {
        WriteBool(false);
      } else {
        WriteBool(true);
        WriteRaw(BigEndian(8, x.value));
      }
    }

    method WriteText(t: Text) returns (ok: bool)
      modifies this
      ensures ok <==> |t| <= MaxU16
      ensures ok ==> buf == old(buf) + PutText(t)
    {
      if |t| > MaxU16 { return false; }
      WriteRaw(BigEndian(2, |t|));
      WriteRaw(BytesOf(t));
      return true;
    }

    method WriteBytes(b: Bytes) returns (ok: bool)
      modifies this
      ensures ok <==> |b| <= MaxU32
      ensures ok ==> buf == old(buf) + PutBytes(b)
    {
      if |b| > MaxU32 { return false; }
      WriteRaw(BigEndian(4, |b|));
      WriteRaw(b);
      return true;
    }

    method WriteHeaders(hs: seq<Header>) returns (ok: bool)
      modifies this
      ensures ok <==> |hs| <= MaxU16 && forall h :: h in hs ==> HeaderFits(h)
      ensures ok ==> buf == old(buf) + PutHeaders(hs)
    {
      if |hs| > MaxU16 { return false; }
      WriteRaw(BigEndian(2, |hs|));
      ghost var start := buf;
      for i := 0 to |hs|
        invariant buf == start + PutMany(hs[..i], PutHeader)
        invariant forall h :: h in hs[..i] ==> HeaderFits(h)
      {
        ghost var before := buf;
        var fits := WriteText(hs[i].key);
        if !fits { assert hs[i] in hs; return false; }
        fits := WriteBytes(hs[i].value);
        if !fits { assert hs[i] in hs; return false; }
        Assoc(before, PutText(hs[i].key), PutBytes(hs[i].value));
        Wrote(hs, i, PutHeader, start, before, buf);
      }
      assert hs[..|hs|] == hs;
      return true;
    }

    method WriteTransaction(t: Option<Transaction>)
      modifies this
      ensures buf == old(buf) + PutTransaction(t)
    {
      if t.None? {
        WriteBool(false);
      } else {
        var x := t.value;
        WriteBool(true);
        WriteRaw(BigEndian(8, x.txID));
        WriteRaw(BigEndian(8, x.producer));
        WriteRaw(BigEndian(8, x.epoch));
        WriteRaw(BigEndian(8, x.sequence));
        WriteRaw(BigEndian(1, ControlCode(x.control)));
      }
    }

    method WriteMessage(m: Message, ghost put: Message -> Bytes) returns (ok: bool)
      requires Stands(put, PutMessage)
      modifies this
      ensures ok <==> MessageFits(m)
      ensures ok ==> buf == old(buf) + put(m)
    {
      WriteOptional(m.timestampMS);
      WriteOptional(m.expiresAtMS);
      ok := WriteBytes(m.key);
      if !ok { return; }
      ok := WriteHeaders(m.headers);
      if !ok { return; }
      WriteRaw(BigEndian(2, m.attributes));
      WriteTransaction(m.transaction);
      ok := WriteBytes(m.payload);
      PartsInOrder(old(buf), PutOptional(m.timestampMS), PutOptional(m.expiresAtMS), PutBytes(m.key),
                   PutHeaders(m.headers), BigEndian(2, m.attributes), PutTransaction(m.transaction),
                   PutBytes(m.payload));
      assert put(m) == PutMessage(m);
    }

    method WriteId(id: Option<Id>)
      modifies this
      ensures buf == old(buf) + PutId(id)
    {
      if id.None? {
        WriteBool(false);
      } else {
        WriteBool(true);
        WriteRaw(BigEndian(8, id.value.producer));
        WriteRaw(BigEndian(8, id.value.epoch));
        WriteRaw(BigEndian(8, id.value.base));
      }
    }

    method WritePartitioning(p: Partitioning)
      modifies this
      ensures buf == old(buf) + PutPartitioning(p)
    {
      WriteRaw(BigEndian(1, ModeCode(p.mode)));
      WriteRaw(BigEndian(4, p.partition));
    }

    method WriteMessages(ms: seq<Message>, ghost put: Message -> Bytes) returns (ok: bool)
      requires Stands(put, PutMessage)
      modifies this
      ensures ok <==> |ms| <= MaxU32 && forall m :: m in ms ==> MessageFits(m)
      ensures ok ==> buf == old(buf) + (BigEndian(4, |ms|) + PutMany(ms, put))
    {
      if |ms| > MaxU32 { return false; }
      WriteRaw(BigEndian(4, |ms|));
      ghost var start := buf;
      for i := 0 to |ms|
        invariant buf == start + PutMany(ms[..i], put)
        invariant forall m :: m in ms[..i] ==> MessageFits(m)
      {
        ghost var before := buf;
        var fits := WriteMessage(ms[i], put);
        if !fits { assert ms[i] in ms; return false; }
        Wrote(ms, i, put, start, before, buf);
      }
      assert ms[..|ms|] == ms;
      Assoc(old(buf), BigEndian(4, |ms|), PutMany(ms, put));
      return true;
    }

    method WriteRequest(r: Request, ghost put: Request -> Bytes) returns (ok: bool)
      requires Stands(put, PutRequest)
      modifies this
      ensures ok <==> RequestFits(r)
      ensures ok ==> buf == old(buf) + put(r)
    {
      ok := WriteText(r.topic);
      if !ok { return; }
      WritePartitioning(r.partitioning);
      WriteId(r.idempotency);
      ok := WriteMessages(r.messages, PutMessage);
      assert put(r) == PutRequest(r);
      FourInOrder(old(buf), PutText(r.topic), PutPartitioning(r.partitioning), PutId(r.idempotency),
                  PutMessages(r.messages));
    }

    method WriteRequests(rs: seq<Request>, ghost put: Request -> Bytes) returns (ok: bool)
      requires Stands(put, PutRequest)
      modifies this
      ensures ok <==> |rs| <= MaxU32 && forall r :: r in rs ==> RequestFits(r)
      ensures ok ==> buf == old(buf) + (BigEndian(4, |rs|) + PutMany(rs, put))
    {
      if |rs| > MaxU32 { return false; }
      WriteRaw(BigEndian(4, |rs|));
      ghost var start := buf;
      for i := 0 to |rs|
        invariant buf == start + PutMany(rs[..i], put)
        invariant forall r :: r in rs[..i] ==> RequestFits(r)
      {
        ghost var before := buf;
        var fits := WriteRequest(rs[i], put);
        if !fits { assert rs[i] in rs; return false; }
        Wrote(rs, i, put, start, before, buf);
      }
      assert rs[..|rs|] == rs;
      Assoc(old(buf), BigEndian(4, |rs|), PutMany(rs, put));
      return true;
    }

    method WriteCommit(c: Commit, ghost put: Commit -> Bytes) returns (ok: bool)
      requires Stands(put, PutCommit)
      modifies this
      ensures ok <==> CommitFits(c)
      ensures ok ==> buf == old(buf) + put(c)
    {
      ok := WriteText(c.consumer);
      if !ok { return; }
      ok := WriteText(c.topic);
      if !ok { return; }
      WriteRaw(BigEndian(4, c.partition));
      WriteRaw(BigEndian(8, c.nextOffset));
      WriteOptional(c.ackOffset);
      WriteRaw(BigEndian(8, c.updatedAtMS));
      ok := WriteText(c.metadata);
      PartsInOrder(old(buf), PutText(c.consumer), PutText(c.topic), BigEndian(4, c.partition),
                   BigEndian(8, c.nextOffset),
                   PutOptional(c.ackOffset), BigEndian(8, c.updatedAtMS), PutText(c.metadata));
      assert put(c) == PutCommit(c);
    }

    method WriteCommits(cs: seq<Commit>, ghost put: Commit -> Bytes) returns (ok: bool)
      requires Stands(put, PutCommit)
      modifies this
      ensures ok <==> |cs| <= MaxU32 && forall c :: c in cs ==> CommitFits(c)
      ensures ok ==> buf == old(buf) + (BigEndian(4, |cs|) + PutMany(cs, put))
    {
      if |cs| > MaxU32 { return false; }
      WriteRaw(BigEndian(4, |cs|));
      ghost var start := buf;
      for i := 0 to |cs|
        invariant buf == start + PutMany(cs[..i], put)
        invariant forall c :: c in cs[..i] ==> CommitFits(c)
      {
        ghost var before := buf;
        var fits := WriteCommit(cs[i], put);
        if !fits { assert cs[i] in cs; return false; }
        Wrote(cs, i, put, start, before, buf);
      }
      assert cs[..|cs|] == cs;
      Assoc(old(buf), BigEndian(4, |cs|), PutMany(cs, put));
      return true;
    }
  }

  /** Writing one more element extends what has been written so far. */
  lemma {:induction false} Wrote<T>(xs: seq<T>, i: nat, put: T -> Bytes, start: Bytes, before: Bytes, after: Bytes)
    requires i < |xs| && before == start + PutMany(xs[..i], put) && after == before + put(xs[i])
    ensures after == start + PutMany(xs[..i + 1], put)
  {
    assert xs[..i + 1][..i] == xs[..i];
    Assoc(start, PutMany(xs[..i], put), put(xs[i]));
  }

  lemma {:induction false} FourInOrder(o: Bytes, a: Bytes, b: Bytes, c: Bytes, d: Bytes)
    ensures o + a + b + c + d == o + (a + b + c + d)
  {
    Assoc(o, a, b);
    Assoc(o, a + b, c);
    Assoc(o, a + b + c, d);
  }

  lemma {:induction false} PartsInOrder(o: Bytes, a: Bytes, b: Bytes, c: Bytes, d: Bytes, e: Bytes, f: Bytes, g: Bytes)
    ensures o + a + b + c + d + e + f + g == o + (a + b + c + d + e + f + g)
  {
    Assoc(o, a, b);
    Assoc(o, a + b, c);
    Assoc(o, a + b + c, d);
    Assoc(o, a + b + c + d, e);
    Assoc(o, a + b + c + d + e, f);
    Assoc(o, a + b + c + d + e + f, g);
  }

  lemma {:induction false} NothingBefore(b: Bytes)
    ensures [] + b == b
  {
  }

  method EncodeProduceBatches(rs: seq<Request>) returns (body: Option<Bytes>)
    ensures body == if RequestsFit(rs) then Some(PutRequests(rs)) else None
  {
    var writer := new Writer();
    var ok := writer.WriteRequests(rs, PutRequest);
    NothingBefore(PutRequests(rs));
    return if ok then Some(writer.buf) else None;
  }

  method EncodeCommitOffsets(cs: seq<Commit>) returns (body: Option<Bytes>)
    ensures body == if CommitsFit(cs) then Some(PutCommits(cs)) else None
  {
    var writer := new Writer();
    var ok := writer.WriteCommits(cs, PutCommit);
    NothingBefore(PutCommits(cs));
    return if ok then Some(writer.buf) else None;
  }

  method Envelope(id: Byte, body: Bytes) returns (data: Bytes)
    ensures data == BigEndian(4, Magic) + BigEndian(1, id) + body
  {
    var writer := new Writer();
    writer.WriteRaw(BigEndian(4, Magic));
    writer.WriteRaw(BigEndian(1, id));
    writer.WriteRaw(body);
    return writer.buf;
  }

  method EncodeCommand(c: Command) returns (data: Option<Bytes>)
    ensures data == Encode(c)
  {
    var body;
    match c {
      case Produce(rs) => body := EncodeProduceBatches(rs);
      case CommitOffsets(cs) => body := EncodeCommitOffsets(cs);
    }
    if body.None? { return None; }
    var bytes := Envelope(CommandID(c), body.value);
    return Some(bytes);
  }

  /** The value read and the bytes left, as the reader reports them. */
  ghost predicate Reads<T>(p: Parse<T>, value: Option<T>, rest: Bytes) {
    match p case Rejected => value == None case Parsed(x, r) => value == Some(x) && rest == r
  }

  ghost function Prefixed<T>(xs: seq<T>, p: Parse<seq<T>>): Parse<seq<T>> {
    match p case Rejected => Rejected case Parsed(ys, r) => Parsed(xs + ys, r)
  }

  /** A count followed by that many elements. */
  ghost function ReadCounted<T>(read: Bytes -> Parse<T>, s: Bytes): Parse<seq<T>> {
    match ReadU32(s) case Rejected => Rejected case Parsed(n, r) => ReadMany(n, read, r)
  }

  lemma {:induction false} PrefixedByNothing<T>(p: Parse<seq<T>>)
    ensures Prefixed([], p) == p
  {
    if p.Parsed? { assert [] + p.value == p.value; }
  }

  /** Reading one more element of n leaves one fewer to read. */
  lemma {:induction false} ReadOne<T>(n: nat, read: Bytes -> Parse<T>, xs: seq<T>, s: Bytes)
    requires n > 0
    ensures
      Prefixed(xs, ReadMany(n, read, s)) ==
        match read(s) case Rejected => Rejected case Parsed(x, r) => Prefixed(xs + [x], ReadMany(n - 1, read, r))
  {
    var p := read(s);
    if p.Parsed? {
      var q := ReadMany(n - 1, read, p.rest);
      if q.Parsed? { Assoc(xs, [p.value], q.value); }
    }
  }

  class Reader {
    var rest: Bytes

    constructor (data: Bytes)
      ensures rest == data
    {
      rest := data;
    }

    method ReadFull(n: nat) returns (b: Option<Bytes>)
      modifies this
      ensures Reads(ReadFixed(n, old(rest)), b, rest)
    {
      if |rest| < n { return None; }
      b := Some(rest[..n]);
      rest := rest[n..];
    }

    method U8() returns (x: Option<Byte>)
      modifies this
      ensures Reads(ReadU8(old(rest)), x, rest)
    {
      Powers();
      var b := ReadFull(1);
      return if b.None? then None else Some(Number(b.value));
    }

    method U16() returns (x: Option<U16>)
      modifies this
      ensures Reads(ReadU16(old(rest)), x, rest)
    {
      Powers();
      var b := ReadFull(2);
      return if b.None? then None else Some(Number(b.value));
    }

    method U32() returns (x: Option<U32>)
      modifies this
      ensures Reads(ReadU32(old(rest)), x, rest)
    {
      Powers();
      var b := ReadFull(4);
      return if b.None? then None else Some(Number(b.value));
    }

    method U64() returns (x: Option<U64>)
      modifies this
      ensures Reads(ReadU64(old(rest)), x, rest)
    {
      Powers();
      var b := ReadFull(8);
      return if b.None? then None else Some(Number(b.value));
    }

    method Bool() returns (x: Option<bool>)
      modifies this
      ensures Reads(ReadBool(old(rest)), x, rest)
    {
      var b := U8();
      return if b.None? then None else Some(b.value != 0);
    }

    method Bytes() returns (b: Option<Bytes>)
      modifies this
      ensures Reads(ReadBytes(old(rest)), b, rest)
    {
      var n := U32();
      if n.None? { return None; }
      b := ReadFull(n.value);
    }

    method String() returns (t: Option<Text>)
      modifies this
      ensures Reads(ReadText(old(rest)), t, rest)
    {
      var n := U16();
      if n.None? { return None; }
      var b := ReadFull(n.value);
      return if b.None? then None else Some(TextOf(b.value));
    }

    method OptionalU64() returns (x: Option<Option<U64>>)
      modifies this
      ensures Reads(ReadOptional(old(rest)), x, rest)
    {
      var present := Bool();
      if present.None? { return None; }
      if !present.value { return Some(None); }
      var v := U64();
      return if v.None? then None else Some(Some(v.value));
    }

    method RecordHeader(ghost read: Bytes -> Parse<Header>) returns (h: Option<Header>)
      requires Stands(read, ReadHeader)
      modifies this
      ensures Reads(read(old(rest)), h, rest)
    {
      assert read(rest) == ReadHeader(rest);
      var key := String();
      if key.None? { return None; }
      var value := Bytes();
      if value.None? { return None; }
      return Some(Header(key.value, value.value));
    }

    method Headers(ghost read: Bytes -> Parse<Header>) returns (hs: Option<seq<Header>>)
      requires Stands(read, ReadHeader)
      modifies this
      ensures
        match ReadU16(old(rest))
        case Rejected => hs == None
        case Parsed(n, r) => Reads(ReadMany(n, read, r), hs, rest)
    {
      var n := U16();
      if n.None? { return None; }
      var acc: seq<Header> := [];
      ghost var start := rest;
      PrefixedByNothing(ReadMany(n.value, read, start));
      for i := 0 to n.value
        invariant ReadMany(n.value, read, start) == Prefixed(acc, ReadMany(n.value - i, read, rest))
      {
        ReadOne(n.value - i, read, acc, rest);
        var h := RecordHeader(read);
        if h.None? { return None; }
        acc := acc + [h.value];
      }
      assert acc + [] == acc;
      return Some(acc);
    }

    method Control() returns (t: Option<Text>)
      modifies this
      ensures Reads(ReadControl(old(rest)), t, rest)
    {
      var code := U8();
      if code.None? { return None; }
      match code.value
      case 0 => return Some("");
      case 1 => return Some("commit");
      case 2 => return Some("abort");
      case _ => return None;
    }

    method TransactionMetadata() returns (t: Option<Option<Transaction>>)
      modifies this
      ensures Reads(ReadTransaction(old(rest)), t, rest)
    {
      var present := Bool();
      if present.None? { return None; }
      if !present.value { return Some(None); }
      var txID := U64();
      if txID.None? { return None; }
      var producer := U64();
      if producer.None? { return None; }
      var epoch := U64();
      if epoch.None? { return None; }
      var sequence := U64();
      if sequence.None? { return None; }
      var control := Control();
      if control.None? { return None; }
      return Some(Some(Transaction(txID.value, producer.value, epoch.value, sequence.value, control.value)));
    }

    method RecordAppend(ghost read: Bytes -> Parse<Message>) returns (m: Option<Message>)
      requires Stands(read, ReadMessage)
      modifies this
      ensures Reads(read(old(rest)), m, rest)
    {
      assert read(rest) == ReadMessage(rest);
      var timestampMS := OptionalU64();
      if timestampMS.None? { return None; }
      var expiresAtMS := OptionalU64();
      if expiresAtMS.None? { return None; }
      var key := Bytes();
      if key.None? { return None; }
      var headers := Headers(ReadHeader);
      if headers.None? { return None; }
      var attributes := U16();
      if attributes.None? { return None; }
      var transaction := TransactionMetadata();
      if transaction.None? { return None; }
      var payload := Bytes();
      if payload.None? { return None; }
      return Some(Message(timestampMS.value, expiresAtMS.value, key.value, headers.value, attributes.value,
                          transaction.value, payload.value));
    }

    method RecordAppends(ghost read: Bytes -> Parse<Message>) returns (ms: Option<seq<Message>>)
      requires Stands(read, ReadMessage)
      modifies this
      ensures Reads(ReadCounted(read, old(rest)), ms, rest)
    {
      var n := U32();
      if n.None? { return None; }
      var acc: seq<Message> := [];
      ghost var start := rest;
      PrefixedByNothing(ReadMany(n.value, read, start));
      for i := 0 to n.value
        invariant ReadMany(n.value, read, start) == Prefixed(acc, ReadMany(n.value - i, read, rest))
      {
        ReadOne(n.value - i, read, acc, rest);
        var m := RecordAppend(read);
        if m.None? { return None; }
        acc := acc + [m.value];
      }
      assert acc + [] == acc;
      return Some(acc);
    }

    method PublishPartitioning() returns (p: Option<Partitioning>)
      modifies this
      ensures Reads(ReadPartitioning(old(rest)), p, rest)
    {
      var mode := U8();
      if mode.None? { return None; }
      var partition := U32();
      if partition.None? { return None; }
      var m := ModeOf(mode.value);
      return if m.None? then None else Some(Partitioning(m.value, partition.value, ""));
    }

    method Idempotency() returns (id: Option<Option<Id>>)
      modifies this
      ensures Reads(ReadId(old(rest)), id, rest)
    {
      var present := Bool();
      if present.None? { return None; }
      if !present.value { return Some(None); }
      var producer := U64();
      if producer.None? { return None; }
      var epoch := U64();
      if epoch.None? { return None; }
      var base := U64();
      if base.None? { return None; }
      return Some(Some(Id(producer.value, epoch.value, base.value)));
    }

    method ProduceBatch(ghost read: Bytes -> Parse<Request>) returns (r: Option<Request>)
      requires Stands(read, ReadRequest)
      modifies this
      ensures Reads(read(old(rest)), r, rest)
    {
      assert read(rest) == ReadRequest(rest);
      var topic := String();
      if topic.None? { return None; }
      var partitioning := PublishPartitioning();
      if partitioning.None? { return None; }
      var id := Idempotency();
      if id.None? { return None; }
      var messages := RecordAppends(ReadMessage);
      if messages.None? { return None; }
      return Some(Request(topic.value, partitioning.value, id.value, messages.value));
    }

    method ProduceBatches(ghost read: Bytes -> Parse<Request>) returns (rs: Option<seq<Request>>)
      requires Stands(read, ReadRequest)
      modifies this
      ensures Reads(ReadCounted(read, old(rest)), rs, rest)
    {
      var n := U32();
      if n.None? { return None; }
      var acc: seq<Request> := [];
      ghost var start := rest;
      PrefixedByNothing(ReadMany(n.value, read, start));
      for i := 0 to n.value
        invariant ReadMany(n.value, read, start) == Prefixed(acc, ReadMany(n.value - i, read, rest))
      {
        ReadOne(n.value - i, read, acc, rest);
        var r := ProduceBatch(read);
        if r.None? { return None; }
        acc := acc + [r.value];
      }
      assert acc + [] == acc;
      return Some(acc);
    }

    method CommitOffset(ghost read: Bytes -> Parse<Commit>) returns (c: Option<Commit>)
      requires Stands(read, ReadCommit)
      modifies this
      ensures Reads(read(old(rest)), c, rest)
    {
      assert read(rest) == ReadCommit(rest);
      var consumer := String();
      if consumer.None? { return None; }
      var topic := String();
      if topic.None? { return None; }
      var partition := U32();
      if partition.None? { return None; }
      var nextOffset := U64();
      if nextOffset.None? { return None; }
      var ackOffset := OptionalU64();
      if ackOffset.None? { return None; }
      var updatedAtMS := U64();
      if updatedAtMS.None? { return None; }
      var metadata := String();
      if metadata.None? { return None; }
      return Some(Commit(consumer.value, topic.value, partition.value, nextOffset.value, ackOffset.value,
                         updatedAtMS.value, metadata.value));
    }

    method Commits(ghost read: Bytes -> Parse<Commit>) returns (cs: Option<seq<Commit>>)
      requires Stands(read, ReadCommit)
      modifies this
      ensures Reads(ReadCounted(read, old(rest)), cs, rest)
    {
      var n := U32();
      if n.None? { return None; }
      var acc: seq<Commit> := [];
      ghost var start := rest;
      PrefixedByNothing(ReadMany(n.value, read, start));
      for i := 0 to n.value
        invariant ReadMany(n.value, read, start) == Prefixed(acc, ReadMany(n.value - i, read, rest))
      {
        ReadOne(n.value - i, read, acc, rest);
        var c := CommitOffset(read);
        if c.None? { return None; }
        acc := acc + [c.value];
      }
      assert acc + [] == acc;
      return Some(acc);
    }
  }

  method DecodeCommand(data: Bytes) returns (d: Decoding)
    ensures d == Decode(data)
  {
    if !IsBinary(data) { return NotBinary; }
    var envelope := new Reader(data);
    var magic := envelope.U32();
    var id := envelope.U8();
    if id.None? { return Invalid; }
    assert data[4..][..1] == [data[4]] && Number([data[4]]) == data[4];
    var reader := new Reader(data[5..]);
    if id.value == 1 {
      var rs := reader.ProduceBatches(ReadRequest);
      return if rs.Some? && reader.rest == [] then Decoded(Produce(rs.value)) else Invalid;
    } else if id.value == 2 {
      var cs := reader.Commits(ReadCommit);
      return if cs.Some? && reader.rest == [] then Decoded(CommitOffsets(cs.value)) else Invalid;
    } else {
      return Invalid;
    }
  }
}
