/** Decoding an encoded Raft command gives the command back, and nothing longer or shorter is accepted for it. */
module RoundTrips {
  import opened Basics
  import opened Messages
  import opened Codec

  // ---- Each part comes back ----

  lemma {:induction false} HeaderBack(h: Header, q: Bytes)
    requires HeaderFits(h)
    ensures ReadHeader(PutHeader(h) + q) == Parsed(h, q)
  {
    Assoc(PutText(h.key), PutBytes(h.value), q);
    TextBack(h.key, PutBytes(h.value) + q);
    BytesBack(h.value, q);
  }

  lemma {:induction false} HeadersBack(hs: seq<Header>, q: Bytes)
    requires |hs| <= MaxU16 && forall h :: h in hs ==> HeaderFits(h)
    ensures ReadHeaders(PutHeaders(hs) + q) == Parsed(hs, q)
  {
    Assoc(BigEndian(2, |hs|), PutMany(hs, PutHeader), q);
    U16Back(|hs|, PutMany(hs, PutHeader) + q);
    forall h | h in hs ensures Back(h, h, PutHeader, ReadHeader) {
      forall r ensures ReadHeader(PutHeader(h) + r) == Parsed(h, r) { HeaderBack(h, r); }
    }
    ManyBack(hs, PutHeader, ReadHeader, (h: Header) => h, q);
    assert All(hs, (h: Header) => h) == hs;
  }

  lemma {:induction false} ControlBack(control: Text, q: Bytes)
    ensures ReadControl(BigEndian(1, ControlCode(control)) + q)
         == Parsed(if control == "commit" || control == "abort" then control else "", q)
  {
    U8Back(ControlCode(control), q);
  }

  lemma {:induction false} TransactionBack(t: Option<Transaction>, q: Bytes)
    ensures ReadTransaction(PutTransaction(t) + q) == Parsed(CanonicalTransaction(t), q)
  {
    match t
    case None => BoolBack(false, q);
    case Some(x) =>
      var a, b, c, d, e := BigEndian(8, x.txID), BigEndian(8, x.producer), BigEndian(8, x.epoch),
                           BigEndian(8, x.sequence), BigEndian(1, ControlCode(x.control));
      var t := PutBool(true);
      Assoc(t + a + b + c + d, e, q);
      Assoc(t + a + b + c, d, e + q);
      Assoc(t + a + b, c, d + (e + q));
      Assoc(t + a, b, c + (d + (e + q)));
      Assoc(t, a, b + (c + (d + (e + q))));
      BoolBack(true, a + (b + (c + (d + (e + q)))));
      U64Back(x.txID, b + (c + (d + (e + q))));
      U64Back(x.producer, c + (d + (e + q)));
      U64Back(x.epoch, d + (e + q));
      U64Back(x.sequence, e + q);
      ControlBack(x.control, q);
  }

  lemma {:induction false} MessageBack(m: Message, q: Bytes)
    requires MessageFits(m)
    ensures ReadMessage(PutMessage(m) + q) == Parsed(CanonicalMessage(m), q)
  {
    var a, b, c, d := PutOptional(m.timestampMS), PutOptional(m.expiresAtMS), PutBytes(m.key), PutHeaders(m.headers);
    var e, f, g := BigEndian(2, m.attributes), PutTransaction(m.transaction), PutBytes(m.payload);
    SevenParts(a, b, c, d, e, f, g, q);
    OptionalBack(m.timestampMS, b + (c + (d + (e + (f + (g + q))))));
    OptionalBack(m.expiresAtMS, c + (d + (e + (f + (g + q)))));
    BytesBack(m.key, d + (e + (f + (g + q))));
    HeadersBack(m.headers, e + (f + (g + q)));
    U16Back(m.attributes, f + (g + q));
    TransactionBack(m.transaction, g + q);
    BytesBack(m.payload, q);
  }

  lemma {:induction false} SevenParts(a: Bytes, b: Bytes, c: Bytes, d: Bytes, e: Bytes, f: Bytes, g: Bytes, q: Bytes)
    ensures a + b + c + d + e + f + g + q == a + (b + (c + (d + (e + (f + (g + q))))))
  {
    Assoc(a + b + c + d + e + f, g, q);
    Assoc(a + b + c + d + e, f, g + q);
    Assoc(a + b + c + d, e, f + (g + q));
    Assoc(a + b + c, d, e + (f + (g + q)));
    Assoc(a + b, c, d + (e + (f + (g + q))));
    Assoc(a, b, c + (d + (e + (f + (g + q)))));
  }

  lemma {:induction false} MessagesBack(ms: seq<Message>, q: Bytes)
    requires |ms| <= MaxU32 && forall m :: m in ms ==> MessageFits(m)
    ensures ReadMessages(PutMessages(ms) + q) == Parsed(All(ms, CanonicalMessage), q)
  {
    Assoc(BigEndian(4, |ms|), PutMany(ms, PutMessage), q);
    U32Back(|ms|, PutMany(ms, PutMessage) + q);
    forall m | m in ms ensures Back(m, CanonicalMessage(m), PutMessage, ReadMessage) {
      forall r ensures ReadMessage(PutMessage(m) + r) == Parsed(CanonicalMessage(m), r) { MessageBack(m, r); }
    }
    ManyBack(ms, PutMessage, ReadMessage, CanonicalMessage, q);
  }

  lemma {:induction false} ModeBack(mode: Text)
    ensures ModeOf(ModeCode(mode)) == Some(if ModeCode(mode) != 0 then mode else "")
  {
  }

  lemma {:induction false} PartitioningBack(p: Partitioning, q: Bytes)
    ensures ReadPartitioning(PutPartitioning(p) + q) == Parsed(CanonicalPartitioning(p), q)
  {
    Assoc(BigEndian(1, ModeCode(p.mode)), BigEndian(4, p.partition), q);
    ModeBack(p.mode);
    U8Back(ModeCode(p.mode), BigEndian(4, p.partition) + q);
    U32Back(p.partition, q);
  }

  lemma {:induction false} IdBack(id: Option<Id>, q: Bytes)
    ensures ReadId(PutId(id) + q) == Parsed(id, q)
  {
    match id
    case None => BoolBack(false, q);
    case Some(x) =>
      var t, a, b, c := PutBool(true), BigEndian(8, x.producer), BigEndian(8, x.epoch), BigEndian(8, x.base);
      Assoc(t + a + b, c, q);
      Assoc(t + a, b, c + q);
      Assoc(t, a, b + (c + q));
      BoolBack(true, a + (b + (c + q)));
      U64Back(x.producer, b + (c + q));
      U64Back(x.epoch, c + q);
      U64Back(x.base, q);
  }

  lemma {:induction false} RequestBack(r: Request, q: Bytes)
    requires RequestFits(r)
    ensures ReadRequest(PutRequest(r) + q) == Parsed(CanonicalRequest(r), q)
  {
    var a, b, c, d := PutText(r.topic), PutPartitioning(r.partitioning), PutId(r.idempotency), PutMessages(r.messages);
    Assoc(a + b + c, d, q);
    Assoc(a + b, c, d + q);
    Assoc(a, b, c + (d + q));
    TextBack(r.topic, b + (c + (d + q)));
    PartitioningBack(r.partitioning, c + (d + q));
    IdBack(r.idempotency, d + q);
    MessagesBack(r.messages, q);
  }

  lemma {:induction false} RequestsBack(rs: seq<Request>, q: Bytes)
    requires RequestsFit(rs)
    ensures ReadRequests(PutRequests(rs) + q) == Parsed(All(rs, CanonicalRequest), q)
  {
    Assoc(BigEndian(4, |rs|), PutMany(rs, PutRequest), q);
    U32Back(|rs|, PutMany(rs, PutRequest) + q);
    forall x | x in rs ensures Back(x, CanonicalRequest(x), PutRequest, ReadRequest) {
      forall r ensures ReadRequest(PutRequest(x) + r) == Parsed(CanonicalRequest(x), r) { RequestBack(x, r); }
    }
    ManyBack(rs, PutRequest, ReadRequest, CanonicalRequest, q);
  }

  lemma {:induction false} CommitBack(c: Commit, q: Bytes)
    requires CommitFits(c)
    ensures ReadCommit(PutCommit(c) + q) == Parsed(c, q)
  {
    var a, b, p, n := PutText(c.consumer), PutText(c.topic), BigEndian(4, c.partition), BigEndian(8, c.nextOffset);
    var k, u, m := PutOptional(c.ackOffset), BigEndian(8, c.updatedAtMS), PutText(c.metadata);
    SevenParts(a, b, p, n, k, u, m, q);
    TextBack(c.consumer, b + (p + (n + (k + (u + (m + q))))));
    TextBack(c.topic, p + (n + (k + (u + (m + q)))));
    U32Back(c.partition, n + (k + (u + (m + q))));
    U64Back(c.nextOffset, k + (u + (m + q)));
    OptionalBack(c.ackOffset, u + (m + q));
    U64Back(c.updatedAtMS, m + q);
    TextBack(c.metadata, q);
  }

  lemma {:induction false} CommitsBack(cs: seq<Commit>, q: Bytes)
    requires CommitsFit(cs)
    ensures ReadCommits(PutCommits(cs) + q) == Parsed(cs, q)
  {
    Assoc(BigEndian(4, |cs|), PutMany(cs, PutCommit), q);
    U32Back(|cs|, PutMany(cs, PutCommit) + q);
    forall c | c in cs ensures Back(c, c, PutCommit, ReadCommit) {
      forall r ensures ReadCommit(PutCommit(c) + r) == Parsed(c, r) { CommitBack(c, r); }
    }
    ManyBack(cs, PutCommit, ReadCommit, (c: Commit) => c, q);
    assert All(cs, (c: Commit) => c) == cs;
  }

  // ---- Reading looks only at what it consumes ----

  /** Whatever follows, a successful read gives the same value and leaves what follows untouched. */
  ghost predicate LocalAt<T>(read: Bytes -> Parse<T>, s: Bytes, q: Bytes) {
    read(s).Parsed? ==> read(s + q) == Parsed(read(s).value, read(s).rest + q)
  }

  lemma {:induction false} NumberLocal(n: nat, s: Bytes, q: Bytes)
    requires n <= |s|
    ensures ReadNumber(n, s + q) == Parsed(Number(s[..n]), s[n..] + q)
  {
    assert (s + q)[..n] == s[..n] && (s + q)[n..] == s[n..] + q;
  }

  lemma {:induction false} SimpleLocal(s: Bytes, q: Bytes)
    ensures LocalAt(ReadU8, s, q) && LocalAt(ReadU16, s, q) && LocalAt(ReadU32, s, q) && LocalAt(ReadU64, s, q)
    ensures LocalAt(ReadBool, s, q)
  {
    Powers();
    if |s| >= 1 { NumberLocal(1, s, q); }
    if |s| >= 2 { NumberLocal(2, s, q); }
    if |s| >= 4 { NumberLocal(4, s, q); }
    if |s| >= 8 { NumberLocal(8, s, q); }
  }

  lemma {:induction false} FixedLocal(n: nat, s: Bytes, q: Bytes)
    requires n <= |s|
    ensures ReadFixed(n, s + q) == Parsed(s[..n], s[n..] + q)
  {
    assert (s + q)[..n] == s[..n] && (s + q)[n..] == s[n..] + q;
  }

  lemma {:induction false} BytesLocal(s: Bytes, q: Bytes)
    ensures LocalAt(ReadBytes, s, q) && LocalAt(ReadText, s, q)
  {
    SimpleLocal(s, q);
    var n, k := ReadU32(s), ReadU16(s);
    if n.Parsed? && n.value <= |n.rest| { FixedLocal(n.value, n.rest, q); }
    if k.Parsed? && k.value <= |k.rest| { FixedLocal(k.value, k.rest, q); }
  }

  lemma {:induction false} OptionalLocal(s: Bytes, q: Bytes)
    ensures LocalAt(ReadOptional, s, q)
  {
    SimpleLocal(s, q);
    var b := ReadBool(s);
    if b.Parsed? { SimpleLocal(b.rest, q); }
  }

  lemma {:induction false} ManyLocal<T(!new)>(n: nat, read: Bytes -> Parse<T>, s: Bytes, q: Bytes)
    requires forall r :: LocalAt(read, r, q)
    ensures ReadMany(n, read, s).Parsed? ==>
              ReadMany(n, read, s + q) == Parsed(ReadMany(n, read, s).value, ReadMany(n, read, s).rest + q)
  {
    if n > 0 && read(s).Parsed? {
      assert LocalAt(read, s, q);
      ManyLocal(n - 1, read, read(s).rest, q);
    }
  }

  lemma {:induction false} HeadersLocal(s: Bytes, q: Bytes)
    ensures LocalAt(ReadHeaders, s, q)
  {
    SimpleLocal(s, q);
    forall r ensures LocalAt(ReadHeader, r, q) {
      BytesLocal(r, q);
      if ReadText(r).Parsed? { BytesLocal(ReadText(r).rest, q); }
    }
    var n := ReadU16(s);
    if n.Parsed? { ManyLocal(n.value, ReadHeader, n.rest, q); }
  }

  lemma {:induction false} ControlLocal(s: Bytes, q: Bytes)
    ensures LocalAt(ReadControl, s, q)
  {
    SimpleLocal(s, q);
  }

  lemma {:induction false} TransactionLocal(s: Bytes, q: Bytes)
    ensures LocalAt(ReadTransaction, s, q)
  {
    if ReadTransaction(s).Parsed? {
      SimpleLocal(s, q);
      if ReadBool(s).value {
        var a := ReadBool(s).rest;
        SimpleLocal(a, q);
        var b := ReadU64(a).rest;
        SimpleLocal(b, q);
        var c := ReadU64(b).rest;
        SimpleLocal(c, q);
        var d := ReadU64(c).rest;
        SimpleLocal(d, q);
        ControlLocal(ReadU64(d).rest, q);
      }
    }
  }

  lemma {:induction false} MessageLocal(s: Bytes, q: Bytes)
    ensures LocalAt(ReadMessage, s, q)
  {
    if ReadMessage(s).Parsed? {
      OptionalLocal(s, q);
      var a := ReadOptional(s).rest;
      OptionalLocal(a, q);
      var b := ReadOptional(a).rest;
      BytesLocal(b, q);
      var c := ReadBytes(b).rest;
      HeadersLocal(c, q);
      var d := ReadHeaders(c).rest;
      SimpleLocal(d, q);
      var e := ReadU16(d).rest;
      TransactionLocal(e, q);
      BytesLocal(ReadTransaction(e).rest, q);
    }
  }

  lemma {:induction false} MessagesLocal(s: Bytes, q: Bytes)
    ensures LocalAt(ReadMessages, s, q)
  {
    SimpleLocal(s, q);
    forall r ensures LocalAt(ReadMessage, r, q) { MessageLocal(r, q); }
    var n := ReadU32(s);
    if n.Parsed? { ManyLocal(n.value, ReadMessage, n.rest, q); }
  }

  lemma {:induction false} PartitioningLocal(s: Bytes, q: Bytes)
    ensures LocalAt(ReadPartitioning, s, q)
  {
    SimpleLocal(s, q);
    if ReadU8(s).Parsed? { SimpleLocal(ReadU8(s).rest, q); }
  }

  lemma {:induction false} IdLocal(s: Bytes, q: Bytes)
    ensures LocalAt(ReadId, s, q)
  {
    if ReadId(s).Parsed? {
      SimpleLocal(s, q);
      if ReadBool(s).value {
        var a := ReadBool(s).rest;
        SimpleLocal(a, q);
        var b := ReadU64(a).rest;
        SimpleLocal(b, q);
        SimpleLocal(ReadU64(b).rest, q);
      }
    }
  }

  lemma {:induction false} RequestLocal(s: Bytes, q: Bytes)
    ensures LocalAt(ReadRequest, s, q)
  {
    if ReadRequest(s).Parsed? {
      BytesLocal(s, q);
      var a := ReadText(s).rest;
      PartitioningLocal(a, q);
      var b := ReadPartitioning(a).rest;
      IdLocal(b, q);
      MessagesLocal(ReadId(b).rest, q);
    }
  }

  lemma {:induction false} RequestsLocal(s: Bytes, q: Bytes)
    ensures LocalAt(ReadRequests, s, q)
  {
    SimpleLocal(s, q);
    forall r ensures LocalAt(ReadRequest, r, q) { RequestLocal(r, q); }
    var n := ReadU32(s);
    if n.Parsed? { ManyLocal(n.value, ReadRequest, n.rest, q); }
  }

  lemma {:induction false} CommitLocal(s: Bytes, q: Bytes)
    ensures LocalAt(ReadCommit, s, q)
  {
    if ReadCommit(s).Parsed? {
      BytesLocal(s, q);
      var a := ReadText(s).rest;
      BytesLocal(a, q);
      var b := ReadText(a).rest;
      SimpleLocal(b, q);
      var c := ReadU32(b).rest;
      SimpleLocal(c, q);
      var d := ReadU64(c).rest;
      OptionalLocal(d, q);
      var e := ReadOptional(d).rest;
      SimpleLocal(e, q);
      BytesLocal(ReadU64(e).rest, q);
    }
  }

  lemma {:induction false} CommitsLocal(s: Bytes, q: Bytes)
    ensures LocalAt(ReadCommits, s, q)
  {
    SimpleLocal(s, q);
    forall r ensures LocalAt(ReadCommit, r, q) { CommitLocal(r, q); }
    var n := ReadU32(s);
    if n.Parsed? { ManyLocal(n.value, ReadCommit, n.rest, q); }
  }

  // ---- Commands ----

  datatype Command = Produce(requests: seq<Request>) | CommitOffsets(commits: seq<Commit>)

  const Magic: U32 := 0x4552_3031

  predicate Fits(c: Command) {
    match c case Produce(rs) => RequestsFit(rs) case CommitOffsets(cs) => CommitsFit(cs)
  }

  function Body(c: Command): Bytes {
    match c case Produce(rs) => PutRequests(rs) case CommitOffsets(cs) => PutCommits(cs)
  }

  function CommandID(c: Command): Byte {
    match c case Produce(_) => 1 case CommitOffsets(_) => 2
  }

  /** Fails exactly when a length does not fit its prefix. */
  function Encode(c: Command): Option<Bytes> {
    if Fits(c) then Some(BigEndian(4, Magic) + BigEndian(1, CommandID(c)) + Body(c)) else None
  }

  datatype Decoding = NotBinary | Invalid | Decoded(command: Command)

  predicate IsBinary(data: Bytes) {
    |data| >= 4 && Number(data[..4]) == Magic
  }

  /** A body is accepted only when every byte of it has been read. */
  function DecodeProduce(body: Bytes): Decoding {
    var p := ReadRequests(body);
    if p.Parsed? && p.rest == [] then Decoded(Produce(p.value)) else Invalid
  }

  function DecodeCommits(body: Bytes): Decoding {
    var p := ReadCommits(body);
    if p.Parsed? && p.rest == [] then Decoded(CommitOffsets(p.value)) else Invalid
  }

  function DecodeBody(id: Byte, body: Bytes): Decoding {
    if id == 1 then DecodeProduce(body) else if id == 2 then DecodeCommits(body) else Invalid
  }

  function Decode(data: Bytes): Decoding {
    if !IsBinary(data) then NotBinary
    else if |data| < 5 then Invalid
    else DecodeBody(data[4], data[5..])
  }

  function Canonical(c: Command): Command {
    match c case Produce(rs) => Produce(All(rs, CanonicalRequest)) case CommitOffsets(cs) => c
  }

  lemma {:induction false} EnvelopeBack(id: Byte, body: Bytes)
    ensures
      var data := BigEndian(4, Magic) + BigEndian(1, id) + body;
      IsBinary(data) && data[4] == id && data[5..] == body
  {
    var data := BigEndian(4, Magic) + BigEndian(1, id) + body;
    Powers();
    NumberOfBigEndian(4, Magic);
    assert data[..4] == BigEndian(4, Magic);
    assert data[4] == BigEndian(1, id)[0] == id % 256;
  }

  lemma {:induction false} BodyBack(c: Command, q: Bytes)
    requires Fits(c)
    ensures DecodeBody(CommandID(c), Body(c) + q) == (if q == [] then Decoded(Canonical(c)) else Invalid)
  {
    match c
    case Produce(rs) => RequestsBack(rs, q);
    case CommitOffsets(cs) => CommitsBack(cs, q);
  }

  /**
   * Whatever is encoded decodes to itself up to what the format cannot carry, and with any bytes appended it is
   * rejected.
   */
  lemma {:induction false} RoundTrip(c: Command, q: Bytes)
    requires Encode(c).Some?
    ensures Decode(Encode(c).value + q) == (if q == [] then Decoded(Canonical(c)) else Invalid)
  {
    var header := BigEndian(4, Magic) + BigEndian(1, CommandID(c));
    Assoc(header, Body(c), q);
    EnvelopeBack(CommandID(c), Body(c) + q);
    BodyBack(c, q);
  }

  predicate KnownMode(mode: Text) {
    mode in {"", Explicit, RoundRobin, KeyHash, RoutingKeyHash}
  }

  predicate KnownControls(m: Message) {
    m.transaction.Some? ==> m.transaction.value.control in {"", "commit", "abort"}
  }

  predicate Portable(r: Request) {
    && KnownMode(r.partitioning.mode) && r.partitioning.routingKey == ""
    && forall m :: m in r.messages ==> KnownControls(m)
  }

  lemma {:induction false} RequestKeptExactlyWhen(r: Request)
    ensures CanonicalRequest(r) == r <==> Portable(r)
  {
    var ms := All(r.messages, CanonicalMessage);
    if Portable(r) {
      forall i | 0 <= i < |ms| ensures ms[i] == r.messages[i] {
        assert r.messages[i] in r.messages;
      }
    }
    if CanonicalRequest(r) == r {
      forall m | m in r.messages ensures KnownControls(m) {
        var i :| 0 <= i < |r.messages| && r.messages[i] == m;
        assert ms[i] == CanonicalMessage(m) && ms == r.messages;
      }
    }
  }

  lemma {:induction false} RequestsKeptExactlyWhen(rs: seq<Request>)
    ensures All(rs, CanonicalRequest) == rs <==> forall r :: r in rs ==> Portable(r)
  {
    var kept := All(rs, CanonicalRequest);
    forall r | r in rs ensures CanonicalRequest(r) == r <==> Portable(r) { RequestKeptExactlyWhen(r); }
    if kept == rs {
      forall r | r in rs ensures Portable(r) {
        var i :| 0 <= i < |rs| && rs[i] == r;
        assert kept[i] == CanonicalRequest(r);
      }
    }
  }

  /**
   * A produce command survives unchanged if and only if it has no routing key left and only known modes and controls.
   */
  lemma {:induction false} ProduceKeptExactlyWhen(rs: seq<Request>)
    requires RequestsFit(rs)
    ensures Decode(Encode(Produce(rs)).value) == Decoded(Produce(rs)) <==> forall r :: r in rs ==> Portable(r)
  {
    var data := Encode(Produce(rs)).value;
    RoundTrip(Produce(rs), []);
    assert data + [] == data;
    RequestsKeptExactlyWhen(rs);
  }

  /** A commit command always survives unchanged. */
  lemma {:induction false} CommitsKept(cs: seq<Commit>)
    requires CommitsFit(cs)
    ensures Decode(Encode(CommitOffsets(cs)).value) == Decoded(CommitOffsets(cs))
  {
    var data := Encode(CommitOffsets(cs)).value;
    RoundTrip(CommitOffsets(cs), []);
    assert data + [] == data;
  }

  lemma {:induction false} ProducePrefixRejected(body: Bytes, n: nat)
    requires DecodeProduce(body).Decoded? && n < |body|
    ensures DecodeProduce(body[..n]) == Invalid
  {
    assert body == body[..n] + body[n..];
    RequestsLocal(body[..n], body[n..]);
  }

  lemma {:induction false} CommitsPrefixRejected(body: Bytes, n: nat)
    requires DecodeCommits(body).Decoded? && n < |body|
    ensures DecodeCommits(body[..n]) == Invalid
  {
    assert body == body[..n] + body[n..];
    CommitsLocal(body[..n], body[n..]);
  }

  lemma {:induction false} BodyPrefixRejected(id: Byte, body: Bytes, n: nat)
    requires DecodeBody(id, body).Decoded? && n < |body|
    ensures DecodeBody(id, body[..n]) == Invalid
  {
    if id == 1 { ProducePrefixRejected(body, n); } else { CommitsPrefixRejected(body, n); }
  }

  lemma {:induction false} DataPrefixRejected(id: Byte, body: Bytes, n: nat)
    requires DecodeBody(id, body).Decoded? && n < 5 + |body|
    ensures !Decode((BigEndian(4, Magic) + BigEndian(1, id) + body)[..n]).Decoded?
  {
    var data := BigEndian(4, Magic) + BigEndian(1, id) + body;
    EnvelopeBack(id, body);
    if n >= 5 {
      assert data[..n][5..] == body[..n - 5] && data[..n][4] == id;
      BodyPrefixRejected(id, body, n - 5);
    }
  }

  /** No proper prefix of an encoded command decodes to anything. */
  lemma {:induction false} PrefixRejected(c: Command, n: nat)
    requires Encode(c).Some? && n < |Encode(c).value|
    ensures !Decode(Encode(c).value[..n]).Decoded?
  {
    var body := Body(c);
    BodyBack(c, []);
    assert body + [] == body;
    DataPrefixRejected(CommandID(c), body, n);
  }

  /** Encoding is injective up to what the format cannot carry. */
  lemma {:induction false} EncodeInjective(c: Command, d: Command)
    requires Encode(c).Some? && Encode(c) == Encode(d)
    ensures Canonical(c) == Canonical(d)
  {
    RoundTrip(c, []);
    RoundTrip(d, []);
  }
}
