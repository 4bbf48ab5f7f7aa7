/** The binary form of the coalesced Raft commands: what the writer emits and what the reader accepts. */
module Codec {
  import opened Basics
  import opened Messages

  const MaxU16: nat := 0xFFFF

  // ---- Big-endian numbers ----

  function Power(n: nat): (p: nat)
    ensures p >= 1
  {
    if n == 0 then 1 else 256 * Power(n - 1)
  }

  /** The n low bytes of x, the most significant one first. */
  function BigEndian(n: nat, x: nat): (bytes: Bytes)
    ensures |bytes| == n
  {
    if n == 0 then [] else BigEndian(n - 1, x / 256) + [x % 256]
  }

  function Number(bytes: Bytes): (x: nat)
    ensures x < Power(|bytes|)
  {
    if bytes == [] then 0 else 256 * Number(bytes[..|bytes| - 1]) + bytes[|bytes| - 1]
  }

  lemma {:induction false} NumberOfBigEndian(n: nat, x: nat)
    requires x < Power(n)
    ensures Number(BigEndian(n, x)) == x
  {
    if n > 0 {
      NumberOfBigEndian(n - 1, x / 256);
      assert BigEndian(n, x)[..n - 1] == BigEndian(n - 1, x / 256);
    }
  }

  lemma {:induction false} Powers()
    ensures Power(1) == 0x100 && Power(2) == 0x1_0000 && Power(4) == 0x1_0000_0000
    ensures Power(8) == 0x1_0000_0000_0000_0000
  {
    assert Power(2) == 256 * Power(1) && Power(3) == 256 * Power(2) && Power(4) == 256 * Power(3);
    assert Power(5) == 256 * Power(4) && Power(6) == 256 * Power(5) && Power(7) == 256 * Power(6);
  }

  // ---- Reading: a value and the bytes left over, or failure ----

  datatype Parse<+T> = Parsed(value: T, rest: Bytes) | Rejected {
    predicate IsFailure() { Rejected? }
    function PropagateFailure<U>(): Parse<U> requires IsFailure() { Rejected }
    function Extract(): (T, Bytes) requires !IsFailure() { (value, rest) }
  }

  function ReadNumber(n: nat, s: Bytes): Parse<nat> {
    if |s| < n then Rejected else Parsed(Number(s[..n]), s[n..])
  }

  function ReadU8(s: Bytes): Parse<Byte> {
    Powers();
    var (x, r) :- ReadNumber(1, s);
    Parsed(x, r)
  }

  function ReadU16(s: Bytes): Parse<U16> {
    Powers();
    var (x, r) :- ReadNumber(2, s);
    Parsed(x, r)
  }

  function ReadU32(s: Bytes): Parse<U32> {
    Powers();
    var (x, r) :- ReadNumber(4, s);
    Parsed(x, r)
  }

  function ReadU64(s: Bytes): Parse<U64> {
    Powers();
    var (x, r) :- ReadNumber(8, s);
    Parsed(x, r)
  }

  function ReadBool(s: Bytes): Parse<bool> {
    var (x, r) :- ReadU8(s);
    Parsed(x != 0, r)
  }

  function ReadFixed(n: nat, s: Bytes): Parse<Bytes> {
    if |s| < n then Rejected else Parsed(s[..n], s[n..])
  }

  function ReadBytes(s: Bytes): Parse<Bytes> {
    var (n, r) :- ReadU32(s);
    ReadFixed(n, r)
  }

  function ReadText(s: Bytes): Parse<Text> {
    var (n, r) :- ReadU16(s);
    var (b, r) :- ReadFixed(n, r);
    Parsed(TextOf(b), r)
  }

  function ReadOptional(s: Bytes): Parse<Option<U64>> {
    var (present, r) :- ReadBool(s);
    if !present then Parsed(None, r)
    else
      var (x, r) :- ReadU64(r);
      Parsed(Some(x), r)
  }

  /** n values read one after the other. */
  function ReadMany<T>(n: nat, read: Bytes -> Parse<T>, s: Bytes): Parse<seq<T>> {
    if n == 0 then Parsed([], s)
    else
      var (x, r) :- read(s);
      var (xs, r) :- ReadMany(n - 1, read, r);
      Parsed([x] + xs, r)
  }

  function ReadHeader(s: Bytes): Parse<Header> {
    var (key, r) :- ReadText(s);
    var (value, r) :- ReadBytes(r);
    Parsed(Header(key, value), r)
  }

  function ReadHeaders(s: Bytes): Parse<seq<Header>> {
    var (n, r) :- ReadU16(s);
    ReadMany(n, ReadHeader, r)
  }

  function ReadControl(s: Bytes): Parse<Text> {
    var (code, r) :- ReadU8(s);
    if code == 0 then Parsed("", r)
    else if code == 1 then Parsed("commit", r)
    else if code == 2 then Parsed("abort", r)
    else Rejected
  }

  function ReadTransaction(s: Bytes): Parse<Option<Transaction>> {
    var (present, r) :- ReadBool(s);
    if !present then Parsed(None, r)
    else
      var (txID, r) :- ReadU64(r);
      var (producer, r) :- ReadU64(r);
      var (epoch, r) :- ReadU64(r);
      var (sequence, r) :- ReadU64(r);
      var (control, r) :- ReadControl(r);
      Parsed(Some(Transaction(txID, producer, epoch, sequence, control)), r)
  }

  function ReadMessage(s: Bytes): Parse<Message> {
    var (timestampMS, r) :- ReadOptional(s);
    var (expiresAtMS, r) :- ReadOptional(r);
    var (key, r) :- ReadBytes(r);
    var (headers, r) :- ReadHeaders(r);
    var (attributes, r) :- ReadU16(r);
    var (transaction, r) :- ReadTransaction(r);
    var (payload, r) :- ReadBytes(r);
    Parsed(Message(timestampMS, expiresAtMS, key, headers, attributes, transaction, payload), r)
  }

  function ReadMessages(s: Bytes): Parse<seq<Message>> {
    var (n, r) :- ReadU32(s);
    ReadMany(n, ReadMessage, r)
  }

  function ModeOf(code: Byte): Option<Text> {
    if code == 0 then Some("")
    else if code == 1 then Some(Explicit)
    else if code == 2 then Some(RoundRobin)
    else if code == 3 then Some(KeyHash)
    else if code == 4 then Some(RoutingKeyHash)
    else None
  }

  function ReadPartitioning(s: Bytes): Parse<Partitioning> {
    var (mode, r) :- ReadU8(s);
    var (partition, r) :- ReadU32(r);
    match ModeOf(mode) case None => Rejected case Some(m) => Parsed(Partitioning(m, partition, ""), r)
  }

  function ReadId(s: Bytes): Parse<Option<Id>> {
    var (present, r) :- ReadBool(s);
    if !present then Parsed(None, r)
    else
      var (producer, r) :- ReadU64(r);
      var (epoch, r) :- ReadU64(r);
      var (base, r) :- ReadU64(r);
      Parsed(Some(Id(producer, epoch, base)), r)
  }

  function ReadRequest(s: Bytes): Parse<Request> {
    var (topic, r) :- ReadText(s);
    var (partitioning, r) :- ReadPartitioning(r);
    var (id, r) :- ReadId(r);
    var (messages, r) :- ReadMessages(r);
    Parsed(Request(topic, partitioning, id, messages), r)
  }

  function ReadRequests(s: Bytes): Parse<seq<Request>> {
    var (n, r) :- ReadU32(s);
    ReadMany(n, ReadRequest, r)
  }

  /** A consumer's offset commit. */
  datatype Commit = Commit(consumer: Text, topic: Text, partition: U32, nextOffset: U64, ackOffset: Option<U64>,
                           updatedAtMS: U64, metadata: Text)

  function ReadCommit(s: Bytes): Parse<Commit> {
    var (consumer, r) :- ReadText(s);
    var (topic, r) :- ReadText(r);
    var (partition, r) :- ReadU32(r);
    var (nextOffset, r) :- ReadU64(r);
    var (ackOffset, r) :- ReadOptional(r);
    var (updatedAtMS, r) :- ReadU64(r);
    var (metadata, r) :- ReadText(r);
    Parsed(Commit(consumer, topic, partition, nextOffset, ackOffset, updatedAtMS, metadata), r)
  }

  function ReadCommits(s: Bytes): Parse<seq<Commit>> {
    var (n, r) :- ReadU32(s);
    ReadMany(n, ReadCommit, r)
  }

  // ---- Writing ----

  function PutBool(b: bool): Bytes {
    BigEndian(1, if b then 1 else 0)
  }

  function PutBytes(b: Bytes): Bytes {
    BigEndian(4, |b|) + b
  }

  function PutText(t: Text): Bytes {
    BigEndian(2, |t|) + BytesOf(t)
  }

  function PutOptional(x: Option<U64>): Bytes {
    match x case None => PutBool(false) case Some(v) => PutBool(true) + BigEndian(8, v)
  }

  function PutMany<T>(xs: seq<T>, put: T -> Bytes): Bytes {
    if xs == [] then [] else PutMany(xs[..|xs| - 1], put) + put(xs[|xs| - 1])
  }

  function PutHeader(h: Header): Bytes {
    PutText(h.key) + PutBytes(h.value)
  }

  function PutHeaders(hs: seq<Header>): Bytes {
    BigEndian(2, |hs|) + PutMany(hs, PutHeader)
  }

  function ControlCode(control: Text): Byte {
    if control == "commit" then 1 else if control == "abort" then 2 else 0
  }

  function PutTransaction(t: Option<Transaction>): Bytes {
    match t
    case None => PutBool(false)
    case Some(x) =>
      PutBool(true) + BigEndian(8, x.txID) + BigEndian(8, x.producer) + BigEndian(8, x.epoch)
      + BigEndian(8, x.sequence) + BigEndian(1, ControlCode(x.control))
  }

  function PutMessage(m: Message): Bytes {
    PutOptional(m.timestampMS) + PutOptional(m.expiresAtMS) + PutBytes(m.key) + PutHeaders(m.headers)
    + BigEndian(2, m.attributes) + PutTransaction(m.transaction) + PutBytes(m.payload)
  }

  function PutMessages(ms: seq<Message>): Bytes {
    BigEndian(4, |ms|) + PutMany(ms, PutMessage)
  }

  function ModeCode(mode: Text): Byte {
    if mode == Explicit then 1
    else if mode == RoundRobin then 2
    else if mode == KeyHash then 3
    else if mode == RoutingKeyHash then 4
    else 0
  }

  function PutPartitioning(p: Partitioning): Bytes {
    BigEndian(1, ModeCode(p.mode)) + BigEndian(4, p.partition)
  }

  function PutId(id: Option<Id>): Bytes {
    match id
    case None => PutBool(false)
    case Some(x) => PutBool(true) + BigEndian(8, x.producer) + BigEndian(8, x.epoch) + BigEndian(8, x.base)
  }

  function PutRequest(r: Request): Bytes {
    PutText(r.topic) + PutPartitioning(r.partitioning) + PutId(r.idempotency) + PutMessages(r.messages)
  }

  function PutRequests(rs: seq<Request>): Bytes {
    BigEndian(4, |rs|) + PutMany(rs, PutRequest)
  }

  function PutCommit(c: Commit): Bytes {
    PutText(c.consumer) + PutText(c.topic) + BigEndian(4, c.partition) + BigEndian(8, c.nextOffset)
    + PutOptional(c.ackOffset) + BigEndian(8, c.updatedAtMS) + PutText(c.metadata)
  }

  function PutCommits(cs: seq<Commit>): Bytes {
    BigEndian(4, |cs|) + PutMany(cs, PutCommit)
  }

  // ---- What fits the length prefixes ----

  predicate HeaderFits(h: Header) {
    |h.key| <= MaxU16 && |h.value| <= MaxU32
  }

  predicate MessageFits(m: Message) {
    && |m.key| <= MaxU32 && |m.payload| <= MaxU32 && |m.headers| <= MaxU16
    && forall h :: h in m.headers ==> HeaderFits(h)
  }

  predicate RequestFits(r: Request) {
    |r.topic| <= MaxU16 && |r.messages| <= MaxU32 && forall m :: m in r.messages ==> MessageFits(m)
  }

  predicate RequestsFit(rs: seq<Request>) {
    |rs| <= MaxU32 && forall r :: r in rs ==> RequestFits(r)
  }

  predicate CommitFits(c: Commit) {
    |c.consumer| <= MaxU16 && |c.topic| <= MaxU16 && |c.metadata| <= MaxU16
  }

  predicate CommitsFit(cs: seq<Commit>) {
    |cs| <= MaxU32 && forall c :: c in cs ==> CommitFits(c)
  }

  // ---- What survives the trip ----

  function CanonicalTransaction(t: Option<Transaction>): Option<Transaction> {
    match t
    case None => None
    case Some(x) => Some(x.(control := if x.control == "commit" || x.control == "abort" then x.control else ""))
  }

  function CanonicalMessage(m: Message): Message {
    m.(transaction := CanonicalTransaction(m.transaction))
  }

  /** The routing key is not written, and a mode the code table does not know is written as the default. */
  function CanonicalPartitioning(p: Partitioning): Partitioning {
    Partitioning(if ModeCode(p.mode) != 0 then p.mode else "", p.partition, "")
  }

  function CanonicalRequest(r: Request): Request {
    r.(partitioning := CanonicalPartitioning(r.partitioning), messages := All(r.messages, CanonicalMessage))
  }

  // ---- Round trips ----

  lemma {:induction false} Assoc<T>(a: seq<T>, b: seq<T>, c: seq<T>)
    ensures (a + b) + c == a + (b + c)
  {
  }

  lemma {:induction false} NumberBack(n: nat, x: nat, q: Bytes)
    requires x < Power(n)
    ensures ReadNumber(n, BigEndian(n, x) + q) == Parsed(x, q)
  {
    NumberOfBigEndian(n, x);
    assert (BigEndian(n, x) + q)[..n] == BigEndian(n, x) && (BigEndian(n, x) + q)[n..] == q;
  }

  lemma {:induction false} U8Back(x: Byte, q: Bytes)
    ensures ReadU8(BigEndian(1, x) + q) == Parsed(x, q)
  {
    Powers();
    NumberBack(1, x, q);
  }

  lemma {:induction false} U16Back(x: nat, q: Bytes)
    requires x <= MaxU16
    ensures ReadU16(BigEndian(2, x) + q) == Parsed(x, q)
  {
    Powers();
    NumberBack(2, x, q);
  }

  lemma {:induction false} U32Back(x: nat, q: Bytes)
    requires x <= MaxU32
    ensures ReadU32(BigEndian(4, x) + q) == Parsed(x, q)
  {
    Powers();
    NumberBack(4, x, q);
  }

  lemma {:induction false} U64Back(x: U64, q: Bytes)
    ensures ReadU64(BigEndian(8, x) + q) == Parsed(x, q)
  {
    Powers();
    NumberBack(8, x, q);
  }

  lemma {:induction false} BoolBack(b: bool, q: Bytes)
    ensures ReadBool(PutBool(b) + q) == Parsed(b, q)
  {
    U8Back(if b then 1 else 0, q);
  }

  lemma {:induction false} FixedBack(b: Bytes, q: Bytes)
    ensures ReadFixed(|b|, b + q) == Parsed(b, q)
  {
    assert (b + q)[..|b|] == b && (b + q)[|b|..] == q;
  }

  lemma {:induction false} BytesBack(b: Bytes, q: Bytes)
    requires |b| <= MaxU32
    ensures ReadBytes(PutBytes(b) + q) == Parsed(b, q)
  {
    Assoc(BigEndian(4, |b|), b, q);
    U32Back(|b|, b + q);
    FixedBack(b, q);
  }

  lemma {:induction false} TextBack(t: Text, q: Bytes)
    requires |t| <= MaxU16
    ensures ReadText(PutText(t) + q) == Parsed(t, q)
  {
    var b := BytesOf(t);
    Assoc(BigEndian(2, |t|), b, q);
    U16Back(|t|, b + q);
    FixedBack(b, q);
    TextOfBytesOf(t);
  }

  lemma {:induction false} OptionalBack(x: Option<U64>, q: Bytes)
    ensures ReadOptional(PutOptional(x) + q) == Parsed(x, q)
  {
    match x
    case None => BoolBack(false, q);
    case Some(v) =>
      Assoc(PutBool(true), BigEndian(8, v), q);
      BoolBack(true, BigEndian(8, v) + q);
      U64Back(v, q);
  }

  /** Reading what was put for x gives y back and leaves what follows. */
  ghost predicate Back<T(!new), U>(x: T, y: U, put: T -> Bytes, read: Bytes -> Parse<U>) {
    forall q :: read(put(x) + q) == Parsed(y, q)
  }

  lemma {:induction false} PutManyFront<T>(xs: seq<T>, put: T -> Bytes)
    requires xs != []
    ensures PutMany(xs, put) == put(xs[0]) + PutMany(xs[1..], put)
  {
    var n := |xs| - 1;
    if n > 0 {
      PutManyFront(xs[..n], put);
      assert xs[..n][1..] == xs[1..][..n - 1];
      Assoc(put(xs[0]), PutMany(xs[1..][..n - 1], put), put(xs[n]));
    } else {
      assert xs[..0] == [] && xs[1..] == [];
    }
  }

  lemma {:induction false} ManyBack<T(!new), U(!new)>(
    xs: seq<T>, put: T -> Bytes, read: Bytes -> Parse<U>, canonical: T -> U, q: Bytes)
    requires forall x :: x in xs ==> Back(x, canonical(x), put, read)
    ensures ReadMany(|xs|, read, PutMany(xs, put) + q) == Parsed(All(xs, canonical), q)
  {
    if xs == [] {
      assert PutMany(xs, put) + q == q;
    } else {
      PutManyFront(xs, put);
      var tail := PutMany(xs[1..], put);
      Assoc(put(xs[0]), tail, q);
      assert Back(xs[0], canonical(xs[0]), put, read);
      assert read(put(xs[0]) + (tail + q)) == Parsed(canonical(xs[0]), tail + q);
      ManyBack(xs[1..], put, read, canonical, q);
      assert All(xs, canonical) == [canonical(xs[0])] + All(xs[1..], canonical);
    }
  }
}
