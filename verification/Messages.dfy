/** What producers send: messages with headers, and batch requests. */
module Messages {
  import opened Basics

  type Bytes = seq<Byte>

  /** A byte string, one character per byte. */
  type Text = s: string | forall i :: 0 <= i < |s| ==> s[i] as int <= 0xFF

  function BytesOf(t: Text): (bytes: Bytes)
    ensures |bytes| == |t| && forall i :: 0 <= i < |t| ==> bytes[i] == t[i] as int
  {
    seq(|t|, i requires 0 <= i < |t| => t[i] as int)
  }

  function TextOf(bytes: Bytes): (t: Text)
    ensures |t| == |bytes| && forall i :: 0 <= i < |t| ==> t[i] as int == bytes[i]
  {
    var s: string := seq(|bytes|, i requires 0 <= i < |bytes| => bytes[i] as char);
    s
  }

  lemma {:induction false} TextOfBytesOf(t: Text)
    ensures TextOf(BytesOf(t)) == t
  {
    var u := TextOf(BytesOf(t));
    assert forall i :: 0 <= i < |t| ==> u[i] == t[i];
  }

  datatype Header = Header(key: Text, value: Bytes)

  datatype Transaction = Transaction(txID: U64, producer: U64, epoch: U64, sequence: U64, control: Text)

  datatype Message = Message(
    timestampMS: Option<U64>, expiresAtMS: Option<U64>, key: Bytes, headers: seq<Header>, attributes: U16,
    transaction: Option<Transaction>, payload: Bytes)

  const Explicit: Text := "explicit"
  const RoundRobin: Text := "round_robin"
  const KeyHash: Text := "key_hash"
  const RoutingKeyHash: Text := "routing_key_hash"

  datatype Partitioning = Partitioning(mode: Text, partition: U32, routingKey: Text)

  /** A producer's claim on a range of sequence numbers. */
  datatype Id = Id(producer: U64, epoch: U64, base: U64)

  datatype Request = Request(topic: Text, partitioning: Partitioning, idempotency: Option<Id>, messages: seq<Message>)
}
