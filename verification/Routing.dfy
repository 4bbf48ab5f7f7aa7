/** Choosing the partition of a produce request, and choosing it again on every replica. */
module Routing {
  import opened Basics
  import opened Messages
  import opened Headers
  import opened Codec

  /** How a topic orders records; a policy the broker does not know is Unknown. */
  datatype Ordering = Unordered | ByPartition | ByKey | ByRoutingKey | Unknown

  datatype Topic = Topic(name: Text, partitions: U32, ordering: Ordering)

  type Hash = Bytes -> U64

  const RoutingKeyHeader: Text := "x-ech0-routing-key"

  // ---- Keys of a batch ----

  function RoutingKeyOf(m: Message): Text {
    match Lookup(m.headers, RoutingKeyHeader) case None => "" case Some(v) => TextOf(v)
  }

  function FirstRoutingKey(ms: seq<Message>): Text {
    if ms == [] then ""
    else if RoutingKeyOf(ms[0]) != "" then RoutingKeyOf(ms[0])
    else FirstRoutingKey(ms[1..])
  }

  function FirstKey(ms: seq<Message>): Bytes {
    if ms == [] then [] else if ms[0].key != [] then ms[0].key else FirstKey(ms[1..])
  }

  function PartitionRoutingKey(p: Partitioning, ms: seq<Message>): Text {
    if p.routingKey != "" then p.routingKey else FirstRoutingKey(ms)
  }

  predicate SingleKey(ms: seq<Message>) {
    FirstKey(ms) != [] && forall m :: m in ms ==> m.key == FirstKey(ms)
  }

  /** One routing key for the whole batch; records without their own are fine. */
  predicate SingleRoutingKey(p: Partitioning, ms: seq<Message>) {
    var key := PartitionRoutingKey(p, ms);
    key != "" && forall m :: m in ms ==> RoutingKeyOf(m) == "" || RoutingKeyOf(m) == key
  }

  // ---- Choosing a partition ----

  function Resolve(ordering: Ordering, p: Partitioning, ms: seq<Message>): Result<Partitioning> {
    match ordering
    case Unordered | ByPartition =>
      Ok(if p.mode == RoutingKeyHash && p.routingKey == "" then p.(routingKey := FirstRoutingKey(ms)) else p)
    case ByKey =>
      if SingleKey(ms) then Ok(p.(mode := KeyHash))
      else Err("topic requires one non-empty key per ordered batch")
    case ByRoutingKey =>
      if SingleRoutingKey(p, ms)
      then Ok(Partitioning(RoutingKeyHash, p.partition, PartitionRoutingKey(p, ms)))
      else Err("topic requires one non-empty routing key per ordered batch")
    case Unknown => Err("topic has invalid ordering policy")
  }

  function Bucket(hash: U64, partitions: U32): (partition: U32)
    requires partitions > 0
    ensures partition < partitions
  {
    hash % partitions
  }

  function Hashed(key: Bytes, partitions: U32, hash: Hash, error: string): Result<U32>
    requires partitions > 0
  {
    if key == [] then Err(error) else Ok(Bucket(hash(key), partitions))
  }

  /** The partition, and the round-robin cursor afterwards. */
  function Select(topic: Topic, cursor: U32, p: Partitioning, key: Bytes, hash: Hash): (Result<U32>, U32) {
    if topic.partitions == 0 then (Err("topic has zero partitions"), cursor)
    else if p.mode == Explicit then
      (if p.partition >= topic.partitions then Err("partition not found") else Ok(p.partition), cursor)
    else if p.mode == KeyHash then
      (Hashed(key, topic.partitions, hash, "key_hash partitioning requires a non-empty key"), cursor)
    else if p.mode == RoutingKeyHash then
      (Hashed(BytesOf(p.routingKey), topic.partitions, hash,
              "routing_key_hash partitioning requires a non-empty routing key"), cursor)
    else (Ok(cursor % topic.partitions), (cursor + 1) % topic.partitions)
  }

  function PayloadBytes(ms: seq<Message>): nat {
    if ms == [] then 0 else PayloadBytes(ms[..|ms| - 1]) + |ms[|ms| - 1].payload|
  }

  /** Planning a request: the partition it goes to, and the topic's round-robin cursor afterwards. */
  function Plan(
    topic: Topic, maxBytes: nat, hash: Hash, cursor: U32, p: Partitioning, ms: seq<Message>): (Result<U32>, U32) {
    if PayloadBytes(ms) > maxBytes then (Err("batch payload size exceeds limit"), cursor)
    else
      match Resolve(topic.ordering, p, ms)
      case Err(e) => (Err(e), cursor)
      case Ok(q) => Select(topic, cursor, q, FirstKey(ms), hash)
  }

  class Router {
    var cursors: map<Text, U32>

    constructor ()
      ensures cursors == map[]
    {
      cursors := map[];
    }

    ghost function CursorOf(name: Text): U32
      reads this
    {
      if name in cursors then cursors[name] else 0
    }

    method NextRoundRobin(topic: Topic) returns (partition: U32)
      requires topic.partitions > 0
      modifies this
      ensures partition == old(CursorOf(topic.name)) % topic.partitions
      ensures CursorOf(topic.name) == (old(CursorOf(topic.name)) + 1) % topic.partitions
      ensures forall name :: name != topic.name ==> CursorOf(name) == old(CursorOf(name))
    {
      var cursor := if topic.name in cursors then cursors[topic.name] else 0;
      partition := cursor % topic.partitions;
      cursors := cursors[topic.name := (cursor + 1) % topic.partitions];
    }

    method SelectPartition(topic: Topic, p: Partitioning, key: Bytes, hash: Hash) returns (r: Result<U32>)
      modifies this
      ensures (r, CursorOf(topic.name)) == Select(topic, old(CursorOf(topic.name)), p, key, hash)
      ensures forall name :: name != topic.name ==> CursorOf(name) == old(CursorOf(name))
    {
      if topic.partitions == 0 { return Err("topic has zero partitions"); }
      if p.mode == Explicit {
        if p.partition >= topic.partitions { return Err("partition not found"); }
        return Ok(p.partition);
      }
      if p.mode == KeyHash {
        if key == [] { return Err("key_hash partitioning requires a non-empty key"); }
        return Ok(Bucket(hash(key), topic.partitions));
      }
      if p.mode == RoutingKeyHash {
        if p.routingKey == "" { return Err("routing_key_hash partitioning requires a non-empty routing key"); }
        return Ok(Bucket(hash(BytesOf(p.routingKey)), topic.partitions));
      }
      var next := NextRoundRobin(topic);
      return Ok(next);
    }
  }

  // ---- Where keyed batches go ----

  lemma {:induction false} FirstKeyFound(ms: seq<Message>)
    ensures FirstKey(ms) == [] <==> forall m :: m in ms ==> m.key == []
    ensures FirstKey(ms) != [] ==> exists m :: m in ms && m.key == FirstKey(ms)
  {
    if ms != [] {
      FirstKeyFound(ms[1..]);
      assert ms == [ms[0]] + ms[1..];
    }
  }

  /** The whole batch has this one key. */
  ghost predicate KeyedBy(ms: seq<Message>, key: Bytes) {
    ms != [] && key != [] && forall m :: m in ms ==> m.key == key
  }

  lemma {:induction false} SingleKeyExactlyWhen(ms: seq<Message>, key: Bytes)
    ensures SingleKey(ms) && FirstKey(ms) == key <==> KeyedBy(ms, key)
  {
    FirstKeyFound(ms);
    if KeyedBy(ms, key) { assert ms[0] in ms; }
  }

  /** The request fits and the topic has partitions to choose from. */
  predicate Fits(topic: Topic, maxBytes: nat, ms: seq<Message>) {
    PayloadBytes(ms) <= maxBytes && topic.partitions > 0
  }

  /**
   * On a topic ordered by key, a batch goes to the hash of its key modulo the partitions, if and only if it has one key
   * and fits: so all batches with one key go to one partition. The round-robin cursor stays.
   */
  lemma {:induction false} KeyDecides(
    topic: Topic, maxBytes: nat, hash: Hash, cursor: U32, p: Partitioning, ms: seq<Message>, partition: U32)
    requires topic.ordering == ByKey
    ensures Plan(topic, maxBytes, hash, cursor, p, ms).1 == cursor
    ensures Plan(topic, maxBytes, hash, cursor, p, ms).0 == Ok(partition)
       <==> && Fits(topic, maxBytes, ms)
            && exists key :: KeyedBy(ms, key) && partition == hash(key) % topic.partitions
  {
    if key :| KeyedBy(ms, key) {
      SingleKeyExactlyWhen(ms, key);
      forall other | KeyedBy(ms, other) ensures other == key { SingleKeyExactlyWhen(ms, other); }
    } else if SingleKey(ms) {
      SingleKeyExactlyWhen(ms, FirstKey(ms));
    }
  }

  /** The request or one of its records names this routing key, and no record names another. */
  ghost predicate RoutedBy(p: Partitioning, ms: seq<Message>, key: Text) {
    && key != "" && (p.routingKey == key || (p.routingKey == "" && exists m :: m in ms && RoutingKeyOf(m) == key))
    && forall m :: m in ms ==> RoutingKeyOf(m) == "" || RoutingKeyOf(m) == key
  }

  lemma {:induction false} SingleRoutingKeyExactlyWhen(p: Partitioning, ms: seq<Message>, key: Text)
    ensures SingleRoutingKey(p, ms) && PartitionRoutingKey(p, ms) == key <==> RoutedBy(p, ms, key)
  {
    FirstRoutingKeyFound(ms);
  }

  /** On a topic ordered by routing key, likewise with the one routing key of the request. */
  lemma {:induction false} RoutingKeyDecides(
    topic: Topic, maxBytes: nat, hash: Hash, cursor: U32, p: Partitioning, ms: seq<Message>, partition: U32)
    requires topic.ordering == ByRoutingKey
    ensures Plan(topic, maxBytes, hash, cursor, p, ms).1 == cursor
    ensures Plan(topic, maxBytes, hash, cursor, p, ms).0 == Ok(partition)
       <==> && Fits(topic, maxBytes, ms)
            && exists key :: RoutedBy(p, ms, key) && partition == hash(BytesOf(key)) % topic.partitions
  {
    if key :| RoutedBy(p, ms, key) {
      SingleRoutingKeyExactlyWhen(p, ms, key);
      forall other | RoutedBy(p, ms, other) ensures other == key { SingleRoutingKeyExactlyWhen(p, ms, other); }
    } else if SingleRoutingKey(p, ms) {
      SingleRoutingKeyExactlyWhen(p, ms, PartitionRoutingKey(p, ms));
    }
  }

  /** Where a batch goes that its topic does not order by a key: where its mode sends it. */
  ghost predicate Sent(
    topic: Topic, hash: Hash, cursor: U32, p: Partitioning, ms: seq<Message>, partition: U32)
    requires topic.partitions > 0
  {
    if p.mode == Explicit then partition == p.partition < topic.partitions
    else if p.mode == KeyHash then FirstKey(ms) != [] && partition == hash(FirstKey(ms)) % topic.partitions
    else if p.mode == RoutingKeyHash then
      PartitionRoutingKey(p, ms) != "" && partition == hash(BytesOf(PartitionRoutingKey(p, ms))) % topic.partitions
    else partition == cursor % topic.partitions
  }

  /** On any other known topic a batch that fits goes where its mode sends it, and nowhere if that is not possible. */
  lemma {:induction false} ModeDecides(
    topic: Topic, maxBytes: nat, hash: Hash, cursor: U32, p: Partitioning, ms: seq<Message>, partition: U32)
    requires topic.ordering == Unordered || topic.ordering == ByPartition
    ensures Plan(topic, maxBytes, hash, cursor, p, ms).0 == Ok(partition)
       <==> Fits(topic, maxBytes, ms) && Sent(topic, hash, cursor, p, ms, partition)
  {
    if topic.partitions > 0 && p.mode == RoutingKeyHash {
      assert PartitionRoutingKey(p, ms) != "" ==> BytesOf(PartitionRoutingKey(p, ms)) != [];
    }
  }

  /** The cursor after n round-robin batches. */
  function Turned(topic: Topic, cursor: U32, n: nat): U32
    requires topic.partitions > 0
  {
    if n == 0 then cursor else (Turned(topic, cursor, n - 1) + 1) % topic.partitions
  }

  lemma {:induction false} NextTurn(x: nat, m: nat)
    requires m > 0
    ensures (x % m + 1) % m == (x + 1) % m
  {
    var q, r := x / m, x % m;
    assert x == m * q + r;
    if r + 1 < m {
      DivModUnique(x + 1, m, q, r + 1);
      DivModUnique(r + 1, m, 0, r + 1);
    } else {
      assert m * (q + 1) == m * q + m;
      DivModUnique(x + 1, m, q + 1, 0);
      DivModUnique(r + 1, m, 1, 0);
    }
  }

  /** Round robin takes the partitions in turn: the n-th batch after one at `cursor` goes n partitions further round. */
  lemma {:induction false} RoundRobinTurns(
    topic: Topic, maxBytes: nat, hash: Hash, cursor: U32, n: nat, p: Partitioning, ms: seq<Message>)
    requires topic.ordering == Unordered || topic.ordering == ByPartition
    requires Fits(topic, maxBytes, ms) && p.mode == RoundRobin && cursor < topic.partitions
    ensures Plan(topic, maxBytes, hash, Turned(topic, cursor, n), p, ms)
         == (Ok((cursor + n) % topic.partitions), Turned(topic, cursor, n + 1))
    ensures Turned(topic, cursor, n) == (cursor + n) % topic.partitions
  {
    if n == 0 {
      DivModUnique(cursor, topic.partitions, 0, cursor);
    } else {
      RoundRobinTurns(topic, maxBytes, hash, cursor, n - 1, p, ms);
      NextTurn(cursor + n - 1, topic.partitions);
    }
    DivModUnique(Turned(topic, cursor, n), topic.partitions, 0, Turned(topic, cursor, n));
  }

  // ---- Replicas choose the same partition ----

  /** What the leader sends on: the chosen partition made explicit, and no routing key. */
  function Pinned(partition: U32): Partitioning {
    Partitioning(Explicit, partition, "")
  }

  lemma {:induction false} FirstRoutingKeyFound(ms: seq<Message>)
    ensures FirstRoutingKey(ms) == "" <==> forall m :: m in ms ==> RoutingKeyOf(m) == ""
    ensures FirstRoutingKey(ms) != "" ==> exists m :: m in ms && RoutingKeyOf(m) == FirstRoutingKey(ms)
  {
    if ms != [] {
      FirstRoutingKeyFound(ms[1..]);
      assert ms == [ms[0]] + ms[1..];
    }
  }

  lemma {:induction false} PlannedInRange(
    topic: Topic, maxBytes: nat, hash: Hash, cursor: U32, p: Partitioning, ms: seq<Message>)
    ensures
      var r := Plan(topic, maxBytes, hash, cursor, p, ms).0;
      r.Ok? ==> r.value < topic.partitions
  {
  }

  lemma {:induction false} RoutingKeyAgain(p: Partitioning, ms: seq<Message>, partition: U32)
    requires SingleRoutingKey(p, ms)
    ensures SingleRoutingKey(Pinned(partition), ms) <==> FirstRoutingKey(ms) != ""
    ensures FirstRoutingKey(ms) != "" ==> PartitionRoutingKey(p, ms) == FirstRoutingKey(ms)
  {
    FirstRoutingKeyFound(ms);
  }

  /**
   * A planned request planned again with its partition pinned lands on the same partition, for every round-robin
   * cursor and without moving it, if and only if the topic is not ordered by routing key or some record carries its
   * routing key in a header; otherwise it is refused.
   */
  lemma {:induction false} ReplanAgreesExactlyWhen(
    topic: Topic, maxBytes: nat, hash: Hash, cursor: U32, p: Partitioning, ms: seq<Message>, partition: U32, other: U32)
    requires Plan(topic, maxBytes, hash, cursor, p, ms).0 == Ok(partition)
    ensures
      var again := Plan(topic, maxBytes, hash, other, Pinned(partition), ms);
      && again.1 == other
      && (again.0 == Ok(partition) <==> topic.ordering != ByRoutingKey || FirstRoutingKey(ms) != "")
      && (again.0 == Ok(partition) || again.0.Err?)
  {
    PlannedInRange(topic, maxBytes, hash, cursor, p, ms);
    match topic.ordering
    case ByRoutingKey => RoutingKeyAgain(p, ms, partition);
    case _ =>
  }

  /**
   * A batch sent with a routing key that none of its records carries is planned once, and refused when planned again.
   */
  lemma {:induction false} UnstampedRefused(name: Text, hash: Hash, m: Message)
    requires RoutingKeyOf(m) == ""
    ensures
      var topic := Topic(name, 4, ByRoutingKey);
      var first := Plan(topic, |m.payload|, hash, 0, Partitioning(RoutingKeyHash, 0, "k"), [m]).0;
      first.Ok? && Plan(topic, |m.payload|, hash, 0, Pinned(first.value), [m]).0.Err?
  {
    var topic, p := Topic(name, 4, ByRoutingKey), Partitioning(RoutingKeyHash, 0, "k");
    assert [m][..0] == [];
    assert PayloadBytes([m]) == |m.payload|;
    assert SingleRoutingKey(p, [m]);
    assert BytesOf("k") != [];
    var first := Plan(topic, |m.payload|, hash, 0, p, [m]).0;
    FirstRoutingKeyFound([m]);
    ReplanAgreesExactlyWhen(topic, |m.payload|, hash, 0, p, [m], first.value, 0);
  }

  // ---- Stamping the routing key ----

  function StampOne(m: Message, key: Text): Message {
    m.(headers := Upsert(m.headers, RoutingKeyHeader, BytesOf(key)))
  }

  /** Before a request is sent, its routing key is stamped on all of its records. */
  function Stamped(p: Partitioning, ms: seq<Message>): seq<Message> {
    if p.routingKey == "" then ms else All(ms, (m: Message) => StampOne(m, p.routingKey))
  }

  method RecordsWithRoutingKey(p: Partitioning, ms: seq<Message>) returns (out: seq<Message>)
    ensures out == Stamped(p, ms)
  {
    if p.routingKey == "" { return ms; }
    out := [];
    for i := 0 to |ms|
      invariant |out| == i && forall j :: 0 <= j < i ==> out[j] == StampOne(ms[j], p.routingKey)
    {
      var headers := UpsertHeader(ms[i].headers, RoutingKeyHeader, BytesOf(p.routingKey));
      out := out + [ms[i].(headers := headers)];
    }
  }

  lemma {:induction false} StampSticks(m: Message, key: Text)
    ensures RoutingKeyOf(StampOne(m, key)) == key
  {
    UpsertLookup(m.headers, RoutingKeyHeader, BytesOf(key), RoutingKeyHeader);
    TextOfBytesOf(key);
  }

  lemma {:induction false} KeysFromFront(ms: seq<Message>, ns: seq<Message>)
    requires |ns| == |ms| && forall i :: 0 <= i < |ms| ==> ns[i].key == ms[i].key && ns[i].headers == ms[i].headers
    ensures FirstKey(ns) == FirstKey(ms) && FirstRoutingKey(ns) == FirstRoutingKey(ms)
  {
    if ms != [] { KeysFromFront(ms[1..], ns[1..]); }
  }

  lemma {:induction false} PayloadsAgree(ms: seq<Message>, ns: seq<Message>)
    requires |ns| == |ms| && forall i :: 0 <= i < |ms| ==> ns[i].payload == ms[i].payload
    ensures PayloadBytes(ns) == PayloadBytes(ms)
  {
    if ms != [] { PayloadsAgree(ms[..|ms| - 1], ns[..|ns| - 1]); }
  }

  /** Two batches that differ only where planning does not look. */
  ghost predicate Alike(ms: seq<Message>, ns: seq<Message>) {
    |ns| == |ms| && forall i :: 0 <= i < |ms| ==>
      ns[i].key == ms[i].key && ns[i].headers == ms[i].headers && ns[i].payload == ms[i].payload
  }

  lemma {:induction false} SingleKeyAlike(ms: seq<Message>, ns: seq<Message>)
    requires Alike(ms, ns) && FirstKey(ns) == FirstKey(ms) && SingleKey(ms)
    ensures SingleKey(ns)
  {
    forall n | n in ns ensures n.key == FirstKey(ns) {
      var i :| 0 <= i < |ns| && ns[i] == n;
      assert ms[i] in ms;
    }
  }

  lemma {:induction false} SingleRoutingKeyAlike(p: Partitioning, ms: seq<Message>, ns: seq<Message>)
    requires Alike(ms, ns) && FirstRoutingKey(ns) == FirstRoutingKey(ms) && SingleRoutingKey(p, ms)
    ensures SingleRoutingKey(p, ns)
  {
    forall n | n in ns ensures RoutingKeyOf(n) == "" || RoutingKeyOf(n) == PartitionRoutingKey(p, ns) {
      var i :| 0 <= i < |ns| && ns[i] == n;
      assert ms[i] in ms && RoutingKeyOf(ms[i]) == RoutingKeyOf(n);
    }
  }

  lemma {:induction false} ResolveAlike(ordering: Ordering, p: Partitioning, ms: seq<Message>, ns: seq<Message>)
    requires Alike(ms, ns)
    ensures Resolve(ordering, p, ns) == Resolve(ordering, p, ms)
  {
    KeysFromFront(ms, ns);
    if SingleKey(ms) { SingleKeyAlike(ms, ns); }
    if SingleKey(ns) { SingleKeyAlike(ns, ms); }
    if SingleRoutingKey(p, ms) { SingleRoutingKeyAlike(p, ms, ns); }
    if SingleRoutingKey(p, ns) { SingleRoutingKeyAlike(p, ns, ms); }
  }

  /** Planning does not see what the codec changes. */
  lemma {:induction false} PlanAfterCodec(
    topic: Topic, maxBytes: nat, hash: Hash, cursor: U32, p: Partitioning, ms: seq<Message>)
    ensures Plan(topic, maxBytes, hash, cursor, p, All(ms, CanonicalMessage))
         == Plan(topic, maxBytes, hash, cursor, p, ms)
  {
    var ns := All(ms, CanonicalMessage);
    KeysFromFront(ms, ns);
    PayloadsAgree(ms, ns);
    ResolveAlike(topic.ordering, p, ms, ns);
  }

  /**
   * Replicas choose the same partition: a non-empty batch stamped with its own routing key, planned once, pinned and
   * sent through the codec, is planned on every replica to the partition of the first plan, whatever the ordering
   * policy and the replica's cursor.
   */
  lemma {:induction false} ReplicasAgree(
    topic: Topic, maxBytes: nat, hash: Hash, cursor: U32, p: Partitioning, ms: seq<Message>, id: Option<Id>,
    partition: U32, other: U32)
    requires ms != [] && Plan(topic, maxBytes, hash, cursor, p, Stamped(p, ms)).0 == Ok(partition)
    ensures
      var sent := CanonicalRequest(Request(topic.name, Pinned(partition), id, Stamped(p, ms)));
      Plan(topic, maxBytes, hash, other, sent.partitioning, sent.messages) == (Ok(partition), other)
  {
    var stamped := Stamped(p, ms);
    FirstRoutingKeyFound(stamped);
    if p.routingKey != "" {
      StampSticks(ms[0], p.routingKey);
      assert stamped[0] in stamped && RoutingKeyOf(stamped[0]) != "";
    }
    ReplanAgreesExactlyWhen(topic, maxBytes, hash, cursor, p, stamped, partition, other);
    PlanAfterCodec(topic, maxBytes, hash, other, Pinned(partition), stamped);
  }
}
