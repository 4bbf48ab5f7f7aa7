/** Reading and editing record headers. */
module Headers {
  import opened Basics
  import opened Messages
  import opened Sorting

  /** The value of the first header with this key. */
  function Lookup(headers: seq<Header>, key: Text): Option<Bytes> {
    if headers == [] then None
    else if headers[0].key == key then Some(headers[0].value)
    else Lookup(headers[1..], key)
  }

  /** The first header with this key gets the value; without one, a new header goes to the end. */
  function Upsert(headers: seq<Header>, key: Text, value: Bytes): seq<Header> {
    if headers == [] then [Header(key, value)]
    else if headers[0].key == key then [Header(key, value)] + headers[1..]
    else [headers[0]] + Upsert(headers[1..], key, value)
  }

  lemma {:induction false} UpsertAt(headers: seq<Header>, key: Text, value: Bytes, i: nat)
    requires i <= |headers| && forall j :: 0 <= j < i ==> headers[j].key != key
    requires i < |headers| ==> headers[i].key == key
    ensures Upsert(headers, key, value)
         == if i < |headers| then headers[i := Header(key, value)] else headers + [Header(key, value)]
  {
    if i > 0 {
      UpsertAt(headers[1..], key, value, i - 1);
      assert headers == [headers[0]] + headers[1..];
    }
  }

  method UpsertHeader(headers: seq<Header>, key: Text, value: Bytes) returns (out: seq<Header>)
    ensures out == Upsert(headers, key, value)
  {
    for i := 0 to |headers|
      invariant forall j :: 0 <= j < i ==> headers[j].key != key
    {
      if headers[i].key == key {
        UpsertAt(headers, key, value, i);
        return headers[i := Header(key, value)];
      }
    }
    UpsertAt(headers, key, value, |headers|);
    return headers + [Header(key, value)];
  }

  function NotKeyed(keys: set<Text>): Header -> bool {
    (h: Header) => h.key !in keys
  }

  /** Every header with one of these keys dropped, the others kept in order. */
  function Remove(headers: seq<Header>, keys: set<Text>): seq<Header> {
    Filter(headers, NotKeyed(keys))
  }

  method RemoveHeaders(headers: seq<Header>, keys: set<Text>) returns (out: seq<Header>)
    ensures out == Remove(headers, keys)
  {
    out := [];
    for i := 0 to |headers|
      invariant out == Filter(headers[..i], NotKeyed(keys))
    {
      assert headers[..i + 1][..i] == headers[..i];
      if headers[i].key !in keys { out := out + [headers[i]]; }
    }
    assert headers[..|headers|] == headers;
  }

  /** An upsert is what a later lookup of the same key finds, and no other key notices. */
  lemma {:induction false} UpsertLookup(headers: seq<Header>, key: Text, value: Bytes, other: Text)
    ensures Lookup(Upsert(headers, key, value), other) == if other == key then Some(value) else Lookup(headers, other)
  {
    if headers != [] && headers[0].key != key {
      UpsertLookup(headers[1..], key, value, other);
      assert ([headers[0]] + Upsert(headers[1..], key, value))[1..] == Upsert(headers[1..], key, value);
    } else if headers != [] {
      assert ([Header(key, value)] + headers[1..])[1..] == headers[1..];
    }
  }

  lemma {:induction false} FilterFront<T>(x: T, s: seq<T>, p: T -> bool)
    ensures Filter([x] + s, p) == (if p(x) then [x] else []) + Filter(s, p)
  {
    FilterConcat([x], s, p);
    assert Filter([x], p) == if p(x) then [x] else [] by {
      assert [x][..0] == [];
    }
  }

  /** Removing a set of keys forgets what was upserted under one of them. */
  lemma {:induction false} RemoveForgets(headers: seq<Header>, key: Text, value: Bytes, keys: set<Text>)
    requires key in keys
    ensures Remove(Upsert(headers, key, value), keys) == Remove(headers, keys)
  {
    var p := NotKeyed(keys);
    if headers == [] {
      FilterFront(Header(key, value), [], p);
    } else if headers[0].key == key {
      FilterFront(Header(key, value), headers[1..], p);
      FilterFront(headers[0], headers[1..], p);
      assert headers == [headers[0]] + headers[1..];
    } else {
      RemoveForgets(headers[1..], key, value, keys);
      FilterFront(headers[0], Upsert(headers[1..], key, value), p);
      FilterFront(headers[0], headers[1..], p);
      assert headers == [headers[0]] + headers[1..];
    }
  }

  /** Where none of the keys occurs, removing them changes nothing. */
  lemma {:induction false} RemoveNothing(headers: seq<Header>, keys: set<Text>)
    requires forall h :: h in headers ==> h.key !in keys
    ensures Remove(headers, keys) == headers
  {
    if headers != [] { RemoveNothing(headers[..|headers| - 1], keys); }
  }
}
