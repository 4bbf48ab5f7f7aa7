/** Coalesced offset commits: one save per consumer and partition, against saving them all in order. */
module Commits {
  import opened Basics
  import opened Messages
  import opened Codec

  datatype Key = Key(consumer: Text, topic: Text, partition: U32)

  function KeyOf(c: Commit): Key {
    Key(c.consumer, c.topic, c.partition)
  }

  type Saved = map<Key, Commit>

  /** The commits saved one after the other: the last one of each key stays. */
  function InOrder(saved: Saved, cs: seq<Commit>): Saved {
    if cs == [] then saved else InOrder(saved, cs[..|cs| - 1])[KeyOf(cs[|cs| - 1]) := cs[|cs| - 1]]
  }

  /** One commit per key: a later one replaces an earlier one unless its offset is lower. */
  function Compacted(cs: seq<Commit>): Saved {
    if cs == [] then map[]
    else
      var before, c := Compacted(cs[..|cs| - 1]), cs[|cs| - 1];
      if KeyOf(c) in before && c.nextOffset < before[KeyOf(c)].nextOffset then before else before[KeyOf(c) := c]
  }

  method CompactCommitOffsetCommands(cs: seq<Commit>) returns (compacted: Saved)
    ensures compacted == Compacted(cs)
  {
    compacted := map[];
    for i := 0 to |cs|
      invariant compacted == Compacted(cs[..i])
    {
      assert cs[..i + 1][..i] == cs[..i];
      var key := KeyOf(cs[i]);
      if key !in compacted || cs[i].nextOffset >= compacted[key].nextOffset {
        compacted := compacted[key := cs[i]];
      }
    }
    assert cs[..|cs|] == cs;
  }

  lemma {:induction false} CompactedPicks(cs: seq<Commit>, key: Key)
    ensures key in Compacted(cs) <==> exists c :: c in cs && KeyOf(c) == key
    ensures key in Compacted(cs) ==>
              && Compacted(cs)[key] in cs && KeyOf(Compacted(cs)[key]) == key
              && forall c :: c in cs && KeyOf(c) == key ==> c.nextOffset <= Compacted(cs)[key].nextOffset
  {
    if cs != [] {
      CompactedPicks(cs[..|cs| - 1], key);
      assert cs == cs[..|cs| - 1] + [cs[|cs| - 1]];
    }
  }

  /** The last commit of a key. */
  function LastOf(cs: seq<Commit>, key: Key): Option<Commit> {
    if cs == [] then None
    else if KeyOf(cs[|cs| - 1]) == key then Some(cs[|cs| - 1])
    else LastOf(cs[..|cs| - 1], key)
  }

  lemma {:induction false} InOrderKeepsLast(saved: Saved, cs: seq<Commit>, key: Key)
    ensures
      match LastOf(cs, key)
      case None =>
        && (key in InOrder(saved, cs) <==> key in saved)
        && (key in saved ==> InOrder(saved, cs)[key] == saved[key])
      case Some(c) => key in InOrder(saved, cs) && InOrder(saved, cs)[key] == c
  {
    if cs != [] { InOrderKeepsLast(saved, cs[..|cs| - 1], key); }
  }

  lemma {:induction false} LastIsMember(cs: seq<Commit>, key: Key)
    ensures LastOf(cs, key).None? <==> forall c :: c in cs ==> KeyOf(c) != key
    ensures LastOf(cs, key).Some? ==> LastOf(cs, key).value in cs && KeyOf(LastOf(cs, key).value) == key
  {
    if cs != [] {
      LastIsMember(cs[..|cs| - 1], key);
      assert cs == cs[..|cs| - 1] + [cs[|cs| - 1]];
    }
  }

  lemma {:induction false} LatestOfHighest(cs: seq<Commit>, key: Key)
    requires LastOf(cs, key).Some?
    requires forall c :: c in cs && KeyOf(c) == key ==> c.nextOffset <= LastOf(cs, key).value.nextOffset
    ensures key in Compacted(cs) && Compacted(cs)[key] == LastOf(cs, key).value
  {
    var before, c := cs[..|cs| - 1], cs[|cs| - 1];
    assert cs == before + [c];
    CompactedPicks(before, key);
    if KeyOf(c) != key {
      LatestOfHighest(before, key);
    }
  }

  /**
   * Compaction saves what saving in order would have saved for a key if and only if the key's last commit does not go
   * back: no earlier commit of it has a higher offset.
   */
  lemma {:induction false} CompactionAgreesExactlyWhen(saved: Saved, cs: seq<Commit>, key: Key)
    requires exists c :: c in cs && KeyOf(c) == key
    ensures key in Compacted(cs) && key in InOrder(saved, cs)
    ensures LastOf(cs, key).Some?
    ensures (saved + Compacted(cs))[key] == InOrder(saved, cs)[key]
       <==> forall c :: c in cs && KeyOf(c) == key ==> c.nextOffset <= LastOf(cs, key).value.nextOffset
  {
    CompactedPicks(cs, key);
    InOrderKeepsLast(saved, cs, key);
    LastIsMember(cs, key);
    if forall c :: c in cs && KeyOf(c) == key ==> c.nextOffset <= LastOf(cs, key).value.nextOffset {
      LatestOfHighest(cs, key);
    }
  }

  /** A commit of 5 followed by one of 3: saving in order ends at 3, compaction at 5. */
  lemma {:induction false} CommitGoesBack(saved: Saved, c: Commit)
    ensures
      var first, second := c.(nextOffset := 5), c.(nextOffset := 3);
      && KeyOf(c) in Compacted([first, second]) && Compacted([first, second])[KeyOf(c)] == first
      && InOrder(saved, [first, second])[KeyOf(c)] == second
  {
    var first, second := c.(nextOffset := 5), c.(nextOffset := 3);
    var both := [first, second];
    assert both[..1] == [first] && [first][..0] == [];
    assert Compacted([first]) == map[KeyOf(c) := first];
  }
}
