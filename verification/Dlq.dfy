/** Querying the dead letters of a partition page by page, from the index or by scanning the log. */
module Dlq {
  import opened Basics
  import opened Messages
  import opened Headers
  import opened Sorting

  /** A dead letter as the query sees it. */
  datatype Letter = Letter(
    offset: nat, timestampMS: nat, originalTopic: Text, originalPartition: U32, originalOffset: U64, retries: U32,
    errorCode: Text, errorMessage: Text, headers: seq<Header>)

  datatype HeaderFilter = HeaderFilter(key: Text, value: Option<Text>)

  datatype Query = Query(
    fromMS: Option<nat>, toMS: Option<nat>, originalPartition: Option<U32>, originalOffset: Option<U64>,
    errorCode: Text, retries: Option<U32>, messageContains: Text, headers: seq<HeaderFilter>)

  // ---- What a query matches ----

  predicate TimeOk(q: Query, r: Letter) {
    && (q.fromMS.Some? ==> r.timestampMS >= q.fromMS.value)
    && (q.toMS.Some? ==> r.timestampMS <= q.toMS.value)
  }

  predicate OriginOk(q: Query, r: Letter) {
    && (q.originalPartition.Some? ==> r.originalPartition == q.originalPartition.value)
    && (q.originalOffset.Some? ==> r.originalOffset == q.originalOffset.value)
  }

  predicate ErrorOk(q: Query, r: Letter) {
    && (q.errorCode != "" ==> r.errorCode == q.errorCode)
    && (q.retries.Some? ==> r.retries == q.retries.value)
  }

  predicate OccursAt(s: Text, part: Text, i: int) {
    0 <= i <= |s| - |part| && s[i..i + |part|] == part
  }

  predicate Contains(s: Text, part: Text) {
    exists i :: 0 <= i <= |s| && OccursAt(s, part, i)
  }

  predicate HeaderOk(f: HeaderFilter, headers: seq<Header>) {
    match Lookup(headers, f.key)
    case None => false
    case Some(v) => f.value.Some? ==> TextOf(v) == f.value.value
  }

  predicate HeadersOk(filters: seq<HeaderFilter>, headers: seq<Header>) {
    forall f :: f in filters && f.key != "" ==> HeaderOk(f, headers)
  }

  function Matches(q: Query): Letter -> bool {
    (r: Letter) =>
      && TimeOk(q, r) && OriginOk(q, r) && ErrorOk(q, r)
      && (q.messageContains != "" ==> Contains(r.errorMessage, q.messageContains))
      && HeadersOk(q.headers, r.headers)
  }

  /** A query for everything a letter says. */
  function About(r: Letter): Query {
    Query(Some(r.timestampMS), Some(r.timestampMS), Some(r.originalPartition), Some(r.originalOffset), r.errorCode,
          Some(r.retries), r.errorMessage,
          All(r.headers, (h: Header) => HeaderFilter(h.key, FirstText(r.headers, h.key))))
  }

  function FirstText(headers: seq<Header>, key: Text): Option<Text> {
    match Lookup(headers, key) case None => None case Some(v) => Some(TextOf(v))
  }

  lemma {:induction false} LookupFinds(headers: seq<Header>, h: Header)
    requires h in headers
    ensures Lookup(headers, h.key).Some?
  {
    if headers[0] != h {
      assert headers == [headers[0]] + headers[1..];
      LookupFinds(headers[1..], h);
    }
  }

  /**
   * A letter matches the query for everything it says, and whatever else matches that query says the same of its time,
   * its origin, its count and its error, and has the same headers to be found.
   */
  lemma {:induction false} AboutFinds(r: Letter, x: Letter)
    ensures Matches(About(r))(r)
    ensures Matches(About(r))(x) ==>
              && x.timestampMS == r.timestampMS && x.retries == r.retries
              && x.originalPartition == r.originalPartition && x.originalOffset == r.originalOffset
              && (r.errorCode != "" ==> x.errorCode == r.errorCode) && Contains(x.errorMessage, r.errorMessage)
              && forall h :: h in r.headers && h.key != "" ==>
                   FirstText(x.headers, h.key) == FirstText(r.headers, h.key)
  {
    var q := About(r);
    assert OccursAt(r.errorMessage, r.errorMessage, 0) && OccursAt(x.errorMessage, "", 0);
    forall f | f in q.headers ensures HeaderOk(f, r.headers) {
      var i :| 0 <= i < |r.headers| && q.headers[i] == f;
      LookupFinds(r.headers, r.headers[i]);
    }
    if Matches(q)(x) {
      forall h | h in r.headers && h.key != "" ensures FirstText(x.headers, h.key) == FirstText(r.headers, h.key) {
        var i :| 0 <= i < |r.headers| && r.headers[i] == h;
        assert q.headers[i] in q.headers;
        LookupFinds(r.headers, h);
      }
    }
  }

  /** What the index can test: the source topic, and everything but error message and headers. */
  function Indexed(q: Query, source: Text): Letter -> bool {
    (r: Letter) => r.originalTopic == source && TimeOk(q, r) && OriginOk(q, r) && ErrorOk(q, r)
  }

  // ---- Pages ----

  datatype LetterLog = LetterLog(records: seq<Letter>, next: nat)

  predicate Before(a: Letter, b: Letter) {
    a.offset < b.offset
  }

  ghost predicate Ordered(s: seq<Letter>) {
    forall i, j :: 0 <= i < j < |s| ==> s[i].offset < s[j].offset
  }

  ghost predicate LettersOk(log: LetterLog) {
    Ordered(log.records) && forall r :: r in log.records ==> r.offset < log.next
  }

  function LogStart(log: LetterLog): nat {
    if log.records == [] then log.next else log.records[0].offset
  }

  /** Whether an offset is not beyond the high watermark, the offset before the next one. */
  predicate HasMore(log: LetterLog, offset: nat) {
    log.next > 0 && offset <= log.next - 1
  }

  function AtLeast(offset: nat): Letter -> bool {
    (r: Letter) => r.offset >= offset
  }

  datatype Page = Page(records: seq<Letter>, next: nat, hasMore: bool)

  /** The matches among the first k records. */
  function Found(rs: seq<Letter>, p: Letter -> bool, k: nat): seq<Letter>
    requires k <= |rs|
  {
    Filter(rs[..k], p)
  }

  lemma {:induction false} FoundNext(rs: seq<Letter>, p: Letter -> bool, k: nat)
    requires k < |rs|
    ensures Found(rs, p, k + 1) == if p(rs[k]) then Found(rs, p, k) + [rs[k]] else Found(rs, p, k)
  {
    assert rs[..k + 1][..k] == rs[..k];
  }

  /** How many records are looked at, from the k-th on, until `limit` of them match or they run out. */
  function TakeFrom(rs: seq<Letter>, p: Letter -> bool, limit: nat, k: nat): (n: nat)
    requires k <= |rs|
    ensures k <= n <= |rs|
    decreases |rs| - k
  {
    if k == |rs| || |Found(rs, p, k)| >= limit then k else TakeFrom(rs, p, limit, k + 1)
  }

  lemma {:induction false} TakeNext(rs: seq<Letter>, p: Letter -> bool, limit: nat, k: nat)
    requires k < |rs| && |Found(rs, p, k)| < limit
    ensures TakeFrom(rs, p, limit, k) == TakeFrom(rs, p, limit, k + 1)
  {
  }

  /** Where reading goes on after the first k of these records. */
  function After(rs: seq<Letter>, start: nat, k: nat): nat
    requires k <= |rs|
  {
    if k == 0 then start else rs[k - 1].offset + 1
  }

  function PageOf(rs: seq<Letter>, start: nat, p: Letter -> bool, limit: nat, log: LetterLog): Page {
    var n := TakeFrom(rs, p, limit, 0);
    Page(Found(rs, p, n), After(rs, start, n), HasMore(log, After(rs, start, n)))
  }

  function ScanPage(log: LetterLog, q: Query, offset: nat, limit: nat): Page {
    var start := Max(offset, LogStart(log));
    PageOf(Filter(log.records, AtLeast(start)), start, Matches(q), limit, log)
  }

  /**
   * The dead letters of a partition and their index. Nothing deletes index entries, so an entry may outlive its letter;
   * and an entry may never have been saved.
   */
  datatype DeadLetters = DeadLetters(log: LetterLog, index: seq<Letter>)

  /** The index lists letters that were published, in offset order; where the log still holds one, it is the same. */
  ghost predicate StoreOk(d: DeadLetters) {
    && LettersOk(d.log) && Ordered(d.index)
    && (forall e :: e in d.index ==> e.offset < d.log.next)
    && (forall e, r :: e in d.index && r in d.log.records && e.offset == r.offset ==> e == r)
  }

  /** The index entries from an offset on that pass the index's filter. */
  function IndexEntries(d: DeadLetters, q: Query, source: Text, offset: nat): seq<Letter> {
    Filter(Filter(d.index, AtLeast(Max(offset, LogStart(d.log)))), Indexed(q, source))
  }

  /** The page over the index entries. */
  function IndexPage(d: DeadLetters, q: Query, source: Text, offset: nat, limit: nat): Page {
    PageOf(IndexEntries(d, q, source, offset), offset, Matches(q), limit, d.log)
  }

  /** Without entries the log is scanned. */
  function QueryPage(d: DeadLetters, q: Query, source: Text, offset: nat, limit: nat): Page {
    if IndexEntries(d, q, source, offset) == [] then ScanPage(d.log, q, offset, limit)
    else IndexPage(d, q, source, offset, limit)
  }

  // ---- Reading on ----

  /** The records from an offset on, at most so many. */
  function ReadLetters(log: LetterLog, offset: nat, max: nat): seq<Letter> {
    var found := Filter(log.records, AtLeast(offset));
    if |found| <= max then found else found[..max]
  }

  /** s is cut at k: offsets below k are less than this one, the others are not. */
  ghost predicate CutAt(s: seq<Letter>, offset: nat, k: nat) {
    && k <= |s|
    && (forall i :: 0 <= i < k ==> s[i].offset < offset)
    && (forall i :: k <= i < |s| ==> s[i].offset >= offset)
  }

  lemma {:induction false} FindCut(s: seq<Letter>, offset: nat) returns (k: nat)
    requires Ordered(s)
    ensures CutAt(s, offset, k)
  {
    k := 0;
    while k < |s| && s[k].offset < offset
      invariant k <= |s| && forall i :: 0 <= i < k ==> s[i].offset < offset
    {
      k := k + 1;
    }
  }

  lemma {:induction false} FilterAtCut(s: seq<Letter>, offset: nat, k: nat)
    requires CutAt(s, offset, k)
    ensures Filter(s, AtLeast(offset)) == s[k..]
  {
    if s != [] {
      var n := |s| - 1;
      if k <= n {
        FilterAtCut(s[..n], offset, k);
        assert s[k..] == s[..n][k..] + [s[n]];
      } else {
        FilterAtCut(s[..n], offset, n);
        assert s[..n][n..] == [] && s[k..] == [];
      }
    }
  }

  /** Of records in offset order, those from an offset on are a suffix. */
  lemma {:induction false} FilterIsSuffix(s: seq<Letter>, offset: nat) returns (k: nat)
    requires Ordered(s)
    ensures CutAt(s, offset, k) && Filter(s, AtLeast(offset)) == s[k..]
  {
    k := FindCut(s, offset);
    FilterAtCut(s, offset, k);
  }

  /** After looking at the first k of the records from `start` on, reading on gives the rest of them. */
  lemma {:induction false} ReadOn(log: LetterLog, start: nat, k: nat)
    requires LettersOk(log)
    requires k <= |Filter(log.records, AtLeast(start))|
    ensures
      var rest := Filter(log.records, AtLeast(start));
      Filter(log.records, AtLeast(After(rest, start, k))) == rest[k..]
  {
    var rest := Filter(log.records, AtLeast(start));
    if k > 0 {
      var a := FilterIsSuffix(log.records, start);
      var b := FilterIsSuffix(log.records, After(rest, start, k));
      assert rest[k - 1] == log.records[a + k - 1];
      assert log.records[a + k - 1].offset < After(rest, start, k);
      assert a + k < |log.records| ==> log.records[a + k - 1].offset < log.records[a + k].offset;
      assert b == a + k;
    }
  }

  // ---- What can go wrong ----

  /**
   * Which store operations of a query fail: the check for the topic, loading the offsets, listing the index, reading
   * records from an offset on; and which letters cannot be parsed.
   */
  datatype Faults = Faults(topic: bool, offsets: bool, list: bool, read: nat -> bool, broken: Letter -> bool)

  /** The letter an entry names is gone. */
  function Gone(log: LetterLog): Letter -> bool {
    (e: Letter) => e !in log.records
  }

  /** The letter an entry names cannot be had. */
  function Bad(log: LetterLog, f: Faults): Letter -> bool {
    (e: Letter) => f.read(e.offset) || e !in log.records || f.broken(e)
  }

  /** One of the letters the page looks at is broken. */
  predicate Breaks(rs: seq<Letter>, p: Letter -> bool, limit: nat, broken: Letter -> bool) {
    exists i :: 0 <= i < TakeFrom(rs, p, limit, 0) && broken(rs[i])
  }

  /** A page looks at a letter exactly if fewer matches than the limit come before it. */
  lemma {:induction false} BreaksExactlyWhen(rs: seq<Letter>, p: Letter -> bool, limit: nat, broken: Letter -> bool)
    ensures Breaks(rs, p, limit, broken)
       <==> exists i :: 0 <= i < |rs| && broken(rs[i]) && |Found(rs, p, i)| < limit
  {
    forall i | 0 <= i < |rs| ensures i < TakeFrom(rs, p, limit, 0) <==> |Found(rs, p, i)| < limit {
      TakenExactlyWhen(rs, p, limit, 0, i);
    }
  }

  lemma {:induction false} TakenExactlyWhen(rs: seq<Letter>, p: Letter -> bool, limit: nat, k: nat, i: nat)
    requires k <= i < |rs|
    ensures i < TakeFrom(rs, p, limit, k) <==> |Found(rs, p, i)| < limit
    decreases i - k
  {
    if |Found(rs, p, k)| >= limit {
      FoundGrows(rs, p, k, i);
    } else if k < i {
      TakenExactlyWhen(rs, p, limit, k + 1, i);
    } else {
      assert TakeFrom(rs, p, limit, k) == TakeFrom(rs, p, limit, k + 1) >= k + 1;
    }
  }

  lemma {:induction false} FoundGrows(rs: seq<Letter>, p: Letter -> bool, k: nat, m: nat)
    requires k <= m <= |rs|
    ensures |Found(rs, p, k)| <= |Found(rs, p, m)|
    decreases m
  {
    if k < m {
      FoundGrows(rs, p, k, m - 1);
      FoundNext(rs, p, m - 1);
    }
  }

  /** One of the batch reads of a scan fails, from the one that starts behind the first k records on. */
  predicate ReadFails(
    rs: seq<Letter>, start: nat, p: Letter -> bool, limit: nat, log: LetterLog, maxFetch: nat, read: nat -> bool,
    k: nat)
    requires k <= |rs| && maxFetch > 0
    decreases |rs| - k
  {
    && |Found(rs, p, k)| < limit && HasMore(log, After(rs, start, k))
    && (|| read(After(rs, start, k))
        || (k + maxFetch <= |rs| && ReadFails(rs, start, p, limit, log, maxFetch, read, k + maxFetch)))
  }

  /** A scan that looks at `maxFetch` records at a time comes to read behind the first m of them. */
  ghost predicate ReadsBehind(
    rs: seq<Letter>, start: nat, p: Letter -> bool, limit: nat, log: LetterLog, maxFetch: nat, k: nat, m: nat)
    requires k <= |rs| && maxFetch > 0
  {
    && k <= m <= |rs| && (m - k) % maxFetch == 0
    && |Found(rs, p, m)| < limit && HasMore(log, After(rs, start, m))
  }

  lemma {:induction false} ReadsEarlier(
    rs: seq<Letter>, start: nat, p: Letter -> bool, limit: nat, log: LetterLog, maxFetch: nat, k: nat, m: nat)
    requires Ordered(rs) && (forall r :: r in rs ==> r.offset >= start) && k <= |rs| && maxFetch > 0
    requires ReadsBehind(rs, start, p, limit, log, maxFetch, k, m)
    ensures ReadsBehind(rs, start, p, limit, log, maxFetch, k, k)
    ensures m > k ==> k + maxFetch <= m && ReadsBehind(rs, start, p, limit, log, maxFetch, k + maxFetch, m)
  {
    FoundGrows(rs, p, k, m);
    if m > k {
      assert rs[m - 1] in rs && (k > 0 ==> k - 1 == m - 1 || rs[k - 1].offset < rs[m - 1].offset);
      StepDown(m - k, maxFetch);
    }
  }

  lemma {:induction false} StepDown(x: nat, m: nat)
    requires m > 0 && x > 0 && x % m == 0
    ensures x >= m && (x - m) % m == 0
  {
    var q := x / m;
    assert x == m * q;
    MulStep(m, 0, q);
    assert x - m == m * (q - 1);
    DivModUnique(x - m, m, q - 1, 0);
  }

  lemma {:induction false} StepUp(x: nat, m: nat)
    requires m > 0 && x % m == 0
    ensures (x + m) % m == 0
  {
    var q := x / m;
    assert x + m == m * (q + 1);
    DivModUnique(x + m, m, q + 1, 0);
  }

  /** One of the reads the scan makes from the k-th record on fails. */
  ghost predicate SomeReadFails(
    rs: seq<Letter>, start: nat, p: Letter -> bool, limit: nat, log: LetterLog, maxFetch: nat, read: nat -> bool,
    k: nat)
    requires k <= |rs| && maxFetch > 0
  {
    exists m: nat :: ReadsBehind(rs, start, p, limit, log, maxFetch, k, m) && read(After(rs, start, m))
  }

  lemma {:induction false} FailsHereOrLater(
    rs: seq<Letter>, start: nat, p: Letter -> bool, limit: nat, log: LetterLog, maxFetch: nat, read: nat -> bool,
    k: nat)
    requires k <= |rs| && maxFetch > 0 && ReadsBehind(rs, start, p, limit, log, maxFetch, k, k)
    requires || read(After(rs, start, k))
             || (k + maxFetch <= |rs| && SomeReadFails(rs, start, p, limit, log, maxFetch, read, k + maxFetch))
    ensures SomeReadFails(rs, start, p, limit, log, maxFetch, read, k)
  {
    if !read(After(rs, start, k)) {
      var m: nat :| ReadsBehind(rs, start, p, limit, log, maxFetch, k + maxFetch, m) && read(After(rs, start, m));
      StepUp(m - k - maxFetch, maxFetch);
      assert ReadsBehind(rs, start, p, limit, log, maxFetch, k, m);
    }
  }

  lemma {:induction false} LaterOrHere(
    rs: seq<Letter>, start: nat, p: Letter -> bool, limit: nat, log: LetterLog, maxFetch: nat, read: nat -> bool,
    k: nat)
    requires Ordered(rs) && (forall r :: r in rs ==> r.offset >= start) && k <= |rs| && maxFetch > 0
    requires SomeReadFails(rs, start, p, limit, log, maxFetch, read, k)
    ensures ReadsBehind(rs, start, p, limit, log, maxFetch, k, k)
    ensures || read(After(rs, start, k))
            || (k + maxFetch <= |rs| && SomeReadFails(rs, start, p, limit, log, maxFetch, read, k + maxFetch))
  {
    var m: nat :| ReadsBehind(rs, start, p, limit, log, maxFetch, k, m) && read(After(rs, start, m));
    ReadsEarlier(rs, start, p, limit, log, maxFetch, k, m);
  }

  /** A scan fails to read exactly if one of the reads it makes, a batch apart, fails. */
  lemma {:induction false} ReadFailsExactlyWhen(
    rs: seq<Letter>, start: nat, p: Letter -> bool, limit: nat, log: LetterLog, maxFetch: nat, read: nat -> bool,
    k: nat)
    requires Ordered(rs) && (forall r :: r in rs ==> r.offset >= start) && k <= |rs| && maxFetch > 0
    ensures ReadFails(rs, start, p, limit, log, maxFetch, read, k)
       <==> SomeReadFails(rs, start, p, limit, log, maxFetch, read, k)
    decreases |rs| - k
  {
    if k + maxFetch <= |rs| { ReadFailsExactlyWhen(rs, start, p, limit, log, maxFetch, read, k + maxFetch); }
    if ReadFails(rs, start, p, limit, log, maxFetch, read, k) {
      DivModUnique(0, maxFetch, 0, 0);
      FailsHereOrLater(rs, start, p, limit, log, maxFetch, read, k);
    }
    if SomeReadFails(rs, start, p, limit, log, maxFetch, read, k) {
      LaterOrHere(rs, start, p, limit, log, maxFetch, read, k);
    }
  }

  ghost predicate Sound(rs: seq<Letter>, broken: Letter -> bool, k: nat)
    requires k <= |rs|
  {
    forall i :: 0 <= i < k ==> !broken(rs[i])
  }

  /** How far a page has got: the matches so far, nothing broken, and where it will end. */
  ghost predicate Reached(
    rs: seq<Letter>, p: Letter -> bool, limit: nat, broken: Letter -> bool, k: nat, found: seq<Letter>)
  {
    && k <= |rs| && found == Found(rs, p, k) && Sound(rs, broken, k)
    && TakeFrom(rs, p, limit, 0) == TakeFrom(rs, p, limit, k)
  }

  lemma {:induction false} ReachStart(rs: seq<Letter>, p: Letter -> bool, limit: nat, broken: Letter -> bool)
    ensures Reached(rs, p, limit, broken, 0, [])
  {
  }

  /** One more record, sound or not. */
  lemma {:induction false} ReachNext(
    rs: seq<Letter>, p: Letter -> bool, limit: nat, broken: Letter -> bool, k: nat, found: seq<Letter>)
    requires Reached(rs, p, limit, broken, k, found) && k < |rs| && |found| < limit
    ensures broken(rs[k]) ==> Breaks(rs, p, limit, broken)
    ensures !broken(rs[k]) ==> Reached(rs, p, limit, broken, k + 1, if p(rs[k]) then found + [rs[k]] else found)
  {
    TakeNext(rs, p, limit, k);
    assert k < TakeFrom(rs, p, limit, 0);
    if !broken(rs[k]) {
      FoundNext(rs, p, k);
      SoundNext(rs, broken, k);
    }
  }

  lemma {:induction false} SoundNext(rs: seq<Letter>, broken: Letter -> bool, k: nat)
    requires k < |rs| && Sound(rs, broken, k) && !broken(rs[k])
    ensures Sound(rs, broken, k + 1)
  {
  }

  lemma {:induction false} ReachEnd(
    rs: seq<Letter>, start: nat, p: Letter -> bool, limit: nat, broken: Letter -> bool, k: nat, found: seq<Letter>,
    log: LetterLog)
    requires Reached(rs, p, limit, broken, k, found) && (k == |rs| || |found| >= limit)
    ensures !Breaks(rs, p, limit, broken)
    ensures PageOf(rs, start, p, limit, log) == Page(found, After(rs, start, k), HasMore(log, After(rs, start, k)))
  {
  }

  // ---- The loops ----

  /** How far a page can have got, by number of records and matches; see `Reached`. */
  type Reach = (nat, seq<Letter>) -> bool

  /** From a place that can be reached, a broken record breaks the page and any other leads on. */
  ghost predicate LeadsOn(
    reach: Reach, breaks: bool, rs: seq<Letter>, p: Letter -> bool, limit: nat, broken: Letter -> bool)
  {
    forall k: nat, found: seq<Letter> :: LeadsOnAt(reach, breaks, rs, p, limit, broken, k, found)
  }

  ghost predicate LeadsOnAt(
    reach: Reach, breaks: bool, rs: seq<Letter>, p: Letter -> bool, limit: nat, broken: Letter -> bool, k: nat,
    found: seq<Letter>)
  {
    k < |rs| && |found| < limit && reach(k, found) ==>
      if broken(rs[k]) then breaks else reach(k + 1, if p(rs[k]) then found + [rs[k]] else found)
  }

  ghost function Reaches(rs: seq<Letter>, p: Letter -> bool, limit: nat, broken: Letter -> bool): Reach {
    (k: nat, found: seq<Letter>) => Reached(rs, p, limit, broken, k, found)
  }

  lemma {:induction false} ReachLeadsOn(rs: seq<Letter>, p: Letter -> bool, limit: nat, broken: Letter -> bool)
    ensures LeadsOn(Reaches(rs, p, limit, broken), Breaks(rs, p, limit, broken), rs, p, limit, broken)
  {
    var reach, breaks := Reaches(rs, p, limit, broken), Breaks(rs, p, limit, broken);
    forall k: nat, found: seq<Letter> ensures LeadsOnAt(reach, breaks, rs, p, limit, broken, k, found) {
      ReachLeadsOnAt(rs, p, limit, broken, k, found, reach, breaks);
    }
  }

  lemma {:induction false} ReachLeadsOnAt(
    rs: seq<Letter>, p: Letter -> bool, limit: nat, broken: Letter -> bool, k: nat, found: seq<Letter>, reach: Reach,
    breaks: bool)
    requires reach == Reaches(rs, p, limit, broken) && (Breaks(rs, p, limit, broken) ==> breaks)
    ensures LeadsOnAt(reach, breaks, rs, p, limit, broken, k, found)
  {
    if k < |rs| && |found| < limit && reach(k, found) {
      assert Reached(rs, p, limit, broken, k, found);
      ReachNext(rs, p, limit, broken, k, found);
    }
  }

  /** Looks at a batch: what it adds, how many it looked at, whether the page is full, or that a record is broken. */
  method AppendMatching(
    batch: seq<Letter>, p: Letter -> bool, limit: nat, broken: Letter -> bool, found: seq<Letter>,
    ghost rs: seq<Letter>, ghost done: nat, ghost reach: Reach, ghost breaks: bool)
    returns (out: seq<Letter>, looked: nat, full: bool, failed: bool)
    requires batch != [] && done + |batch| <= |rs| && forall i :: 0 <= i < |batch| ==> batch[i] == rs[done + i]
    requires reach(done, found) && |found| < limit && LeadsOn(reach, breaks, rs, p, limit, broken)
    ensures failed ==> breaks
    ensures !failed ==> 0 < looked <= |batch| && reach(done + looked, out)
    ensures !failed ==> (full <==> |out| >= limit) && (!full ==> looked == |batch|)
  {
    out, looked := found, 0;
    while looked < |batch|
      invariant 0 <= looked <= |batch| && |out| < limit && reach(done + looked, out)
    {
      assert batch[looked] == rs[done + looked];
      assert LeadsOnAt(reach, breaks, rs, p, limit, broken, done + looked, out);
      if broken(batch[looked]) { return out, looked, false, true; }
      if p(batch[looked]) { out := out + [batch[looked]]; }
      looked := looked + 1;
      if |out| >= limit { return out, looked, true, false; }
    }
    return out, looked, false, false;
  }

  /** Whether a batch read fails from some position on; see `ReadFails`. */
  type Failing = nat -> bool

  /** A read from a place that can be reached fails, or a later one does; once the page is full there is no other. */
  ghost predicate FailsAt(
    fails: Failing, reach: Reach, rs: seq<Letter>, start: nat, limit: nat, log: LetterLog, maxFetch: nat,
    read: nat -> bool, k: nat, found: seq<Letter>)
  {
    k <= |rs| && reach(k, found) ==>
      && (fails(k) <==> && |found| < limit && HasMore(log, After(rs, start, k))
                        && (read(After(rs, start, k)) || (k + maxFetch <= |rs| && fails(k + maxFetch))))
      && (|found| >= limit ==> NoneFrom(fails, k, |rs|))
  }

  ghost predicate NoneFrom(fails: Failing, k: nat, n: nat) {
    forall m: nat :: k <= m <= n ==> !fails(m)
  }

  ghost predicate FailsOn(
    fails: Failing, reach: Reach, rs: seq<Letter>, start: nat, limit: nat, log: LetterLog, maxFetch: nat,
    read: nat -> bool)
  {
    forall k: nat, found: seq<Letter> :: FailsAt(fails, reach, rs, start, limit, log, maxFetch, read, k, found)
  }

  ghost function FailsFrom(
    rs: seq<Letter>, start: nat, p: Letter -> bool, limit: nat, log: LetterLog, maxFetch: nat, read: nat -> bool)
    : Failing
    requires maxFetch > 0
  {
    (k: nat) => k <= |rs| && ReadFails(rs, start, p, limit, log, maxFetch, read, k)
  }

  lemma {:induction false} ReadFailsOn(
    rs: seq<Letter>, start: nat, p: Letter -> bool, limit: nat, broken: Letter -> bool, log: LetterLog, maxFetch: nat,
    read: nat -> bool)
    requires maxFetch > 0
    ensures FailsOn(FailsFrom(rs, start, p, limit, log, maxFetch, read), Reaches(rs, p, limit, broken), rs, start,
                    limit, log, maxFetch, read)
  {
    var fails, reach := FailsFrom(rs, start, p, limit, log, maxFetch, read), Reaches(rs, p, limit, broken);
    forall k: nat, found: seq<Letter> ensures FailsAt(fails, reach, rs, start, limit, log, maxFetch, read, k, found) {
      ReadFailsAt(rs, start, p, limit, broken, log, maxFetch, read, k, found, fails, reach);
    }
  }

  lemma {:induction false} ReadFailsAt(
    rs: seq<Letter>, start: nat, p: Letter -> bool, limit: nat, broken: Letter -> bool, log: LetterLog, maxFetch: nat,
    read: nat -> bool, k: nat, found: seq<Letter>, fails: Failing, reach: Reach)
    requires maxFetch > 0
    requires fails == FailsFrom(rs, start, p, limit, log, maxFetch, read) && reach == Reaches(rs, p, limit, broken)
    ensures FailsAt(fails, reach, rs, start, limit, log, maxFetch, read, k, found)
  {
    if k <= |rs| && reach(k, found) {
      assert Reached(rs, p, limit, broken, k, found);
      forall m | k <= m <= |rs| ensures |found| >= limit ==> !fails(m) { FoundGrows(rs, p, k, m); }
    }
  }

  /** After a batch was read and looked at, a read fails exactly if the scan goes on and one fails from there on. */
  lemma {:induction false} FailsNext(
    fails: Failing, reach: Reach, rs: seq<Letter>, start: nat, limit: nat, log: LetterLog, maxFetch: nat,
    read: nat -> bool, k: nat, found: seq<Letter>, fetched: nat, looked: nat, out: seq<Letter>)
    requires FailsOn(fails, reach, rs, start, limit, log, maxFetch, read)
    requires reach(k, found) && |found| < limit && reach(k + looked, out)
    requires looked <= fetched <= maxFetch && k + fetched <= |rs| && (fetched < maxFetch ==> k + fetched == |rs|)
    requires |out| < limit ==> looked == fetched
    requires HasMore(log, After(rs, start, k)) && !read(After(rs, start, k))
    ensures fails(k) <==> |out| < limit && fetched == maxFetch && fails(k + looked)
  {
    assert FailsAt(fails, reach, rs, start, limit, log, maxFetch, read, k, found);
    assert FailsAt(fails, reach, rs, start, limit, log, maxFetch, read, k + looked, out);
  }

  method FetchBatch(
    log: LetterLog, start: nat, next: nat, maxFetch: nat, ghost rs: seq<Letter>, ghost done: nat)
    returns (batch: seq<Letter>)
    requires LettersOk(log) && maxFetch > 0 && rs == Filter(log.records, AtLeast(start)) && done <= |rs|
    requires next == After(rs, start, done)
    ensures |batch| <= maxFetch && done + |batch| <= |rs| && forall i :: 0 <= i < |batch| ==> batch[i] == rs[done + i]
    ensures |batch| < maxFetch ==> done + |batch| == |rs|
  {
    batch := ReadLetters(log, next, maxFetch);
    BatchIsNext(log, start, done, maxFetch, rs, batch);
  }

  /** One batch of a scan: what has been found after it, where it leaves off, and whether the scan stops there. */
  method ScanNextBatch(
    log: LetterLog, p: Letter -> bool, start: nat, limit: nat, maxFetch: nat, f: Faults, next: nat, found: seq<Letter>,
    ghost rs: seq<Letter>, ghost done: nat, ghost reach: Reach, ghost breaks: bool, ghost fails: Failing)
    returns (out: seq<Letter>, end: nat, stop: bool, failed: bool, ghost looked: nat)
    requires LettersOk(log) && maxFetch > 0 && rs == Filter(log.records, AtLeast(start)) && done <= |rs|
    requires |found| < limit && next == After(rs, start, done) && HasMore(log, next)
    requires reach(done, found) && LeadsOn(reach, breaks, rs, p, limit, f.broken)
    requires FailsOn(fails, reach, rs, start, limit, log, maxFetch, f.read)
    ensures failed ==> breaks || fails(done)
    ensures !failed ==> done + looked <= |rs| && reach(done + looked, out) && end == After(rs, start, done + looked)
    ensures !failed ==> (stop ==> done + looked == |rs| || |out| >= limit) && (!stop ==> looked > 0)
    ensures !failed ==> fails(done) == (!stop && fails(done + looked))
  {
    out, end, stop, failed, looked := found, next, false, false, 0;
    if f.read(next) {
      assert FailsAt(fails, reach, rs, start, limit, log, maxFetch, f.read, done, found);
      failed := true;
      return;
    }
    var batch := FetchBatch(log, start, next, maxFetch, rs, done);
    if |batch| == 0 {
      FailsNext(fails, reach, rs, start, limit, log, maxFetch, f.read, done, found, 0, 0, found);
      stop := true;
      return;
    }
    var n, full;
    out, n, full, failed := AppendMatching(batch, p, limit, f.broken, found, rs, done, reach, breaks);
    if failed { return; }
    FailsNext(fails, reach, rs, start, limit, log, maxFetch, f.read, done, found, |batch|, n, out);
    assert batch[n - 1] == rs[done + n - 1];
    end, looked, stop := batch[n - 1].offset + 1, n, full || |batch| < maxFetch;
  }

  method ScanBatches(
    log: LetterLog, p: Letter -> bool, start: nat, limit: nat, maxFetch: nat, f: Faults, ghost rs: seq<Letter>,
    ghost reach: Reach, ghost breaks: bool, ghost fails: Failing)
    returns (found: seq<Letter>, next: nat, failed: bool, ghost done: nat)
    requires LettersOk(log) && limit > 0 && maxFetch > 0 && rs == Filter(log.records, AtLeast(start))
    requires reach(0, []) && LeadsOn(reach, breaks, rs, p, limit, f.broken)
    requires FailsOn(fails, reach, rs, start, limit, log, maxFetch, f.read)
    ensures failed ==> breaks || fails(0)
    ensures !failed ==> done <= |rs| && reach(done, found) && next == After(rs, start, done)
    ensures !failed ==> done == |rs| || |found| >= limit || !HasMore(log, next)
    ensures !failed ==> !fails(0)
  {
    next, found, failed, done := start, [], false, 0;
    var stop := false;
    while |found| < limit && HasMore(log, next) && !stop
      invariant done <= |rs| && reach(done, found) && next == After(rs, start, done)
      invariant stop ==> done == |rs| || |found| >= limit
      invariant fails(0) == (!stop && fails(done))
      decreases !stop, |rs| - done
    {
      var out, end, last, bad, looked :=
        ScanNextBatch(log, p, start, limit, maxFetch, f, next, found, rs, done, reach, breaks, fails);
      if bad { return found, next, true, done; }
      next, found, stop, done := end, out, last, done + looked;
    }
    assert FailsAt(fails, reach, rs, start, limit, log, maxFetch, f.read, done, found);
  }

  /** What a scan answers: its page, or an error exactly if a letter it looks at is broken or a read it makes fails. */
  function ScanFrom(
    log: LetterLog, p: Letter -> bool, start: nat, limit: nat, maxFetch: nat, f: Faults): Result<Page>
    requires maxFetch > 0
  {
    var rs := Filter(log.records, AtLeast(start));
    if Breaks(rs, p, limit, f.broken) || ReadFails(rs, start, p, limit, log, maxFetch, f.read, 0)
    then Err("dead letter cannot be read") else Ok(PageOf(rs, start, p, limit, log))
  }

  method ScanBatchesFrom(
    log: LetterLog, p: Letter -> bool, start: nat, limit: nat, maxFetch: nat, f: Faults) returns (r: Result<Page>)
    requires LettersOk(log) && limit > 0 && maxFetch > 0
    ensures r == ScanFrom(log, p, start, limit, maxFetch, f)
  {
    ghost var rs := Filter(log.records, AtLeast(start));
    ghost var reach, breaks := Reaches(rs, p, limit, f.broken), Breaks(rs, p, limit, f.broken);
    ghost var fails := FailsFrom(rs, start, p, limit, log, maxFetch, f.read);
    ReachStart(rs, p, limit, f.broken);
    ReachLeadsOn(rs, p, limit, f.broken);
    ReadFailsOn(rs, start, p, limit, f.broken, log, maxFetch, f.read);
    var found, next, failed, done := ScanBatches(log, p, start, limit, maxFetch, f, rs, reach, breaks, fails);
    if failed { return Err("dead letter cannot be read"); }
    if done < |rs| { StillMore(log, start, done, rs); }
    ReachEnd(rs, start, p, limit, f.broken, done, found, log);
    return Ok(Page(found, next, HasMore(log, next)));
  }

  lemma {:induction false} BatchIsNext(
    log: LetterLog, start: nat, done: nat, maxFetch: nat, rs: seq<Letter>, batch: seq<Letter>)
    requires LettersOk(log) && rs == Filter(log.records, AtLeast(start)) && done <= |rs| && maxFetch > 0
    requires batch == ReadLetters(log, After(rs, start, done), maxFetch)
    ensures |batch| <= maxFetch && done + |batch| <= |rs| && forall i :: 0 <= i < |batch| ==> batch[i] == rs[done + i]
    ensures |batch| < maxFetch ==> done + |batch| == |rs|
  {
    ReadOn(log, start, done);
  }

  /** While records are left, reading has not passed the high watermark. */
  lemma {:induction false} StillMore(log: LetterLog, start: nat, done: nat, rs: seq<Letter>)
    requires LettersOk(log) && rs == Filter(log.records, AtLeast(start)) && done < |rs|
    ensures HasMore(log, After(rs, start, done))
  {
    FilterMembers(log.records, AtLeast(start));
    FilterSorted(log.records, AtLeast(start), Before);
    assert rs[done] in rs;
    assert done > 0 ==> rs[done - 1].offset < rs[done].offset;
  }

  function Scanned(
    log: LetterLog, q: Query, offset: nat, limit: nat, maxFetch: nat, f: Faults): Result<Page>
    requires maxFetch > 0
  {
    ScanFrom(log, Matches(q), Max(offset, LogStart(log)), limit, maxFetch, f)
  }

  method ScanDLQRecords(
    log: LetterLog, q: Query, offset: nat, limit: nat, maxFetch: nat, f: Faults) returns (r: Result<Page>)
    requires LettersOk(log) && limit > 0 && maxFetch > 0
    ensures r == Scanned(log, q, offset, limit, maxFetch, f)
  {
    var start := if offset < LogStart(log) then LogStart(log) else offset;
    r := ScanBatchesFrom(log, Matches(q), start, limit, maxFetch, f);
  }

  // ---- By index ----

  lemma {:induction false} ReadOne(d: DeadLetters, e: Letter)
    requires StoreOk(d) && e in d.index
    ensures
      var read := ReadLetters(d.log, e.offset, 1);
      && (e in d.log.records <==> |read| > 0 && read[0].offset == e.offset)
      && (e in d.log.records ==> read[0] == e)
  {
    var found := Filter(d.log.records, AtLeast(e.offset));
    FilterMembers(d.log.records, AtLeast(e.offset));
    FilterSorted(d.log.records, AtLeast(e.offset), Before);
    if found != [] { assert found[0] in found; }
    if e in d.log.records {
      assert e in found;
      var i :| 0 <= i < |found| && found[i] == e;
      assert i > 0 ==> Before(found[0], found[i]);
    }
  }

  /** The letter at an offset, unless it is gone or cannot be read or parsed. */
  method ReadRecordAtOffset(d: DeadLetters, e: Letter, f: Faults) returns (r: Option<Letter>)
    requires StoreOk(d) && e in d.index
    ensures r == if Bad(d.log, f)(e) then None else Some(e)
  {
    if f.read(e.offset) { return None; }
    var read := ReadLetters(d.log, e.offset, 1);
    ReadOne(d, e);
    if |read| == 0 || read[0].offset != e.offset { return None; }
    if f.broken(read[0]) { return None; }
    return Some(read[0]);
  }

  method AppendIndexed(
    d: DeadLetters, entries: seq<Letter>, p: Letter -> bool, limit: nat, f: Faults, ghost reach: Reach,
    ghost breaks: bool)
    returns (out: seq<Letter>, looked: nat, failed: bool)
    requires StoreOk(d) && limit > 0 && forall e :: e in entries ==> e in d.index
    requires reach(0, []) && LeadsOn(reach, breaks, entries, p, limit, Bad(d.log, f))
    ensures failed ==> breaks
    ensures !failed ==> looked <= |entries| && reach(looked, out) && (looked == |entries| || |out| >= limit)
    ensures !failed && entries != [] ==> looked > 0
  {
    out, looked, failed := [], 0, false;
    while looked < |entries|
      invariant looked <= |entries| && |out| < limit && reach(looked, out)
    {
      assert LeadsOnAt(reach, breaks, entries, p, limit, Bad(d.log, f), looked, out);
      var letter := ReadRecordAtOffset(d, entries[looked], f);
      if letter.None? { return out, looked, true; }
      if p(letter.value) { out := out + [letter.value]; }
      looked := looked + 1;
      if |out| >= limit { return; }
    }
  }

  /** What the index answers, if it has entries: its page, or an error exactly if an entry it looks at is bad. */
  function FromIndex(d: DeadLetters, q: Query, source: Text, offset: nat, limit: nat, f: Faults): Option<Result<Page>> {
    var entries := IndexEntries(d, q, source, offset);
    if entries == [] then None
    else if Breaks(entries, Matches(q), limit, Bad(d.log, f)) then Some(Err("dead letter cannot be read"))
    else Some(Ok(IndexPage(d, q, source, offset, limit)))
  }

  lemma {:induction false} EntriesAreIndexed(d: DeadLetters, q: Query, source: Text, offset: nat)
    ensures forall e :: e in IndexEntries(d, q, source, offset) <==>
              e in d.index && e.offset >= Max(offset, LogStart(d.log)) && Indexed(q, source)(e)
    ensures Ordered(d.index) ==> Ordered(IndexEntries(d, q, source, offset))
  {
    var start := Max(offset, LogStart(d.log));
    FilterMembers(d.index, AtLeast(start));
    FilterMembers(Filter(d.index, AtLeast(start)), Indexed(q, source));
    if Ordered(d.index) {
      FilterSorted(d.index, AtLeast(start), Before);
      FilterSorted(Filter(d.index, AtLeast(start)), Indexed(q, source), Before);
    }
  }

  method PageOfEntries(
    d: DeadLetters, entries: seq<Letter>, offset: nat, p: Letter -> bool, limit: nat, f: Faults)
    returns (r: Result<Page>)
    requires StoreOk(d) && limit > 0 && entries != [] && forall e :: e in entries ==> e in d.index
    ensures r == if Breaks(entries, p, limit, Bad(d.log, f)) then Err("dead letter cannot be read")
                 else Ok(PageOf(entries, offset, p, limit, d.log))
  {
    ReachStart(entries, p, limit, Bad(d.log, f));
    ReachLeadsOn(entries, p, limit, Bad(d.log, f));
    ghost var reach, breaks := Reaches(entries, p, limit, Bad(d.log, f)), Breaks(entries, p, limit, Bad(d.log, f));
    var found, looked, failed := AppendIndexed(d, entries, p, limit, f, reach, breaks);
    if failed { return Err("dead letter cannot be read"); }
    var next := entries[looked - 1].offset + 1;
    ReachEnd(entries, offset, p, limit, Bad(d.log, f), looked, found, d.log);
    return Ok(Page(found, next, HasMore(d.log, next)));
  }

  method QueryByIndex(d: DeadLetters, q: Query, source: Text, offset: nat, limit: nat, f: Faults)
    returns (r: Option<Result<Page>>)
    requires StoreOk(d) && limit > 0
    ensures r == FromIndex(d, q, source, offset, limit, f)
  {
    var entries := IndexEntries(d, q, source, offset);
    if |entries| == 0 { return None; }
    EntriesAreIndexed(d, q, source, offset);
    var page := PageOfEntries(d, entries, offset, Matches(q), limit, f);
    return Some(page);
  }

  // ---- A query ----

  /** What a query answers; without a dead-letter topic there is nothing. */
  function Answered(
    d: Option<DeadLetters>, q: Query, source: Text, offset: nat, limit: nat, maxFetch: nat, f: Faults): Result<Page>
    requires maxFetch > 0
  {
    if f.topic then Err("check dlq topic")
    else if d.None? then Ok(Page([], offset, false))
    else if f.offsets then Err("load dlq offsets")
    else if f.list then Err("query dlq indexes")
    else
      match FromIndex(d.value, q, source, offset, limit, f)
      case Some(r) => r
      case None => Scanned(d.value.log, q, offset, limit, maxFetch, f)
  }

  method QueryDLQ(
    d: Option<DeadLetters>, q: Query, source: Text, offset: nat, limit: nat, maxFetch: nat, f: Faults)
    returns (r: Result<Page>)
    requires d.Some? ==> StoreOk(d.value)
    requires limit > 0 && maxFetch > 0
    ensures r == Answered(d, q, source, offset, limit, maxFetch, f)
  {
    if f.topic { return Err("check dlq topic"); }
    if d.None? { return Ok(Page([], offset, false)); }
    if f.offsets { return Err("load dlq offsets"); }
    if f.list { return Err("query dlq indexes"); }
    var indexed := QueryByIndex(d.value, q, source, offset, limit, f);
    if indexed.Some? { return indexed.value; }
    r := ScanDLQRecords(d.value.log, q, offset, limit, maxFetch, f);
  }

  /** An entry whose letter is gone is among those the page looks at. */
  predicate LooksAtGone(d: DeadLetters, q: Query, source: Text, offset: nat, limit: nat) {
    Breaks(IndexEntries(d, q, source, offset), Matches(q), limit, Gone(d.log))
  }

  /** Whatever fails, an answer that is not an error is the query's page, over letters that are all there. */
  lemma {:induction false} AnsweredIsPage(
    d: DeadLetters, q: Query, source: Text, offset: nat, limit: nat, maxFetch: nat, f: Faults)
    requires maxFetch > 0
    ensures
      var r := Answered(Some(d), q, source, offset, limit, maxFetch, f);
      r.Ok? ==> r.value == QueryPage(d, q, source, offset, limit) && !LooksAtGone(d, q, source, offset, limit)
  {
    var entries := IndexEntries(d, q, source, offset);
    if !Breaks(entries, Matches(q), limit, Bad(d.log, f)) {
      assert !Breaks(entries, Matches(q), limit, Gone(d.log)) by {
        forall i | 0 <= i < TakeFrom(entries, Matches(q), limit, 0) ensures !Gone(d.log)(entries[i]) {
          assert !Bad(d.log, f)(entries[i]);
        }
      }
    }
  }

  const NoFaults := Faults(false, false, false, _ => false, _ => false)

  /**
   * When the store works and every letter can be parsed, a query is an error if and only if an index entry from the
   * offset on that passes the index's filter is gone, with fewer than `limit` matching entries before it.
   */
  lemma {:induction false} QueryErrsExactlyWhen(
    d: DeadLetters, q: Query, source: Text, offset: nat, limit: nat, maxFetch: nat)
    requires maxFetch > 0
    ensures
      var entries := IndexEntries(d, q, source, offset);
      Answered(Some(d), q, source, offset, limit, maxFetch, NoFaults).Err?
      <==> exists i :: 0 <= i < |entries| && entries[i] !in d.log.records && |Found(entries, Matches(q), i)| < limit
  {
    var entries, bad := IndexEntries(d, q, source, offset), Bad(d.log, NoFaults);
    BreaksExactlyWhen(entries, Matches(q), limit, bad);
    assert forall i :: 0 <= i < |entries| ==> (bad(entries[i]) <==> entries[i] !in d.log.records);
    var start := Max(offset, LogStart(d.log));
    NeverFails(Filter(d.log.records, AtLeast(start)), start, Matches(q), limit, d.log, maxFetch, 0);
  }

  lemma {:induction false} NeverFails(
    rs: seq<Letter>, start: nat, p: Letter -> bool, limit: nat, log: LetterLog, maxFetch: nat, k: nat)
    requires k <= |rs| && maxFetch > 0
    ensures !ReadFails(rs, start, p, limit, log, maxFetch, NoFaults.read, k)
    decreases |rs| - k
  {
    if k + maxFetch <= |rs| { NeverFails(rs, start, p, limit, log, maxFetch, k + maxFetch); }
  }
}
