/** Following the pages of a dead-letter query on a store that does not change meanwhile. */
module DlqPaging {
  import opened Basics
  import opened Messages
  import opened Sorting
  import opened Dlq

  // ---- One page ----

  lemma {:induction false} OrderedUnique(a: seq<Letter>, b: seq<Letter>)
    requires Ordered(a) && Ordered(b) && forall r :: r in a <==> r in b
    ensures a == b
  {
    assert a != [] ==> a[0] in a;
    assert b != [] ==> b[0] in b;
    if a != [] {
      assert a[0] == b[0];
      forall r ensures r in a[1..] <==> r in b[1..] {
        TailMember(a, r);
        TailMember(b, r);
      }
      OrderedUnique(a[1..], b[1..]);
      assert a == [a[0]] + a[1..] && b == [b[0]] + b[1..];
    }
  }

  lemma {:induction false} PrefixBelow(rs: seq<Letter>, start: nat, n: nat, r: Letter)
    requires Ordered(rs) && 0 < n <= |rs|
    ensures r in rs[..n] <==> r in rs && r.offset < After(rs, start, n)
  {
    if r in rs {
      var i :| 0 <= i < |rs| && rs[i] == r;
      if i < n {
        assert rs[..n][i] == r;
      }
    }
    if r in rs[..n] {
      var i :| 0 <= i < n && rs[..n][i] == r;
      assert rs[i] == r && (i == n - 1 || rs[i].offset < rs[n - 1].offset);
    }
  }

  /**
   * A page of a list holds its matches up to where the next page starts, and looks at something if there is anything.
   */
  lemma {:induction false} PageMembers(rs: seq<Letter>, start: nat, p: Letter -> bool, limit: nat, log: LetterLog)
    requires Ordered(rs) && limit > 0 && forall r :: r in rs ==> r.offset >= start
    ensures
      var page := PageOf(rs, start, p, limit, log);
      && Ordered(page.records) && page.next >= start
      && (forall r :: r in page.records <==> r in rs && p(r) && r.offset < page.next)
      && (rs != [] ==> page.next > rs[0].offset)
      && (rs == [] ==> page.next == start)
      && (rs != [] ==> exists i :: 0 <= i < TakeFrom(rs, p, limit, 0) && page.next == rs[i].offset + 1)
  {
    var n := TakeFrom(rs, p, limit, 0);
    FilterMembers(rs[..n], p);
    FilterSorted(rs[..n], p, Before);
    if n == 0 {
      assert rs[..0] == [] && rs == [];
    } else {
      forall r ensures r in rs[..n] <==> r in rs && r.offset < After(rs, start, n) { PrefixBelow(rs, start, n, r); }
      assert rs[n - 1] in rs && (n == 1 || rs[0].offset < rs[n - 1].offset);
    }
  }

  // ---- Pages by index and by scan ----

  /** The page of a scan, or a page over index entries none of which is gone. */
  ghost predicate IsPage(page: Page, d: DeadLetters, q: Query, source: Text, offset: nat, limit: nat) {
    page == ScanPage(d.log, q, offset, limit) || IsIndexPage(page, d, q, source, offset, limit)
  }

  ghost predicate IsIndexPage(page: Page, d: DeadLetters, q: Query, source: Text, offset: nat, limit: nat) {
    && IndexEntries(d, q, source, offset) != [] && !LooksAtGone(d, q, source, offset, limit)
    && page == IndexPage(d, q, source, offset, limit)
  }

  /** The page the query answers with, if it does not answer with an error. */
  ghost predicate IsAnswer(page: Page, d: DeadLetters, q: Query, source: Text, offset: nat, limit: nat) {
    page == QueryPage(d, q, source, offset, limit) && !LooksAtGone(d, q, source, offset, limit)
  }

  /** With a store that works and letters that can be parsed, that is exactly what the query answers. */
  lemma {:induction false} AnswerExactly(
    page: Page, d: DeadLetters, q: Query, source: Text, offset: nat, limit: nat, maxFetch: nat)
    requires maxFetch > 0
    ensures Answered(Some(d), q, source, offset, limit, maxFetch, NoFaults) == Ok(page)
       <==> IsAnswer(page, d, q, source, offset, limit)
  {
    AnsweredIsPage(d, q, source, offset, limit, maxFetch, NoFaults);
    QueryErrsExactlyWhen(d, q, source, offset, limit, maxFetch);
    BreaksExactlyWhen(IndexEntries(d, q, source, offset), Matches(q), limit, Gone(d.log));
  }

  lemma {:induction false} AnswerIsPage(page: Page, d: DeadLetters, q: Query, source: Text, offset: nat, limit: nat)
    requires IsAnswer(page, d, q, source, offset, limit)
    ensures IsPage(page, d, q, source, offset, limit)
  {
  }

  /** A match that is indexed under the source topic. */
  function Own(d: DeadLetters, q: Query, source: Text): Letter -> bool {
    (r: Letter) => Matches(q)(r) && r in d.index && r.originalTopic == source
  }

  /** A match that is indexed under the source topic, or that lies behind every entry passing the index's filter. */
  function Wanted(d: DeadLetters, q: Query, source: Text): Letter -> bool {
    (r: Letter) =>
      && Matches(q)(r)
      && (Own(d, q, source)(r) || forall e :: e in d.index && Indexed(q, source)(e) ==> e.offset < r.offset)
  }

  /** Letters of the log from lo up to hi, in order: only such as `sound` allows, and all that `complete` asks for. */
  ghost predicate Between(
    records: seq<Letter>, log: LetterLog, sound: Letter -> bool, complete: Letter -> bool, lo: nat, hi: nat)
  {
    && Ordered(records)
    && (forall r :: r in records ==> r in log.records && lo <= r.offset < hi && sound(r))
    && (forall r :: r in log.records && lo <= r.offset < hi && complete(r) ==> r in records)
  }

  /** What a page does, wherever its records come from. */
  ghost predicate Proper(page: Page, log: LetterLog, sound: Letter -> bool, complete: Letter -> bool, offset: nat) {
    && Between(page.records, log, sound, complete, offset, page.next)
    && page.next >= offset && page.hasMore == HasMore(log, page.next)
    && (page.next == Max(offset, LogStart(log)) || exists r :: r in log.records && page.next == r.offset + 1)
  }

  /** The page passes a record if there is one. */
  ghost predicate Passing(page: Page, log: LetterLog, offset: nat) {
    (exists r :: r in log.records && r.offset >= offset) ==>
      exists r :: r in log.records && offset <= r.offset < page.next
  }

  lemma {:induction false} StartIsFirst(log: LetterLog, offset: nat, r: Letter)
    requires LettersOk(log) && r in log.records
    ensures r.offset >= LogStart(log) && (r.offset >= Max(offset, LogStart(log)) <==> r.offset >= offset)
  {
    var i :| 0 <= i < |log.records| && log.records[i] == r;
    assert i == 0 || log.records[0].offset < log.records[i].offset;
  }

  lemma {:induction false} Rest(log: LetterLog, start: nat)
    requires LettersOk(log)
    ensures
      var rs := Filter(log.records, AtLeast(start));
      Ordered(rs) && forall r :: r in rs <==> r in log.records && r.offset >= start
  {
    FilterMembers(log.records, AtLeast(start));
    FilterSorted(log.records, AtLeast(start), Before);
  }

  /** A page over all the records from an offset on. */
  lemma {:induction false} RestProper(
    rs: seq<Letter>, start: nat, p: Letter -> bool, limit: nat, log: LetterLog, offset: nat)
    requires Ordered(rs) && limit > 0 && start == Max(offset, LogStart(log))
    requires forall r :: r in rs <==> r in log.records && r.offset >= start
    requires forall r :: r in log.records ==> (r.offset >= start <==> r.offset >= offset)
    ensures Proper(PageOf(rs, start, p, limit, log), log, p, p, offset)
    ensures Passing(PageOf(rs, start, p, limit, log), log, offset)
  {
    PageMembers(rs, start, p, limit, log);
    if rs != [] { assert rs[0] in rs; }
  }

  lemma {:induction false} ScanProper(log: LetterLog, q: Query, offset: nat, limit: nat)
    requires LettersOk(log) && limit > 0
    ensures Proper(ScanPage(log, q, offset, limit), log, Matches(q), Matches(q), offset)
    ensures Passing(ScanPage(log, q, offset, limit), log, offset)
  {
    var start := Max(offset, LogStart(log));
    Rest(log, start);
    forall r | r in log.records ensures r.offset >= start <==> r.offset >= offset { StartIsFirst(log, offset, r); }
    RestProper(Filter(log.records, AtLeast(start)), start, Matches(q), limit, log, offset);
  }

  /** Of the letters a page over the index looks at, all are there. */
  lemma {:induction false} LookedAt(d: DeadLetters, q: Query, source: Text, offset: nat, limit: nat, i: nat)
    requires !LooksAtGone(d, q, source, offset, limit)
    requires i < TakeFrom(IndexEntries(d, q, source, offset), Matches(q), limit, 0)
    ensures IndexEntries(d, q, source, offset)[i] in d.log.records
  {
    assert !Gone(d.log)(IndexEntries(d, q, source, offset)[i]);
  }

  /** Where a page over the index ends, and what it holds: the indexed matches up to there. */
  lemma {:induction false} IndexShape(page: Page, d: DeadLetters, q: Query, source: Text, offset: nat, limit: nat)
    returns (last: Letter)
    requires StoreOk(d) && limit > 0 && IsIndexPage(page, d, q, source, offset, limit)
    ensures last in d.log.records && last in IndexEntries(d, q, source, offset) && page.next == last.offset + 1
    ensures Ordered(page.records) && page.hasMore == HasMore(d.log, page.next)
    ensures forall r :: r in page.records
                   <==> r in IndexEntries(d, q, source, offset) && Matches(q)(r) && r.offset < page.next
  {
    var entries := IndexEntries(d, q, source, offset);
    EntriesAreIndexed(d, q, source, offset);
    PageMembers(entries, offset, Matches(q), limit, d.log);
    var i :| 0 <= i < TakeFrom(entries, Matches(q), limit, 0) && page.next == entries[i].offset + 1;
    LookedAt(d, q, source, offset, limit, i);
    last := entries[i];
  }

  lemma {:induction false} NotAfter(rs: seq<Letter>, j: nat, i: nat)
    requires Ordered(rs) && i < |rs| && j < |rs| && rs[j].offset <= rs[i].offset
    ensures j <= i
  {
  }

  /** An entry the page passes is there. */
  lemma {:induction false} PassedIsThere(
    page: Page, d: DeadLetters, q: Query, source: Text, offset: nat, limit: nat, e: Letter)
    requires StoreOk(d) && limit > 0 && IsIndexPage(page, d, q, source, offset, limit)
    requires e in IndexEntries(d, q, source, offset) && e.offset < page.next
    ensures e in d.log.records
  {
    var entries := IndexEntries(d, q, source, offset);
    EntriesAreIndexed(d, q, source, offset);
    var n := TakeFrom(entries, Matches(q), limit, 0);
    PageMembers(entries, offset, Matches(q), limit, d.log);
    var i :| 0 <= i < n && page.next == entries[i].offset + 1;
    var j :| 0 <= j < |entries| && entries[j] == e;
    NotAfter(entries, j, i);
    LookedAt(d, q, source, offset, limit, j);
  }

  lemma {:induction false} IndexProper(page: Page, d: DeadLetters, q: Query, source: Text, offset: nat, limit: nat)
    requires StoreOk(d) && limit > 0 && IsIndexPage(page, d, q, source, offset, limit)
    ensures Proper(page, d.log, Own(d, q, source), Own(d, q, source), offset) && Passing(page, d.log, offset)
  {
    var last := IndexShape(page, d, q, source, offset, limit);
    EntriesAreIndexed(d, q, source, offset);
    forall r | r in page.records ensures r in d.log.records && Own(d, q, source)(r) {
      PassedIsThere(page, d, q, source, offset, limit, r);
    }
    forall r | r in d.log.records && offset <= r.offset < page.next && Own(d, q, source)(r) ensures r in page.records {
      StartIsFirst(d.log, offset, r);
    }
  }

  lemma {:induction false} ProperFor(
    page: Page, log: LetterLog, p: Letter -> bool, sound: Letter -> bool, complete: Letter -> bool, offset: nat)
    requires Proper(page, log, p, p, offset)
    requires forall r :: r in log.records && offset <= r.offset < page.next ==>
               (p(r) ==> sound(r)) && (complete(r) ==> p(r))
    ensures Proper(page, log, sound, complete, offset)
  {
  }

  /** Any page, by index or by scan, holds matches only, and every indexed match of the source it passes. */
  lemma {:induction false} PageProper(page: Page, d: DeadLetters, q: Query, source: Text, offset: nat, limit: nat)
    requires StoreOk(d) && limit > 0 && IsPage(page, d, q, source, offset, limit)
    ensures Proper(page, d.log, Matches(q), Own(d, q, source), offset) && Passing(page, d.log, offset)
  {
    if page == ScanPage(d.log, q, offset, limit) {
      ScanProper(d.log, q, offset, limit);
      ProperFor(page, d.log, Matches(q), Matches(q), Own(d, q, source), offset);
    } else {
      IndexProper(page, d, q, source, offset, limit);
      ProperFor(page, d.log, Own(d, q, source), Matches(q), Own(d, q, source), offset);
    }
  }

  /** The page a query answers with holds exactly the wanted letters it passes. */
  lemma {:induction false} AnswerProper(page: Page, d: DeadLetters, q: Query, source: Text, offset: nat, limit: nat)
    requires StoreOk(d) && limit > 0 && IsAnswer(page, d, q, source, offset, limit)
    ensures Proper(page, d.log, Wanted(d, q, source), Wanted(d, q, source), offset)
  {
    var wanted := Wanted(d, q, source);
    EntriesAreIndexed(d, q, source, offset);
    if IndexEntries(d, q, source, offset) == [] {
      ScanProper(d.log, q, offset, limit);
      forall r | r in d.log.records && offset <= r.offset ensures Matches(q)(r) <==> wanted(r) {
        StartIsFirst(d.log, offset, r);
        forall e | e in d.index && Indexed(q, source)(e) ensures e.offset < r.offset {
          assert e !in IndexEntries(d, q, source, offset);
        }
      }
      ProperFor(page, d.log, Matches(q), wanted, wanted, offset);
    } else {
      var last := IndexShape(page, d, q, source, offset, limit);
      IndexProper(page, d, q, source, offset, limit);
      forall r: Letter | r.offset < page.next ensures wanted(r) <==> Own(d, q, source)(r) {
        assert last in d.index && Indexed(q, source)(last) && last.offset >= r.offset;
      }
      ProperFor(page, d.log, Own(d, q, source), wanted, wanted, offset);
    }
  }

  // ---- Following the pages ----

  function StartOf(pages: seq<Page>, offset: nat, k: nat): nat
    requires k <= |pages|
  {
    if k == 0 then offset else pages[k - 1].next
  }

  /** pages are what a client gets that starts at an offset and asks again at each page's end while there is more. */
  ghost predicate IsPaging(pages: seq<Page>, d: DeadLetters, q: Query, source: Text, offset: nat, limit: nat) {
    |pages| > 0 && forall k: nat :: k < |pages| ==> PageAt(pages, d, q, source, offset, limit, k)
  }

  ghost predicate PageAt(pages: seq<Page>, d: DeadLetters, q: Query, source: Text, offset: nat, limit: nat, k: nat)
    requires k < |pages|
  {
    IsPage(pages[k], d, q, source, StartOf(pages, offset, k), limit) && (k > 0 ==> pages[k - 1].hasMore)
  }

  /** The same where each page is what the query answers. */
  ghost predicate IsAnswering(pages: seq<Page>, d: DeadLetters, q: Query, source: Text, offset: nat, limit: nat) {
    |pages| > 0 && forall k: nat :: k < |pages| ==> AnswerAt(pages, d, q, source, offset, limit, k)
  }

  ghost predicate AnswerAt(pages: seq<Page>, d: DeadLetters, q: Query, source: Text, offset: nat, limit: nat, k: nat)
    requires k < |pages|
  {
    IsAnswer(pages[k], d, q, source, StartOf(pages, offset, k), limit) && (k > 0 ==> pages[k - 1].hasMore)
  }

  lemma {:induction false} AnsweringIsPaging(
    pages: seq<Page>, d: DeadLetters, q: Query, source: Text, offset: nat, limit: nat)
    requires IsAnswering(pages, d, q, source, offset, limit)
    ensures IsPaging(pages, d, q, source, offset, limit)
  {
    forall k: nat | k < |pages| ensures PageAt(pages, d, q, source, offset, limit, k) {
      assert AnswerAt(pages, d, q, source, offset, limit, k);
      AnswerIsPage(pages[k], d, q, source, StartOf(pages, offset, k), limit);
    }
  }

  function Gathered(pages: seq<Page>, n: nat): seq<Letter>
    requires n <= |pages|
  {
    if n == 0 then [] else Gathered(pages, n - 1) + pages[n - 1].records
  }

  lemma {:induction false} BetweenJoins(
    a: seq<Letter>, b: seq<Letter>, log: LetterLog, sound: Letter -> bool, complete: Letter -> bool, lo: nat, mid: nat,
    hi: nat)
    requires lo <= mid <= hi && Between(a, log, sound, complete, lo, mid) && Between(b, log, sound, complete, mid, hi)
    ensures Between(a + b, log, sound, complete, lo, hi)
  {
    assert forall i :: 0 <= i < |a| ==> a[i] in a;
    assert forall i :: 0 <= i < |b| ==> b[i] in b;
  }

  /** Every page is proper where it starts. */
  ghost predicate ProperPages(
    pages: seq<Page>, log: LetterLog, sound: Letter -> bool, complete: Letter -> bool, offset: nat)
  {
    forall k: nat :: k < |pages| ==> ProperAt(pages, log, sound, complete, offset, k)
  }

  ghost predicate ProperAt(
    pages: seq<Page>, log: LetterLog, sound: Letter -> bool, complete: Letter -> bool, offset: nat, k: nat)
    requires k < |pages|
  {
    Proper(pages[k], log, sound, complete, StartOf(pages, offset, k))
  }

  lemma {:induction false} GatheredBetween(
    pages: seq<Page>, log: LetterLog, sound: Letter -> bool, complete: Letter -> bool, offset: nat, n: nat)
    requires ProperPages(pages, log, sound, complete, offset) && 0 < n <= |pages|
    ensures pages[n - 1].next >= offset && pages[n - 1].hasMore == HasMore(log, pages[n - 1].next)
    ensures Between(Gathered(pages, n), log, sound, complete, offset, pages[n - 1].next)
  {
    assert ProperAt(pages, log, sound, complete, offset, n - 1);
    if n == 1 {
      assert Gathered(pages, 0) + pages[0].records == pages[0].records;
    } else {
      GatheredBetween(pages, log, sound, complete, offset, n - 1);
      BetweenJoins(Gathered(pages, n - 1), pages[n - 1].records, log, sound, complete, offset, pages[n - 2].next,
                   pages[n - 1].next);
    }
  }

  lemma {:induction false} PagingProper(
    pages: seq<Page>, d: DeadLetters, q: Query, source: Text, offset: nat, limit: nat)
    requires StoreOk(d) && limit > 0 && IsPaging(pages, d, q, source, offset, limit)
    ensures ProperPages(pages, d.log, Matches(q), Own(d, q, source), offset)
  {
    forall k: nat | k < |pages| ensures ProperAt(pages, d.log, Matches(q), Own(d, q, source), offset, k) {
      assert PageAt(pages, d, q, source, offset, limit, k);
      PageProper(pages[k], d, q, source, StartOf(pages, offset, k), limit);
    }
  }

  /**
   * However pages of index and scan alternate, what has been gathered is in order and without repetition, holds matches
   * only, and holds every indexed match of the source passed so far.
   */
  lemma {:induction false} GatheredExact(
    pages: seq<Page>, d: DeadLetters, q: Query, source: Text, offset: nat, limit: nat, n: nat)
    requires StoreOk(d) && limit > 0 && IsPaging(pages, d, q, source, offset, limit) && 0 < n <= |pages|
    ensures pages[n - 1].next >= offset && pages[n - 1].hasMore == HasMore(d.log, pages[n - 1].next)
    ensures Between(Gathered(pages, n), d.log, Matches(q), Own(d, q, source), offset, pages[n - 1].next)
  {
    PagingProper(pages, d, q, source, offset, limit);
    GatheredBetween(pages, d.log, Matches(q), Own(d, q, source), offset, n);
  }

  /** The letters of the log from an offset on that satisfy p, in order. */
  function Those(log: LetterLog, offset: nat, p: Letter -> bool): seq<Letter> {
    Filter(Filter(log.records, AtLeast(offset)), p)
  }

  lemma {:induction false} ThoseMembers(log: LetterLog, offset: nat, p: Letter -> bool)
    requires LettersOk(log)
    ensures Ordered(Those(log, offset, p))
    ensures forall r :: r in Those(log, offset, p) <==> r in log.records && r.offset >= offset && p(r)
  {
    var rs := Filter(log.records, AtLeast(offset));
    Rest(log, offset);
    FilterMembers(rs, p);
    FilterSorted(rs, p, Before);
  }

  /**
   * However pages of index and scan alternate: once there is no more, every indexed match of the source from the first
   * offset on has been returned once, in offset order, whatever else was returned.
   */
  lemma {:induction false} PagingYieldsOwn(
    pages: seq<Page>, d: DeadLetters, q: Query, source: Text, offset: nat, limit: nat)
    requires StoreOk(d) && limit > 0 && IsPaging(pages, d, q, source, offset, limit)
    requires !pages[|pages| - 1].hasMore
    ensures Filter(Gathered(pages, |pages|), Own(d, q, source)) == Those(d.log, offset, Own(d, q, source))
  {
    var all, own := Gathered(pages, |pages|), Own(d, q, source);
    GatheredExact(pages, d, q, source, offset, limit, |pages|);
    ThoseMembers(d.log, offset, own);
    FilterMembers(all, own);
    FilterSorted(all, own, Before);
    OrderedUnique(Filter(all, own), Those(d.log, offset, own));
  }

  /** If every match is indexed under the source topic, that is every match and nothing else. */
  lemma {:induction false} PagingYieldsAll(
    pages: seq<Page>, d: DeadLetters, q: Query, source: Text, offset: nat, limit: nat)
    requires StoreOk(d) && limit > 0 && IsPaging(pages, d, q, source, offset, limit)
    requires forall r :: r in d.log.records && Matches(q)(r) ==> r in d.index && r.originalTopic == source
    requires !pages[|pages| - 1].hasMore
    ensures Gathered(pages, |pages|) == Those(d.log, offset, Matches(q))
  {
    GatheredExact(pages, d, q, source, offset, limit, |pages|);
    ThoseMembers(d.log, offset, Matches(q));
    OrderedUnique(Gathered(pages, |pages|), Those(d.log, offset, Matches(q)));
  }

  /**
   * What following a query's answers returns, exactly: of the matches from the offset on, those indexed under the
   * source topic and those behind every entry that passes the index's filter, each once and in order.
   */
  lemma {:induction false} AnsweringYields(
    pages: seq<Page>, d: DeadLetters, q: Query, source: Text, offset: nat, limit: nat)
    requires StoreOk(d) && limit > 0 && IsAnswering(pages, d, q, source, offset, limit)
    requires !pages[|pages| - 1].hasMore
    ensures Gathered(pages, |pages|) == Those(d.log, offset, Wanted(d, q, source))
  {
    var wanted := Wanted(d, q, source);
    forall k: nat | k < |pages| ensures ProperAt(pages, d.log, wanted, wanted, offset, k) {
      assert AnswerAt(pages, d, q, source, offset, limit, k);
      AnswerProper(pages[k], d, q, source, StartOf(pages, offset, k), limit);
    }
    GatheredBetween(pages, d.log, wanted, wanted, offset, |pages|);
    ThoseMembers(d.log, offset, wanted);
    OrderedUnique(Gathered(pages, |pages|), Those(d.log, offset, wanted));
  }

  /**
   * So a client gets every match if and only if each one from the offset on is indexed under the source topic or lies
   * behind every entry that passes the index's filter.
   */
  lemma {:induction false} AnsweringYieldsAllExactlyWhen(
    pages: seq<Page>, d: DeadLetters, q: Query, source: Text, offset: nat, limit: nat)
    requires StoreOk(d) && limit > 0 && IsAnswering(pages, d, q, source, offset, limit)
    requires !pages[|pages| - 1].hasMore
    ensures Gathered(pages, |pages|) == Those(d.log, offset, Matches(q))
       <==> forall r :: r in d.log.records && r.offset >= offset && Matches(q)(r) ==> Wanted(d, q, source)(r)
  {
    AnsweringYields(pages, d, q, source, offset, limit);
    ThoseAlike(d.log, offset, Wanted(d, q, source), Matches(q));
  }

  lemma {:induction false} ThoseAlike(log: LetterLog, offset: nat, some: Letter -> bool, all: Letter -> bool)
    requires LettersOk(log) && forall r :: some(r) ==> all(r)
    ensures Those(log, offset, some) == Those(log, offset, all)
       <==> forall r :: r in log.records && r.offset >= offset && all(r) ==> some(r)
  {
    ThoseMembers(log, offset, some);
    ThoseMembers(log, offset, all);
    if forall r :: r in log.records && r.offset >= offset && all(r) ==> some(r) {
      OrderedUnique(Those(log, offset, some), Those(log, offset, all));
    }
    if Those(log, offset, some) == Those(log, offset, all) {
      forall r | r in log.records && r.offset >= offset && all(r) ensures some(r) {
        assert r in Those(log, offset, all);
      }
    }
  }

  // ---- When the pages end ----

  /** The record at the high watermark is still there, or nothing is. */
  ghost predicate TailPresent(log: LetterLog) {
    log.records == [] || log.records[|log.records| - 1].offset + 1 == log.next
  }

  function Remaining(log: LetterLog, offset: nat): nat {
    |Filter(log.records, AtLeast(offset))|
  }

  lemma {:induction false} RemainingDrops(log: LetterLog, a: nat, b: nat)
    requires LettersOk(log) && a <= b && exists s :: s in log.records && a <= s.offset < b
    ensures Remaining(log, b) < Remaining(log, a)
  {
    var i := FilterIsSuffix(log.records, a);
    var j := FilterIsSuffix(log.records, b);
    var s :| s in log.records && a <= s.offset < b;
    var k :| 0 <= k < |log.records| && log.records[k] == s;
    assert i <= k < j;
  }

  lemma {:induction false} MoreMeansRemaining(log: LetterLog, offset: nat)
    requires LettersOk(log) && TailPresent(log) && HasMore(log, offset) && log.records != []
    ensures Remaining(log, offset) > 0
  {
    var last := log.records[|log.records| - 1];
    FilterMembers(log.records, AtLeast(offset));
    assert last in log.records && last in Filter(log.records, AtLeast(offset));
  }

  /** One page moves past at least one record, if there is one. */
  lemma {:induction false} PageAdvances(page: Page, d: DeadLetters, q: Query, source: Text, offset: nat, limit: nat)
    requires StoreOk(d) && limit > 0 && IsPage(page, d, q, source, offset, limit)
    requires TailPresent(d.log) && page.hasMore
    ensures 0 < Remaining(d.log, page.next) < Remaining(d.log, offset)
  {
    PageProper(page, d, q, source, offset, limit);
    if d.log.records != [] {
      MoreMeansRemaining(d.log, page.next);
      Rest(d.log, page.next);
      var rs := Filter(d.log.records, AtLeast(page.next));
      assert rs[0] in rs;
      RemainingDrops(d.log, offset, page.next);
    }
  }

  lemma {:induction false} PagesSpend(
    pages: seq<Page>, d: DeadLetters, q: Query, source: Text, offset: nat, limit: nat, n: nat)
    requires StoreOk(d) && limit > 0 && IsPaging(pages, d, q, source, offset, limit)
    requires TailPresent(d.log) && 0 < n < |pages|
    ensures 0 < Remaining(d.log, pages[n - 1].next) <= Remaining(d.log, offset) - n
  {
    assert PageAt(pages, d, q, source, offset, limit, n);
    assert PageAt(pages, d, q, source, offset, limit, n - 1);
    if n > 1 { PagesSpend(pages, d, q, source, offset, limit, n - 1); }
    PageAdvances(pages[n - 1], d, q, source, StartOf(pages, offset, n - 1), limit);
  }

  /**
   * With the record at the high watermark present, or from an offset beyond it, paging ends: a client gets at most one
   * page per remaining record, and at least the first.
   */
  lemma {:induction false} PagingEnds(
    pages: seq<Page>, d: DeadLetters, q: Query, source: Text, offset: nat, limit: nat)
    requires StoreOk(d) && limit > 0 && IsPaging(pages, d, q, source, offset, limit)
    requires TailPresent(d.log) || offset >= d.log.next
    ensures |pages| <= Max(1, Remaining(d.log, offset))
  {
    if |pages| > 1 {
      assert PageAt(pages, d, q, source, offset, limit, 1);
      if TailPresent(d.log) {
        PagesSpend(pages, d, q, source, offset, limit, |pages| - 1);
      } else {
        GatheredExact(pages, d, q, source, offset, limit, 1);
      }
    }
  }

  lemma {:induction false} NextIsBelow(log: LetterLog, offset: nat, next: nat)
    requires LettersOk(log) && !TailPresent(log) && offset < log.next
    requires next == Max(offset, LogStart(log)) || exists r :: r in log.records && next == r.offset + 1
    ensures next < log.next
  {
    var last := log.records[|log.records| - 1];
    assert last in log.records && log.records[0] in log.records;
    forall r | r in log.records ensures r.offset <= last.offset {
      var i :| 0 <= i < |log.records| && log.records[i] == r;
    }
  }

  /** Without it, and from an offset up to it, every page by index or by scan says there is more. */
  lemma {:induction false} PagingNeverEnds(
    pages: seq<Page>, d: DeadLetters, q: Query, source: Text, offset: nat, limit: nat, n: nat)
    requires StoreOk(d) && limit > 0 && IsPaging(pages, d, q, source, offset, limit)
    requires !TailPresent(d.log) && offset < d.log.next && n < |pages|
    ensures pages[n].hasMore
  {
    PagingProper(pages, d, q, source, offset, limit);
    assert ProperAt(pages, d.log, Matches(q), Own(d, q, source), offset, n);
    if n > 0 {
      PagingNeverEnds(pages, d, q, source, offset, limit, n - 1);
      assert ProperAt(pages, d.log, Matches(q), Own(d, q, source), offset, n - 1);
    }
    NextIsBelow(d.log, StartOf(pages, offset, n), pages[n].next);
  }

  // ---- When following a query's answers ends ----

  /** From the offset on, an index entry that passes the index's filter names a letter that is gone. */
  ghost predicate Stale(d: DeadLetters, q: Query, source: Text, offset: nat) {
    exists e :: e in IndexEntries(d, q, source, offset) && e !in d.log.records
  }

  lemma {:induction false} StillStale(
    page: Page, d: DeadLetters, q: Query, source: Text, offset: nat, limit: nat)
    requires StoreOk(d) && limit > 0 && IsAnswer(page, d, q, source, offset, limit) && Stale(d, q, source, offset)
    ensures Stale(d, q, source, page.next) && page.hasMore
    ensures Remaining(d.log, page.next) < Remaining(d.log, offset)
  {
    var e :| e in IndexEntries(d, q, source, offset) && e !in d.log.records;
    var last := IndexShape(page, d, q, source, offset, limit);
    EntriesAreIndexed(d, q, source, offset);
    EntriesAreIndexed(d, q, source, page.next);
    if e.offset < page.next { PassedIsThere(page, d, q, source, offset, limit, e); }
    assert e in IndexEntries(d, q, source, page.next);
    RemainingDrops(d.log, offset, page.next);
  }

  /** With a stale entry ahead no page is the last, and there are no more pages than remaining records. */
  lemma {:induction false} StaleEnds(
    pages: seq<Page>, d: DeadLetters, q: Query, source: Text, offset: nat, limit: nat, n: nat)
    requires StoreOk(d) && limit > 0 && IsAnswering(pages, d, q, source, offset, limit) && Stale(d, q, source, offset)
    requires 0 < n <= |pages|
    ensures pages[n - 1].hasMore && Stale(d, q, source, pages[n - 1].next)
    ensures n + Remaining(d.log, pages[n - 1].next) <= Remaining(d.log, offset)
  {
    assert AnswerAt(pages, d, q, source, offset, limit, n - 1);
    if n > 1 { StaleEnds(pages, d, q, source, offset, limit, n - 1); }
    StillStale(pages[n - 1], d, q, source, StartOf(pages, offset, n - 1), limit);
  }

  /** Without one, the query is answered. */
  lemma {:induction false} FreshAnswers(d: DeadLetters, q: Query, source: Text, offset: nat, limit: nat)
    requires !Stale(d, q, source, offset)
    ensures IsAnswer(QueryPage(d, q, source, offset, limit), d, q, source, offset, limit)
  {
    var entries := IndexEntries(d, q, source, offset);
    forall i | 0 <= i < TakeFrom(entries, Matches(q), limit, 0) ensures !Gone(d.log)(entries[i]) {
      assert entries[i] in entries;
    }
  }

  lemma {:induction false} StaysFresh(d: DeadLetters, q: Query, source: Text, offset: nat, later: nat)
    requires !Stale(d, q, source, offset) && offset <= later
    ensures !Stale(d, q, source, later)
  {
    EntriesAreIndexed(d, q, source, offset);
    EntriesAreIndexed(d, q, source, later);
  }

  /** Without a stale entry ahead, no page is followed by an error. */
  lemma {:induction false} FreshGoesOn(
    pages: seq<Page>, d: DeadLetters, q: Query, source: Text, offset: nat, limit: nat)
    requires StoreOk(d) && limit > 0 && IsAnswering(pages, d, q, source, offset, limit) && !Stale(d, q, source, offset)
    ensures
      var next := pages[|pages| - 1].next;
      IsAnswer(QueryPage(d, q, source, next, limit), d, q, source, next, limit)
  {
    AnsweringIsPaging(pages, d, q, source, offset, limit);
    GatheredExact(pages, d, q, source, offset, limit, |pages|);
    StaysFresh(d, q, source, offset, pages[|pages| - 1].next);
    FreshAnswers(d, q, source, pages[|pages| - 1].next, limit);
  }

  /** Without the tail and without a stale entry ahead a client is given as many pages as it asks for. */
  lemma {:induction false} PagesForever(d: DeadLetters, q: Query, source: Text, offset: nat, limit: nat, n: nat)
    returns (pages: seq<Page>)
    requires StoreOk(d) && limit > 0 && !Stale(d, q, source, offset) && !TailPresent(d.log) && offset < d.log.next
    ensures |pages| == n + 1 && IsAnswering(pages, d, q, source, offset, limit)
  {
    if n == 0 {
      pages := FirstPage(d, q, source, offset, limit);
    } else {
      pages := PagesForever(d, q, source, offset, limit, n - 1);
      pages := OneMorePage(pages, d, q, source, offset, limit);
    }
  }

  lemma {:induction false} FirstPage(d: DeadLetters, q: Query, source: Text, offset: nat, limit: nat)
    returns (pages: seq<Page>)
    requires !Stale(d, q, source, offset)
    ensures |pages| == 1 && IsAnswering(pages, d, q, source, offset, limit)
  {
    FreshAnswers(d, q, source, offset, limit);
    pages := [QueryPage(d, q, source, offset, limit)];
    assert AnswerAt(pages, d, q, source, offset, limit, 0);
  }

  lemma {:induction false} OneMorePage(
    pages: seq<Page>, d: DeadLetters, q: Query, source: Text, offset: nat, limit: nat)
    returns (more: seq<Page>)
    requires StoreOk(d) && limit > 0 && !Stale(d, q, source, offset) && !TailPresent(d.log) && offset < d.log.next
    requires IsAnswering(pages, d, q, source, offset, limit)
    ensures |more| == |pages| + 1 && IsAnswering(more, d, q, source, offset, limit)
  {
    FreshGoesOn(pages, d, q, source, offset, limit);
    AnsweringIsPaging(pages, d, q, source, offset, limit);
    PagingNeverEnds(pages, d, q, source, offset, limit, |pages| - 1);
    var page := QueryPage(d, q, source, pages[|pages| - 1].next, limit);
    AnsweringSnoc(pages, page, d, q, source, offset, limit);
    more := pages + [page];
  }

  lemma {:induction false} AnsweringSnoc(
    pages: seq<Page>, page: Page, d: DeadLetters, q: Query, source: Text, offset: nat, limit: nat)
    requires IsAnswering(pages, d, q, source, offset, limit) && pages[|pages| - 1].hasMore
    requires IsAnswer(page, d, q, source, pages[|pages| - 1].next, limit)
    ensures IsAnswering(pages + [page], d, q, source, offset, limit)
  {
    var all := pages + [page];
    forall k: nat | k < |all| ensures AnswerAt(all, d, q, source, offset, limit, k) {
      if k < |pages| {
        assert AnswerAt(pages, d, q, source, offset, limit, k);
        assert all[k] == pages[k] && StartOf(all, offset, k) == StartOf(pages, offset, k);
      }
    }
  }

  /** A client that follows a query's answers gets at most so many pages. */
  ghost predicate Bounded(d: DeadLetters, q: Query, source: Text, offset: nat, limit: nat, bound: nat) {
    forall pages: seq<Page> :: IsAnswering(pages, d, q, source, offset, limit) ==> |pages| <= bound
  }

  /**
   * Following a query's answers comes to an end if and only if the record at the high watermark is there, the first
   * offset is beyond it, or a stale index entry lies ahead, which ends it with an error. If it does, it takes at most
   * one page per remaining record, or one.
   */
  lemma {:induction false} AnsweringEndsExactlyWhen(d: DeadLetters, q: Query, source: Text, offset: nat, limit: nat)
    requires StoreOk(d) && limit > 0
    ensures (exists bound: nat :: Bounded(d, q, source, offset, limit, bound))
       <==> TailPresent(d.log) || offset >= d.log.next || Stale(d, q, source, offset)
    ensures (exists bound: nat :: Bounded(d, q, source, offset, limit, bound))
        ==> Bounded(d, q, source, offset, limit, Max(1, Remaining(d.log, offset)))
  {
    if TailPresent(d.log) || offset >= d.log.next || Stale(d, q, source, offset) {
      EndsWithin(d, q, source, offset, limit);
    } else {
      forall bound: nat ensures !Bounded(d, q, source, offset, limit, bound) {
        var pages := PagesForever(d, q, source, offset, limit, bound);
      }
    }
  }

  lemma {:induction false} EndsWithin(d: DeadLetters, q: Query, source: Text, offset: nat, limit: nat)
    requires StoreOk(d) && limit > 0 && (TailPresent(d.log) || offset >= d.log.next || Stale(d, q, source, offset))
    ensures Bounded(d, q, source, offset, limit, Max(1, Remaining(d.log, offset)))
  {
    forall pages: seq<Page> | IsAnswering(pages, d, q, source, offset, limit)
      ensures |pages| <= Max(1, Remaining(d.log, offset))
    {
      if Stale(d, q, source, offset) {
        StaleEnds(pages, d, q, source, offset, limit, |pages|);
      } else {
        AnsweringIsPaging(pages, d, q, source, offset, limit);
        PagingEnds(pages, d, q, source, offset, limit);
      }
    }
  }

  // ---- What can go wrong, shown ----

  /**
   * Two letters were published and the second is gone: behind the first, every page is empty and says there is more.
   */
  lemma {:induction false} NeverEndsExample(r: Letter, q: Query, source: Text, limit: nat)
    requires r.offset == 0 && limit > 0
    ensures
      var d := DeadLetters(LetterLog([r], 2), [r]);
      StoreOk(d) && IsAnswer(Page([], 1, true), d, q, source, 1, limit)
  {
    var d := DeadLetters(LetterLog([r], 2), [r]);
    var none: seq<Letter> := [];
    assert [r][..0] == none;
    assert Filter([r], AtLeast(1)) == none && Filter(none, Indexed(q, source)) == none;
  }

  /** If the index still has the second letter and its entry passes the filter, asking there is an error instead. */
  lemma {:induction false} StaleExample(r: Letter, gone: Letter, q: Query, source: Text, limit: nat, page: Page)
    requires r.offset == 0 && gone.offset == 1 && Indexed(q, source)(gone) && limit > 0
    ensures
      var d := DeadLetters(LetterLog([r], 2), [r, gone]);
      StoreOk(d) && !IsAnswer(page, d, q, source, 1, limit)
  {
    var d := DeadLetters(LetterLog([r], 2), [r, gone]);
    assert r in d.index && gone in d.index && gone !in d.log.records && LogStart(d.log) == 0;
    assert forall e :: e in d.index && e.offset >= 1 ==> e !in d.log.records;
    ErrsAtGone(d, q, source, 1, limit, gone);
  }

  /** If everything from the offset on that the index lists is gone, and something is listed, the query is an error. */
  lemma {:induction false} ErrsAtGone(d: DeadLetters, q: Query, source: Text, offset: nat, limit: nat, gone: Letter)
    requires limit > 0 && gone in d.index && gone.offset >= Max(offset, LogStart(d.log)) && Indexed(q, source)(gone)
    requires forall e :: e in d.index && e.offset >= offset ==> e !in d.log.records
    ensures LooksAtGone(d, q, source, offset, limit)
  {
    var entries := IndexEntries(d, q, source, offset);
    EntriesAreIndexed(d, q, source, offset);
    assert gone in entries && entries[0] in entries;
    BreaksExactlyWhen(entries, Matches(q), limit, Gone(d.log));
    assert entries[..0] == [] && Found(entries, Matches(q), 0) == [];
  }

  /**
   * A match that is not indexed under the source topic is returned by a scan at its offset and by no page of the index.
   */
  lemma {:induction false} OtherOnlyScanned(
    d: DeadLetters, q: Query, source: Text, r: Letter, offset: nat, limit: nat)
    requires StoreOk(d) && limit > 0 && r in d.log.records && Matches(q)(r)
    requires r !in d.index || r.originalTopic != source
    ensures ScanPage(d.log, q, r.offset, 1).records == [r]
    ensures r !in IndexPage(d, q, source, offset, limit).records
  {
    OnlyOne(d.log, q, r);
    EntriesAreIndexed(d, q, source, offset);
    NotIndexed(IndexEntries(d, q, source, offset), Matches(q), offset, limit, d.log, r);
  }

  lemma {:induction false} FirstIsLeast(rs: seq<Letter>, i: nat)
    requires Ordered(rs) && i < |rs|
    ensures i > 0 ==> rs[0].offset < rs[i].offset
  {
  }

  lemma {:induction false} NotIndexed(
    entries: seq<Letter>, p: Letter -> bool, offset: nat, limit: nat, log: LetterLog, r: Letter)
    requires r !in entries
    ensures r !in PageOf(entries, offset, p, limit, log).records
  {
    var n := TakeFrom(entries, p, limit, 0);
    FilterMembers(entries[..n], p);
  }

  lemma {:induction false} OnlyOne(log: LetterLog, q: Query, r: Letter)
    requires LettersOk(log) && r in log.records && Matches(q)(r)
    ensures ScanPage(log, q, r.offset, 1).records == [r]
  {
    StartIsFirst(log, r.offset, r);
    var rs, p := Filter(log.records, AtLeast(r.offset)), Matches(q);
    Rest(log, r.offset);
    var i :| 0 <= i < |rs| && rs[i] == r;
    assert rs[0] in rs;
    FirstIsLeast(rs, i);
    FoundNext(rs, p, 0);
    assert Found(rs, p, 1) == [r];
    assert TakeFrom(rs, p, 1, 0) == TakeFrom(rs, p, 1, 1) == 1;
  }

  /**
   * Two matches, the first from another source topic: the query's one page holds the second and says there is no more.
   */
  lemma {:induction false} ForeignMissed(foreign: Letter, own: Letter, q: Query, source: Text, limit: nat)
    requires foreign.offset == 0 && own.offset == 1 && foreign.originalTopic != source && own.originalTopic == source
    requires Matches(q)(foreign) && Matches(q)(own) && limit > 0
    ensures
      var d := DeadLetters(LetterLog([foreign, own], 2), [foreign, own]);
      StoreOk(d) && IsAnswer(Page([own], 2, false), d, q, source, 0, limit)
  {
    var d := DeadLetters(LetterLog([foreign, own], 2), [foreign, own]);
    TwoLetters(foreign, own);
    assert own in d.index && own in d.log.records;
    AnswersOnly(d, q, source, foreign, own, limit);
  }

  lemma {:induction false} TwoLetters(first: Letter, second: Letter)
    requires first.offset == 0 && second.offset == 1
    ensures
      var d := DeadLetters(LetterLog([first, second], 2), [first, second]);
      && StoreOk(d) && LogStart(d.log) == 0 && second in d.log.records
      && forall e :: e in d.index <==> e == first || e == second
  {
  }

  lemma {:induction false} AnswersOnly(
    d: DeadLetters, q: Query, source: Text, foreign: Letter, own: Letter, limit: nat)
    requires Ordered(d.index) && LogStart(d.log) == 0 && own in d.log.records && Matches(q)(own) && limit > 0
    requires forall e :: e in d.index <==> e == foreign || e == own
    requires foreign.originalTopic != source && own.originalTopic == source
    ensures IsAnswer(Page([own], own.offset + 1, HasMore(d.log, own.offset + 1)), d, q, source, 0, limit)
  {
    EntriesAreIndexed(d, q, source, 0);
    AnswersOneEntry(d, q, source, own, limit);
  }

  lemma {:induction false} AnswersOneEntry(d: DeadLetters, q: Query, source: Text, r: Letter, limit: nat)
    requires Ordered(d.index) && r in d.log.records && Matches(q)(r) && limit > 0
    requires forall e :: e in IndexEntries(d, q, source, 0) <==> e == r
    ensures IsAnswer(Page([r], r.offset + 1, HasMore(d.log, r.offset + 1)), d, q, source, 0, limit)
  {
    EntriesAreIndexed(d, q, source, 0);
    OneEntry(IndexEntries(d, q, source, 0), r, Matches(q), limit, d.log);
    FreshAnswers(d, q, source, 0, limit);
    ByIndex(d, q, source, 0, limit);
  }

  lemma {:induction false} ByIndex(d: DeadLetters, q: Query, source: Text, offset: nat, limit: nat)
    requires IndexEntries(d, q, source, offset) != []
    ensures QueryPage(d, q, source, offset, limit)
         == PageOf(IndexEntries(d, q, source, offset), offset, Matches(q), limit, d.log)
  {
  }

  lemma {:induction false} OneEntry(entries: seq<Letter>, r: Letter, p: Letter -> bool, limit: nat, log: LetterLog)
    requires Ordered(entries) && (forall e :: e in entries <==> e == r) && p(r) && limit > 0
    ensures entries == [r] && PageOf(entries, 0, p, limit, log) == Page([r], r.offset + 1, HasMore(log, r.offset + 1))
  {
    assert r in entries && entries[0] in entries;
    assert |entries| > 1 ==> entries[1] in entries && entries[0].offset < entries[1].offset;
    assert entries == [r] && entries[..0] == [];
    FoundNext(entries, p, 0);
    assert Found(entries, p, 1) == [r];
    assert TakeFrom(entries, p, limit, 0) == TakeFrom(entries, p, limit, 1) == 1;
  }
}
