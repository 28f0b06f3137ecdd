/**
 Cursor pagination: `search_tasks` of app/services/query_layer.py.

 The table is a finite set of rows and the database answers a query with any list that its filter,
 order and limit allow (`IsAnswer`), so rows with equal times may come in any order, and in a different
 one for every page. `SearchTasks` builds a page from such an answer. The main results are about
 following `next_cursor` from page to page.
 */
module Pagination {
  import opened PyText

  /** A task record: its id and the time it was created, in microseconds. */
  datatype Row = Row(id: string, createdAt: int)

  /** The cursor of a request: a time, or a text that is no time and is ignored. */
  datatype Cursor = Absent | At(time: int) | Unreadable

  datatype Page = Page(items: seq<Row>, next: Option<int>, total: nat, limit: nat)

  /** A search: which rows match, the page size and the direction. */
  datatype Search = Search(matches: Row -> bool, limit: nat, descending: bool)

  function Matching(table: set<Row>, q: Search): set<Row> {
    set r | r in table && q.matches(r)
  }

  /** Strictly after the cursor in the direction of the search. */
  predicate Past(r: Row, time: int, descending: bool) {
    if descending then r.createdAt < time else r.createdAt > time
  }

  /** The rows that the query with this cursor selects from. */
  function Candidates(table: set<Row>, q: Search, cursor: Cursor): set<Row> {
    match cursor
    case At(time) => set r | r in Matching(table, q) && Past(r, time, q.descending)
    case _ => Matching(table, q)
  }

  /** In the order of the search, where equal times may stand either way. */
  predicate InOrder(a: Row, b: Row, descending: bool) {
    if descending then a.createdAt >= b.createdAt else a.createdAt <= b.createdAt
  }

  predicate Sorted(rows: seq<Row>, descending: bool) {
    forall i, j | 0 <= i < j < |rows| :: InOrder(rows[i], rows[j], descending)
  }

  predicate Distinct(rows: seq<Row>) {
    forall i, j | 0 <= i < j < |rows| :: rows[i] != rows[j]
  }

  /** `SELECT ... ORDER BY created_at LIMIT n`: at most `n` rows, in order, such that a row left out
      comes after all of them; none is left out when there are fewer than `n`. */
  predicate IsAnswer(rows: seq<Row>, candidates: set<Row>, descending: bool, n: nat) {
    && |rows| <= n && Distinct(rows) && Sorted(rows, descending)
    && (forall r | r in rows :: r in candidates)
    && (forall r | r in candidates && r !in rows ::
          |rows| == n && forall i | 0 <= i < |rows| :: InOrder(rows[i], r, descending))
  }

  /** The page built from an answer with one row more than the page holds. */
  function PageOf(rows: seq<Row>, total: nat, limit: nat): Page {
    if |rows| <= limit then Page(rows, None, total, limit)
    else Page(rows[..limit], if limit == 0 then None else Some(rows[limit - 1].createdAt), total, limit)
  }

  /** The loop of `search_tasks` over the rows that the database returned. */
  method SearchTasks(rows: seq<Row>, total: nat, limit: nat) returns (page: Page)
    ensures page == PageOf(rows, total, limit)
    ensures page.limit == limit && page.total == total
    ensures page.items == rows[..if |rows| < limit then |rows| else limit]
    ensures page.next == if 0 < limit < |rows| then Some(rows[limit - 1].createdAt) else None
  {
    var items: seq<Row> := [];
    var next: Option<int> := None;
    var i := 0;
    while i < |rows|
      invariant 0 <= i <= |rows| && i <= limit && items == rows[..i] && next == None
    {
      if i >= limit {
        next := if items != [] then Some(items[|items| - 1].createdAt) else None;
        break;
      }
      items := items + [rows[i]];
      i := i + 1;
    }
    page := Page(items, next, total, limit);
  }

  // ---------------------------------------------------------------- following the cursor

  ghost predicate IsPage(page: Page, table: set<Row>, q: Search, cursor: Cursor) {
    exists rows ::
      && IsAnswer(rows, Candidates(table, q, cursor), q.descending, q.limit + 1)
      && page == PageOf(rows, |Matching(table, q)|, q.limit)
  }

  /** Pages fetched one after the other over a fixed table, each with the cursor that the one before
      gave. A client may stop early. */
  ghost predicate IsChain(pages: seq<Page>, table: set<Row>, q: Search, cursor: Cursor) {
    pages == [] ||
    (&& IsPage(pages[0], table, q, cursor)
     && (pages[0].next == None ==> pages[1..] == [])
     && (pages[0].next.Some? ==> IsChain(pages[1..], table, q, At(pages[0].next.value))))
  }

  /** A cursor that is no time is ignored: what it starts is what no cursor starts. */
  lemma UnreadableStartsOver(pages: seq<Page>, table: set<Row>, q: Search)
    ensures IsChain(pages, table, q, Unreadable) <==> IsChain(pages, table, q, Absent)
  {
    if pages != [] {
      assert IsPage(pages[0], table, q, Unreadable) <==> IsPage(pages[0], table, q, Absent) by {
        assert Candidates(table, q, Unreadable) == Candidates(table, q, Absent);
      }
    }
  }

  predicate Finished(pages: seq<Page>) {
    pages != [] && pages[|pages| - 1].next == None
  }

  function AllItems(pages: seq<Page>): seq<Row> {
    if pages == [] then [] else pages[0].items + AllItems(pages[1..])
  }

  // ---------------------------------------------------------------- one page

  lemma PageFacts(page: Page, table: set<Row>, q: Search, cursor: Cursor)
    requires IsPage(page, table, q, cursor)
    ensures Distinct(page.items) && Sorted(page.items, q.descending)
    ensures forall r | r in page.items :: r in Candidates(table, q, cursor)
    ensures page.next.Some? ==> page.items != [] && page.items[|page.items| - 1].createdAt == page.next.value
    ensures forall r | r in Candidates(table, q, cursor) && r !in page.items ::
              forall i | 0 <= i < |page.items| :: InOrder(page.items[i], r, q.descending)
    ensures page.next == None && q.limit >= 1 ==> forall r | r in Candidates(table, q, cursor) :: r in page.items
    ensures page.total == |Matching(table, q)|
  {
    var rows: seq<Row> :| IsAnswer(rows, Candidates(table, q, cursor), q.descending, q.limit + 1)
                && page == PageOf(rows, |Matching(table, q)|, q.limit);
    if |rows| > q.limit {
      var last := rows[q.limit];
      assert rows == page.items + [last];
    }
  }

  predicate Tied(r: Row, page: Page) {
    page.next == Some(r.createdAt) && r !in page.items
  }

  /** The rows a query selects from are those on the page, those the next query selects from, and those
      that share the time of the last row but did not fit. The three do not overlap. */
  lemma PageSplits(page: Page, table: set<Row>, q: Search, cursor: Cursor, r: Row)
    requires IsPage(page, table, q, cursor) && page.next.Some?
    ensures r in Candidates(table, q, At(page.next.value)) ==> r in Candidates(table, q, cursor) && r !in page.items
    ensures r in Candidates(table, q, cursor) ==>
              r in page.items || r in Candidates(table, q, At(page.next.value)) || Tied(r, page)
    ensures r in page.items ==> !Past(r, page.next.value, q.descending)
  {
    PageFacts(page, table, q, cursor);
    var n := |page.items|;
    var last := page.items[n - 1];
    assert last in page.items;
    if r in page.items {
      var i :| 0 <= i < n && page.items[i] == r;
      assert i < n - 1 ==> InOrder(r, last, q.descending);
    } else if r in Candidates(table, q, cursor) {
      assert InOrder(last, r, q.descending);
    }
  }

  // ---------------------------------------------------------------- main results

  /** Everything that later pages show was selected by the query of the first. */
  lemma {:induction false} ItemsAreCandidates(pages: seq<Page>, table: set<Row>, q: Search, cursor: Cursor, r: Row)
    requires IsChain(pages, table, q, cursor) && r in AllItems(pages)
    ensures r in Candidates(table, q, cursor)
  {
    PageFacts(pages[0], table, q, cursor);
    if r !in pages[0].items {
      assert pages[0].next.Some?;
      ItemsAreCandidates(pages[1..], table, q, At(pages[0].next.value), r);
      PageSplits(pages[0], table, q, cursor, r);
    }
  }

  /** Following the cursor never repeats a row and never goes back in time, and every page reports the
      same total, whatever order the database gives to rows of equal time. */
  lemma {:induction false} NoRowTwice(pages: seq<Page>, table: set<Row>, q: Search, cursor: Cursor)
    requires IsChain(pages, table, q, cursor)
    ensures Distinct(AllItems(pages)) && Sorted(AllItems(pages), q.descending)
    ensures forall page | page in pages :: page.total == |Matching(table, q)|
  {
    if pages != [] {
      var first, rest := pages[0], AllItems(pages[1..]);
      PageFacts(first, table, q, cursor);
      if first.next.Some? {
        var next := At(first.next.value);
        NoRowTwice(pages[1..], table, q, next);
        forall i, j | 0 <= i < |first.items| && 0 <= j < |rest|
          ensures first.items[i] != rest[j] && InOrder(first.items[i], rest[j], q.descending)
        {
          ItemsAreCandidates(pages[1..], table, q, next, rest[j]);
          PageSplits(first, table, q, cursor, rest[j]);
        }
        Glue(first.items, rest, q.descending);
      } else {
        assert AllItems(pages) == first.items;
      }
    }
  }

  lemma Glue(a: seq<Row>, b: seq<Row>, descending: bool)
    requires Distinct(a) && Sorted(a, descending) && Distinct(b) && Sorted(b, descending)
    requires forall i, j | 0 <= i < |a| && 0 <= j < |b| :: a[i] != b[j] && InOrder(a[i], b[j], descending)
    ensures Distinct(a + b) && Sorted(a + b, descending)
  {
    forall i, j | 0 <= i < j < |a + b| ensures (a + b)[i] != (a + b)[j] && InOrder((a + b)[i], (a + b)[j], descending) {
      if j < |a| {
        assert a[i] != a[j] && InOrder(a[i], a[j], descending);
      } else if i >= |a| {
        assert b[i - |a|] != b[j - |a|] && InOrder(b[i - |a|], b[j - |a|], descending);
      }
    }
  }

  lemma {:induction false} DistinctFits(rows: seq<Row>, all: set<Row>)
    requires Distinct(rows) && forall r | r in rows :: r in all
    ensures |rows| <= |all|
  {
    if rows != [] {
      var init, last := rows[..|rows| - 1], rows[|rows| - 1];
      forall r | r in init ensures r in all - {last} {
        var i :| 0 <= i < |init| && init[i] == r;
        assert r == rows[i] && rows[i] in rows;
      }
      DistinctFits(init, all - {last});
    }
  }

  lemma {:induction false} PagesShowRows(pages: seq<Page>, table: set<Row>, q: Search, cursor: Cursor)
    requires IsChain(pages, table, q, cursor)
    ensures |pages| <= |AllItems(pages)| + 1
  {
    if pages != [] && pages[0].next.Some? {
      PageFacts(pages[0], table, q, cursor);
      PagesShowRows(pages[1..], table, q, At(pages[0].next.value));
    }
  }

  /** Following the cursor stops: there are never more pages than matching rows and one. */
  lemma PagingStops(pages: seq<Page>, table: set<Row>, q: Search)
    requires IsChain(pages, table, q, Absent)
    ensures |pages| <= |Matching(table, q)| + 1
  {
    PagesShowRows(pages, table, q, Absent);
    NoRowTwice(pages, table, q, Absent);
    forall r | r in AllItems(pages) ensures r in Matching(table, q) {
      ItemsAreCandidates(pages, table, q, Absent, r);
    }
    DistinctFits(AllItems(pages), Matching(table, q));
  }

  lemma {:induction false} ShownOrTied(pages: seq<Page>, table: set<Row>, q: Search, cursor: Cursor, r: Row)
    requires IsChain(pages, table, q, cursor) && Finished(pages) && q.limit >= 1
    requires r in Candidates(table, q, cursor)
    ensures r in AllItems(pages) <==> !exists k :: 0 <= k < |pages| && Tied(r, pages[k])
  {
    var first, rest := pages[0], pages[1..];
    PageFacts(first, table, q, cursor);
    if first.next == None {
      assert pages == [first];
    } else {
      PageSplits(first, table, q, cursor, r);
      var next := At(first.next.value);
      assert forall k | 0 <= k < |rest| :: pages[k + 1] == rest[k];
      if r in Candidates(table, q, next) {
        ShownOrTied(rest, table, q, next, r);
        if r in AllItems(pages) {
          assert r in AllItems(rest);
        } else {
          var k :| 0 <= k < |rest| && Tied(r, rest[k]);
          assert Tied(r, pages[k + 1]);
        }
      } else if r in first.items {
        NoLaterTie(rest, table, q, next, r);
      } else {
        assert Tied(r, pages[0]);
        if r in AllItems(rest) {
          ItemsAreCandidates(rest, table, q, next, r);
        }
      }
    }
  }

  /** Later pages cannot end at the time of a row that is already behind the cursor. */
  lemma {:induction false} NoLaterTie(pages: seq<Page>, table: set<Row>, q: Search, cursor: Cursor, r: Row)
    requires IsChain(pages, table, q, cursor) && cursor.At? && !Past(r, cursor.time, q.descending)
    ensures forall k | 0 <= k < |pages| :: !Tied(r, pages[k])
  {
    if pages != [] {
      var first := pages[0];
      PageFacts(first, table, q, cursor);
      if first.next.Some? {
        var last := first.items[|first.items| - 1];
        assert last in first.items;
        NoLaterTie(pages[1..], table, q, At(first.next.value), r);
      }
    }
  }

  /** A row is missed exactly when it shares its time with the last row of a page and was not on it. */
  lemma MissedExactlyOnTies(pages: seq<Page>, table: set<Row>, q: Search, r: Row)
    requires IsChain(pages, table, q, Absent) && Finished(pages) && q.limit >= 1
    requires r in Matching(table, q)
    ensures r in AllItems(pages) <==> !exists k :: 0 <= k < |pages| && Tied(r, pages[k])
  {
    ShownOrTied(pages, table, q, Absent, r);
  }

  /** With distinct times the pages list all matching rows, each once, in the order of the search. */
  lemma DistinctTimesListAll(pages: seq<Page>, table: set<Row>, q: Search)
    requires IsChain(pages, table, q, Absent) && Finished(pages) && q.limit >= 1
    requires forall a, b | a in Matching(table, q) && b in Matching(table, q) && a != b :: a.createdAt != b.createdAt
    ensures forall r :: r in AllItems(pages) <==> r in Matching(table, q)
    ensures Distinct(AllItems(pages)) && Sorted(AllItems(pages), q.descending)
  {
    NoRowTwice(pages, table, q, Absent);
    forall r ensures r in AllItems(pages) <==> r in Matching(table, q) {
      if r in AllItems(pages) {
        ItemsAreCandidates(pages, table, q, Absent, r);
      } else if r in Matching(table, q) {
        MissedExactlyOnTies(pages, table, q, r);
        var k :| 0 <= k < |pages| && Tied(r, pages[k]);
        PageRows(pages, table, q, Absent, k);
      }
    }
  }

  lemma {:induction false} PageRows(pages: seq<Page>, table: set<Row>, q: Search, cursor: Cursor, k: nat)
    requires IsChain(pages, table, q, cursor) && k < |pages| && pages[k].next.Some?
    ensures exists last :: last in pages[k].items && last in Matching(table, q) && last.createdAt == pages[k].next.value
  {
    if k == 0 {
      PageFacts(pages[0], table, q, cursor);
      var last := pages[0].items[|pages[0].items| - 1];
      assert last in pages[0].items && last in Matching(table, q);
    } else {
      PageRows(pages[1..], table, q, At(pages[0].next.value), k - 1);
    }
  }

  // ---------------------------------------------------------------- which tables are listed in full

  /** All rows of a set in the order of the search; there are several such lists when times are equal. */
  ghost predicate IsListing(all: seq<Row>, rows: set<Row>, descending: bool) {
    Distinct(all) && Sorted(all, descending) && (forall r :: r in all <==> r in rows)
  }

  function Times(rows: seq<Row>): (ts: seq<int>)
    ensures |ts| == |rows| && forall k | 0 <= k < |rows| :: ts[k] == rows[k].createdAt
  {
    seq(|rows|, k requires 0 <= k < |rows| => rows[k].createdAt)
  }

  /** No page of this size ends between two equal times. */
  predicate Fits(ts: seq<int>, limit: nat)
    requires limit >= 1
    decreases |ts|
  {
    |ts| <= limit || (ts[limit - 1] != ts[limit] && Fits(ts[limit..], limit))
  }

  /** The rows that come before a time, and those that come no later. */
  function Before(rows: set<Row>, time: int, descending: bool): set<Row> {
    set r | r in rows && (if descending then r.createdAt > time else r.createdAt < time)
  }

  function NoLater(rows: set<Row>, time: int, descending: bool): set<Row> {
    set r | r in rows && (if descending then r.createdAt >= time else r.createdAt <= time)
  }

  lemma {:induction false} DistinctFills(rows: seq<Row>, all: set<Row>)
    requires Distinct(rows) && forall r | r in all :: r in rows
    ensures |all| <= |rows|
    decreases |rows|
  {
    if rows == [] {
      assert all == {};
    } else {
      var init, last := rows[..|rows| - 1], rows[|rows| - 1];
      assert rows == init + [last];
      DistinctFills(init, all - {last});
      if last in all {
        assert all == (all - {last}) + {last};
      } else {
        assert all == all - {last};
      }
    }
  }

  /** A row that is not among the first `k` of an answer comes no earlier than the row at `k`. */
  lemma NotBeforePlace(rows: seq<Row>, all: set<Row>, descending: bool, n: nat, k: nat, r: Row)
    requires IsAnswer(rows, all, descending, n) && k < |rows| && r in all && r !in rows[..k]
    ensures r !in Before(all, rows[k].createdAt, descending)
  {
    if r in rows {
      assert rows == rows[..k] + rows[k..] && r in rows[k..];
      var i :| 0 <= i < |rows[k..]| && rows[k..][i] == r;
      assert i > 0 ==> InOrder(rows[k], rows[k + i], descending);
    } else {
      assert InOrder(rows[k], r, descending);
    }
  }

  lemma NoLaterThanPlace(rows: seq<Row>, all: set<Row>, descending: bool, n: nat, k: nat, r: Row)
    requires IsAnswer(rows, all, descending, n) && k < |rows| && r in rows[..k + 1]
    ensures r in NoLater(all, rows[k].createdAt, descending)
  {
    var i :| 0 <= i <= k && rows[i] == r;
    assert rows[i] in rows;
    assert i < k ==> InOrder(rows[i], rows[k], descending);
  }

  /** Position `k` of an answer holds the time that at most `k` rows come before and more than `k` come no
      later than. */
  lemma PlaceInAnswer(rows: seq<Row>, all: set<Row>, descending: bool, n: nat, k: nat)
    requires IsAnswer(rows, all, descending, n) && k < |rows|
    ensures |Before(all, rows[k].createdAt, descending)| <= k < |NoLater(all, rows[k].createdAt, descending)|
  {
    var before, upTo := Before(all, rows[k].createdAt, descending), NoLater(all, rows[k].createdAt, descending);
    forall r | r in before ensures r in rows[..k] {
      if r !in rows[..k] {
        NotBeforePlace(rows, all, descending, n, k, r);
      }
    }
    DistinctFills(rows[..k], before);
    forall r | r in rows[..k + 1] ensures r in upTo {
      NoLaterThanPlace(rows, all, descending, n, k, r);
    }
    DistinctFits(rows[..k + 1], upTo);
  }

  /** Only one time can have that place. */
  lemma OnePlace(all: set<Row>, s: int, t: int, descending: bool, k: nat)
    requires |Before(all, s, descending)| <= k < |NoLater(all, s, descending)|
    requires |Before(all, t, descending)| <= k < |NoLater(all, t, descending)|
    ensures s == t
  {
    if s != t {
      var first, second := if (s < t) == descending then t else s, if (s < t) == descending then s else t;
      Subset(NoLater(all, first, descending), Before(all, second, descending));
    }
  }

  lemma {:induction false} Subset(a: set<Row>, b: set<Row>)
    requires a <= b
    ensures |a| <= |b|
  {
    if a != {} {
      var x :| x in a;
      Subset(a - {x}, b - {x});
    }
  }

  lemma ListingIsAnswer(all: seq<Row>, rows: set<Row>, descending: bool)
    requires IsListing(all, rows, descending)
    ensures IsAnswer(all, rows, descending, |all|) && |all| == |rows|
  {
    DistinctFits(all, rows);
    DistinctFills(all, rows);
  }

  /** An answer has the times that any listing begins with, and is as long as the limit and the rows
      allow. */
  lemma AnswerTimes(rows: seq<Row>, all: seq<Row>, candidates: set<Row>, descending: bool, n: nat)
    requires IsAnswer(rows, candidates, descending, n) && IsListing(all, candidates, descending)
    ensures |rows| == if |all| < n then |all| else n
    ensures forall k | 0 <= k < |rows| :: rows[k].createdAt == all[k].createdAt
  {
    ListingIsAnswer(all, candidates, descending);
    DistinctFits(rows, candidates);
    if forall r | r in candidates :: r in rows {
      DistinctFills(rows, candidates);
    }
    forall k | 0 <= k < |rows| ensures rows[k].createdAt == all[k].createdAt {
      PlaceInAnswer(rows, candidates, descending, n, k);
      PlaceInAnswer(all, candidates, descending, |all|, k);
      OnePlace(candidates, rows[k].createdAt, all[k].createdAt, descending, k);
    }
  }

  lemma NoGapBehind(all: seq<Row>, time: int, descending: bool, n: nat)
    requires Sorted(all, descending) && 1 <= n < |all|
    requires all[n - 1].createdAt == time && all[n].createdAt != time
    ensures forall k | 0 <= k < |all| :: Past(all[k], time, descending) <==> k >= n
  {
    forall k | 0 <= k < |all| ensures Past(all[k], time, descending) <==> k >= n {
      assert InOrder(all[n - 1], all[n], descending);
      assert k < n - 1 ==> InOrder(all[k], all[n - 1], descending);
      assert k > n ==> InOrder(all[n], all[k], descending);
    }
  }

  /** What is left of a listing behind a page that does not end between two equal times. */
  lemma RestOfListing(all: seq<Row>, table: set<Row>, q: Search, cursor: Cursor, time: int)
    requires IsListing(all, Candidates(table, q, cursor), q.descending) && 1 <= q.limit < |all|
    requires all[q.limit - 1].createdAt == time && all[q.limit].createdAt != time
    requires forall r | r in Candidates(table, q, At(time)) :: r in Candidates(table, q, cursor)
    ensures IsListing(all[q.limit..], Candidates(table, q, At(time)), q.descending)
  {
    var rest := all[q.limit..];
    NoGapBehind(all, time, q.descending, q.limit);
    forall i, j | 0 <= i < j < |rest| ensures rest[i] != rest[j] && InOrder(rest[i], rest[j], q.descending) {
      assert all[q.limit + i] != all[q.limit + j] && InOrder(all[q.limit + i], all[q.limit + j], q.descending);
    }
    forall r ensures r in rest <==> r in Candidates(table, q, At(time)) {
      if r in rest {
        var k :| 0 <= k < |rest| && rest[k] == r;
        assert all[q.limit + k] == r && r in all;
      }
      if r in Candidates(table, q, At(time)) {
        var k :| 0 <= k < |all| && all[k] == r;
        assert rest[k - q.limit] == r;
      }
    }
  }

  /** A page that does not end between two equal times has no tie. */
  lemma NoTie(rows: seq<Row>, page: Page, candidates: set<Row>, q: Search, r: Row)
    requires q.limit >= 1 && IsAnswer(rows, candidates, q.descending, q.limit + 1)
    requires |rows| == q.limit + 1 && page == PageOf(rows, page.total, q.limit)
    requires rows[q.limit - 1].createdAt != rows[q.limit].createdAt
    requires r in candidates
    ensures !Tied(r, page)
  {
    var n := q.limit;
    assert InOrder(rows[n - 1], rows[n], q.descending);
    if r in rows {
      var k :| 0 <= k < |rows| && rows[k] == r;
      assert k < n ==> page.items[k] == r;
    } else {
      assert InOrder(rows[n], r, q.descending);
    }
  }

  lemma TieIsMissed(rows: seq<Row>, pages: seq<Page>, table: set<Row>, q: Search, cursor: Cursor)
    requires IsChain(pages, table, q, cursor) && Finished(pages) && q.limit >= 1
    requires IsAnswer(rows, Candidates(table, q, cursor), q.descending, q.limit + 1)
    requires |rows| == q.limit + 1 && pages[0] == PageOf(rows, pages[0].total, q.limit)
    requires rows[q.limit - 1].createdAt == rows[q.limit].createdAt
    ensures rows[q.limit] !in AllItems(pages)
  {
    var r := rows[q.limit];
    assert r in rows;
    assert Tied(r, pages[0]);
    ShownOrTied(pages, table, q, cursor, r);
  }

  ghost predicate ListsAll(pages: seq<Page>, rows: seq<Row>) {
    forall r | r in rows :: r in AllItems(pages)
  }

  /** The chain lists everything iff its later pages list what the first left. */
  lemma FirstPageIsFull(rows: seq<Row>, all: seq<Row>, pages: seq<Page>, table: set<Row>, q: Search, cursor: Cursor)
    requires IsChain(pages, table, q, cursor) && Finished(pages) && q.limit >= 1
    requires IsAnswer(rows, Candidates(table, q, cursor), q.descending, q.limit + 1)
    requires |rows| == q.limit + 1 && pages[0] == PageOf(rows, pages[0].total, q.limit)
    requires rows[q.limit - 1].createdAt != rows[q.limit].createdAt
    requires IsListing(all, Candidates(table, q, cursor), q.descending) && q.limit < |all|
    requires IsListing(all[q.limit..], Candidates(table, q, At(pages[0].next.value)), q.descending)
    ensures ListsAll(pages, all) <==> ListsAll(pages[1..], all[q.limit..])
  {
    var first, rest := pages[0], all[q.limit..];
    forall r | r in all ensures r in first.items || r in rest {
      PageSplits(first, table, q, cursor, r);
      NoTie(rows, first, Candidates(table, q, cursor), q, r);
    }
    forall r | r in rest ensures r in all && r !in first.items {
      PageSplits(first, table, q, cursor, r);
    }
  }

  /** The rest of the chain is a chain for the rest of the listing. */
  lemma ChainGoesOn(rows: seq<Row>, all: seq<Row>, pages: seq<Page>, table: set<Row>, q: Search, cursor: Cursor)
    requires IsChain(pages, table, q, cursor) && Finished(pages) && q.limit >= 1
    requires IsAnswer(rows, Candidates(table, q, cursor), q.descending, q.limit + 1)
    requires |rows| == q.limit + 1 && pages[0] == PageOf(rows, pages[0].total, q.limit)
    requires rows[q.limit - 1].createdAt != rows[q.limit].createdAt
    requires IsListing(all, Candidates(table, q, cursor), q.descending)
    ensures |all| > q.limit && pages[0].next.Some?
    ensures IsChain(pages[1..], table, q, At(pages[0].next.value)) && Finished(pages[1..])
    ensures IsListing(all[q.limit..], Candidates(table, q, At(pages[0].next.value)), q.descending)
    ensures all[q.limit - 1].createdAt != all[q.limit].createdAt
  {
    var time := pages[0].next.value;
    AnswerTimes(rows, all, Candidates(table, q, cursor), q.descending, q.limit + 1);
    forall r | r in Candidates(table, q, At(time)) ensures r in Candidates(table, q, cursor) {
      PageSplits(pages[0], table, q, cursor, r);
    }
    RestOfListing(all, table, q, cursor, time);
  }

  lemma FitsBehind(all: seq<Row>, limit: nat)
    requires 1 <= limit < |all| && all[limit - 1].createdAt != all[limit].createdAt
    ensures Fits(Times(all), limit) <==> Fits(Times(all[limit..]), limit)
  {
    assert Times(all[limit..]) == Times(all)[limit..];
  }

  lemma {:induction false} ListsAllIff(pages: seq<Page>, table: set<Row>, q: Search, cursor: Cursor, all: seq<Row>)
    requires IsChain(pages, table, q, cursor) && Finished(pages) && q.limit >= 1
    requires IsListing(all, Candidates(table, q, cursor), q.descending)
    ensures ListsAll(pages, all) <==> Fits(Times(all), q.limit)
    decreases |pages|
  {
    hide Fits, Times, AllItems, Candidates, ListsAll;
    var rows: seq<Row> :| IsAnswer(rows, Candidates(table, q, cursor), q.descending, q.limit + 1)
                && pages[0] == PageOf(rows, |Matching(table, q)|, q.limit);
    if |rows| <= q.limit {
      OnlyPage(rows, pages, table, q, cursor, all);
    } else if rows[q.limit - 1].createdAt == rows[q.limit].createdAt {
      PageEndsInTie(rows, pages, table, q, cursor, all);
    } else {
      ChainGoesOn(rows, all, pages, table, q, cursor);
      FirstPageIsFull(rows, all, pages, table, q, cursor);
      ListsAllIff(pages[1..], table, q, At(pages[0].next.value), all[q.limit..]);
      FitsBehind(all, q.limit);
    }
  }

  lemma OnlyPage(rows: seq<Row>, pages: seq<Page>, table: set<Row>, q: Search, cursor: Cursor, all: seq<Row>)
    requires IsChain(pages, table, q, cursor) && Finished(pages) && q.limit >= 1
    requires IsAnswer(rows, Candidates(table, q, cursor), q.descending, q.limit + 1)
    requires |rows| <= q.limit && pages[0] == PageOf(rows, pages[0].total, q.limit)
    requires IsListing(all, Candidates(table, q, cursor), q.descending)
    ensures ListsAll(pages, all) && Fits(Times(all), q.limit)
  {
    AnswerTimes(rows, all, Candidates(table, q, cursor), q.descending, q.limit + 1);
    PageFacts(pages[0], table, q, cursor);
    assert pages == [pages[0]];
  }

  lemma ListingTies(rows: seq<Row>, candidates: set<Row>, descending: bool, limit: nat, all: seq<Row>)
    requires limit >= 1 && IsAnswer(rows, candidates, descending, limit + 1) && |rows| == limit + 1
    requires rows[limit - 1].createdAt == rows[limit].createdAt
    requires IsListing(all, candidates, descending)
    ensures |all| > limit && all[limit - 1].createdAt == all[limit].createdAt && rows[limit] in all
  {
    AnswerTimes(rows, all, candidates, descending, limit + 1);
    assert rows[limit] in rows;
  }

  lemma PageEndsInTie(rows: seq<Row>, pages: seq<Page>, table: set<Row>, q: Search, cursor: Cursor, all: seq<Row>)
    requires IsChain(pages, table, q, cursor) && Finished(pages) && q.limit >= 1
    requires IsAnswer(rows, Candidates(table, q, cursor), q.descending, q.limit + 1)
    requires |rows| == q.limit + 1 && pages[0] == PageOf(rows, pages[0].total, q.limit)
    requires rows[q.limit - 1].createdAt == rows[q.limit].createdAt
    requires IsListing(all, Candidates(table, q, cursor), q.descending)
    ensures !ListsAll(pages, all) && !Fits(Times(all), q.limit)
  {
    ListingTies(rows, Candidates(table, q, cursor), q.descending, q.limit, all);
    TieIsMissed(rows, pages, table, q, cursor);
  }

  /** Along the sorted times of the matching rows, no page of the search's size ends between two equal ones. */
  ghost predicate TableFits(table: set<Row>, q: Search)
    requires q.limit >= 1
  {
    exists all :: IsListing(all, Matching(table, q), q.descending) && Fits(Times(all), q.limit)
  }

  /** All listings of the matching rows have the same times, so any one of them tells. */
  lemma AnyListingTells(table: set<Row>, q: Search, all: seq<Row>)
    requires q.limit >= 1 && IsListing(all, Matching(table, q), q.descending)
    ensures TableFits(table, q) <==> Fits(Times(all), q.limit)
  {
    if TableFits(table, q) {
      var other :| IsListing(other, Matching(table, q), q.descending) && Fits(Times(other), q.limit);
      ListingIsAnswer(other, Matching(table, q), q.descending);
      ListingIsAnswer(all, Matching(table, q), q.descending);
      AnswerTimes(other, all, Matching(table, q), q.descending, |other|);
      assert Times(other) == Times(all);
    }
  }

  /** Over a fixed table, every finished chain of pages lists all matching rows exactly if no page of this
      size ends between two equal times, counted along the sorted times of the matching rows, whatever order
      the database gives to rows of equal time. */
  lemma ListsAllExactlyIfTimesFit(pages: seq<Page>, table: set<Row>, q: Search)
    requires IsChain(pages, table, q, Absent) && Finished(pages) && q.limit >= 1
    ensures (forall r | r in Matching(table, q) :: r in AllItems(pages)) <==> TableFits(table, q)
  {
    var all := ListingExists(Matching(table, q), q.descending);
    AnyListingTells(table, q, all);
    ListsAllIff(pages, table, q, Absent, all);
  }

  lemma PrefixIsAnswer(all: seq<Row>, rows: set<Row>, descending: bool, n: nat)
    requires IsListing(all, rows, descending) && n <= |all|
    ensures IsAnswer(all[..n], rows, descending, n)
  {
    var answer := all[..n];
    assert all == answer + all[n..];
    forall r | r in answer ensures r in rows {
      assert r in all;
    }
    assert forall k | 0 <= k < n :: all[k] == answer[k] && all[k] in answer;
    forall r | r in rows && r !in answer ensures forall i | 0 <= i < n :: InOrder(answer[i], r, descending) {
      var k :| 0 <= k < |all| && all[k] == r;
    }
  }

  lemma SomeAnswer(rows: set<Row>, descending: bool, n: nat) returns (answer: seq<Row>)
    ensures IsAnswer(answer, rows, descending, n)
  {
    var all := ListingExists(rows, descending);
    if |all| <= n {
      answer := all;
    } else {
      answer := all[..n];
      PrefixIsAnswer(all, rows, descending, n);
    }
  }

  lemma FewerBehind(page: Page, table: set<Row>, q: Search, cursor: Cursor)
    requires IsPage(page, table, q, cursor) && page.next.Some?
    ensures |Candidates(table, q, At(page.next.value))| < |Candidates(table, q, cursor)|
  {
    PageFacts(page, table, q, cursor);
    var last := page.items[|page.items| - 1];
    assert last in page.items;
    var before, behind := Candidates(table, q, cursor), Candidates(table, q, At(page.next.value));
    forall r | r in behind ensures r in before - {last} {
      PageSplits(page, table, q, cursor, r);
    }
    Subset(behind, before - {last});
  }

  lemma {:induction false} ChainFrom(table: set<Row>, q: Search, cursor: Cursor) returns (pages: seq<Page>)
    ensures IsChain(pages, table, q, cursor) && Finished(pages)
    decreases |Candidates(table, q, cursor)|
  {
    var rows := SomeAnswer(Candidates(table, q, cursor), q.descending, q.limit + 1);
    var page := PageOf(rows, |Matching(table, q)|, q.limit);
    assert IsPage(page, table, q, cursor);
    if page.next.None? {
      pages := [page];
    } else {
      FewerBehind(page, table, q, cursor);
      var rest := ChainFrom(table, q, At(page.next.value));
      pages := [page] + rest;
      assert pages[1..] == rest;
    }
  }

  /** Every table can be paged to its end, and listed, so the results above are about something. */
  lemma FinishedChainExists(table: set<Row>, q: Search)
    ensures exists pages :: IsChain(pages, table, q, Absent) && Finished(pages)
    ensures exists all :: IsListing(all, Matching(table, q), q.descending)
  {
    var pages := ChainFrom(table, q, Absent);
    var all := ListingExists(Matching(table, q), q.descending);
  }

  lemma {:induction false} ListingExists(rows: set<Row>, descending: bool) returns (all: seq<Row>)
    ensures IsListing(all, rows, descending)
  {
    if rows == {} {
      all := [];
    } else {
      var r :| r in rows;
      var rest := ListingExists(rows - {r}, descending);
      all := Insert(rest, r, descending);
      assert forall x :: x in all <==> x in rows;
    }
  }

  lemma {:induction false} Insert(rows: seq<Row>, r: Row, descending: bool) returns (all: seq<Row>)
    requires Distinct(rows) && Sorted(rows, descending) && r !in rows
    ensures Distinct(all) && Sorted(all, descending) && forall x :: x in all <==> x in rows || x == r
    decreases |rows|
  {
    if rows == [] || InOrder(rows[|rows| - 1], r, descending) {
      all := rows + [r];
      forall i | 0 <= i < |rows| ensures rows[i] != r && InOrder(rows[i], r, descending) {
        assert rows[i] in rows;
        assert i < |rows| - 1 ==> InOrder(rows[i], rows[|rows| - 1], descending);
      }
      Glue(rows, [r], descending);
    } else {
      var init, last := rows[..|rows| - 1], rows[|rows| - 1];
      assert rows == init + [last];
      var longer := Insert(init, r, descending);
      all := longer + [last];
      forall i | 0 <= i < |longer| ensures longer[i] != last && InOrder(longer[i], last, descending) {
        assert longer[i] in longer;
        if longer[i] in init {
          var k :| 0 <= k < |init| && init[k] == longer[i];
          assert rows[k] != last && InOrder(rows[k], last, descending);
        }
      }
      Glue(longer, [last], descending);
    }
  }

  lemma TwoPages(x: Row, y: Row, q: Search)
    requires x != y && x.createdAt == y.createdAt && q.limit == 1 && q.matches(x) && q.matches(y)
    ensures var pages := [Page([x], Some(x.createdAt), 2, 1), Page([], None, 2, 1)];
            IsChain(pages, {x, y}, q, Absent) && Finished(pages) && AllItems(pages) == [x]
  {
    var table, time := {x, y}, x.createdAt;
    var first, second := Page([x], Some(time), 2, 1), Page([], None, 2, 1);
    var none: seq<Row> := [];
    assert Matching(table, q) == table && |table| == 2;
    assert Candidates(table, q, At(time)) == {};
    assert IsAnswer([x, y], Candidates(table, q, Absent), q.descending, 2);
    assert [x, y][..1] == [x];
    assert first == PageOf([x, y], |Matching(table, q)|, q.limit);
    assert IsAnswer(none, Candidates(table, q, At(time)), q.descending, 2);
    assert second == PageOf(none, |Matching(table, q)|, q.limit);
    assert [first, second][1..] == [second] && [second][1..] == [];
    assert IsChain([second], table, q, At(time));
    assert AllItems([second]) == none + AllItems([]);
    assert AllItems([first, second]) == [x] + AllItems([second]);
  }

  lemma OneIsMissed(x: Row, y: Row, q: Search, pages: seq<Page>)
    requires x != y && x.createdAt == y.createdAt && q.limit == 1 && q.matches(x) && q.matches(y)
    requires IsChain(pages, {x, y}, q, Absent) && Finished(pages)
    ensures x !in AllItems(pages) || y !in AllItems(pages)
  {
    assert Matching({x, y}, q) == {x, y};
    assert IsListing([x, y], {x, y}, q.descending);
    assert Times([x, y])[0] == Times([x, y])[1];
    AnyListingTells({x, y}, q, [x, y]);
    ListsAllExactlyIfTimesFit(pages, {x, y}, q);
  }

  /** Two rows of the same time, asked for one at a time: the pages end after the first, and one row is
      never shown; no order that the database could choose shows both. */
  lemma EqualTimesAreMissed(a: string, b: string, time: int, q: Search)
    requires a != b && q.limit == 1 && q.matches(Row(a, time)) && q.matches(Row(b, time))
    ensures var pages := [Page([Row(a, time)], Some(time), 2, 1), Page([], None, 2, 1)];
            && IsChain(pages, {Row(a, time), Row(b, time)}, q, Absent) && Finished(pages)
            && Row(b, time) !in AllItems(pages)
    ensures forall pages | IsChain(pages, {Row(a, time), Row(b, time)}, q, Absent) && Finished(pages) ::
              Row(a, time) !in AllItems(pages) || Row(b, time) !in AllItems(pages)
  {
    var x, y := Row(a, time), Row(b, time);
    TwoPages(x, y, q);
    forall pages | IsChain(pages, {x, y}, q, Absent) && Finished(pages)
      ensures x !in AllItems(pages) || y !in AllItems(pages)
    {
      OneIsMissed(x, y, q, pages);
    }
  }
}
