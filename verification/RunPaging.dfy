/**
 Paging through runs (apps/api/routers/_run_history_query.py and the run-history
 reader): rows in descending (started_at, id) order, strictly below a cursor, one
 row more than the page fetched to learn whether there is a next page.
 */
module RunPaging {
  import opened JsonText
  import opened Sorting

  /** A run. Times are in microseconds since the epoch, ids are 128-bit numbers. */
  datatype Run = Run(startedAt: int, id: nat, body: string)

  const PAGE_SIZE_CEILING: nat := 50

  type PageSize = n: nat | 1 <= n <= 50 witness 1

  datatype Cursor = Cursor(startedAt: int, id: nat, size: PageSize)

  const SENTINEL_STARTED_AT: int := 253_402_300_799_999_999
  const SENTINEL_ID: nat := 340_282_366_920_938_463_463_374_607_431_768_211_455

  /** `_resolve_cursor`, its cursor text already decoded. */
  function ResolveCursor(cursor: Option<Cursor>, pageSize: Option<PageSize>): Option<Cursor> {
    match (cursor, pageSize)
    case (None, None) => None
    case (None, Some(size)) => Some(Cursor(SENTINEL_STARTED_AT, SENTINEL_ID, size))
    case (Some(c), _) => Some(c)
  }

  /** Row-value comparison: `(started_at, id) < (cursor.started_at, cursor.id)`. */
  predicate Below(r: Run, c: Option<Cursor>) {
    match c
    case None => true
    case Some(k) => r.startedAt < k.startedAt || (r.startedAt == k.startedAt && r.id < k.id)
  }

  /** Not after in descending order. */
  predicate Descending(a: Run, b: Run) {
    a.startedAt > b.startedAt || (a.startedAt == b.startedAt && a.id >= b.id)
  }

  type Filter = Run -> bool

  function Select(rows: seq<Run>, keep: Filter, c: Option<Cursor>): seq<Run> {
    if rows == [] then []
    else
      var front, last := Select(rows[..|rows| - 1], keep, c), rows[|rows| - 1];
      if keep(last) && Below(last, c) then front + [last] else front
  }

  /** The matching rows below a cursor, in order. */
  function Listing(rows: seq<Run>, keep: Filter, c: Option<Cursor>): seq<Run> {
    Sort(Select(rows, keep, c), Descending)
  }

  function SizeOf(c: Option<Cursor>): PageSize {
    match c case None => PAGE_SIZE_CEILING case Some(k) => k.size
  }

  datatype Page = Page(runs: seq<Run>, next: Option<Cursor>)

  /** What the reader does with the rows of its query, whose limit is one more than the page. */
  function PageOfRows(rows: seq<Run>, size: PageSize): Page {
    var hasNext := |rows| > size;
    var page := if hasNext then rows[..size] else rows;
    Page(page, if hasNext then Some(Cursor(page[size - 1].startedAt, page[size - 1].id, size)) else None)
  }

  /** `list_runs_with_filters`. */
  function ReadPage(rows: seq<Run>, keep: Filter, c: Option<Cursor>): Page {
    var all := Listing(rows, keep, c);
    var size := SizeOf(c);
    PageOfRows(if |all| > size + 1 then all[..size + 1] else all, size)
  }

  // ---------------------------------------------------------------- order

  /** Ids are a primary key. */
  ghost predicate DistinctIds(rows: seq<Run>) {
    forall i, j | 0 <= i < |rows| && 0 <= j < |rows| && rows[i].id == rows[j].id :: i == j
  }

  ghost predicate Strict(xs: seq<Run>) {
    forall i, j | 0 <= i < j < |xs| :: !Descending(xs[j], xs[i])
  }

  lemma DescendingOrder()
    ensures Order(Descending)
  {
  }

  lemma {:induction false} SelectCounts(rows: seq<Run>, keep: Filter, c: Option<Cursor>, x: Run)
    ensures multiset(Select(rows, keep, c))[x] == if keep(x) && Below(x, c) then multiset(rows)[x] else 0
  {
    if rows != [] {
      SelectCounts(rows[..|rows| - 1], keep, c, x);
      assert rows == rows[..|rows| - 1] + [rows[|rows| - 1]];
    }
  }

  lemma SelectIsIn(rows: seq<Run>, keep: Filter, c: Option<Cursor>)
    ensures forall x | x in Select(rows, keep, c) :: x in rows && keep(x) && Below(x, c)
  {
    forall x | x in Select(rows, keep, c) ensures x in rows && keep(x) && Below(x, c) {
      SelectCounts(rows, keep, c, x);
      assert x in multiset(Select(rows, keep, c));
      assert x in multiset(rows);
    }
  }

  lemma ListingIsIn(rows: seq<Run>, keep: Filter, c: Option<Cursor>)
    ensures forall x | x in Listing(rows, keep, c) :: x in rows && keep(x) && Below(x, c)
    ensures multiset(Listing(rows, keep, c)) == multiset(Select(rows, keep, c))
  {
    SortPermutes(Select(rows, keep, c), Descending);
    SelectIsIn(rows, keep, c);
    forall x | x in Listing(rows, keep, c) ensures x in Select(rows, keep, c) {
      assert x in multiset(Listing(rows, keep, c));
    }
  }

  lemma {:induction false} DistinctCounts(rows: seq<Run>, x: Run)
    requires DistinctIds(rows)
    ensures multiset(rows)[x] <= 1
  {
    if rows != [] {
      var front, last := rows[..|rows| - 1], rows[|rows| - 1];
      DistinctCounts(front, x);
      assert rows == front + [last];
    }
  }

  /** A sorted list without repeats and without ties is strictly descending. */
  lemma ListingStrict(rows: seq<Run>, keep: Filter, c: Option<Cursor>)
    requires DistinctIds(rows)
    ensures Strict(Listing(rows, keep, c)) && Sorted(Listing(rows, keep, c), Descending)
  {
    var d := Listing(rows, keep, c);
    DescendingOrder();
    SortSorted(Select(rows, keep, c), Descending);
    ListingIsIn(rows, keep, c);
    forall i, j | 0 <= i < j < |d| ensures !Descending(d[j], d[i]) {
      if Descending(d[j], d[i]) {
        assert Descending(d[i], d[j]);
        SameIdSameRun(rows, d[i], d[j]);
        SelectCounts(rows, keep, c, d[i]);
        DistinctCounts(rows, d[i]);
        TwiceCounts(d, i, j);
      }
    }
  }

  lemma SameIdSameRun(rows: seq<Run>, x: Run, y: Run)
    requires DistinctIds(rows) && x in rows && y in rows && x.id == y.id
    ensures x == y
  {
    var i :| 0 <= i < |rows| && rows[i] == x;
    var j :| 0 <= j < |rows| && rows[j] == y;
  }

  lemma TwiceCounts(xs: seq<Run>, i: nat, j: nat)
    requires i < j < |xs| && xs[i] == xs[j]
    ensures multiset(xs)[xs[i]] >= 2
  {
    assert xs == xs[..j] + [xs[j]] + xs[j + 1..];
    assert xs[..j][i] == xs[i];
    assert xs[i] in multiset(xs[..j]);
  }

  // ---------------------------------------------------------------- the rest after a page

  function CursorAt(r: Run, size: PageSize): Option<Cursor> { Some(Cursor(r.startedAt, r.id, size)) }

  /** Below the last run of a page is what comes after it. */
  lemma {:induction false} SelectRest(d: seq<Run>, keep: Filter, m: nat, n: nat, size: PageSize)
    requires Strict(d) && 0 < m <= n <= |d| && forall x | x in d :: keep(x)
    requires Sorted(d, Descending)
    ensures Select(d[..n], keep, CursorAt(d[m - 1], size)) == d[m..n]
  {
    if n == m {
      SelectNone(d, keep, m, m, size);
    } else {
      SelectRest(d, keep, m, n - 1, size);
      assert d[..n][..n - 1] == d[..n - 1];
      assert !Descending(d[n - 1], d[m - 1]);
      assert d[m..n] == d[m..n - 1] + [d[n - 1]];
    }
  }

  lemma {:induction false} SelectNone(d: seq<Run>, keep: Filter, m: nat, n: nat, size: PageSize)
    requires n <= m <= |d| && 0 < m && Sorted(d, Descending)
    ensures Select(d[..n], keep, CursorAt(d[m - 1], size)) == []
  {
    if n > 0 {
      SelectNone(d, keep, m, n - 1, size);
      assert d[..n][..n - 1] == d[..n - 1];
      assert n < m ==> Descending(d[n - 1], d[m - 1]);
    }
  }

  /** Two tables hold the same rows below a cursor. */
  ghost predicate SameBelow(a: seq<Run>, b: seq<Run>, keep: Filter, c: Option<Cursor>) {
    multiset(Select(a, keep, c)) == multiset(Select(b, keep, c))
  }

  lemma TiesOfSelect(rows: seq<Run>, keep: Filter, c: Option<Cursor>)
    requires DistinctIds(rows)
    ensures TiesAreEqual(Select(rows, keep, c), Descending)
  {
    SelectIsIn(rows, keep, c);
    forall x, y | x in Select(rows, keep, c) && y in Select(rows, keep, c) && Descending(x, y) && Descending(y, x)
      ensures x == y
    {
      SameIdSameRun(rows, x, y);
    }
  }

  /** Selecting from a table below a later cursor is selecting from its listing. */
  lemma SelectFromListing(rows: seq<Run>, keep: Filter, c: Option<Cursor>, r: Run, size: PageSize)
    requires Below(r, c)
    ensures multiset(Select(rows, keep, CursorAt(r, size))) ==
            multiset(Select(Listing(rows, keep, c), keep, CursorAt(r, size)))
  {
    var d, k := Listing(rows, keep, c), CursorAt(r, size);
    ListingIsIn(rows, keep, c);
    forall x ensures multiset(Select(rows, keep, k))[x] == multiset(Select(d, keep, k))[x] {
      SelectCounts(rows, keep, k, x);
      SelectCounts(rows, keep, c, x);
      SelectCounts(d, keep, k, x);
    }
  }

  /** The listing is the only descending arrangement of the rows selected. */
  lemma ListingIs(rows: seq<Run>, keep: Filter, c: Option<Cursor>, d: seq<Run>)
    requires DistinctIds(rows) && Sorted(d, Descending) && multiset(d) == multiset(Select(rows, keep, c))
    ensures Listing(rows, keep, c) == d
  {
    DescendingOrder();
    SortSorted(Select(rows, keep, c), Descending);
    SortPermutes(Select(rows, keep, c), Descending);
    TiesOfSelect(rows, keep, c);
    forall x | x in Listing(rows, keep, c) ensures x in Select(rows, keep, c) {
      assert x in multiset(Listing(rows, keep, c));
    }
    SortedUnique(Listing(rows, keep, c), d, Descending);
  }

  /** Listing below a later cursor is listing below the earlier one and going on from there. */
  lemma ListingBelow(rows: seq<Run>, keep: Filter, c: Option<Cursor>, m: nat, size: PageSize)
    requires DistinctIds(rows) && 0 < m <= |Listing(rows, keep, c)|
    ensures Listing(rows, keep, CursorAt(Listing(rows, keep, c)[m - 1], size)) == Listing(rows, keep, c)[m..]
  {
    var d := Listing(rows, keep, c);
    ListingStrict(rows, keep, c);
    ListingIsIn(rows, keep, c);
    assert d[m - 1] in d;
    SelectFromListing(rows, keep, c, d[m - 1], size);
    SelectRest(d, keep, m, |d|, size);
    assert d[..|d|] == d && d[m..|d|] == d[m..];
    ListingIs(rows, keep, CursorAt(d[m - 1], size), d[m..]);
  }

  lemma SameListing(a: seq<Run>, b: seq<Run>, keep: Filter, c: Option<Cursor>)
    requires DistinctIds(a) && SameBelow(a, b, keep, c)
    ensures Listing(a, keep, c) == Listing(b, keep, c)
  {
    DescendingOrder();
    TiesOfSelect(a, keep, c);
    SortCanonical(Select(a, keep, c), Select(b, keep, c), Descending);
  }

  // ---------------------------------------------------------------- whole sessions

  /** The cursor of request `k`. */
  function CursorOf(first: Option<Cursor>, pages: seq<Page>, k: nat): Option<Cursor>
    requires k <= |pages|
  {
    if k == 0 then first else pages[k - 1].next
  }

  /** A client following the cursors from `first`, the table being `tables[k]` at request `k`. */
  ghost predicate Requests(tables: seq<seq<Run>>, keep: Filter, first: Option<Cursor>, pages: seq<Page>) {
    && |tables| == |pages| && pages != []
    && (forall k | 0 <= k < |pages| ::
          DistinctIds(tables[k]) && pages[k] == ReadPage(tables[k], keep, CursorOf(first, pages, k)))
    && (forall k | 0 <= k < |pages| - 1 :: pages[k].next.Some?)
  }

  /** A client that has come to the end. */
  ghost predicate Session(tables: seq<seq<Run>>, keep: Filter, first: Option<Cursor>, pages: seq<Page>) {
    Requests(tables, keep, first, pages) && pages[|pages| - 1].next == None
  }

  /** Between requests rows change above the current cursor only. */
  ghost predicate Stable(tables: seq<seq<Run>>, keep: Filter, pages: seq<Page>) {
    |tables| == |pages| &&
    forall k | 0 < k < |pages| :: SameBelow(tables[k - 1], tables[k], keep, pages[k - 1].next)
  }

  function Visited(pages: seq<Page>): seq<Run> {
    if pages == [] then [] else pages[0].runs + Visited(pages[1..])
  }

  /** One page and what is left. */
  lemma PageAndRest(rows: seq<Run>, keep: Filter, c: Option<Cursor>)
    requires DistinctIds(rows)
    ensures var d, p, size := Listing(rows, keep, c), ReadPage(rows, keep, c), SizeOf(c);
            if |d| <= size then p == Page(d, None)
            else p.runs == d[..size] && p.next.Some? && SizeOf(p.next) == size &&
                 Listing(rows, keep, p.next) == d[size..]
  {
    var d: seq<Run>, size: nat := Listing(rows, keep, c), SizeOf(c);
    if |d| > size {
      assert (if |d| > size + 1 then d[..size + 1] else d)[..size] == d[..size];
      assert d[..size][size - 1] == d[size - 1];
      ListingBelow(rows, keep, c, size, size);
    }
  }

  /** The number of pages for `n` rows: the ceiling of `n / size`, and one page at least. */
  function PageCount(n: nat, size: PageSize): nat {
    if n <= size then 1 else 1 + PageCount(n - size, size)
  }

  lemma {:induction false} PageCountIsCeiling(n: nat, size: PageSize)
    ensures var k := PageCount(n, size);
            k >= 1 && n <= k * size && (k > 1 ==> (k - 1) * size < n)
  {
    if n > size {
      PageCountIsCeiling(n - size, size);
    }
  }

  lemma RequestsTail(tables: seq<seq<Run>>, keep: Filter, first: Option<Cursor>, pages: seq<Page>)
    requires Requests(tables, keep, first, pages) && Stable(tables, keep, pages) && |pages| > 1
    ensures Requests(tables[1..], keep, pages[0].next, pages[1..]) && Stable(tables[1..], keep, pages[1..])
  {
    forall k | 0 <= k < |pages| - 1
      ensures pages[1..][k] == ReadPage(tables[1..][k], keep, CursorOf(pages[0].next, pages[1..], k))
    {
      assert CursorOf(first, pages, k + 1) == CursorOf(pages[0].next, pages[1..], k);
    }
    forall k | 0 < k < |pages| - 1 ensures SameBelow(tables[1..][k - 1], tables[1..][k], keep, pages[1..][k - 1].next) {
      assert SameBelow(tables[k], tables[k + 1], keep, pages[k].next);
    }
  }

  /** The first page, and the listing the later requests start from. */
  lemma RequestsHead(tables: seq<seq<Run>>, keep: Filter, first: Option<Cursor>, pages: seq<Page>)
    requires Requests(tables, keep, first, pages) && Stable(tables, keep, pages)
    ensures var d, size := Listing(tables[0], keep, first), SizeOf(first);
            if |d| <= size then |pages| == 1 && pages[0] == Page(d, None)
            else pages[0].runs == d[..size] && pages[0].next.Some? && SizeOf(pages[0].next) == size &&
                 (|pages| > 1 ==> Listing(tables[1], keep, pages[0].next) == d[size..])
  {
    PageAndRest(tables[0], keep, first);
    assert pages[0] == ReadPage(tables[0], keep, CursorOf(first, pages, 0));
    if |pages| > 1 {
      assert pages[0].next.Some?;
      assert SameBelow(tables[0], tables[1], keep, pages[0].next);
      SameListing(tables[0], tables[1], keep, pages[0].next);
    }
  }

  /** Of a listing longer than a page, the rest takes one page less. */
  lemma PagesOfRest(d: seq<Run>, size: PageSize)
    requires |d| > size
    ensures |d[size..]| == |d| - size && PageCount(|d|, size) == 1 + PageCount(|d[size..]|, size)
  {
  }

  /** No client gets further than the ceiling of rows over page size: by then there is no next cursor. */
  lemma {:induction false} RequestsStop(tables: seq<seq<Run>>, keep: Filter, first: Option<Cursor>, pages: seq<Page>)
    requires Requests(tables, keep, first, pages) && Stable(tables, keep, pages)
    ensures var n := PageCount(|Listing(tables[0], keep, first)|, SizeOf(first));
            |pages| <= n && (|pages| == n <==> pages[|pages| - 1].next == None)
    decreases |pages|, 1
  {
    RequestsHead(tables, keep, first, pages);
    if |pages| > 1 {
      PagesOfRest(Listing(tables[0], keep, first), SizeOf(first));
      RequestsAfterFirst(tables, keep, first, pages);
    }
  }

  lemma {:induction false} RequestsAfterFirst(tables: seq<seq<Run>>, keep: Filter, first: Option<Cursor>,
                                              pages: seq<Page>)
    requires Requests(tables, keep, first, pages) && Stable(tables, keep, pages) && |pages| > 1
    ensures var n := PageCount(|Listing(tables[1], keep, pages[0].next)|, SizeOf(pages[0].next));
            |pages| - 1 <= n && (|pages| - 1 == n <==> pages[|pages| - 1].next == None)
    decreases |pages|, 0
  {
    RequestsTail(tables, keep, first, pages);
    RequestsStop(tables[1..], keep, pages[0].next, pages[1..]);
  }

  lemma VisitedOne(pages: seq<Page>)
    requires |pages| == 1
    ensures Visited(pages) == pages[0].runs
  {
    assert Visited(pages[1..]) == [];
  }

  /** The first page and the pages after it. */
  lemma VisitedRest(pages: seq<Page>, d: seq<Run>, m: nat)
    requires pages != [] && m <= |d| && pages[0].runs == d[..m] && Visited(pages[1..]) == d[m..]
    ensures Visited(pages) == d
  {
  }

  /**
   Following the cursors visits every matching row below the first cursor exactly
   once, in descending order, in as many pages as it takes, whatever is inserted
   above the current cursor meanwhile.
   */
  lemma {:induction false} SessionVisitsAll(tables: seq<seq<Run>>, keep: Filter, first: Option<Cursor>,
                                            pages: seq<Page>)
    requires Session(tables, keep, first, pages) && Stable(tables, keep, pages)
    ensures Visited(pages) == Listing(tables[0], keep, first)
    ensures |pages| == PageCount(|Listing(tables[0], keep, first)|, SizeOf(first))
    decreases |pages|
  {
    RequestsStop(tables, keep, first, pages);
    RequestsHead(tables, keep, first, pages);
    if |pages| == 1 {
      VisitedOne(pages);
    } else {
      assert Visited(pages[1..]) == Listing(tables[1], keep, pages[0].next) by {
        RequestsTail(tables, keep, first, pages);
        SessionVisitsAll(tables[1..], keep, pages[0].next, pages[1..]);
      }
      VisitedRest(pages, Listing(tables[0], keep, first), SizeOf(first));
    }
  }

  /** What is visited: each matching row below the first cursor, once. */
  lemma VisitedOnce(rows: seq<Run>, keep: Filter, c: Option<Cursor>, x: Run)
    requires DistinctIds(rows)
    ensures multiset(Listing(rows, keep, c))[x] == if x in rows && keep(x) && Below(x, c) then 1 else 0
    ensures Strict(Listing(rows, keep, c))
  {
    ListingStrict(rows, keep, c);
    ListingIsIn(rows, keep, c);
    SelectCounts(rows, keep, c, x);
    DistinctCounts(rows, x);
  }

  // ---------------------------------------------------------------- the sentinel

  /** The synthetic first cursor hides nothing exactly when every matching row is below it. */
  lemma SentinelHidesNothing(rows: seq<Run>, keep: Filter, size: PageSize)
    requires DistinctIds(rows)
    ensures var c := ResolveCursor(None, Some(size));
            Listing(rows, keep, c) == Listing(rows, keep, None) <==> forall x | x in rows && keep(x) :: Below(x, c)
  {
    var c := ResolveCursor(None, Some(size));
    if Listing(rows, keep, c) == Listing(rows, keep, None) {
      forall x | x in rows && keep(x) ensures Below(x, c) {
        VisitedOnce(rows, keep, c, x);
        VisitedOnce(rows, keep, None, x);
      }
    }
    if forall x | x in rows && keep(x) :: Below(x, c) {
      forall x ensures multiset(Select(rows, keep, c))[x] == multiset(Select(rows, keep, None))[x] {
        SelectCounts(rows, keep, c, x);
        SelectCounts(rows, keep, None, x);
      }
      SameBelowAcross(rows, keep, c);
    }
  }

  lemma SameBelowAcross(rows: seq<Run>, keep: Filter, c: Option<Cursor>)
    requires DistinctIds(rows)
    requires multiset(Select(rows, keep, c)) == multiset(Select(rows, keep, None))
    ensures Listing(rows, keep, c) == Listing(rows, keep, None)
  {
    DescendingOrder();
    TiesOfSelect(rows, keep, c);
    SortCanonical(Select(rows, keep, c), Select(rows, keep, None), Descending);
  }

  // ---------------------------------------------------------------- a client's requests

  /** Request `k` asks for a page size or none, and from the second on sends the cursor it was given. */
  ghost predicate Served(
      tables: seq<seq<Run>>, keep: Filter, sizes: seq<Option<PageSize>>, pages: seq<Page>, k: nat)
    requires k < |pages| == |tables| == |sizes|
  {
    if k == 0 then pages[0] == ReadPage(tables[0], keep, ResolveCursor(None, sizes[0]))
    else pages[k - 1].next.Some? && pages[k] == ReadPage(tables[k], keep, ResolveCursor(pages[k - 1].next, sizes[k]))
  }

  ghost predicate ClientRequests(tables: seq<seq<Run>>, keep: Filter, sizes: seq<Option<PageSize>>, pages: seq<Page>) {
    && |tables| == |pages| == |sizes| && pages != []
    && forall k | 0 <= k < |pages| :: DistinctIds(tables[k]) && Served(tables, keep, sizes, pages, k)
  }

  lemma {:induction false} ServedReads(
      tables: seq<seq<Run>>, keep: Filter, sizes: seq<Option<PageSize>>, pages: seq<Page>, k: nat)
    requires k < |pages| == |tables| == |sizes| && Served(tables, keep, sizes, pages, k)
    ensures pages[k] == ReadPage(tables[k], keep, CursorOf(ResolveCursor(None, sizes[0]), pages, k))
  {
  }

  lemma {:induction false} ClientRequestsAre(
      tables: seq<seq<Run>>, keep: Filter, sizes: seq<Option<PageSize>>, pages: seq<Page>)
    requires ClientRequests(tables, keep, sizes, pages)
    ensures Requests(tables, keep, ResolveCursor(None, sizes[0]), pages)
  {
    var first := ResolveCursor(None, sizes[0]);
    forall k | 0 <= k < |pages|
      ensures DistinctIds(tables[k]) && pages[k] == ReadPage(tables[k], keep, CursorOf(first, pages, k))
    {
      assert Served(tables, keep, sizes, pages, k);
      ServedReads(tables, keep, sizes, pages, k);
    }
    forall k | 0 <= k < |pages| - 1 ensures pages[k].next.Some? {
      assert Served(tables, keep, sizes, pages, k + 1);
    }
  }

  lemma NextKeepsSize(rows: seq<Run>, keep: Filter, c: Option<Cursor>)
    ensures var next := ReadPage(rows, keep, c).next;
            next.Some? ==> SizeOf(next) == SizeOf(c)
  {
  }

  lemma {:induction false} RequestAt(
      tables: seq<seq<Run>>, keep: Filter, first: Option<Cursor>, pages: seq<Page>, k: nat)
    requires Requests(tables, keep, first, pages) && k < |pages|
    ensures DistinctIds(tables[k]) && pages[k] == ReadPage(tables[k], keep, CursorOf(first, pages, k))
    ensures k < |pages| - 1 ==> pages[k].next.Some?
  {
  }

  lemma {:induction false} SameSizeNext(
      tables: seq<seq<Run>>, keep: Filter, first: Option<Cursor>, pages: seq<Page>, k: nat)
    requires Requests(tables, keep, first, pages) && k + 1 < |pages|
    ensures SizeOf(CursorOf(first, pages, k + 1)) == SizeOf(CursorOf(first, pages, k))
  {
    var c, rows := CursorOf(first, pages, k), tables[k];
    RequestAt(tables, keep, first, pages, k);
    NextKeepsSize(rows, keep, c);
  }

  lemma {:induction false} SizeStays(
      tables: seq<seq<Run>>, keep: Filter, first: Option<Cursor>, pages: seq<Page>, k: nat)
    requires Requests(tables, keep, first, pages) && k < |pages|
    ensures SizeOf(CursorOf(first, pages, k)) == SizeOf(first)
  {
    if k > 0 {
      SizeStays(tables, keep, first, pages, k - 1);
      SameSizeNext(tables, keep, first, pages, k - 1);
    }
  }

  /** The page holds `n` rows, or it is the last and holds no more. */
  predicate Filled(page: Page, n: nat) { if page.next.Some? then |page.runs| == n else |page.runs| <= n }

  /** The row is below the latest time and the highest id together. */
  predicate BelowAll(r: Run) {
    r.startedAt < 253_402_300_799_999_999 ||
    (r.startedAt == 253_402_300_799_999_999 && r.id < 340_282_366_920_938_463_463_374_607_431_768_211_455)
  }

  /**
   The page size asked for first, or 50, holds for every page, whatever the later
   requests ask for; a client that comes to the end has had every matching row.
   */
  lemma {:induction false} ClientSession(tables: seq<seq<Run>>, keep: Filter, sizes: seq<Option<PageSize>>,
                                         pages: seq<Page>)
    requires ClientRequests(tables, keep, sizes, pages) && Stable(tables, keep, pages)
    ensures forall k | 0 <= k < |pages| :: Filled(pages[k], if sizes[0].Some? then sizes[0].value else 50)
    ensures pages[|pages| - 1].next == None && (forall x | x in tables[0] && keep(x) :: BelowAll(x)) ==>
              Visited(pages) == Listing(tables[0], keep, None)
  {
    var first := ResolveCursor(None, sizes[0]);
    ClientRequestsAre(tables, keep, sizes, pages);
    forall k | 0 <= k < |pages| ensures Filled(pages[k], if sizes[0].Some? then sizes[0].value else 50) {
      SizeStays(tables, keep, first, pages, k);
      RequestAt(tables, keep, first, pages, k);
      PageAndRest(tables[k], keep, CursorOf(first, pages, k));
    }
    if pages[|pages| - 1].next == None && forall x | x in tables[0] && keep(x) :: BelowAll(x) {
      SessionVisitsAll(tables, keep, first, pages);
      if sizes[0].Some? {
        SentinelHidesNothing(tables[0], keep, sizes[0].value);
      }
    }
  }
}
