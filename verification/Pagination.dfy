/**
  Keyset pagination as the list queries do it: rows that match a filter and lie
  strictly below the cursor, ordered by (created_at, id) descending, cut at a
  limit; the next cursor is the last row of a full page, and a page that is not
  full ends the walk. The table is a sequence of rows in storage order.
 */
module Pagination {
  import opened Wrappers
  import opened Text

  datatype Cursor = Cursor(createdAt: int, id: string)

  datatype Row<T> = Row(key: Cursor, data: T)

  /** The row-value comparison `(created_at, id) < (createdAt, id)`. */
  predicate Below(a: Cursor, b: Cursor) {
    a.createdAt < b.createdAt || (a.createdAt == b.createdAt && Less(a.id, b.id))
  }

  lemma BelowIsTotal(a: Cursor, b: Cursor)
    ensures Below(a, b) || a == b || Below(b, a)
  {
    LessIsTotal(a.id, b.id);
  }

  lemma BelowIsTransitive(a: Cursor, b: Cursor, c: Cursor)
    requires Below(a, b) && Below(b, c)
    ensures Below(a, c)
  {
    if a.createdAt == b.createdAt == c.createdAt {
      LessIsTransitive(a.id, b.id, c.id);
    }
  }

  lemma BelowIsIrreflexive(a: Cursor)
    ensures !Below(a, a)
  {
    LessIsIrreflexive(a.id);
  }

  /* ---- One page ---- */

  predicate Eligible<T>(row: Row<T>, keep: T -> bool, after: Option<Cursor>) {
    keep(row.data) && (after.Some? ==> Below(row.key, after.value))
  }

  function Select<T>(table: seq<Row<T>>, keep: T -> bool, after: Option<Cursor>): seq<Row<T>> {
    if table == [] then []
    else
      var rest := Select(table[1..], keep, after);
      if Eligible(table[0], keep, after) then [table[0]] + rest else rest
  }

  function InsertDesc<T>(row: Row<T>, sorted: seq<Row<T>>): seq<Row<T>> {
    if sorted == [] || !Below(row.key, sorted[0].key) then [row] + sorted
    else [sorted[0]] + InsertDesc(row, sorted[1..])
  }

  function SortDesc<T>(rows: seq<Row<T>>): seq<Row<T>> {
    if rows == [] then [] else InsertDesc(rows[0], SortDesc(rows[1..]))
  }

  function Take<T>(rows: seq<T>, limit: nat): seq<T> {
    if |rows| <= limit then rows else rows[..limit]
  }

  function Page<T>(table: seq<Row<T>>, keep: T -> bool, after: Option<Cursor>, limit: nat): seq<Row<T>> {
    Take(SortDesc(Select(table, keep, after)), limit)
  }

  /** Primary keys: no two rows share an id, hence none shares a cursor. */
  ghost predicate Keyed<T(!new)>(table: seq<Row<T>>) {
    forall i, j | 0 <= i < j < |table| :: table[i].key != table[j].key
  }

  /** Strictly descending by key. */
  ghost predicate Descending<T(!new)>(rows: seq<Row<T>>) {
    forall i, j | 0 <= i < j < |rows| :: Below(rows[j].key, rows[i].key)
  }

  lemma {:induction false} SelectIsFilter<T(!new)>(
    table: seq<Row<T>>, keep: T -> bool, after: Option<Cursor>, row: Row<T>)
    ensures row in Select(table, keep, after) <==> row in table && Eligible(row, keep, after)
    decreases table
  {
    if table != [] {
      SelectIsFilter(table[1..], keep, after, row);
    }
  }

  /** Filters that agree on every row select the same rows. */
  lemma {:induction false} SelectSame<T(!new)>(
    table: seq<Row<T>>, a: T -> bool, b: T -> bool, after: Option<Cursor>)
    requires forall d :: a(d) <==> b(d)
    ensures Select(table, a, after) == Select(table, b, after)
    decreases table
  {
    if table != [] {
      SelectSame(table[1..], a, b, after);
    }
  }

  lemma {:induction false} SelectKeyed<T(!new)>(table: seq<Row<T>>, keep: T -> bool, after: Option<Cursor>)
    requires Keyed(table)
    ensures Keyed(Select(table, keep, after))
    decreases table
  {
    if table != [] {
      var rest := Select(table[1..], keep, after);
      SelectKeyed(table[1..], keep, after);
      forall i | 0 <= i < |rest| ensures rest[i].key != table[0].key {
        SelectIsFilter(table[1..], keep, after, rest[i]);
        var k :| 0 <= k < |table[1..]| && table[1..][k] == rest[i];
        assert table[k + 1] == rest[i];
      }
    }
  }

  lemma {:induction false} InsertIsSorted<T(!new)>(row: Row<T>, sorted: seq<Row<T>>)
    requires Descending(sorted) && forall i | 0 <= i < |sorted| :: sorted[i].key != row.key
    ensures Descending(InsertDesc(row, sorted))
    ensures multiset(InsertDesc(row, sorted)) == multiset(sorted) + multiset{row}
    decreases sorted
  {
    if sorted == [] {
    } else if !Below(row.key, sorted[0].key) {
      BelowIsTotal(row.key, sorted[0].key);
      forall i | 0 < i < |sorted| ensures Below(sorted[i].key, row.key) {
        BelowIsTransitive(sorted[i].key, sorted[0].key, row.key);
      }
    } else {
      var tail := sorted[1..];
      var inserted := InsertDesc(row, tail);
      InsertIsSorted(row, tail);
      assert sorted == [sorted[0]] + tail;
      forall i | 0 <= i < |inserted| ensures Below(inserted[i].key, sorted[0].key) {
        assert inserted[i] in multiset(inserted);
        if inserted[i] != row {
          assert inserted[i] in tail;
          var k :| 0 <= k < |tail| && tail[k] == inserted[i];
          assert sorted[k + 1] == inserted[i];
        }
      }
    }
  }

  lemma {:induction false} SortIsSorted<T(!new)>(rows: seq<Row<T>>)
    requires Keyed(rows)
    ensures Descending(SortDesc(rows)) && multiset(SortDesc(rows)) == multiset(rows)
    decreases rows
  {
    if rows != [] {
      var tail := SortDesc(rows[1..]);
      SortIsSorted(rows[1..]);
      forall i | 0 <= i < |tail| ensures tail[i].key != rows[0].key {
        assert tail[i] in multiset(rows[1..]);
        var k :| 0 <= k < |rows[1..]| && rows[1..][k] == tail[i];
        assert rows[k + 1] == tail[i];
      }
      InsertIsSorted(rows[0], tail);
      assert rows == [rows[0]] + rows[1..];
    }
  }

  /** The filtered table in list order. */
  function Listing<T>(table: seq<Row<T>>, keep: T -> bool, after: Option<Cursor>): seq<Row<T>> {
    SortDesc(Select(table, keep, after))
  }

  lemma ListingFacts<T(!new)>(table: seq<Row<T>>, keep: T -> bool, after: Option<Cursor>)
    requires Keyed(table)
    ensures Descending(Listing(table, keep, after))
    ensures forall row :: row in Listing(table, keep, after) <==> row in table && Eligible(row, keep, after)
  {
    SelectKeyed(table, keep, after);
    var rows := Select(table, keep, after);
    SortIsSorted(rows);
    forall row ensures row in SortDesc(rows) <==> row in table && Eligible(row, keep, after) {
      SelectIsFilter(table, keep, after, row);
      assert row in SortDesc(rows) <==> row in multiset(SortDesc(rows));
      assert row in rows <==> row in multiset(rows);
    }
  }

  lemma DescendingTail<T(!new)>(a: seq<Row<T>>)
    requires Descending(a) && a != []
    ensures forall row :: row in a[1..] <==> row in a && row != a[0]
  {
    BelowIsIrreflexive(a[0].key);
    assert a == [a[0]] + a[1..];
    assert forall i | 0 <= i < |a[1..]| :: a[1..][i] == a[i + 1];
  }

  /** A listing is determined by its rows: two strictly descending lists with the same rows are equal. */
  lemma {:induction false} DescendingIsUnique<T(!new)>(a: seq<Row<T>>, b: seq<Row<T>>)
    requires Descending(a) && Descending(b) && forall row :: row in a <==> row in b
    ensures a == b
    decreases a
  {
    if a == [] {
      forall row ensures multiset(b)[row] == 0 {
        assert row in b <==> row in multiset(b);
      }
      assert |b| == |multiset(b)|;
      assert multiset(b) == multiset{};
    } else {
      assert a[0] in b;
      assert b[0] in a;
      var i :| 0 <= i < |b| && b[i] == a[0];
      var j :| 0 <= j < |a| && a[j] == b[0];
      if i != 0 {
        if j != 0 {
          BelowIsTransitive(a[0].key, b[0].key, a[0].key);
        }
        BelowIsIrreflexive(a[0].key);
      }
      assert a[0] == b[0];
      DescendingTail(a);
      DescendingTail(b);
      DescendingIsUnique(a[1..], b[1..]);
    }
  }

  /* ---- Following the cursors ---- */

  function CursorOf<T>(page: seq<Row<T>>): Option<Cursor>
    requires page != []
  {
    Some(page[|page| - 1].key)
  }

  /** All rows seen by a client that reads one page from each table in turn until a page is not full. */
  function Walk<T>(tables: seq<seq<Row<T>>>, keep: T -> bool, limit: nat, after: Option<Cursor>): seq<Row<T>>
    requires limit >= 1
    decreases |tables|
  {
    if tables == [] then []
    else
      var page := Page(tables[0], keep, after, limit);
      if |page| < limit then page else page + Walk(tables[1..], keep, limit, CursorOf(page))
  }

  /** The walk met a page that was not full, so the client knows it is done. */
  predicate Done<T>(tables: seq<seq<Row<T>>>, keep: T -> bool, limit: nat, after: Option<Cursor>)
    requires limit >= 1
    decreases |tables|
  {
    tables != [] &&
    var page := Page(tables[0], keep, after, limit);
    |page| < limit || Done(tables[1..], keep, limit, CursorOf(page))
  }

  /** A page is descending, eligible, and leaves out only rows below its last one. */
  lemma PageFacts<T(!new)>(table: seq<Row<T>>, keep: T -> bool, after: Option<Cursor>, limit: nat)
    requires Keyed(table) && limit >= 1
    ensures var page := Page(table, keep, after, limit);
            && |page| <= limit && Descending(page)
            && (forall row | row in page :: row in table && Eligible(row, keep, after))
            && (forall row | row in table && Eligible(row, keep, after) && row !in page ::
                  |page| == limit && Below(row.key, page[|page| - 1].key))
  {
    ListingFacts(table, keep, after);
    var all := Listing(table, keep, after);
    var page := Page(table, keep, after, limit);
    assert page == all[..|page|];
    forall row | row in table && Eligible(row, keep, after) && row !in page
      ensures |page| == limit && Below(row.key, page[|page| - 1].key)
    {
      var i :| 0 <= i < |all| && all[i] == row;
      assert i >= |page|;
    }
  }

  /** A page is newest first; rows of one moment come in descending order of their ids. */
  lemma PageIsNewestFirst<T(!new)>(
    table: seq<Row<T>>, keep: T -> bool, after: Option<Cursor>, limit: nat, i: nat, j: nat)
    requires Keyed(table) && limit >= 1 && i < j < |Page(table, keep, after, limit)|
    ensures var newer, older := Page(table, keep, after, limit)[i].key, Page(table, keep, after, limit)[j].key;
            newer.createdAt > older.createdAt || (newer.createdAt == older.createdAt && Less(older.id, newer.id))
  {
    PageFacts(table, keep, after, limit);
  }

  /** A row present in every table and matching the filter. */
  ghost predicate Persistent<T>(tables: seq<seq<Row<T>>>, keep: T -> bool, row: Row<T>) {
    keep(row.data) && forall i | 0 <= i < |tables| :: row in tables[i]
  }

  lemma {:induction false} WalkIsDescending<T(!new)>(
    tables: seq<seq<Row<T>>>, keep: T -> bool, limit: nat, after: Option<Cursor>)
    requires limit >= 1 && forall i | 0 <= i < |tables| :: Keyed(tables[i])
    ensures Descending(Walk(tables, keep, limit, after))
    ensures forall row | row in Walk(tables, keep, limit, after) :: Eligible(row, keep, after)
    decreases |tables|
  {
    if tables != [] {
      var page := Page(tables[0], keep, after, limit);
      PageFacts(tables[0], keep, after, limit);
      if |page| >= limit {
        var last := page[|page| - 1];
        var rest := Walk(tables[1..], keep, limit, CursorOf(page));
        WalkIsDescending(tables[1..], keep, limit, CursorOf(page));
        assert last in page;
        forall row | row in rest ensures Eligible(row, keep, after) {
          if after.Some? {
            BelowIsTransitive(row.key, last.key, after.value);
          }
        }
        forall i, j | 0 <= i < |page| && 0 <= j < |rest| ensures Below(rest[j].key, page[i].key) {
          assert rest[j] in rest;
          if i < |page| - 1 {
            BelowIsTransitive(rest[j].key, last.key, page[i].key);
          }
        }
      }
    }
  }

  /** A finished walk meets every persistent row that lay below its cursor. */
  lemma {:induction false} WalkIsComplete<T(!new)>(
    tables: seq<seq<Row<T>>>, keep: T -> bool, limit: nat, after: Option<Cursor>, row: Row<T>)
    requires limit >= 1 && forall i | 0 <= i < |tables| :: Keyed(tables[i])
    requires Done(tables, keep, limit, after) && Persistent(tables, keep, row) && Eligible(row, keep, after)
    ensures row in Walk(tables, keep, limit, after)
    decreases |tables|
  {
    var page := Page(tables[0], keep, after, limit);
    PageFacts(tables[0], keep, after, limit);
    assert row in tables[0];
    if row !in page {
      WalkIsComplete(tables[1..], keep, limit, CursorOf(page), row);
    }
  }

  lemma {:induction false} DescendingCountsOnce<T(!new)>(rows: seq<Row<T>>, row: Row<T>)
    requires Descending(rows)
    ensures multiset(rows)[row] == if row in rows then 1 else 0
    decreases rows
  {
    if rows != [] {
      DescendingTail(rows);
      DescendingCountsOnce(rows[1..], row);
      assert rows == [rows[0]] + rows[1..];
    }
  }

  /**
    Pagination under change: whatever is inserted or deleted between pages, no
    two rows of the walk share a key, every row of it matches, and once the
    client has met a short page every row that was present throughout has
    appeared exactly once.
   */
  lemma PagesUnderChange<T(!new)>(tables: seq<seq<Row<T>>>, keep: T -> bool, limit: nat)
    requires limit >= 1 && forall i | 0 <= i < |tables| :: Keyed(tables[i])
    ensures var seen := Walk(tables, keep, limit, None);
            && (forall i, j | 0 <= i < j < |seen| :: seen[i].key != seen[j].key)
            && (forall row | row in seen :: keep(row.data))
            && (Done(tables, keep, limit, None) ==>
                  forall row | Persistent(tables, keep, row) :: multiset(seen)[row] == 1)
  {
    var seen := Walk(tables, keep, limit, None);
    WalkIsDescending(tables, keep, limit, None);
    forall i, j | 0 <= i < j < |seen| ensures seen[i].key != seen[j].key {
      BelowIsIrreflexive(seen[i].key);
    }
    if Done(tables, keep, limit, None) {
      forall row | Persistent(tables, keep, row) ensures multiset(seen)[row] == 1 {
        WalkIsComplete(tables, keep, limit, None, row);
        DescendingCountsOnce(seen, row);
      }
    }
  }

  /* ---- A table that stays as it is ---- */

  /** The rows below the cursor of a full page are the rest of the listing. */
  lemma NextListing<T(!new)>(table: seq<Row<T>>, keep: T -> bool, after: Option<Cursor>, limit: nat)
    requires Keyed(table) && limit >= 1 && |Listing(table, keep, after)| >= limit
    ensures var page := Page(table, keep, after, limit);
            page != [] && Listing(table, keep, CursorOf(page)) == Listing(table, keep, after)[limit..]
  {
    var all := Listing(table, keep, after);
    var page := Page(table, keep, after, limit);
    assert page == all[..limit];
    var last := page[limit - 1];
    var next := Listing(table, keep, CursorOf(page));
    ListingFacts(table, keep, after);
    ListingFacts(table, keep, CursorOf(page));
    assert last in all;
    forall row ensures row in next <==> row in all[limit..] {
      if row in next && after.Some? {
        BelowIsTransitive(row.key, last.key, after.value);
      }
      if row in next {
        assert row in all;
        var i :| 0 <= i < |all| && all[i] == row;
        if i < limit - 1 {
          BelowIsTransitive(row.key, last.key, row.key);
        }
        BelowIsIrreflexive(row.key);
        assert all[limit..][i - limit] == row;
      }
      if row in all[limit..] {
        var i :| 0 <= i < |all[limit..]| && all[limit..][i] == row;
        assert all[limit + i] == row && row in all;
      }
    }
    DescendingIsUnique(next, all[limit..]);
  }

  /** On a fixed table the walk ends, and its pages put together are the whole filtered listing. */
  lemma {:induction false} PagesOfFixedTable<T(!new)>(
    table: seq<Row<T>>, keep: T -> bool, limit: nat, after: Option<Cursor>, pages: nat)
    requires Keyed(table) && limit >= 1 && pages > |Listing(table, keep, after)|
    ensures var tables := seq(pages, _ => table);
            && Done(tables, keep, limit, after)
            && Walk(tables, keep, limit, after) == Listing(table, keep, after)
    decreases pages
  {
    var tables := seq(pages, _ => table);
    var all := Listing(table, keep, after);
    var page := Page(table, keep, after, limit);
    if |all| >= limit {
      NextListing(table, keep, after, limit);
      PagesOfFixedTable(table, keep, limit, CursorOf(page), pages - 1);
      assert tables[1..] == seq(pages - 1, _ => table);
      assert all == page + all[limit..];
    }
  }
}
