/** What the admin listing selects: the filter set, newest-first ordering,
    the LIMIT/OFFSET window and the page count. */
module Listing {
  import opened Wrappers
  import opened Feedback

  const PAGE_SIZE: int := 10

  /** The optional filters of `showFeedbacks`. An empty `feedbackType` is
      JavaScript-falsy and means "no type filter"; `None` bounds are absent. */
  datatype Filter = Filter(feedbackType: string, start: Option<int>, end: Option<int>)

  /** The filters every caller in the bot uses: none at all. */
  const NoFilter: Filter := Filter("", None, None)

  /** The conjunction of the active filters. */
  predicate Matches(f: Filter, e: Entry) {
    && (f.feedbackType == "" || e.feedbackType == f.feedbackType)
    && (f.start.None? || e.createdAt >= f.start.value)
    && (f.end.None? || e.createdAt <= f.end.value)
  }

  /** The rows of `store` that `keep` accepts, in table order. */
  function Select(store: seq<Entry>, keep: Entry -> bool): (rows: seq<Entry>)
    ensures |rows| <= |store|
    ensures forall i :: 0 <= i < |rows| ==> keep(rows[i])
    ensures multiset(rows) <= multiset(store)
    ensures forall i :: 0 <= i < |store| && keep(store[i]) ==> store[i] in rows
  {
    if |store| == 0 then []
    else
      var rest := Select(store[1..], keep);
      var rows := if keep(store[0]) then [store[0]] + rest else rest;
      assert multiset(store) == multiset{store[0]} + multiset(store[1..]) by {
        assert store == [store[0]] + store[1..];
      }
      assert forall i :: 0 <= i < |store| && keep(store[i]) ==> store[i] in rows by {
        forall i | 0 <= i < |store| && keep(store[i]) ensures store[i] in rows {
          if i > 0 {
            assert store[i] == store[1..][i - 1];
          }
        }
      }
      rows
  }

  /** The selection holds every accepted row exactly as often as the table
      does, and no other row. */
  lemma {:induction false} SelectExact(store: seq<Entry>, keep: Entry -> bool)
    ensures forall e :: multiset(Select(store, keep))[e] == if keep(e) then multiset(store)[e] else 0
  {
    if |store| > 0 {
      SelectExact(store[1..], keep);
      assert store == [store[0]] + store[1..];
    }
  }

  /** Two predicates that agree on every row select the same rows. */
  lemma {:induction false} SelectSameRows(store: seq<Entry>, p: Entry -> bool, q: Entry -> bool)
    requires forall e :: p(e) == q(e)
    ensures Select(store, p) == Select(store, q)
  {
    if |store| > 0 {
      SelectSameRows(store[1..], p, q);
    }
  }

  /** `Matches(f, ·)` as a value, named once so that every selection by `f`
      uses the same function. */
  function MatchesOf(f: Filter): Entry -> bool
  {
    e => Matches(f, e)
  }

  /** The rows that match `f`. */
  function Matching(store: seq<Entry>, f: Filter): seq<Entry>
  {
    Select(store, MatchesOf(f))
  }

  /** `ORDER BY created_at DESC`. */
  predicate NewestFirst(rows: seq<Entry>) {
    forall i, j :: 0 <= i < j < |rows| ==> rows[i].createdAt >= rows[j].createdAt
  }

  /** Puts `x` in front of the first row that is not newer than it. */
  function InsertNewestFirst(x: Entry, rows: seq<Entry>): (r: seq<Entry>)
    requires NewestFirst(rows)
    ensures NewestFirst(r)
    ensures multiset(r) == multiset(rows) + multiset{x}
  {
    if |rows| == 0 || rows[0].createdAt <= x.createdAt then [x] + rows
    else
      var tail := InsertNewestFirst(x, rows[1..]);
      assert rows == [rows[0]] + rows[1..];
      NotNewerThanHead(rows, x, tail);
      [rows[0]] + tail
  }

  /** The rows after the head, with one older row added, are no newer than
      the head. */
  lemma {:induction false} NotNewerThanHead(rows: seq<Entry>, x: Entry, tail: seq<Entry>)
    requires |rows| > 0 && NewestFirst(rows) && x.createdAt < rows[0].createdAt
    requires multiset(tail) == multiset(rows[1..]) + multiset{x}
    ensures forall k :: 0 <= k < |tail| ==> tail[k].createdAt <= rows[0].createdAt
  {
    forall k | 0 <= k < |tail| ensures tail[k].createdAt <= rows[0].createdAt {
      assert tail[k] in multiset(rows[1..]) + multiset{x};
      if tail[k] != x {
        var j :| 0 <= j < |rows[1..]| && rows[1..][j] == tail[k];
        assert rows[j + 1] == tail[k];
      }
    }
  }

  /** The rows newest first; rows with equal `created_at` keep their table
      order. */
  function SortNewestFirst(rows: seq<Entry>): (sorted: seq<Entry>)
    ensures NewestFirst(sorted)
    ensures multiset(sorted) == multiset(rows)
    ensures |sorted| == |rows|
  {
    if |rows| == 0 then []
    else
      assert rows == [rows[0]] + rows[1..];
      InsertNewestFirst(rows[0], SortNewestFirst(rows[1..]))
  }

  /** `LIMIT limit OFFSET offset` over an ordered result. */
  function Window(rows: seq<Entry>, limit: nat, offset: nat): (page: seq<Entry>)
    ensures |page| <= limit
    ensures |page| == if offset >= |rows| then 0
                      else if |rows| - offset < limit then |rows| - offset else limit
    ensures forall k :: 0 <= k < |page| ==> page[k] == rows[offset + k]
  {
    if offset >= |rows| then []
    else if |rows| - offset < limit then rows[offset..]
    else rows[offset..offset + limit]
  }

  /** A window of the newest-first order of rows that all pass `keep` is
      newest first, takes its rows from them, and so passes `keep` too. */
  lemma {:induction false} SortedWindow(rows: seq<Entry>, keep: Entry -> bool, limit: nat, offset: nat)
    requires forall i :: 0 <= i < |rows| ==> keep(rows[i])
    ensures NewestFirst(Window(SortNewestFirst(rows), limit, offset))
    ensures multiset(Window(SortNewestFirst(rows), limit, offset)) <= multiset(rows)
    ensures forall i :: 0 <= i < |Window(SortNewestFirst(rows), limit, offset)| ==>
              keep(Window(SortNewestFirst(rows), limit, offset)[i])
  {
    var page := Window(SortNewestFirst(rows), limit, offset);
    WindowOfSorted(SortNewestFirst(rows), limit, offset);
    forall i | 0 <= i < |page| ensures keep(page[i]) {
      assert page[i] in multiset(rows);
      var j :| 0 <= j < |rows| && rows[j] == page[i];
    }
  }

  /** A window of a newest-first list is newest first and takes its rows
      from the list. */
  lemma {:induction false} WindowOfSorted(sorted: seq<Entry>, limit: nat, offset: nat)
    requires NewestFirst(sorted)
    ensures NewestFirst(Window(sorted, limit, offset))
    ensures multiset(Window(sorted, limit, offset)) <= multiset(sorted)
  {
    var page := Window(sorted, limit, offset);
    if offset < |sorted| {
      assert page == sorted[offset..offset + |page|];
      assert sorted == sorted[..offset] + page + sorted[offset + |page|..];
    }
  }

  /** `Math.ceil(total / size)` for a non-negative total. */
  function CeilDiv(total: nat, size: nat): (pages: nat)
    requires size > 0
    ensures pages * size >= total
    ensures pages == 0 || (pages - 1) * size < total
  {
    (total + size - 1) / size
  }

  /** The number of rows skipped before page `page`: whole pages only,
      none before page 1, and each page starts where the previous ended. */
  function PageOffset(page: int): (off: int)
    ensures off % PAGE_SIZE == 0 && off / PAGE_SIZE == page - 1
    ensures off >= 0 <==> page >= 1
    ensures off == 0 <==> page == 1
  {
    (page - 1) * PAGE_SIZE
  }

  /** A page of 1-based number `page` is non-empty exactly when
      `1 <= page <= totalPages`; there are no pages when nothing matches. */
  lemma {:induction false} PagesCoverMatches(total: nat, page: int)
    requires page >= 1
    ensures CeilDiv(total, PAGE_SIZE) == 0 <==> total == 0
    ensures PageOffset(page) < total <==> page <= CeilDiv(total, PAGE_SIZE)
  {
    var pages := CeilDiv(total, PAGE_SIZE);
    if page <= pages {
      assert (page - 1) * PAGE_SIZE <= (pages - 1) * PAGE_SIZE;
    } else {
      assert (page - 1) * PAGE_SIZE >= pages * PAGE_SIZE;
    }
  }
}
