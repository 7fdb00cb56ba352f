/**
 Paged scans, filtered deletion and filtered search, against their unpaged meaning.

 A table is its rows in key order. `less` is the order of the key column, whatever the collation:
 any strict total order. `page` is the meaning of
 `SELECT … WHERE id > after [AND filter] ORDER BY id LIMIT limit`.
 */
module Paging {

  import opened Wrappers

  type Key = string

  datatype Row = Row(id: Key, metadata: string)

  type Order = (Key, Key) -> bool
  type Filter = Row -> bool

  ghost predicate StrictOrder(less: Order) {
    && (forall a: Key :: !less(a, a))
    && (forall a: Key, b: Key, c: Key :: less(a, b) && less(b, c) ==> less(a, c))
    && (forall a: Key, b: Key :: a != b ==> less(a, b) || less(b, a))
  }

  ghost predicate InKeyOrder(rows: seq<Row>, less: Order) {
    forall i, j :: 0 <= i < j < |rows| ==> less(rows[i].id, rows[j].id)
  }

  function Where(rows: seq<Row>, filter: Filter): seq<Row> {
    if rows == [] then []
    else if filter(rows[0]) then [rows[0]] + Where(rows[1..], filter)
    else Where(rows[1..], filter)
  }

  function Take<T>(s: seq<T>, n: nat): (r: seq<T>)
    ensures |r| <= |s| && r == s[..|r|] && |r| <= n && (|r| == n || r == s)
  {
    if |s| <= n then s else s[..n]
  }

  function Behind(less: Order, after: Option<Key>): Filter {
    (r: Row) => after.None? || less(after.value, r.id)
  }

  /** The statement of one page. */
  function PageOf(rows: seq<Row>, less: Order, after: Option<Key>, limit: nat, filter: Filter): seq<Row> {
    Take(Where(Where(rows, Behind(less, after)), filter), limit)
  }

  lemma {:induction false} WhereConcat(a: seq<Row>, b: seq<Row>, filter: Filter)
    ensures Where(a + b, filter) == Where(a, filter) + Where(b, filter)
  {
    if a == [] {
      assert a + b == b;
    } else {
      assert (a + b)[0] == a[0] && (a + b)[1..] == a[1..] + b;
      WhereConcat(a[1..], b, filter);
    }
  }

  lemma {:induction false} WhereIs(rows: seq<Row>, filter: Filter)
    ensures forall r :: r in Where(rows, filter) <==> r in rows && filter(r)
    ensures |Where(rows, filter)| <= |rows|
  {
    if rows != [] { WhereIs(rows[1..], filter); assert rows == [rows[0]] + rows[1..]; }
  }

  lemma {:induction false} WhereAll(rows: seq<Row>, filter: Filter)
    requires forall r :: r in rows ==> filter(r)
    ensures Where(rows, filter) == rows
  {
    if rows != [] { WhereAll(rows[1..], filter); }
  }

  lemma {:induction false} WhereNothing(rows: seq<Row>, filter: Filter)
    requires forall r :: r in rows ==> !filter(r)
    ensures Where(rows, filter) == []
  {
    if rows != [] { WhereNothing(rows[1..], filter); }
  }

  lemma {:induction false} WhereOrdered(rows: seq<Row>, less: Order, filter: Filter)
    requires InKeyOrder(rows, less)
    ensures InKeyOrder(Where(rows, filter), less)
  {
    if rows != [] {
      var rest := rows[1..];
      WhereOrdered(rest, less, filter);
      WhereIs(rest, filter);
      var kept := Where(rest, filter);
      forall j | 0 <= j < |kept|
        ensures less(rows[0].id, kept[j].id)
      {
        assert kept[j] in kept;
        var i :| 0 <= i < |rest| && rest[i] == kept[j];
        assert rows[i + 1] == kept[j];
      }
    }
  }

  lemma NotBothWays(less: Order, a: Key, b: Key)
    requires StrictOrder(less)
    ensures less(a, b) || a == b ==> !less(b, a)
  {
    assert less(a, b) && less(b, a) ==> less(a, a);
  }

  /** Restarting behind the k-th row is dropping the first k + 1. */
  lemma BehindIsSuffix(rows: seq<Row>, less: Order, k: nat)
    requires StrictOrder(less) && InKeyOrder(rows, less) && k < |rows|
    ensures Where(rows, Behind(less, Some(rows[k].id))) == rows[k + 1..]
  {
    hide Where, StrictOrder, InKeyOrder, Behind;
    var f := Behind(less, Some(rows[k].id));
    var head, tail := rows[..k + 1], rows[k + 1..];
    assert rows == head + tail;
    WhereConcat(head, tail, f);
    NoneUpTo(rows, less, k);
    WhereNothing(head, f);
    AllAfter(rows, less, k);
    WhereAll(tail, f);
  }

  lemma NoneUpTo(rows: seq<Row>, less: Order, k: nat)
    requires StrictOrder(less) && InKeyOrder(rows, less) && k < |rows|
    ensures forall r :: r in rows[..k + 1] ==> !Behind(less, Some(rows[k].id))(r)
  {
    hide StrictOrder;
    var head := rows[..k + 1];
    forall r | r in head
      ensures !Behind(less, Some(rows[k].id))(r)
    {
      var i :| 0 <= i < |head| && head[i] == r;
      assert i < k ==> less(rows[i].id, rows[k].id);
      NotBothWays(less, rows[i].id, rows[k].id);
    }
  }

  lemma AllAfter(rows: seq<Row>, less: Order, k: nat)
    requires InKeyOrder(rows, less) && k < |rows|
    ensures forall r :: r in rows[k + 1..] ==> Behind(less, Some(rows[k].id))(r)
  {
    var tail := rows[k + 1..];
    forall r | r in tail
      ensures Behind(less, Some(rows[k].id))(r)
    {
      var i :| 0 <= i < |tail| && tail[i] == r;
      assert less(rows[k].id, rows[k + 1 + i].id);
    }
  }

  // ---------------------------------------------------------------------------------------
  // One page, in the two ways the backends do it.
  // ---------------------------------------------------------------------------------------

  /** A page of records and the cursor to go on from; none when the page was not full. */
  datatype Page = Page(records: seq<Row>, cursor: Option<Key>)

  function CursorOf(rows: seq<Row>, limit: nat): Option<Key> {
    if |rows| >= limit && rows != [] then Some(rows[|rows| - 1].id) else None
  }

  /** PostgreSQL: the filter is part of the statement. */
  function ServerPage(rows: seq<Row>, less: Order, filter: Filter, after: Option<Key>, limit: nat): Page {
    var got := PageOf(rows, less, after, limit, filter);
    Page(got, CursorOf(got, limit))
  }

  predicate Any(r: Row) { true }

  /** HANA: the statement reads a page of all rows and the filter is applied to it afterwards, so a
      page may be short or empty without being the last. */
  function ClientPage(rows: seq<Row>, less: Order, filter: Filter, after: Option<Key>, limit: nat): Page {
    var got := PageOf(rows, less, after, limit, Any);
    Page(Where(got, filter), CursorOf(got, limit))
  }

  /** The rows behind a cursor that a scan still has to return. */
  function Left(rows: seq<Row>, less: Order, after: Option<Key>, filter: Filter): seq<Row> {
    Where(Where(rows, Behind(less, after)), filter)
  }

  lemma EverythingBehindNothing(rows: seq<Row>, less: Order)
    ensures Where(rows, Behind(less, None)) == rows
  {
    WhereAll(rows, Behind(less, None));
  }

  /** Behind the last row of a page are exactly the rows the page left out. */
  lemma GoingOn(rows: seq<Row>, less: Order, after: Option<Key>, k: nat)
    requires StrictOrder(less) && InKeyOrder(rows, less)
    requires k < |Where(rows, Behind(less, after))|
    ensures var behind := Where(rows, Behind(less, after));
      Where(rows, Behind(less, Some(behind[k].id))) == behind[k + 1..]
  {
    var behind := Where(rows, Behind(less, after));
    var f, g := Behind(less, after), Behind(less, Some(behind[k].id));
    WhereOrdered(rows, less, f);
    BehindIsSuffix(behind, less, k);
    WhereIs(rows, f);
    assert behind[k] in behind && f(behind[k]);
    WhereTwice(rows, f, g);
  }

  /** A filter that implies another one may be applied after it. */
  lemma {:induction false} WhereTwice(rows: seq<Row>, f: Filter, g: Filter)
    requires forall r :: r in rows && g(r) ==> f(r)
    ensures Where(Where(rows, f), g) == Where(rows, g)
  {
    if rows != [] {
      WhereTwice(rows[1..], f, g);
    }
  }

  /** Going on behind a row that passed a second filter. */
  lemma {:induction false} GoingOnFiltered(behind: seq<Row>, less: Order, filter: Filter, k: nat)
    requires StrictOrder(less) && InKeyOrder(behind, less) && k < |Where(behind, filter)|
    ensures Where(Where(behind, Behind(less, Some(Where(behind, filter)[k].id))), filter) ==
      Where(behind, filter)[k + 1..]
  {
    var w := Where(behind, filter);
    WhereIs(behind, filter);
    assert w[k] in w;
    var g := Behind(less, Some(w[k].id));
    WhereOrdered(behind, less, filter);
    BehindIsSuffix(w, less, k);
    WhereSwap(behind, g, filter);
  }

  lemma {:induction false} WhereSwap(rows: seq<Row>, f: Filter, g: Filter)
    ensures Where(Where(rows, f), g) == Where(Where(rows, g), f)
  {
    if rows != [] {
      WhereSwap(rows[1..], f, g);
    }
  }

  /** Whatever the backend: a page with a cursor and the rest of the scan make the whole scan, the
      rest is shorter in rows still to be read, and a page without a cursor is the rest. */
  lemma ServerPageGoesOn(rows: seq<Row>, less: Order, filter: Filter, after: Option<Key>, limit: nat)
    requires StrictOrder(less) && InKeyOrder(rows, less) && limit > 0
    ensures var page := ServerPage(rows, less, filter, after, limit);
      Left(rows, less, after, filter) ==
        page.records + if page.cursor.Some? then Left(rows, less, page.cursor, filter) else []
    ensures var page := ServerPage(rows, less, filter, after, limit);
      page.cursor.Some? ==> |Where(rows, Behind(less, page.cursor))| < |Where(rows, Behind(less, after))|
  {
    hide Where, StrictOrder, InKeyOrder, Behind;
    var page := ServerPage(rows, less, filter, after, limit);
    var left := Left(rows, less, after, filter);
    if page.cursor.Some? {
      var k: nat := |page.records| - 1;
      assert page.records == left[..k + 1] && left[k].id == page.cursor.value;
      BehindFiltered(rows, less, filter, after, k);
      assert left == left[..k + 1] + left[k + 1..];
    }
  }

  /** Going on behind the k-th matching row. */
  lemma BehindFiltered(rows: seq<Row>, less: Order, filter: Filter, after: Option<Key>, k: nat)
    requires StrictOrder(less) && InKeyOrder(rows, less) && k < |Left(rows, less, after, filter)|
    ensures var left := Left(rows, less, after, filter);
      && Left(rows, less, Some(left[k].id), filter) == left[k + 1..]
      && |Where(rows, Behind(less, Some(left[k].id)))| < |Where(rows, Behind(less, after))|
  {
    hide Where, StrictOrder, InKeyOrder, Behind;
    var behind := Where(rows, Behind(less, after));
    var left := Where(behind, filter);
    WhereOrdered(rows, less, Behind(less, after));
    GoingOnFiltered(behind, less, filter, k);
    WhereIs(behind, filter);
    assert left[k] in left && left[k] in behind;
    var i :| 0 <= i < |behind| && behind[i] == left[k];
    GoingOn(rows, less, after, i);
    BehindIsSuffix(behind, less, i);
  }

  lemma ClientPageGoesOn(rows: seq<Row>, less: Order, filter: Filter, after: Option<Key>, limit: nat)
    requires StrictOrder(less) && InKeyOrder(rows, less) && limit > 0
    ensures var page := ClientPage(rows, less, filter, after, limit);
      Left(rows, less, after, filter) ==
        page.records + if page.cursor.Some? then Left(rows, less, page.cursor, filter) else []
    ensures var page := ClientPage(rows, less, filter, after, limit);
      page.cursor.Some? ==> |Where(rows, Behind(less, page.cursor))| < |Where(rows, Behind(less, after))|
  {
    var page := ClientPage(rows, less, filter, after, limit);
    var behind := Where(rows, Behind(less, after));
    WhereAll(behind, Any);
    if page.cursor.Some? {
      var k: nat := |Take(behind, limit)| - 1;
      assert Take(behind, limit) == behind[..k + 1] && behind[k].id == page.cursor.value;
      GoingOn(rows, less, after, k);
      WhereConcat(behind[..k + 1], behind[k + 1..], filter);
      assert behind == behind[..k + 1] + behind[k + 1..];
    }
  }

  // ---------------------------------------------------------------------------------------
  // Following cursors, and deleting what a scan finds.
  // ---------------------------------------------------------------------------------------

  /** `scan` refuses a page size that is not positive before any page is read. */
  predicate PageSizeAllowed(pageSize: Option<int>) {
    pageSize.Some? ==> pageSize.value > 0
  }

  function PageAt(rows: seq<Row>, less: Order, filter: Filter, after: Option<Key>, limit: nat, onServer: bool): Page {
    if onServer then ServerPage(rows, less, filter, after, limit) else ClientPage(rows, less, filter, after, limit)
  }

  /** How many rows there are behind a cursor. */
  function Behinds(rows: seq<Row>, less: Order, after: Option<Key>): nat {
    |Where(rows, Behind(less, after))|
  }

  lemma PageGoesOn(rows: seq<Row>, less: Order, filter: Filter, after: Option<Key>, limit: nat, onServer: bool)
    requires StrictOrder(less) && InKeyOrder(rows, less) && limit > 0
    ensures var page := PageAt(rows, less, filter, after, limit, onServer);
      && Left(rows, less, after, filter) ==
           page.records + (if page.cursor.Some? then Left(rows, less, page.cursor, filter) else [])
      && (page.cursor.Some? ==> Behinds(rows, less, page.cursor) < Behinds(rows, less, after))
  {
    ServerPageGoesOn(rows, less, filter, after, limit);
    ClientPageGoesOn(rows, less, filter, after, limit);
  }

  lemma LeftFromStart(rows: seq<Row>, less: Order, filter: Filter)
    ensures Left(rows, less, None, filter) == Where(rows, filter)
  {
    EverythingBehindNothing(rows, less);
  }

  /** A caller that follows cursors to the end sees every matching row once, in key order, whatever
      the page size and whichever side filters; a page size that is not positive is refused. */
  method ScanAll(rows: seq<Row>, less: Order, filter: Filter, pageSize: Option<int>, onServer: bool)
    returns (all: Option<seq<Row>>)
    requires StrictOrder(less) && InKeyOrder(rows, less)
    ensures all == if PageSizeAllowed(pageSize) then Some(Where(rows, filter)) else None
  {
    if pageSize.Some? && pageSize.value <= 0 {
      return None;
    }
    var limit := if pageSize.Some? then pageSize.value else DEFAULT_SCAN_PAGE_SIZE;
    var found := Scan(rows, less, filter, limit, onServer);
    all := Some(found);
  }

  method Scan(rows: seq<Row>, less: Order, filter: Filter, limit: nat, onServer: bool) returns (found: seq<Row>)
    requires StrictOrder(less) && InKeyOrder(rows, less) && limit > 0
    ensures found == Where(rows, filter)
  {
    hide PageAt, Left, Where, Behinds, StrictOrder, InKeyOrder;
    found := [];
    var cursor: Option<Key> := None;
    var more := true;
    LeftFromStart(rows, less, filter);
    while more
      invariant found + (if more then Left(rows, less, cursor, filter) else []) == Where(rows, filter)
      decreases more, Behinds(rows, less, cursor)
    {
      PageGoesOn(rows, less, filter, cursor, limit, onServer);
      var page := PageAt(rows, less, filter, cursor, limit, onServer);
      found := found + page.records;
      cursor := page.cursor;
      more := page.cursor.Some?;
    }
  }

  function Ids(rows: seq<Row>): (ids: seq<Key>)
    ensures |ids| == |rows| && forall i :: 0 <= i < |rows| ==> ids[i] == rows[i].id
  {
    seq(|rows|, i requires 0 <= i < |rows| => rows[i].id)
  }

  function NotIn(ids: seq<Key>): Filter {
    (r: Row) => r.id !in ids
  }

  const DELETE_BATCH_SIZE := 1000
  const DEFAULT_SCAN_PAGE_SIZE := 500

  /** One table of a store. */
  class Table {
    var rows: seq<Row>

    /** `DELETE … WHERE id IN (ids)`; the number of rows it removed. */
    method DeleteByIds(ids: seq<Key>) returns (count: nat)
      modifies this
      ensures rows == Where(old(rows), NotIn(ids))
      ensures count == |old(rows)| - |rows|
    {
      WhereIs(rows, NotIn(ids));
      count := |rows| - |Where(rows, NotIn(ids))|;
      rows := Where(rows, NotIn(ids));
    }
  }

  function Not(filter: Filter): Filter {
    (r: Row) => !filter(r)
  }

  lemma {:induction false} Partition(rows: seq<Row>, filter: Filter)
    ensures |Where(rows, filter)| + |Where(rows, Not(filter))| == |rows|
  {
    if rows != [] { Partition(rows[1..], filter); }
  }

  lemma {:induction false} WhereSame(rows: seq<Row>, f: Filter, g: Filter)
    requires forall r :: r in rows ==> f(r) == g(r)
    ensures Where(rows, f) == Where(rows, g)
  {
    if rows != [] { WhereSame(rows[1..], f, g); }
  }

  lemma KeysAreUnique(rows: seq<Row>, less: Order, a: Row, b: Row)
    requires StrictOrder(less) && InKeyOrder(rows, less) && a in rows && b in rows && a.id == b.id
    ensures a == b
  {
    var i :| 0 <= i < |rows| && rows[i] == a;
    var j :| 0 <= j < |rows| && rows[j] == b;
    assert i < j ==> less(a.id, b.id);
    assert j < i ==> less(b.id, a.id);
  }

  /** HANA `deleteWhere` on a store nobody else writes: scan everything, then delete the ids found
      in batches. Exactly the matching rows go, and their number is returned. */
  method DeleteWhere(table: Table, less: Order, filter: Filter) returns (deleted: nat)
    requires StrictOrder(less) && InKeyOrder(table.rows, less)
    modifies table
    ensures table.rows == Where(old(table.rows), Not(filter))
    ensures deleted == |Where(old(table.rows), filter)|
  {
    ghost var before := table.rows;
    var found := Scan(table.rows, less, filter, DEFAULT_SCAN_PAGE_SIZE, false);
    var ids := Ids(found);
    deleted := 0;
    var i := 0;
    WhereAll(before, NotIn(ids[..0]));
    while i < |ids|
      invariant i <= |ids|
      invariant table.rows == Where(before, NotIn(ids[..i]))
      invariant deleted == |before| - |table.rows|
      decreases |ids| - i
    {
      var to := if i + DELETE_BATCH_SIZE < |ids| then i + DELETE_BATCH_SIZE else |ids|;
      var batch := ids[i..to];
      var count := table.DeleteByIds(batch);
      DeletedMore(before, ids, i, to);
      deleted := deleted + count;
      i := to;
    }
    assert ids[..|ids|] == ids;
    FoundIsMatching(before, less, filter);
    Partition(before, filter);
  }

  lemma DeletedMore(rows: seq<Row>, ids: seq<Key>, i: nat, to: nat)
    requires i <= to <= |ids|
    ensures Where(Where(rows, NotIn(ids[..i])), NotIn(ids[i..to])) == Where(rows, NotIn(ids[..to]))
  {
    assert ids[..to] == ids[..i] + ids[i..to];
    BothFilters(rows, NotIn(ids[..i]), NotIn(ids[i..to]), NotIn(ids[..to]));
  }

  lemma {:induction false} BothFilters(rows: seq<Row>, f: Filter, g: Filter, both: Filter)
    requires forall r :: r in rows ==> both(r) == (f(r) && g(r))
    ensures Where(Where(rows, f), g) == Where(rows, both)
  {
    if rows != [] { BothFilters(rows[1..], f, g, both); }
  }

  lemma FoundIsMatching(rows: seq<Row>, less: Order, filter: Filter)
    requires StrictOrder(less) && InKeyOrder(rows, less)
    ensures Where(rows, NotIn(Ids(Where(rows, filter)))) == Where(rows, Not(filter))
  {
    var found := Where(rows, filter);
    WhereIs(rows, filter);
    forall r | r in rows
      ensures NotIn(Ids(found))(r) == Not(filter)(r)
    {
      if filter(r) {
        var k :| 0 <= k < |found| && found[k] == r;
        assert Ids(found)[k] == r.id;
      } else if r.id in Ids(found) {
        var k :| 0 <= k < |Ids(found)| && Ids(found)[k] == r.id;
        assert found[k] in found;
        KeysAreUnique(rows, less, found[k], r);
      }
    }
    WhereSame(rows, NotIn(Ids(found)), Not(filter));
  }

  // ---------------------------------------------------------------------------------------
  // Search with a limit and a filter in the client.
  // ---------------------------------------------------------------------------------------

  /** The loop `pick`: the first `limit` rows that are kept, and whether it passed over one. */
  method Pick(rows: seq<Row>, keep: Filter, limit: nat) returns (picked: seq<Row>, dropped: bool)
    ensures picked == Take(Where(rows, keep), limit)
    ensures !dropped ==> |Where(rows, keep)| == |rows| || |picked| == limit
    ensures dropped ==> |Where(rows, keep)| < |rows|
  {
    picked, dropped := [], false;
    var i := 0;
    assert rows[..0] == [];
    while i < |rows| && |picked| < limit
      invariant i <= |rows| && |picked| <= limit
      invariant picked == Where(rows[..i], keep)
      invariant dropped <==> |Where(rows[..i], keep)| < i
    {
      assert rows[..i + 1] == rows[..i] + [rows[i]];
      WhereConcat(rows[..i], [rows[i]], keep);
      WhereIs(rows[..i], keep);
      assert [rows[i]][1..] == [];
      if keep(rows[i]) {
        picked := picked + [rows[i]];
      } else {
        dropped := true;
      }
      i := i + 1;
    }
    assert rows == rows[..i] + rows[i..];
    WhereConcat(rows[..i], rows[i..], keep);
    WhereIs(rows[..i], keep);
    WhereIs(rows[i..], keep);
  }

  function Limit(k: int): (n: nat)
    ensures n >= 1 && n >= k && (n == 1 || n == k)
  {
    if k > 1 then k else 1
  }

  /** HANA `query`: `ranked` is the table by falling score. A scoped query reads everything; an
      unscoped one reads `limit` rows and runs again without a limit when it had to drop one from a
      full page. Either way the result is the same as filtering first. */
  method Query(ranked: seq<Row>, keep: Filter, k: int, scoped: bool) returns (results: seq<Row>)
    ensures results == Take(Where(ranked, keep), Limit(k))
  {
    var limit := Limit(k);
    if scoped {
      var dropped: bool;
      results, dropped := Pick(ranked, keep, limit);
    } else {
      var page := Take(ranked, limit);
      var first, dropped := Pick(page, keep, limit);
      if dropped && |page| >= limit {
        var again: bool;
        results, again := Pick(ranked, keep, limit);
      } else {
        results := first;
        OnePageIsEnough(ranked, keep, limit, dropped);
      }
    }
  }

  lemma OnePageIsEnough(ranked: seq<Row>, keep: Filter, limit: nat, dropped: bool)
    requires limit > 0
    requires var page := Take(ranked, limit);
      !(dropped && |page| >= limit) && (!dropped ==> |Where(page, keep)| == |page| || |Where(page, keep)| >= limit)
    ensures Take(Where(Take(ranked, limit), keep), limit) == Take(Where(ranked, keep), limit)
  {
    var page := Take(ranked, limit);
    WhereIs(page, keep);
    if |ranked| > limit {
      assert ranked == page + ranked[limit..];
      WhereConcat(page, ranked[limit..], keep);
    }
  }
}
