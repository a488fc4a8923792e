/** Keyset pagination of the audit log. */
module AuditPages {
  import opened Wrappers

  type Id = nat

  datatype LogRow = LogRow(
    id: Id, tenant: Id, entity: Id, entityId: Id, user: Id, action: Id, createdAt: int)

  datatype Filter = Filter(
    tenant: Id, entity: Option<Id>, entityId: Option<Id>, user: Option<Id>, action: Option<Id>,
    from: Option<int>, to: Option<int>)

  datatype Page = Page(items: seq<LogRow>, nextCursor: Option<Id>)

  /** Absent filters match everything; both ends of the date range are inclusive. */
  predicate Matches(r: LogRow, f: Filter) {
    && r.tenant == f.tenant
    && (f.entity.Some? ==> r.entity == f.entity.value)
    && (f.entityId.Some? ==> r.entityId == f.entityId.value)
    && (f.user.Some? ==> r.user == f.user.value)
    && (f.action.Some? ==> r.action == f.action.value)
    && (f.from.Some? ==> f.from.value <= r.createdAt)
    && (f.to.Some? ==> r.createdAt <= f.to.value)
  }

  /** Newest first, equal instants by descending id. */
  predicate Before(a: LogRow, b: LogRow) {
    a.createdAt > b.createdAt || (a.createdAt == b.createdAt && a.id > b.id)
  }

  /** The primary key of the log. */
  predicate LogOk(log: set<LogRow>) {
    forall a, b :: a in log && b in log && a.id == b.id ==> a == b
  }

  /** The ordered result of the query without a cursor: every matching row, once, newest first. */
  ghost predicate IsListing(log: set<LogRow>, f: Filter, rows: seq<LogRow>) {
    && (forall i, j :: 0 <= i < j < |rows| ==> Before(rows[i], rows[j]))
    && (forall r :: r in rows <==> r in log && Matches(r, f))
  }

  // ── One page ──────────────────────────────────────────────────────────────

  /** The rows at or after a cursor row in the order of the query. */
  function FromRow(rows: seq<LogRow>, c: LogRow): seq<LogRow> {
    if rows == [] then []
    else (if Before(rows[0], c) then [] else [rows[0]]) + FromRow(rows[1..], c)
  }

  predicate HasId(log: set<LogRow>, id: Id) {
    exists r :: r in log && r.id == id
  }

  ghost function RowOf(log: set<LogRow>, id: Id): LogRow
    requires HasId(log, id)
  {
    var r :| r in log && r.id == id;
    r
  }

  /** A cursor starts at its row and skips it; a cursor that names no row finds nothing. */
  ghost function AfterCursor(log: set<LogRow>, rows: seq<LogRow>, cursor: Option<Id>): seq<LogRow> {
    match cursor
    case None => rows
    case Some(id) =>
      if !HasId(log, id) then []
      else
        var found := FromRow(rows, RowOf(log, id));
        if found == [] then [] else found[1..]
  }

  /** The service reads one row more than the limit to learn whether there is another page. */
  ghost function List(log: set<LogRow>, rows: seq<LogRow>, cursor: Option<Id>, limit: nat): Page
    requires 1 <= limit
  {
    var rest := AfterCursor(log, rows, cursor);
    var read := if |rest| > limit + 1 then rest[..limit + 1] else rest;
    var hasMore := |read| > limit;
    var page := if hasMore then read[..limit] else read;
    Page(page, if hasMore then Some(page[|page| - 1].id) else None)
  }

  // ── Properties ────────────────────────────────────────────────────────────

  /** No two rows tie, so two ordered results of one query are the same. */
  lemma {:induction false} ListingUnique(log: set<LogRow>, f: Filter, a: seq<LogRow>, b: seq<LogRow>)
    requires LogOk(log) && IsListing(log, f, a) && IsListing(log, f, b)
    ensures a == b
  {
    SameOrder(a, b);
  }

  /** What the filters select: the tenant's rows that agree with each filter that was sent, both ends of the date range
      included. */
  lemma FiltersSelect(log: set<LogRow>, f: Filter, rows: seq<LogRow>, r: LogRow)
    requires IsListing(log, f, rows)
    ensures r in rows <==>
              && r in log && r.tenant == f.tenant
              && f.entity in {None, Some(r.entity)} && f.entityId in {None, Some(r.entityId)}
              && f.user in {None, Some(r.user)} && f.action in {None, Some(r.action)}
              && !(f.from.Some? && r.createdAt < f.from.value) && !(f.to.Some? && f.to.value < r.createdAt)
  {}

  lemma HeadIn(rows: seq<LogRow>)
    ensures rows != [] ==> rows[0] in rows
  {}

  lemma {:induction false} SameOrder(a: seq<LogRow>, b: seq<LogRow>)
    requires forall i, j :: 0 <= i < j < |a| ==> Before(a[i], a[j])
    requires forall i, j :: 0 <= i < j < |b| ==> Before(b[i], b[j])
    requires forall r :: r in a <==> r in b
    ensures a == b
  {
    HeadIn(a);
    HeadIn(b);
    if a != [] {
      var i :| 0 <= i < |b| && b[i] == a[0];
      var j :| 0 <= j < |a| && a[j] == b[0];
      assert a[0] == b[0];
      forall r ensures r in a[1..] <==> r in b[1..] {
        assert r in a <==> r == a[0] || r in a[1..];
        assert r in b <==> r == b[0] || r in b[1..];
        if r in a[1..] {
          var k :| 0 <= k < |a[1..]| && a[1..][k] == r;
          assert Before(a[0], a[k + 1]);
        }
        if r in b[1..] {
          var k :| 0 <= k < |b[1..]| && b[1..][k] == r;
          assert Before(b[0], b[k + 1]);
        }
      }
      SameOrder(a[1..], b[1..]);
    }
  }

  lemma {:induction false} FromRowIsSuffix(rows: seq<LogRow>, k: nat)
    requires forall i, j :: 0 <= i < j < |rows| ==> Before(rows[i], rows[j])
    requires k < |rows|
    ensures FromRow(rows, rows[k]) == rows[k..]
  {
    if k == 0 {
      FromFirst(rows, rows[0]);
    } else {
      FromRowIsSuffix(rows[1..], k - 1);
      assert rows[1..][k - 1] == rows[k] && rows[1..][k - 1..] == rows[k..];
    }
  }

  lemma {:induction false} FromFirst(rows: seq<LogRow>, c: LogRow)
    requires forall i :: 0 <= i < |rows| ==> !Before(rows[i], c)
    ensures FromRow(rows, c) == rows
  {
    if rows != [] {
      FromFirst(rows[1..], c);
    }
  }

  /** The cursor of the k-th row continues right after it. */
  lemma CursorContinues(log: set<LogRow>, f: Filter, rows: seq<LogRow>, k: nat)
    requires LogOk(log) && IsListing(log, f, rows) && k < |rows|
    ensures AfterCursor(log, rows, Some(rows[k].id)) == rows[k + 1..]
  {
    assert rows[k] in rows;
    assert RowOf(log, rows[k].id) == rows[k];
    FromRowIsSuffix(rows, k);
  }

  lemma {:induction false} FromRowAt(rows: seq<LogRow>, c: LogRow, k: nat)
    requires k <= |rows|
    requires forall i :: 0 <= i < |rows| ==> (Before(rows[i], c) <==> i < k)
    ensures FromRow(rows, c) == rows[k..]
  {
    if rows != [] {
      if k == 0 {
        FromFirst(rows, c);
      } else {
        FromRowAt(rows[1..], c, k - 1);
      }
    }
  }

  /** A cursor of any row of the log, one that the filters leave out included: the first row that does not come before it
      is skipped and the rest follows. A cursor that names no row finds nothing. */
  lemma AnyCursor(log: set<LogRow>, rows: seq<LogRow>, id: Id, k: nat)
    requires LogOk(log) && k <= |rows|
    requires forall c :: c in log && c.id == id ==>
               forall i :: 0 <= i < |rows| ==> (Before(rows[i], c) <==> i < k)
    ensures !HasId(log, id) ==> AfterCursor(log, rows, Some(id)) == []
    ensures HasId(log, id) ==> AfterCursor(log, rows, Some(id)) == if k < |rows| then rows[k + 1..] else []
  {
    if HasId(log, id) {
      FromRowAt(rows, RowOf(log, id), k);
    }
  }

  /** The cursor a client holds after `read` rows. */
  predicate IsCursorAt(rows: seq<LogRow>, read: nat, cursor: Option<Id>)
    requires read <= |rows|
  {
    cursor == if read == 0 then None else Some(rows[read - 1].id)
  }

  /** The items read by following `nextCursor` from a cursor on, page after page, the n-th page with limit
      limits(n). `read` counts the rows returned before. */
  ghost function Follow(
      log: set<LogRow>, f: Filter, rows: seq<LogRow>, cursor: Option<Id>, read: nat, limits: nat -> nat, n: nat)
    : seq<LogRow>
    requires LogOk(log) && IsListing(log, f, rows) && read <= |rows| && IsCursorAt(rows, read, cursor)
    requires forall m :: 1 <= limits(m)
    decreases |rows| - read
  {
    var page := List(log, rows, cursor, limits(n));
    PageIsSlice(log, f, rows, cursor, read, limits(n));
    if page.nextCursor.None? then page.items
    else page.items + Follow(log, f, rows, page.nextCursor, read + |page.items|, limits, n + 1)
  }

  /** A page is the next slice of the listing, its cursor is the id of its last row, and it has a cursor exactly
      when rows remain after it. */
  lemma PageIsSlice(log: set<LogRow>, f: Filter, rows: seq<LogRow>, cursor: Option<Id>, read: nat, limit: nat)
    requires LogOk(log) && IsListing(log, f, rows) && read <= |rows| && IsCursorAt(rows, read, cursor) && 1 <= limit
    ensures var page := List(log, rows, cursor, limit);
            var next := read + |page.items|;
            && next <= |rows| && page.items == rows[read..next]
            && (page.nextCursor.Some? <==> next < |rows|)
            && (page.nextCursor.Some? ==> |page.items| == limit && IsCursorAt(rows, next, page.nextCursor))
  {
    if read > 0 {
      CursorContinues(log, f, rows, read - 1);
    }
    var rest := rows[read..];
    assert |rest| > limit ==> rest[..limit] == rows[read..read + limit];
  }

  /** Following the cursors from the first page returns every matching row exactly once, in order, and stops,
      whatever limits the client asks for. */
  lemma {:induction false} FollowReadsAll(
      log: set<LogRow>, f: Filter, rows: seq<LogRow>, cursor: Option<Id>, read: nat, limits: nat -> nat, n: nat)
    requires LogOk(log) && IsListing(log, f, rows) && read <= |rows| && IsCursorAt(rows, read, cursor)
    requires forall m :: 1 <= limits(m)
    ensures Follow(log, f, rows, cursor, read, limits, n) == rows[read..]
    decreases |rows| - read
  {
    hide List, AfterCursor, IsListing, LogOk;
    PageIsSlice(log, f, rows, cursor, read, limits(n));
    var page := List(log, rows, cursor, limits(n));
    if page.nextCursor.Some? {
      var next := read + |page.items|;
      FollowReadsAll(log, f, rows, page.nextCursor, next, limits, n + 1);
      assert rows[read..next] + rows[next..] == rows[read..];
    }
  }
}
