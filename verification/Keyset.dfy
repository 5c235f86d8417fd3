/** Cursor pagination over an order table that keeps changing: pages sorted by creation time
    and identifier, newest first, each read from the table as it is at that moment. */
module Keyset {
  import opened Sorting
  import opened Orders
  import opened BookInvariants
  import opened Ledger
  import opened LedgerInvariants
  import opened LedgerRuns
  import opened SettlementRuns

  datatype Filter<T> = Any | Only(value: T)

  datatype ListFilters = ListFilters(merchant: Filter<string>, user: Filter<string>, market: Filter<MarketId>, status: Filter<Status>)

  datatype Cursor = First | After(createdAt: int, id: OrderId)

  predicate Allows<T(==)>(f: Filter<T>, value: T) {
    f.Any? || f.value == value
  }

  predicate MatchesFilters(o: Order, f: ListFilters) {
    && Allows(f.merchant, o.terms.merchant) && Allows(f.user, o.terms.user)
    && Allows(f.market, o.terms.market) && Allows(f.status, o.status)
  }

  /** The order lies behind the cursor. */
  predicate AfterCursor(t: Terms, c: Cursor) {
    c.First? || (if t.createdAt == c.createdAt then t.id < c.id else t.createdAt < c.createdAt)
  }

  predicate Newer(a: Terms, b: Terms) {
    if a.createdAt == b.createdAt then a.id > b.id else a.createdAt > b.createdAt
  }

  function NewestFirst(orders: Book): (nat, nat) -> bool {
    (a: nat, b: nat) => a in orders && b in orders && Newer(orders[a].terms, orders[b].terms)
  }

  ghost predicate KeyedById(orders: Book) {
    forall id | id in orders :: orders[id].terms.id == id
  }

  function Listed(orders: Book, f: ListFilters, c: Cursor): set<OrderId> {
    set id | id in orders && MatchesFilters(orders[id], f) && AfterCursor(orders[id].terms, c)
  }

  lemma NewestTotal(orders: Book, s: set<OrderId>)
    requires KeyedById(orders)
    requires s <= orders.Keys
    ensures StrictTotal(s, NewestFirst(orders))
  {
    assert forall x | x in s :: x in orders && orders[x].terms.id == x;
    assert forall x, y | x in s && y in s :: NewestFirst(orders)(x, y) == Newer(orders[x].terms, orders[y].terms);
  }

  function Take(s: seq<OrderId>, n: nat): seq<OrderId> {
    if |s| <= n then s else s[..n]
  }

  /** One row more than the page, to know whether another page follows. */
  ghost function ListAfter(orders: Book, f: ListFilters, limit: nat, c: Cursor): seq<OrderId>
    requires KeyedById(orders)
  {
    NewestTotal(orders, Listed(orders, f, c));
    Take(Sort(Listed(orders, f, c), NewestFirst(orders)), limit + 1)
  }

  datatype NextPage = Done | More(cursor: Cursor)

  datatype Page = Page(ids: seq<OrderId>, next: NextPage)

  function CursorAt(orders: Book, id: OrderId): Cursor
    requires id in orders
  {
    After(orders[id].terms.createdAt, id)
  }

  /** `ListCursor`: the page, and the cursor of its last row when more rows follow. */
  ghost function ListCursor(orders: Book, f: ListFilters, limit: nat, c: Cursor): Page
    requires limit >= 1 && KeyedById(orders)
  {
    var rows := ListAfter(orders, f, limit, c);
    if |rows| <= limit then Page(rows, Done)
    else
      RowsListed(orders, f, limit, c);
      Page(rows[..limit], More(CursorAt(orders, rows[limit - 1])))
  }

  lemma RowsListed(orders: Book, f: ListFilters, limit: nat, c: Cursor)
    requires KeyedById(orders)
    ensures forall i | 0 <= i < |ListAfter(orders, f, limit, c)| ::
              ListAfter(orders, f, limit, c)[i] in Listed(orders, f, c)
  {
    NewestTotal(orders, Listed(orders, f, c));
    SortedDistinct(Sort(Listed(orders, f, c), NewestFirst(orders)), Listed(orders, f, c), NewestFirst(orders));
  }

  // ----- one page -----

  /** What a page promises: the newest matching rows behind the cursor, newest first. */
  ghost predicate PageOk(orders: Book, f: ListFilters, limit: nat, c: Cursor, p: Page) {
    && |p.ids| <= limit
    && (forall i | 0 <= i < |p.ids| :: p.ids[i] in Listed(orders, f, c))
    && (forall i, j | 0 <= i < j < |p.ids| :: p.ids[i] in orders && p.ids[j] in orders && Newer(orders[p.ids[i]].terms, orders[p.ids[j]].terms))
    && match p.next
       case Done => forall id | id in Listed(orders, f, c) :: id in p.ids
       case More(next) =>
         && |p.ids| == limit >= 1 && p.ids[limit - 1] in orders && next == CursorAt(orders, p.ids[limit - 1])
         && (forall id | id in Listed(orders, f, c) && !AfterCursor(orders[id].terms, next) :: id in p.ids)
  }

  lemma PageIsOk(orders: Book, f: ListFilters, limit: nat, c: Cursor)
    requires limit >= 1 && KeyedById(orders)
    ensures PageOk(orders, f, limit, c, ListCursor(orders, f, limit, c))
  {
    var s, less := Listed(orders, f, c), NewestFirst(orders);
    NewestTotal(orders, s);
    var all := Sort(s, less);
    var p := ListCursor(orders, f, limit, c);
    SortedDistinct(all, s, less);
    assert p.ids <= all;
    forall i, j | 0 <= i < j < |all| ensures all[i] in orders && all[j] in orders && Newer(orders[all[i]].terms, orders[all[j]].terms) {
      assert less(all[i], all[j]);
    }
    if p.next.More? {
      forall k | limit <= k < |all| ensures AfterCursor(orders[all[k]].terms, p.next.cursor) {
        assert Newer(orders[all[limit - 1]].terms, orders[all[k]].terms);
      }
    }
    forall id | id in s && (p.next.More? ==> !AfterCursor(orders[id].terms, p.next.cursor)) ensures id in p.ids {
      assert id in Elements(all);
      var k :| 0 <= k < |all| && all[k] == id;
      assert k < |p.ids|;
      assert p.ids[k] == id;
    }
  }

  // ----- the same in the columns' own terms -----

  lemma FiltersMean(o: Order, f: ListFilters)
    ensures MatchesFilters(o, f) <==>
            && (f.merchant.Only? ==> o.terms.merchant == f.merchant.value) && (f.user.Only? ==> o.terms.user == f.user.value)
            && (f.market.Only? ==> o.terms.market == f.market.value) && (f.status.Only? ==> o.status == f.status.value)
  {
  }

  lemma BehindMeans(t: Terms, c: Cursor)
    ensures AfterCursor(t, c) <==> (c.After? ==> t.createdAt < c.createdAt || (t.createdAt == c.createdAt && t.id < c.id))
  {
  }

  /** Every row of a page agrees with each filter that is set, is older than the cursor's row,
      and is followed only by older ones. */
  lemma PageRowsAgree(orders: Book, f: ListFilters, limit: nat, c: Cursor, i: nat)
    requires limit >= 1 && KeyedById(orders) && i < |ListCursor(orders, f, limit, c).ids|
    ensures var p := ListCursor(orders, f, limit, c);
            && |p.ids| <= limit && p.ids[i] in orders
            && var o := orders[p.ids[i]];
               && (f.merchant.Only? ==> o.terms.merchant == f.merchant.value) && (f.user.Only? ==> o.terms.user == f.user.value)
               && (f.market.Only? ==> o.terms.market == f.market.value) && (f.status.Only? ==> o.status == f.status.value)
               && (c.After? ==> o.terms.createdAt < c.createdAt || (o.terms.createdAt == c.createdAt && p.ids[i] < c.id))
               && forall j | i < j < |p.ids| ::
                    && p.ids[j] in orders
                    && (orders[p.ids[j]].terms.createdAt < o.terms.createdAt
                        || (orders[p.ids[j]].terms.createdAt == o.terms.createdAt && p.ids[j] < p.ids[i]))
  {
    var p := ListCursor(orders, f, limit, c);
    PageIsOk(orders, f, limit, c);
    hide ListCursor, MatchesFilters, AfterCursor;
    assert p.ids[i] in Listed(orders, f, c);
    FiltersMean(orders[p.ids[i]], f);
    BehindMeans(orders[p.ids[i]].terms, c);
  }

  /** An order that agrees with every filter that is set and is older than the cursor's row is on
      the page, or the page is full and the order is older than its last row, where the next
      page starts. */
  lemma PageMissesNone(orders: Book, f: ListFilters, limit: nat, c: Cursor, id: OrderId)
    requires limit >= 1 && KeyedById(orders) && id in orders && id !in ListCursor(orders, f, limit, c).ids
    requires var o := orders[id];
             && (f.merchant.Only? ==> o.terms.merchant == f.merchant.value) && (f.user.Only? ==> o.terms.user == f.user.value)
             && (f.market.Only? ==> o.terms.market == f.market.value) && (f.status.Only? ==> o.status == f.status.value)
             && (c.After? ==> o.terms.createdAt < c.createdAt || (o.terms.createdAt == c.createdAt && id < c.id))
    ensures var p := ListCursor(orders, f, limit, c);
            && |p.ids| == limit && p.ids[limit - 1] in orders
            && var t := orders[p.ids[limit - 1]].terms;
               && p.next == More(After(t.createdAt, p.ids[limit - 1]))
               && (orders[id].terms.createdAt < t.createdAt || (orders[id].terms.createdAt == t.createdAt && id < p.ids[limit - 1]))
  {
    PageIsOk(orders, f, limit, c);
    hide ListCursor, MatchesFilters;
    FiltersMean(orders[id], f);
    BehindMeans(orders[id].terms, c);
    assert id in Listed(orders, f, c);
  }

  /** What the repository returns is a page one row larger. */
  lemma RowsArePage(orders: Book, f: ListFilters, limit: nat, c: Cursor)
    requires KeyedById(orders)
    ensures ListAfter(orders, f, limit, c) == ListCursor(orders, f, limit + 1, c).ids
  {
  }

  lemma RowsAgree(orders: Book, f: ListFilters, limit: nat, c: Cursor)
    requires KeyedById(orders)
    ensures var ids := ListAfter(orders, f, limit, c);
            |ids| <= limit + 1 && forall i | 0 <= i < |ids| ::
              && ids[i] in orders
              && var o := orders[ids[i]];
                 && (f.merchant.Only? ==> o.terms.merchant == f.merchant.value) && (f.user.Only? ==> o.terms.user == f.user.value)
                 && (f.market.Only? ==> o.terms.market == f.market.value) && (f.status.Only? ==> o.status == f.status.value)
                 && (c.After? ==> o.terms.createdAt < c.createdAt || (o.terms.createdAt == c.createdAt && ids[i] < c.id))
                 && forall j | i < j < |ids| ::
                      && ids[j] in orders
                      && (orders[ids[j]].terms.createdAt < o.terms.createdAt
                          || (orders[ids[j]].terms.createdAt == o.terms.createdAt && ids[j] < ids[i]))
  {
    var ids: seq<OrderId> := ListAfter(orders, f, limit, c);
    RowsArePage(orders, f, limit, c);
    hide ListAfter, ListCursor, MatchesFilters, AfterCursor;
    PageIsOk(orders, f, limit + 1, c);
    forall i | 0 <= i < |ids|
      ensures ids[i] in orders
      ensures var o := orders[ids[i]];
              && (f.merchant.Only? ==> o.terms.merchant == f.merchant.value) && (f.user.Only? ==> o.terms.user == f.user.value)
              && (f.market.Only? ==> o.terms.market == f.market.value) && (f.status.Only? ==> o.status == f.status.value)
              && (c.After? ==> o.terms.createdAt < c.createdAt || (o.terms.createdAt == c.createdAt && ids[i] < c.id))
              && forall j | i < j < |ids| ::
                   && ids[j] in orders
                   && (orders[ids[j]].terms.createdAt < o.terms.createdAt
                       || (orders[ids[j]].terms.createdAt == o.terms.createdAt && ids[j] < ids[i]))
    {
      PageRowsAgree(orders, f, limit + 1, c, i);
    }
  }

  // ----- a whole scan -----

  datatype Scanned = Scanned(ids: seq<OrderId>, complete: bool)

  /** The book at each page, and a later one that has every row of all of them. */
  ghost predicate Snapshots(books: seq<Book>, final: Book) {
    forall i | 0 <= i < |books| :: KeyedById(books[i]) && SameTerms(books[i], final)
  }

  /** Following the cursors, one page per snapshot, until a page has no next cursor. */
  ghost function Scan(books: seq<Book>, f: ListFilters, limit: nat, c: Cursor): Scanned
    requires limit >= 1 && forall i | 0 <= i < |books| :: KeyedById(books[i])
    decreases |books|
  {
    if books == [] then Scanned([], false)
    else
      assert KeyedById(books[0]);
      var p := ListCursor(books[0], f, limit, c);
      match p.next
      case Done => Scanned(p.ids, true)
      case More(next) =>
        var rest := Scan(books[1..], f, limit, next);
        Scanned(p.ids + rest.ids, rest.complete)
  }

  ghost predicate Descending(final: Book, ids: seq<OrderId>, c: Cursor) {
    && (forall i | 0 <= i < |ids| :: ids[i] in final && final[ids[i]].terms.id == ids[i] && AfterCursor(final[ids[i]].terms, c))
    && (forall i, j | 0 <= i < j < |ids| :: ids[i] in final && ids[j] in final && Newer(final[ids[i]].terms, final[ids[j]].terms))
  }

  lemma DescendingJoin(final: Book, a: seq<OrderId>, b: seq<OrderId>, c: Cursor)
    requires a != [] && Descending(final, a, c) && a[|a| - 1] in final
    requires Descending(final, b, CursorAt(final, a[|a| - 1]))
    ensures Descending(final, a + b, c)
  {
    var last := final[a[|a| - 1]].terms;
    forall i | 0 <= i < |b| ensures AfterCursor(final[b[i]].terms, c) {
      assert Newer(last, final[b[i]].terms);
    }
    forall i, j | 0 <= i < j < |a + b|
      ensures (a + b)[i] in final && (a + b)[j] in final && Newer(final[(a + b)[i]].terms, final[(a + b)[j]].terms)
    {
      if i < |a| <= j {
        assert Newer(last, final[b[j - |a|]].terms);
        assert i < |a| - 1 ==> Newer(final[a[i]].terms, last);
      }
    }
  }

  lemma PageDescends(orders: Book, final: Book, f: ListFilters, limit: nat, c: Cursor, p: Page)
    requires KeyedById(orders) && SameTerms(orders, final) && PageOk(orders, f, limit, c, p)
    ensures Descending(final, p.ids, c)
    ensures p.next.More? ==> p.ids != [] && p.ids[|p.ids| - 1] in final && p.next.cursor == CursorAt(final, p.ids[|p.ids| - 1])
  {
    hide MatchesFilters, AfterCursor, Newer;
    assert forall i | 0 <= i < |p.ids| :: p.ids[i] in Listed(orders, f, c);
  }

  lemma SnapshotsKeyed(books: seq<Book>, final: Book)
    requires Snapshots(books, final)
    ensures forall i | 0 <= i < |books| :: KeyedById(books[i])
  {
    hide KeyedById, SameTerms;
  }

  lemma SnapshotsTail(books: seq<Book>, final: Book)
    requires books != [] && Snapshots(books, final)
    ensures KeyedById(books[0]) && SameTerms(books[0], final) && Snapshots(books[1..], final)
  {
    hide KeyedById, SameTerms;
    assert forall i | 0 <= i < |books[1..]| :: books[1..][i] == books[i + 1];
  }

  lemma ScanOne(books: seq<Book>, f: ListFilters, limit: nat, c: Cursor)
    requires limit >= 1 && books != [] && (forall i | 0 <= i < |books| :: KeyedById(books[i]))
    ensures KeyedById(books[0]) && (forall i | 0 <= i < |books[1..]| :: KeyedById(books[1..][i]))
    ensures var p := ListCursor(books[0], f, limit, c);
            Scan(books, f, limit, c) ==
            if p.next.Done? then Scanned(p.ids, true)
            else
              var rest := Scan(books[1..], f, limit, p.next.cursor);
              Scanned(p.ids + rest.ids, rest.complete)
  {
    assert KeyedById(books[0]);
    hide KeyedById, ListCursor;
  }

  /** Strictly newest first across all pages: no order twice, none out of place. */
  lemma {:induction false} ScanDescends(books: seq<Book>, final: Book, f: ListFilters, limit: nat, c: Cursor)
    requires limit >= 1 && Snapshots(books, final)
    ensures Descending(final, Scan(books, f, limit, c).ids, c)
    decreases |books|
  {
    if books == [] {
      hide KeyedById, ListCursor;
    } else {
      hide Scan, Snapshots, KeyedById, SameTerms, ListCursor, Descending, PageOk;
      SnapshotsTail(books, final);
      SnapshotsKeyed(books, final);
      ScanOne(books, f, limit, c);
      var p := ListCursor(books[0], f, limit, c);
      PageIsOk(books[0], f, limit, c);
      PageDescends(books[0], final, f, limit, c, p);
      if p.next.More? {
        ScanDescends(books[1..], final, f, limit, p.next.cursor);
        DescendingJoin(final, p.ids, Scan(books[1..], f, limit, p.next.cursor).ids, c);
      }
    }
  }

  /** The order is there, and matches, whenever a page is read. */
  ghost predicate Persistent(books: seq<Book>, f: ListFilters, id: OrderId) {
    forall i | 0 <= i < |books| :: id in books[i] && MatchesFilters(books[i][id], f)
  }

  lemma {:induction false} ScanFinds(books: seq<Book>, final: Book, f: ListFilters, limit: nat, c: Cursor, id: OrderId)
    requires limit >= 1 && Snapshots(books, final) && Scan(books, f, limit, c).complete
    requires Persistent(books, f, id) && id in final && AfterCursor(final[id].terms, c)
    ensures id in Scan(books, f, limit, c).ids
    decreases |books|
  {
    var p := ListCursor(books[0], f, limit, c);
    PageIsOk(books[0], f, limit, c);
    assert SameTerms(books[0], final) && id in Listed(books[0], f, c);
    if p.next.More? && id !in p.ids {
      ScanFinds(books[1..], final, f, limit, p.next.cursor, id);
    }
  }

  ghost predicate SometimeListed(books: seq<Book>, f: ListFilters, id: OrderId) {
    exists i | 0 <= i < |books| :: id in books[i] && MatchesFilters(books[i][id], f)
  }

  /** Every returned order matched the filters in some snapshot. */
  lemma {:induction false} ScanSound(books: seq<Book>, f: ListFilters, limit: nat, c: Cursor, id: OrderId)
    requires limit >= 1 && (forall i | 0 <= i < |books| :: KeyedById(books[i])) && id in Scan(books, f, limit, c).ids
    ensures SometimeListed(books, f, id)
    decreases |books|
  {
    assert KeyedById(books[0]);
    var p := ListCursor(books[0], f, limit, c);
    PageIsOk(books[0], f, limit, c);
    if id in p.ids {
      assert id in Listed(books[0], f, c);
    } else {
      ScanSound(books[1..], f, limit, p.next.cursor, id);
      var i :| 0 <= i < |books[1..]| && id in books[1..][i] && MatchesFilters(books[1..][i][id], f);
      assert books[i + 1] == books[1..][i];
    }
  }

  /** A page with a next cursor is full, and the scan goes on behind it. */
  lemma ScanStep(books: seq<Book>, f: ListFilters, limit: nat, c: Cursor)
    requires limit >= 1 && books != [] && (forall i | 0 <= i < |books| :: KeyedById(books[i])) && !Scan(books, f, limit, c).complete
    ensures KeyedById(books[0])
    ensures var p := ListCursor(books[0], f, limit, c);
            p.next.More? && |p.ids| == limit
            && Scan(books, f, limit, c) == var rest := Scan(books[1..], f, limit, p.next.cursor); Scanned(p.ids + rest.ids, rest.complete)
  {
    assert KeyedById(books[0]);
    PageIsOk(books[0], f, limit, c);
    hide ListCursor, KeyedById;
  }

  lemma {:induction false} UnfinishedIsFull(books: seq<Book>, f: ListFilters, limit: nat, c: Cursor)
    requires limit >= 1 && (forall i | 0 <= i < |books| :: KeyedById(books[i])) && !Scan(books, f, limit, c).complete
    ensures |Scan(books, f, limit, c).ids| == limit * |books|
    decreases |books|
  {
    if books != [] {
      hide ListCursor, Scan, KeyedById;
      ScanStep(books, f, limit, c);
      UnfinishedIsFull(books[1..], f, limit, ListCursor(books[0], f, limit, c).next.cursor);
      OneMorePage(limit, |books|);
    } else {
      hide ListCursor, KeyedById;
    }
  }

  lemma OneMorePage(limit: nat, pages: nat)
    requires pages > 0
    ensures limit * pages == limit + limit * (pages - 1)
  {
  }

  lemma {:induction false} DistinctFits(ids: seq<OrderId>, s: set<OrderId>)
    requires (forall i | 0 <= i < |ids| :: ids[i] in s) && (forall i, j | 0 <= i < j < |ids| :: ids[i] != ids[j])
    ensures |ids| <= |s|
    decreases |ids|
  {
    if ids != [] {
      DistinctFits(ids[1..], s - {ids[0]});
    }
  }

  lemma DescendingDistinct(final: Book, ids: seq<OrderId>, c: Cursor)
    requires Descending(final, ids, c)
    ensures forall i, j | 0 <= i < j < |ids| :: ids[i] != ids[j]
  {
  }

  /** No row that was inserted after the first page lies behind that page's cursor. */
  ghost predicate NewRowsAhead(books: seq<Book>, f: ListFilters, limit: nat, c: Cursor)
    requires limit >= 1 && books != [] && KeyedById(books[0])
  {
    var next := ListCursor(books[0], f, limit, c).next;
    next.More? ==>
      forall i, id | 0 <= i < |books| && id in books[i] && id !in books[0] :: !AfterCursor(books[i][id].terms, next.cursor)
  }

  /** A scan behind a cursor that new rows stay ahead of meets only rows of the first snapshot. */
  lemma ScanStaysInFirst(books: seq<Book>, final: Book, f: ListFilters, limit: nat, c: Cursor, id: OrderId)
    requires limit >= 1 && books != [] && Snapshots(books, final) && KeyedById(books[0]) && NewRowsAhead(books, f, limit, c)
    requires id in Scan(books, f, limit, c).ids
    ensures id in books[0]
  {
    SnapshotsTail(books, final);
    SnapshotsKeyed(books, final);
    ScanOne(books, f, limit, c);
    hide Scan, ListCursor, MatchesFilters, AfterCursor, KeyedById;
    var p := ListCursor(books[0], f, limit, c);
    if id in p.ids {
      PageIsOk(books[0], f, limit, c);
      assert id in Listed(books[0], f, c);
    } else {
      var rest := Scan(books[1..], f, limit, p.next.cursor).ids;
      assert id in rest;
      ScanDescends(books[1..], final, f, limit, p.next.cursor);
      assert AfterCursor(final[id].terms, p.next.cursor);
      ScanSound(books[1..], f, limit, p.next.cursor, id);
      var i :| 0 <= i < |books[1..]| && id in books[1..][i] && MatchesFilters(books[1..][i][id], f);
      assert books[1..][i] == books[i + 1] && SameTerms(books[i + 1], final);
    }
  }

  /** The scan ends, however many orders are placed while it runs: it never needs more full
      pages than the first snapshot has rows for. */
  lemma ScanEnds(books: seq<Book>, final: Book, f: ListFilters, limit: nat, c: Cursor)
    requires limit >= 1 && books != [] && Snapshots(books, final) && KeyedById(books[0]) && NewRowsAhead(books, f, limit, c)
    requires limit * |books| > |books[0].Keys|
    ensures Scan(books, f, limit, c).complete
  {
    hide Scan, ListCursor, NewRowsAhead, KeyedById, AfterCursor;
    if !Scan(books, f, limit, c).complete {
      var ids := Scan(books, f, limit, c).ids;
      ScanDescends(books, final, f, limit, c);
      forall i | 0 <= i < |ids| ensures ids[i] in books[0].Keys {
        ScanStaysInFirst(books, final, f, limit, c, ids[i]);
      }
      DescendingDistinct(final, ids, c);
      DistinctFits(ids, books[0].Keys);
      UnfinishedIsFull(books, f, limit, c);
    }
  }

  /** Even when rows are inserted behind the cursor, the scan ends within the final table. */
  lemma ScanEndsWithinFinal(books: seq<Book>, final: Book, f: ListFilters, limit: nat, c: Cursor)
    requires limit >= 1 && Snapshots(books, final) && limit * |books| > |final.Keys|
    ensures Scan(books, f, limit, c).complete
  {
    if !Scan(books, f, limit, c).complete {
      UnfinishedIsFull(books, f, limit, c);
      ScanDescends(books, final, f, limit, c);
      DistinctFits(Scan(books, f, limit, c).ids, final.Keys);
    }
  }

  // ----- scanning a running exchange -----

  /** The books a reader meets when `between[i]` is executed after page `i`. */
  ghost function BooksDuring(st: State, between: seq<seq<Op>>): (books: seq<Book>)
    requires Inv(st)
    ensures books != [] && books[0] == st.orders && forall i | 0 <= i < |books| :: KeyedById(books[i])
    decreases |between|
  {
    [st.orders] + if between == [] then [] else BooksDuring(Run(st, between[0]), between[1..])
  }

  ghost function StateAfter(st: State, between: seq<seq<Op>>): State
    requires Inv(st)
    decreases |between|
  {
    if between == [] then st else StateAfter(Run(st, between[0]), between[1..])
  }

  lemma {:induction false} RunKeepsTerms(st: State, ops: seq<Op>)
    requires Inv(st)
    ensures SameTerms(st.orders, Run(st, ops).orders)
    decreases |ops|
  {
    if ops != [] {
      NextInv(st, ops[0]);
      RunKeepsTerms(Next(st, ops[0]), ops[1..]);
      assert forall id | id in st.orders :: Advances(st.orders[id], Next(st, ops[0]).orders[id]);
    }
  }

  lemma {:induction false} RunSnapshots(st: State, between: seq<seq<Op>>)
    requires Inv(st)
    ensures Snapshots(BooksDuring(st, between), StateAfter(st, between).orders)
    ensures SameTerms(st.orders, StateAfter(st, between).orders)
    decreases |between|
  {
    if between != [] {
      var next := Run(st, between[0]);
      RunKeepsTerms(st, between[0]);
      RunSnapshots(next, between[1..]);
      assert BooksDuring(st, between)[1..] == BooksDuring(next, between[1..]);
    }
  }

  /** Whatever the exchange does between the pages: a scan that reaches its last page has
      returned every order that matched throughout exactly once, strictly newest first. */
  lemma EveryOrderOnce(st: State, between: seq<seq<Op>>, f: ListFilters, limit: nat, id: OrderId)
    requires Inv(st) && limit >= 1
    requires Scan(BooksDuring(st, between), f, limit, First).complete && Persistent(BooksDuring(st, between), f, id)
    ensures var ids := Scan(BooksDuring(st, between), f, limit, First).ids;
            && Descending(StateAfter(st, between).orders, ids, First)
            && exists i | 0 <= i < |ids| :: ids[i] == id && forall j | 0 <= j < |ids| && j != i :: ids[j] != id
  {
    var books, final := BooksDuring(st, between), StateAfter(st, between).orders;
    RunSnapshots(st, between);
    ScanDescends(books, final, f, limit, First);
    assert books[0] == st.orders && SameTerms(books[0], final);
    ScanFinds(books, final, f, limit, First, id);
    var ids := Scan(books, f, limit, First).ids;
    var i :| 0 <= i < |ids| && ids[i] == id;
    forall j | 0 <= j < |ids| && j != i ensures ids[j] != id {
      assert j < i ==> Newer(final[ids[j]].terms, final[ids[i]].terms);
      assert i < j ==> Newer(final[ids[i]].terms, final[ids[j]].terms);
    }
  }

  /** In the columns' own terms: whatever the exchange does between the pages, a returned order
      agreed with every filter that is set when some page was read. */
  lemma ReturnedAgree(st: State, between: seq<seq<Op>>, f: ListFilters, limit: nat, id: OrderId)
    requires Inv(st) && limit >= 1 && id in Scan(BooksDuring(st, between), f, limit, First).ids
    ensures var books := BooksDuring(st, between);
            exists i | 0 <= i < |books| ::
              && id in books[i]
              && var o := books[i][id];
                 (f.merchant.Only? ==> o.terms.merchant == f.merchant.value) && (f.user.Only? ==> o.terms.user == f.user.value)
                 && (f.market.Only? ==> o.terms.market == f.market.value) && (f.status.Only? ==> o.status == f.status.value)
  {
    var books := BooksDuring(st, between);
    hide Inv, Scan, MatchesFilters;
    ScanSound(books, f, limit, First, id);
    var i :| 0 <= i < |books| && id in books[i] && MatchesFilters(books[i][id], f);
    FiltersMean(books[i][id], f);
    assert id in books[i];
  }

  /** An order that agreed with them whenever a page was read is returned exactly once by a scan
      that reaches its last page. */
  lemma AgreeingReturnedOnce(st: State, between: seq<seq<Op>>, f: ListFilters, limit: nat, id: OrderId)
    requires Inv(st) && limit >= 1 && Scan(BooksDuring(st, between), f, limit, First).complete
    requires var books := BooksDuring(st, between);
             forall i | 0 <= i < |books| ::
               && id in books[i]
               && var o := books[i][id];
                  (f.merchant.Only? ==> o.terms.merchant == f.merchant.value) && (f.user.Only? ==> o.terms.user == f.user.value)
                  && (f.market.Only? ==> o.terms.market == f.market.value) && (f.status.Only? ==> o.status == f.status.value)
    ensures var ids := Scan(BooksDuring(st, between), f, limit, First).ids;
            exists k | 0 <= k < |ids| :: ids[k] == id && forall j | 0 <= j < |ids| && j != k :: ids[j] != id
  {
    var books := BooksDuring(st, between);
    hide Inv, Scan, MatchesFilters;
    forall i | 0 <= i < |books| ensures id in books[i] && MatchesFilters(books[i][id], f) {
      FiltersMean(books[i][id], f);
    }
    EveryOrderOnce(st, between, f, limit, id);
  }

  /** Later creation first, and of one moment the larger identifier. */
  lemma ReturnedNewestFirst(st: State, between: seq<seq<Op>>, f: ListFilters, limit: nat)
    requires Inv(st) && limit >= 1
    ensures var ids, final := Scan(BooksDuring(st, between), f, limit, First).ids, StateAfter(st, between).orders;
            forall i, j | 0 <= i < j < |ids| ::
              && ids[i] in final && ids[j] in final
              && var a, b := final[ids[i]].terms, final[ids[j]].terms;
                 a.createdAt > b.createdAt || (a.createdAt == b.createdAt && ids[i] > ids[j])
  {
    var books, final := BooksDuring(st, between), StateAfter(st, between).orders;
    RunSnapshots(st, between);
    ScanDescends(books, final, f, limit, First);
    hide Inv, Scan, Snapshots;
  }

  // ----- the clock moves on between the pages -----

  /** Rows of `orders` that `base` does not have were created after all of `base`. */
  ghost predicate AllNewer(base: Book, orders: Book) {
    forall id, x | id in orders && id !in base && x in base :: base[x].terms.createdAt < orders[id].terms.createdAt
  }

  /** A placement carries the current time, later than everything stored when the scan began. */
  predicate PlacedLater(base: Book, op: Op) {
    op.OpPlace? ==> forall x | x in base :: base[x].terms.createdAt < op.terms.createdAt
  }

  lemma NextRows(st: State, op: Op)
    requires Inv(st)
    ensures var r := Next(st, op).orders;
            r.Keys == st.orders.Keys || (op.OpPlace? && r.Keys == st.orders.Keys + {op.terms.id} && r[op.terms.id].terms == op.terms)
    ensures SameTerms(st.orders, Next(st, op).orders)
  {
    RunKeepsTermsStep(st, op);
    if Accepted(op) && Attempt(st, op).Success? {
      match op
      case OpPlace(terms) => var m := PlaceEffect(st, terms);
      case OpSettle(m, e, winner) => if Settles(st, m, e, winner) { var ids, paid := SettleEffect(st, m, e, winner); }
      case _ =>
    }
  }

  lemma RunKeepsTermsStep(st: State, op: Op)
    requires Inv(st)
    ensures SameTerms(st.orders, Next(st, op).orders)
  {
    NextInv(st, op);
    assert forall id | id in st.orders :: Advances(st.orders[id], Next(st, op).orders[id]);
  }

  lemma {:induction false} RunNewer(base: Book, st: State, ops: seq<Op>)
    requires Inv(st) && AllNewer(base, st.orders) && forall i | 0 <= i < |ops| :: PlacedLater(base, ops[i])
    ensures AllNewer(base, Run(st, ops).orders)
    decreases |ops|
  {
    if ops != [] {
      NextInv(st, ops[0]);
      NextRows(st, ops[0]);
      assert PlacedLater(base, ops[0]);
      RunNewer(base, Next(st, ops[0]), ops[1..]);
    }
  }

  lemma {:induction false} BooksNewer(base: Book, st: State, between: seq<seq<Op>>, i: nat)
    requires Inv(st) && AllNewer(base, st.orders) && i < |BooksDuring(st, between)|
    requires forall j, k | 0 <= j < |between| && 0 <= k < |between[j]| :: PlacedLater(base, between[j][k])
    ensures AllNewer(base, BooksDuring(st, between)[i])
    decreases |between|
  {
    if i > 0 {
      RunNewer(base, st, between[0]);
      BooksNewer(base, Run(st, between[0]), between[1..], i - 1);
    }
  }

  lemma RunRowsAhead(st: State, between: seq<seq<Op>>, f: ListFilters, limit: nat)
    requires Inv(st) && limit >= 1
    requires forall j, k | 0 <= j < |between| && 0 <= k < |between[j]| :: PlacedLater(st.orders, between[j][k])
    ensures KeyedById(BooksDuring(st, between)[0]) && NewRowsAhead(BooksDuring(st, between), f, limit, First)
  {
    var books := BooksDuring(st, between);
    assert KeyedById(books[0]);
    PageIsOk(books[0], f, limit, First);
    hide ListCursor, Inv;
    forall i, id | 0 <= i < |books| && id in books[i] && id !in books[0] && ListCursor(books[0], f, limit, First).next.More?
      ensures !AfterCursor(books[i][id].terms, ListCursor(books[0], f, limit, First).next.cursor)
    {
      BooksNewer(st.orders, st, between, i);
    }
  }

  /** While the exchange runs and its clock moves on, a scan with any limit reaches its last
      page, whatever is placed between the pages. */
  lemma ScanOfRunEnds(st: State, between: seq<seq<Op>>, f: ListFilters, limit: nat)
    requires Inv(st) && limit >= 1 && limit * |BooksDuring(st, between)| > |st.orders.Keys|
    requires forall j, k | 0 <= j < |between| && 0 <= k < |between[j]| :: PlacedLater(st.orders, between[j][k])
    ensures Scan(BooksDuring(st, between), f, limit, First).complete
  {
    RunSnapshots(st, between);
    RunRowsAhead(st, between, f, limit);
    hide NewRowsAhead, Inv, Snapshots, Scan, ListCursor;
    ScanEnds(BooksDuring(st, between), StateAfter(st, between).orders, f, limit, First);
  }
}
