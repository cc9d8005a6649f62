/** Keyset paging of predictions by (createdAt, id), newest first. */
module PredictionPaging {
  import opened Wrappers
  import opened Sequences
  import opened Strings
  import Cursor

  /** A joined prediction row; `createdAt` is in microseconds, as the database stores it. */
  datatype Row =
    Row(id: string, userId: string, marketId: string, status: string, outcome: string, createdAt: int, rest: string)

  datatype Filters = Filters(marketId: Option<string>, status: Option<string>, outcome: Option<string>)

  /** A decoded cursor: a time in whole milliseconds and the tie-breaker. */
  datatype PageKey = PageKey(time: int, id: string)

  datatype Page = Page(data: seq<Row>, nextCursor: Option<PageKey>)

  /** The opaque token: `iso` prints the time, as `toISOString` does. */
  function Token(key: PageKey, iso: int -> string): (token: string) {
    Cursor.Encode(Cursor.CursorKey(iso(key.time), key.id))
  }

  /** The key a token stands for; anything undecodable starts from the first page. */
  function FromToken(token: string, parse: string -> int): (key: Option<PageKey>) {
    var k := Cursor.Decode(token);
    if k.None? then None else Some(PageKey(parse(k.value.sortValue), k.value.id))
  }

  /** Passing the token is passing the key, for printed times that parse back and non-empty ids. */
  lemma TokenRoundTrip(key: PageKey, iso: int -> string, parse: string -> int)
    requires iso(key.time) != "" && parse(iso(key.time)) == key.time && key.id != ""
    ensures FromToken(Token(key, iso), parse) == Some(key)
  {
    Cursor.RoundTrip(Cursor.CursorKey(iso(key.time), key.id));
  }

  /** A JavaScript date keeps milliseconds only. */
  function ToMillis(t: int): (ms: int)
    ensures ms <= t < ms + 1000
  {
    t / 1000 * 1000
  }

  // ---------------------------------------------------------------------
  // One page
  // ---------------------------------------------------------------------

  predicate Passes(wanted: Option<string>, value: string) { OrElse(wanted, "") == "" || wanted == Some(value) }

  predicate Matches(user: string, f: Filters, r: Row) {
    r.userId == user && Passes(f.marketId, r.marketId) && Passes(f.status, r.status) && Passes(f.outcome, r.outcome)
  }

  /** The keyset condition. */
  predicate AfterCursor(c: Option<PageKey>, r: Row) {
    c.None? || r.createdAt < c.value.time || (r.createdAt == c.value.time && StrLess(r.id, c.value.id))
  }

  function Wanted(user: string, f: Filters, c: Option<PageKey>): (p: Row -> bool) {
    (r: Row) => Matches(user, f, r) && AfterCursor(c, r)
  }

  /** `orderBy(desc(createdAt), desc(id))` */
  predicate NotLater(r: Row, s: Row) { r.createdAt > s.createdAt || (r.createdAt == s.createdAt && StrLeq(s.id, r.id)) }

  function Query(table: seq<Row>, user: string, f: Filters, c: Option<PageKey>): (rows: seq<Row>) {
    Sort(Filter(table, Wanted(user, f, c)), NotLater)
  }

  function Take(rows: seq<Row>, n: nat): (r: seq<Row>) { if |rows| <= n then rows else rows[..n] }

  /** `listPredictions`, with its limit + 1 query. */
  function ListPredictions(table: seq<Row>, user: string, f: Filters, limit: nat, c: Option<PageKey>): (p: Page) {
    Cut(Query(table, user, f, c), limit)
  }

  /** One row more than the page shows tells whether there is a next one. */
  function Cut(sorted: seq<Row>, limit: nat): (p: Page) {
    var rows := Take(sorted, limit + 1);
    var hasMore, data := |rows| > limit, Take(rows, limit);
    Page(data, if hasMore && data != [] then Some(CursorOf(data[|data| - 1])) else None)
  }

  function CursorOf(r: Row): (c: PageKey) { PageKey(ToMillis(r.createdAt), r.id) }

  /** Comes strictly earlier in the listing. */
  predicate Precedes(r: Row,
                     s: Row) { r.createdAt > s.createdAt || (r.createdAt == s.createdAt && StrLess(s.id, r.id)) }

  ghost predicate IdsDiffer(table: seq<Row>) { forall i, j :: 0 <= i < j < |table| ==> table[i].id != table[j].id }

  lemma NotLaterOrder()
    ensures TotalPreorder(NotLater)
  {
    forall r, s ensures NotLater(r, s) || NotLater(s, r) {
      StrLessTotal(r.id, s.id);
    }
    forall r, s, t | NotLater(r, s) && NotLater(s, t) ensures NotLater(r, t) {
      if StrLess(t.id, s.id) && StrLess(s.id, r.id) {
        StrLessTransitive(t.id, s.id, r.id);
      }
    }
  }

  lemma PrecedesTransitive(r: Row, s: Row, t: Row)
    requires Precedes(r, s) && Precedes(s, t)
    ensures Precedes(r, t)
  {
    if StrLess(t.id, s.id) && StrLess(s.id, r.id) {
      StrLessTransitive(t.id, s.id, r.id);
    }
  }

  lemma {:induction false} FilterIds(table: seq<Row>, p: Row -> bool)
    requires IdsDiffer(table)
    ensures IdsDiffer(Filter(table, p))
  {
    if table != [] {
      var init, last := table[..|table| - 1], table[|table| - 1];
      FilterIds(init, p);
      forall i | 0 <= i < |Filter(init, p)| ensures Filter(init, p)[i].id != last.id {
        FilterMember(init, p, Filter(init, p)[i]);
        assert Filter(init, p)[i] in Filter(init, p);
      }
    }
  }

  lemma SortIds(s: seq<Row>)
    requires IdsDiffer(s)
    ensures IdsDiffer(Sort(s, NotLater))
  {
    var t := Sort(s, NotLater);
    forall i, j | 0 <= i < j < |t| ensures t[i].id != t[j].id {
      if t[i] == t[j] {
        RepeatCounts(t, i, j);
        DistinctMultiset(s, t[i]);
      } else {
        assert t[i] in multiset(s) && t[j] in multiset(s);
        var m :| 0 <= m < |s| && s[m] == t[i];
        var n :| 0 <= n < |s| && s[n] == t[j];
      }
    }
  }

  /** The query returns exactly the wanted rows, in strict listing order. */
  lemma QuerySpec(table: seq<Row>, user: string, f: Filters, c: Option<PageKey>)
    requires IdsDiffer(table)
    ensures var rows := Query(table, user, f, c);
      && (forall r :: r in rows <==> r in table && Matches(user, f, r) && AfterCursor(c, r))
      && Ordered(rows, Precedes)
  {
    var w := Wanted(user, f, c);
    var kept, rows := Filter(table, w), Query(table, user, f, c);
    forall r ensures r in rows <==> r in table && w(r) {
      SortMember(kept, NotLater, r);
      FilterMember(table, w, r);
    }
    NotLaterOrder();
    SortOrdered(kept, NotLater);
    FilterIds(table, w);
    SortIds(kept);
    forall i, j | 0 <= i < j < |rows| ensures Precedes(rows[i], rows[j]) {
      assert NotLater(rows[i], rows[j]) && rows[i].id != rows[j].id;
    }
  }

  /** A cursor never lets a row at or before the last one through again. */
  lemma CursorBehind(last: Row, r: Row)
    requires AfterCursor(Some(CursorOf(last)), r)
    ensures Precedes(last, r)
  {
  }

  /** It lets every later row through exactly when its time is a whole millisecond. */
  lemma CursorExact(last: Row)
    ensures (forall r :: Precedes(last, r) ==> AfterCursor(Some(CursorOf(last)), r)) <==> last.createdAt % 1000 == 0
  {
    if last.createdAt % 1000 != 0 {
      var r := last.(createdAt := last.createdAt - 1, id := last.id + "0");
      assert last.id + "0" != last.id;
      NotLess(last.id);
      assert Precedes(last, r) && !AfterCursor(Some(CursorOf(last)), r);
    }
  }

  lemma {:induction false} NotLess(id: string)
    ensures !StrLess(id + "0", id)
  {
    if id != "" {
      NotLess(id[1..]);
      assert (id + "0")[1..] == id[1..] + "0";
    }
  }

  // ---------------------------------------------------------------------
  // What a page promises
  // ---------------------------------------------------------------------

  /** The cursor made from `r` would skip the later row `s`. */
  predicate Skips(r: Row, s: Row) { Precedes(r, s) && !AfterCursor(Some(CursorOf(r)), s) }

  /** No matching row's cursor would skip another matching row. */
  ghost predicate NoneSkipped(table: seq<Row>, user: string, f: Filters) {
    forall r, s :: r in table && s in table && Matches(user, f, r) && Matches(user, f, s) ==> !Skips(r, s)
  }

  /** A skip needs two rows of one millisecond, the first of them past its start. */
  lemma SkipsExactly(r: Row, s: Row)
    ensures Skips(r, s) <==>
            && Precedes(r, s) && ToMillis(s.createdAt) == ToMillis(r.createdAt) && r.createdAt % 1000 != 0
            && !(s.createdAt == ToMillis(s.createdAt) && StrLess(s.id, r.id))
  {
  }

  /** So whole milliseconds are enough, and so is at most one row per millisecond. */
  lemma SafeTimes(table: seq<Row>, user: string, f: Filters)
    requires
      || (forall r :: r in table ==> r.createdAt % 1000 == 0)
      || (forall r, s :: r in table && s in table && ToMillis(r.createdAt) == ToMillis(s.createdAt) ==> r == s)
    ensures NoneSkipped(table, user, f)
  {
    forall r, s | r in table && s in table ensures !Skips(r, s) {
      SkipsExactly(r, s);
      StrLessTotal(r.id, s.id);
    }
  }

  /**
   * Matching rows after the cursor, in strict listing order; a next cursor only on a full page, made from its
   * last row.
   */
  ghost predicate PageOk(table: seq<Row>, user: string, f: Filters, limit: nat, c: Option<PageKey>, p: Page) {
    && Ordered(p.data, Precedes) && |p.data| <= limit
    && (forall r :: r in p.data ==> r in table && Matches(user, f, r) && AfterCursor(c, r))
    && (p.nextCursor.Some? ==> |p.data| == limit > 0 && p.nextCursor == Some(CursorOf(p.data[limit - 1])))
  }

  lemma PageSpec(table: seq<Row>, user: string, f: Filters, limit: nat, c: Option<PageKey>)
    requires IdsDiffer(table)
    ensures PageOk(table, user, f, limit, c, ListPredictions(table, user, f, limit, c))
  {
    QuerySpec(table, user, f, c);
  }

  /** No value, an empty value or the row's own. */
  predicate Admits(wanted: Option<string>, value: string) { wanted in {None, Some(""), Some(value)} }

  /** One of the caller's rows that agrees with every given non-empty filter and comes after the cursor. */
  predicate Listed(user: string, f: Filters, c: Option<PageKey>, r: Row) {
    && r.userId == user
    && Admits(f.marketId, r.marketId) && Admits(f.status, r.status) && Admits(f.outcome, r.outcome)
    && (c.Some? ==> r.createdAt < c.value.time || (r.createdAt == c.value.time && StrLess(r.id, c.value.id)))
  }

  /** Newest first, then by descending id. */
  ghost predicate NewestFirst(rows: seq<Row>) {
    forall i, j :: 0 <= i < j < |rows| ==>
      || rows[i].createdAt > rows[j].createdAt
      || (rows[i].createdAt == rows[j].createdAt && StrLess(rows[j].id, rows[i].id))
  }

  lemma ListedExactly(user: string, f: Filters, c: Option<PageKey>, r: Row)
    ensures Listed(user, f, c, r) <==> Matches(user, f, r) && AfterCursor(c, r)
  {
  }

  /** The first `limit` rows, and a cursor from the last of them exactly when more remain. */
  lemma CutExactly(rows: seq<Row>, limit: nat)
    ensures Cut(rows, limit).data == rows[..if |rows| < limit then |rows| else limit]
    ensures Cut(rows, limit).nextCursor.Some? <==> 0 < limit < |rows|
    ensures 0 < limit < |rows| ==>
              Cut(rows, limit).nextCursor ==
              Some(PageKey(rows[limit - 1].createdAt / 1000 * 1000, rows[limit - 1].id))
  {
  }

  /**
   * A page, column by column: the first `limit` of the caller's rows that agree with every given non-empty filter and
   * come after the cursor, newest first and then by descending id; a next cursor exactly when rows remain.
   */
  lemma PageExactly(table: seq<Row>, user: string, f: Filters, limit: nat, c: Option<PageKey>) returns (rows: seq<Row>)
    requires IdsDiffer(table)
    ensures (forall r :: r in rows <==> r in table && Listed(user, f, c, r)) && NewestFirst(rows)
    ensures
      var p := ListPredictions(table, user, f, limit, c);
      && p.data == rows[..if |rows| < limit then |rows| else limit]
      && (p.nextCursor.Some? <==> 0 < limit < |rows|)
      && (0 < limit < |rows| ==>
            p.nextCursor == Some(PageKey(rows[limit - 1].createdAt / 1000 * 1000, rows[limit - 1].id)))
  {
    QuerySpec(table, user, f, c);
    rows := Query(table, user, f, c);
    forall r ensures r in rows <==> r in table && Listed(user, f, c, r) {
      ListedExactly(user, f, c, r);
    }
    DescendingExactly(rows);
    CutExactly(rows, limit);
  }

  lemma DescendingExactly(rows: seq<Row>)
    requires Ordered(rows, Precedes)
    ensures NewestFirst(rows)
  {
    forall i, j | 0 <= i < j < |rows|
      ensures rows[i].createdAt > rows[j].createdAt ||
              (rows[i].createdAt == rows[j].createdAt && StrLess(rows[j].id, rows[i].id))
    {
      assert Precedes(rows[i], rows[j]);
    }
  }

  /** A wanted row is on the page, or it is after the next cursor. */
  ghost predicate Kept(c: Option<PageKey>, p: Page, r: Row) {
    AfterCursor(c, r) ==> r in p.data || (p.nextCursor.Some? && AfterCursor(p.nextCursor, r))
  }

  lemma PageKeeps(table: seq<Row>, user: string, f: Filters, limit: nat, c: Option<PageKey>, r: Row)
    requires IdsDiffer(table) && NoneSkipped(table, user, f) && limit >= 1 && r in table && Matches(user, f, r)
    ensures Kept(c, ListPredictions(table, user, f, limit, c), r)
  {
    QuerySpec(table, user, f, c);
    var rows := Query(table, user, f, c);
    if AfterCursor(c, r) {
      FirstRows(rows, limit, c, r);
    }
  }

  lemma FirstRows(rows: seq<Row>, limit: nat, c: Option<PageKey>, r: Row)
    requires Ordered(rows, Precedes) && limit >= 1 && r in rows && forall x :: x in rows ==> !Skips(x, r)
    ensures Kept(c, Cut(rows, limit), r)
  {
    var i :| 0 <= i < |rows| && rows[i] == r;
    if i >= limit {
      assert rows[limit - 1] in rows && Precedes(rows[limit - 1], rows[i]);
    }
  }

  // ---------------------------------------------------------------------
  // Following the cursor while the table changes
  // ---------------------------------------------------------------------

  /** One read: a table and a cursor to a page. */
  type Pager = (seq<Row>, Option<PageKey>) -> Page

  function Lister(user: string, f: Filters, limit: nat): (pager: Pager) {
    (table: seq<Row>, c: Option<PageKey>) => ListPredictions(table, user, f, limit, c)
  }

  /** Everything returned by following `nextCursor`; read number i sees `tables[i]`. */
  function Walk(tables: seq<seq<Row>>, pager: Pager, c: Option<PageKey>): (out: seq<Row>)
    decreases |tables|
  {
    if tables == [] then []
    else
      var p := pager(tables[0], c);
      if p.nextCursor.None? then p.data else p.data + Walk(tables[1..], pager, p.nextCursor)
  }

  /** The walk reaches a null cursor. */
  predicate Finished(tables: seq<seq<Row>>, pager: Pager, c: Option<PageKey>)
    decreases |tables|
  {
    tables != [] &&
    var next := pager(tables[0], c).nextCursor;
    next.None? || Finished(tables[1..], pager, next)
  }

  ghost predicate AllIdsDiffer(tables: seq<seq<Row>>) { forall i :: 0 <= i < |tables| ==> IdsDiffer(tables[i]) }

  ghost predicate PagerOk(pager: Pager, user: string, f: Filters, limit: nat) {
    forall table, c :: IdsDiffer(table) ==> PageOk(table, user, f, limit, c, pager(table, c))
  }

  /** Pages that lose no row of a table without skips. */
  ghost predicate PagerKeeps(pager: Pager, user: string, f: Filters) {
    forall table, c, r ::
      IdsDiffer(table) && NoneSkipped(table, user, f) && r in table && Matches(user, f, r) ==>
        Kept(c, pager(table, c), r)
  }

  lemma ListerOk(user: string, f: Filters, limit: nat)
    ensures PagerOk(Lister(user, f, limit), user, f, limit)
  {
    forall table, c | IdsDiffer(table) ensures PageOk(table, user, f, limit, c, Lister(user, f, limit)(table, c)) {
      PageSpec(table, user, f, limit, c);
    }
  }

  lemma ListerKeeps(user: string, f: Filters, limit: nat)
    requires limit >= 1
    ensures PagerKeeps(Lister(user, f, limit), user, f)
  {
    forall table, c, r | IdsDiffer(table) && NoneSkipped(table, user, f) && r in table && Matches(user, f, r)
      ensures Kept(c, Lister(user, f, limit)(table, c), r)
    {
      PageKeeps(table, user, f, limit, c, r);
    }
  }

  lemma {:induction false} PagesDescend(tables: seq<seq<Row>>, pager: Pager, user: string, f: Filters, limit: nat,
                                        c: Option<PageKey>)
    requires PagerOk(pager, user, f, limit) && AllIdsDiffer(tables)
    ensures Ordered(Walk(tables, pager, c), Precedes)
    ensures forall r :: r in Walk(tables, pager, c) ==> Matches(user, f, r) && AfterCursor(c, r)
    decreases |tables|
  {
    if tables != [] {
      var p := pager(tables[0], c);
      assert PageOk(tables[0], user, f, limit, c, p);
      if p.nextCursor.Some? {
        PagesDescend(tables[1..], pager, user, f, limit, p.nextCursor);
        JoinPages(p.data, Walk(tables[1..], pager, p.nextCursor), c);
      }
    }
  }

  lemma JoinPages(data: seq<Row>, rest: seq<Row>, c: Option<PageKey>)
    requires data != [] && Ordered(data, Precedes) && Ordered(rest, Precedes)
    requires forall r :: r in data ==> AfterCursor(c, r)
    requires forall r :: r in rest ==> AfterCursor(Some(CursorOf(data[|data| - 1])), r)
    ensures Ordered(data + rest, Precedes)
    ensures forall r :: r in rest ==> AfterCursor(c, r)
  {
    var last := data[|data| - 1];
    forall i, j | 0 <= i < |data| && 0 <= j < |rest| ensures Precedes(data[i], rest[j]) {
      assert rest[j] in rest;
      CursorBehind(last, rest[j]);
      if i < |data| - 1 {
        PrecedesTransitive(data[i], last, rest[j]);
      }
    }
    forall r | r in rest ensures AfterCursor(c, r) {
      CursorBehind(last, r);
      assert last in data;
      StillAfter(c, last, r);
    }
  }

  lemma StillAfter(c: Option<PageKey>, r: Row, s: Row)
    requires AfterCursor(c, r) && Precedes(r, s)
    ensures AfterCursor(c, s)
  {
    if c.Some? && r.createdAt == s.createdAt == c.value.time {
      StrLessTransitive(s.id, r.id, c.value.id);
    }
  }

  /** Whatever happens to the table between reads, and whatever the timestamps: the walk is strictly descending. */
  lemma WalkDescends(tables: seq<seq<Row>>, user: string, f: Filters, limit: nat, c: Option<PageKey>)
    requires AllIdsDiffer(tables)
    ensures Ordered(Walk(tables, Lister(user, f, limit), c), Precedes)
    ensures forall r :: r in Walk(tables, Lister(user, f, limit), c) ==> Matches(user, f, r) && AfterCursor(c, r)
  {
    ListerOk(user, f, limit);
    PagesDescend(tables, Lister(user, f, limit), user, f, limit, c);
  }

  /** So no row is returned twice. */
  lemma NoRowTwice(tables: seq<seq<Row>>, user: string, f: Filters, limit: nat, c: Option<PageKey>, i: nat, j: nat)
    requires AllIdsDiffer(tables) && i < j < |Walk(tables, Lister(user, f, limit), c)|
    ensures
      var out := Walk(tables, Lister(user, f, limit), c);
      (out[i].createdAt, out[i].id) != (out[j].createdAt, out[j].id)
  {
    WalkDescends(tables, user, f, limit, c);
    StrictlyApart(Walk(tables, Lister(user, f, limit), c), i, j);
  }

  lemma StrictlyApart(out: seq<Row>, i: nat, j: nat)
    requires Ordered(out, Precedes) && i < j < |out|
    ensures (out[i].createdAt, out[i].id) != (out[j].createdAt, out[j].id)
  {
    assert Precedes(out[i], out[j]);
    StrLessTotal(out[j].id, out[i].id);
  }

  /** A matching row with this key is in the table. */
  ghost predicate Present(table: seq<Row>, user: string, f: Filters, t: int, id: string) {
    exists r :: r in table && r.createdAt == t && r.id == id && Matches(user, f, r)
  }

  ghost predicate Returned(out: seq<Row>, t: int, id: string) { exists r :: r in out && r.createdAt == t && r.id == id }

  lemma ReturnedLater(data: seq<Row>, rest: seq<Row>, t: int, id: string)
    requires Returned(rest, t, id)
    ensures Returned(data + rest, t, id)
  {
    var r :| r in rest && r.createdAt == t && r.id == id;
    assert r in data + rest;
  }

  lemma {:induction false} PagesComplete(tables: seq<seq<Row>>, pager: Pager, user: string, f: Filters,
                                         c: Option<PageKey>, t: int, id: string)
    requires PagerKeeps(pager, user, f) && AllIdsDiffer(tables) && Finished(tables, pager, c)
    requires forall i :: 0 <= i < |tables| ==> NoneSkipped(tables[i], user, f) && Present(tables[i], user, f, t, id)
    requires c.None? || t < c.value.time || (t == c.value.time && StrLess(id, c.value.id))
    ensures Returned(Walk(tables, pager, c), t, id)
    decreases |tables|
  {
    var p := pager(tables[0], c);
    var r :| r in tables[0] && r.createdAt == t && r.id == id && Matches(user, f, r);
    assert Kept(c, p, r);
    if r in p.data {
      assert r in Walk(tables, pager, c);
    } else {
      PagesComplete(tables[1..], pager, user, f, p.nextCursor, t, id);
      ReturnedLater(p.data, Walk(tables[1..], pager, p.nextCursor), t, id);
    }
  }

  /** Every row that is present and matching at every read is returned, when no table has a row that a cursor skips. */
  lemma WalkComplete(tables: seq<seq<Row>>, user: string, f: Filters, limit: nat, c: Option<PageKey>, t: int,
                     id: string)
    requires AllIdsDiffer(tables) && limit >= 1 && Finished(tables, Lister(user, f, limit), c)
    requires forall i :: 0 <= i < |tables| ==> NoneSkipped(tables[i], user, f) && Present(tables[i], user, f, t, id)
    requires c.None? || t < c.value.time || (t == c.value.time && StrLess(id, c.value.id))
    ensures Returned(Walk(tables, Lister(user, f, limit), c), t, id)
  {
    ListerKeeps(user, f, limit);
    PagesComplete(tables, Lister(user, f, limit), user, f, c, t, id);
  }

  // ---------------------------------------------------------------------
  // A fixed table
  // ---------------------------------------------------------------------

  function Same(table: seq<Row>, n: nat): (tables: seq<seq<Row>>) { seq(n, i => table) }

  /** One read of a fixed table. */
  lemma SameStep(table: seq<Row>, pager: Pager, c: Option<PageKey>, n: nat)
    requires n > 0
    ensures var p := pager(table, c);
      && Walk(Same(table, n), pager, c) ==
         (if p.nextCursor.None? then p.data else p.data + Walk(Same(table, n - 1), pager, p.nextCursor))
      && (Finished(Same(table, n), pager, c) <==>
        p.nextCursor.None? || Finished(Same(table, n - 1), pager, p.nextCursor))
  {
    assert Same(table, n)[1..] == Same(table, n - 1);
  }

  /** The number of matching rows after the cursor. */
  function Remaining(table: seq<Row>, user: string, f: Filters, c: Option<PageKey>): (n: nat) {
    |Filter(table, Wanted(user, f, c))|
  }

  /** Each page that is not the last uses up at least one of them. */
  lemma RemainingShrinks(table: seq<Row>, user: string, f: Filters, limit: nat, c: Option<PageKey>, p: Page)
    requires PageOk(table, user, f, limit, c, p) && p.nextCursor.Some?
    ensures Remaining(table, user, f, p.nextCursor) < Remaining(table, user, f, c)
  {
    var last := p.data[|p.data| - 1];
    assert last in p.data;
    var w, w' := Wanted(user, f, c), Wanted(user, f, p.nextCursor);
    forall r | w'(r) ensures w(r) && r != last {
      CursorBehind(last, r);
      StillAfter(c, last, r);
      StrLessTotal(r.id, r.id);
    }
    FilterShrinks(table, w, w', last);
  }

  lemma {:induction false} FilterShrinks(s: seq<Row>, p: Row -> bool, q: Row -> bool, x: Row)
    requires (forall r :: q(r) ==> p(r)) && p(x) && !q(x)
    ensures |Filter(s, q)| <= |Filter(s, p)| && (x in s ==> |Filter(s, q)| < |Filter(s, p)|)
  {
    if s != [] {
      FilterShrinks(s[..|s| - 1], p, q, x);
      DropLast(s);
    }
  }

  lemma {:induction false} PagesFinish(table: seq<Row>, pager: Pager, user: string, f: Filters, limit: nat,
                                       c: Option<PageKey>, n: nat)
    requires PagerOk(pager, user, f, limit) && IdsDiffer(table) && n > Remaining(table, user, f, c)
    ensures Finished(Same(table, n), pager, c)
    decreases n
  {
    var p := pager(table, c);
    assert PageOk(table, user, f, limit, c, p);
    SameStep(table, pager, c, n);
    if p.nextCursor.Some? {
      RemainingShrinks(table, user, f, limit, c, p);
      PagesFinish(table, pager, user, f, limit, p.nextCursor, n - 1);
    }
  }

  lemma {:induction false} FilterLength(s: seq<Row>, p: Row -> bool)
    ensures |Filter(s, p)| <= |s|
  {
    if s != [] {
      FilterLength(s[..|s| - 1], p);
    }
  }

  /** Reading a fixed table, the cursor becomes null after at most one read more than there are rows. */
  lemma WalkFinishes(table: seq<Row>, user: string, f: Filters, limit: nat, c: Option<PageKey>)
    requires IdsDiffer(table)
    ensures Finished(Same(table, |table| + 1), Lister(user, f, limit), c)
  {
    ListerOk(user, f, limit);
    FilterLength(table, Wanted(user, f, c));
    PagesFinish(table, Lister(user, f, limit), user, f, limit, c, |table| + 1);
  }

  // ---------------------------------------------------------------------
  // When paging a fixed table misses nothing
  // ---------------------------------------------------------------------

  /** All pages of a fixed table, from the start. */
  function FullWalk(table: seq<Row>, pager: Pager): (out: seq<Row>) { Walk(Same(table, |table| + 1), pager, None) }

  ghost predicate Complete(table: seq<Row>, user: string, f: Filters, out: seq<Row>) {
    forall r :: r in table && Matches(user, f, r) ==> Returned(out, r.createdAt, r.id)
  }

  ghost predicate AllReturned(table: seq<Row>, user: string, f: Filters, limit: nat) {
    Complete(table, user, f, FullWalk(table, Lister(user, f, limit)))
  }

  lemma FixedComplete(table: seq<Row>, pager: Pager, user: string, f: Filters, limit: nat)
    requires PagerOk(pager, user, f, limit) && PagerKeeps(pager, user, f)
    requires IdsDiffer(table) && NoneSkipped(table, user, f)
    ensures Complete(table, user, f, FullWalk(table, pager))
  {
    FilterLength(table, Wanted(user, f, None));
    PagesFinish(table, pager, user, f, limit, None, |table| + 1);
    forall r | r in table && Matches(user, f, r) ensures Returned(FullWalk(table, pager), r.createdAt, r.id) {
      assert Present(table, user, f, r.createdAt, r.id);
      PagesComplete(Same(table, |table| + 1), pager, user, f, None, r.createdAt, r.id);
    }
  }

  /** Every row is after the cursor of every row before it. */
  ghost predicate Chained(out: seq<Row>) {
    forall i, j :: 0 <= i < j < |out| ==> AfterCursor(Some(CursorOf(out[i])), out[j])
  }

  lemma ChainedCons(d: Row, rest: seq<Row>)
    requires Chained(rest) && forall r :: r in rest ==> AfterCursor(Some(CursorOf(d)), r)
    ensures Chained([d] + rest)
  {
  }

  /** Paging one by one gives a chained list of rows of the table. */
  lemma {:induction false} OneByOne(table: seq<Row>, pager: Pager, user: string, f: Filters, c: Option<PageKey>, n: nat)
    requires PagerOk(pager, user, f, 1) && IdsDiffer(table)
    ensures Chained(Walk(Same(table, n), pager, c))
    ensures forall r :: r in Walk(Same(table, n), pager, c) ==> r in table
    decreases n
  {
    if n > 0 {
      var p := pager(table, c);
      assert PageOk(table, user, f, 1, c, p);
      SameStep(table, pager, c, n);
      if p.nextCursor.Some? {
        OneByOne(table, pager, user, f, p.nextCursor, n - 1);
        PagesDescend(Same(table, n - 1), pager, user, f, 1, p.nextCursor);
        ChainedCons(p.data[0], Walk(Same(table, n - 1), pager, p.nextCursor));
        assert p.data == [p.data[0]];
      }
    }
  }

  /** A chained list in listing order cannot hold two rows of which the first skips the second. */
  lemma ChainedNeverSkips(out: seq<Row>, r: Row, s: Row)
    requires Ordered(out, Precedes) && Chained(out) && r in out && s in out
    ensures !Skips(r, s)
  {
    var i :| 0 <= i < |out| && out[i] == r;
    var j :| 0 <= j < |out| && out[j] == s;
    StrLessTotal(r.id, s.id);
    assert j < i ==> Precedes(s, r);
  }

  lemma SameId(table: seq<Row>, r: Row, s: Row)
    requires IdsDiffer(table) && r in table && s in table && r.id == s.id
    ensures r == s
  {
    var i :| 0 <= i < |table| && table[i] == r;
    var j :| 0 <= j < |table| && table[j] == s;
  }

  lemma ReturnedItself(table: seq<Row>, out: seq<Row>, r: Row)
    requires IdsDiffer(table) && r in table && Returned(out, r.createdAt, r.id) && forall x :: x in out ==> x in table
    ensures r in out
  {
    var x :| x in out && x.createdAt == r.createdAt && x.id == r.id;
    SameId(table, x, r);
  }

  lemma CompleteMeansNoneSkipped(table: seq<Row>, user: string, f: Filters, out: seq<Row>)
    requires IdsDiffer(table) && Complete(table, user, f, out) && (forall x :: x in out ==> x in table)
    requires Ordered(out, Precedes) && Chained(out)
    ensures NoneSkipped(table, user, f)
  {
    forall r, s | r in table && s in table && Matches(user, f, r) && Matches(user, f, s) ensures !Skips(r, s) {
      ReturnedItself(table, out, r);
      ReturnedItself(table, out, s);
      ChainedNeverSkips(out, r, s);
    }
  }

  lemma OneByOneNeedsNoSkips(table: seq<Row>, user: string, f: Filters)
    requires IdsDiffer(table) && AllReturned(table, user, f, 1)
    ensures NoneSkipped(table, user, f)
  {
    var pager := Lister(user, f, 1);
    ListerOk(user, f, 1);
    OneByOne(table, pager, user, f, None, |table| + 1);
    PagesDescend(Same(table, |table| + 1), pager, user, f, 1, None);
    CompleteMeansNoneSkipped(table, user, f, FullWalk(table, pager));
  }

  /** Paging a fixed table returns every matching row for every page size if and only if no cursor skips a row. */
  lemma PagingExact(table: seq<Row>, user: string, f: Filters)
    requires IdsDiffer(table)
    ensures NoneSkipped(table, user, f) <==> forall limit :: limit >= 1 ==> AllReturned(table, user, f, limit)
    ensures NoneSkipped(table, user, f) <==> AllReturned(table, user, f, 1)
  {
    if NoneSkipped(table, user, f) {
      forall limit | limit >= 1 ensures AllReturned(table, user, f, limit) {
        ListerOk(user, f, limit);
        ListerKeeps(user, f, limit);
        FixedComplete(table, Lister(user, f, limit), user, f, limit);
      }
    } else if AllReturned(table, user, f, 1) {
      OneByOneNeedsNoSkips(table, user, f);
    }
  }

  const NO_FILTERS := Filters(None, None, None)

  /** Two rows of one instant. */
  function Pair(user: string, t: int): (table: seq<Row>) {
    [Row("b", user, "m", "pending", "yes", t, ""), Row("a", user, "m", "pending", "yes", t, "")]
  }

  lemma PairSkips(user: string, t: int)
    ensures NoneSkipped(Pair(user, t), user, NO_FILTERS) <==> t % 1000 == 0
  {
    var table := Pair(user, t);
    SkipsExactly(table[0], table[1]);
    if t % 1000 == 0 {
      SafeTimes(table, user, NO_FILTERS);
    } else {
      assert table[0] in table && table[1] in table && Skips(table[0], table[1]);
    }
  }

  /** For two rows of one instant that means: exactly when the instant is a whole millisecond. */
  lemma SubMillisecondRowLost(user: string, t: int)
    ensures AllReturned(Pair(user, t), user, NO_FILTERS, 1) <==> t % 1000 == 0
  {
    PairSkips(user, t);
    PagingExact(Pair(user, t), user, NO_FILTERS);
  }

  /** A limit of zero ends the walk at once, whatever is in the table. */
  lemma ZeroLimitReturnsNothing(table: seq<Row>, user: string, f: Filters, c: Option<PageKey>)
    ensures ListPredictions(table, user, f, 0, c) == Page([], None)
  {
    var rows := Query(table, user, f, c);
    assert Take(Take(rows, 1), 0) == [];
  }
}
