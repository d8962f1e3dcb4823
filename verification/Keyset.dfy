/**
 Keyset pagination (standups.service.ts `list`, reports.service.ts `search`): each page is
 fetched as the rows past the last position of the page before.
 */
module Keyset {
  import opened Text
  import opened Entities
  import opened Standups
  import opened Listings

  // Pages

  datatype Request = Request(keep: Filter, limit: nat)

  datatype PageAt = PageAt(items: seq<Standup>, next: Option<Position>)

  /** One more row than the limit is fetched to see whether there is a next page. */
  ghost function FetchAt(rows: Table, q: Request, after: Option<Position>): PageAt
    requires WellKeyed(rows)
  {
    var found := Take(All(rows, q.keep, after), q.limit + 1);
    var hasMore := |found| > q.limit;
    var items := if hasMore then found[..q.limit] else found;
    PageAt(items, if hasMore && items != [] then Some(At(items[|items| - 1])) else None)
  }

  lemma {:induction false} PageOfListing(rows: Table, q: Request, after: Option<Position>)
    requires WellKeyed(rows) && q.limit >= 1
    ensures var all, page := All(rows, q.keep, after), FetchAt(rows, q, after);
      && page.items == Take(all, q.limit)
      && page.next == if |all| > q.limit then Some(At(all[q.limit - 1])) else None
  {
    var all := All(rows, q.keep, after);
    if |all| > q.limit {
      assert Take(all, q.limit + 1)[..q.limit] == all[..q.limit];
    }
  }

  // Walking the listing while standups are submitted and edited

  ghost predicate Tables(tables: seq<Table>) {
    |tables| > 0 && forall i :: 0 <= i < |tables| ==> WellKeyed(tables[i])
  }

  /** The table as each page finds it: it only grows, and its rows keep their keys. */
  ghost predicate History(tables: seq<Table>) {
    Tables(tables) && forall i, j :: 0 <= i <= j < |tables| ==> Evolved(tables[i], tables[j])
  }

  /** Fetches one page from each table in turn, until a page has no next position or the history ends. */
  ghost function WalkAt(tables: seq<Table>, q: Request, after: Option<Position>): (pages: seq<PageAt>)
    requires Tables(tables) && q.limit >= 1
    ensures pages != []
    decreases |tables|
  {
    var page := FetchAt(tables[0], q, after);
    if page.next.None? || |tables| == 1 then [page]
    else
      [page] + WalkAt(tables[1..], q, page.next)
  }

  function ItemsAt(pages: seq<PageAt>): seq<Standup> {
    if pages == [] then [] else pages[0].items + ItemsAt(pages[1..])
  }

  lemma {:induction false} ItemsSplit(page: PageAt, rest: seq<PageAt>)
    ensures ItemsAt([page] + rest) == page.items + ItemsAt(rest)
    ensures ItemsAt([page]) == page.items
  {
    assert ([page] + rest)[1..] == rest;
    assert page.items + ItemsAt([page][1..]) == page.items;
  }

  /** A walk is its first page, alone or followed by the walk of the later tables. */
  lemma {:induction false} WalkUnfolds(tables: seq<Table>, q: Request, after: Option<Position>)
    requires Tables(tables) && q.limit >= 1
    ensures var page := FetchAt(tables[0], q, after);
      if page.next.None? || |tables| == 1
      then WalkAt(tables, q, after) == [page] && ItemsAt(WalkAt(tables, q, after)) == page.items
      else && Tables(tables[1..])
           && WalkAt(tables, q, after) == [page] + WalkAt(tables[1..], q, page.next)
           && ItemsAt(WalkAt(tables, q, after)) == page.items + ItemsAt(WalkAt(tables[1..], q, page.next))
  {
    var page := FetchAt(tables[0], q, after);
    ItemsSplit(page, []);
    if page.next.Some? && |tables| > 1 {
      ItemsSplit(page, WalkAt(tables[1..], q, page.next));
    }
  }

  ghost predicate Finished(pages: seq<PageAt>) {
    pages != [] && pages[|pages| - 1].next.None?
  }

  // On a table that does not change

  /** How many pages `n` rows fill: one at least. */
  function PageCount(n: nat, limit: nat): nat
    requires limit >= 1
  {
    if n <= limit then 1 else 1 + PageCount(n - limit, limit)
  }

  /** That is the quotient, rounded up. */
  lemma {:induction false} PageCountIsQuotient(n: nat, limit: nat)
    requires limit >= 1
    ensures PageCount(n, limit) == if n == 0 then 1 else (n + limit - 1) / limit
  {
    if n > limit {
      PageCountIsQuotient(n - limit, limit);
      var k := (n - 1) / limit;
      assert n - 1 == k * limit + (n - 1) % limit;
      QuotientIs(n + limit - 1, limit, k + 1, (n - 1) % limit);
    } else if n > 0 {
      QuotientIs(n + limit - 1, limit, 1, n - 1);
    }
  }

  lemma {:induction false} QuotientIs(n: nat, limit: nat, k: nat, r: nat)
    requires r < limit && n == k * limit + r
    ensures n / limit == k
  {
    var d := n / limit - k;
    assert n == (n / limit) * limit + n % limit;
    assert (n / limit) * limit - k * limit == d * limit;
    assert d * limit == r - n % limit;
    AtLeastOnce(d, limit);
  }

  lemma {:induction false} AtLeastOnce(d: int, limit: int)
    requires limit >= 0
    ensures d >= 1 ==> d * limit >= limit
    ensures d <= -1 ==> d * limit <= -limit
  {
  }

  ghost predicate Frozen(tables: seq<Table>, rows: Table) {
    |tables| > 0 && forall i :: 0 <= i < |tables| ==> tables[i] == rows
  }

  /** What a complete walk over an unchanging listing looks like. */
  ghost predicate WholeWalk(pages: seq<PageAt>, all: seq<Standup>, limit: nat)
    requires limit >= 1
  {
    && ItemsAt(pages) == all
    && |pages| == PageCount(|all|, limit)
    && Finished(pages)
    && forall i :: 0 <= i < |pages| - 1 ==> |pages[i].items| == limit && pages[i].next.Some?
  }

  /** A page is cut off the front of the listing, and the rest of the listing is past it. */
  lemma {:induction false} CutPage(rows: Table, q: Request, after: Option<Position>)
    requires WellKeyed(rows) && q.limit >= 1
    ensures var all, page := All(rows, q.keep, after), FetchAt(rows, q, after);
      if |all| > q.limit
      then page.items == all[..q.limit] && page.next.Some? && All(rows, q.keep, page.next) == all[q.limit..]
      else page.items == all && page.next.None?
  {
    PageOfListing(rows, q, after);
    if |All(rows, q.keep, after)| > q.limit {
      RestOfListing(rows, q.keep, after, q.limit);
    }
  }

  lemma {:induction false} OnlyPage(page: PageAt, all: seq<Standup>, limit: nat)
    requires limit >= 1 && |all| <= limit && page.items == all && page.next.None?
    ensures WholeWalk([page], all, limit)
  {
    ItemsSplit(page, []);
  }

  lemma {:induction false} OnePageMore(page: PageAt, rest: seq<PageAt>, all: seq<Standup>, limit: nat)
    requires limit >= 1 && |all| > limit && page.items == all[..limit] && page.next.Some?
    requires WholeWalk(rest, all[limit..], limit)
    ensures WholeWalk([page] + rest, all, limit)
  {
    ItemsSplit(page, rest);
    assert all == all[..limit] + all[limit..];
    var pages := [page] + rest;
    assert forall i :: 1 <= i < |pages| ==> pages[i] == rest[i - 1];
  }

  // On a table that does

  /** Whatever happens between the fetches, positions go strictly down the listing. */
  lemma {:induction false} WalkDescends(tables: seq<Table>, q: Request, after: Option<Position>)
    requires Tables(tables) && q.limit >= 1
    ensures Ordered(ItemsAt(WalkAt(tables, q, after)))
    ensures forall r :: r in ItemsAt(WalkAt(tables, q, after)) ==> Past(after, r)
    decreases |tables|
  {
    var page := FetchAt(tables[0], q, after);
    PageDescends(tables[0], q, after);
    WalkUnfolds(tables, q, after);
    if page.next.Some? && |tables| > 1 {
      WalkDescends(tables[1..], q, page.next);
      JoinOrdered(page.items, ItemsAt(WalkAt(tables[1..], q, page.next)), page.items[|page.items| - 1], after);
    }
  }

  lemma {:induction false} PageDescends(rows: Table, q: Request, after: Option<Position>)
    requires WellKeyed(rows) && q.limit >= 1
    ensures var page := FetchAt(rows, q, after);
      && Ordered(page.items)
      && (forall r :: r in page.items ==> Past(after, r))
      && (page.next.Some? ==> page.items != [] && page.next == Some(At(page.items[|page.items| - 1])))
  {
    var all, page := All(rows, q.keep, after), FetchAt(rows, q, after);
    AllIsListing(rows, q.keep, after);
    PageOfListing(rows, q, after);
    assert forall r :: r in page.items ==> r in all;
  }

  lemma {:induction false} JoinOrdered(s: seq<Standup>, t: seq<Standup>, last: Standup, after: Option<Position>)
    requires Ordered(s) && Ordered(t) && s != [] && s[|s| - 1] == last && Past(after, last)
    requires forall r :: r in t ==> Past(Some(At(last)), r)
    ensures Ordered(s + t)
    ensures forall r :: r in t ==> Past(after, r)
  {
    forall i, j | 0 <= i < j < |s + t|
      ensures Later(At((s + t)[i]), At((s + t)[j]))
    {
      if i < |s| <= j {
        assert t[j - |s|] in t;
        LaterIsStrictOrder(At(s[i]), At(last), At(t[j - |s|]));
      }
    }
    forall r | r in t
      ensures Past(after, r)
    {
      StillPast(after, last, r);
    }
  }

  /** A row that is there from the first fetch on and matches at every fetch. */
  ghost predicate AlwaysMatches(tables: seq<Table>, q: Request, id: RowId) {
    forall i :: 0 <= i < |tables| ==> id in tables[i] && q.keep(tables[i][id])
  }

  ghost predicate Returned(items: seq<Standup>, id: RowId) {
    exists r :: r in items && r.id == id
  }

  lemma {:induction false} WalkCovers(tables: seq<Table>, q: Request, after: Option<Position>, id: RowId)
    requires History(tables) && q.limit >= 1
    requires AlwaysMatches(tables, q, id) && Past(after, tables[0][id])
    requires Finished(WalkAt(tables, q, after))
    ensures Returned(ItemsAt(WalkAt(tables, q, after)), id)
    decreases |tables|
  {
    var row := tables[0][id];
    var page := FetchAt(tables[0], q, after);
    PageCovers(tables[0], q, after, row);
    WalkUnfolds(tables, q, after);
    if row in page.items {
      assert row in ItemsAt(WalkAt(tables, q, after));
    } else {
      var rest := WalkAt(tables[1..], q, page.next);
      LastOfWalk(page, rest);
      assert Evolved(tables[0], tables[1]) && tables[1..][0] == tables[1];
      WalkCovers(tables[1..], q, page.next, id);
      var r :| r in ItemsAt(rest) && r.id == id;
      assert r in ItemsAt(WalkAt(tables, q, after));
    }
  }

  lemma {:induction false} LastOfWalk(page: PageAt, rest: seq<PageAt>)
    requires rest != []
    ensures Finished([page] + rest) <==> Finished(rest)
  {
  }

  /** A matching row is on the page, or past its end. */
  lemma {:induction false} PageCovers(rows: Table, q: Request, after: Option<Position>, row: Standup)
    requires WellKeyed(rows) && q.limit >= 1 && row.id in rows && rows[row.id] == row && q.keep(row) && Past(after, row)
    ensures var page := FetchAt(rows, q, after);
      row in page.items || (page.next.Some? && Past(page.next, row))
  {
    var all, page := All(rows, q.keep, after), FetchAt(rows, q, after);
    PageOfListing(rows, q, after);
    AllIsListing(rows, q.keep, after);
    assert row in Selected(rows, q.keep, after);
    var k :| 0 <= k < |all| && all[k] == row;
    if k < q.limit {
      assert page.items[k] == row;
    } else {
      assert Later(At(all[q.limit - 1]), At(all[k]));
    }
  }

  /** A returned row is a row of one of the tables, in the version that table had. */
  ghost predicate FromTable(tables: seq<Table>, q: Request, r: Standup, i: nat) {
    i < |tables| && r.id in tables[i] && tables[i][r.id] == r && q.keep(r)
  }

  lemma {:induction false} ItemsComeFromTables(tables: seq<Table>, q: Request, after: Option<Position>, r: Standup)
    requires Tables(tables) && q.limit >= 1 && r in ItemsAt(WalkAt(tables, q, after))
    ensures exists i :: FromTable(tables, q, r, i)
    decreases |tables|
  {
    var all := All(tables[0], q.keep, after);
    var page := FetchAt(tables[0], q, after);
    PageOfListing(tables[0], q, after);
    AllIsListing(tables[0], q.keep, after);
    WalkUnfolds(tables, q, after);
    if r in page.items {
      assert r in all;
      assert r in Selected(tables[0], q.keep, after);
      assert FromTable(tables, q, r, 0);
    } else {
      ItemsComeFromTables(tables[1..], q, page.next, r);
      var i: nat :| FromTable(tables[1..], q, r, i);
      assert FromTable(tables, q, r, i + 1);
    }
  }

  lemma {:induction false} SameIdSamePosition(tables: seq<Table>, q: Request, a: Standup, b: Standup)
    requires History(tables) && q.limit >= 1 && a.id == b.id
    requires a in ItemsAt(WalkAt(tables, q, None)) && b in ItemsAt(WalkAt(tables, q, None))
    ensures At(a) == At(b)
  {
    ItemsComeFromTables(tables, q, None, a);
    ItemsComeFromTables(tables, q, None, b);
    var i: nat :| FromTable(tables, q, a, i);
    var j: nat :| FromTable(tables, q, b, j);
    if i <= j {
      assert Evolved(tables[i], tables[j]);
    } else {
      assert Evolved(tables[j], tables[i]);
    }
  }

  ghost predicate ReturnedOnceAt(items: seq<Standup>, id: RowId, i: nat) {
    i < |items| && items[i].id == id && forall j :: 0 <= j < |items| && items[j].id == id ==> j == i
  }

  /** No row is returned twice, whether or not the walk is finished. */
  lemma {:induction false} ReturnedAtMostOnce(tables: seq<Table>, q: Request, i: nat, j: nat)
    requires History(tables) && q.limit >= 1
    requires i < |ItemsAt(WalkAt(tables, q, None))| && j < |ItemsAt(WalkAt(tables, q, None))|
    requires ItemsAt(WalkAt(tables, q, None))[i].id == ItemsAt(WalkAt(tables, q, None))[j].id
    ensures i == j
  {
    var items := ItemsAt(WalkAt(tables, q, None));
    WalkDescends(tables, q, None);
    SameIdSamePosition(tables, q, items[i], items[j]);
    LaterIsStrictOrder(At(items[i]), At(items[j]), At(items[i]));
  }

  /**
   A finished walk from the start returns every row that was there and matched throughout,
   exactly once, however many standups were submitted and edited between its fetches.
   */
  lemma {:induction false} WalkIsExact(tables: seq<Table>, q: Request, id: RowId)
    requires History(tables) && q.limit >= 1
    requires AlwaysMatches(tables, q, id) && Finished(WalkAt(tables, q, None))
    ensures exists i :: ReturnedOnceAt(ItemsAt(WalkAt(tables, q, None)), id, i)
  {
    var items := ItemsAt(WalkAt(tables, q, None));
    WalkCovers(tables, q, None, id);
    var r :| r in items && r.id == id;
    var i :| 0 <= i < |items| && items[i] == r;
    forall j | 0 <= j < |items| && items[j].id == id
      ensures j == i
    {
      ReturnedAtMostOnce(tables, q, i, j);
    }
    assert ReturnedOnceAt(items, id, i);
  }
}
