/**
 The listing requests themselves (standups.service.ts `list`, reports.service.ts `search`,
 standup-cursor.util.ts): their filters, their cursors as text, and whole walks from the
 first request to the last page.
 */
module Paging {
  import opened Text
  import opened Calendar
  import opened Entities
  import opened Standups
  import opened Listings
  import opened Keyset

  // Queries

  datatype Query = Query(team: string, user: Option<string>, date: Option<Day>,
                         text: Option<string>, blocker: Option<string>)

  /** `if (value)`: a filter is applied when it is given and not empty. */
  function Given(value: Option<string>): Option<string> {
    if value.Some? && value.value != "" then value else None
  }

  function Trimmed(value: Option<string>): Option<string> {
    if value.Some? then Given(Some(Trim(value.value))) else None
  }

  predicate ContainsIgnoringCase(s: string, part: string) {
    Contains(ToLower(s), ToLower(part))
  }

  predicate TextMatches(q: Query, row: Standup) {
    && (match Trimmed(q.text)
        case Some(t) => || ContainsIgnoringCase(row.yesterday, t) || ContainsIgnoringCase(row.today, t)
                        || (row.blockers.Some? && ContainsIgnoringCase(row.blockers.value, t))
        case None => true)
    && (match Trimmed(q.blocker)
        case Some(t) => row.blockers.Some? && ContainsIgnoringCase(row.blockers.value, t)
        case None => true)
  }

  predicate Matches(q: Query, row: Standup) {
    && row.team == q.team && !row.deleted
    && (Given(q.user).Some? ==> row.user == q.user.value)
    && (q.date.Some? ==> row.day == q.date.value)
    && TextMatches(q, row)
  }

  // What a query asks for, on the fields of a row

  predicate SameLetter(a: char, b: char) {
    a == b || ('A' <= a <= 'Z' && b as int == a as int + 32) || ('A' <= b <= 'Z' && a as int == b as int + 32)
  }

  predicate ReadsAt(text: string, part: string, i: nat) {
    i + |part| <= |text| && forall k :: 0 <= k < |part| ==> SameLetter(text[i + k], part[k])
  }

  /** The part occurs in the text, in small letters or capitals. */
  ghost predicate Mentions(text: string, part: string) {
    exists i: nat :: ReadsAt(text, part, i)
  }

  /** What is asked for in a text filter, if it is given and not blank. */
  ghost predicate AsksFor(filter: Option<string>, part: string) {
    filter.Some? && part == Trim(filter.value) && part != ""
  }

  ghost predicate Answers(q: Query, row: Standup) {
    && row.team == q.team && !row.deleted
    && (forall user :: q.user == Some(user) && user != "" ==> row.user == user)
    && (forall day :: q.date == Some(day) ==> row.day == day)
    && (forall part :: AsksFor(q.text, part) ==>
          || Mentions(row.yesterday, part) || Mentions(row.today, part)
          || (row.blockers.Some? && Mentions(row.blockers.value, part)))
    && (forall part :: AsksFor(q.blocker, part) ==> row.blockers.Some? && Mentions(row.blockers.value, part))
  }

  lemma {:induction false} LettersAt(text: string, part: string, i: nat)
    ensures ContainsAt(ToLower(text), ToLower(part), i) <==> ReadsAt(text, part, i)
  {
    var a, b := ToLower(text), ToLower(part);
    if i + |part| <= |text| {
      forall k | 0 <= k < |part|
        ensures a[i..i + |b|][k] == b[k] <==> SameLetter(text[i + k], part[k])
      {
        LowerEach(text, i + k);
        LowerEach(part, k);
      }
      assert (forall k :: 0 <= k < |part| ==> a[i..i + |b|][k] == b[k]) <==> a[i..i + |b|] == b;
    }
  }

  lemma {:induction false} ContainsIsMentions(text: string, part: string)
    ensures ContainsIgnoringCase(text, part) <==> Mentions(text, part)
  {
    var a, b := ToLower(text), ToLower(part);
    if Contains(a, b) {
      var i :| 0 <= i <= |a| && ContainsAt(a, b, i);
      LettersAt(text, part, i);
      assert Mentions(text, part);
    }
    if Mentions(text, part) {
      var i: nat :| ReadsAt(text, part, i);
      LettersAt(text, part, i);
      assert 0 <= i <= |a| && ContainsAt(a, b, i);
      assert Contains(a, b);
    }
  }

  lemma {:induction false} AsksForTrimmed(filter: Option<string>, part: string)
    ensures AsksFor(filter, part) <==> Trimmed(filter) == Some(part)
  {
  }

  lemma {:induction false} TextMatchesWhen(q: Query, row: Standup)
    ensures TextMatches(q, row) <==>
      && (forall part :: Trimmed(q.text) == Some(part) ==>
            || Mentions(row.yesterday, part) || Mentions(row.today, part)
            || (row.blockers.Some? && Mentions(row.blockers.value, part)))
      && (forall part :: Trimmed(q.blocker) == Some(part) ==>
            row.blockers.Some? && Mentions(row.blockers.value, part))
  {
    if Trimmed(q.text).Some? {
      var part := Trimmed(q.text).value;
      ContainsIsMentions(row.yesterday, part);
      ContainsIsMentions(row.today, part);
      if row.blockers.Some? {
        ContainsIsMentions(row.blockers.value, part);
      }
    }
    if Trimmed(q.blocker).Some? && row.blockers.Some? {
      ContainsIsMentions(row.blockers.value, Trimmed(q.blocker).value);
    }
  }

  /** The filter keeps exactly the rows that answer the query. */
  lemma {:induction false} MatchesAnswers(q: Query, row: Standup)
    ensures Matches(q, row) <==> Answers(q, row)
  {
    TextMatchesWhen(q, row);
    forall part
      ensures AsksFor(q.text, part) <==> Trimmed(q.text) == Some(part)
      ensures AsksFor(q.blocker, part) <==> Trimmed(q.blocker) == Some(part)
    {
      AsksForTrimmed(q.text, part);
      AsksForTrimmed(q.blocker, part);
    }
  }

  /** A query of `list`, which filters by key fields only. */
  predicate ByKeyOnly(q: Query) {
    q.text.None? && q.blocker.None?
  }

  function FilterOf(q: Query): Filter {
    row => Matches(q, row)
  }

  // Cursors

  datatype Payload = Payload(standupDate: string, id: string)

  /** JSON and base64url, as the libraries behind the cursor provide them. */
  datatype Codec = Codec(encode: Payload -> string, decode: string -> Option<Payload>)

  ghost predicate RoundTrips(codec: Codec) {
    forall p: Payload :: codec.encode(p) != "" && codec.decode(codec.encode(p)) == Some(p)
  }

  datatype PageError = InvalidCursor | InvalidDate

  function EncodeCursor(codec: Codec, p: Position): string {
    codec.encode(Payload(FormatYmd(p.day), p.id))
  }

  function DecodeCursor(codec: Codec, cursor: string): Result<Payload, PageError> {
    var parsed := codec.decode(cursor);
    if parsed.None? || parsed.value.id == "" || parsed.value.standupDate == "" || !IsYmd(parsed.value.standupDate)
    then Err(InvalidCursor)
    else Ok(parsed.value)
  }

  /** The position a request starts after; None for a request without a cursor. */
  function StartAfter(codec: Codec, cursor: Option<string>): Result<Option<Position>, PageError> {
    if Given(cursor).None? then Ok(None)
    else
      var payload := DecodeCursor(codec, cursor.value);
      if payload.Err? then Err(payload.error)
      else
        var day := ParseYmd(payload.value.standupDate);
        if day.None? then Err(InvalidDate) else Ok(Some(Position(day.value, payload.value.id)))
  }

  /** A cursor leads back to the position it was made from exactly when that position's id is not empty. */
  lemma {:induction false} CursorRoundTrip(codec: Codec, p: Position)
    requires RoundTrips(codec)
    ensures StartAfter(codec, Some(EncodeCursor(codec, p))) == Ok(Some(p)) <==> p.id != ""
  {
    YmdRoundTrip(p.day);
    var payload := Payload(FormatYmd(p.day), p.id);
    assert codec.encode(payload) != "" && codec.decode(codec.encode(payload)) == Some(payload);
  }

  /** A cursor is accepted exactly if it decodes to an id and a text that is a date, and then for that position. */
  lemma {:induction false} AcceptedCursor(codec: Codec, cursor: string, p: Position)
    ensures StartAfter(codec, Some(cursor)) == Ok(Some(p)) <==>
      && cursor != "" && codec.decode(cursor).Some?
      && codec.decode(cursor).value.id == p.id && p.id != ""
      && ParseYmd(codec.decode(cursor).value.standupDate) == Some(p.day)
  {
    ReadableYmd(if codec.decode(cursor).Some? then codec.decode(cursor).value.standupDate else "");
  }

  // Requests by cursor text

  datatype Page = Page(items: seq<Standup>, next: Option<string>)

  ghost function FetchPage(codec: Codec, rows: Table, q: Request, cursor: Option<string>): Result<Page, PageError>
    requires WellKeyed(rows)
  {
    var start := StartAfter(codec, cursor);
    if start.Err? then Err(start.error)
    else
      var page := FetchAt(rows, q, start.value);
      Ok(Page(page.items, if page.next.Some? then Some(EncodeCursor(codec, page.next.value)) else None))
  }

  /** Follows the cursors, one fetch from each table in turn. */
  ghost function Walk(codec: Codec, tables: seq<Table>, q: Request, cursor: Option<string>): seq<Page>
    requires Tables(tables)
    decreases |tables|
  {
    var page := FetchPage(codec, tables[0], q, cursor);
    if page.Err? then []
    else if page.value.next.None? || |tables| == 1 then [page.value]
    else [page.value] + Walk(codec, tables[1..], q, page.value.next)
  }

  function Items(pages: seq<Page>): seq<Standup> {
    if pages == [] then [] else pages[0].items + Items(pages[1..])
  }

  ghost predicate Complete(pages: seq<Page>) {
    pages != [] && pages[|pages| - 1].next.None?
  }

  ghost predicate SamePages(pages: seq<Page>, at: seq<PageAt>) {
    && |pages| == |at|
    && forall i :: 0 <= i < |pages| ==> pages[i].items == at[i].items && (pages[i].next.Some? <==> at[i].next.Some?)
  }

  lemma {:induction false} SameItems(pages: seq<Page>, at: seq<PageAt>)
    requires SamePages(pages, at)
    ensures Items(pages) == ItemsAt(at)
    ensures Complete(pages) <==> Finished(at)
  {
    if pages != [] {
      assert forall i :: 0 <= i < |pages[1..]| ==> pages[1..][i] == pages[i + 1] && at[1..][i] == at[i + 1];
      SameItems(pages[1..], at[1..]);
    }
  }

  lemma {:induction false} NextPosition(rows: Table, q: Request, after: Option<Position>)
    requires WellKeyed(rows) && q.limit >= 1 && FetchAt(rows, q, after).next.Some?
    ensures FetchAt(rows, q, after).next.value.id != ""
  {
    var all := All(rows, q.keep, after);
    PageOfListing(rows, q, after);
    AllIsListing(rows, q.keep, after);
    assert all[q.limit - 1] in all;
    assert all[q.limit - 1] in Selected(rows, q.keep, after);
  }

  /** A page by cursor is the page by position, and its cursor is understood as its next position. */
  lemma {:induction false} PageText(codec: Codec, rows: Table, q: Request, cursor: Option<string>,
                                    after: Option<Position>)
    requires RoundTrips(codec) && WellKeyed(rows) && q.limit >= 1 && StartAfter(codec, cursor) == Ok(after)
    ensures var page, at := FetchPage(codec, rows, q, cursor), FetchAt(rows, q, after);
      && page.Ok? && page.value.items == at.items && (page.value.next.Some? <==> at.next.Some?)
      && (at.next.Some? ==> StartAfter(codec, page.value.next) == Ok(at.next))
  {
    var at := FetchAt(rows, q, after);
    if at.next.Some? {
      NextPosition(rows, q, after);
      CursorRoundTrip(codec, at.next.value);
    }
  }

  lemma {:induction false} AddPage(page: Page, at: PageAt, rest: seq<Page>, restAt: seq<PageAt>)
    requires page.items == at.items && (page.next.Some? <==> at.next.Some?) && SamePages(rest, restAt)
    ensures SamePages([page] + rest, [at] + restAt)
  {
  }

  /** Following cursors is following positions: every cursor given out is understood. */
  lemma {:induction false} WalkFollowsPositions(codec: Codec, tables: seq<Table>, q: Request, cursor: Option<string>,
                                                after: Option<Position>)
    requires RoundTrips(codec) && Tables(tables) && q.limit >= 1 && StartAfter(codec, cursor) == Ok(after)
    ensures SamePages(Walk(codec, tables, q, cursor), WalkAt(tables, q, after))
    decreases |tables|
  {
    var page, at := FetchPage(codec, tables[0], q, cursor).value, FetchAt(tables[0], q, after);
    PageText(codec, tables[0], q, cursor, after);
    WalkUnfolds(tables, q, after);
    if at.next.Some? && |tables| > 1 {
      WalkFollowsPositions(codec, tables[1..], q, page.next, at.next);
      AddPage(page, at, Walk(codec, tables[1..], q, page.next), WalkAt(tables[1..], q, at.next));
    } else {
      AddPage(page, at, [], []);
    }
  }

  // Whole walks

  /**
   On a table that does not change, the pages put together are the whole filtered listing;
   every page but the last is full, and there are as many pages as the rows call for.
   */
  lemma {:induction false} WalkIsWholeListing(tables: seq<Table>, rows: Table, q: Request, after: Option<Position>)
    requires Tables(tables) && WellKeyed(rows) && q.limit >= 1 && Frozen(tables, rows)
    requires |tables| >= PageCount(|All(rows, q.keep, after)|, q.limit)
    ensures WholeWalk(WalkAt(tables, q, after), All(rows, q.keep, after), q.limit)
    decreases |tables|
  {
    var all, page := All(rows, q.keep, after), FetchAt(rows, q, after);
    CutPage(rows, q, after);
    assert tables[0] == rows;
    WalkUnfolds(tables, q, after);
    if |all| <= q.limit {
      OnlyPage(page, all, q.limit);
    } else {
      assert |All(rows, q.keep, page.next)| == |all| - q.limit;
      WalkIsWholeListing(tables[1..], rows, q, page.next);
      OnePageMore(page, WalkAt(tables[1..], q, page.next), all, q.limit);
    }
  }

  /**
   A listing requested page by page from a table that does not change is the whole filtered
   table, newest first: every page full but the last, in the number of pages its length calls for.
   */
  lemma {:induction false} FrozenWalk(codec: Codec, tables: seq<Table>, rows: Table, q: Request)
    requires RoundTrips(codec) && Tables(tables) && WellKeyed(rows) && q.limit >= 1 && Frozen(tables, rows)
    requires |tables| >= PageCount(|All(rows, q.keep, None)|, q.limit)
    ensures var pages := Walk(codec, tables, q, None);
      && IsListing(Items(pages), Selected(rows, q.keep, None))
      && |pages| == PageCount(|Items(pages)|, q.limit)
      && Complete(pages)
      && forall i :: 0 <= i < |pages| - 1 ==> |pages[i].items| == q.limit
  {
    WalkFollowsPositions(codec, tables, q, None, None);
    WalkIsWholeListing(tables, rows, q, None);
    AllIsListing(rows, q.keep, None);
    SameItems(Walk(codec, tables, q, None), WalkAt(tables, q, None));
  }

  /**
   However standups are submitted and edited between the requests, positions go strictly
   down and no row comes twice; and a complete walk returns every row that was there from
   the first request on and matched at each, exactly once.
   */
  lemma {:induction false} LiveWalk(codec: Codec, tables: seq<Table>, q: Request)
    requires RoundTrips(codec) && History(tables) && q.limit >= 1
    ensures var pages := Walk(codec, tables, q, None);
      && NewestFirst(Items(pages))
      && (forall id :: Complete(pages) && AlwaysMatches(tables, q, id) ==>
           exists i :: ReturnedOnceAt(Items(pages), id, i))
  {
    WalkFollowsPositions(codec, tables, q, None, None);
    var pages := Walk(codec, tables, q, None);
    SameItems(pages, WalkAt(tables, q, None));
    WalkDescends(tables, q, None);
    OrderedIsNewestFirst(Items(pages));
    forall id | Complete(pages) && AlwaysMatches(tables, q, id)
      ensures exists i :: ReturnedOnceAt(Items(pages), id, i)
    {
      WalkIsExact(tables, q, id);
    }
  }

  /** For `list`, matching at the first fetch is enough: no writer changes what it filters by. */
  lemma {:induction false} ListMatchesForGood(tables: seq<Table>, q: Query, limit: nat, id: RowId)
    requires History(tables) && ByKeyOnly(q) && id in tables[0] && Matches(q, tables[0][id])
    ensures AlwaysMatches(tables, Request(FilterOf(q), limit), id)
  {
    forall i | 0 <= i < |tables|
      ensures id in tables[i] && Matches(q, tables[i][id])
    {
      assert Evolved(tables[0], tables[i]);
    }
  }

  // What is returned

  lemma {:induction false} WalkSelects(tables: seq<Table>, q: Request, after: Option<Position>, row: Standup)
    requires Tables(tables) && q.limit >= 1 && row in ItemsAt(WalkAt(tables, q, after))
    ensures exists i :: 0 <= i < |tables| && row.id in tables[i] && tables[i][row.id] == row && q.keep(row)
    decreases |tables|
  {
    var page := FetchAt(tables[0], q, after);
    WalkUnfolds(tables, q, after);
    if row in page.items {
      PageOfListing(tables[0], q, after);
      AllIsListing(tables[0], q.keep, after);
      assert row in All(tables[0], q.keep, after);
      assert row in Selected(tables[0], q.keep, after);
    } else {
      WalkSelects(tables[1..], q, page.next, row);
      var i :| 0 <= i < |tables[1..]| && row.id in tables[1..][i] && tables[1..][i][row.id] == row;
      assert tables[i + 1] == tables[1..][i];
    }
  }

  /** Whatever changes between the requests: every row returned was in the table then, and answers the query. */
  lemma {:induction false} ReturnedRowsAnswer(codec: Codec, tables: seq<Table>, q: Query, limit: nat, row: Standup)
    requires RoundTrips(codec) && Tables(tables) && limit >= 1
    requires row in Items(Walk(codec, tables, Request(FilterOf(q), limit), None))
    ensures Answers(q, row) && exists i :: 0 <= i < |tables| && row.id in tables[i] && tables[i][row.id] == row
  {
    var request := Request(FilterOf(q), limit);
    WalkFollowsPositions(codec, tables, request, None, None);
    SameItems(Walk(codec, tables, request, None), WalkAt(tables, request, None));
    WalkSelects(tables, request, None, row);
    MatchesAnswers(q, row);
  }

  /** On a table that does not change: exactly the rows that answer the query, newest first. */
  lemma {:induction false} QueryAnswered(codec: Codec, tables: seq<Table>, rows: Table, q: Query, limit: nat,
                                         row: Standup)
    requires RoundTrips(codec) && Tables(tables) && WellKeyed(rows) && limit >= 1 && Frozen(tables, rows)
    requires |tables| >= PageCount(|All(rows, FilterOf(q), None)|, limit)
    ensures var items := Items(Walk(codec, tables, Request(FilterOf(q), limit), None));
      NewestFirst(items) && (row in items <==> row.id in rows && rows[row.id] == row && Answers(q, row))
  {
    FrozenWalk(codec, tables, rows, Request(FilterOf(q), limit));
    MatchesAnswers(q, row);
    var items := Items(Walk(codec, tables, Request(FilterOf(q), limit), None));
    OrderedIsNewestFirst(items);
    assert row in items <==> row in Selected(rows, FilterOf(q), None);
  }
}
