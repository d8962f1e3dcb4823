/** Filtered listings of standups, newest first: the simple form that pages are cut from. */
module Listings {
  import opened Text
  import opened Calendar
  import opened Entities

  type Table = map<RowId, Standup>

  /** Which rows a query is about. */
  type Filter = Standup -> bool

  // The order of listings

  datatype Position = Position(day: Day, id: string)

  function At(row: Standup): Position {
    Position(row.day, row.id)
  }

  /** Position `b` comes after position `a`: an earlier day, or the same day and a smaller id. */
  predicate Later(a: Position, b: Position) {
    Before(b.day, a.day) || (b.day == a.day && Less(b.id, a.id))
  }

  lemma {:induction false} LaterIsStrictOrder(a: Position, b: Position, c: Position)
    ensures !Later(a, a)
    ensures Later(a, b) && Later(b, c) ==> Later(a, c)
    ensures a == b || Later(a, b) || Later(b, a)
  {
    LessIrreflexive(a.id);
    if a.day == b.day == c.day && Less(b.id, a.id) && Less(c.id, b.id) {
      LessTransitive(c.id, b.id, a.id);
    }
    if a.day == b.day && a.id != b.id {
      LessTotal(a.id, b.id);
    }
  }

  ghost predicate Ordered(s: seq<Standup>) {
    forall i, j :: 0 <= i < j < |s| ==> Later(At(s[i]), At(s[j]))
  }

  /** In descending order of the text of their day and, within a day, of their id; no row twice. */
  ghost predicate NewestFirst(s: seq<Standup>) {
    forall i, j :: 0 <= i < j < |s| ==>
      Less(FormatYmd(s[j].day), FormatYmd(s[i].day)) || (s[j].day == s[i].day && Less(s[j].id, s[i].id))
  }

  lemma {:induction false} OrderedIsNewestFirst(s: seq<Standup>)
    ensures Ordered(s) <==> NewestFirst(s)
  {
    forall i, j | 0 <= i < j < |s|
      ensures Later(At(s[i]), At(s[j]))
              <==> Less(FormatYmd(s[j].day), FormatYmd(s[i].day)) || (s[j].day == s[i].day && Less(s[j].id, s[i].id))
    {
      TextOrderIsDayOrder(s[j].day, s[i].day);
    }
  }

  ghost predicate DistinctPositions(x: set<Standup>) {
    forall a, b :: a in x && b in x && At(a) == At(b) ==> a == b
  }

  ghost predicate IsListing(s: seq<Standup>, x: set<Standup>) {
    Ordered(s) && forall r :: r in s <==> r in x
  }

  lemma {:induction false} HasFirst(x: set<Standup>) returns (first: Standup)
    requires x != {} && DistinctPositions(x)
    ensures first in x && forall r :: r in x && r != first ==> Later(At(first), At(r))
  {
    first :| first in x;
    var rest := x - {first};
    if rest != {} {
      var other := HasFirst(rest);
      LaterIsStrictOrder(At(first), At(other), At(other));
      if Later(At(other), At(first)) {
        first := other;
      } else {
        forall r | r in x && r != first
          ensures Later(At(first), At(r))
        {
          LaterIsStrictOrder(At(first), At(other), At(r));
        }
      }
    }
  }

  /** All rows of a set, newest first: `orderBy: [{ standupDate: 'desc' }, { id: 'desc' }]`. */
  ghost function Listing(x: set<Standup>): seq<Standup>
    requires DistinctPositions(x)
  {
    if x == {} then []
    else
      assert exists first :: first in x && forall r :: r in x && r != first ==> Later(At(first), At(r)) by {
        var first := HasFirst(x);
      }
      var first :| first in x && forall r :: r in x && r != first ==> Later(At(first), At(r));
      [first] + Listing(x - {first})
  }

  lemma {:induction false} ListingLists(x: set<Standup>)
    requires DistinctPositions(x)
    ensures IsListing(Listing(x), x)
  {
    if x != {} {
      var s := Listing(x);
      var least := HasFirst(x);
      var rest := x - {s[0]};
      ListingLists(rest);
      assert s[1..] == Listing(rest);
      assert forall i :: 1 <= i < |s| ==> s[i] == s[1..][i - 1] && s[i] in s[1..];
    }
  }

  /** A set of rows has one listing only. */
  lemma {:induction false} ListingIsUnique(s: seq<Standup>, t: seq<Standup>, x: set<Standup>)
    requires IsListing(s, x) && IsListing(t, x)
    ensures s == t
  {
    assert s != [] ==> s[0] in x;
    assert t != [] ==> t[0] in x;
    if s != [] && t != [] {
      var i :| 0 <= i < |t| && t[i] == s[0];
      var j :| 0 <= j < |s| && s[j] == t[0];
      LaterIsStrictOrder(At(s[0]), At(t[0]), At(s[0]));
      assert s[0] == t[0];
      var rest := x - {s[0]};
      TailListing(s, x);
      TailListing(t, x);
      ListingIsUnique(s[1..], t[1..], rest);
    }
  }

  lemma {:induction false} TailListing(s: seq<Standup>, x: set<Standup>)
    requires IsListing(s, x) && s != []
    ensures IsListing(s[1..], x - {s[0]})
  {
    assert forall i :: 0 <= i < |s[1..]| ==> s[1..][i] == s[i + 1];
    LaterIsStrictOrder(At(s[0]), At(s[0]), At(s[0]));
    assert s[0] !in s[1..];
    assert forall r :: r in s <==> r == s[0] || r in s[1..];
  }

  // What one page selects

  predicate Past(after: Option<Position>, row: Standup) {
    after.Some? ==> Later(after.value, At(row))
  }

  ghost function Selected(rows: Table, keep: Filter, after: Option<Position>): set<Standup> {
    set id | id in rows && keep(rows[id]) && Past(after, rows[id]) :: rows[id]
  }

  ghost predicate WellKeyed(rows: Table) {
    forall id :: id in rows ==> rows[id].id == id && id != ""
  }

  lemma {:induction false} SelectedDistinct(rows: Table, keep: Filter, after: Option<Position>)
    requires WellKeyed(rows)
    ensures DistinctPositions(Selected(rows, keep, after))
  {
  }

  /** The simple form: everything past a position, in order. */
  ghost function All(rows: Table, keep: Filter, after: Option<Position>): seq<Standup>
    requires WellKeyed(rows)
  {
    SelectedDistinct(rows, keep, after);
    Listing(Selected(rows, keep, after))
  }

  lemma {:induction false} AllIsListing(rows: Table, keep: Filter, after: Option<Position>)
    requires WellKeyed(rows)
    ensures IsListing(All(rows, keep, after), Selected(rows, keep, after))
  {
    SelectedDistinct(rows, keep, after);
    ListingLists(Selected(rows, keep, after));
  }

  function Take<T>(s: seq<T>, n: nat): (r: seq<T>)
    ensures |r| == if |s| <= n then |s| else n
  {
    if |s| <= n then s else s[..n]
  }

  /** What is past the last row of a listing's beginning is the rest of that listing. */
  lemma {:induction false} RestOfListing(rows: Table, keep: Filter, after: Option<Position>, n: nat)
    requires WellKeyed(rows) && 0 < n <= |All(rows, keep, after)|
    ensures var all := All(rows, keep, after);
      All(rows, keep, Some(At(all[n - 1]))) == all[n..]
  {
    var all := All(rows, keep, after);
    var last := At(all[n - 1]);
    var later := Selected(rows, keep, Some(last));
    AllIsListing(rows, keep, after);
    AllIsListing(rows, keep, Some(last));
    forall r
      ensures r in all[n..] <==> r in later
    {
      if r in all[n..] {
        assert r in all;
      }
      if r in later {
        assert all[n - 1] in all && all[n - 1] in Selected(rows, keep, after);
        assert Past(after, all[n - 1]) && Later(last, At(r));
        StillPast(after, all[n - 1], r);
        assert r in Selected(rows, keep, after);
        var i :| 0 <= i < |all| && all[i] == r;
        LaterIsStrictOrder(At(all[i]), last, At(all[i]));
        assert i >= n;
        assert all[n..][i - n] == r;
      }
    }
    assert Ordered(all[n..]);
    ListingIsUnique(All(rows, keep, Some(last)), all[n..], later);
  }

  lemma {:induction false} StillPast(after: Option<Position>, a: Standup, b: Standup)
    requires Past(after, a) && Later(At(a), At(b))
    ensures Past(after, b)
  {
    if after.Some? {
      LaterIsStrictOrder(after.value, At(a), At(b));
    }
  }
}
