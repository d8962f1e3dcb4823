/** Listing standups page by page while the submission service runs. */
module LiveListing {
  import opened Text
  import opened Entities
  import opened Standups
  import opened Listings
  import opened Keyset
  import opened Paging

  /** Identifiers are generated, and never empty. */
  ghost predicate NamesRows(trace: seq<Event>) {
    forall i :: 0 <= i < |trace| && trace[i].SubmitCheck? ==> trace[i].id != ""
  }

  ghost predicate RowsNamed(s: State) {
    && (forall id :: id in s.rows ==> id != "")
    && (forall c :: c in s.pending && s.pending[c].Creating? ==> s.pending[c].row.id != "")
  }

  lemma {:induction false} RunNamesRows(w: World, trace: seq<Event>)
    requires NamesRows(trace)
    ensures RowsNamed(Run(w, trace))
  {
    if trace != [] {
      var front := trace[..|trace| - 1];
      assert forall i :: 0 <= i < |front| ==> front[i] == trace[i];
      RunNamesRows(w, front);
    }
  }

  /** The run up to the moment of a fetch. */
  function Upto(trace: seq<Event>, time: nat): seq<Event> {
    if time <= |trace| then trace[..time] else trace
  }

  ghost predicate InTime(times: seq<nat>) {
    |times| > 0 && forall i, j :: 0 <= i <= j < |times| ==> times[i] <= times[j]
  }

  /** The tables that the requests of one client see during a run of submissions and edits. */
  ghost function Seen(w: World, trace: seq<Event>, times: seq<nat>): (tables: seq<Table>)
    requires NamesRows(trace) && InTime(times)
    ensures Tables(tables)
  {
    var tables := seq(|times|, i requires 0 <= i < |times| => Run(w, Upto(trace, times[i])).rows);
    assert Tables(tables) by {
      forall i | 0 <= i < |tables|
        ensures WellKeyed(tables[i])
      {
        RunIsKeyed(w, Upto(trace, times[i]));
        RunNamesRows(w, Upto(trace, times[i]));
      }
    }
    tables
  }

  /** Fetches in the order of time see a table that only grows, and whose rows keep their keys. */
  lemma {:induction false} RunsAreHistories(w: World, trace: seq<Event>, times: seq<nat>)
    requires NamesRows(trace) && InTime(times)
    ensures History(Seen(w, trace, times))
  {
    var tables := Seen(w, trace, times);
    forall i, j | 0 <= i <= j < |tables|
      ensures Evolved(tables[i], tables[j])
    {
      var from, to := Upto(trace, times[i]), Upto(trace, times[j]);
      assert to == from + to[|from|..];
      RowsEvolve(w, from, to[|from|..]);
    }
  }

  /**
   `list`, followed to its last page while standups are submitted and edited: it returns
   every standup that was there and asked for at the first request exactly once, and
   whatever it returns is in order and without repetition.
   */
  lemma {:induction false} ListDuringRun(codec: Codec, w: World, trace: seq<Event>, times: seq<nat>, q: Query,
                                         limit: nat, id: RowId)
    requires RoundTrips(codec) && NamesRows(trace) && InTime(times)
    requires ByKeyOnly(q) && limit >= 1
    requires id in Seen(w, trace, times)[0] && Matches(q, Seen(w, trace, times)[0][id])
    ensures var pages := Walk(codec, Seen(w, trace, times), Request(FilterOf(q), limit), None);
      NewestFirst(Items(pages)) && (Complete(pages) ==> exists i :: ReturnedOnceAt(Items(pages), id, i))
  {
    var tables := Seen(w, trace, times);
    RunsAreHistories(w, trace, times);
    ListMatchesForGood(tables, q, limit, id);
    LiveWalk(codec, tables, Request(FilterOf(q), limit));
  }
}
