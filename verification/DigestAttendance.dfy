/**
 Digests composed while standups are submitted: what the unique index on standups means for
 the two ways in which a digest says who is missing.
 */
module DigestAttendance {
  import opened Text
  import opened Calendar
  import opened Entities
  import opened Attendance
  import opened DedupeKeys
  import opened Outbox
  import S = Standups

  predicate OfDay(row: Standup, team: TeamId, day: Day) {
    row.team == team && row.day == day && !row.deleted
  }

  /** A result of the query for the standups of a team and day: every such row, each once. */
  ghost predicate Enumerates(list: seq<Standup>, rows: map<RowId, Standup>, team: TeamId, day: Day) {
    && (forall i :: 0 <= i < |list| ==> list[i].id in rows && rows[list[i].id] == list[i] && OfDay(list[i], team, day))
    && (forall i, j :: 0 <= i < j < |list| ==> list[i].id != list[j].id)
    && (forall id :: id in rows && OfDay(rows[id], team, day) ==> rows[id] in list)
  }

  ghost predicate ReadFrom(w: S.World, posts: seq<S.Event>, n: nat, list: seq<Standup>, team: TeamId, day: Day) {
    n <= |posts| && Enumerates(list, S.Run(w, posts[..n]).rows, team, day)
  }

  /** What a call reads: its team's members, each once, and its day's standups at some moment of their run. */
  ghost predicate ReadsTables(w: S.World, posts: seq<S.Event>, s: State, e: Event) {
    match e
    case ReadMembersEvent(_, members) => Distinct(members)
    case ReadStandupsEvent(call, standups) =>
      Reading(s, call) ==> exists n :: ReadFrom(w, posts, n, standups, s.calls[call].team, s.calls[call].day)
    case _ => true
  }

  /** A run of the digest protocol beside a run of submissions and edits. */
  ghost predicate JointRun(w: S.World, posts: seq<S.Event>, trace: seq<Event>) {
    forall k :: 0 <= k < |trace| ==> ReadsTables(w, posts, Run(trace[..k]), trace[k])
  }

  /** The index makes the authors distinct. */
  lemma {:induction false} AuthorsAreDistinct(w: S.World, posts: seq<S.Event>, n: nat, list: seq<Standup>,
                                              team: TeamId, day: Day)
    requires ReadFrom(w, posts, n, list, team, day)
    ensures Distinct(AuthorList(list))
  {
    forall i, j | 0 <= i < j < |list|
      ensures AuthorList(list)[i] != AuthorList(list)[j]
    {
      AuthorAt(list, i);
      AuthorAt(list, j);
      if list[i].user == list[j].user {
        S.OneStandupPerDay(w, posts[..n], list[i].id, list[j].id);
        assert false;
      }
    }
  }

  lemma {:induction false} AuthorAt(list: seq<Standup>, i: nat)
    requires i < |list|
    ensures AuthorList(list)[i] == list[i].user
  {
    if i < |list| - 1 {
      AuthorAt(list[..|list| - 1], i);
    }
  }

  ghost predicate ReadDistinct(c: Call) {
    (c.Generating? || c.Reminding?) ==>
      && (c.members.Some? ==> Distinct(c.members.value))
      && (c.standups.Some? ==> Distinct(AuthorList(c.standups.value)))
  }

  ghost predicate AllReadDistinct(s: State) {
    forall c :: c in s.calls ==> ReadDistinct(s.calls[c])
  }

  lemma {:induction false} ReadKeepsDistinct(w: S.World, posts: seq<S.Event>, s: State, e: Event)
    requires AllReadDistinct(s) && ReadsTables(w, posts, s, e) && (e.ReadMembersEvent? || e.ReadStandupsEvent?)
    ensures AllReadDistinct(Step(s, e))
  {
    if e.ReadStandupsEvent? && Reading(s, e.call) {
      var n :| ReadFrom(w, posts, n, e.standups, s.calls[e.call].team, s.calls[e.call].day);
      AuthorsAreDistinct(w, posts, n, e.standups, s.calls[e.call].team, s.calls[e.call].day);
    }
  }

  ghost predicate NothingRead(s: State, s': State) {
    forall c :: c in s'.calls ==> (c in s.calls && s'.calls[c] == s.calls[c]) || ReadDistinct(s'.calls[c])
  }

  lemma {:induction false} CommitReadsNothing(s: State, c: RowId, g: RowId, d: RowId, t: RowId)
    ensures NothingRead(s, GenerateCommit(s, c, g, d, t))
  {
  }

  lemma {:induction false} ReminderReadsNothing(s: State, c: RowId, d: RowId)
    ensures NothingRead(s, ReminderInsert(s, c, d))
  {
  }

  lemma {:induction false} ResendReadsNothing(s: State, c: RowId, d: RowId, uuid: Id)
    ensures NothingRead(s, ResendInsert(s, c, d, uuid))
  {
  }

  lemma {:induction false} RunReadsNothing(s: State, e: Event)
    requires e.DeliverStartEvent? || e.DeliverEndEvent?
    ensures Step(s, e).calls == s.calls
  {
  }

  /** Only reads give a call something read. */
  lemma {:induction false} OthersReadNothing(s: State, e: Event)
    requires !e.ReadMembersEvent? && !e.ReadStandupsEvent?
    ensures NothingRead(s, Step(s, e))
  {
    match e
    case GenerateCommitEvent(c, g, d, t) => CommitReadsNothing(s, c, g, d, t);
    case ReminderInsertEvent(c, d) => ReminderReadsNothing(s, c, d);
    case ResendInsertEvent(c, d, uuid) => ResendReadsNothing(s, c, d, uuid);
    case DeliverStartEvent(_, _, _, _) => RunReadsNothing(s, e);
    case DeliverEndEvent(_, _, _) => RunReadsNothing(s, e);
    case GenerateCheckEvent(_, _, _, _, _) =>
    case ReminderCheckEvent(_, _, _, _, _, _) =>
    case ResendFindEvent(_, _, _, _, _) =>
    case EnqueueEvent(_, _) =>
    case CallDiesEvent(_) =>
  }

  lemma {:induction false} RunReadsDistinct(w: S.World, posts: seq<S.Event>, trace: seq<Event>)
    requires JointRun(w, posts, trace)
    ensures AllReadDistinct(Run(trace))
  {
    if trace != [] {
      var before, e := trace[..|trace| - 1], trace[|trace| - 1];
      assert forall k :: 0 <= k < |before| ==> before[..k] == trace[..k] && before[k] == trace[k];
      RunReadsDistinct(w, posts, before);
      if e.ReadMembersEvent? || e.ReadStandupsEvent? {
        ReadKeepsDistinct(w, posts, Run(before), e);
      } else {
        OthersReadNothing(Run(before), e);
      }
    }
  }

  lemma {:induction false} AllMembers(list: seq<Standup>, members: seq<UserId>)
    ensures Authors(list) <= Elements(members) <==> forall i :: 0 <= i < |list| ==> list[i].user in members
  {
    forall i | 0 <= i < |list|
      ensures list[i].user in Authors(list)
    {
      AuthorAt(list, i);
    }
    forall u | u in Authors(list)
      ensures exists i :: 0 <= i < |list| && list[i].user == u
    {
      var i :| 0 <= i < |AuthorList(list)| && AuthorList(list)[i] == u;
      AuthorAt(list, i);
    }
  }

  /**
   Whatever is submitted meanwhile: the list of missing members in a digest is as long as its
   missing count exactly if every author it read was among the members it read, and else longer.
   */
  lemma {:induction false} MissingListOfDigest(w: S.World, posts: seq<S.Event>, trace: seq<Event>,
                                               c: RowId, g: RowId, d: RowId, t: RowId)
    requires JointRun(w, posts, trace) && CommitEnabled(Run(trace), c, g, d, t)
    requires GenerateCommit(Run(trace), c, g, d, t).digests != Run(trace).digests
    ensures var row, call := GenerateCommit(Run(trace), c, g, d, t).digests[g], Run(trace).calls[c];
      && |row.missingUsers| >= row.missing
      && (|row.missingUsers| == row.missing <==>
            forall i :: 0 <= i < |call.standups.value| ==> call.standups.value[i].user in call.members.value)
  {
    var call := Run(trace).calls[c];
    RunReadsDistinct(w, posts, trace);
    assert ReadDistinct(call);
    MissingListAgainstCount(call.members.value, call.standups.value);
    AllMembers(call.standups.value, call.members.value);
  }
}
