/**
 Submitting and editing standups (standups.service.ts). Each request is split at its await
 into a check and a write, so requests interleave; the standups table has a partial unique
 index on team, user and day over the rows that are not deleted.
 */
module Standups {
  import opened Text
  import opened Calendar
  import opened Entities

  datatype LocalTime = LocalTime(day: Day, weekday: nat, time: HhMm)

  /** The teams as configured throughout a run, and each team's clock as a function of the instant. */
  datatype World = World(teams: map<string, Team>, local: (string, int) -> LocalTime)

  predicate Open(w: World, team: string) {
    team in w.teams && !w.teams[team].deleted && w.teams[team].config.Some?
  }

  function Deadline(w: World, team: string): HhMm
    requires team in w.teams && w.teams[team].config.Some?
  {
    w.teams[team].config.value.deadline
  }

  predicate PastDeadline(w: World, team: string, now: int)
    requires Open(w, team)
  {
    MinutesOf(w.local(team, now).time) > MinutesOf(Deadline(w, team))
  }

  /** The row can be edited at that instant: on its own local day and not past the deadline. */
  predicate EditableAt(w: World, row: Standup, now: int) {
    Open(w, row.team) && w.local(row.team, now).day == row.day && !PastDeadline(w, row.team, now)
  }

  // Requests

  datatype Submission = Submission(yesterday: string, today: string, blockers: Option<string>)

  datatype Change = Change(yesterday: Option<string>, today: Option<string>, blockers: Option<string>)

  datatype Error =
    | TeamNotFound | NotWorkingDay | AlreadySubmitted
    | StandupNotFound | NotYourStandup | NotToday | WindowClosed

  predicate SameSlot(a: Standup, b: Standup) {
    a.team == b.team && a.user == b.user && a.day == b.day && !a.deleted && !b.deleted
  }

  predicate SlotTaken(rows: map<RowId, Standup>, row: Standup) {
    exists id :: id in rows && SameSlot(rows[id], row)
  }

  /** The row a submission asks for; it is late when the local time is past the deadline, as text. */
  function NewRow(w: World, id: RowId, team: string, user: string, dto: Submission, now: int): Standup
    requires Open(w, team)
  {
    var local := w.local(team, now);
    Standup(id, team, user, local.day, dto.yesterday, dto.today, dto.blockers,
            Less(Deadline(w, team), local.time), false)
  }

  function SubmitError(w: World, rows: map<RowId, Standup>, id: RowId, team: string, user: string, dto: Submission,
                       now: int)
    : Option<Error>
  {
    if !Open(w, team) then Some(TeamNotFound)
    else if w.local(team, now).weekday !in w.teams[team].config.value.workingDays then Some(NotWorkingDay)
    else if SlotTaken(rows, NewRow(w, id, team, user, dto, now)) then Some(AlreadySubmitted)
    else None
  }

  function UpdateError(w: World, rows: map<RowId, Standup>, id: RowId, user: string, now: int): Option<Error> {
    if id !in rows || rows[id].deleted || !Open(w, rows[id].team) then Some(StandupNotFound)
    else if rows[id].user != user then Some(NotYourStandup)
    else
      var local := w.local(rows[id].team, now);
      if rows[id].day != local.day then Some(NotToday)
      else if Less(Deadline(w, rows[id].team), local.time) then Some(WindowClosed)
      else None
  }

  function Apply(row: Standup, change: Change): Standup {
    row.(yesterday := if change.yesterday.Some? then change.yesterday.value else row.yesterday,
         today := if change.today.Some? then change.today.value else row.today,
         blockers := if change.blockers.Some? then change.blockers else row.blockers)
  }

  // Steps

  datatype Pending = Creating(row: Standup) | Editing(id: RowId, change: Change)

  datatype State = State(rows: map<RowId, Standup>, pending: map<string, Pending>, now: int)

  datatype Event =
    | SubmitCheck(call: string, id: RowId, team: string, user: string, dto: Submission, at: int)
    | UpdateCheck(call: string, id: RowId, user: string, change: Change, at: int)
    | Write(call: string, at: int)

  function CheckSubmit(w: World, s: State, call: string, id: RowId, team: string, user: string,
                       dto: Submission): State
  {
    if call in s.pending || SubmitError(w, s.rows, id, team, user, dto, s.now).Some? then s
    else s.(pending := s.pending[call := Creating(NewRow(w, id, team, user, dto, s.now))])
  }

  function CheckUpdate(w: World, s: State, call: string, id: RowId, user: string, change: Change): State {
    if call in s.pending || UpdateError(w, s.rows, id, user, s.now).Some? then s
    else s.(pending := s.pending[call := Editing(id, change)])
  }

  /** The write of a request whose check has passed. A taken slot violates the index: nothing is written. */
  function Perform(s: State, call: string): State {
    if call !in s.pending then s
    else
      var rest := s.pending - {call};
      match s.pending[call]
      case Creating(row) =>
        if row.id in s.rows || SlotTaken(s.rows, row) then s.(pending := rest)
        else s.(rows := s.rows[row.id := row], pending := rest)
      case Editing(id, change) =>
        if id in s.rows then s.(rows := s.rows[id := Apply(s.rows[id], change)], pending := rest)
        else s.(pending := rest)
  }

  /** One step at an instant no earlier than the last. */
  function Step(w: World, s: State, e: Event): State {
    if e.at < s.now then s
    else
      var t := s.(now := e.at);
      match e
      case SubmitCheck(call, id, team, user, dto, _) => CheckSubmit(w, t, call, id, team, user, dto)
      case UpdateCheck(call, id, user, change, _) => CheckUpdate(w, t, call, id, user, change)
      case Write(call, _) => Perform(t, call)
  }

  function Run(w: World, trace: seq<Event>): State {
    if trace == [] then State(map[], map[], 0)
    else Step(w, Run(w, trace[..|trace| - 1]), trace[|trace| - 1])
  }

  // Invariants

  ghost predicate KeyedById(rows: map<RowId, Standup>) {
    forall id :: id in rows ==> rows[id].id == id
  }

  ghost predicate OnePerSlot(rows: map<RowId, Standup>) {
    forall a, b :: a in rows && b in rows && SameSlot(rows[a], rows[b]) ==> a == b
  }

  ghost predicate Keyed(s: State) {
    KeyedById(s.rows) && OnePerSlot(s.rows)
  }

  /** Compared as text, the local time is past the deadline exactly when it is so as a time. */
  lemma {:induction false} LateMeansPastDeadline(w: World, id: RowId, team: string, user: string, dto: Submission,
                                                 now: int)
    requires Open(w, team)
    ensures NewRow(w, id, team, user, dto, now).isLate <==> PastDeadline(w, team, now)
  {
    TextOrderIsTimeOrder(Deadline(w, team), w.local(team, now).time);
  }

  /** The checks of an update let its author edit a row exactly when it can be edited. */
  lemma {:induction false} UpdatesWhenEditable(w: World, rows: map<RowId, Standup>, id: RowId, user: string, now: int)
    requires id in rows && !rows[id].deleted
    ensures UpdateError(w, rows, id, user, now).None? <==> rows[id].user == user && EditableAt(w, rows[id], now)
  {
    if Open(w, rows[id].team) {
      TextOrderIsTimeOrder(Deadline(w, rows[id].team), w.local(rows[id].team, now).time);
    }
  }

  lemma {:induction false} PerformKeepsKeyed(s: State, call: string)
    requires Keyed(s)
    ensures Keyed(Perform(s, call))
  {
    if call in s.pending {
      var s' := Perform(s, call);
      if s.pending[call].Creating? && s'.rows != s.rows {
        InsertKeepsSlots(s.rows, s.pending[call].row);
      } else if s.pending[call].Editing? && s'.rows != s.rows {
        EditKeepsSlots(s.rows, s.pending[call].id, s.pending[call].change);
      }
    }
  }

  lemma {:induction false} InsertKeepsSlots(rows: map<RowId, Standup>, row: Standup)
    requires OnePerSlot(rows) && KeyedById(rows) && row.id !in rows && !SlotTaken(rows, row)
    ensures OnePerSlot(rows[row.id := row]) && KeyedById(rows[row.id := row])
  {
  }

  lemma {:induction false} EditKeepsSlots(rows: map<RowId, Standup>, id: RowId, change: Change)
    requires OnePerSlot(rows) && KeyedById(rows) && id in rows
    ensures OnePerSlot(rows[id := Apply(rows[id], change)]) && KeyedById(rows[id := Apply(rows[id], change)])
  {
  }

  lemma {:induction false} StepKeepsKeyed(w: World, s: State, e: Event)
    requires Keyed(s)
    ensures Keyed(Step(w, s, e))
  {
    if e.Write? && s.now <= e.at {
      PerformKeepsKeyed(s.(now := e.at), e.call);
    } else {
      assert Step(w, s, e).rows == s.rows;
    }
  }

  lemma {:induction false} RunIsKeyed(w: World, trace: seq<Event>)
    ensures Keyed(Run(w, trace))
  {
    if trace != [] {
      RunIsKeyed(w, trace[..|trace| - 1]);
      StepKeepsKeyed(w, Run(w, trace[..|trace| - 1]), trace[|trace| - 1]);
    }
  }

  // Guarantees

  /** No member ever has two standups for a day, however requests interleave. */
  lemma {:induction false} OneStandupPerDay(w: World, trace: seq<Event>, a: RowId, b: RowId)
    requires a in Run(w, trace).rows && b in Run(w, trace).rows
    requires SameSlot(Run(w, trace).rows[a], Run(w, trace).rows[b])
    ensures a == b
  {
    RunIsKeyed(w, trace);
  }

  /** The requests of two tabs: both are checked before either is written. */
  function TwoChecks(team: string, user: string, dto: Submission, at: nat, a: RowId, b: RowId): seq<Event> {
    [SubmitCheck("first", a, team, user, dto, at), SubmitCheck("second", b, team, user, dto, at)]
  }

  /**
   The check alone would let a member have two standups for a day: both requests pass it, to
   write rows of one team, user and day. The index refuses the second.
   */
  lemma {:induction false} TheCheckAloneIsNotEnough(w: World, team: string, user: string, dto: Submission, at: nat,
                                                    a: RowId, b: RowId)
    requires Open(w, team) && w.local(team, at).weekday in w.teams[team].config.value.workingDays && a != b
    ensures var s := Run(w, TwoChecks(team, user, dto, at, a, b));
      && "first" in s.pending && s.pending["first"] == Creating(NewRow(w, a, team, user, dto, at))
      && "second" in s.pending && s.pending["second"] == Creating(NewRow(w, b, team, user, dto, at))
      && SameSlot(s.pending["first"].row, s.pending["second"].row)
      && Perform(Perform(s, "first"), "second").rows == map[a := NewRow(w, a, team, user, dto, at)]
  {
    var events := TwoChecks(team, user, dto, at, a, b);
    assert events[..1][..0] == [] && events[..2] == events;
    var s0: State := Run(w, []);
    var s1 := Run(w, events[..1]);
    assert s1 == Step(w, s0, events[0]);
    assert Run(w, events) == Step(w, s1, events[1]);
    assert "first" != "second";
    var s := Run(w, events);
    var t := Perform(s, "first");
    assert t.rows[a] == NewRow(w, a, team, user, dto, at);
    assert SlotTaken(t.rows, NewRow(w, b, team, user, dto, at));
  }

  /** What no request ever changes about a standup. */
  ghost predicate SameKey(a: Standup, b: Standup) {
    && a.id == b.id && a.team == b.team && a.user == b.user && a.day == b.day
    && a.isLate == b.isLate && a.deleted == b.deleted
  }

  /** The table has only grown, and its rows have kept their keys. */
  ghost predicate Evolved(before: map<RowId, Standup>, after: map<RowId, Standup>) {
    forall id :: id in before ==> id in after && SameKey(before[id], after[id])
  }

  /** From one moment of a run to any later one, no row is lost, and rows keep their keys. */
  lemma {:induction false} RowsEvolve(w: World, trace: seq<Event>, more: seq<Event>)
    ensures Evolved(Run(w, trace).rows, Run(w, trace + more).rows)
    decreases |more|
  {
    if more == [] {
      assert trace + more == trace;
    } else {
      var fewer := more[..|more| - 1];
      assert (trace + more)[..|trace + more| - 1] == trace + fewer;
      RowsEvolve(w, trace, fewer);
      StepEvolves(w, Run(w, trace + fewer), more[|more| - 1]);
    }
  }

  lemma {:induction false} PerformEvolves(s: State, call: string)
    ensures Evolved(s.rows, Perform(s, call).rows)
  {
  }

  lemma {:induction false} StepEvolves(w: World, s: State, e: Event)
    ensures Evolved(s.rows, Step(w, s, e).rows)
  {
    if e.Write? && s.now <= e.at {
      PerformEvolves(s.(now := e.at), e.call);
    } else {
      assert Step(w, s, e).rows == s.rows;
    }
  }

  // The service's methods over a table updated in place

  predicate Occupies(row: Standup, team: string, user: string, day: Day) {
    row.team == team && row.user == user && row.day == day && !row.deleted
  }

  predicate DayTaken(w: World, rows: map<RowId, Standup>, team: string, user: string, now: int) {
    exists id :: id in rows && Occupies(rows[id], team, user, w.local(team, now).day)
  }

  /** When a submission is accepted, and which error it is answered with. */
  predicate Answered(w: World, rows: map<RowId, Standup>, r: Result<Standup, Error>, team: string, user: string,
                     now: int)
  {
    var open := team in w.teams && !w.teams[team].deleted && w.teams[team].config.Some?;
    var working := open && w.local(team, now).weekday in w.teams[team].config.value.workingDays;
    && (r == Err(TeamNotFound) <==> !open)
    && (r == Err(NotWorkingDay) <==> open && !working)
    && (r == Err(AlreadySubmitted) <==> working && DayTaken(w, rows, team, user, now))
    && (r.Ok? <==> working && !DayTaken(w, rows, team, user, now))
  }

  /** When an edit is accepted, and which error it is answered with. */
  predicate EditAnswered(w: World, rows: map<RowId, Standup>, r: Result<Standup, Error>, id: RowId, user: string,
                         now: int)
  {
    var found := id in rows && !rows[id].deleted && rows[id].team in w.teams && !w.teams[rows[id].team].deleted
                 && w.teams[rows[id].team].config.Some?;
    var mine := found && rows[id].user == user;
    var ofToday := mine && rows[id].day == w.local(rows[id].team, now).day;
    var past := ofToday && MinutesOf(w.local(rows[id].team, now).time)
                           > MinutesOf(w.teams[rows[id].team].config.value.deadline);
    && (r == Err(StandupNotFound) <==> !found)
    && (r == Err(NotYourStandup) <==> found && !mine)
    && (r == Err(NotToday) <==> mine && !ofToday)
    && (r == Err(WindowClosed) <==> past)
    && (r.Ok? <==> ofToday && !past)
  }

  /** The row has what was submitted, where it was, the day and whether it is past the deadline. */
  predicate Requested(w: World, row: Standup, id: RowId, team: string, user: string, dto: Submission, now: int)
    requires team in w.teams && w.teams[team].config.Some?
  {
    && row.id == id && row.team == team && row.user == user && row.day == w.local(team, now).day
    && row.yesterday == dto.yesterday && row.today == dto.today && row.blockers == dto.blockers
    && (row.isLate <==> MinutesOf(w.local(team, now).time) > MinutesOf(w.teams[team].config.value.deadline))
    && !row.deleted
  }

  /** Each text is the one given, if one was, and else as before; nothing else has changed. */
  predicate ChangedBy(row: Standup, changed: Standup, change: Change) {
    && changed.id == row.id && changed.team == row.team && changed.user == row.user && changed.day == row.day
    && changed.isLate == row.isLate && changed.deleted == row.deleted
    && (changed.yesterday == row.yesterday || change.yesterday == Some(changed.yesterday))
    && (change.yesterday.Some? ==> changed.yesterday == change.yesterday.value)
    && (changed.today == row.today || change.today == Some(changed.today))
    && (change.today.Some? ==> changed.today == change.today.value)
    && (changed.blockers == row.blockers || (change.blockers.Some? && change.blockers == changed.blockers))
    && (change.blockers.Some? ==> changed.blockers == change.blockers)
  }

  class StandupTable {
    var rows: map<RowId, Standup>

    /** Rows are kept under their ids, and the unique index holds. */
    ghost predicate Valid()
      reads this
    {
      KeyedById(rows) && OnePerSlot(rows)
    }

    constructor ()
      ensures Valid() && rows == map[]
    {
      rows := map[];
    }

    /** `id` is the identifier generated for the new row. */
    method Submit(w: World, id: RowId, team: string, user: string, dto: Submission, now: int)
      returns (r: Result<Standup, Error>)
      requires Valid() && id !in rows
      modifies this
      ensures Valid() && Evolved(old(rows), rows)
      ensures r.Err? <==> SubmitError(w, old(rows), id, team, user, dto, now).Some?
      ensures r.Err? ==> rows == old(rows) && Some(r.error) == SubmitError(w, old(rows), id, team, user, dto, now)
      ensures r.Ok? ==> r.value == NewRow(w, id, team, user, dto, now) && rows == old(rows)[id := r.value]
      ensures Answered(w, old(rows), r, team, user, now)
      ensures r.Ok? ==> Requested(w, r.value, id, team, user, dto, now)
    {
      if Open(w, team) {
        LateMeansPastDeadline(w, id, team, user, dto, now);
      }
      if team !in w.teams || w.teams[team].deleted || w.teams[team].config.None? {
        return Err(TeamNotFound);
      }
      var config := w.teams[team].config.value;
      var local := w.local(team, now);
      if local.weekday !in config.workingDays {
        return Err(NotWorkingDay);
      }
      var isLate := Less(config.deadline, local.time);
      var row := Standup(id, team, user, local.day, dto.yesterday, dto.today, dto.blockers, isLate, false);
      if exists other :: other in rows && SameSlot(rows[other], row) {
        return Err(AlreadySubmitted);
      }
      rows := rows[id := row];
      return Ok(row);
    }

    /** The checks of `update` in their order. */
    method CheckedUpdate(w: World, id: RowId, user: string, now: int) returns (error: Option<Error>)
      ensures error == UpdateError(w, rows, id, user, now)
    {
      if id !in rows || rows[id].deleted || !Open(w, rows[id].team) {
        return Some(StandupNotFound);
      }
      var row := rows[id];
      if row.user != user {
        return Some(NotYourStandup);
      }
      var local := w.local(row.team, now);
      if row.day != local.day {
        return Some(NotToday);
      }
      if Less(w.teams[row.team].config.value.deadline, local.time) {
        return Some(WindowClosed);
      }
      return None;
    }

    /** The given fields of a row that may be edited, and no others; a row whose window is shut is left alone. */
    method Update(w: World, id: RowId, user: string, change: Change, now: int) returns (r: Result<Standup, Error>)
      requires Valid()
      modifies this
      ensures Valid() && Evolved(old(rows), rows)
      ensures r.Err? <==> UpdateError(w, old(rows), id, user, now).Some?
      ensures r.Err? ==> rows == old(rows) && Some(r.error) == UpdateError(w, old(rows), id, user, now)
      ensures EditAnswered(w, old(rows), r, id, user, now)
      ensures r.Ok? ==> id in old(rows) && r.value == Apply(old(rows)[id], change) && rows == old(rows)[id := r.value]
      ensures r.Ok? ==> ChangedBy(old(rows)[id], r.value, change)
      ensures id in old(rows) && !EditableAt(w, old(rows)[id], now) ==> rows == old(rows)
    {
      if id in rows && !rows[id].deleted {
        UpdatesWhenEditable(w, rows, id, user, now);
      }
      var error := CheckedUpdate(w, id, user, now);
      if error.Some? {
        return Err(error.value);
      }
      EditKeepsSlots(rows, id, change);
      var row := rows[id];
      if change.yesterday.Some? {
        row := row.(yesterday := change.yesterday.value);
      }
      if change.today.Some? {
        row := row.(today := change.today.value);
      }
      if change.blockers.Some? {
        row := row.(blockers := change.blockers);
      }
      rows := rows[id := row];
      return Ok(row);
    }
  }
}
