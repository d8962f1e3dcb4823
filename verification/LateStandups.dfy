/** When a standup can still be edited, and exactly when those created late never are. */
module LateStandups {
  import opened Text
  import opened Calendar
  import opened Entities
  import opened Standups

  // Where rows and edits come from

  /** The row was created at that instant. */
  predicate CreatedAt(w: World, row: Standup, at: int) {
    && Open(w, row.team) && !row.deleted && w.local(row.team, at).day == row.day
    && w.local(row.team, at).weekday in w.teams[row.team].config.value.workingDays
    && (row.isLate <==> PastDeadline(w, row.team, at))
  }

  lemma {:induction false} KeysTell(w: World, a: Standup, b: Standup, at: int)
    requires SameKey(a, b)
    ensures CreatedAt(w, a, at) <==> CreatedAt(w, b, at)
    ensures EditableAt(w, a, at) <==> EditableAt(w, b, at)
  {
  }

  lemma {:induction false} NewSubmission(w: World, s: State, e: Event, call: string, row: Standup)
    requires call in Step(w, s, e).pending && Step(w, s, e).pending[call] == Creating(row)
    requires call !in s.pending || s.pending[call] != Creating(row)
    ensures s.now <= e.at == Step(w, s, e).now && CreatedAt(w, row, e.at)
  {
    if e.SubmitCheck? {
      LateMeansPastDeadline(w, e.id, e.team, e.user, e.dto, e.at);
    }
  }

  lemma {:induction false} TimeAdvances(w: World, trace: seq<Event>)
    ensures 0 <= Run(w, trace).now
    ensures trace != [] ==> Run(w, trace[..|trace| - 1]).now <= Run(w, trace).now
  {
    if trace != [] {
      TimeAdvances(w, trace[..|trace| - 1]);
    }
  }

  lemma {:induction false} SubmissionCreated(w: World, trace: seq<Event>, call: string, row: Standup) returns (at: int)
    requires call in Run(w, trace).pending && Run(w, trace).pending[call] == Creating(row)
    ensures 0 <= at <= Run(w, trace).now && CreatedAt(w, row, at)
  {
    var before, e := trace[..|trace| - 1], trace[|trace| - 1];
    TimeAdvances(w, trace);
    TimeAdvances(w, before);
    if call in Run(w, before).pending && Run(w, before).pending[call] == Creating(row) {
      at := SubmissionCreated(w, before, call, row);
    } else {
      NewSubmission(w, Run(w, before), e, call, row);
      at := e.at;
    }
  }

  lemma {:induction false} NewInsert(w: World, s: State, e: Event, id: RowId)
    requires id !in s.rows && id in Step(w, s, e).rows
    ensures e.Write? && e.call in s.pending && s.pending[e.call] == Creating(Step(w, s, e).rows[id])
  {
  }

  /** Every standup has been created at some instant. */
  lemma {:induction false} RowCreated(w: World, trace: seq<Event>, id: RowId) returns (at: int)
    requires id in Run(w, trace).rows
    ensures 0 <= at <= Run(w, trace).now && CreatedAt(w, Run(w, trace).rows[id], at)
  {
    var before, e := trace[..|trace| - 1], trace[|trace| - 1];
    TimeAdvances(w, trace);
    if id in Run(w, before).rows {
      at := RowCreated(w, before, id);
      StepEvolves(w, Run(w, before), e);
      KeysTell(w, Run(w, before).rows[id], Run(w, trace).rows[id], at);
    } else {
      NewInsert(w, Run(w, before), e, id);
      at := SubmissionCreated(w, before, e.call, Run(w, trace).rows[id]);
    }
  }

  predicate Edits(s: State, call: string, id: RowId, change: Change) {
    call in s.pending && s.pending[call] == Editing(id, change)
  }

  lemma {:induction false} NewEdit(w: World, s: State, e: Event, call: string, id: RowId, change: Change)
    requires Edits(Step(w, s, e), call, id, change) && !Edits(s, call, id, change)
    ensures s.now <= e.at == Step(w, s, e).now && id in s.rows && Step(w, s, e).rows == s.rows
    ensures EditableAt(w, s.rows[id], e.at)
  {
    assert e.UpdateCheck? && e.id == id && UpdateError(w, s.rows, id, e.user, e.at).None?;
    UpdatesWhenEditable(w, s.rows, id, e.user, e.at);
  }

  /** Every edit has been let in at an instant at which its row could be edited, after its creation. */
  lemma {:induction false} EditLetIn(w: World, trace: seq<Event>, call: string, id: RowId, change: Change)
    returns (at: int, later: int)
    requires Edits(Run(w, trace), call, id, change)
    ensures id in Run(w, trace).rows && 0 <= at <= later <= Run(w, trace).now
    ensures CreatedAt(w, Run(w, trace).rows[id], at) && EditableAt(w, Run(w, trace).rows[id], later)
  {
    var before, e := trace[..|trace| - 1], trace[|trace| - 1];
    TimeAdvances(w, trace);
    if Edits(Run(w, before), call, id, change) {
      at, later := EditLetIn(w, before, call, id, change);
      StepEvolves(w, Run(w, before), e);
      KeysTell(w, Run(w, before).rows[id], Run(w, trace).rows[id], at);
      KeysTell(w, Run(w, before).rows[id], Run(w, trace).rows[id], later);
    } else {
      NewEdit(w, Run(w, before), e, call, id, change);
      at := RowCreated(w, before, id);
      later := e.at;
    }
  }

  lemma {:induction false} RunMore(w: World, trace: seq<Event>, e: Event)
    ensures Run(w, trace + [e]) == Step(w, Run(w, trace), e)
  {
    assert (trace + [e])[..|trace|] == trace;
  }

  // When a standup is frozen

  /** There is an instant from now on at which the row can be edited. */
  ghost predicate EditableLater(w: World, row: Standup, now: int) {
    exists at :: now <= at && EditableAt(w, row, at)
  }

  /** An edit that has been let in is going to change the row. */
  predicate Changes(s: State, call: string, id: RowId) {
    && call in s.pending && s.pending[call].Editing? && s.pending[call].id == id
    && id in s.rows && Apply(s.rows[id], s.pending[call].change) != s.rows[id]
  }

  ghost predicate ChangeWaits(s: State, id: RowId) {
    exists call :: Changes(s, call, id)
  }

  predicate SameRow(s: State, s': State, id: RowId) {
    id in s.rows && id in s'.rows && s'.rows[id] == s.rows[id]
  }

  ghost predicate Frozen(w: World, trace: seq<Event>, id: RowId) {
    forall more :: SameRow(Run(w, trace), Run(w, trace + more), id)
  }

  lemma {:induction false} ChecksLeaveFrozen(w: World, s: State, e: Event, id: RowId)
    requires id in s.rows && !s.rows[id].deleted && s.now <= e.at && !e.Write?
    requires !EditableAt(w, s.rows[id], e.at) && !ChangeWaits(s, id)
    ensures SameRow(s, Step(w, s, e), id) && !ChangeWaits(Step(w, s, e), id)
  {
    UpdatesWhenEditable(w, s.rows, id, e.user, e.at);
    assert SameRow(s, Step(w, s, e), id);
    forall call
      ensures !Changes(Step(w, s, e), call, id)
    {
      assert !Changes(s, call, id);
    }
  }

  lemma {:induction false} WritesLeaveFrozen(s: State, call: string, id: RowId)
    requires id in s.rows && !ChangeWaits(s, id)
    ensures SameRow(s, Perform(s, call), id) && !ChangeWaits(Perform(s, call), id)
  {
    assert !Changes(s, call, id);
    forall c
      ensures !Changes(Perform(s, call), c, id)
    {
      assert !Changes(s, c, id);
    }
  }

  lemma {:induction false} TimeChangesNothing(s: State, at: int, id: RowId)
    requires id in s.rows && !ChangeWaits(s, id)
    ensures !ChangeWaits(s.(now := at), id)
  {
    forall c
      ensures !Changes(s.(now := at), c, id)
    {
      assert !Changes(s, c, id);
    }
  }

  lemma {:induction false} StepLeavesFrozen(w: World, s: State, e: Event, id: RowId)
    requires id in s.rows && !s.rows[id].deleted
    requires !EditableLater(w, s.rows[id], s.now) && !ChangeWaits(s, id)
    ensures SameRow(s, Step(w, s, e), id) && !ChangeWaits(Step(w, s, e), id) && s.now <= Step(w, s, e).now
  {
    if s.now <= e.at {
      if e.Write? {
        TimeChangesNothing(s, e.at, id);
        WritesLeaveFrozen(s.(now := e.at), e.call, id);
      } else {
        ChecksLeaveFrozen(w, s, e, id);
      }
    }
  }

  lemma {:induction false} FrozenWithoutEdits(w: World, trace: seq<Event>, more: seq<Event>, id: RowId)
    requires id in Run(w, trace).rows && !Run(w, trace).rows[id].deleted
    requires !EditableLater(w, Run(w, trace).rows[id], Run(w, trace).now) && !ChangeWaits(Run(w, trace), id)
    ensures SameRow(Run(w, trace), Run(w, trace + more), id) && !ChangeWaits(Run(w, trace + more), id)
    ensures Run(w, trace).now <= Run(w, trace + more).now
    decreases |more|
  {
    if more == [] {
      assert trace + more == trace;
    } else {
      var fewer, e := more[..|more| - 1], more[|more| - 1];
      assert trace + more == (trace + fewer) + [e];
      FrozenWithoutEdits(w, trace, fewer, id);
      RunMore(w, trace + fewer, e);
      StepLeavesFrozen(w, Run(w, trace + fewer), e, id);
    }
  }

  lemma {:induction false} WriteChanges(w: World, trace: seq<Event>, call: string, id: RowId)
    requires Changes(Run(w, trace), call, id)
    ensures !Frozen(w, trace, id)
  {
    var e := Write(call, Run(w, trace).now);
    RunMore(w, trace, e);
    assert !SameRow(Run(w, trace), Run(w, trace + [e]), id);
  }

  /** A row that can be edited some time is edited then, with any text. */
  lemma {:induction false} EditChanges(w: World, trace: seq<Event>, id: RowId, at: int)
    requires id in Run(w, trace).rows && !Run(w, trace).rows[id].deleted
    requires Run(w, trace).now <= at && EditableAt(w, Run(w, trace).rows[id], at)
    ensures !Frozen(w, trace, id)
  {
    var s := Run(w, trace);
    var row := s.rows[id];
    var call := FreshText(s.pending.Keys);
    var e := UpdateCheck(call, id, row.user, Change(Some(row.yesterday + "!"), None, None), at);
    UpdatesWhenEditable(w, s.rows, id, row.user, at);
    RunMore(w, trace, e);
    assert Changes(Run(w, trace + [e]), call, id) by {
      assert |(row.yesterday + "!")| != |row.yesterday|;
    }
    ThenNotFrozen(w, trace, e, call, id);
  }

  lemma {:induction false} ThenNotFrozen(w: World, trace: seq<Event>, e: Event, call: string, id: RowId)
    requires Changes(Run(w, trace + [e]), call, id) && SameRow(Run(w, trace), Run(w, trace + [e]), id)
    ensures !Frozen(w, trace, id)
  {
    WriteChanges(w, trace + [e], call, id);
    var more :| !SameRow(Run(w, trace + [e]), Run(w, (trace + [e]) + more), id);
    assert (trace + [e]) + more == trace + ([e] + more);
    assert !SameRow(Run(w, trace), Run(w, trace + ([e] + more)), id);
  }

  /**
   A standup is never changed again exactly if there is no instant from now on that is on its
   own local day and not past the deadline, and no edit that was let in is still to change it.
   */
  lemma {:induction false} FrozenExactly(w: World, trace: seq<Event>, id: RowId)
    requires id in Run(w, trace).rows
    ensures Frozen(w, trace, id)
            <==> !EditableLater(w, Run(w, trace).rows[id], Run(w, trace).now) && !ChangeWaits(Run(w, trace), id)
  {
    var created := RowCreated(w, trace, id);
    if at :| Run(w, trace).now <= at && EditableAt(w, Run(w, trace).rows[id], at) {
      EditChanges(w, trace, id, at);
    } else if call :| Changes(Run(w, trace), call, id) {
      WriteChanges(w, trace, call, id);
    } else {
      forall more
        ensures SameRow(Run(w, trace), Run(w, trace + more), id)
      {
        FrozenWithoutEdits(w, trace, more, id);
      }
    }
  }

  // Late standups

  /**
   The team's clock is set back over its deadline within a working day: from an instant past the
   deadline to a later one that is not.
   */
  predicate SetBackBetween(w: World, team: string, at: int, later: int) {
    && 0 <= at <= later && Open(w, team)
    && w.local(team, at).weekday in w.teams[team].config.value.workingDays
    && w.local(team, at).day == w.local(team, later).day
    && PastDeadline(w, team, at) && !PastDeadline(w, team, later)
  }

  ghost predicate SetBack(w: World) {
    exists team, at, later :: SetBackBetween(w, team, at, later)
  }

  ghost predicate LateAreFrozen(w: World) {
    forall trace, id :: id in Run(w, trace).rows && Run(w, trace).rows[id].isLate ==> Frozen(w, trace, id)
  }

  lemma {:induction false} LateWithoutSetBack(w: World, trace: seq<Event>, id: RowId)
    requires !SetBack(w) && id in Run(w, trace).rows && Run(w, trace).rows[id].isLate
    ensures Frozen(w, trace, id)
  {
    var s, row := Run(w, trace), Run(w, trace).rows[id];
    FrozenExactly(w, trace, id);
    if later :| s.now <= later && EditableAt(w, row, later) {
      var at := RowCreated(w, trace, id);
      assert SetBackBetween(w, row.team, at, later);
    } else if call :| Changes(s, call, id) {
      var at, later := EditLetIn(w, trace, call, id, s.pending[call].change);
      assert SetBackBetween(w, row.team, at, later);
    }
  }

  /** A submission at that instant, by the first member of a team to make one. */
  lemma {:induction false} SubmittedLate(w: World, team: string, at: int) returns (trace: seq<Event>)
    requires 0 <= at && Open(w, team) && PastDeadline(w, team, at)
    requires w.local(team, at).weekday in w.teams[team].config.value.workingDays
    ensures Run(w, trace).now == at && "id" in Run(w, trace).rows
    ensures var row := Run(w, trace).rows["id"];
      row.isLate && !row.deleted && row.team == team && row.day == w.local(team, at).day
  {
    var dto := Submission("", "", None);
    LateMeansPastDeadline(w, "id", team, "user", dto, at);
    var check := SubmitCheck("call", "id", team, "user", dto, at);
    RunMore(w, [], check);
    assert Run(w, []) == State(map[], map[], 0);
    assert [] + [check] == [check];
    RunMore(w, [check], Write("call", at));
    trace := [check] + [Write("call", at)];
  }

  lemma {:induction false} SetBackThaws(w: World, team: string, at: int, later: int)
    requires SetBackBetween(w, team, at, later)
    ensures !LateAreFrozen(w)
  {
    var trace := SubmittedLate(w, team, at);
    EditChanges(w, trace, "id", later);
  }

  /**
   Standups created late are never edited, in any run, exactly if no team's clock is ever set back
   over its deadline within a working day, as may happen when summer time ends.
   */
  lemma {:induction false} LateFreezeExactly(w: World)
    ensures LateAreFrozen(w) <==> !SetBack(w)
  {
    if team, at, later :| SetBackBetween(w, team, at, later) {
      SetBackThaws(w, team, at, later);
    } else {
      forall trace, id | id in Run(w, trace).rows && Run(w, trace).rows[id].isLate
        ensures Frozen(w, trace, id)
      {
        LateWithoutSetBack(w, trace, id);
      }
    }
  }

  predicate NotAfter(a: LocalTime, b: LocalTime) {
    Before(a.day, b.day) || (a.day == b.day && MinutesOf(a.time) <= MinutesOf(b.time))
  }

  /** Local clocks do not run backwards. */
  ghost predicate ClocksAdvance(w: World) {
    forall team: string, a: int, b: int :: a <= b ==> NotAfter(w.local(team, a), w.local(team, b))
  }

  /** So with clocks that do not run backwards a standup created late is never edited. */
  lemma {:induction false} LateStandupsAreFrozen(w: World, trace: seq<Event>, more: seq<Event>, id: RowId)
    requires ClocksAdvance(w) && id in Run(w, trace).rows && Run(w, trace).rows[id].isLate
    ensures id in Run(w, trace + more).rows && Run(w, trace + more).rows[id] == Run(w, trace).rows[id]
  {
    forall team, at, later
      ensures !SetBackBetween(w, team, at, later)
    {
      assert at <= later ==> NotAfter(w.local(team, at), w.local(team, later));
    }
    LateWithoutSetBack(w, trace, id);
    assert SameRow(Run(w, trace), Run(w, trace + more), id);
  }
}
