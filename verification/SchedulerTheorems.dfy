/** When writers keep out of each other's way, and what happens when they do not. */
module SchedulerTheorems {
  import opened Text
  import opened Entities
  import opened ReminderTime
  import opened Scheduler
  import opened SchedulerRuns

  /** A reconciliation of the team has read its row and has operations left. */
  ghost predicate Midway(s: State, team: TeamId) {
    exists c :: c in s.calls && s.calls[c].Applying? && s.calls[c].team == team
  }

  predicate WritesTo(s: State, e: Event, team: TeamId) {
    e.WriteEvent? && e.write.team == team && e.call !in s.calls && Written(s.teams, e.write).Some?
  }

  /** Nothing is written for the team between a reconciliation's reading and its last operation, and none dies. */
  ghost predicate Apart(trace: seq<Event>, team: TeamId) {
    trace != [] ==>
      var before, e := trace[..|trace| - 1], trace[|trace| - 1];
      && Apart(before, team)
      && !DiesFor(Run(before), e, team)
      && (WritesTo(Run(before), e, team) ==> !Midway(Run(before), team))
  }

  /**
   The slot was last touched by a reconciliation that read the row as it is, or one that has
   read it so, or is going to, has yet to touch it.
   */
  ghost predicate UpToDate(trace: seq<Event>, slot: Slot) {
    LastRead(trace, slot) == Current(Run(trace).teams, slot.team) || ToBeTouched(Run(trace), slot)
  }

  ghost predicate ToBeTouched(s: State, slot: Slot) {
    exists c :: c in s.calls && Touches(s.calls[c], slot)
  }

  predicate Touches(c: Call, slot: Slot) {
    match c
    case Reading(team) => team == slot.team
    case Applying(_, _, todo) => Remove(slot) in todo
  }

  /** What reconciliations of the team have read is its row as it is. */
  ghost predicate ReadsCurrent(s: State, team: TeamId) {
    forall c :: c in s.calls && s.calls[c].Applying? && s.calls[c].team == team ==>
      s.calls[c].read == Current(s.teams, team)
  }

  lemma {:induction false} RowKept(s: State, e: Event, team: TeamId)
    requires !WritesTo(s, e, team)
    ensures Current(Step(s, e).teams, team) == Current(s.teams, team)
  {
  }

  lemma {:induction false} StepReadsCurrent(s: State, e: Event, team: TeamId)
    requires ReadsCurrent(s, team) && (WritesTo(s, e, team) ==> !Midway(s, team))
    ensures ReadsCurrent(Step(s, e), team)
  {
    if !WritesTo(s, e, team) {
      RowKept(s, e, team);
    }
  }

  lemma {:induction false} RemovesAll(team: TeamId, read: Option<Config>, slot: Slot)
    requires slot.team == team
    ensures Remove(slot) in Ops(team, read)
  {
    match slot
    case DigestSlot(_) => assert Ops(team, read)[0] == Remove(slot);
    case ReminderSlot(_, Primary) => assert Ops(team, read)[1] == Remove(slot);
    case ReminderSlot(_, FifteenMinutes) => assert Ops(team, read)[2] == Remove(slot);
    case ReminderSlot(_, Final) => assert Ops(team, read)[3] == Remove(slot);
  }

  lemma {:induction false} TouchComes(s: State, e: Event, slot: Slot)
    requires CallsFit(s) && ToBeTouched(s, slot) && !Operates(s, e, slot) && !DiesFor(s, e, slot.team)
    ensures ToBeTouched(Step(s, e), slot)
  {
    var c :| c in s.calls && Touches(s.calls[c], slot);
    assert CallFits(s.calls[c]);
    assert s.calls[c].team == slot.team by {
      if s.calls[c].Applying? {
        var i :| 0 <= i < |s.calls[c].todo| && s.calls[c].todo[i] == Remove(slot);
      }
    }
    if s.calls[c].Reading? {
      RemovesAll(slot.team, Current(s.teams, slot.team), slot);
    } else if e.ApplyEvent? && e.call == c {
      var i :| 0 <= i < |s.calls[c].todo| && s.calls[c].todo[i] == Remove(slot);
      assert s.calls[c].todo[1..][i - 1] == Remove(slot);
    }
    assert c in Step(s, e).calls && Touches(Step(s, e).calls[c], slot);
  }

  lemma {:induction false} StaysUpToDate(trace: seq<Event>, slot: Slot)
    requires Apart(trace, slot.team)
    ensures UpToDate(trace, slot) && ReadsCurrent(Run(trace), slot.team) && NoneDied(trace, slot.team)
  {
    if trace != [] {
      var before, e := trace[..|trace| - 1], trace[|trace| - 1];
      var s := Run(before);
      StaysUpToDate(before, slot);
      RunFits(before);
      StepReadsCurrent(s, e, slot.team);
      if WritesTo(s, e, slot.team) {
        assert Touches(Run(trace).calls[e.call], slot);
      } else {
        RowKept(s, e, slot.team);
        if Operates(s, e, slot) {
          assert CallFits(s.calls[e.call]);
        } else if ToBeTouched(s, slot) {
          TouchComes(s, e, slot);
        }
      }
    }
  }

  lemma {:induction false} NoTouchAtRest(s: State, slot: Slot)
    requires CallsFit(s)
    ensures ToBeTouched(s, slot) ==> !AtRest(s, slot.team)
  {
    if ToBeTouched(s, slot) {
      var c :| c in s.calls && Touches(s.calls[c], slot);
      assert CallFits(s.calls[c]);
      if s.calls[c].Applying? {
        var i :| 0 <= i < |s.calls[c].todo| && s.calls[c].todo[i] == Remove(slot);
      }
    }
  }

  /**
   If nothing is written for a team while one of its reconciliations is between its reading and
   its last operation, and none dies, then at rest the team's jobs are those its row calls for.
   */
  lemma {:induction false} TeamAgreesApart(trace: seq<Event>, team: TeamId)
    requires Apart(trace, team) && AtRest(Run(trace), team)
    ensures TeamAgrees(Run(trace), team)
    ensures JobsAsConfigured(Run(trace).teams, Registered(Run(trace).jobs), team)
  {
    forall slot: Slot | slot.team == team
      ensures NoneDied(trace, team) && Holds(Run(trace).jobs, slot, Current(Run(trace).teams, team))
    {
      StaysUpToDate(trace, slot);
      AtRestAsRead(trace, slot);
      RunFits(trace);
      NoTouchAtRest(Run(trace), slot);
    }
    AgreeingIsConfigured(Run(trace), team);
  }

  lemma {:induction false} AgreeingIsConfigured(s: State, team: TeamId)
    requires TeamAgrees(s, team)
    ensures JobsAsConfigured(s.teams, Registered(s.jobs), team)
  {
    forall slot: Slot | slot.team == team
      ensures Holds(s.jobs, slot, Current(s.teams, team))
      ensures slot in s.jobs ==> EntryFits(slot, Registered(s.jobs)[slot], s.jobs[slot])
    {
      if slot in s.jobs {
        EntryForFits(slot, s.jobs[slot]);
      }
    }
  }

  /** The same of all teams at once: the registry is what the tables call for. */
  lemma {:induction false} IndexAgrees(trace: seq<Event>)
    requires (forall team :: Apart(trace, team)) && Run(trace).calls == map[]
    ensures Agreement(Run(trace).teams, Registered(Run(trace).jobs))
    ensures forall team :: JobsAsConfigured(Run(trace).teams, Registered(Run(trace).jobs), team)
  {
    var s := Run(trace);
    forall slot: Slot
      ensures Holds(s.jobs, slot, Current(s.teams, slot.team))
    {
      TeamAgreesApart(trace, slot.team);
    }
    forall team
      ensures JobsAsConfigured(s.teams, Registered(s.jobs), team)
    {
      TeamAgreesApart(trace, team);
    }
  }

  /**
   Whatever overlaps: every registered job is of a configuration that a reconciliation has read,
   and fires each day at the minute, and in the zone, of that configuration, and at no other.
   */
  lemma {:induction false} JobsFireOnTime(trace: seq<Event>, slot: Slot, minute: nat, hour: nat, day: nat, month: nat,
                                          weekday: nat)
    requires slot in Run(trace).jobs && minute < 60
    ensures LastRead(trace, slot).Some? && slot in Registered(Run(trace).jobs)
    ensures var config, entry := LastRead(trace, slot).value, Registered(Run(trace).jobs)[slot];
      && entry.tz == config.timezone && entry.slot == slot
      && (CronMatches(entry.pattern, minute, hour, day, month, weekday)
          <==> 60 * hour + minute == DueMinute(slot, config))
  {
    RegisteredAsRead(trace, slot);
    EntryIsDue(slot, LastRead(trace, slot).value, minute, hour, day, month, weekday);
  }

  // A reconciliation from its reading to its end

  function ApplyAll(jobs: map<Slot, Config>, todo: seq<Op>, read: Option<Config>): map<Slot, Config>
    decreases |todo|
  {
    if todo == [] then jobs else ApplyAll(Apply(jobs, todo[0], read), todo[1..], read)
  }

  lemma {:induction false} OneOperation(trace: seq<Event>, call: RowId, calls: map<RowId, Call>, c: Call)
    requires call !in calls && Run(trace).calls == calls[call := c] && c.Applying? && c.todo != []
    ensures var s := Run(trace);
      Run(trace + [ApplyEvent(call)])
        == State(s.teams, Apply(s.jobs, c.todo[0], c.read),
                 if |c.todo| == 1 then calls else calls[call := c.(todo := c.todo[1..])])
  {
    RunMore(trace, ApplyEvent(call));
    assert calls[call := c] - {call} == calls;
  }

  /** All operations a call has left, with nothing in between. */
  lemma {:induction false} RunToEnd(trace: seq<Event>, call: RowId, calls: map<RowId, Call>, c: Call)
    returns (more: seq<Event>)
    requires call !in calls && Run(trace).calls == calls[call := c] && c.Applying? && c.todo != []
    ensures Run(trace + more) == State(Run(trace).teams, ApplyAll(Run(trace).jobs, c.todo, c.read), calls)
    decreases |c.todo|
  {
    OneOperation(trace, call, calls, c);
    more := [ApplyEvent(call)];
    if |c.todo| > 1 {
      var rest := RunToEnd(trace + more, call, calls, c.(todo := c.todo[1..]));
      assert trace + (more + rest) == (trace + more) + rest;
      more := more + rest;
    } else {
      assert c.todo[1..] == [];
    }
  }

  lemma {:induction false} ApplyAllSplit(jobs: map<Slot, Config>, a: seq<Op>, b: seq<Op>, read: Option<Config>)
    ensures ApplyAll(jobs, a + b, read) == ApplyAll(ApplyAll(jobs, a, read), b, read)
    decreases |a|
  {
    if a == [] {
      assert a + b == b;
    } else {
      assert (a + b)[0] == a[0] && (a + b)[1..] == a[1..] + b;
      ApplyAllSplit(Apply(jobs, a[0], read), a[1..], b, read);
    }
  }

  lemma {:induction false} ApplyFour(jobs: map<Slot, Config>, a: Op, b: Op, c: Op, d: Op, read: Option<Config>)
    ensures ApplyAll(jobs, [a, b, c, d], read) == Apply(Apply(Apply(Apply(jobs, a, read), b, read), c, read), d, read)
  {
    assert [a, b, c, d][1..] == [b, c, d] && [b, c, d][1..] == [c, d] && [c, d][1..] == [d];
    assert ApplyAll(Apply(Apply(Apply(jobs, a, read), b, read), c, read), [d], read)
        == Apply(Apply(Apply(Apply(jobs, a, read), b, read), c, read), d, read);
    assert ApplyAll(Apply(Apply(jobs, a, read), b, read), [c, d], read)
        == ApplyAll(Apply(Apply(Apply(jobs, a, read), b, read), c, read), [d], read);
  }

  lemma {:induction false} RemovalsRemove(jobs: map<Slot, Config>, team: TeamId, read: Option<Config>)
    ensures ApplyAll(jobs, Removals(team), read) == jobs - SlotsOf(team)
  {
    var four := Removals(team);
    ApplyFour(jobs, four[0], four[1], four[2], four[3], read);
  }

  lemma {:induction false} RegistrationsRegister(jobs: map<Slot, Config>, team: TeamId, config: Config)
    ensures ApplyAll(jobs, Registrations(team), Some(config)) == jobs + map slot | slot in SlotsOf(team) :: config
  {
    var four := Registrations(team);
    ApplyFour(jobs, four[0], four[1], four[2], four[3], Some(config));
  }

  /** A reconciliation that nothing overlaps gives the team the jobs of what it has read, and touches no others. */
  lemma {:induction false} ReconciliationApplies(jobs: map<Slot, Config>, team: TeamId, read: Option<Config>)
    ensures ApplyAll(jobs, Ops(team, read), read)
         == (jobs - SlotsOf(team)) + if read.Some? then map slot | slot in SlotsOf(team) :: read.value else map[]
  {
    RemovalsRemove(jobs, team, read);
    if read.Some? {
      ApplyAllSplit(jobs, Removals(team), Registrations(team), read);
      RegistrationsRegister(jobs - SlotsOf(team), team, read.value);
    } else {
      assert Ops(team, read) == Removals(team);
    }
  }

  lemma {:induction false} AppliedHolds(jobs: map<Slot, Config>, team: TeamId, read: Option<Config>, slot: Slot)
    requires slot.team == team
    ensures Holds(ApplyAll(jobs, Ops(team, read), read), slot, read)
  {
    ReconciliationApplies(jobs, team, read);
    SlotsOfTeam(slot, team);
  }

  /** An update of an active configuration, up to where its reconciliation has read it. */
  function UpdateAndRead(call: RowId, team: TeamId, config: Config): seq<Event> {
    [WriteEvent(call, UpdateConfig(team, config)), ReadEvent(call)]
  }

  lemma {:induction false} AfterUpdate(trace: seq<Event>, call: RowId, team: TeamId, config: Config)
    requires Live(Run(trace).teams, team) && Run(trace).teams[team].config.Some? && config.isActive
    requires call !in Run(trace).calls
    ensures var s := Run(trace);
      Run(trace + UpdateAndRead(call, team, config))
        == State(s.teams[team := s.teams[team].(config := Some(config))], s.jobs,
                 s.calls[call := Applying(team, Some(config), Ops(team, Some(config)))])
  {
    var s, write := Run(trace), WriteEvent(call, UpdateConfig(team, config));
    var teams := s.teams[team := s.teams[team].(config := Some(config))];
    RunMore(trace, write);
    assert Run(trace + [write]) == State(teams, s.jobs, s.calls[call := Reading(team)]);
    RunMore(trace + [write], ReadEvent(call));
    assert Current(teams, team) == Some(config);
    assert trace + UpdateAndRead(call, team, config) == (trace + [write]) + [ReadEvent(call)];
  }

  lemma {:induction false} AfterBoth(trace: seq<Event>, team: TeamId, a: Config, b: Config, first: RowId, second: RowId)
    returns (start: seq<Event>, older: Call, newer: Call)
    requires Live(Run(trace).teams, team) && Run(trace).teams[team].config.Some? && a.isActive && b.isActive
    requires first != second && first !in Run(trace).calls && second !in Run(trace).calls
    ensures Current(Run(trace + start).teams, team) == Some(b)
    ensures Run(trace + start).calls == Run(trace).calls[first := older][second := newer]
    ensures older == Applying(team, Some(a), Ops(team, Some(a))) && older.todo != []
    ensures newer == Applying(team, Some(b), Ops(team, Some(b))) && newer.todo != []
  {
    older, newer := Applying(team, Some(a), Ops(team, Some(a))), Applying(team, Some(b), Ops(team, Some(b)));
    AfterUpdate(trace, first, team, a);
    AfterUpdate(trace + UpdateAndRead(first, team, a), second, team, b);
    start := UpdateAndRead(first, team, a) + UpdateAndRead(second, team, b);
    assert trace + start == (trace + UpdateAndRead(first, team, a)) + UpdateAndRead(second, team, b);
  }

  /**
   Overlapping updates can leave the older one registered: from any moment at which a team is
   at rest, there is a run after which it is at rest again, with all four jobs as they were
   called for by the configuration before its last.
   */
  lemma {:induction false} OverlapLeavesOlder(trace: seq<Event>, team: TeamId, a: Config, b: Config,
                                              first: RowId, second: RowId) returns (more: seq<Event>)
    requires Live(Run(trace).teams, team) && Run(trace).teams[team].config.Some? && AtRest(Run(trace), team)
    requires a.isActive && b.isActive && first != second && first !in Run(trace).calls && second !in Run(trace).calls
    ensures AtRest(Run(trace + more), team) && Current(Run(trace + more).teams, team) == Some(b)
    ensures forall slot: Slot :: slot.team == team ==> Holds(Run(trace + more).jobs, slot, Some(a))
  {
    var jobs;
    more, jobs := OverlappingUpdates(trace, team, a, b, first, second);
    AllHold(jobs, team, Some(a));
  }

  lemma {:induction false} OverlappingUpdates(trace: seq<Event>, team: TeamId, a: Config, b: Config,
                                              first: RowId, second: RowId)
    returns (more: seq<Event>, jobs: map<Slot, Config>)
    requires Live(Run(trace).teams, team) && Run(trace).teams[team].config.Some? && a.isActive && b.isActive
    requires first != second && first !in Run(trace).calls && second !in Run(trace).calls
    ensures Current(Run(trace + more).teams, team) == Some(b) && Run(trace + more).calls == Run(trace).calls
    ensures Run(trace + more).jobs == ApplyAll(jobs, Ops(team, Some(a)), Some(a))
  {
    var start, older, newer := AfterBoth(trace, team, a, b, first, second);
    more, jobs := ContinueToEnd(trace, start, older, newer, first, second, Run(trace).calls);
  }

  /** The operations of the second of two reconciliations, then those of the first. */
  lemma {:induction false} FinishBoth(trace: seq<Event>, older: Call, newer: Call, first: RowId, second: RowId,
                                      calls: map<RowId, Call>)
    returns (one: seq<Event>, two: seq<Event>)
    requires first != second && first !in calls && second !in calls
    requires older.Applying? && older.todo != [] && newer.Applying? && newer.todo != []
    requires Run(trace).calls == calls[first := older][second := newer]
    ensures Run((trace + one) + two)
         == State(Run(trace).teams, ApplyAll(Run(trace + one).jobs, older.todo, older.read), calls)
  {
    one := RunToEnd(trace, second, calls[first := older], newer);
    two := RunToEnd(trace + one, first, calls, older);
  }

  lemma {:induction false} ContinueToEnd(trace: seq<Event>, start: seq<Event>, older: Call, newer: Call,
                                         first: RowId, second: RowId, calls: map<RowId, Call>)
    returns (more: seq<Event>, jobs: map<Slot, Config>)
    requires first != second && first !in calls && second !in calls
    requires older.Applying? && older.todo != [] && newer.Applying? && newer.todo != []
    requires Run(trace + start).calls == calls[first := older][second := newer]
    ensures Run(trace + more) == State(Run(trace + start).teams, ApplyAll(jobs, older.todo, older.read), calls)
  {
    var one, two := FinishBoth(trace + start, older, newer, first, second, calls);
    more, jobs := start + one + two, Run(trace + start + one).jobs;
    assert trace + more == trace + start + one + two;
  }

  lemma {:induction false} AllHold(jobs: map<Slot, Config>, team: TeamId, read: Option<Config>)
    ensures forall slot: Slot :: slot.team == team ==> Holds(ApplyAll(jobs, Ops(team, read), read), slot, read)
  {
    forall slot: Slot | slot.team == team
      ensures Holds(ApplyAll(jobs, Ops(team, read), read), slot, read)
    {
      AppliedHolds(jobs, team, read, slot);
    }
  }

  // What the tables hold

  /** The configuration a step writes for the team, if any: a new team's, or an update of one that has one. */
  function Configures(s: State, e: Event, team: TeamId): Option<Config> {
    if !e.WriteEvent? || e.call in s.calls then None
    else
      match e.write
      case CreateTeam(own, _) => if own == team && team !in s.teams then Some(DEFAULT_CONFIG) else None
      case UpdateConfig(own, config) =>
        if own == team && team in s.teams && s.teams[team].config.Some? then Some(config) else None
      case SoftDelete(_) => None
  }

  /** The step deletes the team. */
  predicate Deletes(s: State, e: Event, team: TeamId) {
    e.WriteEvent? && e.call !in s.calls && e.write == SoftDelete(team) && team in s.teams
  }

  lemma {:induction false} StepWritesRow(s: State, e: Event, team: TeamId)
    requires team in Step(s, e).teams
    ensures var row := Step(s, e).teams[team];
      && (Configures(s, e, team).Some? ==> row.config == Configures(s, e, team))
      && (Configures(s, e, team).None? ==> team in s.teams && row.config == s.teams[team].config)
      && (row.deleted <==> Deletes(s, e, team) || (team in s.teams && s.teams[team].deleted))
      && (team in s.teams ==> row.ownerId == s.teams[team].ownerId)
      && (team !in s.teams ==> e.WriteEvent? && e.write == CreateTeam(team, row.ownerId))
  {
  }

  ghost predicate LastConfigured(trace: seq<Event>, team: TeamId, config: Option<Config>, k: int) {
    && 0 <= k < |trace| && config.Some? && Configures(Run(trace[..k]), trace[k], team) == config
    && forall j :: k < j < |trace| ==> Configures(Run(trace[..j]), trace[j], team).None?
  }

  ghost predicate Deleted(trace: seq<Event>, team: TeamId) {
    exists k :: 0 <= k < |trace| && Deletes(Run(trace[..k]), trace[k], team)
  }

  lemma {:induction false} DeletedMore(trace: seq<Event>, e: Event, team: TeamId)
    ensures Deleted(trace + [e], team) <==> Deleted(trace, team) || Deletes(Run(trace), e, team)
  {
    var longer := trace + [e];
    assert longer[..|trace|] == trace && longer[|trace|] == e;
    assert forall k :: 0 <= k < |trace| ==> longer[..k] == trace[..k] && longer[k] == trace[k];
  }

  lemma {:induction false} StillLastConfigured(trace: seq<Event>, e: Event, team: TeamId, config: Option<Config>,
                                               k: int)
    requires LastConfigured(trace, team, config, k) && Configures(Run(trace), e, team).None?
    ensures LastConfigured(trace + [e], team, config, k)
  {
    var longer := trace + [e];
    assert longer[..|trace|] == trace && longer[..k] == trace[..k] && longer[k] == trace[k];
    forall j | k < j < |longer|
      ensures Configures(Run(longer[..j]), longer[j], team).None?
    {
      if j < |trace| {
        assert longer[..j] == trace[..j] && longer[j] == trace[j];
      }
    }
  }

  /** A team has the configuration written last, at first the default, and is deleted if that was written. */
  lemma {:induction false} RowsAreWritten(trace: seq<Event>, team: TeamId) returns (k: int)
    requires team in Run(trace).teams
    ensures LastConfigured(trace, team, Run(trace).teams[team].config, k)
    ensures Run(trace).teams[team].deleted <==> Deleted(trace, team)
  {
    var before, e := trace[..|trace| - 1], trace[|trace| - 1];
    assert trace == before + [e];
    StepWritesRow(Run(before), e, team);
    DeletedMore(before, e, team);
    if team in Run(before).teams {
      k := RowsAreWritten(before, team);
    } else {
      NotDeletedBefore(before, team);
    }
    if Configures(Run(before), e, team).Some? {
      k := |before|;
      assert trace[..k] == before;
    } else {
      StillLastConfigured(before, e, team, Run(before).teams[team].config, k);
    }
  }

  lemma {:induction false} TeamsStay(trace: seq<Event>, k: int, team: TeamId)
    requires 0 <= k <= |trace| && team in Run(trace[..k]).teams
    ensures team in Run(trace).teams
    decreases |trace| - k
  {
    if k == |trace| {
      assert trace[..k] == trace;
    } else {
      assert trace[..k + 1][..k] == trace[..k];
      TeamsStay(trace, k + 1, team);
    }
  }

  lemma {:induction false} NotDeletedBefore(trace: seq<Event>, team: TeamId)
    requires team !in Run(trace).teams
    ensures !Deleted(trace, team)
  {
    if k :| 0 <= k < |trace| && Deletes(Run(trace[..k]), trace[k], team) {
      TeamsStay(trace, k, team);
    }
  }
}
