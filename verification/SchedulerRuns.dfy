/**
 Writers and reconciliations as they overlap: a writer (teams.service.ts) awaits between its
 write and the reconciliation it starts, and that awaits between reading the team's row and
 each of up to eight operations on the queues.
 */
module SchedulerRuns {
  import opened Text
  import opened Entities
  import opened ReminderTime
  import opened Scheduler

  datatype Op = Remove(slot: Slot) | Put(slot: Slot)

  /** A reconciliation: yet to read its team's row, or with operations left from what it has read. */
  datatype Call = Reading(team: TeamId) | Applying(team: TeamId, read: Option<Config>, todo: seq<Op>)

  /** `jobs` holds, for each registered job, the configuration it was made from; `Registered` shows the registry. */
  datatype State = State(teams: Teams, jobs: map<Slot, Config>, calls: map<RowId, Call>)

  function Registered(jobs: map<Slot, Config>): Registry {
    map slot | slot in jobs :: EntryFor(slot, jobs[slot])
  }

  const EMPTY := State(map[], map[], map[])

  /** What a reconciliation of the team goes by: its configuration, if it is active. */
  function Current(teams: Teams, team: TeamId): Option<Config> {
    if Active(teams, team) then teams[team].config else None
  }

  function Removals(team: TeamId): seq<Op> {
    [Remove(DigestSlot(team)), Remove(ReminderSlot(team, Primary)), Remove(ReminderSlot(team, FifteenMinutes)),
     Remove(ReminderSlot(team, Final))]
  }

  function Registrations(team: TeamId): seq<Op> {
    [Put(DigestSlot(team)), Put(ReminderSlot(team, Primary)), Put(ReminderSlot(team, FifteenMinutes)),
     Put(ReminderSlot(team, Final))]
  }

  function Ops(team: TeamId, read: Option<Config>): seq<Op> {
    Removals(team) + if read.Some? then Registrations(team) else []
  }

  datatype Write =
    | CreateTeam(team: TeamId, owner: UserId)
    | UpdateConfig(team: TeamId, config: Config)
    | SoftDelete(team: TeamId)

  /** The database part of a writer; None where it fails and nothing further is done. */
  function Written(teams: Teams, w: Write): Option<Teams> {
    match w
    case CreateTeam(team, owner) =>
      if team in teams then None else Some(teams[team := Team(owner, false, Some(DEFAULT_CONFIG))])
    case UpdateConfig(team, config) =>
      if team in teams && teams[team].config.Some?
      then Some(teams[team := teams[team].(config := Some(config))]) else None
    case SoftDelete(team) => if Live(teams, team) then Some(teams[team := teams[team].(deleted := true)]) else None
  }

  datatype Event =
    | WriteEvent(call: RowId, write: Write)
    | StartEvent(call: RowId, team: TeamId)  // the loop at boot
    | ReadEvent(call: RowId)
    | ApplyEvent(call: RowId)
    | CallDiesEvent(call: RowId)

  function Apply(jobs: map<Slot, Config>, op: Op, read: Option<Config>): map<Slot, Config> {
    match op
    case Remove(slot) => jobs - {slot}
    case Put(slot) => if read.Some? then jobs[slot := read.value] else jobs
  }

  predicate CanApply(s: State, call: RowId) {
    call in s.calls && s.calls[call].Applying? && s.calls[call].todo != []
  }

  function Step(s: State, e: Event): State {
    match e
    case WriteEvent(call, write) =>
      if call in s.calls || Written(s.teams, write).None? then s
      else s.(teams := Written(s.teams, write).value, calls := s.calls[call := Reading(write.team)])
    case StartEvent(call, team) =>
      if call in s.calls then s else s.(calls := s.calls[call := Reading(team)])
    case ReadEvent(call) =>
      if !(call in s.calls && s.calls[call].Reading?) then s
      else
        var team := s.calls[call].team;
        var read := Current(s.teams, team);
        s.(calls := s.calls[call := Applying(team, read, Ops(team, read))])
    case ApplyEvent(call) =>
      if !CanApply(s, call) then s
      else
        var Applying(team, read, todo) := s.calls[call];
        s.(jobs := Apply(s.jobs, todo[0], read),
           calls := if |todo| == 1 then s.calls - {call} else s.calls[call := Applying(team, read, todo[1..])])
    case CallDiesEvent(call) => s.(calls := s.calls - {call})
  }

  function Run(trace: seq<Event>): State {
    if trace == [] then EMPTY else Step(Run(trace[..|trace| - 1]), trace[|trace| - 1])
  }

  lemma {:induction false} RunMore(trace: seq<Event>, e: Event)
    ensures Run(trace + [e]) == Step(Run(trace), e)
  {
    assert (trace + [e])[..|trace|] == trace;
  }

  // Who operated last

  /** The configuration read by the reconciliation that last operated on the slot; None if none has or it read none. */
  function LastRead(trace: seq<Event>, slot: Slot): Option<Config> {
    if trace == [] then None
    else
      var before, e := trace[..|trace| - 1], trace[|trace| - 1];
      if Operates(Run(before), e, slot) then Run(before).calls[e.call].read else LastRead(before, slot)
  }

  predicate Operates(s: State, e: Event, slot: Slot) {
    e.ApplyEvent? && CanApply(s, e.call) && s.calls[e.call].todo[0].slot == slot
  }

  predicate Holds(jobs: map<Slot, Config>, slot: Slot, read: Option<Config>) {
    match read
    case Some(config) => slot in jobs && jobs[slot] == config
    case None => slot !in jobs
  }

  /** The operations left to a call are on its team; it puts back what it removes if it has read a configuration. */
  ghost predicate CallFits(c: Call) {
    c.Applying? ==>
      && (forall i :: 0 <= i < |c.todo| ==> c.todo[i].slot.team == c.team && (c.todo[i].Put? ==> c.read.Some?))
      && (forall i :: 0 <= i < |c.todo| && c.todo[i].Remove? && c.read.Some? ==> PutAfter(c.todo, i))
  }

  ghost predicate PutAfter(todo: seq<Op>, i: nat)
    requires i < |todo|
  {
    exists j :: i < j < |todo| && todo[j] == Put(todo[i].slot)
  }

  ghost predicate CallsFit(s: State) {
    forall c :: c in s.calls ==> CallFits(s.calls[c])
  }

  lemma {:induction false} OpsFit(team: TeamId, read: Option<Config>)
    ensures CallFits(Applying(team, read, Ops(team, read)))
  {
    var ops := Ops(team, read);
    forall i | 0 <= i < |ops| && ops[i].Remove? && read.Some?
      ensures PutAfter(ops, i)
    {
      assert ops[i + 4] == Put(ops[i].slot);
    }
  }

  lemma {:induction false} RestFits(c: Call)
    requires c.Applying? && CallFits(c) && c.todo != []
    ensures CallFits(c.(todo := c.todo[1..]))
  {
    var rest := c.todo[1..];
    forall i | 0 <= i < |rest| && rest[i].Remove? && c.read.Some?
      ensures PutAfter(rest, i)
    {
      assert PutAfter(c.todo, i + 1);
      var j :| i + 1 < j < |c.todo| && c.todo[j] == Put(c.todo[i + 1].slot);
      assert rest[j - 1] == c.todo[j];
    }
  }

  lemma {:induction false} StepKeepsCalls(s: State, e: Event)
    requires CallsFit(s)
    ensures CallsFit(Step(s, e))
  {
    if e.ReadEvent? && e.call in s.calls && s.calls[e.call].Reading? {
      OpsFit(s.calls[e.call].team, Current(s.teams, s.calls[e.call].team));
    } else if e.ApplyEvent? && CanApply(s, e.call) {
      RestFits(s.calls[e.call]);
    }
  }

  lemma {:induction false} RunFits(trace: seq<Event>)
    ensures CallsFit(Run(trace))
  {
    if trace != [] {
      RunFits(trace[..|trace| - 1]);
      StepKeepsCalls(Run(trace[..|trace| - 1]), trace[|trace| - 1]);
    }
  }

  lemma {:induction false} OnlyOperationsTouch(s: State, e: Event, slot: Slot)
    requires !Operates(s, e, slot)
    ensures slot in Step(s, e).jobs <==> slot in s.jobs
    ensures slot in s.jobs ==> Step(s, e).jobs[slot] == s.jobs[slot]
  {
  }

  lemma {:induction false} OperationsHold(s: State, e: Event, slot: Slot)
    requires Operates(s, e, slot) && CallsFit(s)
    ensures slot in Step(s, e).jobs ==> s.calls[e.call].read == Some(Step(s, e).jobs[slot])
    ensures Holds(Step(s, e).jobs, slot, s.calls[e.call].read) || WillPut(Step(s, e), slot, s.calls[e.call].read)
  {
    var c := s.calls[e.call];
    assert CallFits(c);
    if c.todo[0].Remove? && c.read.Some? {
      assert PutAfter(c.todo, 0);
      var j :| 0 < j < |c.todo| && c.todo[j] == Put(slot);
      assert c.todo[1..][j - 1] == Put(slot);
      assert e.call in Step(s, e).calls;
    }
  }

  /** Whatever overlaps: a job that is registered is that of the configuration last read for it. */
  lemma {:induction false} RegisteredAsRead(trace: seq<Event>, slot: Slot)
    requires slot in Run(trace).jobs
    ensures LastRead(trace, slot) == Some(Run(trace).jobs[slot])
  {
    var before, e := trace[..|trace| - 1], trace[|trace| - 1];
    RunFits(before);
    if Operates(Run(before), e, slot) {
      OperationsHold(Run(before), e, slot);
    } else {
      OnlyOperationsTouch(Run(before), e, slot);
      RegisteredAsRead(before, slot);
    }
  }

  /** A call on the team is going to register the slot by a configuration. */
  ghost predicate WillPut(s: State, slot: Slot, read: Option<Config>) {
    exists c :: c in s.calls && s.calls[c].Applying? && s.calls[c].read == read && Put(slot) in s.calls[c].todo
  }

  ghost predicate NoneDied(trace: seq<Event>, team: TeamId) {
    trace != [] ==>
      && NoneDied(trace[..|trace| - 1], team)
      && !DiesFor(Run(trace[..|trace| - 1]), trace[|trace| - 1], team)
  }

  predicate DiesFor(s: State, e: Event, team: TeamId) {
    e.CallDiesEvent? && e.call in s.calls && s.calls[e.call].team == team
  }

  /** No reconciliation of the team is under way. */
  predicate AtRest(s: State, team: TeamId) {
    forall c :: c in s.calls ==> s.calls[c].team != team
  }

  lemma {:induction false} PutIsOfTeam(c: Call, slot: Slot)
    requires c.Applying? && CallFits(c) && Put(slot) in c.todo
    ensures slot.team == c.team
  {
    var i :| 0 <= i < |c.todo| && c.todo[i] == Put(slot);
  }

  /** A call that is going to register a slot does so, unless it dies. */
  lemma {:induction false} PutComes(s: State, e: Event, slot: Slot, read: Option<Config>)
    requires CallsFit(s) && WillPut(s, slot, read) && !Operates(s, e, slot) && !DiesFor(s, e, slot.team)
    ensures WillPut(Step(s, e), slot, read)
  {
    var c :| c in s.calls && s.calls[c].Applying? && s.calls[c].read == read && Put(slot) in s.calls[c].todo;
    PutIsOfTeam(s.calls[c], slot);
    var i :| 0 <= i < |s.calls[c].todo| && s.calls[c].todo[i] == Put(slot);
    if e.ApplyEvent? && e.call == c {
      assert i > 0;
      assert s.calls[c].todo[1..][i - 1] == Put(slot);
    }
    assert c in Step(s, e).calls && Put(slot) in Step(s, e).calls[c].todo;
  }

  lemma {:induction false} SlotSettles(trace: seq<Event>, slot: Slot)
    requires NoneDied(trace, slot.team)
    ensures Holds(Run(trace).jobs, slot, LastRead(trace, slot)) || WillPut(Run(trace), slot, LastRead(trace, slot))
  {
    if trace != [] {
      var before, e := trace[..|trace| - 1], trace[|trace| - 1];
      SlotSettles(before, slot);
      RunFits(before);
      if Operates(Run(before), e, slot) {
        OperationsHold(Run(before), e, slot);
      } else {
        OnlyOperationsTouch(Run(before), e, slot);
        if WillPut(Run(before), slot, LastRead(before, slot)) {
          PutComes(Run(before), e, slot, LastRead(before, slot));
        }
      }
    }
  }

  lemma {:induction false} NoPutAtRest(s: State, slot: Slot, read: Option<Config>)
    requires CallsFit(s)
    ensures WillPut(s, slot, read) ==> !AtRest(s, slot.team)
  {
    if WillPut(s, slot, read) {
      var c :| c in s.calls && s.calls[c].Applying? && s.calls[c].read == read && Put(slot) in s.calls[c].todo;
      PutIsOfTeam(s.calls[c], slot);
    }
  }

  /** At rest a slot holds what the last reconciliation to touch it had read, if none has died. */
  lemma {:induction false} AtRestAsRead(trace: seq<Event>, slot: Slot)
    requires NoneDied(trace, slot.team) && AtRest(Run(trace), slot.team)
    ensures Holds(Run(trace).jobs, slot, LastRead(trace, slot))
  {
    SlotSettles(trace, slot);
    RunFits(trace);
    NoPutAtRest(Run(trace), slot, LastRead(trace, slot));
  }

  /** The team's jobs are those its row calls for. */
  ghost predicate TeamAgrees(s: State, team: TeamId) {
    forall slot: Slot :: slot.team == team ==> Holds(s.jobs, slot, Current(s.teams, team))
  }

  lemma {:induction false} HoldsOne(jobs: map<Slot, Config>, slot: Slot, a: Option<Config>, b: Option<Config>)
    requires Holds(jobs, slot, a)
    ensures Holds(jobs, slot, b) <==> a == b
  {
  }

  /**
   At rest, and if none of its reconciliations has died, a team's jobs agree with its row
   exactly if for each of them the row was last read as it now is.
   */
  lemma {:induction false} AgreesExactly(trace: seq<Event>, team: TeamId)
    requires NoneDied(trace, team) && AtRest(Run(trace), team)
    ensures TeamAgrees(Run(trace), team) <==>
      forall slot: Slot :: slot.team == team ==> LastRead(trace, slot) == Current(Run(trace).teams, team)
  {
    forall slot: Slot | slot.team == team
      ensures Holds(Run(trace).jobs, slot, Current(Run(trace).teams, team))
              <==> LastRead(trace, slot) == Current(Run(trace).teams, team)
    {
      AtRestAsRead(trace, slot);
      HoldsOne(Run(trace).jobs, slot, LastRead(trace, slot), Current(Run(trace).teams, team));
    }
  }
}
