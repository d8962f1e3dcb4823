/**
 The registered cron jobs as an index derived from the teams and their configuration
 (scheduler.service.ts): what a reconciliation does that nothing overlaps.
 */
module Scheduler {
  import opened Text
  import opened Calendar
  import opened Entities
  import opened ReminderTime

  type Teams = map<TeamId, Team>

  /** A job scheduler of the digest queue or of the reminders queue. */
  datatype Slot = DigestSlot(team: TeamId) | ReminderSlot(team: TeamId, kind: ReminderKind)

  function SlotText(slot: Slot): string {
    match slot
    case DigestSlot(team) => "digest:" + team
    case ReminderSlot(team, kind) => "reminder:" + KindText(kind) + ":" + team
  }

  /** Job schedulers have the same id only when they are the same. */
  lemma {:induction false} SlotTextInjective(a: Slot, b: Slot)
    requires SlotText(a) == SlotText(b)
    ensures a == b
  {
    assert "digest:" == "digest" + [':'] && "reminder:" == "reminder" + [':'];
    assert SlotText(a)[0] == if a.DigestSlot? then 'd' else 'r';
    assert SlotText(b)[0] == if b.DigestSlot? then 'd' else 'r';
    if a.DigestSlot? && b.DigestSlot? {
      CutIsUnique(':', "digest", a.team, "digest", b.team);
    } else if a.ReminderSlot? && b.ReminderSlot? {
      var x, y := KindText(a.kind), KindText(b.kind);
      assert SlotText(a) == "reminder" + [':'] + (x + [':'] + a.team);
      assert SlotText(b) == "reminder" + [':'] + (y + [':'] + b.team);
      CutIsUnique(':', "reminder", x + [':'] + a.team, "reminder", y + [':'] + b.team);
      CutIsUnique(':', x, a.team, y, b.team);
    }
  }

  /** When and where a job is run: its cron pattern, its time zone, and the team and kind in its data. */
  datatype Entry = Entry(pattern: string, tz: string, slot: Slot)

  type Registry = map<Slot, Entry>

  predicate Live(teams: Teams, team: TeamId) {
    team in teams && !teams[team].deleted
  }

  predicate Active(teams: Teams, team: TeamId) {
    Live(teams, team) && teams[team].config.Some? && teams[team].config.value.isActive
  }

  function SlotTime(slot: Slot, config: Config): HhMm {
    match slot
    case DigestSlot(_) => config.deadline
    case ReminderSlot(_, kind) => ScheduleTime(config.deadline, config.reminderTime, kind)
  }

  /** The entry a slot has under a configuration. */
  function EntryFor(slot: Slot, config: Config): Entry {
    Entry(CronFromTime(SlotTime(slot, config)), config.timezone, slot)
  }

  /** What is registered is exactly what the tables call for: all four jobs of every active team, and no others. */
  ghost predicate Agreement(teams: Teams, registry: Registry) {
    && (forall slot: Slot :: slot in registry <==> Active(teams, slot.team))
    && (forall slot: Slot :: slot in registry && Active(teams, slot.team) ==>
          registry[slot] == EntryFor(slot, teams[slot.team].config.value))
  }

  // Reconciling

  /** What reconciling one team makes of the registry. */
  ghost predicate Reconciled(teams: Teams, team: TeamId, before: Registry, after: Registry) {
    && (forall slot: Slot :: slot.team != team ==> (slot in after <==> slot in before))
    && (forall slot: Slot :: slot.team != team && slot in before && slot in after ==> after[slot] == before[slot])
    && (forall slot: Slot :: slot.team == team ==> (slot in after <==> Active(teams, team)))
    && (forall slot: Slot :: slot.team == team && slot in after && Active(teams, team) ==>
          after[slot] == EntryFor(slot, teams[team].config.value))
  }

  function SlotsOf(team: TeamId): set<Slot> {
    {DigestSlot(team), ReminderSlot(team, Primary), ReminderSlot(team, FifteenMinutes), ReminderSlot(team, Final)}
  }

  lemma {:induction false} SlotsOfTeam(slot: Slot, team: TeamId)
    ensures slot in SlotsOf(team) <==> slot.team == team
  {
    match slot
    case DigestSlot(_) =>
    case ReminderSlot(_, Primary) =>
    case ReminderSlot(_, FifteenMinutes) =>
    case ReminderSlot(_, Final) =>
  }

  function EntriesOf(team: TeamId, config: Config): Registry {
    map slot | slot in SlotsOf(team) :: EntryFor(slot, config)
  }

  /** Removes the team's jobs and registers them anew if it is active. */
  function Reconcile(teams: Teams, registry: Registry, team: TeamId): Registry {
    var cleared := registry - SlotsOf(team);
    if !Active(teams, team) then cleared
    else cleared + EntriesOf(team, teams[team].config.value)
  }

  lemma {:induction false} ReconcileReconciles(teams: Teams, registry: Registry, team: TeamId)
    ensures Reconciled(teams, team, registry, Reconcile(teams, registry, team))
  {
    forall slot
      ensures slot in SlotsOf(team) <==> slot.team == team
    {
      SlotsOfTeam(slot, team);
    }
  }

  lemma {:induction false} ReconciledIsUnique(teams: Teams, team: TeamId, before: Registry, a: Registry, b: Registry)
    requires Reconciled(teams, team, before, a) && Reconciled(teams, team, before, b)
    ensures a == b
  {
    assert forall slot: Slot :: slot in a <==> slot in b;
  }

  /** Reconciling a team again changes nothing. */
  lemma {:induction false} ReconcileIsIdempotent(teams: Teams, registry: Registry, team: TeamId)
    ensures var once := Reconcile(teams, registry, team); Reconcile(teams, once, team) == once
  {
    var once := Reconcile(teams, registry, team);
    ReconcileReconciles(teams, registry, team);
    ReconcileReconciles(teams, once, team);
    ReconciledIsUnique(teams, team, registry, once, Reconcile(teams, once, team));
  }

  /** The registry after reconciling the teams of a list, one after the other. */
  function ReconcileEach(teams: Teams, registry: Registry, order: seq<TeamId>): Registry {
    if order == [] then registry
    else Reconcile(teams, ReconcileEach(teams, registry, order[..|order| - 1]), order[|order| - 1])
  }

  /** What reconciling some teams makes of the registry, in whatever order. */
  ghost predicate EachReconciled(teams: Teams, order: seq<TeamId>, before: Registry, after: Registry) {
    && (forall slot: Slot :: slot.team in order ==> (slot in after <==> Active(teams, slot.team)))
    && (forall slot: Slot :: slot.team in order && slot in after && Active(teams, slot.team) ==>
          after[slot] == EntryFor(slot, teams[slot.team].config.value))
    && (forall slot: Slot :: slot.team !in order ==> (slot in after <==> slot in before))
    && (forall slot: Slot :: slot.team !in order && slot in before && slot in after ==> after[slot] == before[slot])
  }

  lemma {:induction false} OneTeamMore(teams: Teams, front: seq<TeamId>, last: TeamId, before: Registry,
                                       middle: Registry, after: Registry)
    requires EachReconciled(teams, front, before, middle) && Reconciled(teams, last, middle, after)
    ensures EachReconciled(teams, front + [last], before, after)
  {
    assert forall t :: t in front + [last] <==> t in front || t == last;
  }

  lemma {:induction false} ReconcileEachReconciles(teams: Teams, registry: Registry, order: seq<TeamId>)
    ensures EachReconciled(teams, order, registry, ReconcileEach(teams, registry, order))
  {
    if order != [] {
      var front, last := order[..|order| - 1], order[|order| - 1];
      var middle := ReconcileEach(teams, registry, front);
      ReconcileEachReconciles(teams, registry, front);
      ReconcileReconciles(teams, middle, last);
      OneTeamMore(teams, front, last, registry, middle, Reconcile(teams, middle, last));
      assert order == front + [last];
    }
  }

  /** `order` is a result of the query for all teams that are not deleted. */
  ghost predicate Enumerates(order: seq<TeamId>, teams: Teams) {
    forall t :: t in order <==> Live(teams, t)
  }

  ghost predicate NoStrays(teams: Teams, registry: Registry) {
    forall slot :: slot in registry ==> Live(teams, slot.team)
  }

  lemma {:induction false} RepairedExactly(teams: Teams, order: seq<TeamId>, before: Registry, after: Registry)
    requires Enumerates(order, teams) && EachReconciled(teams, order, before, after)
    ensures Agreement(teams, after) <==> NoStrays(teams, before)
    ensures forall slot :: slot in before && !Live(teams, slot.team) ==> slot in after && after[slot] == before[slot]
  {
  }

  /**
   Reconciling all teams at boot repairs the registry exactly when it holds no job of a
   deleted or unknown team: whatever else was wrong is put right, but such a job stays.
   */
  lemma {:induction false} BootRepairsExactly(teams: Teams, registry: Registry, order: seq<TeamId>)
    requires Enumerates(order, teams)
    ensures var after := ReconcileEach(teams, registry, order);
      && (Agreement(teams, after) <==> NoStrays(teams, registry))
      && forall slot :: slot in registry && !Live(teams, slot.team) ==> slot in after && after[slot] == registry[slot]
  {
    ReconcileEachReconciles(teams, registry, order);
    RepairedExactly(teams, order, registry, ReconcileEach(teams, registry, order));
  }

  lemma {:induction false} OthersAsBefore(before: Teams, teams: Teams, team: TeamId)
    requires (team in teams <==> team in before) && (team in teams ==> teams[team] == before[team])
    ensures Active(teams, team) <==> Active(before, team)
    ensures Active(teams, team) ==> teams[team].config == before[team].config
  {
  }

  lemma {:induction false} AgreementAround(before: Teams, teams: Teams, registry: Registry, after: Registry,
                                           team: TeamId)
    requires Agreement(before, registry) && Reconciled(teams, team, registry, after)
    requires forall t :: t != team ==> (t in teams <==> t in before) && (t in teams ==> teams[t] == before[t])
    ensures Agreement(teams, after)
  {
    forall slot: Slot
      ensures slot in after <==> Active(teams, slot.team)
      ensures slot in after && Active(teams, slot.team) ==>
        after[slot] == EntryFor(slot, teams[slot.team].config.value)
    {
      if slot.team != team {
        OthersAsBefore(before, teams, slot.team);
      }
    }
  }

  lemma {:induction false} AgreementReconciled(teams: Teams, team: TeamId, before: Registry, after: Registry)
    requires Agreement(teams, before) && Reconciled(teams, team, before, after)
    ensures after == before
  {
    AgreeingIsReconciled(teams, team, before);
    ReconciledIsUnique(teams, team, before, before, after);
  }

  lemma {:induction false} AgreeingIsReconciled(teams: Teams, team: TeamId, registry: Registry)
    requires Agreement(teams, registry)
    ensures Reconciled(teams, team, registry, registry)
  {
  }

  // What the entries mean

  /** The minute of the day a slot is configured for. */
  function DueMinute(slot: Slot, config: Config): nat {
    match slot
    case DigestSlot(_) => MinutesOf(config.deadline)
    case ReminderSlot(_, Primary) => MinutesOf(config.reminderTime)
    case ReminderSlot(_, FifteenMinutes) => (MinutesOf(config.deadline) - 15) % 1440
    case ReminderSlot(_, Final) => MinutesOf(config.deadline)
  }

  lemma {:induction false} EntryIsDue(slot: Slot, config: Config, minute: nat, hour: nat, day: nat, month: nat,
                                      weekday: nat)
    requires minute < 60
    ensures CronMatches(EntryFor(slot, config).pattern, minute, hour, day, month, weekday)
            <==> 60 * hour + minute == DueMinute(slot, config)
  {
    DueAtSlotTime(slot, config);
    CronFiresAtTime(SlotTime(slot, config), minute, hour, day, month, weekday);
  }

  lemma {:induction false} DueAtSlotTime(slot: Slot, config: Config)
    ensures MinutesOf(SlotTime(slot, config)) == DueMinute(slot, config)
  {
    MinutesOfEarlier(config.deadline, 15);
  }

  /** The pattern matches that minute of every day, and no other. */
  ghost predicate FiresAt(pattern: string, due: nat) {
    forall minute: nat, hour: nat, day: nat, month: nat, weekday: nat :: minute < 60 ==>
      (CronMatches(pattern, minute, hour, day, month, weekday) <==> 60 * hour + minute == due)
  }

  ghost predicate EntryFits(slot: Slot, entry: Entry, config: Config) {
    entry.slot == slot && entry.tz == config.timezone && FiresAt(entry.pattern, DueMinute(slot, config))
  }

  /**
   All four jobs of the team are registered if it is there, not deleted, and configured to be
   active, and none if not; each fires at its configured minute, in the configured zone.
   */
  ghost predicate JobsAsConfigured(teams: Teams, registry: Registry, team: TeamId) {
    if team in teams && !teams[team].deleted && teams[team].config.Some? && teams[team].config.value.isActive
    then forall slot: Slot :: slot.team == team ==>
           slot in registry && EntryFits(slot, registry[slot], teams[team].config.value)
    else forall slot: Slot :: slot.team == team ==> slot !in registry
  }

  lemma {:induction false} EntryForFits(slot: Slot, config: Config)
    ensures EntryFits(slot, EntryFor(slot, config), config)
  {
    forall minute: nat, hour: nat, day: nat, month: nat, weekday: nat | minute < 60
      ensures CronMatches(EntryFor(slot, config).pattern, minute, hour, day, month, weekday)
              <==> 60 * hour + minute == DueMinute(slot, config)
    {
      EntryIsDue(slot, config, minute, hour, day, month, weekday);
    }
  }

  lemma {:induction false} ReconciledIsConfigured(teams: Teams, team: TeamId, before: Registry, after: Registry)
    requires Reconciled(teams, team, before, after)
    ensures JobsAsConfigured(teams, after, team)
  {
    if Active(teams, team) {
      forall slot: Slot | slot.team == team
        ensures slot in after && EntryFits(slot, after[slot], teams[team].config.value)
      {
        EntryForFits(slot, teams[team].config.value);
      }
    }
  }

  lemma {:induction false} AgreementIsConfigured(teams: Teams, registry: Registry, team: TeamId)
    requires Agreement(teams, registry)
    ensures JobsAsConfigured(teams, registry, team)
  {
    ReconciledIsConfigured(teams, team, registry, registry);
  }

  // Lost deletions

  /** A deletion whose reconciliation was lost leaves the team's jobs registered through any number of boots. */
  lemma {:induction false} LostDeletionIsNotRepaired(teams: Teams, registry: Registry, team: TeamId,
                                                     boots: seq<seq<TeamId>>, slot: Slot)
    requires Agreement(teams, registry) && Active(teams, team) && slot.team == team
    requires forall i :: 0 <= i < |boots| ==> Enumerates(boots[i], teams[team := teams[team].(deleted := true)])
    ensures slot in Booted(teams[team := teams[team].(deleted := true)], registry, boots)
  {
    if boots != [] {
      var front, last := boots[..|boots| - 1], boots[|boots| - 1];
      var deleted := teams[team := teams[team].(deleted := true)];
      LostDeletionIsNotRepaired(teams, registry, team, front, slot);
      ReconcileEachReconciles(deleted, Booted(deleted, registry, front), last);
      assert !Live(deleted, slot.team) && slot.team !in last;
    }
  }

  function Booted(teams: Teams, registry: Registry, boots: seq<seq<TeamId>>): Registry {
    if boots == [] then registry
    else ReconcileEach(teams, Booted(teams, registry, boots[..|boots| - 1]), boots[|boots| - 1])
  }
}
