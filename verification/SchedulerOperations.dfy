/** The service's own code over registries it updates in place, where nothing overlaps. */
module SchedulerOperations {
  import opened Text
  import opened Calendar
  import opened Entities
  import opened ReminderTime
  import opened Scheduler

  function ReminderSlots(team: TeamId): set<Slot> {
    {ReminderSlot(team, Primary), ReminderSlot(team, FifteenMinutes), ReminderSlot(team, Final)}
  }

  function RemindersOf(team: TeamId, config: Config): Registry {
    map[ReminderSlot(team, Primary) := EntryFor(ReminderSlot(team, Primary), config),
        ReminderSlot(team, FifteenMinutes) := EntryFor(ReminderSlot(team, FifteenMinutes), config),
        ReminderSlot(team, Final) := EntryFor(ReminderSlot(team, Final), config)]
  }

  lemma {:induction false} RemovedInParts(registry: Registry, team: TeamId)
    ensures (registry - {DigestSlot(team)}) - ReminderSlots(team) == registry - SlotsOf(team)
  {
  }

  lemma {:induction false} FourPuts<K, V>(m: map<K, V>, d: K, a: K, b: K, c: K, w: V, x: V, y: V, z: V, all: map<K, V>)
    requires all.Keys == {d, a, b, c} && all[d] == w && all[a] == x && all[b] == y && all[c] == z
    requires d != a && d != b && d != c && a != b && b != c && a != c
    ensures m[d := w] + map[a := x, b := y, c := z] == m + all
  {
  }

  lemma {:induction false} RegisteredInParts(cleared: Registry, team: TeamId, config: Config)
    ensures cleared[DigestSlot(team) := EntryFor(DigestSlot(team), config)] + RemindersOf(team, config)
         == cleared + EntriesOf(team, config)
  {
    var d := DigestSlot(team);
    var a, b, c := ReminderSlot(team, Primary), ReminderSlot(team, FifteenMinutes), ReminderSlot(team, Final);
    FourPuts(cleared, d, a, b, c, EntryFor(d, config), EntryFor(a, config), EntryFor(b, config), EntryFor(c, config),
             EntriesOf(team, config));
  }

  lemma {:induction false} OneSlotMore(team: TeamId, i: nat)
    requires i < |KINDS|
    ensures SlotsUpTo(team, i + 1) == SlotsUpTo(team, i) + {ReminderSlot(team, KINDS[i])}
    ensures SlotsUpTo(team, |KINDS|) == ReminderSlots(team)
  {
    assert KINDS[..i + 1] == KINDS[..i] + [KINDS[i]];
    assert KINDS[..|KINDS|] == KINDS;
    assert KINDS[0] == Primary && KINDS[1] == FifteenMinutes && KINDS[2] == Final;
  }

  function SlotsUpTo(team: TeamId, i: nat): set<Slot>
    requires i <= |KINDS|
  {
    set kind | kind in KINDS[..i] :: ReminderSlot(team, kind)
  }

  /** The registry after registering the first `i` reminders. */
  function RegisteredUpTo(registry: Registry, team: TeamId, config: Config, i: nat): Registry
    requires i <= |KINDS|
  {
    if i == 0 then registry
    else
      var slot := ReminderSlot(team, KINDS[i - 1]);
      RegisteredUpTo(registry, team, config, i - 1)[slot := EntryFor(slot, config)]
  }

  lemma {:induction false} ThreeRegistered(registry: Registry, team: TeamId, config: Config)
    ensures RegisteredUpTo(registry, team, config, |KINDS|) == registry + RemindersOf(team, config)
  {
    var a, b, c := ReminderSlot(team, Primary), ReminderSlot(team, FifteenMinutes), ReminderSlot(team, Final);
    var x, y, z := EntryFor(a, config), EntryFor(b, config), EntryFor(c, config);
    assert KINDS[0] == Primary && KINDS[1] == FifteenMinutes && KINDS[2] == Final;
    assert RegisteredUpTo(registry, team, config, 1) == registry[a := x];
    assert RegisteredUpTo(registry, team, config, 2) == registry[a := x][b := y];
    ThreePuts(registry, a, b, c, x, y, z);
  }

  lemma {:induction false} ThreePuts<K, V>(m: map<K, V>, a: K, b: K, c: K, x: V, y: V, z: V)
    requires a != b && b != c && a != c
    ensures m[a := x][b := y][c := z] == m + map[a := x, b := y, c := z]
  {
  }

  class SchedulerService {
    var teams: Teams
    var registry: Registry

    /** The registry is what the tables call for. */
    ghost predicate Valid()
      reads this
    {
      Agreement(teams, registry)
    }

    constructor ()
      ensures Valid() && teams == map[]
    {
      teams, registry := map[], map[];
    }

    method RemoveReminderSchedulers(team: TeamId)
      modifies this`registry
      ensures registry == old(registry) - ReminderSlots(team)
    {
      for i := 0 to |KINDS|
        invariant registry == old(registry) - SlotsUpTo(team, i)
      {
        OneSlotMore(team, i);
        registry := registry - {ReminderSlot(team, KINDS[i])};
      }
      OneSlotMore(team, 0);
    }

    method RegisterReminder(team: TeamId, kind: ReminderKind, timezone: string, time: HhMm)
      modifies this`registry
      ensures var slot := ReminderSlot(team, kind);
        registry == old(registry)[slot := Entry(CronFromTime(time), timezone, slot)]
    {
      var slot := ReminderSlot(team, kind);
      registry := registry[slot := Entry(CronFromTime(time), timezone, slot)];
    }

    method RegisterReminders(team: TeamId, config: Config)
      modifies this`registry
      ensures registry == old(registry) + RemindersOf(team, config)
    {
      for i := 0 to |KINDS|
        invariant registry == RegisteredUpTo(old(registry), team, config, i)
      {
        assert EntryFor(ReminderSlot(team, KINDS[i]), config)
            == Entry(CronFromTime(ScheduleTime(config.deadline, config.reminderTime, KINDS[i])), config.timezone,
                     ReminderSlot(team, KINDS[i]));
        var time := ScheduleTime(config.deadline, config.reminderTime, KINDS[i]);
        RegisterReminder(team, KINDS[i], config.timezone, time);
      }
      ThreeRegistered(old(registry), team, config);
    }

    /** Removes the team's jobs and, if it is active, registers them anew; any other team's it leaves alone. */
    method ReconcileTeam(team: TeamId)
      modifies this`registry
      ensures registry == Reconcile(teams, old(registry), team) && Reconciled(teams, team, old(registry), registry)
      ensures JobsAsConfigured(teams, registry, team)
      ensures forall slot :: slot in old(registry) && slot.team != team ==>
        slot in registry && registry[slot] == old(registry)[slot]
      ensures old(Valid()) ==> Valid() && registry == old(registry)
    {
      ghost var before := registry;
      registry := registry - {DigestSlot(team)};
      RemoveReminderSchedulers(team);
      RemovedInParts(before, team);
      if Active(teams, team) {
        var config := teams[team].config.value;
        var slot := DigestSlot(team);
        registry := registry[slot := Entry(CronFromTime(config.deadline), config.timezone, slot)];
        RegisterReminders(team, config);
        RegisteredInParts(before - SlotsOf(team), team, config);
      }
      ReconcileReconciles(teams, before, team);
      ReconciledIsConfigured(teams, team, before, registry);
      if Agreement(teams, before) {
        AgreementReconciled(teams, team, before, registry);
      }
    }

    /** `order` is what the query for all teams that are not deleted returned. */
    method ReconcileAll(order: seq<TeamId>)
      modifies this`registry
      ensures registry == ReconcileEach(teams, old(registry), order)
      ensures Enumerates(order, teams) ==> (Valid() <==> NoStrays(teams, old(registry)))
    {
      for i := 0 to |order|
        invariant registry == ReconcileEach(teams, old(registry), order[..i])
      {
        assert order[..i + 1][..i] == order[..i];
        ReconcileTeam(order[i]);
      }
      assert order[..|order|] == order;
      if Enumerates(order, teams) {
        BootRepairsExactly(teams, old(registry), order);
      }
    }

    method Create(team: TeamId, owner: UserId)
      requires Valid() && team !in teams
      modifies this
      ensures Valid()
      ensures teams == old(teams)[team := Team(owner, false, Some(DEFAULT_CONFIG))] && Active(teams, team)
      ensures JobsAsConfigured(teams, registry, team) && forall slot: Slot :: slot.team == team ==> slot in registry
    {
      teams := teams[team := Team(owner, false, Some(DEFAULT_CONFIG))];
      ReconcileTeam(team);
      AgreementAround(old(teams), teams, old(registry), registry, team);
    }

    method Delete(team: TeamId) returns (ok: bool)
      requires Valid()
      modifies this
      ensures Valid() && !Live(teams, team)
      ensures ok == Live(old(teams), team)
      ensures ok <==> team in old(teams) && !old(teams)[team].deleted
      ensures teams == if ok then old(teams)[team := old(teams)[team].(deleted := true)] else old(teams)
      ensures forall slot :: slot in registry ==> slot.team != team
    {
      ok := Live(teams, team);
      if ok {
        teams := teams[team := teams[team].(deleted := true)];
        ReconcileTeam(team);
        AgreementAround(old(teams), teams, old(registry), registry, team);
      }
      AgreementIsConfigured(teams, registry, team);
    }

    method Configure(team: TeamId, config: Config) returns (ok: bool)
      requires Valid()
      modifies this
      ensures Valid()
      ensures ok == (team in old(teams) && old(teams)[team].config.Some?)
      ensures teams == if ok then old(teams)[team := old(teams)[team].(config := Some(config))] else old(teams)
      ensures JobsAsConfigured(teams, registry, team)
      ensures ok && !config.isActive ==> forall slot :: slot in registry ==> slot.team != team
    {
      ok := team in teams && teams[team].config.Some?;
      if ok {
        teams := teams[team := teams[team].(config := Some(config))];
        ReconcileTeam(team);
        AgreementAround(old(teams), teams, old(registry), registry, team);
      }
      AgreementIsConfigured(teams, registry, team);
    }
  }
}
