/** The services' own code over tables they update in place, proved against the steps of Outbox. */
module OutboxService {
  import opened Text
  import opened Calendar
  import opened Entities
  import opened ReminderTime
  import opened DedupeKeys
  import opened Attendance
  import opened Outbox
  import opened OutboxReached
  import opened OutboxInvariant
  import opened OutboxContents
  import opened OutboxTheorems
  import opened OutboxOrigins

  datatype Generated = Created(digest: RowId) | NotCreated(reason: Skip)

  datatype Sending = SentOut(delivery: RowId) | NotSent(reason: Skip) | AllSubmitted

  /** A run and one step more. */
  ghost function Recorded(s: State, trace: seq<Event>, e: Event): (longer: seq<Event>)
    requires Reached(s, trace)
    ensures longer == trace + [e] && Reached(Step(s, e), longer)
  {
    StepIsReached(s, trace, e);
    trace + [e]
  }

  /** What inserting a reminder comes to, from the tables before and after it. */
  lemma {:induction false} ReminderOutcome(s: State, call: RowId, d: RowId, created: bool)
    requires HasRead(s, call) && s.calls[call].Reminding? && d !in s.deliveries
    requires created <==> d in ReminderInsert(s, call, d).deliveries
    ensures var c, s' := s.calls[call], ReminderInsert(s, call, d);
      && (created <==> && !KeyTaken(s, OfReminder(c.team, c.day, c.kind))
                       && exists u :: u in c.members.value && !HasPosted(c.standups.value, u))
      && (created ==> d in s'.deliveries && IsReminder(s'.deliveries[d], c)
                      && s' == s.(deliveries := s.deliveries[d := s'.deliveries[d]],
                                  calls := s.calls[call := Enqueueing(d)]))
      && (!created ==> s' == s.(calls := s.calls - {call}))
  {
    ReminderGoesToTheMissing(s, call, d);
  }

  // How requests are answered, on the tables and on the fields of the configuration

  ghost predicate DigestAnswered(s: State, r: Generated, config: Option<Config>, weekday: nat, team: Id, day: Day) {
    var active := config.Some? && config.value.isActive;
    var working := active && weekday in config.value.workingDays;
    && (r == NotCreated(TeamNotFound) <==> config.None?)
    && (r == NotCreated(TeamInactive) <==> config.Some? && !active)
    && (r == NotCreated(NotWorkingDay) <==> active && !working)
    && (r == NotCreated(AlreadyDone) <==> working && !NoDigest(s, team, day))
    && (r.Created? <==> working && NoDigest(s, team, day))
  }

  ghost predicate ReminderAnswered(s: State, r: Sending, config: Option<Config>, weekday: nat, team: Id, day: Day,
                                   kind: ReminderKind, allPosted: bool)
  {
    var active := config.Some? && config.value.isActive;
    var addressed := active && HasAddress(config.value);
    var working := addressed && weekday in config.value.workingDays;
    var first := working && NoDelivery(s, OfReminder(team, day, kind));
    && (r == NotSent(TeamNotFound) <==> config.None?)
    && (r == NotSent(TeamInactive) <==> config.Some? && !active)
    && (r == NotSent(NoWebhook) <==> active && !addressed)
    && (r == NotSent(NotWorkingDay) <==> addressed && !working)
    && (r == NotSent(AlreadyDone) <==> working && !first)
    && (r == AllSubmitted <==> first && allPosted)
    && (r.SentOut? <==> first && !allPosted)
  }

  ghost predicate ResendAnswered(s: State, r: Result<RowId, ResendError>, config: Option<Config>, date: string,
                                 team: Id)
  {
    var addressed := IsYmd(date) && config.Some? && HasAddress(config.value);
    var dated := addressed && ParseYmd(date).Some?;
    && (r == Err(InvalidDate) <==> !IsYmd(date))
    && (r == Err(NoTeam) <==> IsYmd(date) && config.None?)
    && (r == Err(WebhookNotConfigured) <==> IsYmd(date) && config.Some? && !addressed)
    && (r == Err(QueryFailed) <==> addressed && !dated)
    && (r == Err(DigestNotFound) <==> dated && NoDigest(s, team, ParseYmd(date).value))
    && (r.Ok? <==> dated && !NoDigest(s, team, ParseYmd(date).value))
  }

  /** The delivery that goes with a digest: pending, not attempted, under the digest's key. */
  function DigestDelivery(digest: RowId, team: Id, day: Day): Delivery {
    Delivery(Some(digest), team, None, OfDigest(team, day), Pending, 0, None)
  }

  function ResentDelivery(call: Call, uuid: Id): Delivery
    requires call.Resending?
  {
    Delivery(Some(call.digest), call.team, None, OfResend(call.team, call.date, uuid), Pending, 0, None)
  }

  lemma {:induction false} DigestGate(s: State, config: Option<Config>, weekday: nat, team: Id, day: Day, digest: RowId)
    ensures var gate := GenerateGate(config, weekday, DigestTaken(s, team, day));
      DigestAnswered(s, if gate.Some? then NotCreated(gate.value) else Created(digest), config, weekday, team, day)
  {
    assert DigestTaken(s, team, day) <==> !NoDigest(s, team, day);
  }

  lemma {:induction false} SendGate(s: State, config: Option<Config>, weekday: nat, team: Id, day: Day,
                                    kind: ReminderKind, allPosted: bool, delivery: RowId)
    ensures var gate := ReminderGate(config, weekday, KeyTaken(s, OfReminder(team, day, kind)));
      ReminderAnswered(s, if gate.Some? then NotSent(gate.value) else if allPosted then AllSubmitted
                          else SentOut(delivery), config, weekday, team, day, kind, allPosted)
  {
    assert KeyTaken(s, OfReminder(team, day, kind)) <==> !NoDelivery(s, OfReminder(team, day, kind));
  }

  lemma {:induction false} DateGate(s: State, config: Option<Config>, date: string, team: Id, digest: RowId)
    ensures var gate := ResendGate(s, team, config, date);
      ResendAnswered(s, if gate.Some? then Err(gate.value) else Ok(digest), config, date, team)
  {
    if ParseYmd(date).Some? {
      assert DigestTaken(s, team, ParseYmd(date).value) <==> !NoDigest(s, team, ParseYmd(date).value);
    }
  }

  class Backend {
    var digests: map<RowId, Digest>
    var deliveries: map<RowId, Delivery>
    var stats: map<RowId, Stat>
    var jobs: map<RowId, Job>
    var calls: map<RowId, Call>

    /** The steps taken so far, by this process or any other. */
    ghost var history: seq<Event>

    function Snapshot(): State
      reads this
    {
      State(digests, deliveries, stats, jobs, calls)
    }

    /** The tables are what the run so far has made of them: what holds of every run holds of them. */
    ghost predicate Valid()
      reads this
    {
      Reached(Snapshot(), history)
    }

    constructor ()
      ensures Valid() && history == []
    {
      digests, deliveries, stats, jobs, calls := map[], map[], map[], map[], map[];
      history := [];
      new;
      ReachedIsRun(Snapshot(), history);
    }

    // Queries by unique key

    method FindDigest(team: Id, day: Day) returns (digest: Option<RowId>)
      ensures digest.Some? <==> DigestTaken(Snapshot(), team, day)
      ensures digest.Some? ==>
        digest.value in digests && digests[digest.value].team == team && digests[digest.value].day == day
    {
      if exists g :: g in digests && digests[g].team == team && digests[g].day == day {
        var g :| g in digests && digests[g].team == team && digests[g].day == day;
        return Some(g);
      }
      return None;
    }

    method FindDelivery(key: Key) returns (found: bool)
      ensures found <==> KeyTaken(Snapshot(), key)
    {
      TakenKeyByText(Snapshot(), key);
      found := exists d :: d in deliveries && KeyText(deliveries[d].key) == KeyText(key);
    }

    // The checks a call starts with. They write to no table.

    method CheckGenerate(team: Id, config: Option<Config>, weekday: nat, day: Day) returns (skip: Option<Skip>)
      ensures skip == GenerateGate(config, weekday, DigestTaken(Snapshot(), team, day))
    {
      if config.None? {
        return Some(TeamNotFound);
      }
      if !config.value.isActive {
        return Some(TeamInactive);
      }
      if weekday !in config.value.workingDays {
        return Some(NotWorkingDay);
      }
      var found := FindDigest(team, day);
      return if found.Some? then Some(AlreadyDone) else None;
    }

    method BeginGenerate(call: RowId, team: Id, config: Option<Config>, weekday: nat, day: Day)
      returns (skip: Option<Skip>)
      requires Valid() && call !in calls
      modifies this`calls, this`history
      ensures Valid() && history == old(history) + [GenerateCheckEvent(call, team, config, weekday, day)]
      ensures skip == GenerateGate(config, weekday, DigestTaken(Snapshot(), team, day))
      ensures skip.Some? ==> calls == old(calls)
      ensures skip.None? ==>
        calls == old(calls)[call := Generating(team, day, Truthy(config.value.webhookUrl), None, None)]
    {
      ghost var before := Snapshot();
      skip := CheckGenerate(team, config, weekday, day);
      if skip.None? {
        calls := calls[call := Generating(team, day, Truthy(config.value.webhookUrl), None, None)];
      }
      history := Recorded(before, history, GenerateCheckEvent(call, team, config, weekday, day));
    }

    method CheckReminder(team: Id, kind: ReminderKind, config: Option<Config>, weekday: nat, day: Day)
      returns (skip: Option<Skip>)
      ensures skip == ReminderGate(config, weekday, KeyTaken(Snapshot(), OfReminder(team, day, kind)))
    {
      if config.None? {
        return Some(TeamNotFound);
      }
      if !config.value.isActive {
        return Some(TeamInactive);
      }
      if !Truthy(config.value.webhookUrl) {
        return Some(NoWebhook);
      }
      if weekday !in config.value.workingDays {
        return Some(NotWorkingDay);
      }
      var found := FindDelivery(OfReminder(team, day, kind));
      return if found then Some(AlreadyDone) else None;
    }

    method BeginReminder(call: RowId, team: Id, kind: ReminderKind, config: Option<Config>, weekday: nat, day: Day)
      returns (skip: Option<Skip>)
      requires Valid() && call !in calls
      modifies this`calls, this`history
      ensures Valid() && history == old(history) + [ReminderCheckEvent(call, team, kind, config, weekday, day)]
      ensures skip == ReminderGate(config, weekday, KeyTaken(Snapshot(), OfReminder(team, day, kind)))
      ensures skip.Some? ==> calls == old(calls)
      ensures skip.None? ==> calls == old(calls)[call := Reminding(team, day, kind, None, None)]
    {
      ghost var before := Snapshot();
      skip := CheckReminder(team, kind, config, weekday, day);
      if skip.None? {
        calls := calls[call := Reminding(team, day, kind, None, None)];
      }
      history := Recorded(before, history, ReminderCheckEvent(call, team, kind, config, weekday, day));
    }

    lemma OneDigest(digest: RowId)
      requires Valid() && digest in digests
      ensures forall g :: g in digests ==> (g == digest <==> SameDay(digests[g], digests[digest]))
    {
      ReachedIsRun(Snapshot(), history);
      OneDigestPerDay(history, digest);
    }

    /** The one digest of the requested team and day, or the error of the first check that fails. */
    method CheckResend(team: Id, config: Option<Config>, date: string) returns (r: Result<RowId, ResendError>)
      requires Valid()
      ensures r.Err? <==> ResendGate(Snapshot(), team, config, date).Some?
      ensures r.Err? ==> Some(r.error) == ResendGate(Snapshot(), team, config, date)
      ensures r.Ok? ==> IsYmd(date) && ParseYmd(date).Some? && r.value in digests
      ensures r.Ok? ==> forall g :: g in digests ==>
        (g == r.value <==> digests[g].team == team && digests[g].day == ParseYmd(date).value)
    {
      if !IsYmd(date) {
        return Err(InvalidDate);
      }
      if config.None? {
        return Err(NoTeam);
      }
      if !Truthy(config.value.webhookUrl) {
        return Err(WebhookNotConfigured);
      }
      var day := ParseYmd(date);
      if day.None? {
        return Err(QueryFailed);
      }
      var digest := FindDigest(team, day.value);
      if digest.None? {
        return Err(DigestNotFound);
      }
      OneDigest(digest.value);
      return Ok(digest.value);
    }

    method BeginResend(call: RowId, team: Id, config: Option<Config>, date: string, digest: RowId)
      requires Valid() && call !in calls && ResendGate(Snapshot(), team, config, date).None? && digest in digests
      requires digests[digest].team == team && Some(digests[digest].day) == ParseYmd(date)
      modifies this`calls, this`history
      ensures Valid() && history == old(history) + [ResendFindEvent(call, team, config, date, digest)]
      ensures IsYmd(date) && calls == old(calls)[call := Resending(team, date, digest)]
    {
      ghost var before := Snapshot();
      FindsDigest(before, call, team, config, date, digest);
      calls := calls[call := Resending(team, date, digest)];
      history := Recorded(before, history, ResendFindEvent(call, team, config, date, digest));
    }

    method ReadMemberList(call: RowId, members: seq<UserId>)
      requires Valid() && Reading(Snapshot(), call) && calls[call].members.None?
      modifies this`calls, this`history
      ensures Valid() && history == old(history) + [ReadMembersEvent(call, members)]
      ensures calls == old(calls)[call := old(calls)[call].(members := Some(members))]
    {
      ghost var before := Snapshot();
      calls := calls[call := calls[call].(members := Some(members))];
      history := Recorded(before, history, ReadMembersEvent(call, members));
    }

    method ReadStandupList(call: RowId, standups: seq<Standup>)
      requires Valid() && Reading(Snapshot(), call) && calls[call].standups.None?
      modifies this`calls, this`history
      ensures Valid() && history == old(history) + [ReadStandupsEvent(call, standups)]
      ensures calls == old(calls)[call := old(calls)[call].(standups := Some(standups))]
    {
      ghost var before := Snapshot();
      calls := calls[call := calls[call].(standups := Some(standups))];
      history := Recorded(before, history, ReadStandupsEvent(call, standups));
    }

    method Read(call: RowId, members: seq<UserId>, standups: seq<Standup>)
      requires Valid() && Reading(Snapshot(), call)
      requires calls[call].members.None? && calls[call].standups.None?
      modifies this`calls, this`history
      ensures Valid() && old(history) <= history
      ensures calls == old(calls)[call := old(calls)[call].(members := Some(members), standups := Some(standups))]
    {
      ReadMemberList(call, members);
      ReadStandupList(call, standups);
    }

    // Single inserts, as the database takes them: refused on a unique violation

    method CreateDigest(id: RowId, row: Digest) returns (ok: bool)
      modifies this`digests
      ensures ok == !DigestTaken(old(Snapshot()), row.team, row.day)
      ensures digests == if ok then old(digests)[id := row] else old(digests)
    {
      ok := !exists g :: g in digests && digests[g].team == row.team && digests[g].day == row.day;
      if ok {
        digests := digests[id := row];
      }
    }

    method CreateDelivery(id: RowId, row: Delivery) returns (ok: bool)
      modifies this`deliveries
      ensures ok == !KeyTaken(old(Snapshot()), row.key)
      ensures deliveries == if ok then old(deliveries)[id := row] else old(deliveries)
    {
      var found := FindDelivery(row.key);
      ok := !found;
      if ok {
        deliveries := deliveries[id := row];
      }
    }

    method CreateStat(id: RowId, row: Stat) returns (ok: bool)
      modifies this`stats
      ensures ok == !StatTaken(old(Snapshot()), row.team, row.day)
      ensures stats == if ok then old(stats)[id := row] else old(stats)
    {
      ok := !exists t :: t in stats && stats[t].team == row.team && stats[t].day == row.day;
      if ok {
        stats := stats[id := row];
      }
    }

    /** Three inserts one after the other, all undone as soon as one is refused, are the one step. */
    method InsertDigest(call: RowId, digest: RowId, delivery: RowId, stat: RowId) returns (ok: bool)
      requires CommitEnabled(Snapshot(), call, digest, delivery, stat)
      modifies this`digests, this`deliveries, this`stats, this`calls
      ensures Snapshot() == GenerateCommit(old(Snapshot()), call, digest, delivery, stat)
      ensures var c := old(calls)[call]; ok <==> !CommitConflicts(old(Snapshot()), c.team, c.day, c.webhook)
    {
      var Generating(team, day, webhook, members, standups) := calls[call];
      var digestsBefore, deliveriesBefore := digests, deliveries;
      ok := CreateDigest(digest, DigestRow(team, day, members.value, standups.value));
      if ok && webhook {
        ok := CreateDelivery(delivery, NewDelivery(Some(digest), team, None, OfDigest(team, day)));
      }
      if ok {
        ok := CreateStat(stat, StatRow(team, day, members.value, standups.value));
      }
      if !ok {
        digests, deliveries := digestsBefore, deliveriesBefore;
        calls := calls - {call};
      } else if webhook {
        calls := calls[call := Enqueueing(delivery)];
      } else {
        calls := calls - {call};
      }
    }

    /** The transaction of `generate` succeeds exactly if the day has no digest, and then all rows are there. */
    method CommitDigest(call: RowId, digest: RowId, delivery: RowId, stat: RowId) returns (created: bool)
      requires Valid() && CommitEnabled(Snapshot(), call, digest, delivery, stat)
      modifies this
      ensures Valid() && history == old(history) + [GenerateCommitEvent(call, digest, delivery, stat)]
      ensures created <==> !DigestTaken(old(Snapshot()), old(calls)[call].team, old(calls)[call].day)
      ensures !created ==> SameTables(old(Snapshot()), Snapshot()) && calls == old(calls) - {call}
      ensures created ==>
        && CommittedWhole(old(Snapshot()), Snapshot(), call, digest, delivery, stat)
        && DigestTells(digests[digest], old(calls)[call].members.value, old(calls)[call].standups.value)
        && StatTells(stats[stat], old(calls)[call].members.value, old(calls)[call].standups.value)
    {
      ghost var before := Snapshot();
      created := InsertDigest(call, digest, delivery, stat);
      CommitOfReached(before, history, call, digest, delivery, stat);
      history := Recorded(before, history, GenerateCommitEvent(call, digest, delivery, stat));
    }

    method WriteReminder(call: RowId, delivery: RowId) returns (created: bool)
      requires HasRead(Snapshot(), call) && calls[call].Reminding? && delivery !in deliveries
      modifies this`deliveries, this`calls
      ensures Snapshot() == ReminderInsert(old(Snapshot()), call, delivery)
      ensures created <==> delivery in deliveries
    {
      var Reminding(team, day, kind, members, standups) := calls[call];
      var pending := Missing(members.value, standups.value);
      created := pending != [];
      if created {
        created := CreateDelivery(delivery, NewDelivery(None, team, Some(pending), OfReminder(team, day, kind)));
      }
      calls := if created then calls[call := Enqueueing(delivery)] else calls - {call};
    }

    /** `send` from its snapshot on: nobody pending, or create the delivery, or skip a duplicate. */
    method InsertReminder(call: RowId, delivery: RowId) returns (created: bool)
      requires Valid() && HasRead(Snapshot(), call) && calls[call].Reminding? && delivery !in deliveries
      modifies this
      ensures Valid() && history == old(history) + [ReminderInsertEvent(call, delivery)]
      ensures var c := old(calls)[call];
        created <==> && !KeyTaken(old(Snapshot()), OfReminder(c.team, c.day, c.kind))
                     && exists u :: u in c.members.value && !HasPosted(c.standups.value, u)
      ensures !created ==> Snapshot() == old(Snapshot()).(calls := old(calls) - {call})
      ensures created ==>
        && delivery in deliveries && IsReminder(deliveries[delivery], old(calls)[call])
        && Snapshot() == old(Snapshot()).(deliveries := old(deliveries)[delivery := deliveries[delivery]],
                                          calls := old(calls)[call := Enqueueing(delivery)])
    {
      ghost var before := Snapshot();
      created := WriteReminder(call, delivery);
      history := Recorded(before, history, ReminderInsertEvent(call, delivery));
      ReminderOutcome(before, call, delivery, created);
    }

    /** The resend's own delivery of the digest found; its key is new if its uuid is. */
    method InsertResend(call: RowId, delivery: RowId, uuid: Id) returns (created: bool)
      requires Valid() && call in calls && calls[call].Resending? && delivery !in deliveries
      modifies this
      ensures Valid() && history == old(history) + [ResendInsertEvent(call, delivery, uuid)]
      ensures created <==> !KeyTaken(old(Snapshot()), OfResend(old(calls)[call].team, old(calls)[call].date, uuid))
      ensures !created ==> Snapshot() == old(Snapshot()).(calls := old(calls) - {call})
      ensures created ==>
        && delivery in deliveries && deliveries[delivery] == ResentDelivery(old(calls)[call], uuid)
        && Snapshot() == old(Snapshot()).(deliveries := old(deliveries)[delivery := deliveries[delivery]],
                                          calls := old(calls)[call := Enqueueing(delivery)])
    {
      ReachedIsRun(Snapshot(), history);
      RunOfResend(history, call, delivery, uuid);
      var Resending(team, date, digest) := calls[call];
      created := CreateDelivery(delivery, NewDelivery(Some(digest), team, None, OfResend(team, date, uuid)));
      calls := if created then calls[call := Enqueueing(delivery)] else calls - {call};
      history := history + [ResendInsertEvent(call, delivery, uuid)];
      ReachedIsRun(Snapshot(), history);
    }

    lemma OneJob(job: RowId)
      requires Valid() && job in jobs
      ensures forall j :: j in jobs && jobs[j].delivery == jobs[job].delivery ==> j == job
    {
      ReachedIsRun(Snapshot(), history);
      JobsHaveRows(history, job);
    }

    /** The delivery a call awaits gets its one job. */
    method EnqueueDelivery(call: RowId, job: RowId)
      requires Valid() && call in calls && calls[call].Enqueueing? && job !in jobs
      modifies this`jobs, this`calls, this`history
      ensures Valid() && history == old(history) + [EnqueueEvent(call, job)]
      ensures jobs == old(jobs)[job := Job(old(calls)[call].delivery, 0, None)] && calls == old(calls) - {call}
      ensures forall j :: j in jobs && jobs[j].delivery == jobs[job].delivery ==> j == job
    {
      ghost var before := Snapshot();
      jobs := jobs[job := Job(calls[call].delivery, 0, None)];
      calls := calls - {call};
      history := Recorded(before, history, EnqueueEvent(call, job));
      OneJob(job);
    }

    // Whole calls that nothing interrupts

    method ComposeDigest(call: RowId, members: seq<UserId>, standups: seq<Standup>,
                         digest: RowId, delivery: RowId, stat: RowId)
      requires Valid() && call in calls && calls[call].Generating?
      requires calls[call].members.None? && calls[call].standups.None?
      requires !DigestTaken(Snapshot(), calls[call].team, calls[call].day)
      requires digest !in digests && delivery !in deliveries && stat !in stats
      modifies this
      ensures Valid() && jobs == old(jobs)
      ensures digest in digests && digests == old(digests)[digest := digests[digest]]
      ensures stat in stats && stats == old(stats)[stat := stats[stat]]
      ensures digests[digest].team == old(calls)[call].team && digests[digest].day == old(calls)[call].day
      ensures DigestTells(digests[digest], members, standups) && StatTells(stats[stat], members, standups)
      ensures if old(calls)[call].webhook
              then && delivery in deliveries && deliveries == old(deliveries)[delivery := deliveries[delivery]]
                   && deliveries[delivery] == DigestDelivery(digest, old(calls)[call].team, old(calls)[call].day)
                   && calls == old(calls)[call := Enqueueing(delivery)]
              else deliveries == old(deliveries) && calls == old(calls) - {call}
    {
      Read(call, members, standups);
      var created := CommitDigest(call, digest, delivery, stat);
      assert created;
    }

    /** `generate` from its check on. */
    method FinishGenerate(call: RowId, members: seq<UserId>, standups: seq<Standup>,
                          digest: RowId, delivery: RowId, stat: RowId, job: RowId)
      requires Valid() && call in calls && calls[call].Generating? && job !in jobs
      requires calls[call].members.None? && calls[call].standups.None?
      requires !DigestTaken(Snapshot(), calls[call].team, calls[call].day)
      requires digest !in digests && delivery !in deliveries && stat !in stats
      modifies this
      ensures Valid() && calls == old(calls) - {call}
      ensures digest in digests && digests == old(digests)[digest := digests[digest]]
      ensures stat in stats && stats == old(stats)[stat := stats[stat]]
      ensures digests[digest].team == old(calls)[call].team && digests[digest].day == old(calls)[call].day
      ensures DigestTells(digests[digest], members, standups) && StatTells(stats[stat], members, standups)
      ensures if old(calls)[call].webhook
              then && delivery in deliveries && deliveries == old(deliveries)[delivery := deliveries[delivery]]
                   && deliveries[delivery] == DigestDelivery(digest, old(calls)[call].team, old(calls)[call].day)
                   && jobs == old(jobs)[job := Job(delivery, 0, None)]
              else deliveries == old(deliveries) && jobs == old(jobs)
    {
      ComposeDigest(call, members, standups, digest, delivery, stat);
      if call in calls {
        EnqueueDelivery(call, job);
      }
    }

    /** `generate`: a digest of what it read exactly if the gate lets it pass, with its job if there is a webhook. */
    method Generate(call: RowId, team: Id, config: Option<Config>, weekday: nat, day: Day, members: seq<UserId>,
                    standups: seq<Standup>, digest: RowId, delivery: RowId, stat: RowId, job: RowId)
      returns (r: Generated)
      requires Valid() && call !in calls && job !in jobs
      requires digest !in digests && delivery !in deliveries && stat !in stats
      modifies this
      ensures Valid() && calls == old(calls)
      ensures var gate := GenerateGate(config, weekday, DigestTaken(old(Snapshot()), team, day));
        r == if gate.Some? then NotCreated(gate.value) else Created(digest)
      ensures DigestAnswered(old(Snapshot()), r, config, weekday, team, day)
      ensures r.NotCreated? ==> Snapshot() == old(Snapshot())
      ensures r.Created? ==>
        && digest in digests && digests == old(digests)[digest := digests[digest]]
        && stat in stats && stats == old(stats)[stat := stats[stat]]
        && DigestTells(digests[digest], members, standups) && StatTells(stats[stat], members, standups)
        && digests[digest].team == team && digests[digest].day == day
      ensures r.Created? ==>
        if HasAddress(config.value)
        then && delivery in deliveries && deliveries[delivery] == DigestDelivery(digest, team, day)
             && deliveries == old(deliveries)[delivery := deliveries[delivery]]
             && jobs == old(jobs)[job := Job(delivery, 0, None)]
        else deliveries == old(deliveries) && jobs == old(jobs)
    {
      DigestGate(Snapshot(), config, weekday, team, day, digest);
      var skip := BeginGenerate(call, team, config, weekday, day);
      if skip.Some? {
        return NotCreated(skip.value);
      }
      FinishGenerate(call, members, standups, digest, delivery, stat, job);
      assert calls == old(calls);
      return Created(digest);
    }

    /** `send` from its check on. */
    method FinishSend(call: RowId, members: seq<UserId>, standups: seq<Standup>, delivery: RowId, job: RowId)
      returns (created: bool)
      requires Valid() && call in calls && calls[call].Reminding? && job !in jobs && delivery !in deliveries
      requires calls[call].members.None? && calls[call].standups.None?
      requires !KeyTaken(Snapshot(), OfReminder(calls[call].team, calls[call].day, calls[call].kind))
      modifies this
      ensures Valid() && calls == old(calls) - {call} && digests == old(digests) && stats == old(stats)
      ensures !created <==> forall u :: u in members ==> HasPosted(standups, u)
      ensures !created ==> deliveries == old(deliveries) && jobs == old(jobs)
      ensures created ==>
        var Reminding(team, day, kind, _, _) := old(calls)[call];
        && delivery in deliveries && deliveries == old(deliveries)[delivery := deliveries[delivery]]
        && IsReminder(deliveries[delivery], Reminding(team, day, kind, Some(members), Some(standups)))
        && jobs == old(jobs)[job := Job(delivery, 0, None)]
    {
      Read(call, members, standups);
      created := InsertReminder(call, delivery);
      if created {
        EnqueueDelivery(call, job);
      }
    }

    /** `send`: a reminder to those who have not posted, once per day and kind. */
    method Send(call: RowId, team: Id, kind: ReminderKind, config: Option<Config>, weekday: nat, day: Day,
                members: seq<UserId>, standups: seq<Standup>, delivery: RowId, job: RowId) returns (r: Sending)
      requires Valid() && call !in calls && job !in jobs && delivery !in deliveries
      modifies this
      ensures Valid() && calls == old(calls) && digests == old(digests) && stats == old(stats)
      ensures var gate := ReminderGate(config, weekday, KeyTaken(old(Snapshot()), OfReminder(team, day, kind)));
        r == if gate.Some? then NotSent(gate.value)
             else if forall u :: u in members ==> HasPosted(standups, u) then AllSubmitted else SentOut(delivery)
      ensures ReminderAnswered(old(Snapshot()), r, config, weekday, team, day, kind,
                               forall u :: u in members ==> HasPosted(standups, u))
      ensures !r.SentOut? ==> Snapshot() == old(Snapshot())
      ensures r.SentOut? ==>
        && delivery in deliveries && deliveries == old(deliveries)[delivery := deliveries[delivery]]
        && IsReminder(deliveries[delivery], Reminding(team, day, kind, Some(members), Some(standups)))
        && jobs == old(jobs)[job := Job(delivery, 0, None)]
    {
      ghost var allPosted := forall u :: u in members ==> HasPosted(standups, u);
      SendGate(Snapshot(), config, weekday, team, day, kind, allPosted, delivery);
      var skip := BeginReminder(call, team, kind, config, weekday, day);
      if skip.Some? {
        return NotSent(skip.value);
      }
      var created := FinishSend(call, members, standups, delivery, job);
      assert calls == old(calls);
      return if created then SentOut(delivery) else AllSubmitted;
    }

    /** `resend` from the digest found on. */
    method FinishResend(call: RowId, delivery: RowId, uuid: Id, job: RowId)
      requires Valid() && call in calls && calls[call].Resending? && job !in jobs && delivery !in deliveries
      requires !KeyTaken(Snapshot(), OfResend(calls[call].team, calls[call].date, uuid))
      modifies this
      ensures Valid() && calls == old(calls) - {call} && digests == old(digests) && stats == old(stats)
      ensures delivery in deliveries && deliveries == old(deliveries)[delivery := deliveries[delivery]]
      ensures deliveries[delivery] == ResentDelivery(old(calls)[call], uuid)
      ensures jobs == old(jobs)[job := Job(delivery, 0, None)]
    {
      var created := InsertResend(call, delivery, uuid);
      assert created;
      EnqueueDelivery(call, job);
    }

    /** `resend` from its checks on. */
    method Redeliver(call: RowId, team: Id, config: Option<Config>, date: string, digest: RowId, uuid: Id,
                     delivery: RowId, job: RowId)
      requires Valid() && call !in calls && ResendGate(Snapshot(), team, config, date).None? && digest in digests
      requires digests[digest].team == team && Some(digests[digest].day) == ParseYmd(date)
      requires job !in jobs && delivery !in deliveries && !KeyTaken(Snapshot(), OfResend(team, date, uuid))
      modifies this
      ensures Valid() && calls == old(calls) && digests == old(digests) && stats == old(stats)
      ensures delivery in deliveries && deliveries == old(deliveries)[delivery := deliveries[delivery]]
      ensures deliveries[delivery] == ResentDelivery(Resending(team, date, digest), uuid)
      ensures jobs == old(jobs)[job := Job(delivery, 0, None)]
    {
      BeginResend(call, team, config, date, digest);
      FinishResend(call, delivery, uuid, job);
      assert calls == old(calls);
    }

    /** `resend`: one more delivery of the digest of the date, with a job of its own. */
    method Resend(call: RowId, team: Id, config: Option<Config>, date: string, uuid: Id, delivery: RowId, job: RowId)
      returns (r: Result<RowId, ResendError>)
      requires Valid() && call !in calls && job !in jobs && delivery !in deliveries
      requires IsYmd(date) ==> !KeyTaken(Snapshot(), OfResend(team, date, uuid))
      modifies this
      ensures Valid() && calls == old(calls) && digests == old(digests) && stats == old(stats)
      ensures r.Err? <==> ResendGate(old(Snapshot()), team, config, date).Some?
      ensures r.Err? ==>
        Some(r.error) == ResendGate(old(Snapshot()), team, config, date) && Snapshot() == old(Snapshot())
      ensures ResendAnswered(old(Snapshot()), r, config, date, team)
      ensures r.Ok? ==>
        && ParseYmd(date).Some? && r.value in digests
        && digests[r.value].team == team && digests[r.value].day == ParseYmd(date).value
        && delivery in deliveries && deliveries == old(deliveries)[delivery := deliveries[delivery]]
        && deliveries[delivery] == Delivery(Some(r.value), team, None, OfResend(team, date, uuid), Pending, 0, None)
        && jobs == old(jobs)[job := Job(delivery, 0, None)]
    {
      r := CheckResend(team, config, date);
      DateGate(Snapshot(), config, date, team, if r.Ok? then r.value else "");
      if r.Ok? {
        Redeliver(call, team, config, date, r.value, uuid, delivery, job);
      }
    }

    // `deliver`, up to its request and from the answer on

    method MarkDeliveryFailed(delivery: RowId, reason: Reason)
      requires delivery in deliveries
      modifies this`deliveries
      ensures deliveries == old(deliveries)[delivery := MarkFailed(old(deliveries)[delivery], reason)]
    {
      var row := deliveries[delivery];
      deliveries := deliveries[delivery :=
        row.(status := Failed, lastError := Some(reason), attempts := row.attempts + 1)];
    }

    /** Runs a job as far as its request; one is made exactly for a pending delivery with an address. */
    method BeginDelivery(job: RowId, url: Option<string>) returns (post: bool)
      requires Valid() && Runnable(Snapshot(), job)
      modifies this`deliveries, this`jobs, this`history
      ensures Valid() && history == old(history) + [DeliverStartEvent(job, url, false, false)]
      ensures old(jobs)[job].delivery in old(deliveries)
      ensures post <==> old(deliveries)[old(jobs)[job].delivery].status == Pending && Truthy(url)
      ensures post ==>
        && deliveries == old(deliveries) && InFlight(Snapshot(), job)
        && jobs == old(jobs)[job := jobs[job]] && jobs[job].delivery == old(jobs)[job].delivery
        && jobs[job].attemptsMade == old(jobs)[job].attemptsMade
      ensures !post ==> jobs == old(jobs) - {job}
      ensures var d, row := old(jobs)[job].delivery, old(deliveries)[old(jobs)[job].delivery];
        !post ==> deliveries == if row.status == Pending
                                then old(deliveries)[d := MarkFailed(row, NoUrl)] else old(deliveries)
    {
      ReachedIsRun(Snapshot(), history);
      RunOfStart(history, job, url);
      var id := jobs[job].delivery;
      var row := deliveries[id];
      post := false;
      if row.status != Pending {
        jobs := jobs - {job};
      } else if !Truthy(url) {
        MarkDeliveryFailed(id, NoUrl);
        jobs := jobs - {job};
      } else if (row.digest.Some? && row.digest.value in digests) || row.payload.Some? {
        jobs := jobs[job := jobs[job].(flight := Some(Flight(row.attempts, row.digest)))];
        post := true;
      } else {
        assert false;
      }
      history := history + [DeliverStartEvent(job, url, false, false)];
      ReachedIsRun(Snapshot(), history);
    }

    method MarkDigestSent(digest: Option<RowId>)
      modifies this`digests
      ensures digests == MarkSent(old(digests), digest)
    {
      if digest.Some? && digest.value in digests {
        digests := digests[digest.value := digests[digest.value].(status := Sent)];
      }
    }

    /** The request was answered ok and both rows of the transaction were written. */
    method FinishAccepted(job: RowId)
      requires Valid() && InFlight(Snapshot(), job)
      modifies this`deliveries, this`digests, this`jobs, this`history
      ensures Valid() && history == old(history) + [DeliverEndEvent(job, Accepted, false)]
      ensures old(jobs)[job].delivery in old(deliveries) && jobs == old(jobs) - {job}
      ensures var d, row := old(jobs)[job].delivery, old(deliveries)[old(jobs)[job].delivery];
        deliveries == old(deliveries)[d := RecordSuccess(row)] && digests == MarkSent(old(digests), row.digest)
    {
      ReachedIsRun(Snapshot(), history);
      RunOfAccepted(history, job);
      var id, flight := jobs[job].delivery, jobs[job].flight.value;
      var row := deliveries[id];
      deliveries := deliveries[id := row.(status := Success, attempts := row.attempts + 1, lastError := None)];
      MarkDigestSent(flight.digest);
      jobs := jobs - {job};
      history := history + [DeliverEndEvent(job, Accepted, false)];
      ReachedIsRun(Snapshot(), history);
    }

    method WriteFailure(delivery: RowId, attempts: nat, message: string)
      requires attempts > 0 && delivery in deliveries
      modifies this`deliveries
      ensures deliveries == old(deliveries)[delivery := RecordFailure(old(deliveries)[delivery], attempts - 1, message)]
    {
      var row := deliveries[delivery].(attempts := attempts, lastError := Some(Thrown(Clip(message, 500))));
      if attempts >= MAX_ATTEMPTS {
        row := row.(status := Failed);
      }
      deliveries := deliveries[delivery := row];
    }

    /** The catch branch: records the failure from the attempts read before, and rethrows unless they are used up. */
    method FinishRefused(job: RowId, message: string)
      requires Valid() && InFlight(Snapshot(), job)
      modifies this`deliveries, this`jobs, this`history
      ensures Valid() && history == old(history) + [DeliverEndEvent(job, Refused(message), false)]
      ensures old(jobs)[job].delivery in old(deliveries)
      ensures var d, row := old(jobs)[job].delivery, old(deliveries)[old(jobs)[job].delivery];
        && deliveries == old(deliveries)[d := RecordFailure(row, row.attempts, message)]
        && jobs == if row.attempts + 1 < MAX_ATTEMPTS
                   then old(jobs)[job := Job(d, old(jobs)[job].attemptsMade + 1, None)] else old(jobs) - {job}
      ensures Snapshot() == Run(old(history) + [DeliverEndEvent(job, AcceptedUncommitted(message), false)])
    {
      ReachedIsRun(Snapshot(), history);
      RunOfRefused(history, job, message);
      WriteRefusal(job, message);
      history := history + [DeliverEndEvent(job, Refused(message), false)];
      ReachedIsRun(Snapshot(), history);
    }

    method WriteRefusal(job: RowId, message: string)
      requires InFlight(Snapshot(), job) && jobs[job].delivery in deliveries
      modifies this`deliveries, this`jobs
      ensures var Job(d, made, flight) := old(jobs)[job];
        && deliveries == old(deliveries)[d := RecordFailure(old(deliveries)[d], flight.value.attempts, message)]
        && jobs == if flight.value.attempts + 1 < MAX_ATTEMPTS
                   then old(jobs)[job := Job(d, made + 1, None)] else old(jobs) - {job}
    {
      var Job(id, made, flight) := jobs[job];
      var attempts := flight.value.attempts + 1;
      WriteFailure(id, attempts, message);
      if attempts < MAX_ATTEMPTS {
        jobs := jobs[job := Job(id, made + 1, None)];
      } else {
        jobs := jobs - {job};
      }
    }

    /** A job's delivery exists, within its budget if it is pending, and so does that delivery's digest. */
    lemma RowOfJob(job: RowId)
      requires Valid() && job in jobs
      ensures jobs[job].delivery in deliveries
      ensures var row := deliveries[jobs[job].delivery];
        && (row.status == Pending ==> row.attempts < MAX_ATTEMPTS)
        && (row.digest.Some? ==> row.digest.value in digests)
    {
      ReachedIsRun(Snapshot(), history);
      JobsHaveRows(history, job);
      if deliveries[jobs[job].delivery].digest.Some? {
        DeliveriesHaveDigests(history, jobs[job].delivery);
      }
    }

    /** `deliver` from its request on: an ok answer or the fifth attempt settles the delivery. */
    method Finish(job: RowId, refusal: Option<string>)
      requires Valid() && InFlight(Snapshot(), job)
      modifies this`deliveries, this`digests, this`jobs, this`history
      ensures Valid()
      ensures old(jobs)[job].delivery in old(deliveries)
      ensures var d, row := old(jobs)[job].delivery, old(deliveries)[old(jobs)[job].delivery];
        && deliveries == old(deliveries)[d := if refusal.None? then RecordSuccess(row)
                                              else RecordFailure(row, row.attempts, refusal.value)]
        && digests == (if refusal.None? then MarkSent(old(digests), row.digest) else old(digests))
        && jobs == if refusal.Some? && row.attempts + 1 < MAX_ATTEMPTS
                   then old(jobs)[job := Job(d, old(jobs)[job].attemptsMade + 1, None)] else old(jobs) - {job}
    {
      if refusal.None? {
        FinishAccepted(job);
      } else {
        FinishRefused(job, refusal.value);
      }
    }

    /**
     `deliver`, given what a request would be answered. Its delivery is left alone if settled,
     failed without an address, and otherwise settled by an ok answer or the fifth attempt;
     after any other attempt the queue keeps the job, with one try less.
     */
    method Deliver(job: RowId, url: Option<string>, refusal: Option<string>)
      requires Valid() && Runnable(Snapshot(), job)
      modifies this`deliveries, this`digests, this`jobs, this`history
      ensures Valid()
      ensures old(jobs)[job].delivery in old(deliveries)
      ensures var d, row := old(jobs)[job].delivery, old(deliveries)[old(jobs)[job].delivery];
        && d in deliveries && deliveries == old(deliveries)[d := deliveries[d]]
        && if row.status != Pending then deliveries[d] == row && digests == old(digests) && jobs == old(jobs) - {job}
           else if !Truthy(url) then
             && deliveries[d].status == Failed && deliveries[d].attempts == row.attempts + 1
             && deliveries[d].lastError == Some(NoUrl) && digests == old(digests) && jobs == old(jobs) - {job}
           else if refusal.None? then
             && deliveries[d].status == Success && deliveries[d].attempts == row.attempts + 1
             && deliveries[d].lastError == None
             && digests == MarkSent(old(digests), row.digest) && jobs == old(jobs) - {job}
             && (row.digest.Some? ==> row.digest.value in digests && digests[row.digest.value].status == Sent)
           else
             && deliveries[d].attempts == row.attempts + 1 && digests == old(digests)
             && deliveries[d].lastError == Some(Thrown(Clip(refusal.value, 500)))
             && if row.attempts + 1 == 5
                then deliveries[d].status == Failed && jobs == old(jobs) - {job}
                else && deliveries[d].status == Pending
                     && jobs == old(jobs)[job := Job(d, old(jobs)[job].attemptsMade + 1, None)]
    {
      RowOfJob(job);
      var post := BeginDelivery(job, url);
      if post {
        Finish(job, refusal);
      }
    }
  }
}
