/** Where digests, deliveries and their errors come from: what must have been asked for, and in what configuration. */
module OutboxOrigins {
  import opened Text
  import opened Calendar
  import opened Entities
  import opened ReminderTime
  import opened DedupeKeys
  import opened Attendance
  import opened Outbox
  import opened OutboxContents
  import opened OutboxTheorems

  // Checks

  predicate HasAddress(config: Config) {
    config.webhookUrl.Some? && config.webhookUrl.value != ""
  }

  ghost predicate NoDigest(s: State, team: Id, day: Day) {
    forall g :: g in s.digests ==> s.digests[g].team != team || s.digests[g].day != day
  }

  ghost predicate NoDelivery(s: State, key: Key) {
    forall d :: d in s.deliveries ==> s.deliveries[d].key != key
  }

  /** A digest was called for: for an active team, on a working day of its, which had none. */
  ghost predicate CallsForDigest(s: State, e: Event, call: RowId, team: Id, day: Day, webhook: bool) {
    && e.GenerateCheckEvent? && e.call == call && e.team == team && e.day == day && e.config.Some?
    && e.config.value.isActive && e.weekday in e.config.value.workingDays && NoDigest(s, team, day)
    && (webhook <==> HasAddress(e.config.value))
  }

  /** A reminder was called for: for an active team with an address, on a working day that had none of the kind. */
  ghost predicate CallsForReminder(s: State, e: Event, call: RowId, team: Id, day: Day, kind: ReminderKind) {
    && e.ReminderCheckEvent? && e.call == call && e.team == team && e.day == day && e.kind == kind && e.config.Some?
    && e.config.value.isActive && HasAddress(e.config.value) && e.weekday in e.config.value.workingDays
    && NoDelivery(s, OfReminder(team, day, kind))
  }

  /** A digest was asked for again: of a team with an address, by a text that reads as the digest's day. */
  ghost predicate CallsForResend(s: State, e: Event, call: RowId, team: Id, date: string, digest: RowId) {
    && e.ResendFindEvent? && e.call == call && e.team == team && e.date == date && e.digest == digest
    && e.config.Some? && HasAddress(e.config.value)
    && digest in s.digests && s.digests[digest].team == team && ParseYmd(date) == Some(s.digests[digest].day)
  }

  predicate Generates(s: State, call: RowId, team: Id, day: Day, webhook: bool) {
    call in s.calls && s.calls[call].Generating? && s.calls[call].team == team && s.calls[call].day == day
    && s.calls[call].webhook == webhook
  }

  predicate Reminds(s: State, call: RowId, team: Id, day: Day, kind: ReminderKind) {
    call in s.calls && s.calls[call].Reminding? && s.calls[call].team == team && s.calls[call].day == day
    && s.calls[call].kind == kind
  }

  predicate Resends(s: State, call: RowId, team: Id, date: string, digest: RowId) {
    call in s.calls && s.calls[call].Resending? && s.calls[call].team == team && s.calls[call].date == date
    && s.calls[call].digest == digest
  }

  predicate Checks(e: Event) {
    e.GenerateCheckEvent? || e.ReminderCheckEvent? || e.ResendFindEvent?
  }

  /** The call is as it was but for what it has read, or has a delivery to enqueue. */
  ghost predicate CarriedOn(s: State, c: RowId, call: Call) {
    || call.Enqueueing?
    || (c in s.calls && match s.calls[c]
        case Generating(team, day, webhook, _, _) =>
          call.Generating? && call.team == team && call.day == day && call.webhook == webhook
        case Reminding(team, day, kind, _, _) =>
          call.Reminding? && call.team == team && call.day == day && call.kind == kind
        case Resending(_, _, _) => call == s.calls[c]
        case Enqueueing(_) => false)
  }

  ghost predicate AllCarriedOn(s: State, s': State) {
    forall c :: c in s'.calls ==> CarriedOn(s, c, s'.calls[c])
  }

  lemma {:induction false} SameMoveOn(s: State, s': State)
    requires s'.calls == s.calls
    ensures AllCarriedOn(s, s')
  {
  }

  lemma {:induction false} MembersMoveOn(s: State, c: RowId, members: seq<UserId>)
    ensures AllCarriedOn(s, ReadMembers(s, c, members))
  {
  }

  lemma {:induction false} StandupsMoveOn(s: State, c: RowId, standups: seq<Standup>)
    ensures AllCarriedOn(s, ReadStandups(s, c, standups))
  {
  }

  lemma {:induction false} CommitMovesOn(s: State, c: RowId, g: RowId, d: RowId, t: RowId)
    ensures AllCarriedOn(s, GenerateCommit(s, c, g, d, t))
  {
  }

  lemma {:induction false} InsertMovesOn(s: State, c: RowId, d: RowId, row: Delivery)
    ensures AllCarriedOn(s, InsertDelivery(s, c, d, row))
  {
  }

  lemma {:induction false} ReminderMovesOn(s: State, c: RowId, d: RowId)
    ensures AllCarriedOn(s, ReminderInsert(s, c, d))
  {
    if HasRead(s, c) && s.calls[c].Reminding? && d !in s.deliveries {
      var Reminding(team, day, kind, members, standups) := s.calls[c];
      var pending := Missing(members.value, standups.value);
      InsertMovesOn(s, c, d, NewDelivery(None, team, Some(pending), OfReminder(team, day, kind)));
    }
  }

  lemma {:induction false} ResendMovesOn(s: State, c: RowId, d: RowId, uuid: Id)
    ensures AllCarriedOn(s, ResendInsert(s, c, d, uuid))
  {
    if c in s.calls && s.calls[c].Resending? && d !in s.deliveries {
      var Resending(team, date, digest) := s.calls[c];
      InsertMovesOn(s, c, d, NewDelivery(Some(digest), team, None, OfResend(team, date, uuid)));
    }
  }

  lemma {:induction false} EnqueueMovesOn(s: State, c: RowId, j: RowId)
    ensures AllCarriedOn(s, Enqueue(s, c, j)) && AllCarriedOn(s, CallDies(s, c))
  {
  }

  lemma {:induction false} JobsLeaveCalls(s: State, e: Event)
    requires e.DeliverStartEvent? || e.DeliverEndEvent?
    ensures Step(s, e).calls == s.calls
  {
  }

  lemma {:induction false} CallsCarryOn(s: State, e: Event)
    requires !Checks(e)
    ensures AllCarriedOn(s, Step(s, e))
  {
    match e
    case ReadMembersEvent(c, members) => MembersMoveOn(s, c, members);
    case ReadStandupsEvent(c, standups) => StandupsMoveOn(s, c, standups);
    case GenerateCommitEvent(c, g, d, t) => CommitMovesOn(s, c, g, d, t);
    case ReminderInsertEvent(c, d) => ReminderMovesOn(s, c, d);
    case ResendInsertEvent(c, d, uuid) => ResendMovesOn(s, c, d, uuid);
    case EnqueueEvent(c, j) => EnqueueMovesOn(s, c, j);
    case CallDiesEvent(c) => EnqueueMovesOn(s, c, "");
    case _ =>
      JobsLeaveCalls(s, e);
      SameMoveOn(s, Step(s, e));
  }

  lemma {:induction false} NewGenerating(s: State, e: Event, call: RowId, team: Id, day: Day, webhook: bool)
    requires Generates(Step(s, e), call, team, day, webhook) && !Generates(s, call, team, day, webhook)
    ensures CallsForDigest(s, e, call, team, day, webhook)
  {
    if !Checks(e) {
      CallsCarryOn(s, e);
    }
  }

  lemma {:induction false} NewReminding(s: State, e: Event, call: RowId, team: Id, day: Day, kind: ReminderKind)
    requires Reminds(Step(s, e), call, team, day, kind) && !Reminds(s, call, team, day, kind)
    ensures CallsForReminder(s, e, call, team, day, kind)
  {
    if !Checks(e) {
      CallsCarryOn(s, e);
    }
  }

  lemma {:induction false} NewResending(s: State, e: Event, call: RowId, team: Id, date: string, digest: RowId)
    requires Resends(Step(s, e), call, team, date, digest) && !Resends(s, call, team, date, digest)
    ensures CallsForResend(s, e, call, team, date, digest)
  {
    if !Checks(e) {
      CallsCarryOn(s, e);
    }
  }

  lemma {:induction false} GenerationWasCalledFor(trace: seq<Event>, call: RowId, team: Id, day: Day, webhook: bool)
    returns (i: int)
    requires Generates(Run(trace), call, team, day, webhook)
    ensures 0 <= i < |trace| && CallsForDigest(Run(trace[..i]), trace[i], call, team, day, webhook)
  {
    var before, e := trace[..|trace| - 1], trace[|trace| - 1];
    if Generates(Run(before), call, team, day, webhook) {
      i := GenerationWasCalledFor(before, call, team, day, webhook);
      assert before[..i] == trace[..i] && before[i] == trace[i];
    } else {
      i := |before|;
      NewGenerating(Run(before), e, call, team, day, webhook);
      assert trace[..i] == before;
    }
  }

  lemma {:induction false} RemindingWasCalledFor(trace: seq<Event>, call: RowId, team: Id, day: Day, kind: ReminderKind)
    returns (i: int)
    requires Reminds(Run(trace), call, team, day, kind)
    ensures 0 <= i < |trace| && CallsForReminder(Run(trace[..i]), trace[i], call, team, day, kind)
  {
    var before, e := trace[..|trace| - 1], trace[|trace| - 1];
    if Reminds(Run(before), call, team, day, kind) {
      i := RemindingWasCalledFor(before, call, team, day, kind);
      assert before[..i] == trace[..i] && before[i] == trace[i];
    } else {
      i := |before|;
      NewReminding(Run(before), e, call, team, day, kind);
      assert trace[..i] == before;
    }
  }

  lemma {:induction false} ResendWasCalledFor(trace: seq<Event>, call: RowId, team: Id, date: string, digest: RowId)
    returns (i: int)
    requires Resends(Run(trace), call, team, date, digest)
    ensures 0 <= i < |trace| && CallsForResend(Run(trace[..i]), trace[i], call, team, date, digest)
  {
    var before, e := trace[..|trace| - 1], trace[|trace| - 1];
    if Resends(Run(before), call, team, date, digest) {
      i := ResendWasCalledFor(before, call, team, date, digest);
      assert before[..i] == trace[..i] && before[i] == trace[i];
    } else {
      i := |before|;
      NewResending(Run(before), e, call, team, date, digest);
      assert trace[..i] == before;
    }
  }

  // Rows

  lemma {:induction false} NewDigest(s: State, e: Event, g: RowId)
    requires g in Step(s, e).digests && g !in s.digests
    ensures var row := Step(s, e).digests[g];
      && e.GenerateCommitEvent? && e.digest == g && e.call in s.calls && s.calls[e.call].Generating?
      && Generates(s, e.call, row.team, row.day, s.calls[e.call].webhook)
  {
  }

  /** The digest was committed at step k by a call that was let in at step i. */
  ghost predicate CalledForAt(trace: seq<Event>, g: RowId, team: Id, day: Day, i: int, k: int) {
    && 0 <= i < k < |trace| && trace[k].GenerateCommitEvent? && trace[k].digest == g
    && exists webhook :: CallsForDigest(Run(trace[..i]), trace[i], trace[k].call, team, day, webhook)
  }

  /**
   Every digest was called for while its team was active, on a working day of the team's that had
   no digest yet.
   */
  lemma {:induction false} DigestsAreCalledFor(trace: seq<Event>, g: RowId) returns (i: int, k: int)
    requires g in Run(trace).digests
    ensures CalledForAt(trace, g, Run(trace).digests[g].team, Run(trace).digests[g].day, i, k)
  {
    var before, e := trace[..|trace| - 1], trace[|trace| - 1];
    if g in Run(before).digests {
      i, k := DigestsAreCalledFor(before, g);
      StepMovesDigest(Run(before), e, g);
      assert before[..i] == trace[..i] && before[i] == trace[i] && before[k] == trace[k];
    } else {
      k := |before|;
      NewDigest(Run(before), e, g);
      var row := Run(trace).digests[g];
      i := GenerationWasCalledFor(before, e.call, row.team, row.day, Run(before).calls[e.call].webhook);
      assert before[..i] == trace[..i] && before[i] == trace[i];
    }
  }

  /** The call is about to create a delivery under the key, for what it was let in for. */
  ghost predicate Creates(s: State, call: RowId, row: Delivery) {
    match row.key
    case OfDigest(team, day) => Generates(s, call, team, day, true)
    case OfReminder(team, day, kind) => Reminds(s, call, team, day, kind)
    case OfResend(team, date, _) => row.digest.Some? && Resends(s, call, team, date, row.digest.value)
  }

  lemma {:induction false} CommitCreates(s: State, c: RowId, g: RowId, d: RowId, t: RowId, id: RowId)
    requires id in GenerateCommit(s, c, g, d, t).deliveries && id !in s.deliveries
    ensures id == d && Creates(s, c, GenerateCommit(s, c, g, d, t).deliveries[id])
  {
  }

  lemma {:induction false} ReminderCreates(s: State, c: RowId, d: RowId, id: RowId)
    requires id in ReminderInsert(s, c, d).deliveries && id !in s.deliveries
    ensures id == d && Creates(s, c, ReminderInsert(s, c, d).deliveries[id])
  {
  }

  lemma {:induction false} ResendCreates(s: State, c: RowId, d: RowId, uuid: Id, id: RowId)
    requires id in ResendInsert(s, c, d, uuid).deliveries && id !in s.deliveries
    ensures id == d && Creates(s, c, ResendInsert(s, c, d, uuid).deliveries[id])
  {
  }

  predicate Inserts(e: Event) {
    e.GenerateCommitEvent? || e.ReminderInsertEvent? || e.ResendInsertEvent?
  }

  lemma {:induction false} OthersCreateNone(s: State, e: Event)
    requires !Inserts(e)
    ensures Step(s, e).deliveries.Keys == s.deliveries.Keys
  {
  }

  lemma {:induction false} CreatedDelivery(s: State, e: Event, d: RowId)
    requires d in Step(s, e).deliveries && d !in s.deliveries
    ensures Inserts(e) && e.delivery == d && Creates(s, e.call, Step(s, e).deliveries[d])
  {
    match e
    case GenerateCommitEvent(c, g, own, t) => CommitCreates(s, c, g, own, t, d);
    case ReminderInsertEvent(c, own) => ReminderCreates(s, c, own, d);
    case ResendInsertEvent(c, own, uuid) => ResendCreates(s, c, own, uuid, d);
    case _ =>
      OthersCreateNone(s, e);
      assert false;
  }

  /** The delivery was created at step k by a call that was let in at step i, for what its key says. */
  ghost predicate DeliveryCalledForAt(trace: seq<Event>, d: RowId, row: Delivery, i: int, k: int) {
    && 0 <= i < k < |trace| && Inserts(trace[k]) && trace[k].delivery == d
    && match row.key
       case OfDigest(team, day) => CallsForDigest(Run(trace[..i]), trace[i], trace[k].call, team, day, true)
       case OfReminder(team, day, kind) =>
         CallsForReminder(Run(trace[..i]), trace[i], trace[k].call, team, day, kind)
       case OfResend(team, date, _) =>
         row.digest.Some? && CallsForResend(Run(trace[..i]), trace[i], trace[k].call, team, date, row.digest.value)
  }

  lemma {:induction false} CreationWasCalledFor(trace: seq<Event>, call: RowId, row: Delivery) returns (i: int)
    requires Creates(Run(trace), call, row)
    ensures 0 <= i < |trace|
    ensures match row.key
      case OfDigest(team, day) => CallsForDigest(Run(trace[..i]), trace[i], call, team, day, true)
      case OfReminder(team, day, kind) => CallsForReminder(Run(trace[..i]), trace[i], call, team, day, kind)
      case OfResend(team, date, _) =>
        row.digest.Some? && CallsForResend(Run(trace[..i]), trace[i], call, team, date, row.digest.value)
  {
    match row.key
    case OfDigest(team, day) => i := GenerationWasCalledFor(trace, call, team, day, true);
    case OfReminder(team, day, kind) => i := RemindingWasCalledFor(trace, call, team, day, kind);
    case OfResend(team, date, _) => i := ResendWasCalledFor(trace, call, team, date, row.digest.value);
  }

  /**
   Every delivery was called for as its key says: with a digest or a reminder, while its team was
   active and had an address, on a working day of the team's; or again, of a digest of that date.
   */
  lemma {:induction false} DeliveriesAreCalledFor(trace: seq<Event>, d: RowId) returns (i: int, k: int)
    requires d in Run(trace).deliveries
    ensures DeliveryCalledForAt(trace, d, Run(trace).deliveries[d], i, k)
  {
    var before, e := trace[..|trace| - 1], trace[|trace| - 1];
    assert trace == before + [e];
    if d in Run(before).deliveries {
      i, k := DeliveriesAreCalledFor(before, d);
      SettledForGood(before, [e], d);
      assert before[..i] == trace[..i] && before[i] == trace[i] && before[k] == trace[k];
    } else {
      k := |before|;
      CreatedDelivery(Run(before), e, d);
      i := CreationWasCalledFor(before, e.call, Run(trace).deliveries[d]);
      assert before[..i] == trace[..i] && before[i] == trace[i];
    }
  }

  // Errors

  /** The run of a job for the delivery ended with that message, of which the first 500 characters are kept. */
  ghost predicate Throws(s: State, e: Event, d: RowId, kept: string) {
    && e.DeliverEndEvent? && e.job in s.jobs && s.jobs[e.job].delivery == d
    && (e.answer.Refused? || e.answer.AcceptedUncommitted?)
    && kept <= e.answer.message && |kept| == if |e.answer.message| <= 500 then |e.answer.message| else 500
  }

  predicate Keeps(s: State, d: RowId, kept: string) {
    d in s.deliveries && s.deliveries[d].lastError == Some(Thrown(kept))
  }

  lemma {:induction false} NewRowsKeepNone(s: State, e: Event, d: RowId, kept: string)
    requires d in Step(s, e).deliveries && d !in s.deliveries
    ensures !Keeps(Step(s, e), d, kept)
  {
    CreatedDelivery(s, e, d);
    InsertsKeepNone(s, e, d);
  }

  lemma {:induction false} InsertsKeepNone(s: State, e: Event, d: RowId)
    requires Inserts(e) && d in Step(s, e).deliveries
    ensures d in s.deliveries ==> Step(s, e).deliveries[d] == s.deliveries[d]
    ensures d !in s.deliveries ==> Step(s, e).deliveries[d].lastError.None?
  {
  }

  lemma {:induction false} StartThrowsNone(s: State, j: RowId, url: Option<string>, fails: bool, dies: bool, d: RowId,
                                           kept: string)
    requires Keeps(DeliverStart(s, j, url, fails, dies), d, kept)
    ensures Keeps(s, d, kept)
  {
  }

  lemma {:induction false} EndThrows(s: State, j: RowId, answer: Answer, dies: bool, d: RowId, kept: string)
    requires Keeps(DeliverEnd(s, j, answer, dies), d, kept) && !Keeps(s, d, kept)
    ensures Throws(s, DeliverEndEvent(j, answer, dies), d, kept)
  {
  }

  lemma {:induction false} NewError(s: State, e: Event, d: RowId, kept: string)
    requires Keeps(Step(s, e), d, kept) && !Keeps(s, d, kept)
    ensures Throws(s, e, d, kept)
  {
    if d !in s.deliveries {
      NewRowsKeepNone(s, e, d, kept);
      assert false;
    } else if e.DeliverStartEvent? {
      StartThrowsNone(s, e.job, e.url, e.fails, e.dies, d, kept);
    } else if e.DeliverEndEvent? {
      EndThrows(s, e.job, e.answer, e.dies, d, kept);
    } else {
      CallStepKeepsRow(s, e, d);
    }
  }

  /** The error text of a delivery is what its last failed request threw, cut to 500 characters. */
  lemma {:induction false} ErrorsWereThrown(trace: seq<Event>, d: RowId, kept: string) returns (k: int)
    requires Keeps(Run(trace), d, kept)
    ensures 0 <= k < |trace| && Throws(Run(trace[..k]), trace[k], d, kept)
    ensures forall j :: k < j <= |trace| ==> Keeps(Run(trace[..j]), d, kept)
  {
    var before, e := trace[..|trace| - 1], trace[|trace| - 1];
    assert trace[..|trace|] == trace;
    if Keeps(Run(before), d, kept) {
      k := ErrorsWereThrown(before, d, kept);
      assert before[..k] == trace[..k] && before[k] == trace[k];
      assert forall j :: 0 <= j <= |before| ==> before[..j] == trace[..j];
    } else {
      k := |before|;
      NewError(Run(before), e, d, kept);
      assert trace[..k] == before;
    }
  }
}
