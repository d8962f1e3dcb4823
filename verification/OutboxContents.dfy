/** What the rows of the protocol say, measured against what their calls had read. */
module OutboxContents {
  import opened Text
  import opened Entities
  import opened Calendar
  import opened DedupeKeys
  import opened Attendance
  import opened Outbox
  import opened OutboxInvariant
  import opened OutboxRuns

  function LateOnes(standups: seq<Standup>): set<nat> {
    set i: nat | i < |standups| && standups[i].isLate
  }

  lemma {:induction false} LateCountIsSize(standups: seq<Standup>)
    ensures LateCount(standups) == |LateOnes(standups)|
  {
    if standups == [] {
      assert LateOnes(standups) == {};
    } else {
      var front, n := standups[..|standups| - 1], |standups| - 1;
      LateCountIsSize(front);
      assert LateOnes(standups) == LateOnes(front) + if standups[n].isLate then {n} else {};
    }
  }

  predicate HasPosted(standups: seq<Standup>, user: UserId) {
    exists i :: 0 <= i < |standups| && standups[i].user == user
  }

  lemma {:induction false} AuthorsHavePosted(standups: seq<Standup>, user: UserId)
    ensures user in Authors(standups) <==> HasPosted(standups, user)
  {
    if standups != [] {
      var front, last := standups[..|standups| - 1], standups[|standups| - 1];
      AuthorsHavePosted(front, user);
      ElementsAppend(AuthorList(front), last.user);
      assert HasPosted(front, user) ==> HasPosted(standups, user) by {
        assert forall i :: 0 <= i < |front| ==> front[i] == standups[i];
      }
    }
  }

  /** Exactly the members without a standup. */
  ghost predicate AreMissing(list: seq<UserId>, members: seq<UserId>, standups: seq<Standup>) {
    forall u :: u in list <==> u in members && !HasPosted(standups, u)
  }

  lemma {:induction false} MissingAreMissing(members: seq<UserId>, standups: seq<Standup>)
    ensures AreMissing(Missing(members, standups), members, standups) && InOrder(Missing(members, standups), members)
  {
    BothInOrder(members, Authors(standups));
    var list := Missing(members, standups);
    forall u
      ensures u in list <==> u in members && !HasPosted(standups, u)
    {
      AuthorsHavePosted(standups, u);
      assert u in list <==> u in Elements(list);
    }
  }

  // Digests

  ghost predicate StatOf(s: State, g: RowId, t: RowId)
    requires g in s.digests
  {
    t in s.stats && OfOneDay(s.digests[g], s.stats[t])
  }

  /** All rows of a digest were added, and nothing else changed in the tables. */
  ghost predicate CommittedWhole(s: State, s': State, c: RowId, g: RowId, d: RowId, t: RowId)
    requires CommitEnabled(s, c, g, d, t)
  {
    && g in s'.digests && s'.digests == s.digests[g := s'.digests[g]]
    && t in s'.stats && s'.stats == s.stats[t := s'.stats[t]]
    && StatOf(s', g, t) && Agree(s'.digests[g], s'.stats[t]) && s'.digests[g].status == Generated
    && s'.digests[g].team == s.calls[c].team && s'.digests[g].day == s.calls[c].day
    && (if s.calls[c].webhook
        then && d in s'.deliveries && s'.deliveries == s.deliveries[d := s'.deliveries[d]]
             && s'.deliveries[d]
                == Delivery(Some(g), s.calls[c].team, None, OfDigest(s.calls[c].team, s.calls[c].day), Pending, 0, None)
             && s'.calls == s.calls[c := Enqueueing(d)]
        else s'.deliveries == s.deliveries && s'.calls == s.calls - {c})
    && s'.jobs == s.jobs
  }

  lemma {:induction false} CommitOutcome(s: State, c: RowId, g: RowId, d: RowId, t: RowId)
    requires CommitEnabled(s, c, g, d, t)
    ensures if CommitConflicts(s, s.calls[c].team, s.calls[c].day, s.calls[c].webhook)
            then SameTables(s, GenerateCommit(s, c, g, d, t)) && c !in GenerateCommit(s, c, g, d, t).calls
            else CommittedWhole(s, GenerateCommit(s, c, g, d, t), c, g, d, t)
  {
  }

  ghost predicate DigestTells(row: Digest, members: seq<UserId>, standups: seq<Standup>) {
    && row.posted == standups
    && row.submitted == |standups|
    && row.submitted + row.missing == |members|
    && row.late == |LateOnes(standups)|
    && AreMissing(row.missingUsers, members, standups) && InOrder(row.missingUsers, members)
  }

  ghost predicate StatTells(row: Stat, members: seq<UserId>, standups: seq<Standup>) {
    && row.members == |members|
    && row.submitted == |standups|
    && row.submitted + row.missing == |members|
    && row.late == |LateOnes(standups)|
    && (members != [] ==> row.participation * |members| as real == |standups| as real)
    && (members == [] ==> row.participation == 0.0)
  }

  lemma {:induction false} RowsTell(team: Id, day: Day, members: seq<UserId>, standups: seq<Standup>)
    ensures DigestTells(DigestRow(team, day, members, standups), members, standups)
    ensures StatTells(StatRow(team, day, members, standups), members, standups)
  {
    LateCountIsSize(standups);
    MissingAreMissing(members, standups);
  }

  /** A digest and its statistic say what the call that committed them had read, and name its team and day. */
  lemma {:induction false} DigestTellsWhatWasRead(s: State, c: RowId, g: RowId, d: RowId, t: RowId)
    requires CommitEnabled(s, c, g, d, t) && GenerateCommit(s, c, g, d, t).digests != s.digests
    ensures var call, s' := s.calls[c], GenerateCommit(s, c, g, d, t);
      && g in s'.digests && t in s'.stats
      && s'.digests[g].team == s'.stats[t].team == call.team && s'.digests[g].day == s'.stats[t].day == call.day
      && DigestTells(s'.digests[g], call.members.value, call.standups.value)
      && StatTells(s'.stats[t], call.members.value, call.standups.value)
  {
    var call := s.calls[c];
    RowsTell(call.team, call.day, call.members.value, call.standups.value);
  }

  /** What can happen to a digest: being marked sent. */
  ghost predicate DigestStep(a: Digest, b: Digest) {
    b == a || b == a.(status := Sent)
  }

  lemma {:induction false} CommitMovesDigest(s: State, c: RowId, digest: RowId, d: RowId, t: RowId, g: RowId)
    requires g in s.digests
    ensures var s' := GenerateCommit(s, c, digest, d, t); g in s'.digests && s'.digests[g] == s.digests[g]
  {
  }

  lemma {:induction false} EndMovesDigest(s: State, job: RowId, answer: Answer, dies: bool, g: RowId)
    requires g in s.digests
    ensures var s' := DeliverEnd(s, job, answer, dies); g in s'.digests && DigestStep(s.digests[g], s'.digests[g])
  {
  }

  lemma {:induction false} OthersKeepDigests(s: State, e: Event)
    requires !e.GenerateCommitEvent? && !e.DeliverEndEvent?
    ensures Step(s, e).digests == s.digests
  {
  }

  lemma {:induction false} StepMovesDigest(s: State, e: Event, g: RowId)
    requires g in s.digests
    ensures g in Step(s, e).digests && DigestStep(s.digests[g], Step(s, e).digests[g])
  {
    match e
    case GenerateCommitEvent(c, digest, d, t) => CommitMovesDigest(s, c, digest, d, t, g);
    case DeliverEndEvent(job, answer, dies) => EndMovesDigest(s, job, answer, dies, g);
    case _ => OthersKeepDigests(s, e);
  }

  /** A digest is never deleted, never unsent, and its content never changes. */
  lemma {:induction false} DigestsKeepTheirContent(trace: seq<Event>, more: seq<Event>, g: RowId)
    requires g in Run(trace).digests
    ensures g in Run(trace + more).digests && DigestStep(Run(trace).digests[g], Run(trace + more).digests[g])
    decreases |more|
  {
    if more == [] {
      assert trace + more == trace;
    } else {
      var fewer := more[..|more| - 1];
      assert (trace + more)[..|trace + more| - 1] == trace + fewer;
      DigestsKeepTheirContent(trace, fewer, g);
      StepMovesDigest(Run(trace + fewer), more[|more| - 1], g);
    }
  }

  // Reminders

  /** The delivery of a reminder, new and with its addressees. */
  ghost predicate IsReminder(row: Delivery, call: Call)
    requires call.Reminding? && call.members.Some? && call.standups.Some?
  {
    && row.key == OfReminder(call.team, call.day, call.kind) && row.team == call.team && row.digest.None?
    && row.status == Pending && row.attempts == 0
    && row.payload.Some? && AreMissing(row.payload.value, call.members.value, call.standups.value)
  }

  /**
   A reminder is created exactly if some member has not submitted and none of its kind
   exists for the day yet; it goes to the members who have not.
   */
  lemma {:induction false} ReminderGoesToTheMissing(s: State, c: RowId, d: RowId)
    requires HasRead(s, c) && s.calls[c].Reminding? && d !in s.deliveries
    ensures var call, s' := s.calls[c], ReminderInsert(s, c, d);
      if (forall u :: u in call.members.value ==> HasPosted(call.standups.value, u))
         || KeyTaken(s, OfReminder(call.team, call.day, call.kind))
      then SameTables(s, s')
      else && d in s'.deliveries && s'.deliveries == s.deliveries[d := s'.deliveries[d]]
           && IsReminder(s'.deliveries[d], call) && InOrder(s'.deliveries[d].payload.value, call.members.value)
  {
    var members, standups := s.calls[c].members.value, s.calls[c].standups.value;
    var missing := Missing(members, standups);
    MissingAreMissing(members, standups);
    assert missing == [] <==> forall u :: u in members ==> HasPosted(standups, u) by {
      assert missing != [] ==> missing[0] in missing;
    }
  }

  // Runs, in terms of the row they had read

  lemma {:induction false} FindsDigest(s: State, c: RowId, team: Id, config: Option<Config>, date: string, g: RowId)
    requires c !in s.calls && ResendGate(s, team, config, date).None? && g in s.digests
    requires s.digests[g].team == team && Some(s.digests[g].day) == ParseYmd(date)
    ensures IsYmd(date)
    ensures ResendFind(s, c, team, config, date, g) == s.(calls := s.calls[c := Resending(team, date, g)])
  {
  }

  lemma {:induction false} StartOf(s: State, j: RowId, url: Option<string>, row: Delivery)
    requires Runnable(s, j) && s.jobs[j].delivery in s.deliveries && s.deliveries[s.jobs[j].delivery] == row
    requires Unpostable(s, row, url) == if Truthy(url) then None else Some(NoUrl)
    ensures DeliverStart(s, j, url, false, false) ==
      if row.status != Pending then s.(jobs := s.jobs - {j})
      else if !Truthy(url) then
        s.(deliveries := s.deliveries[s.jobs[j].delivery := MarkFailed(row, NoUrl)], jobs := s.jobs - {j})
      else s.(jobs := s.jobs[j := s.jobs[j].(flight := Some(Flight(row.attempts, row.digest)))])
  {
  }

  lemma {:induction false} EndOfAccepted(s: State, j: RowId, row: Delivery)
    requires InFlight(s, j) && s.jobs[j].delivery in s.deliveries && s.deliveries[s.jobs[j].delivery] == row
    requires s.jobs[j].flight.value == Flight(row.attempts, row.digest)
    ensures DeliverEnd(s, j, Accepted, false)
         == s.(deliveries := s.deliveries[s.jobs[j].delivery := RecordSuccess(row)],
               digests := MarkSent(s.digests, row.digest), jobs := s.jobs - {j})
  {
  }

  lemma {:induction false} EndOfRefused(s: State, j: RowId, row: Delivery, message: string)
    requires InFlight(s, j) && s.jobs[j].delivery in s.deliveries && s.deliveries[s.jobs[j].delivery] == row
    requires s.jobs[j].flight.value == Flight(row.attempts, row.digest)
    ensures DeliverEnd(s, j, Refused(message), false)
         == s.(deliveries := s.deliveries[s.jobs[j].delivery := RecordFailure(row, row.attempts, message)],
               jobs := if row.attempts + 1 < MAX_ATTEMPTS
                       then s.jobs[j := Job(s.jobs[j].delivery, s.jobs[j].attemptsMade + 1, None)] else s.jobs - {j})
    ensures DeliverEnd(s, j, AcceptedUncommitted(message), false) == DeliverEnd(s, j, Refused(message), false)
  {
  }

  // Errors

  /** A delivery carries an error exactly while its last attempt failed, and never more than 500 characters of it. */
  ghost predicate ErrorTells(row: Delivery) {
    && (row.lastError.Some? <==> row.attempts > 0 && row.status != Success)
    && (row.status == Failed ==> row.attempts > 0)
    && (row.lastError.Some? && row.lastError.value.Thrown? ==> |row.lastError.value.message| <= 500)
  }

  ghost predicate ErrorsTell(s: State) {
    forall d :: d in s.deliveries ==> ErrorTells(s.deliveries[d])
  }

  lemma {:induction false} StartKeepsErrors(s: State, j: RowId, url: Option<string>, fails: bool, dies: bool)
    requires ErrorsTell(s)
    ensures ErrorsTell(DeliverStart(s, j, url, fails, dies))
  {
  }

  lemma {:induction false} EndKeepsErrors(s: State, j: RowId, answer: Answer, dies: bool)
    requires Jobs(s) && ErrorsTell(s)
    ensures ErrorsTell(DeliverEnd(s, j, answer, dies))
  {
    if InFlight(s, j) {
      assert JobFits(s.jobs[j], s.deliveries[s.jobs[j].delivery]);
    }
  }

  /** A delivery that was inserted has no attempts and no error. */
  ghost predicate AddsAtMost(s: State, s': State, d: RowId) {
    forall e :: e in s'.deliveries ==>
      || (e in s.deliveries && s'.deliveries[e] == s.deliveries[e])
      || (e == d && s'.deliveries[e].attempts == 0 && s'.deliveries[e].status == Pending
          && s'.deliveries[e].lastError.None?)
  }

  lemma {:induction false} CommitAdds(s: State, c: RowId, g: RowId, d: RowId, t: RowId)
    ensures AddsAtMost(s, GenerateCommit(s, c, g, d, t), d)
  {
  }

  lemma {:induction false} InsertAdds(s: State, c: RowId, d: RowId, row: Delivery)
    requires row.attempts == 0 && row.status == Pending && row.lastError.None?
    ensures AddsAtMost(s, InsertDelivery(s, c, d, row), d)
  {
  }

  lemma {:induction false} ReminderAdds(s: State, c: RowId, d: RowId)
    ensures AddsAtMost(s, ReminderInsert(s, c, d), d)
  {
    if HasRead(s, c) && s.calls[c].Reminding? && d !in s.deliveries {
      var Reminding(team, day, kind, members, standups) := s.calls[c];
      var payload := Some(Missing(members.value, standups.value));
      InsertAdds(s, c, d, NewDelivery(None, team, payload, OfReminder(team, day, kind)));
    }
  }

  lemma {:induction false} ResendAdds(s: State, c: RowId, d: RowId, uuid: Id)
    ensures AddsAtMost(s, ResendInsert(s, c, d, uuid), d)
  {
  }

  lemma {:induction false} AddingKeepsErrors(s: State, s': State, d: RowId)
    requires ErrorsTell(s) && AddsAtMost(s, s', d)
    ensures ErrorsTell(s')
  {
  }

  lemma {:induction false} StepKeepsErrors(s: State, e: Event)
    requires Jobs(s) && ErrorsTell(s)
    ensures ErrorsTell(Step(s, e))
  {
    match e
    case DeliverStartEvent(j, url, fails, dies) => StartKeepsErrors(s, j, url, fails, dies);
    case DeliverEndEvent(j, answer, dies) => EndKeepsErrors(s, j, answer, dies);
    case GenerateCommitEvent(c, g, d, t) =>
      CommitAdds(s, c, g, d, t);
      AddingKeepsErrors(s, Step(s, e), d);
    case ReminderInsertEvent(c, d) =>
      ReminderAdds(s, c, d);
      AddingKeepsErrors(s, Step(s, e), d);
    case ResendInsertEvent(c, d, uuid) =>
      ResendAdds(s, c, d, uuid);
      AddingKeepsErrors(s, Step(s, e), d);
    case _ => assert Step(s, e).deliveries == s.deliveries;
  }

  /** In every run. */
  lemma {:induction false} RunErrorsTell(trace: seq<Event>)
    ensures ErrorsTell(Run(trace))
  {
    if trace != [] {
      RunErrorsTell(trace[..|trace| - 1]);
      RunHasInv(trace[..|trace| - 1]);
      StepKeepsErrors(Run(trace[..|trace| - 1]), trace[|trace| - 1]);
    }
  }
}
