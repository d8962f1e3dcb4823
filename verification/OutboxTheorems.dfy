/**
 The guarantees of the digest, reminder and delivery protocol, over every run: any number
 of calls and jobs, their steps in any order, with failing databases and dying workers.
 */
module OutboxTheorems {
  import opened Text
  import opened Entities
  import opened DedupeKeys
  import opened Outbox
  import opened OutboxReached
  import opened OutboxInvariant
  import opened OutboxRuns
  import opened OutboxContents
  import opened OutboxLedger

  // Every step, every run

  lemma {:induction false} EnqueueHere(s: State, c: RowId, n: RowId, d: RowId, l: Ledger)
    requires Jobs(s) && Handovers(s) && Balanced(s, d, l) && Concerns(s, EnqueueEvent(c, n), d)
    ensures Balanced(Enqueue(s, c, n), d, Add(l, ZERO.(enqueued := 1)))
  {
    HandedOver(s, c, n, d);
    HandedOverBalanced(s, Enqueue(s, c, n), d, l);
    AddZero(ZERO.(enqueued := 1));
  }

  lemma {:induction false} ConcernedStepBalanced(s: State, e: Event, d: RowId, l: Ledger)
    requires Inv(s) && Balanced(s, d, l) && Concerns(s, e, d)
    ensures Balanced(Step(s, e), d, Add(l, Entry(s, e, d)))
  {
    match e
    case EnqueueEvent(c, j) => EnqueueHere(s, c, j, d, l);
    case DeliverStartEvent(j, url, fails, dies) => OwnStart(s, j, url, fails, dies, l);
    case DeliverEndEvent(j, answer, dies) => OwnEnd(s, j, answer, dies, l);
  }

  lemma {:induction false} OtherStepBalanced(s: State, e: Event, d: RowId, l: Ledger)
    requires Inv(s) && Balanced(s, d, l) && !Concerns(s, e, d)
    ensures Balanced(Step(s, e), d, l)
  {
    match e
    case EnqueueEvent(c, j) => EnqueueElsewhere(s, c, j, d, l);
    case DeliverStartEvent(j, url, fails, dies) => StartElsewhere(s, j, url, fails, dies, d, l);
    case DeliverEndEvent(j, answer, dies) => EndElsewhere(s, j, answer, dies, d, l);
    case GenerateCommitEvent(c, g, n, t) => CommitBalanced(s, c, g, n, t, d, l);
    case ReminderInsertEvent(c, n) => ReminderBalanced(s, c, n, d, l);
    case ResendInsertEvent(c, n, uuid) => ResendBalanced(s, c, n, uuid, d, l);
    case _ =>
      CallEventMovesOn(s, e);
      CallStepBalanced(s, Step(s, e), d, l);
  }

  lemma {:induction false} StepBalanced(s: State, e: Event, d: RowId, l: Ledger)
    requires Inv(s) && Balanced(s, d, l)
    ensures Balanced(Step(s, e), d, Add(l, Entry(s, e, d)))
  {
    if Concerns(s, e, d) {
      ConcernedStepBalanced(s, e, d, l);
    } else {
      NotConcerned(s, e, d);
      AddZero(l);
      OtherStepBalanced(s, e, d, l);
    }
  }

  lemma {:induction false} RunBalanced(trace: seq<Event>, d: RowId)
    ensures Balanced(Run(trace), d, Tally(trace, d))
  {
    if trace != [] {
      var before := trace[..|trace| - 1];
      RunHasInv(before);
      RunBalanced(before, d);
      StepBalanced(Run(before), trace[|trace| - 1], d, Tally(before, d));
    }
  }

  /** The delivery of a job exists, and has no other. */
  lemma {:induction false} JobsHaveRows(trace: seq<Event>, j: RowId)
    requires j in Run(trace).jobs
    ensures Run(trace).jobs[j].delivery in Run(trace).deliveries
    ensures forall k :: k in Run(trace).jobs && Run(trace).jobs[k].delivery == Run(trace).jobs[j].delivery ==> k == j
    ensures var row := Run(trace).deliveries[Run(trace).jobs[j].delivery];
      row.status == Pending ==> row.attempts < MAX_ATTEMPTS
    ensures var row := Run(trace).deliveries[Run(trace).jobs[j].delivery];
      Run(trace).jobs[j].flight.Some? ==>
        Run(trace).jobs[j].flight.value == Flight(row.attempts, row.digest) && row.status == Pending
  {
    RunHasInv(trace);
  }

  lemma {:induction false} RunOfAccepted(trace: seq<Event>, j: RowId)
    requires InFlight(Run(trace), j)
    ensures Run(trace).jobs[j].delivery in Run(trace).deliveries
    ensures Run(trace).jobs[j].flight.value.digest == Run(trace).deliveries[Run(trace).jobs[j].delivery].digest
    ensures var s := Run(trace);
      var row := s.deliveries[s.jobs[j].delivery];
      Run(trace + [DeliverEndEvent(j, Accepted, false)])
        == s.(deliveries := s.deliveries[s.jobs[j].delivery := RecordSuccess(row)],
              digests := MarkSent(s.digests, row.digest), jobs := s.jobs - {j})
  {
    JobsHaveRows(trace, j);
    assert (trace + [DeliverEndEvent(j, Accepted, false)])[..|trace|] == trace;
    EndOfAccepted(Run(trace), j, Run(trace).deliveries[Run(trace).jobs[j].delivery]);
  }

  lemma {:induction false} RunOfRefused(trace: seq<Event>, j: RowId, message: string)
    requires InFlight(Run(trace), j)
    ensures Run(trace).jobs[j].delivery in Run(trace).deliveries
    ensures Run(trace).jobs[j].flight.value.attempts == Run(trace).deliveries[Run(trace).jobs[j].delivery].attempts
    ensures var s := Run(trace);
      var d, row := s.jobs[j].delivery, s.deliveries[s.jobs[j].delivery];
      Run(trace + [DeliverEndEvent(j, Refused(message), false)])
        == s.(deliveries := s.deliveries[d := RecordFailure(row, row.attempts, message)],
              jobs := if row.attempts + 1 < MAX_ATTEMPTS
                      then s.jobs[j := Job(d, s.jobs[j].attemptsMade + 1, None)] else s.jobs - {j})
    ensures Run(trace + [DeliverEndEvent(j, AcceptedUncommitted(message), false)])
         == Run(trace + [DeliverEndEvent(j, Refused(message), false)])
  {
    JobsHaveRows(trace, j);
    assert (trace + [DeliverEndEvent(j, Refused(message), false)])[..|trace|] == trace;
    assert (trace + [DeliverEndEvent(j, AcceptedUncommitted(message), false)])[..|trace|] == trace;
    EndOfRefused(Run(trace), j, Run(trace).deliveries[Run(trace).jobs[j].delivery], message);
  }

  lemma {:induction false} RunOfStart(trace: seq<Event>, j: RowId, url: Option<string>)
    requires Runnable(Run(trace), j)
    ensures Run(trace).jobs[j].delivery in Run(trace).deliveries
    ensures var s := Run(trace);
      var d, row := s.jobs[j].delivery, s.deliveries[s.jobs[j].delivery];
      && Unpostable(s, row, url) == (if Truthy(url) then None else Some(NoUrl))
      && Run(trace + [DeliverStartEvent(j, url, false, false)]) ==
           if row.status != Pending then s.(jobs := s.jobs - {j})
           else if !Truthy(url) then s.(deliveries := s.deliveries[d := MarkFailed(row, NoUrl)], jobs := s.jobs - {j})
           else s.(jobs := s.jobs[j := s.jobs[j].(flight := Some(Flight(row.attempts, row.digest)))])
  {
    JobsHaveRows(trace, j);
    PayloadIsNeverMissing(trace, Run(trace).jobs[j].delivery, url);
    assert (trace + [DeliverStartEvent(j, url, false, false)])[..|trace|] == trace;
    StartOf(Run(trace), j, url, Run(trace).deliveries[Run(trace).jobs[j].delivery]);
  }

  lemma {:induction false} RunOfResend(trace: seq<Event>, c: RowId, d: RowId, uuid: Id)
    requires c in Run(trace).calls && Run(trace).calls[c].Resending? && d !in Run(trace).deliveries
    ensures var s := Run(trace);
      var Resending(team, date, digest) := s.calls[c];
      Run(trace + [ResendInsertEvent(c, d, uuid)]) ==
        if KeyTaken(s, OfResend(team, date, uuid)) then s.(calls := s.calls - {c})
        else
          var row := NewDelivery(Some(digest), team, None, OfResend(team, date, uuid));
          s.(deliveries := s.deliveries[d := row], calls := s.calls[c := Enqueueing(d)])
  {
    assert (trace + [ResendInsertEvent(c, d, uuid)])[..|trace|] == trace;
  }

  lemma {:induction false} DeliveriesHaveDigests(trace: seq<Event>, d: RowId)
    requires d in Run(trace).deliveries && Run(trace).deliveries[d].digest.Some?
    ensures Run(trace).deliveries[d].digest.value in Run(trace).digests
  {
    RunHasInv(trace);
    assert HasOrigin(Run(trace), Run(trace).deliveries[d]);
  }

  // Creation: at most once, and all of it or nothing

  ghost predicate SameText(a: Delivery, b: Delivery) {
    KeyText(a.key) == KeyText(b.key)
  }

  /** One digest per team and day, one delivery per key text, and so one reminder per team, day and kind. */
  lemma {:induction false} CreatedAtMostOnce(trace: seq<Event>)
    ensures var s := Run(trace);
      && (forall a, b :: a in s.digests && b in s.digests && SameDay(s.digests[a], s.digests[b]) ==> a == b)
      && (forall a, b :: a in s.deliveries && b in s.deliveries && SameText(s.deliveries[a], s.deliveries[b]) ==>
           a == b)
  {
    RunHasInv(trace);
    var s := Run(trace);
    forall a, b | a in s.deliveries && b in s.deliveries && SameText(s.deliveries[a], s.deliveries[b])
      ensures a == b
    {
      KeyTextInjective(s.deliveries[a].key, s.deliveries[b].key);
    }
  }

  lemma {:induction false} OneDigestPerDay(trace: seq<Event>, g: RowId)
    requires g in Run(trace).digests
    ensures forall h :: h in Run(trace).digests ==>
      (h == g <==> SameDay(Run(trace).digests[h], Run(trace).digests[g]))
  {
    RunHasInv(trace);
  }

  ghost predicate HasStat(s: State, g: RowId)
    requires g in s.digests
  {
    exists t :: StatOf(s, g, t) && Agree(s.digests[g], s.stats[t]) && forall u :: StatOf(s, g, u) ==> u == t
  }

  ghost predicate HasDigest(s: State, t: RowId) {
    exists g :: g in s.digests && StatOf(s, g, t)
  }

  /** Each digest has one daily statistic, with the same counts, and each statistic a digest. */
  lemma {:induction false} DigestsAndStatsCorrespond(trace: seq<Event>)
    ensures var s := Run(trace);
      && (forall g :: g in s.digests ==> HasStat(s, g))
      && (forall t :: t in s.stats ==> HasDigest(s, t))
  {
    var s := Run(trace);
    forall g | g in s.digests
      ensures HasStat(s, g)
    {
      RunHasInv(trace);
      DigestHasStat(s, g);
    }
    forall t | t in s.stats
      ensures HasDigest(s, t)
    {
      RunHasInv(trace);
      StatHasDigest(s, t);
    }
  }

  lemma {:induction false} DigestHasStat(s: State, g: RowId)
    requires UniqueKeys(s) && DigestsMatchStats(s) && g in s.digests
    ensures HasStat(s, g)
  {
    assert TeamDay(s.digests[g].team, s.digests[g].day) in StatDays(s);
    var t :| t in s.stats && TeamDay(s.stats[t].team, s.stats[t].day) == TeamDay(s.digests[g].team, s.digests[g].day);
    assert StatOf(s, g, t);
    forall u | StatOf(s, g, u)
      ensures u == t
    {
      assert SameStatDay(s.stats[t], s.stats[u]);
    }
  }

  lemma {:induction false} StatHasDigest(s: State, t: RowId)
    requires DigestsMatchStats(s) && t in s.stats
    ensures HasDigest(s, t)
  {
    assert TeamDay(s.stats[t].team, s.stats[t].day) in DigestDays(s);
    var g :| g in s.digests && TeamDay(s.digests[g].team, s.digests[g].day) == TeamDay(s.stats[t].team, s.stats[t].day);
    assert StatOf(s, g, t);
  }

  lemma {:induction false} OnlyTheDigestDecides(trace: seq<Event>, c: RowId)
    requires c in Run(trace).calls && Run(trace).calls[c].Generating?
    ensures var s := Run(trace);
      CommitConflicts(s, s.calls[c].team, s.calls[c].day, s.calls[c].webhook)
      <==> DigestTaken(s, s.calls[c].team, s.calls[c].day)
  {
    RunHasInv(trace);
    OnlyTheDigestConflicts(Run(trace), Run(trace).calls[c].team, Run(trace).calls[c].day, Run(trace).calls[c].webhook);
  }

  /**
   A commit that finds a digest for its team and day leaves no row behind; any other commit
   succeeds, whatever deliveries and statistics there are, and writes all its rows.
   */
  lemma {:induction false} CommitIsAllOrNothing(trace: seq<Event>, c: RowId, g: RowId, d: RowId, t: RowId)
    requires CommitEnabled(Run(trace), c, g, d, t)
    ensures if DigestTaken(Run(trace), Run(trace).calls[c].team, Run(trace).calls[c].day)
            then && SameTables(Run(trace), GenerateCommit(Run(trace), c, g, d, t))
                 && c !in GenerateCommit(Run(trace), c, g, d, t).calls
            else CommittedWhole(Run(trace), GenerateCommit(Run(trace), c, g, d, t), c, g, d, t)
  {
    OnlyTheDigestDecides(trace, c);
    CommitOutcome(Run(trace), c, g, d, t);
  }

  /** The same, and what the rows say, of a state that a run has reached. */
  lemma {:induction false} CommitOfReached(s: State, trace: seq<Event>, c: RowId, g: RowId, d: RowId, t: RowId)
    requires Reached(s, trace) && CommitEnabled(s, c, g, d, t)
    ensures CommitConflicts(s, s.calls[c].team, s.calls[c].day, s.calls[c].webhook)
            <==> DigestTaken(s, s.calls[c].team, s.calls[c].day)
    ensures var s' := GenerateCommit(s, c, g, d, t);
      if DigestTaken(s, s.calls[c].team, s.calls[c].day)
      then SameTables(s, s') && s'.calls == s.calls - {c}
      else && CommittedWhole(s, s', c, g, d, t)
           && DigestTells(s'.digests[g], s.calls[c].members.value, s.calls[c].standups.value)
           && StatTells(s'.stats[t], s.calls[c].members.value, s.calls[c].standups.value)
  {
    ReachedIsRun(s, trace);
    OnlyTheDigestDecides(trace, c);
    CommitIsAllOrNothing(trace, c, g, d, t);
    if !DigestTaken(s, s.calls[c].team, s.calls[c].day) {
      DigestTellsWhatWasRead(s, c, g, d, t);
    }
  }

  // Delivery rows over time

  lemma {:induction false} RunStepMovesRow(s: State, s': State, j: RowId, d: RowId)
    requires d in s.deliveries && RunStep(s, s', j)
    ensures d in s'.deliveries && RowStep(s.deliveries[d], s'.deliveries[d])
  {
  }

  lemma {:induction false} StartMovesRow(s: State, e: Event, d: RowId)
    requires Jobs(s) && Budget(s) && d in s.deliveries && e.DeliverStartEvent?
    ensures d in Step(s, e).deliveries && RowStep(s.deliveries[d], Step(s, e).deliveries[d])
  {
    if Runnable(s, e.job) {
      StartIsRunStep(s, e.job, e.url, e.fails, e.dies);
      RunStepMovesRow(s, Step(s, e), e.job, d);
    }
  }

  lemma {:induction false} EndMovesRow(s: State, e: Event, d: RowId)
    requires Jobs(s) && Budget(s) && d in s.deliveries && e.DeliverEndEvent?
    ensures d in Step(s, e).deliveries && RowStep(s.deliveries[d], Step(s, e).deliveries[d])
  {
    if InFlight(s, e.job) {
      EndIsRunStep(s, e.job, e.answer, e.dies);
      RunStepMovesRow(s, Step(s, e), e.job, d);
    }
  }

  lemma {:induction false} StepMovesRow(s: State, e: Event, d: RowId)
    requires Jobs(s) && Budget(s) && d in s.deliveries
    ensures d in Step(s, e).deliveries && RowStep(s.deliveries[d], Step(s, e).deliveries[d])
  {
    if e.DeliverStartEvent? {
      StartMovesRow(s, e, d);
    } else if e.DeliverEndEvent? {
      EndMovesRow(s, e, d);
    } else {
      CallStepKeepsRow(s, e, d);
    }
  }

  lemma {:induction false} CallStepKeepsRow(s: State, e: Event, d: RowId)
    requires d in s.deliveries && !e.DeliverStartEvent? && !e.DeliverEndEvent?
    ensures d in Step(s, e).deliveries && Step(s, e).deliveries[d] == s.deliveries[d]
  {
    if MovesACall(e) {
      CallEventMovesOn(s, e);
    }
  }

  /** A delivery that has succeeded or failed is never changed again, and no delivery is ever deleted. */
  lemma {:induction false} SettledForGood(trace: seq<Event>, more: seq<Event>, d: RowId)
    requires d in Run(trace).deliveries
    ensures d in Run(trace + more).deliveries
    ensures SameIdentity(Run(trace).deliveries[d], Run(trace + more).deliveries[d])
    ensures Run(trace).deliveries[d].status != Pending ==>
              Run(trace + more).deliveries[d] == Run(trace).deliveries[d]
    decreases |more|
  {
    if more == [] {
      assert trace + more == trace;
    } else {
      var fewer := more[..|more| - 1];
      assert (trace + more)[..|trace + more| - 1] == trace + fewer;
      SettledForGood(trace, fewer, d);
      RunHasInv(trace + fewer);
      StepMovesRow(Run(trace + fewer), more[|more| - 1], d);
    }
  }

  /** A digest is SENT exactly when a delivery carrying its id is SUCCESS, and never FAILED. */
  lemma {:induction false} SentExactlyWhenDelivered(trace: seq<Event>, g: RowId)
    requires g in Run(trace).digests
    ensures var s := Run(trace);
      && s.digests[g].status != DigestFailed
      && (s.digests[g].status == Sent <==>
            exists d :: d in s.deliveries && s.deliveries[d].digest == Some(g) && s.deliveries[d].status == Success)
  {
    RunHasInv(trace);
    assert Delivered(Run(trace), g) <==>
      exists d :: d in Run(trace).deliveries && Run(trace).deliveries[d].digest == Some(g)
               && Run(trace).deliveries[d].status == Success;
  }

  /** Every delivery has content to post: the branch for a missing payload is never taken. */
  lemma {:induction false} PayloadIsNeverMissing(trace: seq<Event>, d: RowId, url: Option<string>)
    requires d in Run(trace).deliveries
    ensures var s := Run(trace);
      Unpostable(s, s.deliveries[d], url) == if Truthy(url) then None else Some(NoUrl)
  {
    RunHasInv(trace);
    assert HasOrigin(Run(trace), Run(trace).deliveries[d]);
  }

  // Attempts, requests and the queue's budget

  /**
   The account of every delivery, faults included. Requests and unpostable runs are the
   attempts of the row, the requests whose outcome was lost, and the one in flight; requests
   answered ok are the recorded success and the successes that were lost. While the delivery
   is pending, its job's failed runs are its attempts and the runs that left no trace, but for
   the runs that the queue never heard of; once it is settled, only such a run leaves it a job.
   */
  lemma {:induction false} DeliveryAccount(trace: seq<Event>, d: RowId)
    requires d in Run(trace).deliveries
    ensures var s, l := Run(trace), Tally(trace, d);
      var row, job := s.deliveries[d], JobFor(s, d);
      && l.posted + l.marked == row.attempts + l.unrecorded + One(Flying(job))
      && l.accepted == One(row.status == Success) + l.unseenOk
      && row.attempts <= (if row.status == Pending then 4 else 5)
      && (job.Some? && row.status == Pending ==> row.attempts + l.lost == job.value.attemptsMade + l.unheard)
      && (job.Some? && row.status != Pending ==> l.unheard > 0)
      && l.enqueued <= 1 && l.started <= 5 + l.killed
  {
    RunHasInv(trace);
    RunBalanced(trace, d);
    var s := Run(trace);
    if JobFor(s, d).Some? {
      var j :| JobOf(s, j, d);
      JobForIs(s, j, d);
    }
  }

  lemma {:induction false} FlyingHasRoom(s: State, d: RowId)
    requires Jobs(s) && Budget(s) && d in s.deliveries
    ensures Flying(JobFor(s, d)) ==> s.deliveries[d].attempts < MAX_ATTEMPTS
  {
    if Flying(JobFor(s, d)) {
      var j :| JobOf(s, j, d);
      JobForIs(s, j, d);
      assert JobFits(s.jobs[j], s.deliveries[d]);
    }
  }

  /**
   Without lost outcomes: at most five requests, at most one answered ok, none of it hidden. A
   worker that dies between recording an outcome and telling the queue does no harm: its job
   is run again, but no request is made for a delivery that is settled.
   */
  lemma {:induction false} FaultlessDelivery(trace: seq<Event>, d: RowId)
    requires d in Run(trace).deliveries && Tally(trace, d).unrecorded == 0 && Tally(trace, d).unseenOk == 0
    ensures var s, l := Run(trace), Tally(trace, d);
      var row := s.deliveries[d];
      && l.posted <= row.attempts + One(Flying(JobFor(s, d))) <= 5
      && l.accepted == One(row.status == Success)
  {
    DeliveryAccount(trace, d);
    assert Flying(JobFor(Run(trace), d)) ==> Run(trace).deliveries[d].attempts < MAX_ATTEMPTS by {
      RunHasInv(trace);
      FlyingHasRoom(Run(trace), d);
    }
  }

  /**
   A pending delivery that was enqueued still has its job, and the queue will not run that
   job again exactly when its attempts and its lost runs, without those the queue never heard
   of, have used the five tries.
   */
  lemma {:induction false} StrandedExactlyByLostRuns(trace: seq<Event>, d: RowId)
    requires d in Run(trace).deliveries && Run(trace).deliveries[d].status == Pending
    requires Tally(trace, d).enqueued == 1
    ensures var s, l := Run(trace), Tally(trace, d);
      && JobFor(s, d).Some?
      && (JobFor(s, d).value.attemptsMade == 5 <==>
            s.deliveries[d].attempts + l.lost == 5 + l.unheard)
      && (l.lost == 0 ==> JobFor(s, d).value.attemptsMade < 5)
  {
    RunBalanced(trace, d);
    DeliveryAccount(trace, d);
  }

  /** Lost runs do strand deliveries: from any pending delivery, failing to read its row until the tries are used. */
  lemma {:induction false} LostRunsStrand(trace: seq<Event>, j: RowId) returns (more: seq<Event>)
    requires Runnable(Run(trace), j) && Run(trace).jobs[j].delivery in Run(trace).deliveries
    ensures j in Run(trace + more).jobs && !Runnable(Run(trace + more), j) && !InFlight(Run(trace + more), j)
    ensures Run(trace + more).deliveries == Run(trace).deliveries
    decreases JOB_ATTEMPTS - Run(trace).jobs[j].attemptsMade
  {
    var event := DeliverStartEvent(j, None, true, false);
    var next := trace + [event];
    assert next[..|next| - 1] == trace;
    more := [event];
    if Runnable(Run(next), j) {
      var rest := LostRunsStrand(next, j);
      more := [event] + rest;
      assert next + rest == trace + more;
    }
  }

  /** A success that could not be committed leads to another request, unless it was the last attempt. */
  lemma {:induction false} UncommittedSuccessIsPostedAgain(trace: seq<Event>, j: RowId, message: string, dies: bool)
    requires InFlight(Run(trace), j) && Run(trace).jobs[j].flight.value.attempts + 1 < 5
    ensures var s, s' := Run(trace), Run(trace + [DeliverEndEvent(j, AcceptedUncommitted(message), dies)]);
      var d := s.jobs[j].delivery;
      && d in s'.deliveries && s'.deliveries[d].status == Pending
      && j in s'.jobs && (Runnable(s', j) <==> s.jobs[j].attemptsMade + One(!dies) < 5)
  {
    var event := DeliverEndEvent(j, AcceptedUncommitted(message), dies);
    assert (trace + [event])[..|trace|] == trace;
    RunHasInv(trace);
  }
}
