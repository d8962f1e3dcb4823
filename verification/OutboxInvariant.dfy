/** What every interleaving of digest, reminder, resend and delivery steps keeps true of the tables. */
module OutboxInvariant {
  import opened Text
  import opened Entities
  import opened Calendar
  import opened DedupeKeys
  import opened Outbox

  // The invariant, clause by clause

  ghost predicate SameDay(a: Digest, b: Digest) {
    a.team == b.team && a.day == b.day
  }

  /** At most one digest per team and day, one statistic per team and day, one delivery per key. */
  ghost predicate UniqueKeys(s: State) {
    && (forall a, b :: a in s.digests && b in s.digests && SameDay(s.digests[a], s.digests[b]) ==> a == b)
    && (forall a, b :: a in s.stats && b in s.stats && SameStatDay(s.stats[a], s.stats[b]) ==> a == b)
    && (forall a, b :: a in s.deliveries && b in s.deliveries && s.deliveries[a].key == s.deliveries[b].key ==> a == b)
  }

  ghost predicate SameStatDay(a: Stat, b: Stat) {
    a.team == b.team && a.day == b.day
  }

  ghost predicate Agree(g: Digest, t: Stat) {
    g.submitted == t.submitted && g.missing == t.missing && g.late == t.late && t.missing == t.members - t.submitted
  }

  ghost predicate OfOneDay(g: Digest, t: Stat) {
    g.team == t.team && g.day == t.day
  }

  datatype TeamDay = TeamDay(team: Id, day: Day)

  ghost function DigestDays(s: State): set<TeamDay> {
    set g | g in s.digests :: TeamDay(s.digests[g].team, s.digests[g].day)
  }

  ghost function StatDays(s: State): set<TeamDay> {
    set t | t in s.stats :: TeamDay(s.stats[t].team, s.stats[t].day)
  }

  /** Digests and statistics exist for the same teams and days, with the same counts. */
  ghost predicate DigestsMatchStats(s: State) {
    && DigestDays(s) == StatDays(s)
    && (forall g, t :: g in s.digests && t in s.stats && OfOneDay(s.digests[g], s.stats[t]) ==>
         Agree(s.digests[g], s.stats[t]))
  }

  /** Where a delivery row comes from: its references, its payload and its key fit together. */
  ghost predicate HasOrigin(s: State, row: Delivery) {
    match row.digest
    case Some(g) =>
      && g in s.digests && s.digests[g].team == row.team
      && (row.key == OfDigest(row.team, s.digests[g].day) || row.key.OfResend?)
    case None =>
      row.payload.Some? && row.key.OfReminder?
  }

  ghost predicate Origins(s: State) {
    && (forall d :: d in s.deliveries ==> HasOrigin(s, s.deliveries[d]))
    && (forall c :: c in s.calls && s.calls[c].Resending? ==>
          s.calls[c].digest in s.digests && s.digests[s.calls[c].digest].team == s.calls[c].team)
  }

  ghost predicate Delivered(s: State, g: RowId) {
    exists d :: d in s.deliveries && s.deliveries[d].digest == Some(g) && s.deliveries[d].status == Success
  }

  /** A digest is marked sent exactly when one of its deliveries has succeeded. */
  ghost predicate SentMeansDelivered(s: State) {
    forall g :: g in s.digests ==>
      (s.digests[g].status == if Delivered(s, g) then Sent else Generated)
  }

  /** The attempts of a delivery stay within the budget, and below it while it is pending. */
  ghost predicate Budget(s: State) {
    forall d :: d in s.deliveries ==>
      s.deliveries[d].attempts <= if s.deliveries[d].status == Pending then MAX_ATTEMPTS - 1 else MAX_ATTEMPTS
  }

  /** A job belongs to one delivery, alone; what a run has read is still what the row says. */
  ghost predicate Jobs(s: State) {
    && (forall j, k :: j in s.jobs && k in s.jobs && s.jobs[j].delivery == s.jobs[k].delivery ==> j == k)
    && (forall j :: j in s.jobs ==>
         s.jobs[j].delivery in s.deliveries && JobFits(s.jobs[j], s.deliveries[s.jobs[j].delivery]))
  }

  ghost predicate JobFits(job: Job, row: Delivery) {
    && job.attemptsMade <= JOB_ATTEMPTS
    && (job.flight.Some? ==> && row.status == Pending && job.attemptsMade < JOB_ATTEMPTS
                             && job.flight.value == Flight(row.attempts, row.digest))
  }

  ghost predicate Awaits(a: Call, b: Call) {
    a.Enqueueing? && a == b
  }

  /** A delivery still to be enqueued is untouched, has no job, and waits on one call only. */
  ghost predicate Handovers(s: State) {
    && (forall c, e :: c in s.calls && e in s.calls && Awaits(s.calls[c], s.calls[e]) ==> c == e)
    && (forall c :: c in s.calls && s.calls[c].Enqueueing? ==>
          && s.calls[c].delivery in s.deliveries
          && s.deliveries[s.calls[c].delivery].status == Pending
          && s.deliveries[s.calls[c].delivery].attempts == 0)
    && (forall c, j :: c in s.calls && s.calls[c].Enqueueing? && j in s.jobs ==>
         s.jobs[j].delivery != s.calls[c].delivery)
  }

  ghost predicate Inv(s: State) {
    && UniqueKeys(s) && DigestsMatchStats(s) && Origins(s) && SentMeansDelivered(s)
    && Budget(s) && Jobs(s) && Handovers(s)
  }

  // Steps that only move a call along

  ghost predicate SameTables(s: State, s': State) {
    s'.digests == s.digests && s'.deliveries == s.deliveries && s'.stats == s.stats && s'.jobs == s.jobs
  }

  /** Calls that go on enqueueing did so before, and resends still know their digest. */
  ghost predicate CallsMoveOn(s: State, s': State) {
    forall c :: c in s'.calls ==>
      && (s'.calls[c].Enqueueing? ==> c in s.calls && s.calls[c] == s'.calls[c])
      && (s'.calls[c].Resending? ==>
            || (c in s.calls && s.calls[c] == s'.calls[c])
            || (s'.calls[c].digest in s.digests && s.digests[s'.calls[c].digest].team == s'.calls[c].team))
  }

  lemma {:induction false} CallStepKeepsOrigins(s: State, s': State)
    requires Origins(s) && SameTables(s, s') && CallsMoveOn(s, s')
    ensures Origins(s')
  {
    forall d | d in s'.deliveries
      ensures HasOrigin(s', s'.deliveries[d])
    {
      assert HasOrigin(s, s.deliveries[d]);
    }
  }

  lemma {:induction false} CallStepKeepsInv(s: State, s': State)
    requires Inv(s) && SameTables(s, s') && CallsMoveOn(s, s')
    ensures Inv(s')
  {
    CallStepKeepsOrigins(s, s');
    assert SentMeansDelivered(s') by {
      assert forall g :: Delivered(s, g) == Delivered(s', g);
    }
    assert Handovers(s');
  }

  // The transaction of generate

  lemma {:induction false} StatTakenWithDigest(s: State, team: Id, day: Day)
    requires DigestsMatchStats(s)
    ensures DigestTaken(s, team, day) <==> TeamDay(team, day) in DigestDays(s)
    ensures StatTaken(s, team, day) <==> DigestTaken(s, team, day)
  {
  }

  /** Of the three unique keys the transaction could violate, only the digest's decides. */
  lemma {:induction false} OnlyTheDigestConflicts(s: State, team: Id, day: Day, webhook: bool)
    requires DigestsMatchStats(s) && Origins(s)
    ensures CommitConflicts(s, team, day, webhook) <==> DigestTaken(s, team, day)
  {
    StatTakenWithDigest(s, team, day);
    if KeyTaken(s, OfDigest(team, day)) {
      var d :| d in s.deliveries && s.deliveries[d].key == OfDigest(team, day);
      assert HasOrigin(s, s.deliveries[d]);
    }
  }

  /** A new row does not take a key that was free. */
  ghost predicate AddsDelivery(s: State, s': State, c: RowId, d: RowId) {
    && d !in s.deliveries && d in s'.deliveries && !KeyTaken(s, s'.deliveries[d].key)
    && s'.deliveries == s.deliveries[d := s'.deliveries[d]]
    && s'.deliveries[d].status == Pending && s'.deliveries[d].attempts == 0
    && HasOrigin(s', s'.deliveries[d])
    && s'.jobs == s.jobs && c in s.calls && s'.calls == s.calls[c := Enqueueing(d)]
  }

  lemma {:induction false} NewDeliveryKeepsHandovers(s: State, s': State, c: RowId, d: RowId)
    requires Handovers(s) && Jobs(s) && d in s'.deliveries && AddsDelivery(s, s', c, d)
    ensures Handovers(s') && Jobs(s')
  {
  }

  lemma {:induction false} NewDeliveryKeepsSent(s: State, s': State, c: RowId, d: RowId)
    requires SentMeansDelivered(s) && d in s'.deliveries && AddsDelivery(s, s', c, d)
    requires forall g :: g in s'.digests && g !in s.digests ==>
      s'.digests[g].status == Generated && forall e :: e in s.deliveries ==> s.deliveries[e].digest != Some(g)
    requires forall g :: g in s.digests ==> g in s'.digests && s'.digests[g] == s.digests[g]
    ensures SentMeansDelivered(s')
  {
    forall g | g in s'.digests
      ensures s'.digests[g].status == if Delivered(s', g) then Sent else Generated
    {
      assert Delivered(s', g) <==> g in s.digests && Delivered(s, g) by {
        if g in s.digests && Delivered(s, g) {
          var e :| e in s.deliveries && s.deliveries[e].digest == Some(g) && s.deliveries[e].status == Success;
          assert s'.deliveries[e] == s.deliveries[e];
        }
      }
    }
  }

  lemma {:induction false} NewDeliveryKeepsUnique(s: State, s': State, c: RowId, d: RowId)
    requires d in s'.deliveries && AddsDelivery(s, s', c, d)
    requires forall a, b :: a in s.deliveries && b in s.deliveries && s.deliveries[a].key == s.deliveries[b].key ==>
      a == b
    ensures forall a, b :: a in s'.deliveries && b in s'.deliveries && s'.deliveries[a].key == s'.deliveries[b].key ==>
      a == b
  {
  }

  // Inserting a delivery for a reminder or a resend

  lemma {:induction false} InsertedRows(s: State, s': State, c: RowId, d: RowId)
    requires UniqueKeys(s) && DigestsMatchStats(s) && Budget(s) && d in s'.deliveries && AddsDelivery(s, s', c, d)
    requires s'.digests == s.digests && s'.stats == s.stats
    ensures UniqueKeys(s') && DigestsMatchStats(s') && Budget(s')
  {
    NewDeliveryKeepsUnique(s, s', c, d);
    assert DigestDays(s') == DigestDays(s) && StatDays(s') == StatDays(s);
  }

  lemma {:induction false} InsertFits(s: State, c: RowId, d: RowId, row: Delivery)
    requires c in s.calls && d !in s.deliveries && !KeyTaken(s, row.key)
    requires row.status == Pending && row.attempts == 0 && HasOrigin(s, row)
    ensures var s' := InsertDelivery(s, c, d, row); AddsDelivery(s, s', c, d)
  {
  }

  /** Origins survive while digests keep their team and day and delivery rows their identity. */
  lemma {:induction false} OriginsKept(s: State, s': State)
    requires Origins(s)
    requires forall g :: g in s.digests ==> g in s'.digests && SameDay(s.digests[g], s'.digests[g])
    requires forall d :: d in s'.deliveries ==>
      (d in s.deliveries && SameIdentity(s.deliveries[d], s'.deliveries[d])) || HasOrigin(s', s'.deliveries[d])
    requires forall c :: c in s'.calls && s'.calls[c].Resending? ==> c in s.calls && s'.calls[c] == s.calls[c]
    ensures Origins(s')
  {
    forall d | d in s'.deliveries
      ensures HasOrigin(s', s'.deliveries[d])
    {
      if d in s.deliveries && SameIdentity(s.deliveries[d], s'.deliveries[d]) {
        assert HasOrigin(s, s.deliveries[d]);
      }
    }
  }

  /** What no update of a delivery touches. */
  ghost predicate SameIdentity(a: Delivery, b: Delivery) {
    a.digest == b.digest && a.team == b.team && a.payload == b.payload && a.key == b.key
  }

  // Committing a digest

  lemma {:induction false} CommitKeepsInv(s: State, c: RowId, g: RowId, d: RowId, t: RowId)
    requires Inv(s)
    ensures Inv(GenerateCommit(s, c, g, d, t))
  {
    if CommitEnabled(s, c, g, d, t) {
      var Generating(team, day, webhook, members, standups) := s.calls[c];
      OnlyTheDigestConflicts(s, team, day, webhook);
      if CommitConflicts(s, team, day, webhook) {
        CallStepKeepsInv(s, GenerateCommit(s, c, g, d, t));
      } else {
        CommittedDigest(s, c, g, d, t);
      }
    }
  }

  lemma {:induction false} CommitKeepsMatch(s: State, s': State, g: RowId, t: RowId, digest: Digest, stat: Stat)
    requires DigestsMatchStats(s) && g !in s.digests && t !in s.stats
    requires s'.digests == s.digests[g := digest] && s'.stats == s.stats[t := stat]
    requires OfOneDay(digest, stat) && Agree(digest, stat) && !DigestTaken(s, digest.team, digest.day)
    ensures DigestsMatchStats(s')
  {
    var new_ := TeamDay(digest.team, digest.day);
    StatTakenWithDigest(s, digest.team, digest.day);
    assert DigestDays(s') == DigestDays(s) + {new_} by {
      forall x | x in DigestDays(s)
        ensures x in DigestDays(s')
      {
        var a :| a in s.digests && x == TeamDay(s.digests[a].team, s.digests[a].day);
        assert s'.digests[a] == s.digests[a];
      }
      assert s'.digests[g] == digest;
    }
    assert StatDays(s') == StatDays(s) + {new_} by {
      forall x | x in StatDays(s)
        ensures x in StatDays(s')
      {
        var a :| a in s.stats && x == TeamDay(s.stats[a].team, s.stats[a].day);
        assert s'.stats[a] == s.stats[a];
      }
      assert s'.stats[t] == stat;
    }
  }

  lemma {:induction false} CommittedRows(s: State, c: RowId, g: RowId, d: RowId, t: RowId)
    requires UniqueKeys(s) && DigestsMatchStats(s) && CommitEnabled(s, c, g, d, t)
    requires !CommitConflicts(s, s.calls[c].team, s.calls[c].day, s.calls[c].webhook)
    ensures UniqueKeys(GenerateCommit(s, c, g, d, t)) && DigestsMatchStats(GenerateCommit(s, c, g, d, t))
  {
    var Generating(team, day, webhook, members, standups) := s.calls[c];
    CommitKeepsMatch(s, GenerateCommit(s, c, g, d, t), g, t, DigestRow(team, day, members.value, standups.value),
                     StatRow(team, day, members.value, standups.value));
  }

  lemma {:induction false} CommittedLinks(s: State, c: RowId, g: RowId, d: RowId, t: RowId)
    requires Origins(s) && Jobs(s) && Handovers(s) && CommitEnabled(s, c, g, d, t)
    requires !CommitConflicts(s, s.calls[c].team, s.calls[c].day, s.calls[c].webhook)
    ensures Origins(GenerateCommit(s, c, g, d, t))
    ensures Jobs(GenerateCommit(s, c, g, d, t)) && Handovers(GenerateCommit(s, c, g, d, t))
  {
    var s' := GenerateCommit(s, c, g, d, t);
    if s.calls[c].webhook {
      assert HasOrigin(s', s'.deliveries[d]);
      NewDeliveryKeepsHandovers(s, s', c, d);
    }
    OriginsKept(s, s');
  }

  lemma {:induction false} CommittedSent(s: State, c: RowId, g: RowId, d: RowId, t: RowId)
    requires Origins(s) && SentMeansDelivered(s) && CommitEnabled(s, c, g, d, t)
    requires !CommitConflicts(s, s.calls[c].team, s.calls[c].day, s.calls[c].webhook)
    ensures SentMeansDelivered(GenerateCommit(s, c, g, d, t))
  {
    var s' := GenerateCommit(s, c, g, d, t);
    NoDeliveryYet(s, g);
    if s.calls[c].webhook {
      assert HasOrigin(s', s'.deliveries[d]);
      NewDeliveryKeepsSent(s, s', c, d);
    } else {
      DigestAloneKeepsSent(s, s');
    }
  }

  lemma {:induction false} CommittedDigest(s: State, c: RowId, g: RowId, d: RowId, t: RowId)
    requires Inv(s) && CommitEnabled(s, c, g, d, t)
    requires !CommitConflicts(s, s.calls[c].team, s.calls[c].day, s.calls[c].webhook)
    ensures Inv(GenerateCommit(s, c, g, d, t))
  {
    CommittedRows(s, c, g, d, t);
    CommittedLinks(s, c, g, d, t);
    CommittedSent(s, c, g, d, t);
  }

  lemma {:induction false} NoDeliveryYet(s: State, g: RowId)
    requires Origins(s) && g !in s.digests
    ensures forall d :: d in s.deliveries ==> s.deliveries[d].digest != Some(g)
  {
    forall d | d in s.deliveries
      ensures s.deliveries[d].digest != Some(g)
    {
      assert HasOrigin(s, s.deliveries[d]);
    }
  }

  lemma {:induction false} DigestAloneKeepsSent(s: State, s': State)
    requires SentMeansDelivered(s) && s'.deliveries == s.deliveries
    requires forall g :: g in s'.digests && g !in s.digests ==>
      s'.digests[g].status == Generated && forall e :: e in s.deliveries ==> s.deliveries[e].digest != Some(g)
    requires forall g :: g in s.digests ==> g in s'.digests && s'.digests[g] == s.digests[g]
    ensures SentMeansDelivered(s')
  {
    assert forall g :: Delivered(s', g) == Delivered(s, g);
  }

  lemma {:induction false} EnqueueKeepsJobs(s: State, c: RowId, j: RowId)
    requires Jobs(s) && Handovers(s)
    ensures Jobs(Enqueue(s, c, j)) && Handovers(Enqueue(s, c, j))
  {
    var s' := Enqueue(s, c, j);
    if s' != s {
      assert forall e :: e in s'.calls ==> e in s.calls && s'.calls[e] == s.calls[e] && e != c;
      assert forall e :: e in s'.calls && s'.calls[e].Enqueueing? ==> s'.calls[e].delivery != s.calls[c].delivery by {
        assert forall e :: e in s.calls && e != c ==> !Awaits(s.calls[c], s.calls[e]);
      }
    }
  }

  lemma {:induction false} EnqueueKeepsLinks(s: State, c: RowId, j: RowId)
    requires Origins(s) && SentMeansDelivered(s)
    ensures Origins(Enqueue(s, c, j)) && SentMeansDelivered(Enqueue(s, c, j))
  {
    var s' := Enqueue(s, c, j);
    assert forall g :: Delivered(s', g) == Delivered(s, g);
    OriginsKept(s, s');
  }

  lemma {:induction false} EnqueueKeepsInv(s: State, c: RowId, j: RowId)
    requires Inv(s)
    ensures Inv(Enqueue(s, c, j))
  {
    EnqueueKeepsJobs(s, c, j);
    EnqueueKeepsLinks(s, c, j);
    var s' := Enqueue(s, c, j);
    assert DigestDays(s') == DigestDays(s) && StatDays(s') == StatDays(s);
  }

  // Runs of a job

  /** What a run does: it touches its job, its delivery row, and the status of that row's digest. */
  ghost predicate RunStep(s: State, s': State, j: RowId) {
    && j in s.jobs && s.jobs[j].delivery in s.deliveries
    && s'.stats == s.stats && s'.calls == s.calls
    && var d := s.jobs[j].delivery;
    && s'.deliveries.Keys == s.deliveries.Keys
    && s'.deliveries == s.deliveries[d := s'.deliveries[d]]
    && RowStep(s.deliveries[d], s'.deliveries[d])
    && (if j in s'.jobs
        then && s'.jobs == s.jobs[j := s'.jobs[j]] && s'.jobs[j].delivery == d
             && JobFits(s'.jobs[j], s'.deliveries[d])
        else s'.jobs == s.jobs - {j})
    && s'.digests == if s.deliveries[d].status != Success && s'.deliveries[d].status == Success
                     then MarkSent(s.digests, s.deliveries[d].digest) else s.digests
  }

  ghost predicate RowStep(a: Delivery, b: Delivery) {
    && SameIdentity(a, b)
    && (a.status != Pending ==> b == a)
    && (a.status == Pending && b != a ==>
          b.attempts == a.attempts + 1 && (b.status == Pending ==> b.attempts < MAX_ATTEMPTS))
  }

  lemma {:induction false} RunKeepsJobs(s: State, s': State, j: RowId)
    requires Jobs(s) && Handovers(s) && RunStep(s, s', j)
    ensures Jobs(s') && Handovers(s')
  {
    forall k | k in s'.jobs
      ensures s'.jobs[k].delivery in s'.deliveries && JobFits(s'.jobs[k], s'.deliveries[s'.jobs[k].delivery])
    {
      assert k != j ==> s'.jobs[k] == s.jobs[k] && s.jobs[k].delivery != s.jobs[j].delivery;
    }
  }

  lemma {:induction false} RunKeepsSent(s: State, s': State, j: RowId)
    requires SentMeansDelivered(s) && Origins(s) && RunStep(s, s', j)
    ensures SentMeansDelivered(s')
  {
    var d := s.jobs[j].delivery;
    assert HasOrigin(s, s.deliveries[d]);
    forall g | g in s'.digests
      ensures s'.digests[g].status == if Delivered(s', g) then Sent else Generated
    {
      if s.deliveries[d].digest == Some(g) && s'.deliveries[d].status == Success {
        assert Delivered(s', g);
        assert s.deliveries[d].status == Success ==> Delivered(s, g);
      } else {
        assert Delivered(s', g) <==> Delivered(s, g) by {
          assert forall e :: e in s.deliveries && e != d ==> s'.deliveries[e] == s.deliveries[e];
        }
      }
    }
  }

  lemma {:induction false} MarkSentKeepsRows(digests: map<RowId, Digest>, digest: Option<RowId>)
    ensures MarkSent(digests, digest).Keys == digests.Keys
    ensures forall g :: g in digests ==>
      MarkSent(digests, digest)[g] == digests[g].(status := MarkSent(digests, digest)[g].status)
  {
  }

  lemma {:induction false} RunKeepsRows(s: State, s': State, j: RowId)
    requires UniqueKeys(s) && DigestsMatchStats(s) && RunStep(s, s', j)
    ensures UniqueKeys(s') && DigestsMatchStats(s')
  {
    MarkSentKeepsRows(s.digests, s.deliveries[s.jobs[j].delivery].digest);
    assert forall g :: g in s.digests ==> s'.digests[g] == s.digests[g].(status := s'.digests[g].status);
    assert DigestDays(s') == DigestDays(s);
    assert StatDays(s') == StatDays(s);
  }

  lemma {:induction false} RunKeepsOrigins(s: State, s': State, j: RowId)
    requires Origins(s) && RunStep(s, s', j)
    ensures Origins(s')
  {
    MarkSentKeepsRows(s.digests, s.deliveries[s.jobs[j].delivery].digest);
    OriginsKept(s, s');
  }

  lemma {:induction false} RunKeepsInv(s: State, s': State, j: RowId)
    requires Inv(s) && RunStep(s, s', j)
    ensures Inv(s')
  {
    RunKeepsJobs(s, s', j);
    RunKeepsSent(s, s', j);
    RunKeepsRows(s, s', j);
    RunKeepsOrigins(s, s', j);
  }

  lemma {:induction false} IdleIsRunStep(s: State, j: RowId, ending: Ending)
    requires Runnable(s, j) && s.jobs[j].delivery in s.deliveries
    requires JobFits(s.jobs[j], s.deliveries[s.jobs[j].delivery])
    ensures RunStep(s, s.(jobs := EndRun(s.jobs, j, ending)), j)
  {
  }

  lemma {:induction false} MarkedIsRunStep(s: State, j: RowId, reason: Reason, dies: bool)
    requires Runnable(s, j) && s.jobs[j].delivery in s.deliveries && s.deliveries[s.jobs[j].delivery].status == Pending
    requires JobFits(s.jobs[j], s.deliveries[s.jobs[j].delivery]) && Budget(s)
    ensures var d := s.jobs[j].delivery;
      RunStep(s, s.(deliveries := s.deliveries[d := MarkFailed(s.deliveries[d], reason)],
                    jobs := EndRun(s.jobs, j, Heard(Returned, dies))), j)
  {
  }

  lemma {:induction false} PostedIsRunStep(s: State, j: RowId)
    requires Runnable(s, j) && s.jobs[j].delivery in s.deliveries && s.deliveries[s.jobs[j].delivery].status == Pending
    requires JobFits(s.jobs[j], s.deliveries[s.jobs[j].delivery]) && Budget(s)
    ensures var row := s.deliveries[s.jobs[j].delivery];
      RunStep(s, s.(jobs := s.jobs[j := s.jobs[j].(flight := Some(Flight(row.attempts, row.digest)))]), j)
  {
  }

  lemma {:induction false} StartIsRunStep(s: State, j: RowId, url: Option<string>, fails: bool, dies: bool)
    requires Jobs(s) && Budget(s) && Runnable(s, j)
    ensures RunStep(s, DeliverStart(s, j, url, fails, dies), j)
  {
    var row := s.deliveries[s.jobs[j].delivery];
    assert JobFits(s.jobs[j], row);
    if fails || row.status != Pending {
      IdleIsRunStep(s, j, Heard(if fails then Threw else Returned, dies));
    } else if Unpostable(s, row, url).Some? {
      MarkedIsRunStep(s, j, Unpostable(s, row, url).value, dies);
    } else {
      PostedIsRunStep(s, j);
    }
  }

  lemma {:induction false} AcceptedIsRunStep(s: State, j: RowId, dies: bool)
    requires Jobs(s) && Budget(s) && InFlight(s, j)
    ensures RunStep(s, DeliverEnd(s, j, Accepted, dies), j)
  {
    assert JobFits(s.jobs[j], s.deliveries[s.jobs[j].delivery]);
  }

  lemma {:induction false} FailedIsRunStep(s: State, j: RowId, message: string, dies: bool)
    requires Jobs(s) && Budget(s) && InFlight(s, j)
    ensures s.jobs[j].delivery in s.deliveries && RunStep(s, FailedRun(s, j, message, dies), j)
  {
    assert JobFits(s.jobs[j], s.deliveries[s.jobs[j].delivery]);
  }

  lemma {:induction false} UnrecordedIsRunStep(s: State, j: RowId, ok: bool, dies: bool)
    requires Jobs(s) && Budget(s) && InFlight(s, j)
    ensures RunStep(s, DeliverEnd(s, j, Unrecorded(ok), dies), j)
  {
    assert JobFits(s.jobs[j], s.deliveries[s.jobs[j].delivery]);
  }

  lemma {:induction false} EndIsRunStep(s: State, j: RowId, answer: Answer, dies: bool)
    requires Jobs(s) && Budget(s) && InFlight(s, j)
    ensures RunStep(s, DeliverEnd(s, j, answer, dies), j)
  {
    match answer
    case Accepted => AcceptedIsRunStep(s, j, dies);
    case Refused(message) => FailedIsRunStep(s, j, message, dies);
    case AcceptedUncommitted(message) => FailedIsRunStep(s, j, message, dies);
    case Unrecorded(ok) => UnrecordedIsRunStep(s, j, ok, dies);
  }

  lemma {:induction false} StartKeepsInv(s: State, j: RowId, url: Option<string>, fails: bool, dies: bool)
    requires Inv(s)
    ensures Inv(DeliverStart(s, j, url, fails, dies))
  {
    if Runnable(s, j) {
      StartIsRunStep(s, j, url, fails, dies);
      RunKeepsInv(s, DeliverStart(s, j, url, fails, dies), j);
    }
  }

  lemma {:induction false} EndKeepsInv(s: State, j: RowId, answer: Answer, dies: bool)
    requires Inv(s)
    ensures Inv(DeliverEnd(s, j, answer, dies))
  {
    if InFlight(s, j) {
      EndIsRunStep(s, j, answer, dies);
      RunKeepsInv(s, DeliverEnd(s, j, answer, dies), j);
    }
  }

  predicate MovesACall(e: Event) {
    || e.GenerateCheckEvent? || e.ReminderCheckEvent? || e.ReadMembersEvent? || e.ReadStandupsEvent?
    || e.ResendFindEvent? || e.CallDiesEvent?
  }

  lemma {:induction false} CallEventMovesOn(s: State, e: Event)
    requires MovesACall(e)
    ensures SameTables(s, Step(s, e)) && CallsMoveOn(s, Step(s, e))
  {
    match e
    case ResendFindEvent(call, team, config, date, digest) => ResendFindMovesOn(s, call, team, config, date, digest);
    case _ => ReadingMovesOn(s, e);
  }

  lemma {:induction false} ReadingMovesOn(s: State, e: Event)
    requires MovesACall(e) && !e.ResendFindEvent?
    ensures SameTables(s, Step(s, e)) && CallsMoveOn(s, Step(s, e))
  {
    assert Step(s, e) == s.(calls := Step(s, e).calls);
    assert forall c :: c in Step(s, e).calls && (c !in s.calls || Step(s, e).calls[c] != s.calls[c]) ==>
      Step(s, e).calls[c].Generating? || Step(s, e).calls[c].Reminding?;
  }

  lemma {:induction false} ResendFindMovesOn(s: State, c: RowId, team: Id, config: Option<Config>, date: string,
                                             g: RowId)
    ensures SameTables(s, ResendFind(s, c, team, config, date, g))
    ensures CallsMoveOn(s, ResendFind(s, c, team, config, date, g))
  {
  }
}

/** All steps together, and so all runs. */
module OutboxRuns {
  import opened Text
  import opened Entities
  import opened DedupeKeys
  import opened Attendance
  import opened Outbox
  import opened OutboxInvariant

  lemma {:induction false} AddedDeliveryKeepsOrigins(s: State, s': State, c: RowId, d: RowId)
    requires Origins(s) && d in s'.deliveries && AddsDelivery(s, s', c, d) && s'.digests == s.digests
    ensures Origins(s')
  {
    OriginsKept(s, s');
  }

  lemma {:induction false} AddedDeliveryKeepsInv(s: State, s': State, c: RowId, d: RowId)
    requires Inv(s) && d in s'.deliveries && AddsDelivery(s, s', c, d)
    requires s'.digests == s.digests && s'.stats == s.stats
    ensures Inv(s')
  {
    InsertedRows(s, s', c, d);
    NewDeliveryKeepsHandovers(s, s', c, d);
    NewDeliveryKeepsSent(s, s', c, d);
    AddedDeliveryKeepsOrigins(s, s', c, d);
  }

  lemma {:induction false} InsertDeliveryKeepsInv(s: State, c: RowId, d: RowId, row: Delivery)
    requires Inv(s) && c in s.calls && !s.calls[c].Enqueueing? && d !in s.deliveries
    requires row.status == Pending && row.attempts == 0 && HasOrigin(s, row)
    ensures Inv(InsertDelivery(s, c, d, row))
  {
    if KeyTaken(s, row.key) {
      CallStepKeepsInv(s, InsertDelivery(s, c, d, row));
    } else {
      InsertFits(s, c, d, row);
      AddedDeliveryKeepsInv(s, InsertDelivery(s, c, d, row), c, d);
    }
  }

  lemma {:induction false} ReminderInsertKeepsInv(s: State, c: RowId, d: RowId)
    requires Inv(s)
    ensures Inv(ReminderInsert(s, c, d))
  {
    if HasRead(s, c) && s.calls[c].Reminding? && d !in s.deliveries {
      var Reminding(team, day, kind, members, standups) := s.calls[c];
      var pending := Missing(members.value, standups.value);
      if pending == [] {
        CallStepKeepsInv(s, ReminderInsert(s, c, d));
      } else {
        InsertDeliveryKeepsInv(s, c, d, NewDelivery(None, team, Some(pending), OfReminder(team, day, kind)));
      }
    }
  }

  lemma {:induction false} ResendInsertKeepsInv(s: State, c: RowId, d: RowId, uuid: Id)
    requires Inv(s)
    ensures Inv(ResendInsert(s, c, d, uuid))
  {
    if c in s.calls && s.calls[c].Resending? && d !in s.deliveries {
      var Resending(team, date, digest) := s.calls[c];
      InsertDeliveryKeepsInv(s, c, d, NewDelivery(Some(digest), team, None, OfResend(team, date, uuid)));
    }
  }

  lemma {:induction false} CallEventKeepsInv(s: State, e: Event)
    requires Inv(s) && MovesACall(e)
    ensures Inv(Step(s, e))
  {
    CallEventMovesOn(s, e);
    CallStepKeepsInv(s, Step(s, e));
  }

  predicate Inserts(e: Event) {
    e.GenerateCommitEvent? || e.ReminderInsertEvent? || e.ResendInsertEvent?
  }

  lemma {:induction false} InsertEventKeepsInv(s: State, e: Event)
    requires Inv(s) && Inserts(e)
    ensures Inv(Step(s, e))
  {
    if e.GenerateCommitEvent? {
      CommitKeepsInv(s, e.call, e.digest, e.delivery, e.stat);
      assert Step(s, e) == GenerateCommit(s, e.call, e.digest, e.delivery, e.stat);
    } else if e.ReminderInsertEvent? {
      ReminderInsertKeepsInv(s, e.call, e.delivery);
      assert Step(s, e) == ReminderInsert(s, e.call, e.delivery);
    } else {
      ResendInsertKeepsInv(s, e.call, e.delivery, e.uuid);
      assert Step(s, e) == ResendInsert(s, e.call, e.delivery, e.uuid);
    }
  }

  lemma {:induction false} JobEventKeepsInv(s: State, e: Event)
    requires Inv(s) && !Inserts(e) && !MovesACall(e)
    ensures Inv(Step(s, e))
  {
    match e
    case EnqueueEvent(c, j) => EnqueueKeepsInv(s, c, j);
    case DeliverStartEvent(j, url, fails, dies) => StartKeepsInv(s, j, url, fails, dies);
    case DeliverEndEvent(j, answer, dies) => EndKeepsInv(s, j, answer, dies);
  }

  lemma {:induction false} StepKeepsInv(s: State, e: Event)
    requires Inv(s)
    ensures Inv(Step(s, e))
  {
    if Inserts(e) {
      InsertEventKeepsInv(s, e);
    } else if MovesACall(e) {
      CallEventKeepsInv(s, e);
    } else {
      JobEventKeepsInv(s, e);
    }
  }

  lemma {:induction false} EmptyHasInv()
    ensures Inv(EMPTY)
  {
    assert DigestDays(EMPTY) == {} && StatDays(EMPTY) == {};
  }

  /** The invariant holds after every run, whatever the order of its steps. */
  lemma {:induction false} RunHasInv(trace: seq<Event>)
    ensures Inv(Run(trace))
  {
    if trace == [] {
      EmptyHasInv();
    } else {
      RunHasInv(trace[..|trace| - 1]);
      StepKeepsInv(Run(trace[..|trace| - 1]), trace[|trace| - 1]);
    }
  }
}
