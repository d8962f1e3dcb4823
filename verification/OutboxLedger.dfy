/**
 What the tables say about a delivery, measured against what really happened to it: the
 requests made, how they were answered, and the runs whose outcome could not be written.
 */
module OutboxLedger {
  import opened Text
  import opened Entities
  import opened DedupeKeys
  import opened Attendance
  import opened Outbox
  import opened OutboxInvariant

  /** How often each thing has happened to one delivery during a run. */
  datatype Ledger = Ledger(
    enqueued: nat,     // handed to the queue
    started: nat,      // runs of its job begun
    marked: nat,       // found unpostable
    posted: nat,       // requests made
    accepted: nat,     // requests answered ok
    recorded: nat,     // requests whose outcome was written to the row
    unrecorded: nat,   // requests whose outcome was not
    unseenOk: nat,     // requests answered ok whose success was not written
    lost: nat,         // runs that threw without writing to the row
    killed: nat,       // runs whose worker died
    unheard: nat)      // of those, runs that had written to the row

  const ZERO := Ledger(0, 0, 0, 0, 0, 0, 0, 0, 0, 0, 0)

  function Add(a: Ledger, b: Ledger): Ledger {
    Ledger(a.enqueued + b.enqueued, a.started + b.started, a.marked + b.marked, a.posted + b.posted,
           a.accepted + b.accepted, a.recorded + b.recorded, a.unrecorded + b.unrecorded,
           a.unseenOk + b.unseenOk, a.lost + b.lost, a.killed + b.killed, a.unheard + b.unheard)
  }

  predicate AnsweredOk(a: Answer) {
    a.Accepted? || a.AcceptedUncommitted? || (a.Unrecorded? && a.ok)
  }

  /** What one step does to delivery `d`. */
  function Entry(s: State, e: Event, d: RowId): Ledger {
    match e
    case EnqueueEvent(call, job) =>
      ZERO.(enqueued := One(call in s.calls && s.calls[call] == Enqueueing(d) && job !in s.jobs))
    case DeliverStartEvent(job, url, fails, dies) =>
      if !(Runnable(s, job) && s.jobs[job].delivery == d) then ZERO
      else if fails then ZERO.(started := 1, lost := One(!dies), killed := One(dies))
      else if d !in s.deliveries || s.deliveries[d].status != Pending then ZERO.(started := 1, killed := One(dies))
      else if Unpostable(s, s.deliveries[d], url).Some? then
        ZERO.(started := 1, marked := 1, killed := One(dies), unheard := One(dies))
      else ZERO.(started := 1, posted := 1)
    case DeliverEndEvent(job, answer, dies) =>
      if !(InFlight(s, job) && s.jobs[job].delivery == d && d in s.deliveries) then ZERO
      else
        ZERO.(accepted := One(AnsweredOk(answer)),
              recorded := One(!answer.Unrecorded?),
              unrecorded := One(answer.Unrecorded?),
              unseenOk := One(AnsweredOk(answer) && !answer.Accepted?),
              lost := One(answer.Unrecorded? && !dies),
              killed := One(dies),
              unheard := One(dies && !answer.Unrecorded?))
    case _ => ZERO
  }

  /** The account of delivery `d` over a whole run. */
  function Tally(trace: seq<Event>, d: RowId): Ledger {
    if trace == [] then ZERO
    else Add(Tally(trace[..|trace| - 1], d), Entry(Run(trace[..|trace| - 1]), trace[|trace| - 1], d))
  }

  ghost predicate JobOf(s: State, j: RowId, d: RowId) {
    j in s.jobs && s.jobs[j].delivery == d
  }

  /** The job of a delivery, if the queue holds one. */
  ghost function JobFor(s: State, d: RowId): Option<Job> {
    if exists j :: JobOf(s, j, d) then
      var j :| JobOf(s, j, d);
      Some(s.jobs[j])
    else None
  }

  ghost predicate Waiting(s: State, d: RowId) {
    exists c :: c in s.calls && s.calls[c] == Enqueueing(d)
  }

  predicate Flying(job: Option<Job>) {
    job.Some? && job.value.flight.Some?
  }

  /** Row, job and account of a delivery agree. */
  predicate Fits(row: Delivery, job: Option<Job>, waiting: bool, l: Ledger) {
    && l.recorded + l.marked == row.attempts
    && l.marked <= One(row.status == Failed)
    && l.posted == l.recorded + l.unrecorded + One(Flying(job))
    && l.accepted == One(row.status == Success) + l.unseenOk
    && l.enqueued <= 1
    && (l.enqueued == 0 ==> l == ZERO && job.None?)
    && (waiting ==> l.enqueued == 0)
    && (match job
        case Some(j) =>
          && l.started == j.attemptsMade + l.killed + One(Flying(job))
          && (row.status == Pending ==> row.attempts + l.lost == j.attemptsMade + l.unheard)
          && (row.status != Pending ==> l.unheard > 0)
        case None =>
          && (l.enqueued == 1 ==> row.status != Pending)
          && l.started <= JOB_ATTEMPTS + l.killed)
  }

  ghost predicate Balanced(s: State, d: RowId, l: Ledger) {
    if d in s.deliveries then Fits(s.deliveries[d], JobFor(s, d), Waiting(s, d), l) else l == ZERO
  }

  lemma {:induction false} AddZero(l: Ledger)
    ensures Add(l, ZERO) == l && Add(ZERO, l) == l
  {
  }

  predicate Concerns(s: State, e: Event, d: RowId) {
    match e
    case EnqueueEvent(call, job) => call in s.calls && s.calls[call] == Enqueueing(d) && job !in s.jobs
    case DeliverStartEvent(job, _, _, _) => Runnable(s, job) && s.jobs[job].delivery == d
    case DeliverEndEvent(job, _, _) => InFlight(s, job) && s.jobs[job].delivery == d
    case _ => false
  }

  lemma {:induction false} NotConcerned(s: State, e: Event, d: RowId)
    requires !Concerns(s, e, d)
    ensures Entry(s, e, d) == ZERO
  {
  }

  // The job of a delivery, before and after a step

  lemma {:induction false} JobForIs(s: State, j: RowId, d: RowId)
    requires Jobs(s) && JobOf(s, j, d)
    ensures JobFor(s, d) == Some(s.jobs[j])
  {
  }

  lemma {:induction false} NoJobFor(s: State, d: RowId)
    requires forall j :: j in s.jobs ==> s.jobs[j].delivery != d
    ensures JobFor(s, d) == None
  {
  }

  lemma {:induction false} SameJob(s: State, s': State, d: RowId)
    requires Jobs(s)
    requires forall j :: JobOf(s, j, d) ==> JobOf(s', j, d) && s'.jobs[j] == s.jobs[j]
    requires forall j :: JobOf(s', j, d) ==> JobOf(s, j, d)
    ensures JobFor(s', d) == JobFor(s, d)
  {
  }

  // Calls

  lemma {:induction false} CallStepBalanced(s: State, s': State, d: RowId, l: Ledger)
    requires Jobs(s) && Balanced(s, d, l) && SameTables(s, s') && CallsMoveOn(s, s')
    ensures Balanced(s', d, l)
  {
    SameJob(s, s', d);
    assert Waiting(s', d) ==> Waiting(s, d);
  }

  /** A call inserted a delivery `n`, and awaits it. */
  lemma {:induction false} InsertedBalanced(s: State, s': State, c: RowId, n: RowId, d: RowId, l: Ledger)
    requires Jobs(s) && Balanced(s, d, l) && n !in s.deliveries && n in s'.deliveries
    requires s'.deliveries == s.deliveries[n := s'.deliveries[n]] && s'.jobs == s.jobs
    requires s'.calls == s.calls[c := Enqueueing(n)]
    requires s'.deliveries[n].status == Pending && s'.deliveries[n].attempts == 0
    ensures Balanced(s', d, l)
  {
    SameJob(s, s', d);
    if d == n {
      NoJobFor(s, d);
    } else {
      assert Waiting(s', d) ==> Waiting(s, d);
    }
  }

  lemma {:induction false} CommitBalanced(s: State, c: RowId, g: RowId, n: RowId, t: RowId, d: RowId, l: Ledger)
    requires Jobs(s) && Balanced(s, d, l)
    ensures Balanced(GenerateCommit(s, c, g, n, t), d, l)
  {
    var s' := GenerateCommit(s, c, g, n, t);
    if s'.deliveries != s.deliveries {
      InsertedBalanced(s, s', c, n, d, l);
    } else {
      SameJob(s, s', d);
      assert Waiting(s', d) ==> Waiting(s, d);
    }
  }

  lemma {:induction false} InsertBalanced(s: State, c: RowId, n: RowId, row: Delivery, d: RowId, l: Ledger)
    requires Jobs(s) && Balanced(s, d, l) && n !in s.deliveries
    requires row.status == Pending && row.attempts == 0
    ensures Balanced(InsertDelivery(s, c, n, row), d, l)
  {
    var s' := InsertDelivery(s, c, n, row);
    if KeyTaken(s, row.key) {
      CallStepBalanced(s, s', d, l);
    } else {
      InsertedBalanced(s, s', c, n, d, l);
    }
  }

  /** The call that hands a delivery over is the only one waiting on it. */
  lemma {:induction false} HandedOver(s: State, c: RowId, n: RowId, d: RowId)
    requires Jobs(s) && Handovers(s) && c in s.calls && s.calls[c] == Enqueueing(d) && n !in s.jobs
    ensures Waiting(s, d) && !Waiting(Enqueue(s, c, n), d)
    ensures JobFor(Enqueue(s, c, n), d) == Some(Job(d, 0, None))
    ensures d in s.deliveries && s.deliveries[d].status == Pending && s.deliveries[d].attempts == 0
  {
    assert forall e :: e in s.calls && e != c ==> !Awaits(s.calls[c], s.calls[e]);
    EnqueueKeepsJobs(s, c, n);
    JobForIs(Enqueue(s, c, n), n, d);
  }

  lemma {:induction false} EnqueueElsewhere(s: State, c: RowId, n: RowId, d: RowId, l: Ledger)
    requires Jobs(s) && Balanced(s, d, l) && !Concerns(s, EnqueueEvent(c, n), d)
    ensures Balanced(Enqueue(s, c, n), d, l)
  {
    var s' := Enqueue(s, c, n);
    if s' != s {
      SameJob(s, s', d);
      assert Waiting(s', d) ==> Waiting(s, d);
    }
  }

  lemma {:induction false} HandedOverBalanced(s: State, s': State, d: RowId, l: Ledger)
    requires Balanced(s, d, l) && Waiting(s, d) && !Waiting(s', d)
    requires d in s.deliveries && s.deliveries[d].status == Pending && s.deliveries[d].attempts == 0
    requires s'.deliveries == s.deliveries && JobFor(s', d) == Some(Job(d, 0, None))
    ensures l == ZERO && Balanced(s', d, ZERO.(enqueued := 1))
  {
  }

  // Runs of the delivery's own job, and of others

  lemma {:induction false} OtherRunBalanced(s: State, s': State, j: RowId, d: RowId, l: Ledger)
    requires Jobs(s) && Balanced(s, d, l) && RunStep(s, s', j) && s.jobs[j].delivery != d
    ensures Balanced(s', d, l)
  {
    assert forall k :: k != j ==> (k in s.jobs <==> k in s'.jobs);
    SameJob(s, s', d);
  }

  /** After a run of the delivery's job: the job is still its only one, or it has none. */
  lemma {:induction false} OwnRun(s: State, s': State, j: RowId)
    requires Jobs(s) && RunStep(s, s', j)
    ensures var d := s.jobs[j].delivery;
      && JobFor(s, d) == Some(s.jobs[j])
      && JobFor(s', d) == (if j in s'.jobs then Some(s'.jobs[j]) else None)
      && Waiting(s', d) == Waiting(s, d)
  {
    var d := s.jobs[j].delivery;
    JobForIs(s, j, d);
    assert forall k :: k != j && k in s'.jobs ==> s'.jobs[k] == s.jobs[k] && s.jobs[k].delivery != d;
    if j in s'.jobs {
      assert JobOf(s', j, d);
    }
  }

  lemma {:induction false} OwnLost(s: State, j: RowId, url: Option<string>, dies: bool, l: Ledger)
    requires Jobs(s) && Budget(s) && Runnable(s, j) && Balanced(s, s.jobs[j].delivery, l)
    ensures var d := s.jobs[j].delivery;
      Balanced(DeliverStart(s, j, url, true, dies), d, Add(l, Entry(s, DeliverStartEvent(j, url, true, dies), d)))
  {
    StartIsRunStep(s, j, url, true, dies);
    OwnRun(s, DeliverStart(s, j, url, true, dies), j);
  }

  lemma {:induction false} OwnSettled(s: State, j: RowId, url: Option<string>, dies: bool, l: Ledger)
    requires Jobs(s) && Budget(s) && Runnable(s, j) && Balanced(s, s.jobs[j].delivery, l)
    requires s.deliveries[s.jobs[j].delivery].status != Pending
    ensures var d := s.jobs[j].delivery;
      Balanced(DeliverStart(s, j, url, false, dies), d, Add(l, Entry(s, DeliverStartEvent(j, url, false, dies), d)))
  {
    StartIsRunStep(s, j, url, false, dies);
    OwnRun(s, DeliverStart(s, j, url, false, dies), j);
  }

  lemma {:induction false} OwnOpen(s: State, j: RowId, url: Option<string>, dies: bool, l: Ledger)
    requires Jobs(s) && Budget(s) && Runnable(s, j) && Balanced(s, s.jobs[j].delivery, l)
    requires s.deliveries[s.jobs[j].delivery].status == Pending
    ensures var d := s.jobs[j].delivery;
      Balanced(DeliverStart(s, j, url, false, dies), d, Add(l, Entry(s, DeliverStartEvent(j, url, false, dies), d)))
  {
    StartIsRunStep(s, j, url, false, dies);
    OwnRun(s, DeliverStart(s, j, url, false, dies), j);
  }

  lemma {:induction false} OwnStart(s: State, j: RowId, url: Option<string>, fails: bool, dies: bool, l: Ledger)
    requires Jobs(s) && Budget(s) && Runnable(s, j) && Balanced(s, s.jobs[j].delivery, l)
    ensures var d := s.jobs[j].delivery;
      Balanced(DeliverStart(s, j, url, fails, dies), d, Add(l, Entry(s, DeliverStartEvent(j, url, fails, dies), d)))
  {
    if fails {
      OwnLost(s, j, url, dies, l);
    } else if s.deliveries[s.jobs[j].delivery].status == Pending {
      OwnOpen(s, j, url, dies, l);
    } else {
      OwnSettled(s, j, url, dies, l);
    }
  }

  lemma {:induction false} OwnEnd(s: State, j: RowId, answer: Answer, dies: bool, l: Ledger)
    requires Jobs(s) && Budget(s) && InFlight(s, j) && Balanced(s, s.jobs[j].delivery, l)
    ensures var d := s.jobs[j].delivery;
      Balanced(DeliverEnd(s, j, answer, dies), d, Add(l, Entry(s, DeliverEndEvent(j, answer, dies), d)))
  {
    EndIsRunStep(s, j, answer, dies);
    OwnRun(s, DeliverEnd(s, j, answer, dies), j);
  }

  lemma {:induction false} StartElsewhere(s: State, j: RowId, url: Option<string>, fails: bool, dies: bool,
                                          d: RowId, l: Ledger)
    requires Jobs(s) && Budget(s) && Balanced(s, d, l) && !Concerns(s, DeliverStartEvent(j, url, fails, dies), d)
    ensures Balanced(DeliverStart(s, j, url, fails, dies), d, l)
  {
    if Runnable(s, j) {
      StartIsRunStep(s, j, url, fails, dies);
      OtherRunBalanced(s, DeliverStart(s, j, url, fails, dies), j, d, l);
    }
  }

  lemma {:induction false} EndElsewhere(s: State, j: RowId, answer: Answer, dies: bool, d: RowId, l: Ledger)
    requires Jobs(s) && Budget(s) && Balanced(s, d, l) && !Concerns(s, DeliverEndEvent(j, answer, dies), d)
    ensures Balanced(DeliverEnd(s, j, answer, dies), d, l)
  {
    if InFlight(s, j) {
      EndIsRunStep(s, j, answer, dies);
      OtherRunBalanced(s, DeliverEnd(s, j, answer, dies), j, d, l);
    }
  }

  lemma {:induction false} ReminderBalanced(s: State, c: RowId, n: RowId, d: RowId, l: Ledger)
    requires Jobs(s) && Balanced(s, d, l)
    ensures Balanced(ReminderInsert(s, c, n), d, l)
  {
    if HasRead(s, c) && s.calls[c].Reminding? && n !in s.deliveries {
      var Reminding(team, day, kind, members, standups) := s.calls[c];
      var pending := Missing(members.value, standups.value);
      if pending == [] {
        CallStepBalanced(s, ReminderInsert(s, c, n), d, l);
      } else {
        InsertBalanced(s, c, n, NewDelivery(None, team, Some(pending), OfReminder(team, day, kind)), d, l);
      }
    }
  }

  lemma {:induction false} ResendBalanced(s: State, c: RowId, n: RowId, uuid: Id, d: RowId, l: Ledger)
    requires Jobs(s) && Balanced(s, d, l)
    ensures Balanced(ResendInsert(s, c, n, uuid), d, l)
  {
    if c in s.calls && s.calls[c].Resending? && n !in s.deliveries {
      var Resending(team, date, digest) := s.calls[c];
      InsertBalanced(s, c, n, NewDelivery(Some(digest), team, None, OfResend(team, date, uuid)), d, l);
    }
  }
}
