/**
 Digests, reminders and their webhook deliveries as interleaved steps over the tables
 (digest.service.ts, reminders.service.ts, webhooks.service.ts). A service call is split
 wherever it awaits: other calls and deliveries run between its check, its reads, its
 write and its enqueue. A transaction is one step; unique keys are enforced when it commits.
 */
module Outbox {
  import opened Text
  import opened Calendar
  import opened Entities
  import opened ReminderTime
  import opened DedupeKeys
  import opened Attendance

  const MAX_ATTEMPTS := 5  // of the service, per delivery
  const JOB_ATTEMPTS := 5  // of the queue, per job

  // Tables

  datatype DigestStatus = Generated | Sent | DigestFailed

  datatype Digest = Digest(team: Id, day: Day, submitted: nat, missing: int, late: nat,
                           posted: seq<Standup>, missingUsers: seq<UserId>, status: DigestStatus)

  datatype Stat = Stat(team: Id, day: Day, members: nat, submitted: nat, missing: int, late: nat, participation: real)

  datatype DeliveryStatus = Pending | Success | Failed

  datatype Delivery = Delivery(digest: Option<RowId>, team: Id, payload: Option<seq<UserId>>, key: Key,
                               status: DeliveryStatus, attempts: nat, lastError: Option<Reason>)

  /** Why a delivery failed: it could not be posted, or its request threw. */
  datatype Reason = NoUrl | NoPayload | Thrown(message: string)

  // Queue: a job is run until it completes or has failed JOB_ATTEMPTS times.

  /** What a run has read from its delivery row before it posts. */
  datatype Flight = Flight(attempts: nat, digest: Option<RowId>)

  datatype Job = Job(delivery: RowId, attemptsMade: nat, flight: Option<Flight>)

  // Calls in progress

  datatype Call =
    | Generating(team: Id, day: Day, webhook: bool, members: Option<seq<UserId>>, standups: Option<seq<Standup>>)
    | Reminding(team: Id, day: Day, kind: ReminderKind, members: Option<seq<UserId>>, standups: Option<seq<Standup>>)
    | Resending(team: Id, date: YmdText, digest: RowId)
    | Enqueueing(delivery: RowId)

  datatype State = State(
    digests: map<RowId, Digest>,
    deliveries: map<RowId, Delivery>,
    stats: map<RowId, Stat>,
    jobs: map<RowId, Job>,
    calls: map<RowId, Call>)

  const EMPTY := State(map[], map[], map[], map[], map[])

  // Unique keys

  predicate DigestTaken(s: State, team: Id, day: Day) {
    exists g :: g in s.digests && s.digests[g].team == team && s.digests[g].day == day
  }

  predicate KeyTaken(s: State, key: Key) {
    exists d :: d in s.deliveries && s.deliveries[d].key == key
  }

  /** The database compares the texts of keys, which comes to comparing the keys. */
  lemma {:induction false} TakenKeyByText(s: State, key: Key)
    ensures KeyTaken(s, key) <==> exists d :: d in s.deliveries && KeyText(s.deliveries[d].key) == KeyText(key)
  {
    if d :| d in s.deliveries && KeyText(s.deliveries[d].key) == KeyText(key) {
      KeyTextInjective(s.deliveries[d].key, key);
    }
  }

  predicate StatTaken(s: State, team: Id, day: Day) {
    exists t :: t in s.stats && s.stats[t].team == team && s.stats[t].day == day
  }

  // Gates: why a call stops before it writes anything

  /** A configured address: present and not empty. */
  predicate Truthy(url: Option<string>) {
    url.Some? && url.value != ""
  }

  datatype Skip = TeamNotFound | TeamInactive | NotWorkingDay | NoWebhook | AlreadyDone

  function GenerateGate(config: Option<Config>, weekday: nat, taken: bool): Option<Skip> {
    if config.None? then Some(TeamNotFound)
    else if !config.value.isActive then Some(TeamInactive)
    else if weekday !in config.value.workingDays then Some(NotWorkingDay)
    else if taken then Some(AlreadyDone)
    else None
  }

  function ReminderGate(config: Option<Config>, weekday: nat, taken: bool): Option<Skip> {
    if config.None? then Some(TeamNotFound)
    else if !config.value.isActive then Some(TeamInactive)
    else if !Truthy(config.value.webhookUrl) then Some(NoWebhook)
    else if weekday !in config.value.workingDays then Some(NotWorkingDay)
    else if taken then Some(AlreadyDone)
    else None
  }

  // Steps of the calls. A step that is not enabled changes nothing.

  function GenerateCheck(s: State, call: RowId, team: Id, config: Option<Config>, weekday: nat, day: Day): State {
    if call in s.calls || GenerateGate(config, weekday, DigestTaken(s, team, day)).Some? then s
    else s.(calls := s.calls[call := Generating(team, day, Truthy(config.value.webhookUrl), None, None)])
  }

  function ReminderCheck(s: State, call: RowId, team: Id, kind: ReminderKind, config: Option<Config>,
                         weekday: nat, day: Day): State
  {
    if call in s.calls || ReminderGate(config, weekday, KeyTaken(s, OfReminder(team, day, kind))).Some? then s
    else s.(calls := s.calls[call := Reminding(team, day, kind, None, None)])
  }

  predicate Reading(s: State, call: RowId) {
    call in s.calls && (s.calls[call].Generating? || s.calls[call].Reminding?)
  }

  function ReadMembers(s: State, call: RowId, members: seq<UserId>): State {
    if Reading(s, call) && s.calls[call].members.None?
    then s.(calls := s.calls[call := s.calls[call].(members := Some(members))])
    else s
  }

  function ReadStandups(s: State, call: RowId, standups: seq<Standup>): State {
    if Reading(s, call) && s.calls[call].standups.None?
    then s.(calls := s.calls[call := s.calls[call].(standups := Some(standups))])
    else s
  }

  predicate HasRead(s: State, call: RowId) {
    Reading(s, call) && s.calls[call].members.Some? && s.calls[call].standups.Some?
  }

  function DigestRow(team: Id, day: Day, members: seq<UserId>, standups: seq<Standup>): Digest {
    Digest(team, day, |standups|, MissingCount(members, standups), LateCount(standups), standups,
           Missing(members, standups), Generated)
  }

  function StatRow(team: Id, day: Day, members: seq<UserId>, standups: seq<Standup>): Stat {
    Stat(team, day, |members|, |standups|, MissingCount(members, standups), LateCount(standups),
         Participation(members, standups))
  }

  function NewDelivery(digest: Option<RowId>, team: Id, payload: Option<seq<UserId>>, key: Key): Delivery {
    Delivery(digest, team, payload, key, Pending, 0, None)
  }

  predicate CommitEnabled(s: State, call: RowId, digest: RowId, delivery: RowId, stat: RowId) {
    && HasRead(s, call) && s.calls[call].Generating?
    && digest !in s.digests && delivery !in s.deliveries && stat !in s.stats
  }

  predicate CommitConflicts(s: State, team: Id, day: Day, webhook: bool) {
    DigestTaken(s, team, day) || (webhook && KeyTaken(s, OfDigest(team, day))) || StatTaken(s, team, day)
  }

  /** The three-table transaction: all of its rows or, on a unique violation, none. */
  function GenerateCommit(s: State, call: RowId, digest: RowId, delivery: RowId, stat: RowId): State {
    if !CommitEnabled(s, call, digest, delivery, stat) then s
    else
      var Generating(team, day, webhook, members, standups) := s.calls[call];
      if CommitConflicts(s, team, day, webhook) then s.(calls := s.calls - {call})
      else
        State(s.digests[digest := DigestRow(team, day, members.value, standups.value)],
              if webhook
              then s.deliveries[delivery := NewDelivery(Some(digest), team, None, OfDigest(team, day))]
              else s.deliveries,
              s.stats[stat := StatRow(team, day, members.value, standups.value)],
              s.jobs,
              if webhook then s.calls[call := Enqueueing(delivery)] else s.calls - {call})
  }

  /** Inserts a delivery for a call, which then has it to enqueue; gives up if the key is taken. */
  function InsertDelivery(s: State, call: RowId, delivery: RowId, row: Delivery): State {
    if KeyTaken(s, row.key) then s.(calls := s.calls - {call})
    else s.(deliveries := s.deliveries[delivery := row], calls := s.calls[call := Enqueueing(delivery)])
  }

  function ReminderInsert(s: State, call: RowId, delivery: RowId): State {
    if !(HasRead(s, call) && s.calls[call].Reminding? && delivery !in s.deliveries) then s
    else
      var Reminding(team, day, kind, members, standups) := s.calls[call];
      var pending := Missing(members.value, standups.value);
      if pending == [] then s.(calls := s.calls - {call})
      else InsertDelivery(s, call, delivery, NewDelivery(None, team, Some(pending), OfReminder(team, day, kind)))
  }

  datatype ResendError = InvalidDate | NoTeam | WebhookNotConfigured | QueryFailed | DigestNotFound

  /**
   The error a resend request is answered with, or None where it goes on. A date of the right
   pattern that is no date, such as one of a thirteenth month, makes the query fail.
   */
  function ResendGate(s: State, team: Id, config: Option<Config>, date: string): Option<ResendError> {
    if !IsYmd(date) then Some(InvalidDate)
    else if config.None? then Some(NoTeam)
    else if !Truthy(config.value.webhookUrl) then Some(WebhookNotConfigured)
    else if ParseYmd(date).None? then Some(QueryFailed)
    else if !DigestTaken(s, team, ParseYmd(date).value) then Some(DigestNotFound)
    else None
  }

  /** `digest` is the row the query found. */
  function ResendFind(s: State, call: RowId, team: Id, config: Option<Config>, date: string, digest: RowId): State {
    if call in s.calls || ResendGate(s, team, config, date).Some? then s
    else if digest in s.digests && s.digests[digest].team == team && s.digests[digest].day == ParseYmd(date).value then
      s.(calls := s.calls[call := Resending(team, date, digest)])
    else s
  }

  function ResendInsert(s: State, call: RowId, delivery: RowId, uuid: Id): State {
    if !(call in s.calls && s.calls[call].Resending? && delivery !in s.deliveries) then s
    else
      var Resending(team, date, digest) := s.calls[call];
      InsertDelivery(s, call, delivery, NewDelivery(Some(digest), team, None, OfResend(team, date, uuid)))
  }

  function Enqueue(s: State, call: RowId, job: RowId): State {
    if !(call in s.calls && s.calls[call].Enqueueing? && job !in s.jobs) then s
    else s.(jobs := s.jobs[job := Job(s.calls[call].delivery, 0, None)], calls := s.calls - {call})
  }

  /** The process dies, or an awaited operation throws: the call goes no further. */
  function CallDies(s: State, call: RowId): State {
    s.(calls := s.calls - {call})
  }

  // Runs of a delivery job

  /** How the run of a job ends for the queue: it returned, it threw, or its worker died. */
  datatype Ending = Returned | Threw | Died

  function EndRun(jobs: map<RowId, Job>, job: RowId, ending: Ending): map<RowId, Job>
    requires job in jobs
  {
    match ending
    case Returned => jobs - {job}
    case Threw => jobs[job := jobs[job].(attemptsMade := jobs[job].attemptsMade + 1, flight := None)]
    case Died => jobs[job := jobs[job].(flight := None)]
  }

  /** What the queue hears of how a run ended. */
  function Heard(ending: Ending, dies: bool): Ending {
    if dies then Died else ending
  }

  predicate Runnable(s: State, job: RowId) {
    job in s.jobs && s.jobs[job].flight.None? && s.jobs[job].attemptsMade < JOB_ATTEMPTS
  }

  function MarkFailed(row: Delivery, reason: Reason): Delivery {
    row.(status := Failed, lastError := Some(reason), attempts := row.attempts + 1)
  }

  /** Why a pending delivery cannot be posted at all. */
  function Unpostable(s: State, row: Delivery, url: Option<string>): Option<Reason> {
    if !Truthy(url) then Some(NoUrl)
    else if !(row.digest.Some? && row.digest.value in s.digests) && row.payload.None? then Some(NoPayload)
    else None
  }

  /**
   The run up to its request: `url` is the address configured now; with `fails` the database is
   unavailable; with `dies` the worker dies before the queue has heard how a finished run ended.
   */
  function DeliverStart(s: State, job: RowId, url: Option<string>, fails: bool, dies: bool): State {
    if !Runnable(s, job) then s
    else
      var delivery := s.jobs[job].delivery;
      if fails then s.(jobs := EndRun(s.jobs, job, Heard(Threw, dies)))
      else if delivery !in s.deliveries || s.deliveries[delivery].status != Pending then
        s.(jobs := EndRun(s.jobs, job, Heard(Returned, dies)))
      else
        var row := s.deliveries[delivery];
        var reason := Unpostable(s, row, url);
        if reason.Some? then
          s.(deliveries := s.deliveries[delivery := MarkFailed(row, reason.value)],
             jobs := EndRun(s.jobs, job, Heard(Returned, dies)))
        else
          s.(jobs := s.jobs[job := s.jobs[job].(flight := Some(Flight(row.attempts, row.digest)))])
  }

  /**
   What becomes of a request that was made. `Accepted`: answered ok and recorded. `Refused`:
   not answered, or not ok, and recorded. `AcceptedUncommitted`: answered ok, but recording
   that failed, so a failure was recorded. `Unrecorded`: nothing could be recorded.
   */
  datatype Answer =
    | Accepted
    | Refused(message: string)
    | AcceptedUncommitted(message: string)
    | Unrecorded(ok: bool)

  function Clip(message: string, limit: nat): (r: string)
    ensures r <= message && |r| == if |message| <= limit then |message| else limit
  {
    if |message| <= limit then message else message[..limit]
  }

  /** The update of the catch branch, from the attempts the run had read. */
  function RecordFailure(row: Delivery, read: nat, message: string): Delivery {
    row.(attempts := read + 1, lastError := Some(Thrown(Clip(message, 500))),
         status := if read + 1 >= MAX_ATTEMPTS then Failed else row.status)
  }

  function RecordSuccess(row: Delivery): Delivery {
    row.(status := Success, attempts := row.attempts + 1, lastError := None)
  }

  function MarkSent(digests: map<RowId, Digest>, digest: Option<RowId>): map<RowId, Digest> {
    if digest.Some? && digest.value in digests
    then digests[digest.value := digests[digest.value].(status := Sent)]
    else digests
  }

  predicate InFlight(s: State, job: RowId) {
    job in s.jobs && s.jobs[job].flight.Some?
  }

  /** With `dies`, the worker dies after recording what it did, if anything. */
  function DeliverEnd(s: State, job: RowId, answer: Answer, dies: bool): State {
    if !InFlight(s, job) || s.jobs[job].delivery !in s.deliveries then s
    else
      var Job(delivery, _, flight) := s.jobs[job];
      var row := s.deliveries[delivery];
      match answer
      case Accepted =>
        s.(deliveries := s.deliveries[delivery := RecordSuccess(row)],
           digests := MarkSent(s.digests, flight.value.digest),
           jobs := EndRun(s.jobs, job, Heard(Returned, dies)))
      case Refused(message) => FailedRun(s, job, message, dies)
      case AcceptedUncommitted(message) => FailedRun(s, job, message, dies)
      case Unrecorded(_) => s.(jobs := EndRun(s.jobs, job, Heard(Threw, dies)))
  }

  function FailedRun(s: State, job: RowId, message: string, dies: bool): State
    requires InFlight(s, job) && s.jobs[job].delivery in s.deliveries
  {
    var Job(delivery, _, flight) := s.jobs[job];
    var ending := if flight.value.attempts + 1 < MAX_ATTEMPTS then Threw else Returned;
    s.(deliveries := s.deliveries[delivery := RecordFailure(s.deliveries[delivery], flight.value.attempts, message)],
       jobs := EndRun(s.jobs, job, Heard(ending, dies)))
  }

  // Runs of the whole system

  datatype Event =
    | GenerateCheckEvent(call: RowId, team: Id, config: Option<Config>, weekday: nat, day: Day)
    | ReminderCheckEvent(call: RowId, team: Id, kind: ReminderKind, config: Option<Config>, weekday: nat, day: Day)
    | ReadMembersEvent(call: RowId, members: seq<UserId>)
    | ReadStandupsEvent(call: RowId, standups: seq<Standup>)
    | GenerateCommitEvent(call: RowId, digest: RowId, delivery: RowId, stat: RowId)
    | ReminderInsertEvent(call: RowId, delivery: RowId)
    | ResendFindEvent(call: RowId, team: Id, config: Option<Config>, date: string, digest: RowId)
    | ResendInsertEvent(call: RowId, delivery: RowId, uuid: Id)
    | EnqueueEvent(call: RowId, job: RowId)
    | CallDiesEvent(call: RowId)
    | DeliverStartEvent(job: RowId, url: Option<string>, fails: bool, dies: bool)
    | DeliverEndEvent(job: RowId, answer: Answer, dies: bool)

  function Step(s: State, e: Event): State {
    match e
    case GenerateCheckEvent(call, team, config, weekday, day) => GenerateCheck(s, call, team, config, weekday, day)
    case ReminderCheckEvent(call, team, kind, config, weekday, day) =>
      ReminderCheck(s, call, team, kind, config, weekday, day)
    case ReadMembersEvent(call, members) => ReadMembers(s, call, members)
    case ReadStandupsEvent(call, standups) => ReadStandups(s, call, standups)
    case GenerateCommitEvent(call, digest, delivery, stat) => GenerateCommit(s, call, digest, delivery, stat)
    case ReminderInsertEvent(call, delivery) => ReminderInsert(s, call, delivery)
    case ResendFindEvent(call, team, config, date, digest) => ResendFind(s, call, team, config, date, digest)
    case ResendInsertEvent(call, delivery, uuid) => ResendInsert(s, call, delivery, uuid)
    case EnqueueEvent(call, job) => Enqueue(s, call, job)
    case CallDiesEvent(call) => CallDies(s, call)
    case DeliverStartEvent(job, url, fails, dies) => DeliverStart(s, job, url, fails, dies)
    case DeliverEndEvent(job, answer, dies) => DeliverEnd(s, job, answer, dies)
  }

  /** The state after a run, in any order of any events, of a system that starts empty. */
  function Run(trace: seq<Event>): State {
    if trace == [] then EMPTY else Step(Run(trace[..|trace| - 1]), trace[|trace| - 1])
  }

  // Runs as lists of their states

  ghost predicate StepAt(states: seq<State>, trace: seq<Event>, i: int) {
    0 <= i < |trace| && i + 1 < |states| && states[i + 1] == Step(states[i], trace[i])
  }

  ghost predicate StatesOf(states: seq<State>, trace: seq<Event>) {
    && |states| == |trace| + 1 && states[0] == EMPTY
    && forall i :: 0 <= i < |trace| ==> StepAt(states, trace, i)
  }

  /** The state is reached by the steps of the trace, one after the other. */
  ghost predicate Reached(s: State, trace: seq<Event>) {
    exists states :: StatesOf(states, trace) && states[|trace|] == s
  }
}

/** The two views of a run agree. */
module OutboxReached {
  import opened Outbox

  lemma {:induction false} StatesAreRuns(states: seq<State>, trace: seq<Event>, i: nat)
    requires StatesOf(states, trace) && i <= |trace|
    ensures states[i] == Run(trace[..i])
  {
    if i > 0 {
      StatesAreRuns(states, trace, i - 1);
      assert StepAt(states, trace, i - 1);
      assert trace[..i][..i - 1] == trace[..i - 1];
    }
  }

  lemma {:induction false} RunIsReached(trace: seq<Event>)
    ensures Reached(Run(trace), trace)
  {
    if trace == [] {
      assert StatesOf([EMPTY], []);
    } else {
      var front, e := trace[..|trace| - 1], trace[|trace| - 1];
      RunIsReached(front);
      var states :| StatesOf(states, front) && states[|front|] == Run(front);
      var longer := states + [Step(Run(front), e)];
      forall i | 0 <= i < |trace|
        ensures StepAt(longer, trace, i)
      {
        assert i < |front| ==> StepAt(states, front, i);
      }
      assert StatesOf(longer, trace);
    }
  }

  /** A state is reached by a trace exactly if it is the state after its run. */
  lemma {:induction false} ReachedIsRun(s: State, trace: seq<Event>)
    ensures Reached(s, trace) <==> s == Run(trace)
  {
    RunIsReached(trace);
    if Reached(s, trace) {
      var states :| StatesOf(states, trace) && states[|trace|] == s;
      StatesAreRuns(states, trace, |trace|);
      assert trace[..|trace|] == trace;
    }
  }

  lemma {:induction false} StepIsReached(s: State, trace: seq<Event>, e: Event)
    requires Reached(s, trace)
    ensures Reached(Step(s, e), trace + [e])
  {
    ReachedIsRun(s, trace);
    RunIsReached(trace + [e]);
    assert (trace + [e])[..|trace|] == trace;
  }
}
