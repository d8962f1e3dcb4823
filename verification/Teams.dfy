/**
 Team membership, roles and invitations (teams.service.ts) as a machine over its tables. The
 calls are split where they await: between a call's checks and its writes other calls run.
 */
module Teams {
  import opened Text
  import opened Entities

  datatype Role = OWNER | ADMIN | MEMBER

  /** The roles an invitation or an update can give; request validation and `invite` admit no others. */
  type Assignable = r: Role | r != OWNER witness MEMBER

  datatype InviteStatus = PENDING | ACCEPTED | EXPIRED | REVOKED

  /** The unique key of a membership. */
  datatype Seat = Seat(team: TeamId, user: UserId)

  datatype Invitation = Invitation(team: TeamId, email: string, role: Assignable, status: InviteStatus, expiresAt: int)

  /** What a call whose checks have passed is going to write. */
  datatype Call =
    | Inviting(team: TeamId, email: string, role: Assignable, revoked: bool)
    | Accepting(invitation: RowId, user: UserId)
    | Expiring(invitation: RowId)
    | Admitted(team: TeamId, user: UserId)  // by the guard, to change or remove a member
    | Changing(user: UserId, seat: Seat, change: Option<Assignable>)  // None removes the member

  datatype State = State(teams: map<TeamId, Team>, members: map<Seat, Role>, invitations: map<RowId, Invitation>,
                         calls: map<RowId, Call>)

  const EMPTY := State(map[], map[], map[], map[])

  datatype Error =
    | TeamNotFound | MemberNotFound | InvitationInvalidRole | AlreadyMember | InvitationInvalid | InvitationExpired
    | EmailMismatch | CannotModifySelf | CannotModifyOwner | ForbiddenRole

  // Steps

  function Create(s: State, team: TeamId, owner: UserId): State {
    if team in s.teams then s
    else s.(teams := s.teams[team := Team(owner, false, Some(DEFAULT_CONFIG))],
            members := s.members[Seat(team, owner) := OWNER])
  }

  function SoftDelete(s: State, team: TeamId): State {
    if team in s.teams && !s.teams[team].deleted
    then s.(teams := s.teams[team := s.teams[team].(deleted := true)])
    else s
  }

  /** `invitee` is the user found under the invited email. */
  function InviteError(s: State, team: TeamId, role: Role, invitee: Option<UserId>): Option<Error> {
    if role == OWNER then Some(InvitationInvalidRole)
    else if invitee.Some? && Seat(team, invitee.value) in s.members then Some(AlreadyMember)
    else None
  }

  function InviteCheck(s: State, call: RowId, team: TeamId, email: string, role: Role, invitee: Option<UserId>): State {
    if call in s.calls || InviteError(s, team, role, invitee).Some? then s
    else s.(calls := s.calls[call := Inviting(team, ToLower(email), role, false)])
  }

  predicate PendingFor(i: Invitation, team: TeamId, email: string) {
    i.team == team && i.email == email && i.status == PENDING
  }

  function RevokePending(invitations: map<RowId, Invitation>, team: TeamId, email: string): map<RowId, Invitation> {
    map id | id in invitations ::
      if PendingFor(invitations[id], team, email) then invitations[id].(status := REVOKED) else invitations[id]
  }

  predicate CanRevoke(s: State, call: RowId) {
    call in s.calls && s.calls[call].Inviting? && !s.calls[call].revoked
  }

  function InviteRevoke(s: State, call: RowId): State {
    if !CanRevoke(s, call) then s
    else
      var c := s.calls[call];
      s.(invitations := RevokePending(s.invitations, c.team, c.email), calls := s.calls[call := c.(revoked := true)])
  }

  predicate CanInvite(s: State, call: RowId, id: RowId) {
    call in s.calls && s.calls[call].Inviting? && s.calls[call].revoked && id !in s.invitations
  }

  /** The insert, which an unknown team makes fail. */
  function InviteCreate(s: State, call: RowId, id: RowId, expiresAt: int): State {
    if !CanInvite(s, call, id) then s
    else
      var c := s.calls[call];
      if c.team !in s.teams then s.(calls := s.calls - {call})
      else
        s.(invitations := s.invitations[id := Invitation(c.team, c.email, c.role, PENDING, expiresAt)],
           calls := s.calls - {call})
  }

  /** `email` is the address of the accepting user. */
  function AcceptError(s: State, id: RowId, email: string, now: int): Option<Error> {
    if id !in s.invitations || s.invitations[id].status != PENDING then Some(InvitationInvalid)
    else if s.invitations[id].expiresAt < now then Some(InvitationExpired)
    else if s.invitations[id].team !in s.teams || s.teams[s.invitations[id].team].deleted then Some(TeamNotFound)
    else if ToLower(email) != ToLower(s.invitations[id].email) then Some(EmailMismatch)
    else None
  }

  function AcceptCheck(s: State, call: RowId, id: RowId, user: UserId, email: string, now: int): State {
    if call in s.calls then s
    else
      match AcceptError(s, id, email, now)
      case Some(InvitationExpired) => s.(calls := s.calls[call := Expiring(id)])
      case Some(_) => s
      case None => s.(calls := s.calls[call := Accepting(id, user)])
  }

  /** The status a call is going to give an invitation. */
  function StatusBy(c: Call, id: RowId): Option<InviteStatus> {
    if c == Expiring(id) then Some(EXPIRED)
    else if c.Accepting? && c.invitation == id then Some(ACCEPTED)
    else None
  }

  predicate CanSettle(s: State, call: RowId) {
    && call in s.calls && (s.calls[call].Accepting? || s.calls[call].Expiring?)
    && s.calls[call].invitation in s.invitations
  }

  /** The write of an acceptance: membership, unless there is one, and status; or that of an expiry. */
  function AcceptWrite(s: State, call: RowId): State {
    if !CanSettle(s, call) then s
    else
      var id := s.calls[call].invitation;
      var row := s.invitations[id];
      if s.calls[call].Expiring? then
        s.(invitations := s.invitations[id := row.(status := EXPIRED)], calls := s.calls - {call})
      else
        var seat := Seat(row.team, s.calls[call].user);
        s.(members := if seat in s.members then s.members else s.members[seat := row.role],
           invitations := s.invitations[id := row.(status := ACCEPTED)],
           calls := s.calls - {call})
  }

  /** Why the guard in front of role updates and removals turns a user away. */
  function GuardError(s: State, team: TeamId, actor: UserId): Option<Error> {
    if Seat(team, actor) !in s.members || team !in s.teams || s.teams[team].deleted then Some(TeamNotFound)
    else if s.members[Seat(team, actor)] == MEMBER then Some(ForbiddenRole)
    else None
  }

  function Guard(s: State, call: RowId, team: TeamId, actor: UserId): State {
    if call in s.calls || GuardError(s, team, actor).Some? then s
    else s.(calls := s.calls[call := Admitted(team, actor)])
  }

  /** Why an actor may not change or remove a member. */
  function SeatError(s: State, team: TeamId, actor: UserId, target: UserId): Option<Error> {
    if Seat(team, target) !in s.members then Some(MemberNotFound)
    else if actor == target then Some(CannotModifySelf)
    else if s.members[Seat(team, target)] == OWNER then Some(CannotModifyOwner)
    else if Seat(team, actor) in s.members && s.members[Seat(team, actor)] == ADMIN
            && s.members[Seat(team, target)] == ADMIN
    then Some(ForbiddenRole)
    else None
  }

  predicate CanCheckSeat(s: State, call: RowId) {
    call in s.calls && s.calls[call].Admitted?
  }

  /** The memberships are read anew, and the request is refused or goes on to its write. */
  function SeatCheck(s: State, call: RowId, target: UserId, change: Option<Assignable>): State {
    if !CanCheckSeat(s, call) then s
    else
      var Admitted(team, actor) := s.calls[call];
      if SeatError(s, team, actor, target).Some? then s.(calls := s.calls - {call})
      else s.(calls := s.calls[call := Changing(actor, Seat(team, target), change)])
  }

  predicate CanChange(s: State, call: RowId) {
    call in s.calls && s.calls[call].Changing? && s.calls[call].seat in s.members
  }

  /** The update or deletion of the membership, which fails if it is gone. */
  function SeatWrite(s: State, call: RowId): State {
    if !CanChange(s, call) then s
    else
      var Changing(_, seat, change) := s.calls[call];
      s.(members := if change.Some? then s.members[seat := change.value] else s.members - {seat},
         calls := s.calls - {call})
  }

  // Runs

  datatype Event =
    | CreateEvent(team: TeamId, owner: UserId)
    | DeleteEvent(team: TeamId)
    | InviteCheckEvent(call: RowId, team: TeamId, email: string, role: Role, invitee: Option<UserId>)
    | InviteRevokeEvent(call: RowId)
    | InviteCreateEvent(call: RowId, id: RowId, expiresAt: int)
    | AcceptCheckEvent(call: RowId, id: RowId, user: UserId, email: string, now: int)
    | AcceptWriteEvent(call: RowId)
    | GuardEvent(call: RowId, team: TeamId, user: UserId)
    | SeatCheckEvent(call: RowId, target: UserId, change: Option<Assignable>)
    | SeatWriteEvent(call: RowId)
    | CallDiesEvent(call: RowId)

  function Step(s: State, e: Event): State {
    match e
    case CreateEvent(team, owner) => Create(s, team, owner)
    case DeleteEvent(team) => SoftDelete(s, team)
    case InviteCheckEvent(call, team, email, role, invitee) => InviteCheck(s, call, team, email, role, invitee)
    case InviteRevokeEvent(call) => InviteRevoke(s, call)
    case InviteCreateEvent(call, id, expiresAt) => InviteCreate(s, call, id, expiresAt)
    case AcceptCheckEvent(call, id, user, email, now) => AcceptCheck(s, call, id, user, email, now)
    case AcceptWriteEvent(call) => AcceptWrite(s, call)
    case GuardEvent(call, team, user) => Guard(s, call, team, user)
    case SeatCheckEvent(call, target, change) => SeatCheck(s, call, target, change)
    case SeatWriteEvent(call) => SeatWrite(s, call)
    case CallDiesEvent(call) => s.(calls := s.calls - {call})
  }

  function Run(trace: seq<Event>): State {
    if trace == [] then EMPTY else Step(Run(trace[..|trace| - 1]), trace[|trace| - 1])
  }

  lemma {:induction false} RunMore(trace: seq<Event>, e: Event)
    ensures Run(trace + [e]) == Step(Run(trace), e)
  {
    assert (trace + [e])[..|trace|] == trace;
  }

  // Invariant

  /** The owner of every team is a member with the role OWNER, and nobody else has that role. */
  ghost predicate Owned(s: State) {
    && (forall t :: t in s.teams ==> Seat(t, s.teams[t].ownerId) in s.members)
    && (forall seat :: seat in s.members ==>
          seat.team in s.teams && (s.members[seat] == OWNER <==> seat.user == s.teams[seat.team].ownerId))
  }

  /** Calls write to what there is, and none to an owner's seat. */
  ghost predicate CallsFit(s: State) {
    forall c :: c in s.calls ==>
      match s.calls[c]
      case Inviting(_, _, _, _) => true
      case Accepting(id, _) => id in s.invitations
      case Expiring(id) => id in s.invitations
      case Admitted(team, _) => team in s.teams
      case Changing(actor, seat, _) =>
        actor != seat.user && seat.team in s.teams && seat.user != s.teams[seat.team].ownerId
  }

  ghost predicate InvitationsFit(s: State) {
    forall i :: i in s.invitations ==> s.invitations[i].team in s.teams
  }

  ghost predicate Inv(s: State) {
    Owned(s) && CallsFit(s) && InvitationsFit(s)
  }

  lemma {:induction false} CreateKeepsOwned(s: State, team: TeamId, owner: UserId)
    requires Owned(s)
    ensures Owned(Create(s, team, owner))
  {
  }

  lemma {:induction false} CreateKeepsInv(s: State, team: TeamId, owner: UserId)
    requires Inv(s)
    ensures Inv(Create(s, team, owner))
  {
    CreateKeepsOwned(s, team, owner);
  }

  lemma {:induction false} DeleteKeepsInv(s: State, team: TeamId)
    requires Inv(s)
    ensures Inv(SoftDelete(s, team))
  {
  }

  lemma {:induction false} JoinKeepsOwned(s: State, seat: Seat, role: Assignable)
    requires Owned(s) && seat.team in s.teams
    ensures Owned(s.(members := if seat in s.members then s.members else s.members[seat := role]))
  {
  }

  lemma {:induction false} AcceptKeepsInv(s: State, call: RowId)
    requires Inv(s)
    ensures Inv(AcceptWrite(s, call))
  {
    if CanSettle(s, call) && s.calls[call].Accepting? {
      var row := s.invitations[s.calls[call].invitation];
      JoinKeepsOwned(s, Seat(row.team, s.calls[call].user), row.role);
    }
  }

  lemma {:induction false} SeatWriteKeepsInv(s: State, call: RowId)
    requires Inv(s)
    ensures Inv(SeatWrite(s, call))
  {
  }

  lemma {:induction false} SeatCheckKeepsInv(s: State, call: RowId, target: UserId, change: Option<Assignable>)
    requires Inv(s)
    ensures Inv(SeatCheck(s, call, target, change))
  {
  }

  lemma {:induction false} InviteKeepsInv(s: State, e: Event)
    requires Inv(s) && (e.InviteCheckEvent? || e.InviteRevokeEvent? || e.InviteCreateEvent?)
    ensures Inv(Step(s, e))
  {
  }

  lemma {:induction false} GuardKeepsInv(s: State, call: RowId, team: TeamId, actor: UserId)
    requires Inv(s)
    ensures Inv(Guard(s, call, team, actor))
  {
  }

  lemma {:induction false} AcceptCheckKeepsInv(s: State, call: RowId, id: RowId, user: UserId, email: string, now: int)
    requires Inv(s)
    ensures Inv(AcceptCheck(s, call, id, user, email, now))
  {
  }

  lemma {:induction false} StepKeepsInv(s: State, e: Event)
    requires Inv(s)
    ensures Inv(Step(s, e))
  {
    match e
    case CreateEvent(team, owner) => CreateKeepsInv(s, team, owner);
    case DeleteEvent(team) => DeleteKeepsInv(s, team);
    case AcceptWriteEvent(call) => AcceptKeepsInv(s, call);
    case SeatWriteEvent(call) => SeatWriteKeepsInv(s, call);
    case SeatCheckEvent(call, target, change) => SeatCheckKeepsInv(s, call, target, change);
    case GuardEvent(call, team, user) => GuardKeepsInv(s, call, team, user);
    case AcceptCheckEvent(call, id, user, email, now) => AcceptCheckKeepsInv(s, call, id, user, email, now);
    case CallDiesEvent(_) =>
    case _ => InviteKeepsInv(s, e);
  }

  lemma {:induction false} RunHasInv(trace: seq<Event>)
    ensures Inv(Run(trace))
  {
    if trace != [] {
      RunHasInv(trace[..|trace| - 1]);
      StepKeepsInv(Run(trace[..|trace| - 1]), trace[|trace| - 1]);
    }
  }
}
