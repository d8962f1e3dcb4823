/** Who changes members' seats, down to the races between the guard, the checks and the write of a request. */
module SeatTheorems {
  import opened Text
  import opened Entities
  import opened Teams
  import opened TeamTheorems

  /** The request was let in at step g, passed its checks at step k, and is about to write. */
  ghost predicate MadeAt(trace: seq<Event>, call: RowId, actor: UserId, seat: Seat, change: Option<Assignable>,
                         g: int, k: int)
  {
    && 0 <= g < k < |trace|
    && trace[g] == GuardEvent(call, seat.team, actor) && GuardError(Run(trace[..g]), seat.team, actor) == None
    && (forall j :: g < j <= k ==> CallIs(Run(trace[..j]), call, Admitted(seat.team, actor)))
    && trace[k] == SeatCheckEvent(call, seat.user, change)
    && SeatError(Run(trace[..k]), seat.team, actor, seat.user) == None
    && (forall j :: k < j <= |trace| ==> CallIs(Run(trace[..j]), call, Changing(actor, seat, change)))
  }

  /** The request was let in at step g and has not been checked yet. */
  ghost predicate AdmittedAt(trace: seq<Event>, call: RowId, team: TeamId, actor: UserId, g: int) {
    && 0 <= g < |trace|
    && trace[g] == GuardEvent(call, team, actor) && GuardError(Run(trace[..g]), team, actor) == None
    && (forall j :: g < j <= |trace| ==> CallIs(Run(trace[..j]), call, Admitted(team, actor)))
  }

  lemma {:induction false} NewAdmission(s: State, e: Event, call: RowId, team: TeamId, actor: UserId)
    requires CallIs(Step(s, e), call, Admitted(team, actor)) && !CallIs(s, call, Admitted(team, actor))
    ensures e == GuardEvent(call, team, actor) && GuardError(s, team, actor) == None
  {
  }

  lemma {:induction false} NewChange(s: State, e: Event, call: RowId, actor: UserId, seat: Seat,
                                     change: Option<Assignable>)
    requires CallIs(Step(s, e), call, Changing(actor, seat, change)) && !CallIs(s, call, Changing(actor, seat, change))
    ensures e == SeatCheckEvent(call, seat.user, change) && CallIs(s, call, Admitted(seat.team, actor))
    ensures SeatError(s, seat.team, actor, seat.user) == None
  {
  }

  lemma {:induction false} AdmissionsWereGuarded(trace: seq<Event>, call: RowId, team: TeamId, actor: UserId)
    returns (g: int)
    requires CallIs(Run(trace), call, Admitted(team, actor))
    ensures AdmittedAt(trace, call, team, actor, g)
  {
    g := CallsWerePut(trace, call, Admitted(team, actor));
    StepAt(trace, g);
    assert CallIs(Run(trace[..g + 1]), call, Admitted(team, actor));
    NewAdmission(Run(trace[..g]), trace[g], call, team, actor);
  }

  lemma {:induction false} ChangesWereChecked(trace: seq<Event>, call: RowId, actor: UserId, seat: Seat,
                                              change: Option<Assignable>)
    returns (g: int, k: int)
    requires CallIs(Run(trace), call, Changing(actor, seat, change))
    ensures MadeAt(trace, call, actor, seat, change, g, k)
  {
    k := CallsWerePut(trace, call, Changing(actor, seat, change));
    StepAt(trace, k);
    assert CallIs(Run(trace[..k + 1]), call, Changing(actor, seat, change));
    NewChange(Run(trace[..k]), trace[k], call, actor, seat, change);
    g := AdmissionsWereGuarded(trace[..k], call, seat.team, actor);
    assert forall j :: 0 <= j <= k ==> trace[..k][..j] == trace[..j];
  }

  // What a change does, and on whose behalf

  predicate SameSeat(s: State, s': State, seat: Seat) {
    && (seat in s'.members <==> seat in s.members)
    && (seat in s.members ==> s'.members[seat] == s.members[seat])
  }

  lemma {:induction false} SeatWriteTouchesOne(s: State, call: RowId)
    requires call in s.calls && s.calls[call].Changing?
    ensures forall other :: other != s.calls[call].seat ==> SameSeat(s, SeatWrite(s, call), other)
  {
  }

  /** The actor, when let in, was the owner or an administrator of a team that was not deleted. */
  ghost predicate LetIn(trace: seq<Event>, team: TeamId, actor: UserId, g: int) {
    && 0 <= g < |trace| && team in Run(trace[..g]).teams && !Run(trace[..g]).teams[team].deleted
    && (actor == Run(trace[..g]).teams[team].ownerId || HasRole(Run(trace[..g]), team, actor, ADMIN))
  }

  lemma {:induction false} AdmittedIsLetIn(trace: seq<Event>, team: TeamId, actor: UserId, g: int)
    requires 0 <= g < |trace| && GuardError(Run(trace[..g]), team, actor) == None
    ensures LetIn(trace, team, actor, g)
  {
    RunHasInv(trace[..g]);
  }

  /**
   A role update or removal changes one seat, whatever overlaps: never an owner's and never the
   actor's own; and the actor was the owner or an administrator when let in.
   */
  lemma {:induction false} SeatsAreProtected(trace: seq<Event>, call: RowId, actor: UserId, seat: Seat,
                                             change: Option<Assignable>)
    returns (g: int, k: int)
    requires CallIs(Run(trace), call, Changing(actor, seat, change))
    ensures MadeAt(trace, call, actor, seat, change, g, k) && LetIn(trace, seat.team, actor, g)
    ensures seat.user != actor && !HasRole(Run(trace), seat.team, seat.user, OWNER)
    ensures forall other :: other != seat ==> SameSeat(Run(trace), Run(trace + [SeatWriteEvent(call)]), other)
  {
    g, k := ChangesWereChecked(trace, call, actor, seat, change);
    AdmittedIsLetIn(trace, seat.team, actor, g);
    NotTheOwners(trace, call, actor, seat, change);
    OneSeatChanges(trace, call, actor, seat, change);
  }

  lemma {:induction false} OneSeatChanges(trace: seq<Event>, call: RowId, actor: UserId, seat: Seat,
                                          change: Option<Assignable>)
    requires CallIs(Run(trace), call, Changing(actor, seat, change))
    ensures forall other :: other != seat ==> SameSeat(Run(trace), Run(trace + [SeatWriteEvent(call)]), other)
  {
    RunMore(trace, SeatWriteEvent(call));
    SeatWriteTouchesOne(Run(trace), call);
  }

  lemma {:induction false} NotTheOwners(trace: seq<Event>, call: RowId, actor: UserId, seat: Seat,
                                        change: Option<Assignable>)
    requires CallIs(Run(trace), call, Changing(actor, seat, change))
    ensures seat.user != actor && !HasRole(Run(trace), seat.team, seat.user, OWNER)
  {
    RunHasInv(trace);
  }

  // Administrators

  predicate IsOwner(s: State, team: TeamId, user: UserId) {
    team in s.teams && s.teams[team].ownerId == user
  }

  lemma {:induction false} OwnersAndRoles(trace: seq<Event>, team: TeamId, user: UserId)
    ensures HasRole(Run(trace), team, user, OWNER) <==> IsOwner(Run(trace), team, user)
  {
    RunHasInv(trace);
  }

  /** The user had the role until step j took it away. */
  ghost predicate RoleLostAt(trace: seq<Event>, team: TeamId, user: UserId, role: Role, j: int) {
    0 <= j < |trace| && HasRole(Run(trace[..j]), team, user, role) && !HasRole(Run(trace[..j + 1]), team, user, role)
  }

  lemma {:induction false} RoleLost(trace: seq<Event>, team: TeamId, user: UserId, role: Role, a: int, b: int)
    returns (j: int)
    requires 0 <= a <= b <= |trace|
    requires HasRole(Run(trace[..a]), team, user, role) && !HasRole(Run(trace[..b]), team, user, role)
    ensures a <= j < b && RoleLostAt(trace, team, user, role, j)
    decreases b - a
  {
    j := b - 1;
    if !HasRole(Run(trace[..j]), team, user, role) {
      j := RoleLost(trace, team, user, role, a, j);
    }
  }

  lemma {:induction false} NoLongerAdministrator(trace: seq<Event>, team: TeamId, actor: UserId, g: int, k: int)
    returns (j: int)
    requires 0 <= g <= k <= |trace| && g < |trace| && GuardError(Run(trace[..g]), team, actor) == None
    requires !IsOwner(Run(trace[..k]), team, actor) && !HasRole(Run(trace[..k]), team, actor, ADMIN)
    ensures g <= j < k && RoleLostAt(trace, team, actor, ADMIN, j)
  {
    AdmittedIsLetIn(trace, team, actor, g);
    assert trace[..g] + trace[g..k] == trace[..k];
    OwnerIdForLife(trace[..g], trace[g..k], team);
    j := RoleLost(trace, team, actor, ADMIN, g, k);
  }

  /** The actor has lost the role of an administrator since being let in. */
  ghost predicate LostAdministration(trace: seq<Event>, call: RowId, team: TeamId, actor: UserId) {
    && !HasRole(Run(trace), team, actor, ADMIN)
    && exists g, j :: AdmittedAt(trace, call, team, actor, g) && RoleLostAt(trace, team, actor, ADMIN, j) && g <= j
  }

  /**
   The checks let a request change an administrator exactly if its actor is the owner, or has
   lost the role of an administrator since being let in.
   */
  lemma {:induction false} AdministratorsAtTheCheck(trace: seq<Event>, call: RowId, team: TeamId, actor: UserId,
                                                    target: UserId)
    requires CallIs(Run(trace), call, Admitted(team, actor)) && actor != target
    requires HasRole(Run(trace), team, target, ADMIN)
    ensures SeatError(Run(trace), team, actor, target) == None
            <==> IsOwner(Run(trace), team, actor) || LostAdministration(trace, call, team, actor)
  {
    RunHasInv(trace);
    if !IsOwner(Run(trace), team, actor) && !HasRole(Run(trace), team, actor, ADMIN) {
      var g := AdmissionsWereGuarded(trace, call, team, actor);
      assert trace[..|trace|] == trace;
      var j := NoLongerAdministrator(trace, team, actor, g, |trace|);
    }
  }

  /** The member was given the role at step j. */
  ghost predicate RoleGivenAt(trace: seq<Event>, team: TeamId, user: UserId, role: Role, j: int) {
    0 <= j < |trace| && !HasRole(Run(trace[..j]), team, user, role) && HasRole(Run(trace[..j + 1]), team, user, role)
  }

  lemma {:induction false} RoleGiven(trace: seq<Event>, team: TeamId, user: UserId, role: Role, a: int, b: int)
    returns (j: int)
    requires 0 <= a <= b <= |trace|
    requires !HasRole(Run(trace[..a]), team, user, role) && HasRole(Run(trace[..b]), team, user, role)
    ensures a <= j < b && RoleGivenAt(trace, team, user, role, j)
    decreases b - a
  {
    j := b - 1;
    if HasRole(Run(trace[..j]), team, user, role) {
      j := RoleGiven(trace, team, user, role, a, j);
    }
  }

  /** Between its guard and its checks the actor lost the role of an administrator, or since them the target got it. */
  ghost predicate Overtaken(trace: seq<Event>, actor: UserId, seat: Seat, g: int, k: int) {
    || (exists j :: g <= j < k && RoleLostAt(trace, seat.team, actor, ADMIN, j))
    || (exists j :: k < j && RoleGivenAt(trace, seat.team, seat.user, ADMIN, j))
  }

  /** What the checks of a change had in front of them, if its seat is not the owner's to change. */
  lemma {:induction false} CheckedSeat(trace: seq<Event>, call: RowId, actor: UserId, seat: Seat,
                                       change: Option<Assignable>, g: int, k: int)
    requires MadeAt(trace, call, actor, seat, change, g, k) && !IsOwner(Run(trace), seat.team, actor)
    ensures !IsOwner(Run(trace[..k]), seat.team, actor)
    ensures HasRole(Run(trace[..k]), seat.team, seat.user, ADMIN) ==> !HasRole(Run(trace[..k]), seat.team, actor, ADMIN)
    ensures HasRole(Run(trace[..k + 1]), seat.team, seat.user, ADMIN)
        ==> HasRole(Run(trace[..k]), seat.team, seat.user, ADMIN)
  {
    assert trace[..k] + trace[k..] == trace;
    if IsOwner(Run(trace[..k]), seat.team, actor) {
      OwnerIdForLife(trace[..k], trace[k..], seat.team);
    }
    StepAt(trace, k);
  }

  /** A request about to write an administrator's seat is the owner's, or was overtaken on its way. */
  lemma {:induction false} AdministratorsAtTheWrite(trace: seq<Event>, call: RowId, actor: UserId, seat: Seat,
                                                    change: Option<Assignable>)
    returns (g: int, k: int)
    requires CallIs(Run(trace), call, Changing(actor, seat, change)) && HasRole(Run(trace), seat.team, seat.user, ADMIN)
    ensures MadeAt(trace, call, actor, seat, change, g, k)
    ensures IsOwner(Run(trace), seat.team, actor) || Overtaken(trace, actor, seat, g, k)
  {
    g, k := ChangesWereChecked(trace, call, actor, seat, change);
    if !IsOwner(Run(trace), seat.team, actor) {
      WasOvertaken(trace, call, actor, seat, change, g, k);
    }
  }

  lemma {:induction false} WasOvertaken(trace: seq<Event>, call: RowId, actor: UserId, seat: Seat,
                                        change: Option<Assignable>, g: int, k: int)
    requires MadeAt(trace, call, actor, seat, change, g, k) && HasRole(Run(trace), seat.team, seat.user, ADMIN)
    requires !IsOwner(Run(trace), seat.team, actor)
    ensures Overtaken(trace, actor, seat, g, k)
  {
    CheckedSeat(trace, call, actor, seat, change, g, k);
    if HasRole(Run(trace[..k]), seat.team, seat.user, ADMIN) {
      LostBeforeCheck(trace, actor, seat, g, k);
    } else {
      GivenSinceCheck(trace, actor, seat, g, k);
    }
  }

  lemma {:induction false} LostBeforeCheck(trace: seq<Event>, actor: UserId, seat: Seat, g: int, k: int)
    requires 0 <= g < k < |trace| && GuardError(Run(trace[..g]), seat.team, actor) == None
    requires !IsOwner(Run(trace[..k]), seat.team, actor) && !HasRole(Run(trace[..k]), seat.team, actor, ADMIN)
    ensures Overtaken(trace, actor, seat, g, k)
  {
    var j := NoLongerAdministrator(trace, seat.team, actor, g, k);
  }

  lemma {:induction false} GivenSinceCheck(trace: seq<Event>, actor: UserId, seat: Seat, g: int, k: int)
    requires 0 <= g < k < |trace| && !HasRole(Run(trace[..k + 1]), seat.team, seat.user, ADMIN)
    requires HasRole(Run(trace), seat.team, seat.user, ADMIN)
    ensures Overtaken(trace, actor, seat, g, k)
  {
    assert trace[..|trace|] == trace;
    var j := RoleGiven(trace, seat.team, seat.user, ADMIN, k + 1, |trace|);
  }
}
