/**
 Refresh-token families and password resets (auth.service.ts): rotation with reuse detection,
 as recommended in section 4.14.2 of RFC 9700. A presented token or reset link is named by
 the row its hash finds. Rotations and resets are split where they await: between the check
 of the presented token or link, the new row, and the update of the old one, other calls run.
 */
module RefreshTokens {
  import opened Text
  import opened Entities

  datatype Token = Token(user: UserId, family: string, expiresAt: int, revokedAt: Option<int>,
                         replacedBy: Option<RowId>)

  datatype Reset = Reset(user: UserId, expiresAt: int, usedAt: Option<int>)

  /** How far a call has come: its token or link has passed the check; its successor is created. */
  datatype Call = Rotating(presented: RowId) | Linking(presented: RowId, successor: RowId) | Resetting(record: RowId)

  datatype State = State(tokens: map<RowId, Token>, resets: map<RowId, Reset>, calls: map<RowId, Call>)

  const EMPTY := State(map[], map[], map[])

  predicate InFamily(s: State, id: RowId, family: string) {
    id in s.tokens && s.tokens[id].family == family
  }

  predicate FamilyUsed(s: State, family: string) {
    exists id :: id in s.tokens && InFamily(s, id, family)
  }

  predicate Live(s: State, id: RowId) {
    id in s.tokens && s.tokens[id].revokedAt.None?
  }

  // The steps of the calls. A step that is not enabled changes nothing.

  /** `issueTokens` without a family: a new family with one token. */
  function Login(s: State, user: UserId, id: RowId, family: string, expiresAt: int): State {
    if id in s.tokens || FamilyUsed(s, family) then s
    else s.(tokens := s.tokens[id := Token(user, family, expiresAt, None, None)])
  }

  function Revoked(token: Token, now: int): Token {
    if token.revokedAt.None? then token.(revokedAt := Some(now)) else token
  }

  function RevokeFamily(tokens: map<RowId, Token>, family: string, now: int): map<RowId, Token> {
    map id | id in tokens :: if tokens[id].family == family then Revoked(tokens[id], now) else tokens[id]
  }

  function RevokeUser(tokens: map<RowId, Token>, user: UserId, now: int): map<RowId, Token> {
    map id | id in tokens :: if tokens[id].user == user then Revoked(tokens[id], now) else tokens[id]
  }

  datatype Outcome = Rotated | Invalid | ReuseDetected | Expired

  /** How a refresh request is answered. `verified` is the signature check, `userActive` that the user exists. */
  function RotateOutcome(s: State, presented: RowId, verified: bool, now: int, userActive: bool): Outcome {
    if !verified || presented !in s.tokens then Invalid
    else if s.tokens[presented].revokedAt.Some? then ReuseDetected
    else if s.tokens[presented].expiresAt < now then Expired
    else if !userActive then Invalid
    else Rotated
  }

  function RotateCheck(s: State, call: RowId, presented: RowId, verified: bool, now: int, userActive: bool): State {
    if call in s.calls then s
    else
      match RotateOutcome(s, presented, verified, now, userActive)
      case ReuseDetected => s.(tokens := RevokeFamily(s.tokens, s.tokens[presented].family, now))
      case Rotated => s.(calls := s.calls[call := Rotating(presented)])
      case _ => s
  }

  /** The successor is created in the family of the presented token, whatever has become of that token meanwhile. */
  function RotateCreate(s: State, call: RowId, id: RowId, expiresAt: int): State {
    if !(call in s.calls && s.calls[call].Rotating? && s.calls[call].presented in s.tokens) || id in s.tokens then s
    else
      var existing := s.tokens[s.calls[call].presented];
      s.(tokens := s.tokens[id := Token(existing.user, existing.family, expiresAt, None, None)],
         calls := s.calls[call := Linking(s.calls[call].presented, id)])
  }

  /** The presented token is revoked and linked to its successor. */
  function RotateLink(s: State, call: RowId, now: int): State {
    if !(call in s.calls && s.calls[call].Linking? && s.calls[call].presented in s.tokens) then s
    else
      var Linking(presented, successor) := s.calls[call];
      s.(tokens := s.tokens[presented := s.tokens[presented].(revokedAt := Some(now), replacedBy := Some(successor))],
         calls := s.calls - {call})
  }

  function Logout(s: State, presented: RowId, now: int): State {
    if presented !in s.tokens then s
    else s.(tokens := RevokeFamily(s.tokens, s.tokens[presented].family, now))
  }

  function Forgot(s: State, user: UserId, id: RowId, expiresAt: int): State {
    if id in s.resets then s else s.(resets := s.resets[id := Reset(user, expiresAt, None)])
  }

  predicate ResetAccepted(s: State, record: RowId, now: int) {
    record in s.resets && s.resets[record].usedAt.None? && s.resets[record].expiresAt >= now
  }

  function ResetCheck(s: State, call: RowId, record: RowId, now: int): State {
    if call in s.calls || !ResetAccepted(s, record, now) then s
    else s.(calls := s.calls[call := Resetting(record)])
  }

  predicate CommitsReset(s: State, call: RowId) {
    call in s.calls && s.calls[call].Resetting? && s.calls[call].record in s.resets
  }

  /** One transaction: the record is marked used and every live token of the user is revoked. */
  function ResetCommit(s: State, call: RowId, now: int): State {
    if !CommitsReset(s, call) then s
    else
      var record := s.calls[call].record;
      State(RevokeUser(s.tokens, s.resets[record].user, now),
            s.resets[record := s.resets[record].(usedAt := Some(now))],
            s.calls - {call})
  }

  // Runs

  datatype Event =
    | LoginEvent(user: UserId, id: RowId, family: string, expiresAt: int)
    | RotateCheckEvent(call: RowId, presented: RowId, verified: bool, now: int, userActive: bool)
    | RotateCreateEvent(call: RowId, id: RowId, expiresAt: int)
    | RotateLinkEvent(call: RowId, now: int)
    | LogoutEvent(presented: RowId, now: int)
    | ForgotEvent(user: UserId, id: RowId, expiresAt: int)
    | ResetCheckEvent(call: RowId, record: RowId, now: int)
    | ResetCommitEvent(call: RowId, now: int)
    | CallDiesEvent(call: RowId)

  function Step(s: State, e: Event): State {
    match e
    case LoginEvent(user, id, family, expiresAt) => Login(s, user, id, family, expiresAt)
    case RotateCheckEvent(call, presented, verified, now, userActive) =>
      RotateCheck(s, call, presented, verified, now, userActive)
    case RotateCreateEvent(call, id, expiresAt) => RotateCreate(s, call, id, expiresAt)
    case RotateLinkEvent(call, now) => RotateLink(s, call, now)
    case LogoutEvent(presented, now) => Logout(s, presented, now)
    case ForgotEvent(user, id, expiresAt) => Forgot(s, user, id, expiresAt)
    case ResetCheckEvent(call, record, now) => ResetCheck(s, call, record, now)
    case ResetCommitEvent(call, now) => ResetCommit(s, call, now)
    case CallDiesEvent(call) => s.(calls := s.calls - {call})
  }

  function Run(trace: seq<Event>): State {
    if trace == [] then EMPTY else Step(Run(trace[..|trace| - 1]), trace[|trace| - 1])
  }

  lemma {:induction false} RunMore(trace: seq<Event>, e: Event)
    ensures Run(trace + [e]) == Step(Run(trace), e)
  {
    assert (trace + [e])[..|trace|] == trace;
  }

  // What a step does to the tokens there are

  /** The event opens the family, by a login. */
  predicate Opens(s: State, e: Event, family: string) {
    e.LoginEvent? && e.family == family && e.id !in s.tokens && !FamilyUsed(s, family)
  }

  /** The event creates a successor in the family. */
  predicate Creates(s: State, e: Event, family: string) {
    && e.RotateCreateEvent? && e.id !in s.tokens && e.call in s.calls && s.calls[e.call].Rotating?
    && InFamily(s, s.calls[e.call].presented, family)
  }

  /** Tokens are neither deleted nor moved nor brought back to life; a revocation is all that can befall them. */
  ghost predicate Kept(s: State, s': State) {
    forall id :: id in s.tokens ==>
      && id in s'.tokens
      && s'.tokens[id].user == s.tokens[id].user && s'.tokens[id].family == s.tokens[id].family
      && (s.tokens[id].revokedAt.Some? ==> s'.tokens[id].revokedAt.Some?)
      && (s'.tokens[id].replacedBy != s.tokens[id].replacedBy ==> s'.tokens[id].revokedAt.Some?)
  }

  lemma {:induction false} LinkKeeps(s: State, call: RowId, now: int)
    ensures Kept(s, RotateLink(s, call, now))
  {
  }

  lemma {:induction false} CreateKeeps(s: State, call: RowId, id: RowId, expiresAt: int)
    ensures Kept(s, RotateCreate(s, call, id, expiresAt))
  {
  }

  lemma {:induction false} StepKeeps(s: State, e: Event)
    ensures Kept(s, Step(s, e))
  {
    match e
    case RotateLinkEvent(call, now) => LinkKeeps(s, call, now);
    case RotateCreateEvent(call, id, expiresAt) => CreateKeeps(s, call, id, expiresAt);
    case LoginEvent(_, _, _, _) =>
    case RotateCheckEvent(_, _, _, _, _) =>
    case LogoutEvent(_, _) =>
    case ForgotEvent(_, _, _) =>
    case ResetCheckEvent(_, _, _) =>
    case ResetCommitEvent(_, _) =>
    case CallDiesEvent(_) =>
  }

  /** New tokens come from logins and rotations only. */
  lemma {:induction false} NewTokens(s: State, e: Event, id: RowId)
    requires id in Step(s, e).tokens && id !in s.tokens
    ensures (e.LoginEvent? || e.RotateCreateEvent?) && e.id == id
    ensures Opens(s, e, Step(s, e).tokens[id].family) || Creates(s, e, Step(s, e).tokens[id].family)
    ensures Step(s, e).tokens[id].revokedAt.None? && Step(s, e).tokens[id].replacedBy.None?
    ensures e.RotateCreateEvent? ==> Step(s, e).tokens[id].user == s.tokens[s.calls[e.call].presented].user
  {
  }

  /** From one moment of a run to any later one. */
  lemma {:induction false} TokensKept(trace: seq<Event>, more: seq<Event>, id: RowId)
    requires id in Run(trace).tokens
    ensures id in Run(trace + more).tokens
    ensures var a, b := Run(trace).tokens[id], Run(trace + more).tokens[id];
      b.user == a.user && b.family == a.family && (a.revokedAt.Some? ==> b.revokedAt.Some?)
    decreases |more|
  {
    if more == [] {
      assert trace + more == trace;
    } else {
      var fewer, last := more[..|more| - 1], more[|more| - 1];
      assert trace + more == (trace + fewer) + [last];
      TokensKept(trace, fewer, id);
      RunMore(trace + fewer, last);
      StepKeeps(Run(trace + fewer), last);
    }
  }

  // What every run keeps

  ghost predicate OneUser(s: State) {
    forall a, b :: a in s.tokens && b in s.tokens && s.tokens[a].family == s.tokens[b].family ==>
      s.tokens[a].user == s.tokens[b].user
  }

  /** Calls name rows that exist; what a call is going to link is of one family. */
  ghost predicate CallsFit(s: State) {
    forall c :: c in s.calls ==>
      match s.calls[c]
      case Rotating(p) => p in s.tokens
      case Linking(p, n) => p in s.tokens && n in s.tokens && s.tokens[p].family == s.tokens[n].family
      case Resetting(r) => r in s.resets
  }

  lemma {:induction false} StepKeepsUser(s: State, e: Event)
    requires OneUser(s)
    ensures OneUser(Step(s, e))
  {
    var s' := Step(s, e);
    StepKeeps(s, e);
    forall a, b | a in s'.tokens && b in s'.tokens && s'.tokens[a].family == s'.tokens[b].family
      ensures s'.tokens[a].user == s'.tokens[b].user
    {
      if a !in s.tokens && b in s.tokens {
        UserOfNew(s, e, a, b);
      } else if b !in s.tokens && a in s.tokens {
        UserOfNew(s, e, b, a);
      } else if a !in s.tokens {
        NewTokens(s, e, a);
        NewTokens(s, e, b);
      }
    }
  }

  lemma {:induction false} UserOfNew(s: State, e: Event, a: RowId, b: RowId)
    requires OneUser(s) && a in Step(s, e).tokens && b in Step(s, e).tokens && b in s.tokens && a !in s.tokens
    requires Step(s, e).tokens[a].family == Step(s, e).tokens[b].family
    ensures Step(s, e).tokens[a].user == Step(s, e).tokens[b].user
  {
    StepKeeps(s, e);
    NewTokens(s, e, a);
    assert InFamily(s, b, s.tokens[b].family);
  }

  lemma {:induction false} StepKeepsCalls(s: State, e: Event)
    requires CallsFit(s)
    ensures CallsFit(Step(s, e))
  {
    StepKeeps(s, e);
    match e
    case RotateCreateEvent(_, _, _) =>
    case RotateLinkEvent(_, _) =>
    case _ =>
  }

  lemma {:induction false} RunFits(trace: seq<Event>)
    ensures OneUser(Run(trace)) && CallsFit(Run(trace))
  {
    if trace != [] {
      RunFits(trace[..|trace| - 1]);
      StepKeepsUser(Run(trace[..|trace| - 1]), trace[|trace| - 1]);
      StepKeepsCalls(Run(trace[..|trace| - 1]), trace[|trace| - 1]);
    }
  }

  lemma {:induction false} CallNamesRows(trace: seq<Event>, call: RowId)
    requires call in Run(trace).calls
    ensures match Run(trace).calls[call]
      case Rotating(p) => p in Run(trace).tokens
      case Linking(p, n) => p in Run(trace).tokens && n in Run(trace).tokens
      case Resetting(r) => r in Run(trace).resets
  {
    RunFits(trace);
  }

  /** A new token is named by no call. */
  lemma {:induction false} NoCallNames(trace: seq<Event>, id: RowId)
    requires id !in Run(trace).tokens
    ensures forall c :: c in Run(trace).calls && Run(trace).calls[c].Linking? ==> Run(trace).calls[c].presented != id
  {
    RunFits(trace);
  }

  lemma {:induction false} RunOfCreate(trace: seq<Event>, call: RowId, id: RowId, expiresAt: int)
    requires id !in Run(trace).tokens && call in Run(trace).calls && Run(trace).calls[call].Rotating?
    ensures Run(trace).calls[call].presented in Run(trace).tokens
    ensures var s := Run(trace);
      var p := s.calls[call].presented;
      Run(trace + [RotateCreateEvent(call, id, expiresAt)])
        == s.(tokens := s.tokens[id := Token(s.tokens[p].user, s.tokens[p].family, expiresAt, None, None)],
              calls := s.calls[call := Linking(p, id)])
  {
    CallNamesRows(trace, call);
    RunMore(trace, RotateCreateEvent(call, id, expiresAt));
  }

  lemma {:induction false} RunOfLink(trace: seq<Event>, call: RowId, now: int)
    requires call in Run(trace).calls && Run(trace).calls[call].Linking?
    ensures Run(trace).calls[call].presented in Run(trace).tokens
    ensures var s := Run(trace);
      var Linking(p, n) := s.calls[call];
      Run(trace + [RotateLinkEvent(call, now)])
        == s.(tokens := s.tokens[p := s.tokens[p].(revokedAt := Some(now), replacedBy := Some(n))],
              calls := s.calls - {call})
  {
    CallNamesRows(trace, call);
    RunMore(trace, RotateLinkEvent(call, now));
  }
}
