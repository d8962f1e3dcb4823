/** What must have been presented, and when, for a token to be rotated or a password to be reset. */
module RefreshChecks {
  import opened Entities
  import opened RefreshTokens
  import opened ResetGuarantees

  /** At step i the call presented the token, with its signature, unrevoked and in time, and its user exists. */
  ghost predicate PresentedAt(trace: seq<Event>, call: RowId, p: RowId, i: int) {
    && 0 <= i < |trace| && trace[i].RotateCheckEvent? && trace[i].call == call && trace[i].presented == p
    && trace[i].verified && trace[i].userActive
    && p in Run(trace[..i]).tokens && Run(trace[..i]).tokens[p].revokedAt.None?
    && trace[i].now <= Run(trace[..i]).tokens[p].expiresAt
  }

  predicate RotatesToken(s: State, call: RowId, p: RowId) {
    call in s.calls && !s.calls[call].Resetting? && s.calls[call].presented == p
  }

  lemma {:induction false} NewRotation(s: State, e: Event, call: RowId, p: RowId)
    requires RotatesToken(Step(s, e), call, p) && !RotatesToken(s, call, p)
    ensures e.RotateCheckEvent? && e.call == call && e.presented == p && e.verified && e.userActive
    ensures p in s.tokens && s.tokens[p].revokedAt.None? && e.now <= s.tokens[p].expiresAt
  {
  }

  /** Every rotation under way was let in with a token that was signed, known, unrevoked and not expired. */
  lemma {:induction false} RotationsWerePresented(trace: seq<Event>, call: RowId, p: RowId) returns (i: int)
    requires RotatesToken(Run(trace), call, p)
    ensures PresentedAt(trace, call, p, i)
  {
    var before, e := trace[..|trace| - 1], trace[|trace| - 1];
    if RotatesToken(Run(before), call, p) {
      i := RotationsWerePresented(before, call, p);
      assert before[..i] == trace[..i] && before[i] == trace[i];
    } else {
      i := |before|;
      NewRotation(Run(before), e, call, p);
      assert trace[..i] == before;
    }
  }

  /** The token was issued at step i: by a login, or by a rotation of a token of its family and user. */
  ghost predicate IssuedAt(trace: seq<Event>, id: RowId, token: Token, i: int) {
    && 0 <= i < |trace|
    && (trace[i] == LoginEvent(token.user, id, token.family, token.expiresAt)
        || exists p, j :: RotatedAt(trace, id, token, p, j, i))
  }

  /** Token `p` was presented at step j, and the token created in its place at step i. */
  ghost predicate RotatedAt(trace: seq<Event>, id: RowId, token: Token, p: RowId, j: int, i: int) {
    && 0 <= j < i < |trace| && trace[i].RotateCreateEvent? && trace[i].id == id
    && trace[i].expiresAt == token.expiresAt && PresentedAt(trace, trace[i].call, p, j)
    && p in Run(trace[..i]).tokens
    && Run(trace[..i]).tokens[p].user == token.user && Run(trace[..i]).tokens[p].family == token.family
  }

  lemma {:induction false} NewToken(s: State, e: Event, id: RowId)
    requires id in Step(s, e).tokens && id !in s.tokens
    ensures var token := Step(s, e).tokens[id];
      || e == LoginEvent(token.user, id, token.family, token.expiresAt)
      || (&& e.RotateCreateEvent? && e.id == id && e.expiresAt == token.expiresAt
          && e.call in s.calls && RotatesToken(s, e.call, s.calls[e.call].presented)
          && s.calls[e.call].presented in s.tokens
          && s.tokens[s.calls[e.call].presented].user == token.user
          && s.tokens[s.calls[e.call].presented].family == token.family)
  {
  }

  lemma {:induction false} IssueKept(s: State, e: Event, id: RowId)
    requires id in s.tokens
    ensures var a, b := s.tokens[id], Step(s, e).tokens[id];
      id in Step(s, e).tokens && b.user == a.user && b.family == a.family && b.expiresAt == a.expiresAt
  {
  }

  lemma {:induction false} PresentedBefore(trace: seq<Event>, e: Event, call: RowId, p: RowId, i: int)
    requires PresentedAt(trace, call, p, i)
    ensures PresentedAt(trace + [e], call, p, i)
  {
    assert (trace + [e])[..i] == trace[..i] && (trace + [e])[i] == trace[i];
  }

  lemma {:induction false} IssuedBefore(trace: seq<Event>, e: Event, id: RowId, a: Token, b: Token, i: int)
    requires IssuedAt(trace, id, a, i) && b.user == a.user && b.family == a.family && b.expiresAt == a.expiresAt
    ensures IssuedAt(trace + [e], id, b, i)
  {
    assert (trace + [e])[..i] == trace[..i] && (trace + [e])[i] == trace[i];
    if p, j :| RotatedAt(trace, id, a, p, j, i) {
      PresentedBefore(trace, e, trace[i].call, p, j);
      assert RotatedAt(trace + [e], id, b, p, j, i);
    }
  }

  lemma {:induction false} IssuedNow(trace: seq<Event>, e: Event, id: RowId)
    requires id in Run(trace + [e]).tokens && id !in Run(trace).tokens
    ensures IssuedAt(trace + [e], id, Run(trace + [e]).tokens[id], |trace|)
  {
    RunMore(trace, e);
    NewToken(Run(trace), e, id);
    assert (trace + [e])[..|trace|] == trace;
    if e.RotateCreateEvent? {
      var p := Run(trace).calls[e.call].presented;
      var j := RotationsWerePresented(trace, e.call, p);
      PresentedBefore(trace, e, e.call, p, j);
      assert RotatedAt(trace + [e], id, Run(trace + [e]).tokens[id], p, j, |trace|);
    }
  }

  /**
   Every token comes from a login or from a rotation, in which an unrevoked and unexpired token of
   its user and family was presented; it expires when that said.
   */
  lemma {:induction false} TokensAreIssued(trace: seq<Event>, id: RowId) returns (i: int)
    requires id in Run(trace).tokens
    ensures IssuedAt(trace, id, Run(trace).tokens[id], i)
  {
    var before, e := trace[..|trace| - 1], trace[|trace| - 1];
    assert trace == before + [e];
    if id in Run(before).tokens {
      i := TokensAreIssued(before, id);
      IssueKept(Run(before), e, id);
      IssuedBefore(before, e, id, Run(before).tokens[id], Run(trace).tokens[id], i);
    } else {
      i := |before|;
      IssuedNow(before, e, id);
    }
  }

  // Resets

  /** The link was asked for at step f, and it expires as was said then. */
  ghost predicate AskedAt(trace: seq<Event>, record: RowId, row: Reset, f: int) {
    0 <= f < |trace| && trace[f] == ForgotEvent(row.user, record, row.expiresAt)
  }

  lemma {:induction false} LinksWereAsked(trace: seq<Event>, record: RowId) returns (f: int)
    requires record in Run(trace).resets
    ensures AskedAt(trace, record, Run(trace).resets[record], f)
  {
    var before, e := trace[..|trace| - 1], trace[|trace| - 1];
    f := |before|;
    if record in Run(before).resets {
      f := LinksWereAsked(before, record);
      LinkKept(Run(before), e, record);
    } else {
      NewLink(Run(before), e, record);
    }
  }

  lemma {:induction false} NewLink(s: State, e: Event, record: RowId)
    requires record in Step(s, e).resets && record !in s.resets
    ensures e == ForgotEvent(Step(s, e).resets[record].user, record, Step(s, e).resets[record].expiresAt)
  {
  }

  lemma {:induction false} LinkKept(s: State, e: Event, record: RowId)
    requires record in s.resets
    ensures record in Step(s, e).resets && Step(s, e).resets[record].user == s.resets[record].user
    ensures Step(s, e).resets[record].expiresAt == s.resets[record].expiresAt
  {
  }

  predicate Resets(s: State, call: RowId, record: RowId) {
    call in s.calls && s.calls[call] == Resetting(record)
  }

  /** The link was asked for at step f; at step i, in time and unused, the call presented it. */
  ghost predicate LinkPresentedAt(trace: seq<Event>, call: RowId, record: RowId, f: int, i: int) {
    && 0 <= f < i < |trace| && trace[f].ForgotEvent? && trace[f].id == record
    && trace[i].ResetCheckEvent? && trace[i].call == call && trace[i].record == record
    && trace[i].now <= trace[f].expiresAt
    && record in Run(trace[..i]).resets && Run(trace[..i]).resets[record].usedAt.None?
  }

  lemma {:induction false} NewReset(s: State, e: Event, call: RowId, record: RowId)
    requires Resets(Step(s, e), call, record) && !Resets(s, call, record)
    ensures e.ResetCheckEvent? && e.call == call && e.record == record
    ensures record in s.resets && s.resets[record].usedAt.None? && e.now <= s.resets[record].expiresAt
  {
  }

  lemma {:induction false} ResetsWerePresented(trace: seq<Event>, call: RowId, record: RowId) returns (f: int, i: int)
    requires Resets(Run(trace), call, record)
    ensures LinkPresentedAt(trace, call, record, f, i)
  {
    var before, e := trace[..|trace| - 1], trace[|trace| - 1];
    if Resets(Run(before), call, record) {
      f, i := ResetsWerePresented(before, call, record);
      assert before[..i] == trace[..i] && before[i] == trace[i] && before[f] == trace[f];
    } else {
      i := |before|;
      NewReset(Run(before), e, call, record);
      f := LinksWereAsked(before, record);
      assert trace[..i] == before && before[f] == trace[f];
    }
  }

  /** Every reset that is accepted presented its link before, unused then and not past the expiry it was sent with. */
  lemma {:induction false} AcceptedResetsWereInTime(trace: seq<Event>, e: Event, record: RowId) returns (f: int, i: int)
    requires CommitsRecord(Run(trace), e, record)
    ensures LinkPresentedAt(trace, e.call, record, f, i)
  {
    f, i := ResetsWerePresented(trace, e.call, record);
  }
}
