/** The shape of a family of refresh tokens, and the races that spoil it. */
module RefreshPaths {
  import opened Text
  import opened Entities
  import opened RefreshTokens

  /** The tokens issued to a family, in order of issue. */
  function Issued(trace: seq<Event>, family: string): seq<RowId> {
    if trace == [] then []
    else
      var before, e := trace[..|trace| - 1], trace[|trace| - 1];
      if Opens(Run(before), e, family) || Creates(Run(before), e, family)
      then Issued(before, family) + [e.id] else Issued(before, family)
  }

  function Rotations(trace: seq<Event>, family: string): nat {
    if trace == [] then 0
    else
      var before, e := trace[..|trace| - 1], trace[|trace| - 1];
      Rotations(before, family) + One(Creates(Run(before), e, family))
  }

  lemma {:induction false} IssuedMore(trace: seq<Event>, e: Event, family: string)
    ensures Issued(trace + [e], family) == Issued(trace, family)
            + if Opens(Run(trace), e, family) || Creates(Run(trace), e, family) then [e.id] else []
    ensures Rotations(trace + [e], family) == Rotations(trace, family) + One(Creates(Run(trace), e, family))
  {
    assert (trace + [e])[..|trace|] == trace;
  }

  // The tokens of a family

  /** The list is the family: its tokens, each once, all of one user. */
  ghost predicate IsFamily(s: State, family: string, list: seq<RowId>) {
    && Distinct(list)
    && (forall id :: InFamily(s, id, family) <==> id in list)
    && (forall i, j :: 0 <= i < |list| && 0 <= j < |list| ==> OfOneUser(s, list[i], list[j]))
  }

  ghost predicate OfOneUser(s: State, a: RowId, b: RowId) {
    a in s.tokens && b in s.tokens && s.tokens[a].user == s.tokens[b].user
  }

  lemma {:induction false} NewMember(s: State, e: Event, family: string)
    requires Opens(s, e, family) || Creates(s, e, family)
    ensures e.id !in s.tokens && InFamily(Step(s, e), e.id, family)
    ensures forall id :: id != e.id ==> (InFamily(Step(s, e), id, family) <==> InFamily(s, id, family))
  {
    StepKeeps(s, e);
  }

  lemma {:induction false} NoNewMember(s: State, e: Event, family: string)
    requires !Opens(s, e, family) && !Creates(s, e, family)
    ensures forall id :: InFamily(Step(s, e), id, family) <==> InFamily(s, id, family)
  {
    StepKeeps(s, e);
    forall id
      ensures InFamily(Step(s, e), id, family) <==> InFamily(s, id, family)
    {
      if InFamily(Step(s, e), id, family) && id !in s.tokens {
        NewTokens(s, e, id);
      }
    }
  }

  lemma {:induction false} MembersOfIssued(trace: seq<Event>, family: string)
    ensures Distinct(Issued(trace, family))
    ensures forall id :: InFamily(Run(trace), id, family) <==> id in Issued(trace, family)
  {
    if trace != [] {
      var before, e := trace[..|trace| - 1], trace[|trace| - 1];
      MembersOfIssued(before, family);
      if Opens(Run(before), e, family) || Creates(Run(before), e, family) {
        NewMember(Run(before), e, family);
        assert !InFamily(Run(before), e.id, family);
      } else {
        NoNewMember(Run(before), e, family);
      }
    }
  }

  /** After every run, the tokens issued to a family are its tokens, each once, all of one user. */
  lemma {:induction false} IssuedIsFamily(trace: seq<Event>, family: string)
    ensures IsFamily(Run(trace), family, Issued(trace, family))
  {
    MembersOfIssued(trace, family);
    RunFits(trace);
    var s, list := Run(trace), Issued(trace, family);
    forall i, j | 0 <= i < |list| && 0 <= j < |list|
      ensures OfOneUser(s, list[i], list[j])
    {
      assert InFamily(s, list[i], family) && InFamily(s, list[j], family);
    }
  }

  /** A used family has one token more than rotations have created in it. */
  lemma {:induction false} FamilySize(trace: seq<Event>, family: string)
    ensures |Issued(trace, family)| == Rotations(trace, family) + One(FamilyUsed(Run(trace), family))
  {
    if trace != [] {
      var before, e := trace[..|trace| - 1], trace[|trace| - 1];
      FamilySize(before, family);
      UsedMeansIssued(before, family);
      UsedMeansIssued(trace, family);
    }
  }

  lemma {:induction false} UsedMeansIssued(trace: seq<Event>, family: string)
    ensures FamilyUsed(Run(trace), family) <==> Issued(trace, family) != []
  {
    MembersOfIssued(trace, family);
    var s, list := Run(trace), Issued(trace, family);
    if FamilyUsed(s, family) {
      var id :| id in s.tokens && InFamily(s, id, family);
      assert id in list;
    }
    if list != [] {
      assert list[0] in list && InFamily(s, list[0], family);
    }
  }

  // From a token to its successor

  predicate Links(s: State, call: RowId, a: RowId, b: RowId) {
    call in s.calls && s.calls[call] == Linking(a, b)
  }

  /** `a` is revoked and linked to `b`, or a call is about to do that. */
  ghost predicate Succeeds(s: State, a: RowId, b: RowId) {
    || (a in s.tokens && s.tokens[a].replacedBy == Some(b))
    || exists call :: Links(s, call, a, b)
  }

  /** A successor has one predecessor, and one call at most that is about to link it. */
  ghost predicate OnePredecessor(s: State) {
    && (forall a, b, n :: Succeeds(s, a, n) && Succeeds(s, b, n) ==> a == b)
    && (forall c, d, a, n :: Links(s, c, a, n) && Links(s, d, a, n) ==> c == d)
    && (forall c, a, n :: Links(s, c, a, n) && a in s.tokens ==> s.tokens[a].replacedBy != Some(n))
  }

  /** Links lead to tokens there are. */
  ghost predicate LinksFit(s: State) {
    forall a, n :: Succeeds(s, a, n) ==>
      a in s.tokens && n in s.tokens && s.tokens[a].family == s.tokens[n].family
  }

  /** A token that has been replaced is revoked. */
  ghost predicate ReplacedAreRevoked(s: State) {
    forall a :: a in s.tokens && s.tokens[a].replacedBy.Some? ==> s.tokens[a].revokedAt.Some?
  }

  lemma {:induction false} StepKeepsRevoked(s: State, e: Event)
    requires ReplacedAreRevoked(s)
    ensures ReplacedAreRevoked(Step(s, e))
  {
    StepKeeps(s, e);
    forall a | a in Step(s, e).tokens && Step(s, e).tokens[a].replacedBy.Some?
      ensures Step(s, e).tokens[a].revokedAt.Some?
    {
      if a !in s.tokens {
        NewTokens(s, e, a);
      }
    }
  }

  lemma {:induction false} ReplacedIsRevoked(trace: seq<Event>)
    ensures ReplacedAreRevoked(Run(trace))
  {
    if trace != [] {
      ReplacedIsRevoked(trace[..|trace| - 1]);
      StepKeepsRevoked(Run(trace[..|trace| - 1]), trace[|trace| - 1]);
    }
  }

  /** The token is revoked, or a call that has created its successor is about to revoke it. */
  predicate Spent(s: State, id: RowId) {
    id in s.tokens && (s.tokens[id].revokedAt.Some? || BeingReplaced(s, id))
  }

  predicate BeingReplaced(s: State, id: RowId) {
    exists call :: call in s.calls && Replaces(s.calls[call], id)
  }

  predicate Replaces(c: Call, id: RowId) {
    c.Linking? && c.presented == id
  }

  /** A token that has a successor is revoked, or just about to be. */
  lemma {:induction false} SucceededIsSpent(trace: seq<Event>, a: RowId, n: RowId)
    requires Succeeds(Run(trace), a, n)
    ensures Spent(Run(trace), a)
  {
    var s := Run(trace);
    ReplacedIsRevoked(trace);
    RunFits(trace);
    if call :| Links(s, call, a, n) {
      assert Replaces(s.calls[call], a);
    }
  }

  /** No step but a creation makes a token succeed another. */
  lemma {:induction false} SucceedsOnlyByCreation(s: State, e: Event, a: RowId, n: RowId)
    requires CallsFit(s) && Succeeds(Step(s, e), a, n)
    ensures || Succeeds(s, a, n)
            || (e.RotateCreateEvent? && e.id == n && n !in s.tokens && Links(Step(s, e), e.call, a, n))
  {
    var s' := Step(s, e);
    if call :| Links(s', call, a, n) {
      if call in s.calls && s.calls[call] == s'.calls[call] {
        assert Links(s, call, a, n);
      }
    } else if e.RotateLinkEvent? {
      if a in s.tokens && s.tokens[a].replacedBy != Some(n) {
        assert Links(s, e.call, a, n);
      }
    }
  }

  ghost predicate Linked(s: State) {
    CallsFit(s) && LinksFit(s) && OnePredecessor(s)
  }

  lemma {:induction false} FreshHasNoPredecessor(s: State, a: RowId, n: RowId)
    requires LinksFit(s) && n !in s.tokens
    ensures !Succeeds(s, a, n)
  {
  }

  lemma {:induction false} StepKeepsLinksFit(s: State, e: Event)
    requires CallsFit(s) && LinksFit(s)
    ensures LinksFit(Step(s, e))
  {
    var s' := Step(s, e);
    StepKeepsCalls(s, e);
    StepKeeps(s, e);
    forall a, n | Succeeds(s', a, n)
      ensures a in s'.tokens && n in s'.tokens && s'.tokens[a].family == s'.tokens[n].family
    {
      SucceedsOnlyByCreation(s, e, a, n);
    }
  }

  lemma {:induction false} StepKeepsOne(s: State, e: Event, a: RowId, b: RowId, n: RowId)
    requires Linked(s) && Succeeds(Step(s, e), a, n) && Succeeds(Step(s, e), b, n)
    ensures a == b
  {
    SucceedsOnlyByCreation(s, e, a, n);
    SucceedsOnlyByCreation(s, e, b, n);
    if n !in s.tokens {
      FreshHasNoPredecessor(s, a, n);
      FreshHasNoPredecessor(s, b, n);
    }
  }

  lemma {:induction false} NewLinkIsFresh(s: State, e: Event, c: RowId, a: RowId, n: RowId)
    requires Links(Step(s, e), c, a, n) && !Links(s, c, a, n)
    ensures e.RotateCreateEvent? && e.call == c && e.id == n && n !in s.tokens
  {
  }

  lemma {:induction false} StepKeepsOneCall(s: State, e: Event, c: RowId, d: RowId, a: RowId, n: RowId)
    requires Linked(s) && Links(Step(s, e), c, a, n) && Links(Step(s, e), d, a, n)
    ensures c == d
  {
    assert Links(s, c, a, n) || Links(s, d, a, n) ==> Succeeds(s, a, n);
    if !Links(s, c, a, n) {
      NewLinkIsFresh(s, e, c, a, n);
    }
    if !Links(s, d, a, n) {
      NewLinkIsFresh(s, e, d, a, n);
    }
  }

  lemma {:induction false} StepKeepsUndone(s: State, e: Event, c: RowId, a: RowId, n: RowId)
    requires Linked(s) && Links(Step(s, e), c, a, n) && a in Step(s, e).tokens
    ensures Step(s, e).tokens[a].replacedBy != Some(n)
  {
    if Step(s, e).tokens[a].replacedBy == Some(n) {
      if Links(s, c, a, n) {
        assert e.RotateLinkEvent? && Links(s, e.call, a, n);
      } else {
        assert a in s.tokens && s.tokens[a].replacedBy == Some(n);
        assert Succeeds(s, a, n);
      }
      assert false;
    }
  }

  lemma {:induction false} StepKeepsLinked(s: State, e: Event)
    requires Linked(s)
    ensures Linked(Step(s, e))
  {
    var s' := Step(s, e);
    StepKeepsCalls(s, e);
    StepKeepsLinksFit(s, e);
    forall a, b, n | Succeeds(s', a, n) && Succeeds(s', b, n)
      ensures a == b
    {
      StepKeepsOne(s, e, a, b, n);
    }
    forall c, d, a, n | Links(s', c, a, n) && Links(s', d, a, n)
      ensures c == d
    {
      StepKeepsOneCall(s, e, c, d, a, n);
    }
    forall c, a, n | Links(s', c, a, n) && a in s'.tokens
      ensures s'.tokens[a].replacedBy != Some(n)
    {
      StepKeepsUndone(s, e, c, a, n);
    }
  }

  lemma {:induction false} RunIsLinked(trace: seq<Event>)
    ensures Linked(Run(trace))
  {
    if trace != [] {
      RunIsLinked(trace[..|trace| - 1]);
      StepKeepsLinked(Run(trace[..|trace| - 1]), trace[|trace| - 1]);
    }
  }

  lemma {:induction false} FirstHasNoPredecessor(trace: seq<Event>, family: string, a: RowId)
    requires Issued(trace, family) != []
    ensures !Succeeds(Run(trace), a, Issued(trace, family)[0])
  {
    var before, e := trace[..|trace| - 1], trace[|trace| - 1];
    var first := Issued(trace, family)[0];
    RunIsLinked(before);
    MembersOfIssued(before, family);
    UsedMeansIssued(before, family);
    if Issued(before, family) != [] {
      FirstHasNoPredecessor(before, family, a);
      assert first in Issued(before, family);
    } else {
      FreshHasNoPredecessor(Run(before), a, first);
      assert Creates(Run(before), e, family) ==> FamilyUsed(Run(before), family);
    }
    if Succeeds(Run(trace), a, first) {
      SucceedsOnlyByCreation(Run(before), e, a, first);
    }
  }
}
