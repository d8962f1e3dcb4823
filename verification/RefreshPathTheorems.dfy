/** A family is one path from its login on, exactly if no race disturbed its rotations. */
module RefreshPathTheorems {
  import opened Text
  import opened Entities
  import opened RefreshTokens
  import opened RefreshPaths

  ghost predicate HasSuccessor(s: State, a: RowId) {
    exists n :: Succeeds(s, a, n)
  }

  /**
   A rotation creates a second successor of its token, or a call dies before linking the
   successor it has created.
   */
  ghost predicate Disturbs(s: State, e: Event, family: string) {
    || (Creates(s, e, family) && HasSuccessor(s, s.calls[e.call].presented))
    || (e.CallDiesEvent? && e.call in s.calls && s.calls[e.call].Linking?
        && InFamily(s, s.calls[e.call].presented, family))
  }

  ghost predicate Undisturbed(trace: seq<Event>, family: string) {
    trace != [] ==>
      && Undisturbed(trace[..|trace| - 1], family)
      && !Disturbs(Run(trace[..|trace| - 1]), trace[|trace| - 1], family)
  }

  /** Each token of the list is succeeded by the next. */
  ghost predicate Chain(s: State, list: seq<RowId>) {
    forall i :: 0 <= i < |list| - 1 ==> Succeeds(s, list[i], list[i + 1])
  }

  /** What the chain of a family means for its members' order. */
  lemma {:induction false} SuccessorIsNext(trace: seq<Event>, family: string, i: nat, n: RowId)
    requires Chain(Run(trace), Issued(trace, family)) && i < |Issued(trace, family)|
    requires Succeeds(Run(trace), Issued(trace, family)[i], n)
    ensures i < |Issued(trace, family)| - 1 && n == Issued(trace, family)[i + 1]
  {
    var s, list := Run(trace), Issued(trace, family);
    MembersOfIssued(trace, family);
    RunIsLinked(trace);
    assert InFamily(s, list[i], family);
    assert InFamily(s, n, family);
    var j :| 0 <= j < |list| && list[j] == n;
    FirstHasNoPredecessor(trace, family, list[i]);
    assert j > 0;
    assert Succeeds(s, list[j - 1], list[(j - 1) + 1]);
    assert list[j - 1] == list[i];
    assert i == j - 1;
  }

  lemma {:induction false} SuccessionStays(s: State, e: Event, a: RowId, n: RowId)
    requires Succeeds(s, a, n) && LinksFit(s)
    requires forall m :: Succeeds(s, a, m) ==> m == n
    requires !(e.CallDiesEvent? && Links(s, e.call, a, n))
    ensures Succeeds(Step(s, e), a, n)
  {
    var s' := Step(s, e);
    StepKeeps(s, e);
    if a in s.tokens && s.tokens[a].replacedBy == Some(n) {
      if s'.tokens[a].replacedBy != Some(n) {
        assert e.RotateLinkEvent? && Links(s, e.call, a, s.calls[e.call].successor);
        assert Succeeds(s, a, s.calls[e.call].successor);
      }
    } else {
      var call :| Links(s, call, a, n);
      assert Links(s', call, a, n) || s'.tokens[a].replacedBy == Some(n);
    }
  }

  lemma {:induction false} GapStays(s: State, e: Event, a: RowId, n: RowId)
    requires CallsFit(s) && n in s.tokens && !Succeeds(s, a, n)
    ensures !Succeeds(Step(s, e), a, n)
  {
    if Succeeds(Step(s, e), a, n) {
      SucceedsOnlyByCreation(s, e, a, n);
    }
  }

  lemma {:induction false} BrokenStaysBroken(trace: seq<Event>, e: Event, family: string)
    requires !Chain(Run(trace), Issued(trace, family))
    ensures !Chain(Run(trace + [e]), Issued(trace + [e], family))
  {
    var s, list, longer := Run(trace), Issued(trace, family), Issued(trace + [e], family);
    RunMore(trace, e);
    IssuedMore(trace, e, family);
    MembersOfIssued(trace, family);
    RunFits(trace);
    var i :| 0 <= i < |list| - 1 && !Succeeds(s, list[i], list[i + 1]);
    assert list[i + 1] in list && InFamily(s, list[i + 1], family);
    GapStays(s, e, list[i], list[i + 1]);
    assert longer[i] == list[i] && longer[i + 1] == list[i + 1];
  }

  lemma {:induction false} SecondSuccessorBreaks(trace: seq<Event>, e: Event, family: string)
    requires Creates(Run(trace), e, family) && HasSuccessor(Run(trace), Run(trace).calls[e.call].presented)
    ensures !Chain(Run(trace + [e]), Issued(trace + [e], family))
  {
    var s, list, s' := Run(trace), Issued(trace, family), Run(trace + [e]);
    var p := s.calls[e.call].presented;
    RunMore(trace, e);
    IssuedMore(trace, e, family);
    if !Chain(s, list) {
      BrokenStaysBroken(trace, e, family);
    } else {
      MembersOfIssued(trace, family);
      RunIsLinked(trace + [e]);
      assert p in list;
      var i :| 0 <= i < |list| && list[i] == p;
      var n :| Succeeds(s, p, n);
      SuccessorIsNext(trace, family, i, n);
      assert Links(s', e.call, p, e.id);
      var last := |list| - 1;
      assert !Succeeds(s', list[last], e.id) by {
        assert Succeeds(s', p, e.id) && list[last] != p;
      }
      var longer := Issued(trace + [e], family);
      assert longer == list + [e.id];
      assert longer[last] == list[last] && longer[last + 1] == e.id;
    }
  }

  lemma {:induction false} DeadLinkBreaks(trace: seq<Event>, e: Event, family: string)
    requires e.CallDiesEvent? && e.call in Run(trace).calls && Run(trace).calls[e.call].Linking?
    requires InFamily(Run(trace), Run(trace).calls[e.call].presented, family)
    ensures !Chain(Run(trace + [e]), Issued(trace + [e], family))
  {
    var s, list, s' := Run(trace), Issued(trace, family), Run(trace + [e]);
    var Linking(a, n) := s.calls[e.call];
    RunMore(trace, e);
    IssuedMore(trace, e, family);
    if !Chain(s, list) {
      BrokenStaysBroken(trace, e, family);
    } else {
      MembersOfIssued(trace, family);
      RunIsLinked(trace);
      assert a in list;
      var i :| 0 <= i < |list| && list[i] == a;
      assert Links(s, e.call, a, n);
      SuccessorIsNext(trace, family, i, n);
      assert !Succeeds(s', a, n) by {
        if call :| Links(s', call, a, n) {
          assert Links(s, call, a, n);
        }
      }
    }
  }

  lemma {:induction false} EndOfChain(s: State, list: seq<RowId>, i: nat)
    requires Chain(s, list) && i < |list|
    ensures HasSuccessor(s, list[i]) || i == |list| - 1
  {
    if i < |list| - 1 {
      assert Succeeds(s, list[i], list[i + 1]);
    }
  }

  lemma {:induction false} ChainGrows(trace: seq<Event>, e: Event, family: string)
    requires Chain(Run(trace), Issued(trace, family)) && !Disturbs(Run(trace), e, family)
    ensures Chain(Run(trace + [e]), Issued(trace + [e], family))
  {
    var s, list, s', longer := Run(trace), Issued(trace, family), Run(trace + [e]), Issued(trace + [e], family);
    RunMore(trace, e);
    IssuedMore(trace, e, family);
    MembersOfIssued(trace, family);
    RunIsLinked(trace);
    forall i | 0 <= i < |list| - 1
      ensures Succeeds(s', list[i], list[i + 1])
    {
      forall m | Succeeds(s, list[i], m)
        ensures m == list[i + 1]
      {
        SuccessorIsNext(trace, family, i, m);
      }
      assert list[i] in list && InFamily(s, list[i], family);
      SuccessionStays(s, e, list[i], list[i + 1]);
    }
    if Creates(s, e, family) {
      var p := s.calls[e.call].presented;
      assert p in list;
      var i :| 0 <= i < |list| && list[i] == p;
      EndOfChain(s, list, i);
      assert Links(s', e.call, p, e.id);
      assert longer == list + [e.id];
    } else if Opens(s, e, family) {
      UsedMeansIssued(trace, family);
    }
  }

  lemma {:induction false} ChainExactly(trace: seq<Event>, family: string)
    ensures Chain(Run(trace), Issued(trace, family)) <==> Undisturbed(trace, family)
  {
    if trace != [] {
      var before, e := trace[..|trace| - 1], trace[|trace| - 1];
      assert trace == before + [e];
      ChainExactly(before, family);
      if !Undisturbed(before, family) {
        BrokenStaysBroken(before, e, family);
      } else if Creates(Run(before), e, family) && HasSuccessor(Run(before), Run(before).calls[e.call].presented) {
        SecondSuccessorBreaks(before, e, family);
      } else if Disturbs(Run(before), e, family) {
        DeadLinkBreaks(before, e, family);
      } else {
        ChainGrows(before, e, family);
      }
    }
  }

  /** A chain whose every token but the last is revoked, or just about to be. */
  ghost predicate Path(s: State, list: seq<RowId>) {
    Chain(s, list) && forall i :: 0 <= i < |list| - 1 ==> Spent(s, list[i])
  }

  /**
   The tokens of a family are one path in order of issue, each but the last succeeded by the next
   and revoked, exactly if no token was given two successors and no call died between creating
   and linking one.
   */
  lemma {:induction false} FamilyIsPath(trace: seq<Event>, family: string)
    ensures Path(Run(trace), Issued(trace, family)) <==> Undisturbed(trace, family)
  {
    var list := Issued(trace, family);
    ChainExactly(trace, family);
    if Chain(Run(trace), list) {
      forall i | 0 <= i < |list| - 1
        ensures Spent(Run(trace), list[i])
      {
        SucceededIsSpent(trace, list[i], list[i + 1]);
      }
    }
  }

  // Tokens that could still be rotated

  /** Live, and not about to be revoked by a call that has created its successor. */
  predicate Usable(s: State, id: RowId, family: string) {
    InFamily(s, id, family) && Live(s, id) && !BeingReplaced(s, id)
  }

  lemma {:induction false} SameUsable(s: State, s': State, id: RowId, family: string)
    requires s'.calls == s.calls && id in s.tokens && id in s'.tokens && s'.tokens[id] == s.tokens[id]
    ensures Usable(s', id, family) <==> Usable(s, id, family)
  {
  }

  ghost predicate AtMostOneUsable(s: State, family: string) {
    forall a, b :: Usable(s, a, family) && Usable(s, b, family) ==> a == b
  }

  ghost predicate NoneUsable(s: State, family: string) {
    forall a :: !Usable(s, a, family)
  }

  /**
   A rotation creates a successor of a token that has been revoked or given another successor
   since its check; or a call dies and leaves a live token that it was about to revoke.
   */
  ghost predicate Overtaken(s: State, e: Event, family: string) {
    || (Creates(s, e, family) && !Usable(s, s.calls[e.call].presented, family))
    || (e.CallDiesEvent? && e.call in s.calls && s.calls[e.call].Linking?
        && Usable(Step(s, e), s.calls[e.call].presented, family))
  }

  ghost predicate AlwaysOne(trace: seq<Event>, family: string) {
    && AtMostOneUsable(Run(trace), family)
    && (trace != [] ==> AlwaysOne(trace[..|trace| - 1], family))
  }

  /** No overtaken call ever adds a usable token to one that there is. */
  ghost predicate NeverDoubled(trace: seq<Event>, family: string) {
    trace != [] ==>
      && NeverDoubled(trace[..|trace| - 1], family)
      && (Overtaken(Run(trace[..|trace| - 1]), trace[|trace| - 1], family) ==>
            NoneUsable(Run(trace[..|trace| - 1]), family))
  }

  /** Where a usable token comes from in a step. */
  lemma {:induction false} UsableComesFrom(s: State, e: Event, id: RowId, family: string)
    requires CallsFit(s) && Usable(Step(s, e), id, family)
    ensures || Usable(s, id, family)
            || ((Opens(s, e, family) || Creates(s, e, family)) && id == e.id)
            || (Overtaken(s, e, family) && e.CallDiesEvent? && id == s.calls[e.call].presented)
  {
    StepKeeps(s, e);
    if id !in s.tokens {
      NewTokens(s, e, id);
    } else if BeingReplaced(s, id) {
      var call :| call in s.calls && Replaces(s.calls[call], id);
      assert !(call in Step(s, e).calls && Replaces(Step(s, e).calls[call], id));
    }
  }

  lemma {:induction false} StepKeepsOneUsable(s: State, e: Event, family: string)
    requires CallsFit(s) && AtMostOneUsable(s, family)
    requires Overtaken(s, e, family) ==> NoneUsable(s, family)
    ensures AtMostOneUsable(Step(s, e), family)
  {
    var s' := Step(s, e);
    forall a, b | Usable(s', a, family) && Usable(s', b, family)
      ensures a == b
    {
      UsableComesFrom(s, e, a, family);
      UsableComesFrom(s, e, b, family);
      if Creates(s, e, family) {
        assert Replaces(s'.calls[e.call], s.calls[e.call].presented);
      } else if Opens(s, e, family) {
        assert Usable(s, a, family) ==> FamilyUsed(s, family);
        assert Usable(s, b, family) ==> FamilyUsed(s, family);
      }
    }
  }

  lemma {:induction false} OvertakingDoubles(s: State, e: Event, a: RowId, family: string)
    requires CallsFit(s) && Overtaken(s, e, family) && Usable(s, a, family)
    ensures !AtMostOneUsable(Step(s, e), family)
  {
    var s' := Step(s, e);
    StepKeeps(s, e);
    if Creates(s, e, family) {
      assert Usable(s', a, family);
      assert Usable(s', e.id, family);
    } else {
      var p := s.calls[e.call].presented;
      assert Replaces(s.calls[e.call], p);
      assert Usable(s', a, family);
    }
  }

  /** The call has checked the token and not yet created its successor. */
  predicate Waits(s: State, call: RowId, id: RowId) {
    call in s.calls && s.calls[call] == Rotating(id)
  }

  /** While the call has been waiting, another was replacing the token at the moment k, or the step k revoked it. */
  ghost predicate OvertakenAt(trace: seq<Event>, call: RowId, id: RowId, k: int) {
    && 0 <= k <= |trace| && (forall j :: k <= j <= |trace| ==> Waits(Run(trace[..j]), call, id))
    && (BeingReplaced(Run(trace[..k]), id)
        || (k < |trace| && Live(Run(trace[..k]), id) && !Live(Run(trace[..k + 1]), id)))
  }

  lemma {:induction false} StillOvertaken(trace: seq<Event>, e: Event, call: RowId, id: RowId, k: int)
    requires OvertakenAt(trace, call, id, k) && Waits(Run(trace + [e]), call, id)
    ensures OvertakenAt(trace + [e], call, id, k)
  {
    var longer := trace + [e];
    assert longer[..k] == trace[..k] && longer[..|longer|] == longer;
    if k < |trace| {
      assert longer[..k + 1] == trace[..k + 1];
    }
    forall j | k <= j <= |longer|
      ensures Waits(Run(longer[..j]), call, id)
    {
      if j <= |trace| {
        assert longer[..j] == trace[..j];
      }
    }
  }

  lemma {:induction false} CheckedIsLive(s: State, e: Event, call: RowId, id: RowId)
    requires Waits(Step(s, e), call, id) && !Waits(s, call, id)
    ensures Live(Step(s, e), id)
  {
  }

  /** A rotation whose token is no longer usable was overlapped by another call, which replaced or revoked it. */
  lemma {:induction false} OvertakenByOverlap(trace: seq<Event>, call: RowId, id: RowId, family: string)
    requires Waits(Run(trace), call, id) && InFamily(Run(trace), id, family) && !Usable(Run(trace), id, family)
    ensures exists k :: OvertakenAt(trace, call, id, k)
  {
    var before, e := trace[..|trace| - 1], trace[|trace| - 1];
    assert trace == before + [e] && trace[..|trace|] == trace;
    if BeingReplaced(Run(trace), id) {
      assert OvertakenAt(trace, call, id, |trace|);
    } else if !Waits(Run(before), call, id) {
      CheckedIsLive(Run(before), e, call, id);
      assert false;
    } else if Live(Run(before), id) {
      assert OvertakenAt(trace, call, id, |before|);
    } else {
      RunFits(before);
      OvertakenByOverlap(before, call, id, Run(before).tokens[id].family);
      var k :| OvertakenAt(before, call, id, k);
      StillOvertaken(before, e, call, id, k);
    }
  }

  /**
   At every moment of a run a family has at most one usable token, exactly if no call that was
   overtaken between its steps has added one to another.
   */
  lemma {:induction false} AtMostOneLive(trace: seq<Event>, family: string)
    ensures AlwaysOne(trace, family) <==> NeverDoubled(trace, family)
  {
    if trace != [] {
      var before, e := trace[..|trace| - 1], trace[|trace| - 1];
      AtMostOneLive(before, family);
      RunFits(before);
      if AlwaysOne(before, family) {
        if Overtaken(Run(before), e, family) && !NoneUsable(Run(before), family) {
          var a :| Usable(Run(before), a, family);
          OvertakingDoubles(Run(before), e, a, family);
        } else {
          StepKeepsOneUsable(Run(before), e, family);
        }
      }
    }
  }
}
