/** Whose words a standup has: those of its submission, or of the last edit that gave any. */
module StandupTexts {
  import opened Text
  import opened Entities
  import opened Standups

  datatype Part = OfYesterday | OfToday | OfBlockers

  function TextOf(row: Standup, part: Part): Option<string> {
    match part
    case OfYesterday => Some(row.yesterday)
    case OfToday => Some(row.today)
    case OfBlockers => row.blockers
  }

  /** What a request gives for a part of a row, if anything. */
  function Asked(e: Event, id: RowId, part: Part): Option<Option<string>> {
    match e
    case SubmitCheck(_, own, _, _, dto, _) =>
      if own != id then None
      else
        (match part
         case OfYesterday => Some(Some(dto.yesterday))
         case OfToday => Some(Some(dto.today))
         case OfBlockers => Some(dto.blockers))
    case UpdateCheck(_, own, _, change, _) => if own == id then Given(change, part) else None
    case Write(_, _) => None
  }

  function Given(change: Change, part: Part): Option<Option<string>> {
    match part
    case OfYesterday => if change.yesterday.Some? then Some(change.yesterday) else None
    case OfToday => if change.today.Some? then Some(change.today) else None
    case OfBlockers => if change.blockers.Some? then Some(change.blockers) else None
  }

  /** What a step writes to a part of a row, if anything. */
  function Writes(s: State, e: Event, id: RowId, part: Part): Option<Option<string>> {
    if !e.Write? || e.at < s.now || e.call !in s.pending then None
    else
      match s.pending[e.call]
      case Creating(row) =>
        if row.id == id && id !in s.rows && !SlotTaken(s.rows, row) then Some(TextOf(row, part)) else None
      case Editing(edited, change) => if edited == id && id in s.rows then Given(change, part) else None
  }

  lemma {:induction false} StepWrites(w: World, s: State, e: Event, id: RowId, part: Part)
    requires id in Step(w, s, e).rows
    ensures Writes(s, e, id, part).None? ==>
      id in s.rows && TextOf(Step(w, s, e).rows[id], part) == TextOf(s.rows[id], part)
    ensures Writes(s, e, id, part).Some? ==> TextOf(Step(w, s, e).rows[id], part) == Writes(s, e, id, part).value
  {
  }

  /** The request put the call in hand at step i, and there it has been since. */
  ghost predicate AskedAt(w: World, trace: seq<Event>, call: string, p: Pending, i: int) {
    && 0 <= i < |trace| && trace[i].call == call && Run(w, trace[..i]).now <= trace[i].at
    && match p
       case Creating(row) =>
         && trace[i].SubmitCheck? && Open(w, trace[i].team)
         && SubmitError(w, Run(w, trace[..i]).rows, trace[i].id, trace[i].team, trace[i].user, trace[i].dto,
                        trace[i].at) == None
         && row == NewRow(w, trace[i].id, trace[i].team, trace[i].user, trace[i].dto, trace[i].at)
       case Editing(id, change) =>
         && trace[i].UpdateCheck? && trace[i].id == id && trace[i].change == change
         && UpdateError(w, Run(w, trace[..i]).rows, id, trace[i].user, trace[i].at) == None
  }

  lemma {:induction false} NewPending(w: World, s: State, e: Event, call: string)
    requires call in Step(w, s, e).pending
    requires call !in s.pending || s.pending[call] != Step(w, s, e).pending[call]
    ensures e.call == call && s.now <= e.at
    ensures match Step(w, s, e).pending[call]
      case Creating(row) =>
        && e.SubmitCheck? && Open(w, e.team) && row == NewRow(w, e.id, e.team, e.user, e.dto, e.at)
        && SubmitError(w, s.rows, e.id, e.team, e.user, e.dto, e.at) == None
      case Editing(id, change) =>
        e.UpdateCheck? && e.id == id && e.change == change && UpdateError(w, s.rows, id, e.user, e.at) == None
  {
  }

  lemma {:induction false} PendingWasAsked(w: World, trace: seq<Event>, call: string) returns (i: int)
    requires call in Run(w, trace).pending
    ensures AskedAt(w, trace, call, Run(w, trace).pending[call], i)
  {
    var before, e := trace[..|trace| - 1], trace[|trace| - 1];
    var p := Run(w, trace).pending[call];
    if call in Run(w, before).pending && Run(w, before).pending[call] == p {
      i := PendingWasAsked(w, before, call);
      assert before[..i] == trace[..i] && before[i] == trace[i];
    } else {
      i := |before|;
      NewPending(w, Run(w, before), e, call);
      assert trace[..i] == before;
    }
  }

  /** The request at step i gave the part of the row, and the write at step k put it there. */
  ghost predicate GivenAt(w: World, trace: seq<Event>, id: RowId, part: Part, text: Option<string>, i: int, k: int) {
    && 0 <= i < k < |trace| && trace[k].Write? && trace[k].call == trace[i].call
    && Asked(trace[i], id, part) == Some(text) && Writes(Run(w, trace[..k]), trace[k], id, part) == Some(text)
  }

  /** No step from the k-th on writes to the part. */
  ghost predicate NoneSince(w: World, trace: seq<Event>, id: RowId, part: Part, k: int) {
    forall j :: 0 <= k < j < |trace| ==> Writes(Run(w, trace[..j]), trace[j], id, part).None?
  }

  lemma {:induction false} JustGiven(w: World, trace: seq<Event>, e: Event, id: RowId, part: Part) returns (i: int)
    requires Writes(Run(w, trace), e, id, part).Some?
    ensures GivenAt(w, trace + [e], id, part, Writes(Run(w, trace), e, id, part).value, i, |trace|)
    ensures NoneSince(w, trace + [e], id, part, |trace|)
  {
    i := PendingWasAsked(w, trace, e.call);
    assert (trace + [e])[..|trace|] == trace && (trace + [e])[i] == trace[i];
  }

  lemma {:induction false} GivenBefore(w: World, trace: seq<Event>, e: Event, id: RowId, part: Part,
                                       text: Option<string>, i: int, k: int)
    requires GivenAt(w, trace, id, part, text, i, k) && NoneSince(w, trace, id, part, k)
    requires Writes(Run(w, trace), e, id, part).None?
    ensures GivenAt(w, trace + [e], id, part, text, i, k) && NoneSince(w, trace + [e], id, part, k)
  {
    var longer := trace + [e];
    assert longer[..k] == trace[..k] && longer[k] == trace[k] && longer[i] == trace[i];
    forall j | k < j < |longer|
      ensures Writes(Run(w, longer[..j]), longer[j], id, part).None?
    {
      if j < |trace| {
        assert longer[..j] == trace[..j] && longer[j] == trace[j];
      } else {
        assert longer[..j] == trace;
      }
    }
  }

  /** Each text of a standup is the one given by its submission, or by the last edit that gave one. */
  lemma {:induction false} TextsAreGiven(w: World, trace: seq<Event>, id: RowId, part: Part) returns (i: int, k: int)
    requires id in Run(w, trace).rows
    ensures GivenAt(w, trace, id, part, TextOf(Run(w, trace).rows[id], part), i, k)
    ensures NoneSince(w, trace, id, part, k)
  {
    var before, e := trace[..|trace| - 1], trace[|trace| - 1];
    assert trace == before + [e];
    StepWrites(w, Run(w, before), e, id, part);
    if Writes(Run(w, before), e, id, part).Some? {
      i := JustGiven(w, before, e, id, part);
      k := |before|;
    } else {
      i, k := TextsAreGiven(w, before, id, part);
      GivenBefore(w, before, e, id, part, TextOf(Run(w, before).rows[id], part), i, k);
    }
  }

  /** Every standup was submitted under its id by its user to its team, on the day and with the lateness it has. */
  lemma {:induction false} RowsAreSubmitted(w: World, trace: seq<Event>, id: RowId) returns (i: int)
    requires id in Run(w, trace).rows
    ensures 0 <= i < |trace| && trace[i].SubmitCheck? && trace[i].id == id && Open(w, trace[i].team)
    ensures var row, e := Run(w, trace).rows[id], trace[i];
      && row.team == e.team && row.user == e.user && row.day == w.local(e.team, e.at).day
      && (row.isLate <==> PastDeadline(w, e.team, e.at))
  {
    var before, e := trace[..|trace| - 1], trace[|trace| - 1];
    if id in Run(w, before).rows {
      i := RowsAreSubmitted(w, before, id);
      StepEvolves(w, Run(w, before), e);
    } else {
      i := PendingWasAsked(w, before, e.call);
      LateMeansPastDeadline(w, trace[i].id, trace[i].team, trace[i].user, trace[i].dto, trace[i].at);
    }
  }
}
