/** The weekly report (reports.service.ts): standups by member and the most frequent blockers. */
module Reports {
  import opened Text
  import opened Entities
  import opened Blockers
  import opened Rates
  import opened ReportedBlockers
  import BlockerSteps
  import BlockerRankingTheorems
  import WorkingDays

  // Standups by member

  function OfUser(standups: seq<Standup>, user: UserId): seq<Standup> {
    if standups == [] then []
    else
      var rest := OfUser(standups[..|standups| - 1], user);
      if standups[|standups| - 1].user == user then rest + [standups[|standups| - 1]] else rest
  }

  function Late(standups: seq<Standup>): nat {
    if standups == [] then 0
    else Late(standups[..|standups| - 1]) + if standups[|standups| - 1].isLate then 1 else 0
  }

  /** Which of the standups are the user's, and which of those are late. */
  function Own(standups: seq<Standup>, user: UserId): set<nat> {
    set i: nat | i < |standups| && standups[i].user == user
  }

  function OwnLate(standups: seq<Standup>, user: UserId): set<nat> {
    set i: nat | i < |standups| && standups[i].user == user && standups[i].isLate
  }

  lemma {:induction false} OneElementMore(few: set<nat>, all: set<nat>, n: nat, more: bool)
    requires n !in few && forall i :: i in all <==> i in few || (more && i == n)
    ensures |all| == |few| + if more then 1 else 0
  {
    assert all == few + if more then {n} else {};
  }

  lemma {:induction false} OneOwnMore(standups: seq<Standup>, s: Standup, user: UserId)
    ensures |Own(standups + [s], user)| == |Own(standups, user)| + if s.user == user then 1 else 0
  {
    OneElementMore(Own(standups, user), Own(standups + [s], user), |standups|, s.user == user);
  }

  lemma {:induction false} OneOwnLateMore(standups: seq<Standup>, s: Standup, user: UserId)
    ensures |OwnLate(standups + [s], user)| == |OwnLate(standups, user)| + if s.user == user && s.isLate then 1 else 0
  {
    OneElementMore(OwnLate(standups, user), OwnLate(standups + [s], user), |standups|, s.user == user && s.isLate);
  }

  lemma {:induction false} OneLateMore(standups: seq<Standup>, s: Standup)
    ensures Late(standups + [s]) == Late(standups) + if s.isLate then 1 else 0
  {
    assert (standups + [s])[..|standups|] == standups;
  }

  lemma {:induction false} OfUserCounts(standups: seq<Standup>, user: UserId)
    ensures |OfUser(standups, user)| == |Own(standups, user)|
    ensures Late(OfUser(standups, user)) == |OwnLate(standups, user)|
  {
    if standups == [] {
      assert Own(standups, user) == {} && OwnLate(standups, user) == {};
    } else {
      var front, last := standups[..|standups| - 1], standups[|standups| - 1];
      OfUserCounts(front, user);
      OneOwnMore(front, last, user);
      OneOwnLateMore(front, last, user);
      OneLateMore(OfUser(front, user), last);
      assert standups == front + [last];
    }
  }

  ghost predicate Grouped(groups: map<UserId, seq<Standup>>, standups: seq<Standup>) {
    forall u :: OfUser(standups, u) == if u in groups then groups[u] else []
  }

  /** A user's list holds exactly the standups the user has written. */
  lemma {:induction false} OfUserHoldsOwn(standups: seq<Standup>, user: UserId, s: Standup)
    ensures s in OfUser(standups, user) <==> s in standups && s.user == user
  {
    if standups != [] {
      var front, last := standups[..|standups| - 1], standups[|standups| - 1];
      OfUserHoldsOwn(front, user, s);
      assert standups == front + [last];
    }
  }

  /** The grouping loop: the lists of exactly the users who have written any, in the order of the standups. */
  method GroupByUser(standups: seq<Standup>) returns (groups: map<UserId, seq<Standup>>)
    ensures Grouped(groups, standups)
    ensures forall u :: u in groups <==> OfUser(standups, u) != []
  {
    groups := map[];
    for i := 0 to |standups|
      invariant Grouped(groups, standups[..i])
      invariant forall u :: u in groups <==> OfUser(standups[..i], u) != []
    {
      var s := standups[i];
      assert standups[..i + 1][..i] == standups[..i];
      var list := if s.user in groups then groups[s.user] else [];
      groups := groups[s.user := list + [s]];
    }
    assert standups[..|standups|] == standups;
  }

  function Submitted(members: seq<UserId>, standups: seq<Standup>): nat {
    if members == [] then 0
    else Submitted(members[..|members| - 1], standups) + |OfUser(standups, members[|members| - 1])|
  }

  function ByOthers(members: seq<UserId>, standups: seq<Standup>): nat {
    if standups == [] then 0
    else ByOthers(members, standups[..|standups| - 1]) + if standups[|standups| - 1].user in members then 0 else 1
  }

  lemma {:induction false} OneStandupMore(members: seq<UserId>, standups: seq<Standup>, s: Standup)
    requires Distinct(members)
    ensures Submitted(members, standups + [s]) == Submitted(members, standups) + if s.user in members then 1 else 0
  {
    assert (standups + [s])[..|standups|] == standups;
    if members != [] {
      var last, front := members[|members| - 1], members[..|members| - 1];
      assert forall i, j :: 0 <= i < j < |front| ==> front[i] == members[i] && front[j] == members[j];
      OneStandupMore(front, standups, s);
      assert s.user in members <==> s.user in front || s.user == last;
      assert last !in front;
    }
  }

  /** The members' submitted counts and the standups of people no longer members make up all standups. */
  lemma {:induction false} SubmissionsConserved(members: seq<UserId>, standups: seq<Standup>)
    requires Distinct(members)
    ensures Submitted(members, standups) + ByOthers(members, standups) == |standups|
  {
    if standups == [] {
      NothingSubmitted(members);
    } else {
      var last, front := standups[|standups| - 1], standups[..|standups| - 1];
      SubmissionsConserved(members, front);
      OneStandupMore(members, front, last);
      assert standups == front + [last];
    }
  }

  lemma {:induction false} NothingSubmitted(members: seq<UserId>)
    ensures Submitted(members, []) == 0
  {
    if members != [] {
      NothingSubmitted(members[..|members| - 1]);
    }
  }

  lemma {:induction false} NoOthers(members: seq<UserId>, standups: seq<Standup>)
    ensures ByOthers(members, standups) == 0 <==> forall s :: s in standups ==> s.user in members
  {
    if standups != [] {
      var last, front := standups[|standups| - 1], standups[..|standups| - 1];
      NoOthers(members, front);
      assert standups == front + [last];
      assert forall s :: s in standups <==> s in front || s == last;
    }
  }

  /** The members' counts add up to the report's total exactly if every author is a member still. */
  lemma {:induction false} CountsAddUp(members: seq<UserId>, standups: seq<Standup>)
    requires Distinct(members)
    ensures Submitted(members, standups) == |standups| <==> forall s :: s in standups ==> s.user in members
  {
    SubmissionsConserved(members, standups);
    NoOthers(members, standups);
  }

  // Blockers

  ghost predicate Counted(ms: seq<Mention<string>>, entries: seq<Entry<string>>) {
    AllCount(ms, entries) && ByAppearance(ms, entries) && NoneMissing(ms, entries) && Total(entries) == |ms|
  }

  /** The counting loop: an entry for every text, with its count, and no mention lost or counted twice. */
  method CountBlockers(standups: seq<Standup>) returns (entries: seq<Entry<string>>)
    ensures Counted(Mentions(standups), entries)
  {
    entries := [];
    for i := 0 to |standups|
      invariant Counted(Mentions(standups[..i]), entries)
    {
      assert standups[..i + 1][..i] == standups[..i];
      var m := MentionOf(standups[i]);
      if m.None? {
        continue;
      }
      CountOne(Mentions(standups[..i]), entries, m.value);
      var at := IndexOf(entries, m.value.key);
      if at < |entries| {
        entries := entries[at := entries[at].(count := entries[at].count + 1)];
      } else {
        entries := entries + [Entry(m.value.key, m.value.text, 1)];
      }
    }
    assert standups[..|standups|] == standups;
  }

  lemma {:induction false} CountOne(ms: seq<Mention<string>>, entries: seq<Entry<string>>, m: Mention<string>)
    requires Counted(ms, entries)
    ensures Counted(ms + [m], Bump(entries, m))
  {
    BlockerSteps.BumpCounts(ms, entries, m);
    BlockerSteps.BumpKeepsOrder(ms, entries, m);
    BlockerSteps.BumpMissesNone(ms, entries, m);
    BlockerSteps.BumpAddsOne(entries, m);
  }

  /**
   `frequentBlockers`: five texts, or all where there are fewer, each with its count and in the
   words of its first mention; in order of count, and of first mention where counts are equal;
   and no text left out ranks above one of them.
   */
  method FrequentBlockers(standups: seq<Standup>) returns (top: seq<Entry<string>>)
    ensures RightBlockers(Mentions(standups), top) && BlockersTold(standups, top)
  {
    var entries := CountBlockers(standups);
    top := BlockerRanking.FirstFive(BlockerRanking.Ranked(entries));
    BlockerRankingTheorems.TopCounts(Mentions(standups), entries);
    BlockerRankingTheorems.TopInOrder(Mentions(standups), entries);
    BlockerRankingTheorems.TopIsTop(Mentions(standups), entries);
    RightIsTold(standups, top);
  }

  // The report

  datatype MemberStat = MemberStat(user: UserId, submitted: nat, missed: nat, lateCount: nat, participationRate: real)

  /** `from` and `to` are the first and the last day, as instants; the rate is that of the whole team. */
  datatype WeeklyReport = WeeklyReport(
    from: int,
    to: int,
    participationRate: real,
    totalSubmissions: nat,
    totalPossible: nat,
    workingDays: nat,
    memberCount: nat,
    members: seq<MemberStat>,
    frequentBlockers: seq<Entry<string>>)

  function StatOf(groups: map<UserId, seq<Standup>>, workingDays: nat, user: UserId): MemberStat {
    var own := if user in groups then groups[user] else [];
    var missed := if workingDays < |own| then 0 else workingDays - |own|;
    MemberStat(user, |own|, missed, Late(own), Rate(|own|, workingDays))
  }

  function StatsOf(groups: map<UserId, seq<Standup>>, workingDays: nat, members: seq<UserId>): (r: seq<MemberStat>)
    ensures |r| == |members|
  {
    if members == [] then []
    else StatsOf(groups, workingDays, members[..|members| - 1])
         + [StatOf(groups, workingDays, members[|members| - 1])]
  }

  function SumSubmitted(stats: seq<MemberStat>): nat {
    if stats == [] then 0 else SumSubmitted(stats[..|stats| - 1]) + stats[|stats| - 1].submitted
  }

  lemma {:induction false} StatsSum(groups: map<UserId, seq<Standup>>, workingDays: nat, members: seq<UserId>,
                                    standups: seq<Standup>)
    requires Grouped(groups, standups)
    ensures SumSubmitted(StatsOf(groups, workingDays, members)) == Submitted(members, standups)
  {
    if members != [] {
      var front := members[..|members| - 1];
      StatsSum(groups, workingDays, front, standups);
      var stats := StatsOf(groups, workingDays, members);
      assert stats[..|stats| - 1] == StatsOf(groups, workingDays, front);
    }
  }

  /** A member's line: submissions and misses make up the working days, unless submissions alone exceed them. */
  predicate StatRight(standups: seq<Standup>, workingDays: nat, user: UserId, stat: MemberStat) {
    && stat.user == user
    && stat.submitted == |set i: nat | i < |standups| && standups[i].user == user|
    && stat.lateCount == |set i: nat | i < |standups| && standups[i].user == user && standups[i].isLate|
    && (stat.submitted <= workingDays ==> stat.submitted + stat.missed == workingDays)
    && (stat.submitted >= workingDays ==> stat.missed == 0)
    && stat.participationRate == Rate(stat.submitted, workingDays)
  }

  lemma {:induction false} StatIsRight(groups: map<UserId, seq<Standup>>, workingDays: nat, members: seq<UserId>,
                                      standups: seq<Standup>, i: nat)
    requires Grouped(groups, standups)
    requires i < |members|
    ensures StatRight(standups, workingDays, members[i], StatsOf(groups, workingDays, members)[i])
  {
    if i < |members| - 1 {
      StatIsRight(groups, workingDays, members[..|members| - 1], standups, i);
    } else {
      assert OfUser(standups, members[i]) == if members[i] in groups then groups[members[i]] else [];
      OfUserCounts(standups, members[i]);
    }
  }

  ghost predicate StatsRight(standups: seq<Standup>, workingDays: nat, members: seq<UserId>, stats: seq<MemberStat>) {
    && |stats| == |members|
    && forall i :: 0 <= i < |members| ==> StatRight(standups, workingDays, members[i], stats[i])
  }

  /** The members' lines, which together with the standups of others make up all standups. */
  method MemberStats(workingDays: nat, members: seq<UserId>, standups: seq<Standup>) returns (stats: seq<MemberStat>)
    requires Distinct(members)
    ensures StatsRight(standups, workingDays, members, stats)
    ensures SumSubmitted(stats) + ByOthers(members, standups) == |standups|
  {
    var groups := GroupByUser(standups);
    stats := StatsOf(groups, workingDays, members);
    forall i | 0 <= i < |members|
      ensures StatRight(standups, workingDays, members[i], stats[i])
    {
      StatIsRight(groups, workingDays, members, standups, i);
    }
    StatsSum(groups, workingDays, members, standups);
    SubmissionsConserved(members, standups);
  }

  /** The report of the seven days up to `today`, from a snapshot of the members and their standups. */
  method GetWeeklyReport(offset: int, workingDays: seq<nat>, today: int, members: seq<UserId>, standups: seq<Standup>)
    returns (report: WeeklyReport)
    requires Distinct(members)
    ensures report.to == today && report.from == today - 6 * 24 * 60 * 60 * 1000
    ensures WorkingDays.Days(report.from, report.to) == 7
    ensures report.participationRate == Rate(|standups|, |members| * |WorkingDays.Weekdays(workingDays)|)
    ensures report.workingDays == |WorkingDays.Weekdays(workingDays)|
    ensures report.totalPossible == |members| * |WorkingDays.Weekdays(workingDays)|
    ensures SumSubmitted(report.members) + ByOthers(members, standups) == report.totalSubmissions == |standups|
    ensures report.memberCount == |members| && StatsRight(standups, report.workingDays, members, report.members)
    ensures BlockersTold(standups, report.frequentBlockers)
  {
    var from := today - 6 * WorkingDays.DAY_MS;
    var days := WorkingDays.CountWorkingDaysInRange(offset, workingDays, from, today);
    WorkingDays.ReportWeek(offset, workingDays, today);
    var stats := MemberStats(days, members, standups);
    var top := FrequentBlockers(standups);
    var possible := |members| * days;
    report := WeeklyReport(from, today, Rate(|standups|, possible), |standups|, possible, days, |members|, stats, top);
  }
}
