/** Counting the working days of a range (reports.service.ts), in a zone of constant offset. */
module WorkingDays {
  import opened Text

  const DAY_MS := 86_400_000

  /** 0 = Sunday to 6 = Saturday, for milliseconds since 1970-01-01T00:00Z, a Thursday. */
  function Weekday(offset: int, at: int): nat {
    ((at + offset) / 86_400_000 + 4) % 7
  }

  /** How many of the first `n` days from `from` on are working days. */
  function Working(offset: int, workingDays: seq<nat>, from: int, n: nat): nat {
    if n == 0 then 0
    else Working(offset, workingDays, from, n - 1) + One(Weekday(offset, from + 86_400_000 * (n - 1)) in workingDays)
  }

  /** How many times the loop runs: once for every whole day the range reaches, counting the first. */
  function Days(from: int, to: int): nat {
    if from > to then 0 else (to - from) / 86_400_000 + 1
  }

  lemma {:induction false} LastDay(from: int, to: int, n: nat)
    requires from <= to
    ensures from + 86_400_000 * n <= to <==> n < Days(from, to)
  {
    var q := (to - from) / 86_400_000;
    assert 86_400_000 * q <= to - from < 86_400_000 * (q + 1);
    if n <= q {
      assert 86_400_000 * n <= 86_400_000 * q;
    } else {
      assert 86_400_000 * n >= 86_400_000 * (q + 1);
    }
  }

  /** The loop: from `from` on, a day at a time, while not past `to`. */
  method CountWorkingDaysInRange(offset: int, workingDays: seq<nat>, from: int, to: int) returns (count: nat)
    ensures count == Working(offset, workingDays, from, Days(from, to))
  {
    count := 0;
    var cursor := from;
    ghost var n: nat := 0;
    while cursor <= to
      invariant cursor == from + 86_400_000 * n
      invariant n <= Days(from, to)
      invariant count == Working(offset, workingDays, from, n)
      decreases Days(from, to) - n
    {
      LastDay(from, to, n);
      if Weekday(offset, cursor) in workingDays {
        count := count + 1;
      }
      cursor := cursor + DAY_MS;
      n := n + 1;
    }
    if from <= to {
      LastDay(from, to, n);
    }
  }

  /** The working weekdays, each once, whatever repetitions the configuration has. */
  function Weekdays(workingDays: seq<nat>): set<nat> {
    set d | d in workingDays && d < 7
  }

  /** The local day of 1970-01-01 is a Thursday, from its first instant to its last. */
  lemma {:induction false} FirstDayIsThursday(offset: int, at: int)
    requires 0 <= at + offset < DAY_MS
    ensures Weekday(offset, at) == 4
  {
    assert (at + offset) / 86_400_000 == 0;
  }

  lemma {:induction false} WeekdayAdvances(offset: int, from: int, k: nat)
    ensures Weekday(offset, from + 86_400_000 * k) == (Weekday(offset, from) + k) % 7
  {
    assert (from + 86_400_000 * k + offset) / 86_400_000 == (from + offset) / 86_400_000 + k;
  }

  /** Working days by their distance from a weekday `w`. */
  function Around(workingDays: seq<nat>, w: nat, n: nat): nat {
    if n == 0 then 0 else Around(workingDays, w, n - 1) + One((w + (n - 1)) % 7 in workingDays)
  }

  /** Seven days in a row, from any weekday on, meet every weekday once. */
  lemma {:induction false} SevenAround(workingDays: seq<nat>, w: nat)
    requires w < 7
    ensures Around(workingDays, w, 7) == Around(workingDays, 0, 7)
  {
    if w > 0 {
      SevenAround(workingDays, w - 1);
      StartLater(workingDays, w - 1, 7);
      assert (w - 1 + 7) % 7 == (w - 1) % 7;
    }
  }

  lemma {:induction false} StartLater(workingDays: seq<nat>, w: nat, n: nat)
    ensures One(w % 7 in workingDays) + Around(workingDays, w + 1, n)
         == Around(workingDays, w, n) + One((w + n) % 7 in workingDays)
  {
    if n > 0 {
      StartLater(workingDays, w, n - 1);
      assert (w + 1) + (n - 1) == w + n;
    }
  }

  lemma {:induction false} AroundIsSize(workingDays: seq<nat>, n: nat)
    requires n <= 7
    ensures Around(workingDays, 0, n) == |set d | d in workingDays && d < n|
  {
    if n == 0 {
      assert (set d | d in workingDays && d < n) == {};
    } else {
      AroundIsSize(workingDays, n - 1);
      var fewer := set d | d in workingDays && d < n - 1;
      var all := set d | d in workingDays && d < n;
      assert (n - 1) % 7 == n - 1;
      if n - 1 in workingDays {
        assert all == fewer + {n - 1};
      } else {
        assert all == fewer;
      }
    }
  }

  lemma {:induction false} WorkingIsAround(offset: int, workingDays: seq<nat>, from: int, n: nat)
    ensures Working(offset, workingDays, from, n) == Around(workingDays, Weekday(offset, from), n)
  {
    if n > 0 {
      WorkingIsAround(offset, workingDays, from, n - 1);
      WeekdayAdvances(offset, from, n - 1);
    }
  }

  lemma {:induction false} WeekMore(workingDays: seq<nat>, w: nat, n: nat)
    requires w < 7
    ensures Around(workingDays, w, n + 7) == Around(workingDays, w, n) + Around(workingDays, w, 7)
  {
    if n > 0 {
      WeekMore(workingDays, w, n - 1);
      assert (w + (n + 6)) % 7 == (w + (n - 1)) % 7;
    }
  }

  lemma {:induction false} WholeWeeks(workingDays: seq<nat>, w: nat, q: nat, r: nat)
    requires w < 7
    ensures Around(workingDays, w, 7 * q + r) == q * Around(workingDays, w, 7) + Around(workingDays, w, r)
  {
    if q > 0 {
      WholeWeeks(workingDays, w, q - 1, r);
      WeekMore(workingDays, w, 7 * (q - 1) + r);
      assert 7 * (q - 1) + r + 7 == 7 * q + r;
      assert q * Around(workingDays, w, 7) == (q - 1) * Around(workingDays, w, 7) + Around(workingDays, w, 7);
    }
  }

  /** A range of whole weeks and some days has the distinct working weekdays once a week, and those of the days left. */
  lemma {:induction false} ClosedForm(offset: int, workingDays: seq<nat>, from: int, q: nat, r: nat)
    ensures Working(offset, workingDays, from, 7 * q + r)
         == q * |Weekdays(workingDays)| + Working(offset, workingDays, from, r)
  {
    var w := Weekday(offset, from);
    WorkingIsAround(offset, workingDays, from, 7 * q + r);
    WorkingIsAround(offset, workingDays, from, r);
    WholeWeeks(workingDays, w, q, r);
    SevenAround(workingDays, w);
    AroundIsSize(workingDays, 7);
    assert Weekdays(workingDays) == set d | d in workingDays && d < 7;
  }

  /** The report's week, six days back to today, counts each working weekday once, whichever day it ends on. */
  lemma {:induction false} ReportWeek(offset: int, workingDays: seq<nat>, today: int)
    ensures Working(offset, workingDays, today - 6 * DAY_MS, Days(today - 6 * DAY_MS, today)) == |Weekdays(workingDays)|
  {
    assert Days(today - 6 * DAY_MS, today) == 7 * 1 + 0;
    ClosedForm(offset, workingDays, today - 6 * DAY_MS, 1, 0);
  }
}
