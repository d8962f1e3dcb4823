/**
 Calendar days and wall-clock times as the services see them: a day is the text
 `YYYY-MM-DD`, a time of day the text `HH:mm`, an instant an ISO 8601 text.
 */
module Calendar {
  import opened Text

  const MINUTES_PER_DAY := 1440

  datatype Ymd = Ymd(year: nat, month: nat, day: nat)

  predicate IsLeap(year: nat) {
    year % 4 == 0 && (year % 100 != 0 || year % 400 == 0)
  }

  function DaysIn(year: nat, month: nat): (n: nat)
    requires 1 <= month <= 12
    ensures 28 <= n <= 31
  {
    if month == 2 then if IsLeap(year) then 29 else 28
    else if month in {4, 6, 9, 11} then 30
    else 31
  }

  type Day = d: Ymd | d.year < 10000 && 1 <= d.month <= 12 && 1 <= d.day <= DaysIn(d.year, d.month)
    witness Ymd(1970, 1, 1)

  predicate Before(a: Day, b: Day) {
    || a.year < b.year
    || (a.year == b.year && (a.month < b.month || (a.month == b.month && a.day < b.day)))
  }

  // Digits

  function Digit(n: nat): char
    requires n < 10
  {
    (n + 48) as char
  }

  predicate IsDigit(c: char) {
    '0' <= c <= '9'
  }

  function DigitValue(c: char): nat
    requires IsDigit(c)
  {
    c as int - 48
  }

  /** `String(n).padStart(2, '0')` for a number of at most two digits. */
  function Pad2(n: nat): (s: string)
    requires n < 100
    ensures |s| == 2 && IsDigit(s[0]) && IsDigit(s[1])
    ensures 10 * DigitValue(s[0]) + DigitValue(s[1]) == n
  {
    [Digit(n / 10), Digit(n % 10)]
  }

  predicate AllDigits(s: string) {
    forall c :: c in s ==> IsDigit(c)
  }

  function Value2(s: string): (n: nat)
    requires |s| == 2 && AllDigits(s)
    ensures n < 100 && Pad2(n) == s
  {
    10 * DigitValue(s[0]) + DigitValue(s[1])
  }

  // Days

  /** `date.toISOString().slice(0, 10)` */
  function FormatYmd(d: Day): string {
    Pad2(d.year / 100) + Pad2(d.year % 100) + "-" + Pad2(d.month) + "-" + Pad2(d.day)
  }

  /** The pattern of four digits, two digits and two digits, with hyphens between. */
  predicate IsYmd(s: string) {
    && |s| == 10 && s[4] == '-' && s[7] == '-'
    && AllDigits(s[..2]) && AllDigits(s[2..4]) && AllDigits(s[5..7]) && AllDigits(s[8..])
  }

  /** A day of at most 31 that its month does not have is one of the month after. */
  function RollOver(d: Ymd): Day
    requires d.year < 10000 && 1 <= d.month <= 12 && 1 <= d.day <= 31
  {
    var n := DaysIn(d.year, d.month);
    if d.day <= n then d else Ymd(d.year, d.month + 1, d.day - n)
  }

  /** The numbers in a text of that pattern. */
  function ReadYmd(s: string): Ymd
    requires IsYmd(s)
  {
    Ymd(100 * Value2(s[..2]) + Value2(s[2..4]), Value2(s[5..7]), Value2(s[8..]))
  }

  /** `new Date(s + 'T00:00:00.000Z')`; None where that is an invalid date. */
  function ParseYmd(s: string): Option<Day> {
    if !IsYmd(s) then None
    else
      var d := ReadYmd(s);
      if d.year < 10000 && 1 <= d.month <= 12 && 1 <= d.day <= 31 then Some(RollOver(d)) else None
  }

  lemma {:induction false} YmdRoundTrip(d: Day)
    ensures IsYmd(FormatYmd(d)) && ReadYmd(FormatYmd(d)) == d && ParseYmd(FormatYmd(d)) == Some(d)
  {
    var s := FormatYmd(d);
    assert s[..2] == Pad2(d.year / 100) && s[2..4] == Pad2(d.year % 100);
    assert s[5..7] == Pad2(d.month) && s[8..] == Pad2(d.day);
  }

  lemma {:induction false} YmdTextOf(s: string, d: Day)
    requires IsYmd(s) && ReadYmd(s) == d
    ensures FormatYmd(d) == s
  {
    assert d.year / 100 == Value2(s[..2]) && d.year % 100 == Value2(s[2..4]);
    assert s == s[..2] + s[2..4] + [s[4]] + s[5..7] + [s[7]] + s[8..];
  }

  /** A text that reads as a day is that day's own text exactly if its month has so many days. */
  lemma {:induction false} YmdIsCanonical(s: string)
    requires ParseYmd(s).Some?
    ensures FormatYmd(ParseYmd(s).value) == s <==> ReadYmd(s).day <= DaysIn(ReadYmd(s).year, ReadYmd(s).month)
  {
    var d := ReadYmd(s);
    if d.day <= DaysIn(d.year, d.month) {
      YmdTextOf(s, d);
    } else {
      YmdRoundTrip(RollOver(d));
    }
  }

  /** The texts that read as a day: those of the pattern whose month is one of twelve and whose day is 1 to 31. */
  lemma {:induction false} ReadableYmd(s: string)
    ensures ParseYmd(s).Some? <==> IsYmd(s) && 1 <= ReadYmd(s).month <= 12 && 1 <= ReadYmd(s).day <= 31
  {
    if IsYmd(s) {
      assert Value2(s[..2]) < 100 && Value2(s[2..4]) < 100;
    }
  }

  // Days counted

  /** Days since 1970-01-01 in the Gregorian calendar, in closed form, with years that begin in March. */
  function DayNumber(year: nat, month: nat, day: nat): int
    requires 1 <= month <= 12
  {
    var y := if month <= 2 then year - 1 else year;
    365 * y + LeapDays(y) + (153 * ((month + 9) % 12) + 2) / 5 + day - 1 - 719468
  }

  /** Each month has as many days as lie between its first and the next month's. */
  lemma {:induction false} MonthsFollow(year: nat, month: nat)
    requires 1 <= month <= 12
    ensures DayNumber(1970, 1, 1) == 0
    ensures DayNumber(year, month, 1) + DaysIn(year, month)
         == if month < 12 then DayNumber(year, month + 1, 1) else DayNumber(year + 1, 1, 1)
  {
    if month == 2 {
      LeapYears(year);
    }
  }

  /** The leap days up to a year. */
  function LeapDays(year: int): int {
    year / 4 - year / 100 + year / 400
  }

  lemma {:induction false} LeapYears(year: nat)
    ensures LeapDays(year) == LeapDays(year - 1) + if IsLeap(year) then 1 else 0
  {
    Fourths(year);
    Hundredths(year);
    FourHundredths(year);
  }

  lemma {:induction false} Fourths(n: nat)
    ensures n / 4 == (n - 1) / 4 + if n % 4 == 0 then 1 else 0
  {
  }

  lemma {:induction false} Hundredths(n: nat)
    ensures n / 100 == (n - 1) / 100 + if n % 100 == 0 then 1 else 0
    ensures n % 100 == 0 ==> n % 4 == 0
  {
    assert n % 100 == 0 ==> n == 4 * (25 * (n / 100));
  }

  lemma {:induction false} FourHundredths(n: nat)
    ensures n / 400 == (n - 1) / 400 + if n % 400 == 0 then 1 else 0
    ensures n % 400 == 0 ==> n % 100 == 0
  {
    assert n % 400 == 0 ==> n == 100 * (4 * (n / 400));
  }

  lemma {:induction false} DaysFollow(year: nat, month: nat, day: nat)
    requires 1 <= month <= 12
    ensures DayNumber(year, month, day) == DayNumber(year, month, 1) + day - 1
  {
  }

  /** A readable text is the day as many days after the first of its month as its day says, whatever that month has. */
  lemma {:induction false} RollsOver(s: string)
    requires ParseYmd(s).Some?
    ensures var read, d := ReadYmd(s), ParseYmd(s).value;
      DayNumber(d.year, d.month, d.day) == DayNumber(read.year, read.month, 1) + read.day - 1
  {
    var read := ReadYmd(s);
    RolledOver(read);
  }

  lemma {:induction false} RolledOver(d: Ymd)
    requires d.year < 10000 && 1 <= d.month <= 12 && 1 <= d.day <= 31
    ensures var r := RollOver(d); DayNumber(r.year, r.month, r.day) == DayNumber(d.year, d.month, 1) + d.day - 1
  {
    var n := DaysIn(d.year, d.month);
    DaysFollow(d.year, d.month, d.day);
    if d.day > n {
      MonthsFollow(d.year, d.month);
      DaysFollow(d.year, d.month + 1, d.day - n);
    }
  }

  lemma {:induction false} YmdInjective(a: Day, b: Day)
    requires FormatYmd(a) == FormatYmd(b)
    ensures a == b
  {
    YmdRoundTrip(a);
    YmdRoundTrip(b);
  }

  // Times of day

  /** The pattern the team configuration is validated against: `00:00` to `23:59`. */
  predicate IsHhMm(s: string) {
    && |s| == 5 && s[2] == ':'
    && AllDigits(s[..2]) && AllDigits(s[3..])
    && Value2(s[..2]) < 24 && Value2(s[3..]) < 60
  }

  type HhMm = s: string | IsHhMm(s) witness FormatHhMm(0)

  function FormatHhMm(total: nat): (s: string)
    requires total < MINUTES_PER_DAY
    ensures IsHhMm(s)
  {
    var s := Pad2(total / 60) + ":" + Pad2(total % 60);
    assert s[..2] == Pad2(total / 60) && s[3..] == Pad2(total % 60);
    s
  }

  function MinutesOf(s: HhMm): (n: nat)
    ensures n < MINUTES_PER_DAY
  {
    Value2(s[..2]) * 60 + Value2(s[3..])
  }

  lemma {:induction false} ReadThenFormat(s: HhMm)
    ensures FormatHhMm(MinutesOf(s)) == s
  {
    var n := MinutesOf(s);
    assert n / 60 == Value2(s[..2]) && n % 60 == Value2(s[3..]);
    assert s == s[..2] + [s[2]] + s[3..];
  }

  lemma {:induction false} FormatThenRead(total: nat)
    requires total < MINUTES_PER_DAY
    ensures MinutesOf(FormatHhMm(total)) == total
  {
    var s := FormatHhMm(total);
    assert s[..2] == Pad2(total / 60) && s[3..] == Pad2(total % 60);
  }

  lemma {:induction false} Less2(a: string, b: string)
    requires |a| == 2 && |b| == 2 && AllDigits(a) && AllDigits(b)
    ensures Less(a, b) <==> Value2(a) < Value2(b)
  {
    assert a[0] < b[0] <==> DigitValue(a[0]) < DigitValue(b[0]);
    assert Less(a[1..], b[1..]) <==> a[1] < b[1] || (a[1] == b[1] && Less(a[2..], b[2..]));
  }

  lemma {:induction false} LessSplits(a: string, b: string, c: string, d: string)
    requires |a| == |c|
    ensures Less(a + b, c + d) <==> Less(a, c) || (a == c && Less(b, d))
  {
    if a == [] {
      assert a + b == b && c + d == d;
    } else {
      assert (a + b)[1..] == a[1..] + b && (c + d)[1..] == c[1..] + d;
      assert a == [a[0]] + a[1..] && c == [c[0]] + c[1..];
      LessSplits(a[1..], b, c[1..], d);
    }
  }

  /** Comparing two times as text compares them as times. */
  lemma {:induction false} TextOrderIsTimeOrder(s: HhMm, t: HhMm)
    ensures Less(s, t) <==> MinutesOf(s) < MinutesOf(t)
  {
    assert s == s[..2] + ([s[2]] + s[3..]) && t == t[..2] + ([t[2]] + t[3..]);
    LessSplits(s[..2], [s[2]] + s[3..], t[..2], [t[2]] + t[3..]);
    LessSplits([s[2]], s[3..], [t[2]], t[3..]);
    Less2(s[..2], t[..2]);
    Less2(s[3..], t[3..]);
    LessIrreflexive([s[2]]);
    assert s[..2] == t[..2] <==> Value2(s[..2]) == Value2(t[..2]);
  }

  /** Comparing the texts of two days compares the days. */
  lemma {:induction false} TextOrderIsDayOrder(a: Day, b: Day)
    ensures Less(FormatYmd(a), FormatYmd(b)) <==> Before(a, b)
  {
    var c, y, m, d := Pad2(a.year / 100), Pad2(a.year % 100), Pad2(a.month), Pad2(a.day);
    var c', y', m', d' := Pad2(b.year / 100), Pad2(b.year % 100), Pad2(b.month), Pad2(b.day);
    assert FormatYmd(a) == c + (y + ("-" + (m + ("-" + d))));
    assert FormatYmd(b) == c' + (y' + ("-" + (m' + ("-" + d'))));
    LessSplits(c, y + ("-" + (m + ("-" + d))), c', y' + ("-" + (m' + ("-" + d'))));
    LessSplits(y, "-" + (m + ("-" + d)), y', "-" + (m' + ("-" + d')));
    LessSplits("-", m + ("-" + d), "-", m' + ("-" + d'));
    LessSplits(m, "-" + d, m', "-" + d');
    LessSplits("-", d, "-", d');
    LessIrreflexive("-");
    PairsInOrder(a, b);
  }

  lemma {:induction false} PairInOrder(a: nat, b: nat)
    requires a < 100 && b < 100
    ensures Less(Pad2(a), Pad2(b)) <==> a < b
    ensures Pad2(a) == Pad2(b) <==> a == b
  {
    Less2(Pad2(a), Pad2(b));
  }

  lemma {:induction false} PairsInOrder(a: Day, b: Day)
    ensures Less(Pad2(a.year / 100), Pad2(b.year / 100)) <==> a.year / 100 < b.year / 100
    ensures Pad2(a.year / 100) == Pad2(b.year / 100) <==> a.year / 100 == b.year / 100
    ensures Less(Pad2(a.year % 100), Pad2(b.year % 100)) <==> a.year % 100 < b.year % 100
    ensures Pad2(a.year % 100) == Pad2(b.year % 100) <==> a.year % 100 == b.year % 100
    ensures Less(Pad2(a.month), Pad2(b.month)) <==> a.month < b.month
    ensures Pad2(a.month) == Pad2(b.month) <==> a.month == b.month
    ensures Less(Pad2(a.day), Pad2(b.day)) <==> a.day < b.day
    ensures Pad2(a.day) == Pad2(b.day) <==> a.day == b.day
  {
    PairInOrder(a.year / 100, b.year / 100);
    PairInOrder(a.year % 100, b.year % 100);
    PairInOrder(a.month, b.month);
    PairInOrder(a.day, b.day);
  }

  // Instants

  datatype Instant = Instant(day: Day, hour: nat, minute: nat, second: nat, milli: nat)

  type Timestamp = t: Instant | t.hour < 24 && t.minute < 60 && t.second < 60 && t.milli < 1000
    witness Instant(Ymd(1970, 1, 1), 0, 0, 0, 0)

  function FormatClock(t: Timestamp): string {
    Pad2(t.hour) + ":" + Pad2(t.minute) + ":" + Pad2(t.second)
  }

  /** `date.toISOString()` */
  function FormatIso(t: Timestamp): string {
    FormatYmd(t.day) + "T" + FormatClock(t) + "." + ([Digit(t.milli / 100)] + Pad2(t.milli % 100)) + "Z"
  }

  predicate IsClock(s: string) {
    && |s| == 8 && s[2] == ':' && s[5] == ':' && AllDigits(s[..2]) && AllDigits(s[3..5]) && AllDigits(s[6..])
    && Value2(s[..2]) < 24 && Value2(s[3..5]) < 60 && Value2(s[6..]) < 60
  }

  /** The pattern of `FormatIso`, with a day and a time that there are. */
  predicate IsIso(s: string) {
    && |s| == 24 && IsYmd(s[..10]) && ReadYmd(s[..10]).year < 10000
    && 1 <= ReadYmd(s[..10]).month <= 12
    && 1 <= ReadYmd(s[..10]).day <= DaysIn(ReadYmd(s[..10]).year, ReadYmd(s[..10]).month)
    && s[10] == 'T' && IsClock(s[11..19]) && s[19] == '.' && AllDigits(s[20..23]) && s[23] == 'Z'
  }

  /** Reads an instant back from its text. */
  function ReadIso(s: string): Option<Timestamp> {
    if !IsIso(s) then None
    else
      var clock, millis := s[11..19], s[20..23];
      Some(Instant(ReadYmd(s[..10]), Value2(clock[..2]), Value2(clock[3..5]), Value2(clock[6..]),
                   100 * DigitValue(millis[0]) + Value2(millis[1..])))
  }

  lemma {:induction false} ClockRoundTrip(t: Timestamp)
    ensures var s := FormatClock(t);
      IsClock(s) && Value2(s[..2]) == t.hour && Value2(s[3..5]) == t.minute && Value2(s[6..]) == t.second
  {
    var s := FormatClock(t);
    assert s[..2] == Pad2(t.hour) && s[3..5] == Pad2(t.minute) && s[6..] == Pad2(t.second);
  }

  lemma {:induction false} Sliced(a: string, b: string, c: string)
    requires |a| == 10 && |b| == 8 && |c| == 3
    ensures var s := a + "T" + b + "." + c + "Z";
      && |s| == 24 && s[..10] == a && s[10] == 'T' && s[11..19] == b && s[19] == '.' && s[20..23] == c && s[23] == 'Z'
  {
  }

  lemma {:induction false} MillisRoundTrip(n: nat)
    requires n < 1000
    ensures var s := [Digit(n / 100)] + Pad2(n % 100);
      |s| == 3 && AllDigits(s) && 100 * DigitValue(s[0]) + Value2(s[1..]) == n
  {
    var s := [Digit(n / 100)] + Pad2(n % 100);
    assert s[1..] == Pad2(n % 100);
    assert n == 100 * (n / 100) + n % 100;
  }

  /** Every instant can be read back from its text. */
  lemma {:induction false} IsoRoundTrip(t: Timestamp)
    ensures ReadIso(FormatIso(t)) == Some(t)
  {
    YmdRoundTrip(t.day);
    ClockRoundTrip(t);
    MillisRoundTrip(t.milli);
    Sliced(FormatYmd(t.day), FormatClock(t), [Digit(t.milli / 100)] + Pad2(t.milli % 100));
  }

  lemma {:induction false} IsoInjective(a: Timestamp, b: Timestamp)
    requires FormatIso(a) == FormatIso(b)
    ensures a == b
  {
    IsoRoundTrip(a);
    IsoRoundTrip(b);
  }
}
