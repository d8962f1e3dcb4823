/** Time-of-day arithmetic behind the reminder schedule (reminder-time.util.ts). */
module ReminderTime {
  import opened Text
  import opened Calendar

  /** The remainder of JavaScript: truncating, with the sign of the dividend. */
  function JsRemainder(a: int, b: nat): int
    requires b > 0
  {
    if a >= 0 then a % b else -((-a) % b)
  }

  /** `minutes` earlier on a 24-hour clock: the time congruent to the difference modulo a day. */
  function Earlier(time: HhMm, minutes: int): HhMm {
    FormatHhMm((MinutesOf(time) - minutes) % 1440)
  }

  lemma {:induction false} WrapIsModulo(total: int)
    ensures JsRemainder(JsRemainder(total, 1440) + 1440, 1440) == total % 1440
  {
    if total < 0 {
      var q, r := (-total) / 1440, (-total) % 1440;
      assert -total == 1440 * q + r;
      if r == 0 {
        ModuloIs(total, -q, 0);
      } else {
        ModuloIs(total, -q - 1, 1440 - r);
      }
    }
  }

  lemma {:induction false} ModuloIs(total: int, q: int, r: nat)
    requires r < 1440 && total == 1440 * q + r
    ensures total % 1440 == r
  {
  }

  /** Subtracts `minutes`, any integer, wrapping at midnight. */
  method SubtractMinutes(hhmm: HhMm, minutes: int) returns (r: HhMm)
    ensures r == Earlier(hhmm, minutes)
  {
    var hour, minute := Value2(hhmm[..2]), Value2(hhmm[3..]);
    var total := hour * 60 + minute - minutes;
    WrapIsModulo(total);
    total := JsRemainder(JsRemainder(total, 24 * 60) + 24 * 60, 24 * 60);
    r := Pad2(total / 60) + ":" + Pad2(total % 60);
  }

  lemma {:induction false} MinutesOfEarlier(time: HhMm, minutes: int)
    ensures MinutesOf(Earlier(time, minutes)) == (MinutesOf(time) - minutes) % 1440
  {
    FormatThenRead((MinutesOf(time) - minutes) % 1440);
  }

  lemma {:induction false} SameMinutesSameText(s: HhMm, t: HhMm)
    requires MinutesOf(s) == MinutesOf(t)
    ensures s == t
  {
    ReadThenFormat(s);
    ReadThenFormat(t);
  }

  /** It is the only valid time that is congruent to the difference. */
  lemma {:induction false} EarlierIsCongruent(time: HhMm, minutes: int, other: HhMm)
    ensures other == Earlier(time, minutes) <==> (MinutesOf(time) - minutes - MinutesOf(other)) % 1440 == 0
  {
    MinutesOfEarlier(time, minutes);
    var x := MinutesOf(time) - minutes;
    if other == Earlier(time, minutes) {
      ModuloIs(x - MinutesOf(other), x / 1440, 0);
    } else if (x - MinutesOf(other)) % 1440 == 0 {
      ModuloIs(x, (x - MinutesOf(other)) / 1440, MinutesOf(other));
      SameMinutesSameText(other, Earlier(time, minutes));
    }
  }

  lemma {:induction false} ModuloComposes(x: int, minutes: int)
    ensures (x % 1440 - minutes) % 1440 == (x - minutes) % 1440
  {
    var y := x % 1440 - minutes;
    ModuloIs(x - minutes, x / 1440 + y / 1440, y % 1440);
  }

  /** Subtracting twice is subtracting the sum. */
  lemma {:induction false} SubtractComposes(time: HhMm, a: int, b: int)
    ensures Earlier(Earlier(time, a), b) == Earlier(time, a + b)
  {
    var start := MinutesOf(time);
    MinutesOfEarlier(time, a);
    ModuloComposes(start - a, b);
    assert start - a - b == start - (a + b);
  }

  lemma {:induction false} SubtractWholeDays(time: HhMm, days: int)
    ensures Earlier(time, 1440 * days) == time
  {
    ModuloIs(MinutesOf(time) - 1440 * days, -days, MinutesOf(time));
    ReadThenFormat(time);
  }

  lemma {:induction false} SubtractUndone(time: HhMm, minutes: int)
    ensures Earlier(Earlier(time, minutes), -minutes) == time
  {
    SubtractComposes(time, minutes, -minutes);
    SubtractWholeDays(time, 0);
  }

  // Cron patterns

  /** `Number(text)` printed back: no leading zero. */
  function Plain(n: nat): (s: string)
    requires n < 100
    ensures s != [] && AllDigits(s)
  {
    if n < 10 then [Digit(n)] else Pad2(n)
  }

  /** The pattern `m H * * *`. */
  function CronFromTime(time: HhMm): string {
    Plain(Value2(time[3..])) + " " + Plain(Value2(time[..2])) + " * * *"
  }

  datatype ReminderKind = Primary | FifteenMinutes | Final

  const KINDS: seq<ReminderKind> := [Primary, FifteenMinutes, Final]

  function KindText(kind: ReminderKind): string {
    match kind
    case Primary => "primary"
    case FifteenMinutes => "15m"
    case Final => "final"
  }

  /** When each reminder of a team is due. */
  function ScheduleTime(deadline: HhMm, reminderTime: HhMm, kind: ReminderKind): HhMm {
    match kind
    case Primary => reminderTime
    case FifteenMinutes => Earlier(deadline, 15)
    case Final => deadline
  }

  // What a cron pattern means, stated on its own: five fields, each a star or a number.

  function DecimalValue(s: string): nat
    requires AllDigits(s)
  {
    if s == [] then 0 else 10 * DecimalValue(s[..|s| - 1]) + DigitValue(s[|s| - 1])
  }

  predicate FieldMatches(field: string, n: nat) {
    field == "*" || (field != [] && AllDigits(field) && DecimalValue(field) == n)
  }

  predicate CronMatches(pattern: string, minute: nat, hour: nat, day: nat, month: nat, weekday: nat) {
    var fields := Split(pattern, ' ');
    && |fields| == 5
    && FieldMatches(fields[0], minute) && FieldMatches(fields[1], hour)
    && FieldMatches(fields[2], day) && FieldMatches(fields[3], month) && FieldMatches(fields[4], weekday)
  }

  lemma {:induction false} PlainValue(n: nat)
    requires n < 100
    ensures DecimalValue(Plain(n)) == n && ' ' !in Plain(n) && Plain(n) != "*"
  {
    var s := Plain(n);
    if n < 10 {
      assert s[..0] == [];
    } else {
      assert s[..1] == [s[0]] && s[..1][..0] == [];
      assert DecimalValue(s[..1]) == DigitValue(s[0]);
    }
  }

  /** A job scheduled from a configured time fires at that time, every day, and at no other. */
  lemma {:induction false} CronFiresAtTime(time: HhMm, minute: nat, hour: nat, day: nat, month: nat, weekday: nat)
    requires minute < 60
    ensures CronMatches(CronFromTime(time), minute, hour, day, month, weekday)
            <==> 60 * hour + minute == MinutesOf(time)
  {
    var m, h := Value2(time[3..]), Value2(time[..2]);
    PlainValue(m);
    PlainValue(h);
    FiveFields(Plain(m), Plain(h));
    assert CronFromTime(time) == Plain(m) + [' '] + (Plain(h) + [' '] + STARS);
    assert MinutesOf(time) == h * 60 + m;
  }

  const STARS := "* * *"

  lemma {:induction false} FiveFields(m: string, h: string)
    requires ' ' !in m && ' ' !in h
    ensures Split(m + [' '] + (h + [' '] + STARS), ' ') == [m, h, "*", "*", "*"]
  {
    SplitFirst(m, h + [' '] + STARS, ' ');
    SplitFirst(h, STARS, ' ');
    assert STARS == "*" + [' '] + ("*" + [' '] + "*");
    SplitFirst("*", "*" + [' '] + "*", ' ');
    SplitFirst("*", "*", ' ');
    SplitWhole("*", ' ');
  }
}
