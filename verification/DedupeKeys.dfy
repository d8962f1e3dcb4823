/** The texts that make deliveries unique: one per digest, per resend request and per reminder. */
module DedupeKeys {
  import opened Text
  import opened Calendar
  import opened ReminderTime

  /** Generated identifiers (cuid, uuid): they contain no colon. */
  type Id = s: string | ':' !in s witness "c"

  /** The date of a resend request, in its key as it was given. */
  type YmdText = s: string | IsYmd(s) witness FormatYmd(Ymd(1970, 1, 1))

  datatype Key =
    | OfDigest(team: Id, day: Day)
    | OfResend(team: Id, date: YmdText, uuid: Id)
    | OfReminder(team: Id, day: Day, kind: ReminderKind)

  function KeyText(key: Key): string {
    match key
    case OfDigest(team, day) => "digest:" + team + ":" + DateKey(day)
    case OfResend(team, date, uuid) => "digest-resend:" + team + ":" + date + ":" + uuid
    case OfReminder(team, day, kind) => "reminder:" + team + ":" + DateKey(day) + ":" + KindText(kind)
  }

  /** The text of a day, as the date part of a key. */
  function DateKey(day: Day): (r: Id) {
    DigitsHaveNoColon();
    FormatYmd(day)
  }

  lemma {:induction false} DigitsHaveNoColon()
    ensures forall n: nat :: n < 100 ==> ':' !in Pad2(n)
  {
  }

  function KindOf(text: string): Option<ReminderKind> {
    if text == "primary" then Some(Primary)
    else if text == "15m" then Some(FifteenMinutes)
    else if text == "final" then Some(Final)
    else None
  }

  /** Reads a key back from its text. */
  function ReadKey(text: string): Option<Key> {
    var parts := Split(text, ':');
    if |parts| < 3 || ':' in parts[1] then None
    else if |parts| == 4 && parts[0] == "digest-resend" && IsYmd(parts[2]) && ':' !in parts[3] then
      Some(OfResend(parts[1], parts[2], parts[3]))
    else if ParseYmd(parts[2]).None? then None
    else
      var team, day := parts[1], ParseYmd(parts[2]).value;
      if |parts| == 3 && parts[0] == "digest" then Some(OfDigest(team, day))
      else if |parts| == 4 && parts[0] == "reminder" && KindOf(parts[3]).Some? then
        Some(OfReminder(team, day, KindOf(parts[3]).value))
      else None
  }

  lemma {:induction false} SplitThree(a: Id, b: Id, c: Id)
    ensures Split(a + ":" + b + ":" + c, ':') == [a, b, c]
  {
    assert a + ":" + b + ":" + c == a + [':'] + (b + [':'] + c);
    SplitFirst(a, b + [':'] + c, ':');
    SplitFirst(b, c, ':');
    SplitWhole(c, ':');
  }

  lemma {:induction false} SplitFour(a: Id, b: Id, c: Id, d: Id)
    ensures Split(a + ":" + b + ":" + c + ":" + d, ':') == [a, b, c, d]
  {
    assert a + ":" + b + ":" + c + ":" + d == a + [':'] + (b + ":" + c + ":" + d);
    SplitFirst(a, b + ":" + c + ":" + d, ':');
    SplitThree(b, c, d);
  }

  lemma {:induction false} DigestKeyRoundTrip(team: Id, day: Day)
    ensures ReadKey(KeyText(OfDigest(team, day))) == Some(OfDigest(team, day))
  {
    YmdRoundTrip(day);
    var date := DateKey(day);
    assert "digest:" + team + ":" + date == "digest" + ":" + team + ":" + date;
    SplitThree("digest", team, date);
  }

  lemma {:induction false} YmdTextIsId(s: string)
    requires IsYmd(s)
    ensures ':' !in s
  {
    assert s == s[..2] + s[2..4] + [s[4]] + s[5..7] + [s[7]] + s[8..];
  }

  lemma {:induction false} ResendKeyRoundTrip(team: Id, date: YmdText, uuid: Id)
    ensures ReadKey(KeyText(OfResend(team, date, uuid))) == Some(OfResend(team, date, uuid))
  {
    YmdTextIsId(date);
    assert "digest-resend:" + team + ":" + date + ":" + uuid == "digest-resend" + ":" + team + ":" + date + ":" + uuid;
    SplitFour("digest-resend", team, date, uuid);
  }

  lemma {:induction false} ReminderKeyRoundTrip(team: Id, day: Day, kind: ReminderKind)
    ensures ReadKey(KeyText(OfReminder(team, day, kind))) == Some(OfReminder(team, day, kind))
  {
    YmdRoundTrip(day);
    var date, text := DateKey(day), KindText(kind);
    assert "reminder:" + team + ":" + date + ":" + text == "reminder" + ":" + team + ":" + date + ":" + text;
    SplitFour("reminder", team, date, text);
    assert KindOf(text) == Some(kind);
  }

  /** Every key can be read back from its text. */
  lemma {:induction false} KeyRoundTrip(key: Key)
    ensures ReadKey(KeyText(key)) == Some(key)
  {
    match key
    case OfDigest(team, day) => DigestKeyRoundTrip(team, day);
    case OfResend(team, date, uuid) => ResendKeyRoundTrip(team, date, uuid);
    case OfReminder(team, day, kind) => ReminderKeyRoundTrip(team, day, kind);
  }

  /** Keys have the same text only when their prefix, team, day and kind or uuid agree. */
  lemma {:induction false} KeyTextInjective(a: Key, b: Key)
    requires KeyText(a) == KeyText(b)
    ensures a == b
  {
    KeyRoundTrip(a);
    KeyRoundTrip(b);
  }
}
