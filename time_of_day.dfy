/** Time-of-day strings and the duration of a work session.

    The tracker writes times as `HH:MM:SS` (the first eight characters of a
    JavaScript `toTimeString()`), reads them back by parsing
    `1970-01-01T<time>` as a date, and stores the worked time as the string
    `toFixed(2)` makes of the hour difference. Here a time of day is a number
    of seconds since midnight and worked time is a whole number of
    hundredths of an hour. */
module TimeOfDay {

  import opened Wrappers

  const SecondsPerDay := 86400

  /** Worked time as `toFixed(2)` renders it: a number of hundredths of an
      hour, or `NaN` when one of the two times did not parse. */
  datatype Hours = Hundredths(n: int) | NaN

  function DigitValue(c: char): (d: Option<nat>)
    ensures d.Some? <==> '0' <= c <= '9'
    ensures d.Some? ==> d.value < 10 && c == ('0' as int + d.value) as char
  {
    if '0' <= c <= '9' then Some(c as int - '0' as int) else None
  }

  /** The two decimal digits at `s[i]`, `s[i + 1]`. */
  function TwoDigits(s: string, i: nat): (r: Option<nat>)
    requires i + 2 <= |s|
    ensures r.Some? <==> DigitValue(s[i]).Some? && DigitValue(s[i + 1]).Some?
    ensures r.Some? ==> r.value < 100 && r.value == 10 * DigitValue(s[i]).value + DigitValue(s[i + 1]).value
  {
    match (DigitValue(s[i]), DigitValue(s[i + 1]))
    case (Some(hi), Some(lo)) => Some(10 * hi + lo)
    case _ => None
  }

  /** The time-of-day part of the date-time string format JavaScript's `Date`
      parses: `HH:MM` or `HH:MM:SS`, hours 00 to 23, minutes and seconds 00 to
      59, and `24:00` / `24:00:00` for the end of the day. Anything else is an
      invalid date, which is `None` here. */
  function ParseTime(t: string): (r: Option<nat>)
    ensures r.Some? ==> r.value <= SecondsPerDay
    ensures r.Some? ==> |t| == 5 || |t| == 8
    ensures r.Some? ==> t[2] == ':' && (|t| == 8 ==> t[5] == ':')
    ensures r.Some? ==> TwoDigits(t, 0).Some? && TwoDigits(t, 3).Some? && TwoDigits(t, 3).value < 60
    ensures r.Some? && |t| == 8 ==> TwoDigits(t, 6).Some? && TwoDigits(t, 6).value < 60
    ensures r.Some? ==> TwoDigits(t, 0).value <= 24
  {
    if |t| != 5 && |t| != 8 then None
    else if t[2] != ':' || (|t| == 8 && t[5] != ':') then None
    else
      match (TwoDigits(t, 0), TwoDigits(t, 3), if |t| == 8 then TwoDigits(t, 6) else Some(0))
      case (Some(h), Some(m), Some(s)) =>
        if h < 24 && m < 60 && s < 60 then Some(h * 3600 + m * 60 + s)
        else if h == 24 && m == 0 && s == 0 then Some(SecondsPerDay)
        else None
      case _ => None
  }

  /** Two decimal digits with a leading zero. */
  function Pad2(n: nat): (s: string)
    requires n < 100
    ensures |s| == 2 && TwoDigits(s, 0) == Some(n)
  {
    [('0' as int + n / 10) as char, ('0' as int + n % 10) as char]
  }

  /** `HH:MM:SS` for a time of day, the form `toTimeString().slice(0, 8)`
      gives the tracker's clock readings. */
  function TimeString(secs: nat): (t: string)
    requires secs < SecondsPerDay
    ensures |t| == 8 && t[2] == ':' && t[5] == ':'
  {
    Pad2(secs / 3600) + ":" + Pad2(secs / 60 % 60) + ":" + Pad2(secs % 60)
  }

  lemma ClockArithmetic(secs: nat)
    requires secs < SecondsPerDay
    ensures secs / 3600 < 24 && secs / 60 % 60 < 60 && secs % 60 < 60
    ensures secs / 3600 * 3600 + secs / 60 % 60 * 60 + secs % 60 == secs
  {
    var q := secs / 60;
    assert secs == q * 60 + secs % 60;
    assert q == q / 60 * 60 + q % 60;
    assert q / 60 == secs / 3600;
  }

  /** Reading back a time the tracker wrote gives the same time of day. */
  lemma {:induction false} ParseTimeString(secs: nat)
    requires secs < SecondsPerDay
    ensures ParseTime(TimeString(secs)) == Some(secs)
  {
    var t := TimeString(secs);
    ClockArithmetic(secs);
    assert t[0..2] == Pad2(secs / 3600);
    assert t[3..5] == Pad2(secs / 60 % 60);
    assert t[6..8] == Pad2(secs % 60);
    assert TwoDigits(t, 0) == TwoDigits(t[0..2], 0);
    assert TwoDigits(t, 3) == TwoDigits(t[3..5], 0);
    assert TwoDigits(t, 6) == TwoDigits(t[6..8], 0);
  }

  lemma ClockFields(h: nat, m: nat, s: nat)
    requires h < 24 && m < 60 && s < 60
    ensures var secs := h * 3600 + m * 60 + s;
      secs / 3600 == h && secs / 60 % 60 == m && secs % 60 == s
  {
    var secs := h * 3600 + m * 60 + s;
    assert secs == (h * 60 + m) * 60 + s;
    assert secs / 60 == h * 60 + m;
    assert secs == h * 3600 + (m * 60 + s) && m * 60 + s < 3600;
  }

  /** The `HH:MM` prefix of a clock reading parses to the start of its
      minute. */
  lemma {:induction false} ParseShortTimeString(secs: nat)
    requires secs < SecondsPerDay
    ensures ParseTime(TimeString(secs)[..5]) == Some(secs / 60 * 60)
  {
    var t := TimeString(secs)[..5];
    ClockArithmetic(secs);
    assert t[0..2] == Pad2(secs / 3600);
    assert t[3..5] == Pad2(secs / 60 % 60);
    assert TwoDigits(t, 0) == TwoDigits(t[0..2], 0);
    assert TwoDigits(t, 3) == TwoDigits(t[3..5], 0);
    var q := secs / 60;
    assert q == q / 60 * 60 + q % 60;
    assert q / 60 == secs / 3600;
  }

  lemma DigitsDetermineChars(s: string, i: nat, n: nat)
    requires i + 2 <= |s| && TwoDigits(s, i) == Some(n)
    ensures s[i..i + 2] == Pad2(n)
  {
    var hi, lo := DigitValue(s[i]).value, DigitValue(s[i + 1]).value;
    assert n / 10 == hi && n % 10 == lo;
  }

  /** An `HH:MM:SS` string that parses to a time before midnight is the one
      `TimeString` writes for that time: the form is canonical. */
  lemma {:induction false} TimeStringOfParse(t: string)
    requires |t| == 8 && ParseTime(t).Some? && ParseTime(t).value < SecondsPerDay
    ensures TimeString(ParseTime(t).value) == t
  {
    var h, m, s := TwoDigits(t, 0).value, TwoDigits(t, 3).value, TwoDigits(t, 6).value;
    var secs := ParseTime(t).value;
    assert h < 24 && m < 60 && s < 60 && secs == h * 3600 + m * 60 + s;
    ClockFields(h, m, s);
    DigitsDetermineChars(t, 0, h);
    DigitsDetermineChars(t, 3, m);
    DigitsDetermineChars(t, 6, s);
    assert t == t[0..2] + ":" + t[3..5] + ":" + t[6..8];
  }

  /** `toFixed(2)` of `seconds / 3600` hours, in hundredths: the nearest
      hundredth, a tie going to the larger magnitude (the sign is taken off
      before rounding). */
  function RoundToHundredths(seconds: int): (n: int)
    ensures seconds >= 0 ==> -18 < 36 * n - seconds <= 18
    ensures seconds < 0 ==> -18 <= 36 * n - seconds < 18
  {
    if seconds >= 0 then (seconds + 18) / 36 else -((18 - seconds) / 36)
  }

  /** The contract of `RoundToHundredths` leaves no choice. */
  lemma RoundingIsUnique(seconds: int, n: int)
    requires seconds >= 0 ==> -18 < 36 * n - seconds <= 18
    requires seconds < 0 ==> -18 <= 36 * n - seconds < 18
    ensures n == RoundToHundredths(seconds)
  {
    var r := RoundToHundredths(seconds);
    assert -36 < 36 * (n - r) < 36;
  }

  /** The hours worked from `start` to `end`, both parsed as times on the
      same day: negative when `end` is earlier than `start`, since nothing
      allows for a session that crosses midnight. */
  function Duration(start: Option<string>, end: string): (h: Hours)
    ensures h.Hundredths? <==> start.Some? && ParseTime(start.value).Some? && ParseTime(end).Some?
    ensures h.Hundredths? ==>
      var d := ParseTime(end).value - ParseTime(start.value).value;
      (d >= 0 ==> -18 < 36 * h.n - d <= 18) && (d < 0 ==> -18 <= 36 * h.n - d < 18)
  {
    if start.None? then NaN
    else match (ParseTime(start.value), ParseTime(end))
      case (Some(a), Some(b)) => Hundredths(RoundToHundredths(b as int - a))
      case _ => NaN
  }

  /** The sign of a duration: negative exactly when the end is at least a
      half hundredth of an hour (18 seconds) before the start. */
  lemma DurationSign(start: string, end: string)
    requires ParseTime(start).Some? && ParseTime(end).Some?
    ensures var h := Duration(Some(start), end);
      var d := ParseTime(end).value - ParseTime(start).value;
      h.Hundredths? && (h.n < 0 <==> d <= -18) && (d >= 0 ==> h.n >= 0)
  {
  }

  lemma DurationOfEqualTimes(t: string)
    requires ParseTime(t).Some?
    ensures Duration(Some(t), t) == Hundredths(0)
  {
  }

  lemma DurationExamples()
    ensures Duration(Some("09:00:00"), "17:30:00") == Hundredths(850)
    ensures Duration(Some("09:00"), "09:00") == Hundredths(0)
    ensures Duration(Some("23:00"), "01:00") == Hundredths(-2200)
    ensures Duration(None, "17:30:00") == NaN
  {
    assert ParseTime("09:00:00") == Some(32400);
    assert ParseTime("17:30:00") == Some(63000);
    assert ParseTime("23:00") == Some(82800);
    assert ParseTime("01:00") == Some(3600);
  }
}
