/** Wall-clock times of day. The entry form accepts the pattern
    `^([0-1]?[0-9]|2[0-3]):[0-5][0-9]$`; the hours calculator reads a time by
    building the instant `1970-01-01T<time>:00`, which is well defined for the
    two-digit form `HH:MM` that this module parses into minutes after midnight. */
module Clock {
  import opened Types

  const MinutesPerDay := 24 * 60

  predicate IsDigit(c: char)
  {
    '0' <= c <= '9'
  }

  function DigitValue(c: char): int
    requires IsDigit(c)
  {
    c as int - '0' as int
  }

  /** The hour alternative `[0-1]?[0-9]|2[0-3]`. */
  predicate HourText(h: string)
  {
    (|h| == 1 && IsDigit(h[0]))
    || (|h| == 2 && '0' <= h[0] <= '1' && IsDigit(h[1]))
    || (|h| == 2 && h[0] == '2' && '0' <= h[1] <= '3')
  }

  /** The minute part `[0-5][0-9]`. */
  predicate MinuteText(m: string)
  {
    |m| == 2 && '0' <= m[0] <= '5' && IsDigit(m[1])
  }

  /** The whole time pattern: an hour, a colon, a minute and nothing else. */
  predicate MatchesTimePattern(s: string)
  {
    (|s| >= 2 && s[1] == ':' && HourText(s[..1]) && MinuteText(s[2..]))
    || (|s| >= 3 && s[2] == ':' && HourText(s[..2]) && MinuteText(s[3..]))
  }

  /** Minutes after midnight of a two-digit `HH:MM` time. */
  function ParseClock(s: string): (r: Option<int>)
    ensures r.Some? <==> |s| == 5 && MatchesTimePattern(s)
    ensures r.Some? ==> 0 <= r.value < MinutesPerDay
  {
    if |s| == 5 && IsDigit(s[0]) && IsDigit(s[1]) && s[2] == ':' && IsDigit(s[3]) && IsDigit(s[4]) then
      var hour := DigitValue(s[0]) * 10 + DigitValue(s[1]);
      var minute := DigitValue(s[3]) * 10 + DigitValue(s[4]);
      assert s[..2] == [s[0], s[1]] && s[3..] == [s[3], s[4]];
      if hour <= 23 && minute <= 59 then Some(hour * 60 + minute) else None
    else
      None
  }

  function DigitChar(n: int): char
    requires 0 <= n <= 9
  {
    ('0' as int + n) as char
  }

  /** The two-digit text of a time of day, as an `<input type="time">` shows it. */
  function FormatClock(t: int): string
    requires 0 <= t < MinutesPerDay
  {
    var hour, minute := t / 60, t % 60;
    [DigitChar(hour / 10), DigitChar(hour % 10), ':', DigitChar(minute / 10), DigitChar(minute % 10)]
  }

  /** Parsing inverts formatting. */
  lemma ParseFormat(t: int)
    requires 0 <= t < MinutesPerDay
    ensures ParseClock(FormatClock(t)) == Some(t)
  {
    var s := FormatClock(t);
    var hour, minute := t / 60, t % 60;
    assert DigitValue(s[0]) * 10 + DigitValue(s[1]) == hour;
    assert DigitValue(s[3]) * 10 + DigitValue(s[4]) == minute;
  }

  /** Formatting inverts parsing: a two-digit time is determined by its minutes. */
  lemma FormatParse(s: string)
    requires ParseClock(s).Some?
    ensures FormatClock(ParseClock(s).value) == s
  {
    var hour := DigitValue(s[0]) * 10 + DigitValue(s[1]);
    var minute := DigitValue(s[3]) * 10 + DigitValue(s[4]);
    var t := hour * 60 + minute;
    assert t / 60 == hour && t % 60 == minute;
    var f := FormatClock(t);
    assert f[0] == s[0] && f[1] == s[1] && f[2] == s[2] && f[3] == s[3] && f[4] == s[4];
  }
}
