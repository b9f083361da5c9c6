/**
 * Clock text of a departure or arrival: `formatTime(date)` keeps the first
 * five characters of `date.toTimeString()`.
 */
module TimeText {
  import opened Decimal

  type Hour = h: nat | h < 24
  type Minute = m: nat | m < 60
  type Second = s: nat | s < 60

  /**
   * The wall-clock reading of an instant in the device's time zone, as
   * `Date.prototype.toTimeString` reports it; `zone` is the designation
   * printed after the seconds, such as "GMT+0200 (Central European Summer Time)".
   */
  datatype LocalTime = LocalTime(hour: Hour, minute: Minute, second: Second, zone: string)

  /** "HH:MM", both parts zero-padded. */
  function ClockText(hour: Hour, minute: Minute): string {
    Pad2(hour) + ":" + Pad2(minute)
  }

  /** `toTimeString()`: "HH:MM:SS " followed by the zone designation. */
  function TimeString(t: LocalTime): (s: string)
    ensures |s| == 9 + |t.zone|
  {
    ClockText(t.hour, t.minute) + ":" + Pad2(t.second) + " " + t.zone
  }

  /** Shape of a clock text "HH:MM". */
  predicate IsClockText(s: string) {
    |s| == 5 && IsDigit(s[0]) && IsDigit(s[1]) && s[2] == ':' && IsDigit(s[3]) && IsDigit(s[4])
  }

  /** The hour and minute a clock text shows. */
  function ReadClock(s: string): (int, int)
    requires IsClockText(s)
  {
    (10 * DigitValue(s[0]) + DigitValue(s[1]), 10 * DigitValue(s[3]) + DigitValue(s[4]))
  }

  /** `formatTime`: the clock text of the local hour and minute. */
  function FormatTime(t: LocalTime): string {
    ClockText(t.hour, t.minute)
  }

  /** `formatTime` keeps the first five characters of `toTimeString()`. */
  lemma FormatTimeIsTimeStringPrefix(t: LocalTime)
    ensures FormatTime(t) == TimeString(t)[..5]
  {
    assert TimeString(t) == FormatTime(t) + (":" + Pad2(t.second) + " " + t.zone);
  }

  /** The clock text is "HH:MM", zero-padded, and shows exactly the local hour and minute. */
  lemma FormatTimeShowsHourAndMinute(t: LocalTime)
    ensures IsClockText(FormatTime(t))
    ensures ReadClock(FormatTime(t)) == (t.hour, t.minute)
  {
  }

  /** Two readings give the same clock text exactly when hour and minute agree: seconds and zone are dropped. */
  lemma FormatTimeKeepsHourAndMinute(a: LocalTime, b: LocalTime)
    ensures FormatTime(a) == FormatTime(b) <==> a.hour == b.hour && a.minute == b.minute
  {
    FormatTimeShowsHourAndMinute(a);
    FormatTimeShowsHourAndMinute(b);
    if a.hour == b.hour && a.minute == b.minute {
      assert FormatTime(a) == Pad2(a.hour) + ":" + Pad2(a.minute);
      assert FormatTime(b) == Pad2(b.hour) + ":" + Pad2(b.minute);
    }
  }

  lemma FormatTimeExample()
    ensures FormatTime(LocalTime(7, 5, 32, "GMT+0200 (Central European Summer Time)")) == "07:05"
  {
    assert FormatTime(LocalTime(7, 5, 32, "GMT+0200 (Central European Summer Time)")) == Pad2(7) + ":" + Pad2(5);
  }
}
