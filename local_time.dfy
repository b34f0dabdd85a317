/**
 * Time normalisation. Instants are whole seconds since the Unix epoch; the
 * local wall-clock instant is the UTC instant shifted by the location's
 * offset (seconds east of UTC). Only the day index and the second of the day
 * of a local instant matter to the rest of the system.
 */
module LocalTime {
  import opened Wrappers

  const SecondsPerDay: int := 86400

  /** convert_timestamp_to_datetime: the UTC instant shifted by the offset. */
  function ToLocal(timestamp: int, offset: int): (local: int)
    ensures local - offset == timestamp
  {
    timestamp + offset
  }

  /** The local calendar day an instant falls on (floor division by a day). */
  function DayIndex(t: int): int {
    t / SecondsPerDay
  }

  function SecondOfDay(t: int): (s: int)
    ensures 0 <= s < SecondsPerDay
    ensures t == DayIndex(t) * SecondsPerDay + s
  {
    t % SecondsPerDay
  }

  /** Local midnight (00:00:00) of the day containing `t`. */
  function DayStart(t: int): int {
    DayIndex(t) * SecondsPerDay
  }

  /** The last whole second (23:59:59) of the day containing `t`. */
  function DayEnd(t: int): int {
    DayStart(t) + SecondsPerDay - 1
  }

  /** `today_start <= local <= today_end`, the test extract_today_data applies. */
  predicate InDayOf(local: int, now: int) {
    DayStart(now) <= local <= DayEnd(now)
  }

  /** The window test is exactly "same local calendar day". */
  lemma InDayOfIffSameDay(local: int, now: int)
    ensures InDayOf(local, now) <==> DayIndex(local) == DayIndex(now)
  {
    var d, n := DayIndex(local), DayIndex(now);
    var s := SecondOfDay(local);
    assert local == d * SecondsPerDay + s;
    if d < n {
      assert d * SecondsPerDay <= (n - 1) * SecondsPerDay;
    } else if d > n {
      assert (n + 1) * SecondsPerDay <= d * SecondsPerDay;
    }
  }

  /** Local 23:59:59 is inside the day, the next 00:00:00 is not. */
  lemma DayBoundaries(now: int)
    ensures InDayOf(DayStart(now), now)
    ensures InDayOf(DayStart(now) + 86399, now)
    ensures !InDayOf(DayStart(now) + 86400, now)
    ensures !InDayOf(DayStart(now) - 1, now)
  {
    InDayOfIffSameDay(now, now);
  }

  /**
   * Shifting an instant by one day moves its local time to the next local
   * day and leaves the wall-clock label unchanged, whatever the offset.
   */
  lemma ShiftByOneDay(t: int, offset: int)
    ensures DayIndex(ToLocal(t + SecondsPerDay, offset)) == DayIndex(ToLocal(t, offset)) + 1
    ensures Label(ToLocal(t + SecondsPerDay, offset)) == Label(ToLocal(t, offset))
  {
    var local := ToLocal(t, offset);
    var d, s := DayIndex(local), SecondOfDay(local);
    var next := ToLocal(t + SecondsPerDay, offset);
    assert next == (d + 1) * SecondsPerDay + s;
    DivisionIsUnique(next, d + 1, s);
  }

  /** Writing `t` as whole days plus a second of the day determines both. */
  lemma DivisionIsUnique(t: int, d: int, s: int)
    requires 0 <= s < SecondsPerDay && t == d * SecondsPerDay + s
    ensures DayIndex(t) == d && SecondOfDay(t) == s
  {
  }

  function HourOf(t: int): (h: int)
    ensures 0 <= h < 24
  {
    SecondOfDay(t) / 3600
  }

  function MinuteOf(t: int): (m: int)
    ensures 0 <= m < 60
  {
    SecondOfDay(t) % 3600 / 60
  }

  function DigitChar(d: int): char
    requires 0 <= d < 10
  {
    ('0' as int + d) as char
  }

  function DigitValue(c: char): Option<int> {
    if '0' <= c <= '9' then Some(c as int - '0' as int) else None
  }

  /** A number below 100, zero-padded to two digits. */
  function TwoDigits(n: int): (s: string)
    requires 0 <= n < 100
  {
    [DigitChar(n / 10), DigitChar(n % 10)]
  }

  /** strftime("%H:%M") of a local instant. */
  function Label(t: int): (s: string) {
    TwoDigits(HourOf(t)) + ":" + TwoDigits(MinuteOf(t))
  }

  /** Reads an "HH:MM" label back into its hour and minute. */
  function ParseLabel(s: string): Option<(int, int)> {
    if |s| != 5 || s[2] != ':' then None
    else
      match (DigitValue(s[0]), DigitValue(s[1]), DigitValue(s[3]), DigitValue(s[4]))
      case (Some(h1), Some(h0), Some(m1), Some(m0)) => Some((10 * h1 + h0, 10 * m1 + m0))
      case _ => None
  }

  /** The label is the zero-padded hour and minute of the local instant. */
  lemma LabelRoundTrip(t: int)
    ensures ParseLabel(Label(t)) == Some((HourOf(t), MinuteOf(t)))
  {
    var s := Label(t);
    var h, m := HourOf(t), MinuteOf(t);
    assert |s| == 5 && s[2] == ':';
    assert DigitValue(s[0]) == Some(h / 10);
    assert DigitValue(s[1]) == Some(h % 10);
    assert DigitValue(s[3]) == Some(m / 10);
    assert DigitValue(s[4]) == Some(m % 10);
  }

  /** Two local instants get the same label exactly when hour and minute agree. */
  lemma LabelsEqualIff(t: int, u: int)
    ensures Label(t) == Label(u) <==> HourOf(t) == HourOf(u) && MinuteOf(t) == MinuteOf(u)
  {
    LabelRoundTrip(t);
    LabelRoundTrip(u);
  }

  /** A label never contains a comma, so it cannot contain ", ". */
  lemma LabelHasNoComma(t: int)
    ensures ',' !in Label(t)
  {
    var s := Label(t);
    assert |s| == 5;
    assert forall i :: 0 <= i < 5 ==> s[i] == ':' || '0' <= s[i] <= '9';
  }
}
