/** `check_time_window` of ipcam_analysis.py over times of day, counted in microseconds
    since midnight (the resolution of a Python `time`). */
module TimeWindow {
  import opened Wrappers

  const DayMicros: int := 86_400_000_000

  type TimeOfDay = t: int | 0 <= t < DayMicros

  function Micros(hours: int, minutes: int): TimeOfDay
    requires 0 <= hours < 24 && 0 <= minutes < 60
  {
    (hours * 60 + minutes) * 60_000_000
  }

  /** True when `now` is inside the window; the window is absent when either end is,
      and then every time is inside. When the start is not before the end the window
      runs through midnight, and equal ends make it the whole day. */
  function CheckTimeWindow(start: Option<TimeOfDay>, end: Option<TimeOfDay>, now: TimeOfDay): (active: bool)
    ensures start.None? || end.None? ==> active
    ensures start.Some? && end.Some? && start.value == end.value ==> active
  {
    if start.None? || end.None? then true
    else if start.value < end.value then start.value <= now <= end.value
    else now >= start.value || now <= end.value
  }

  /** A window within one day includes both ends. */
  lemma SameDayWindow(s: TimeOfDay, e: TimeOfDay, now: TimeOfDay)
    requires s < e
    ensures CheckTimeWindow(Some(s), Some(e), now) <==> s <= now <= e
    ensures CheckTimeWindow(Some(s), Some(e), s) && CheckTimeWindow(Some(s), Some(e), e)
  {
  }

  /** A window through midnight excludes exactly the times strictly between its end and
      its start. */
  lemma OvernightWindow(s: TimeOfDay, e: TimeOfDay, now: TimeOfDay)
    requires s > e
    ensures CheckTimeWindow(Some(s), Some(e), now) <==> !(e < now < s)
  {
  }

  /** The length of the window measured forward from its start, wrapping at midnight. */
  function CircularSpan(s: TimeOfDay, e: TimeOfDay): (n: int)
    ensures 0 <= n < DayMicros
  {
    if s <= e then e - s else e - s + DayMicros
  }

  /** An independent reading of the rule: a time is inside the window when walking
      forward from the start, modulo a day, it is reached within the window's length.
      This holds for every pair of ends except equal ones, which the source treats as
      always active. */
  lemma WindowIsCircularInterval(s: TimeOfDay, e: TimeOfDay, now: TimeOfDay)
    requires s != e
    ensures CheckTimeWindow(Some(s), Some(e), now) <==> (now - s) % DayMicros <= CircularSpan(s, e)
  {
    if now >= s {
      assert (now - s) % DayMicros == now - s;
    } else {
      assert (now - s) % DayMicros == now - s + DayMicros by {
        assert 0 <= now - s + DayMicros < DayMicros;
        assert now - s == (now - s + DayMicros) - DayMicros;
      }
    }
  }

  lemma WindowExamples()
    ensures CheckTimeWindow(Some(Micros(22, 0)), Some(Micros(6, 0)), Micros(23, 30))
    ensures CheckTimeWindow(Some(Micros(22, 0)), Some(Micros(6, 0)), Micros(3, 0))
    ensures !CheckTimeWindow(Some(Micros(22, 0)), Some(Micros(6, 0)), Micros(12, 0))
    ensures CheckTimeWindow(Some(Micros(8, 0)), Some(Micros(17, 0)), Micros(17, 0))
    ensures !CheckTimeWindow(Some(Micros(8, 0)), Some(Micros(17, 0)), Micros(17, 0) + 1)
  {
  }
}
