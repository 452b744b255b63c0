/**
 * Dates and calendars, reduced to what the day-bucketed query needs: a
 * point in time is an integer, and a calendar maps any instant to the start
 * of its day and a day start to the start of the following day. Days may
 * have different lengths (daylight-saving changes), so no fixed length is
 * assumed except by the `FixedOffset` example.
 */
module Days {

  /** A point in time, in seconds. */
  type Instant = int

  /** `startOfDay(for:)` and `date(byAdding: .day, value: 1, to:)` of a calendar. */
  datatype Calendar = Calendar(startOfDay: Instant -> Instant, nextDayStart: Instant -> Instant)

  /**
   * The calendar cuts the timeline into consecutive days: every instant lies
   * in the day that starts at its start of day, and every instant from a day
   * start up to the next day start has that day start.
   */
  ghost predicate WellFormed(cal: Calendar) {
    && (forall t :: cal.startOfDay(t) <= t < cal.nextDayStart(cal.startOfDay(t)))
    && (forall t :: cal.startOfDay(cal.startOfDay(t)) == cal.startOfDay(t))
    && (forall s, t :: cal.startOfDay(s) == s && s <= t < cal.nextDayStart(s) ==> cal.startOfDay(t) == s)
  }

  /** `calendar.isDate(t, inSameDayAs: day)`, the in-memory backend's test. */
  predicate IsSameDay(cal: Calendar, t: Instant, day: Instant) {
    cal.startOfDay(t) == cal.startOfDay(day)
  }

  /** The durable backend's half-open range `[startOfDay(day), next day start)`. */
  predicate InDayRange(cal: Calendar, day: Instant, t: Instant) {
    var start := cal.startOfDay(day);
    start <= t < cal.nextDayStart(start)
  }

  /** The two backends bucket instants into the same days. */
  lemma SameDayIffInRange(cal: Calendar, day: Instant, t: Instant)
    requires WellFormed(cal)
    ensures IsSameDay(cal, t, day) <==> InDayRange(cal, day, t)
  {
    var start := cal.startOfDay(day);
    assert cal.startOfDay(start) == start;
    if InDayRange(cal, day, t) {
      assert cal.startOfDay(t) == start;
    }
    if IsSameDay(cal, t, day) {
      assert cal.startOfDay(t) <= t < cal.nextDayStart(cal.startOfDay(t));
    }
  }

  const SecondsPerDay: int := 86400

  /** A calendar whose days are all 24 hours long, `offset` seconds east of UTC. */
  function FixedOffset(offset: int): Calendar {
    Calendar(t => t - (t + offset) % SecondsPerDay, s => s + SecondsPerDay)
  }

  lemma FixedOffsetWellFormed(offset: int)
    ensures WellFormed(FixedOffset(offset))
  {
    var cal := FixedOffset(offset);
    forall t ensures cal.startOfDay(cal.startOfDay(t)) == cal.startOfDay(t) {
      var m := (t + offset) % SecondsPerDay;
      assert (t - m + offset) % SecondsPerDay == 0 by {
        assert t + offset == ((t + offset) / SecondsPerDay) * SecondsPerDay + m;
        assert t - m + offset == ((t + offset) / SecondsPerDay) * SecondsPerDay;
      }
    }
    forall s, t | cal.startOfDay(s) == s && s <= t < cal.nextDayStart(s)
      ensures cal.startOfDay(t) == s
    {
      var q := (s + offset) / SecondsPerDay;
      assert (s + offset) % SecondsPerDay == 0;
      assert s + offset == q * SecondsPerDay;
      assert t + offset == q * SecondsPerDay + (t - s);
      assert (t + offset) % SecondsPerDay == t - s;
    }
  }
}
