/** Calendar arithmetic of utils/dates.ts. An instant is an integer number of
    local milliseconds; calendar day `d` covers the instants
    `d * MsPerDay .. d * MsPerDay + MsPerDay - 1`, and day 0 is Thursday
    1 January 1970. Time zones and daylight saving are not modelled. */
module Dates {

  const MsPerDay: int := 86400000

  /** `Date.prototype.getDay` of a calendar day: Sunday is 0, Monday 1. */
  function Weekday(day: int): (w: int)
    ensures 0 <= w < 7
  {
    (day + 4) % 7
  }

  /** `startOfDay`: the calendar day an instant falls on. */
  function DayOf(ms: int): int {
    ms / MsPerDay
  }

  /** How many days back the Monday of the week lies. */
  function DiffToMonday(weekday: int): int {
    (weekday + 6) % 7
  }

  /** The Monday that starts the week of `day`. */
  function WeekStartDay(day: int): int {
    day - DiffToMonday(Weekday(day))
  }

  /** The offset is a day count within one week, 0 on Monday, 6 on Sunday. */
  lemma DiffToMondayRange(weekday: int)
    requires 0 <= weekday < 7
    ensures 0 <= DiffToMonday(weekday) <= 6
    ensures DiffToMonday(weekday) == 0 <==> weekday == 1
    ensures weekday == 0 ==> DiffToMonday(weekday) == 6
  {
  }

  /** The week of `day` starts on a Monday no later than `day` and ends no
      earlier than it. */
  lemma {:induction false} WeekStartIsMonday(day: int)
    ensures Weekday(WeekStartDay(day)) == 1
    ensures WeekStartDay(day) <= day <= WeekStartDay(day) + 6
  {
    var w := Weekday(day);
    var diff := DiffToMonday(w);
    DiffToMondayRange(w);
    assert (day + 4) % 7 == w;
    assert diff == (w + 6) % 7;
    assert (day - diff + 4) % 7 == 1 by {
      if w == 0 {
        assert diff == 6;
        assert day - diff + 4 == (day + 4) - 7 + 1;
      } else {
        assert diff == w - 1;
        assert day - diff + 4 == (day + 4) - w + 1;
      }
    }
  }

  /** An instant lies in [start of the first day, end of the last day] of a
      day range exactly when its calendar day lies in that range. */
  lemma InDayRange(ms: int, first: int, last: int)
    ensures first * MsPerDay <= ms <= last * MsPerDay + (MsPerDay - 1)
            <==> first <= DayOf(ms) <= last
  {
    var d := DayOf(ms);
    assert d * MsPerDay <= ms < d * MsPerDay + MsPerDay;
    if first <= d {
      assert first * MsPerDay <= d * MsPerDay;
    } else {
      assert (d + 1) * MsPerDay <= first * MsPerDay;
    }
    if d <= last {
      assert d * MsPerDay <= last * MsPerDay;
    } else {
      assert (last + 1) * MsPerDay <= d * MsPerDay;
    }
  }

  /** A JavaScript `Date`: a calendar day and a time of day. */
  class DateTime {
    var day: int
    var msOfDay: int

    ghost predicate Valid()
      reads this
    {
      0 <= msOfDay < MsPerDay
    }

    /** `getTime()` */
    function Millis(): int
      reads this
    {
      day * MsPerDay + msOfDay
    }

    /** `getDay()` */
    function GetDay(): (w: int)
      reads this
      ensures 0 <= w < 7
    {
      Weekday(day)
    }

    /** `new Date(ms)` */
    constructor FromMillis(ms: int)
      ensures Valid() && Millis() == ms && day == DayOf(ms)
    {
      day := ms / MsPerDay;
      msOfDay := ms % MsPerDay;
    }

    /** `new Date(other)` */
    constructor Copy(other: DateTime)
      requires other.Valid()
      ensures Valid() && day == other.day && msOfDay == other.msOfDay
    {
      day := other.day;
      msOfDay := other.msOfDay;
    }

    /** `setDate(getDate() + k)`: the same time of day, `k` days later. */
    method ShiftDays(k: int)
      modifies this
      ensures day == old(day) + k && msOfDay == old(msOfDay)
    {
      day := day + k;
    }

    /** `setHours(h, m, s, ms)` with in-range components. */
    method SetHours(h: int, m: int, s: int, ms: int)
      requires 0 <= h < 24 && 0 <= m < 60 && 0 <= s < 60 && 0 <= ms < 1000
      modifies this
      ensures Valid() && day == old(day)
      ensures msOfDay == ((h * 60 + m) * 60 + s) * 1000 + ms
    {
      msOfDay := ((h * 60 + m) * 60 + s) * 1000 + ms;
    }
  }

  /** `getCurrentWeekRange`, with the current instant passed in: midnight of
      this week's Monday and the last millisecond of its Sunday. */
  method GetCurrentWeekRange(now: DateTime) returns (start: DateTime, end: DateTime)
    requires now.Valid()
    ensures fresh(start) && fresh(end) && start.Valid() && end.Valid()
    ensures start.day == WeekStartDay(now.day) && Weekday(start.day) == 1 && start.msOfDay == 0
    ensures end.day == start.day + 6 && end.msOfDay == MsPerDay - 1
    ensures start.Millis() <= now.Millis() <= end.Millis()
  {
    var day := now.GetDay();
    var diffToMonday := (day + 6) % 7;
    start := new DateTime.Copy(now);
    start.ShiftDays(-diffToMonday);
    start.SetHours(0, 0, 0, 0);

    end := new DateTime.Copy(start);
    end.ShiftDays(6);
    end.SetHours(23, 59, 59, 999);

    WeekStartIsMonday(now.day);
    InDayRange(now.Millis(), start.day, end.day);
  }
}
