/** The weekly summary screen (screens/summary/WeeklySummaryScreen.tsx): the
    user's entries of the current week in date order, their total, the goal
    for the week and the share of it used. The week is the interval
    [start, end] of instants computed by `getCurrentWeekRange`. */
module WeeklySummary {
  import opened Wrappers
  import opened Numbers
  import opened Dates
  import opened UsageTypes
  import opened Filtering
  import opened Sorting
  import opened Calc

  /** The sort key `+new Date(e.date)`. */
  function DateKey(e: UsageEntry): int {
    e.date
  }

  /** The two `filter` steps: the user's entries, then those within the
      interval, both ends included. */
  function WeekEntries(entries: seq<UsageEntry>, userId: string, start: int, end: int): seq<UsageEntry> {
    Filter(Filter(entries, (e: UsageEntry) => e.userId == userId),
           (e: UsageEntry) => start <= e.date <= end)
  }

  /** `myWeekEntries`: nothing without a user, otherwise the week's entries
      sorted by ascending date. */
  function MyWeekEntries(user: Option<User>, entries: seq<UsageEntry>, start: int, end: int): seq<UsageEntry> {
    if user.None? then [] else SortBy(WeekEntries(entries, user.value.id, start, end), DateKey)
  }

  /** The list holds exactly the user's stored entries dated within the
      interval. */
  lemma WeekListMembers(user: Option<User>, entries: seq<UsageEntry>, start: int, end: int)
    ensures user.None? ==> MyWeekEntries(user, entries, start, end) == []
    ensures var r := MyWeekEntries(user, entries, start, end);
            forall k :: 0 <= k < |r| ==> user.Some? && r[k].userId == user.value.id && start <= r[k].date <= end
    ensures var r := MyWeekEntries(user, entries, start, end);
            forall k :: (0 <= k < |entries| && user.Some? && entries[k].userId == user.value.id
                         && start <= entries[k].date <= end) ==> entries[k] in r
  {
    if user.Some? {
      assert MyWeekEntries(user, entries, start, end)
          == SortBy(WeekEntries(entries, user.value.id, start, end), DateKey);
      WeekListSound(user.value.id, entries, start, end);
      WeekListComplete(user.value.id, entries, start, end);
    }
  }

  /** Every listed entry is the user's and within the interval. */
  lemma WeekListSound(userId: string, entries: seq<UsageEntry>, start: int, end: int)
    ensures var r := SortBy(WeekEntries(entries, userId, start, end), DateKey);
            forall k :: 0 <= k < |r| ==> r[k].userId == userId && start <= r[k].date <= end
  {
    var mine := (e: UsageEntry) => e.userId == userId;
    var inWeek := (e: UsageEntry) => start <= e.date <= end;
    var own := Filter(entries, mine);
    var w := WeekEntries(entries, userId, start, end);
    FilterSatisfies(entries, mine);
    FilterSatisfies(own, inWeek);
    SortByPermutes(w, DateKey);
    var r := SortBy(w, DateKey);
    forall k | 0 <= k < |r| ensures r[k].userId == userId && start <= r[k].date <= end {
      assert r[k] in multiset(w);
      var j :| 0 <= j < |w| && w[j] == r[k];
      FilterSubMultiset(own, inWeek);
      assert w[j] in multiset(own);
      var i :| 0 <= i < |own| && own[i] == w[j];
    }
  }

  /** Every stored entry of the user within the interval is listed. */
  lemma WeekListComplete(userId: string, entries: seq<UsageEntry>, start: int, end: int)
    ensures var r := SortBy(WeekEntries(entries, userId, start, end), DateKey);
            forall k :: (0 <= k < |entries| && entries[k].userId == userId
                         && start <= entries[k].date <= end) ==> entries[k] in r
  {
    var mine := (e: UsageEntry) => e.userId == userId;
    var inWeek := (e: UsageEntry) => start <= e.date <= end;
    var own := Filter(entries, mine);
    var w := WeekEntries(entries, userId, start, end);
    FilterKeeps(entries, mine);
    FilterKeeps(own, inWeek);
    SortByPermutes(w, DateKey);
    var r := SortBy(w, DateKey);
    forall k | 0 <= k < |entries| && entries[k].userId == userId && start <= entries[k].date <= end
      ensures entries[k] in r
    {
      var i :| 0 <= i < |own| && own[i] == entries[k];
      assert entries[k] in multiset(w);
    }
  }

  /** The list is in ascending date order, entries of the same instant in
      stored order, and it takes no stored entry more often than it occurs. */
  lemma WeekListOrder(user: Option<User>, entries: seq<UsageEntry>, start: int, end: int)
    requires user.Some?
    ensures SortedBy(MyWeekEntries(user, entries, start, end), DateKey)
    ensures multiset(MyWeekEntries(user, entries, start, end)) <= multiset(entries)
    ensures forall t :: KeyFilter(MyWeekEntries(user, entries, start, end), DateKey, t)
                     == KeyFilter(WeekEntries(entries, user.value.id, start, end), DateKey, t)
  {
    var mine := (e: UsageEntry) => e.userId == user.value.id;
    var own := Filter(entries, mine);
    var w := WeekEntries(entries, user.value.id, start, end);
    SortByPermutes(w, DateKey);
    FilterSubMultiset(entries, mine);
    FilterSubMultiset(own, (e: UsageEntry) => start <= e.date <= end);
    forall t ensures KeyFilter(SortBy(w, DateKey), DateKey, t) == KeyFilter(w, DateKey, t) {
      SortByStable(w, DateKey, t);
    }
  }

  /** The week interval of `getCurrentWeekRange` holds exactly the entries
      whose calendar day is one of the seven days from that week's Monday. */
  lemma WeekWindowDays(e: UsageEntry, monday: int)
    ensures monday * MsPerDay <= e.date <= (monday + 6) * MsPerDay + (MsPerDay - 1)
            <==> monday <= DayOf(e.date) <= monday + 6
  {
    InDayRange(e.date, monday, monday + 6);
  }

  /** What the screen shows: the total, the goal for the week, the share
      used and that share as a whole percentage. */
  datatype WeekTotals = WeekTotals(totalMinutes: int, goalTotal: int, pct: real, pctText: int)

  function Totals(user: Option<User>, entries: seq<UsageEntry>, start: int, end: int): WeekTotals {
    var total := SumMinutes(MyWeekEntries(user, entries, start, end));
    var goalTotal := DailyGoal(user) * 7;
    var pct := GoalFraction(total as real, goalTotal as real);
    WeekTotals(total, goalTotal, pct, Round(pct * 100.0))
  }

  /** The total is the sum over the week's entries in any order (the sort
      does not change it), the goal is seven daily goals, and with no
      negative entry the share lies in [0, 1] and the percentage in
      [0, 100]. */
  lemma TotalsFacts(user: Option<User>, entries: seq<UsageEntry>, start: int, end: int)
    ensures var t := Totals(user, entries, start, end);
            && t.totalMinutes == (if user.None? then 0 else SumMinutes(WeekEntries(entries, user.value.id, start, end)))
            && t.goalTotal == (if user.None? then 0 else 7 * user.value.dailyGoalMinutes)
            && (t.goalTotal <= 0 ==> t.pct == 0.0 && t.pctText == 0)
            && (t.goalTotal > 0 && t.totalMinutes >= t.goalTotal ==> t.pct == 1.0 && t.pctText == 100)
            && t.pct <= 1.0 && t.pctText <= 100
    ensures AllNonNegative(entries) ==>
              var t := Totals(user, entries, start, end);
              0.0 <= t.pct <= 1.0 && 0 <= t.pctText <= 100
  {
    var t := Totals(user, entries, start, end);
    if user.Some? {
      var w := WeekEntries(entries, user.value.id, start, end);
      SortByPermutes(w, DateKey);
      SumPermutation(SortBy(w, DateKey), w);
      if AllNonNegative(entries) {
        var mine := (e: UsageEntry) => e.userId == user.value.id;
        var nonNeg := (e: UsageEntry) => e.minutesUsed >= 0;
        FilterKeepsProperty(entries, mine, nonNeg);
        FilterKeepsProperty(Filter(entries, mine), (e: UsageEntry) => start <= e.date <= end, nonNeg);
        SumNonNegative(w);
      }
    }
    if AllNonNegative(entries) {
      RoundWithin(t.pct * 100.0, 0, 100);
    }
  }
}
