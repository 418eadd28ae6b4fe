/** The daily progress screen (screens/progress/ProgressScreen.tsx): today's
    share of the daily goal, the streak of days within the goal, and saving
    today's minutes into the stored list of usage entries. The current day
    is a parameter `today` (a calendar day, see module Dates), `Number(...)`
    is the parameter `toNumber`, and `formatISO` of an instant is the
    parameter `formatIso`. */
module Progress {
  import opened Wrappers
  import opened Text
  import opened Numbers
  import opened Dates
  import opened UsageTypes
  import opened Filtering
  import opened Calc

  const MissingInfoMessage: string := "Please set your name and daily goal on Home first."
  const InvalidMinutesMessage: string := "Enter minutes used (0 or more)."

  // ---------------------------------------------------------------------
  // Today's progress

  /** The fraction as the screen computes it from the number typed in:
      `used = Number(todayMinutes) || 0`, then
      `goal > 0 ? Math.min(1, used / goal) : 0`. Nothing bounds it below. */
  function ProgressFraction(goal: int, entered: JsNumber): (pct: JsNumber)
    ensures pct != NaN && pct != PosInfinity
    ensures pct.Finite? ==> pct.value <= 1.0
    ensures goal <= 0 ==> pct == Finite(0.0)
    ensures goal > 0 && entered.Finite? ==> pct == Finite(GoalFraction(entered.value, goal as real))
    ensures entered == NaN ==> pct == Finite(0.0)
    ensures goal > 0 && entered == PosInfinity ==> pct == Finite(1.0)
  {
    var used := OrZero(entered);
    if goal > 0 then
      match used
      case Finite(v) => Finite(MinOne(v / goal as real))
      case PosInfinity => Finite(1.0)
      case NegInfinity => NegInfinity
      case NaN => Finite(0.0)
    else Finite(0.0)
  }

  /** A negative entry (`"-30"` against a goal of 60 gives -0.5) or
      `"-Infinity"` makes the fraction negative. */
  lemma NegativeEntryNegativeProgress(goal: int, entered: JsNumber)
    requires goal > 0
    requires entered == NegInfinity || (entered.Finite? && entered.value < 0.0)
    ensures ProgressFraction(goal, entered) == NegInfinity
            || (ProgressFraction(goal, entered).Finite? && ProgressFraction(goal, entered).value < 0.0)
  {
    if entered.Finite? {
      var g := goal as real;
      assert entered.value / g < 0.0 by {
        assert entered.value / g * g == entered.value;
      }
    }
  }

  /** The fraction clamped to [0, 1], as the progress bar needs it: a
      negative or minus-infinite entry counts as nothing used. */
  function ClampedProgress(goal: int, entered: JsNumber): (pct: real)
    ensures 0.0 <= pct <= 1.0
    ensures goal <= 0 ==> pct == 0.0
  {
    match ProgressFraction(goal, entered)
    case Finite(v) => if v < 0.0 then 0.0 else v
    case _ => 0.0
  }

  /** Wherever the fraction as written lies in [0, 1] (no negative entry),
      the clamped fraction is the same number. */
  lemma ClampedAgreesOnNonNegative(goal: int, entered: JsNumber)
    requires entered != NegInfinity && (entered.Finite? ==> entered.value >= 0.0)
    ensures ProgressFraction(goal, entered) == Finite(ClampedProgress(goal, entered))
  {
    if goal > 0 && entered.Finite? {
      assert GoalFraction(entered.value, goal as real) >= 0.0;
    }
  }

  /** `Math.round(pct * 100)`, the percentage shown, of the clamped
      fraction. */
  function PercentText(goal: int, entered: JsNumber): (p: int)
    ensures 0 <= p <= 100
    ensures goal <= 0 ==> p == 0
  {
    RoundWithin(ClampedProgress(goal, entered) * 100.0, 0, 100);
    Round(ClampedProgress(goal, entered) * 100.0)
  }

  /** `Math.round(pct * 100)` as the screen writes it, of the unclamped
      fraction: at most 100, but negative for a negative entry, and minus
      infinity for `"-Infinity"`. */
  function PercentTextAsWritten(goal: int, entered: JsNumber): (p: JsNumber)
    ensures p != NaN && p != PosInfinity
    ensures p.Finite? ==> p.value <= 100.0
    ensures goal <= 0 ==> p == Finite(0.0)
  {
    match ProgressFraction(goal, entered)
    case Finite(v) => Finite(Round(v * 100.0) as real)
    case _ => NegInfinity
  }

  /** The corrected percentage is the one as written raised to 0 where it
      is negative; without a negative entry the two are the same number. */
  lemma PercentTextClampsAsWritten(goal: int, entered: JsNumber)
    ensures PercentTextAsWritten(goal, entered) == NegInfinity ==> PercentText(goal, entered) == 0
    ensures PercentTextAsWritten(goal, entered).Finite? ==>
              var x := PercentTextAsWritten(goal, entered).value;
              PercentText(goal, entered) as real == if x < 0.0 then 0.0 else x
    ensures entered != NegInfinity && (entered.Finite? ==> entered.value >= 0.0)
            ==> PercentTextAsWritten(goal, entered) == Finite(PercentText(goal, entered) as real)
  {
    match ProgressFraction(goal, entered)
    case Finite(v) =>
      if v < 0.0 {
        RoundUnique(0.0, 0);
        assert Round(v * 100.0) <= 0;
      }
    case _ =>
      RoundUnique(0.0, 0);
  }

  /** The case the corrected percentage exists for: `"-30"` against a goal
      of 60 is a fraction of -0.5, shown as -50. */
  lemma NegativeEntryShowsMinusFifty()
    ensures ProgressFraction(60, Finite(-30.0)) == Finite(-0.5)
    ensures PercentTextAsWritten(60, Finite(-30.0)) == Finite(-50.0)
    ensures PercentText(60, Finite(-30.0)) == 0
  {
    RoundUnique(-50.0, -50);
    RoundUnique(0.0, 0);
  }

  // ---------------------------------------------------------------------
  // Loading today's value

  /** The test `find` applies when the screen loads: dated today, and the
      user's own when a user is stored. */
  predicate LoadMatch(user: Option<User>, today: int, e: UsageEntry) {
    DayOf(e.date) == today && (user.None? || e.userId == user.value.id)
  }

  /** `parsed.find(...)`: the first entry that passes `LoadMatch`. */
  function FindToday(entries: seq<UsageEntry>, user: Option<User>, today: int): (r: Option<UsageEntry>)
    ensures r.None? ==> forall k :: 0 <= k < |entries| ==> !LoadMatch(user, today, entries[k])
    ensures r.Some? ==> exists k :: 0 <= k < |entries| && entries[k] == r.value
                          && LoadMatch(user, today, entries[k])
                          && forall j :: 0 <= j < k ==> !LoadMatch(user, today, entries[j])
  {
    if entries == [] then None
    else if LoadMatch(user, today, entries[0]) then Some(entries[0])
    else
      var r := FindToday(entries[1..], user, today);
      assert forall k :: 1 <= k < |entries| ==> entries[k] == entries[1..][k - 1];
      if r.Some? then
        var k :| 0 <= k < |entries[1..]| && entries[1..][k] == r.value
                 && LoadMatch(user, today, entries[1..][k])
                 && forall j :: 0 <= j < k ==> !LoadMatch(user, today, entries[1..][j]);
        assert entries[k + 1] == r.value;
        assert forall j :: 0 <= j < k + 1 ==> !LoadMatch(user, today, entries[j]);
        r
      else r
  }

  // ---------------------------------------------------------------------
  // The streak

  /** `entries.filter((e) => e.userId === user.id)` */
  function OwnEntries(entries: seq<UsageEntry>, userId: string): seq<UsageEntry> {
    Filter(entries, (e: UsageEntry) => e.userId == userId)
  }

  /** The `byDay` map after `forEach` has set, entry by entry, the minutes of
      each entry's calendar day: a later entry of a day overwrites an
      earlier one. */
  function ByDay(entries: seq<UsageEntry>): map<int, int> {
    if entries == [] then map[]
    else
      var e := entries[|entries| - 1];
      ByDay(entries[..|entries| - 1])[DayOf(e.date) := e.minutesUsed]
  }

  /** The days of the map are exactly the days some entry falls on. */
  lemma {:induction false} ByDayDays(entries: seq<UsageEntry>)
    ensures forall k :: 0 <= k < |entries| ==> DayOf(entries[k].date) in ByDay(entries)
    ensures forall d :: d in ByDay(entries) ==>
              exists k :: 0 <= k < |entries| && DayOf(entries[k].date) == d
  {
    if entries != [] {
      var init := entries[..|entries| - 1];
      ByDayDays(init);
      forall k | 0 <= k < |init| ensures init[k] == entries[k] { }
    }
  }

  /** There are at most as many days in the map as there are entries. */
  lemma {:induction false} ByDayCardinality(entries: seq<UsageEntry>)
    ensures |ByDay(entries).Keys| <= |entries|
  {
    if entries != [] {
      var init := entries[..|entries| - 1];
      ByDayCardinality(init);
      assert ByDay(entries).Keys == ByDay(init).Keys + {DayOf(entries[|entries| - 1].date)};
    }
  }

  /** The value of a day is the minutes of the last entry on that day. */
  lemma {:induction false} ByDayLastWins(entries: seq<UsageEntry>, k: nat)
    requires k < |entries|
    requires forall j :: k < j < |entries| ==> DayOf(entries[j].date) != DayOf(entries[k].date)
    ensures DayOf(entries[k].date) in ByDay(entries)
    ensures ByDay(entries)[DayOf(entries[k].date)] == entries[k].minutesUsed
  {
    if k < |entries| - 1 {
      var init := entries[..|entries| - 1];
      assert init[k] == entries[k];
      ByDayLastWins(init, k);
    }
  }

  /** Day `day` keeps the loop going: it has a value, the value is within
      the goal, and the goal is not 0. */
  predicate Qualifies(byDay: map<int, int>, goal: int, day: int) {
    day in byDay && byDay[day] <= goal && goal != 0
  }

  /** `n` is the streak ending at `today`: the `n` days up to and including
      `today` qualify and the day before them does not. */
  ghost predicate IsStreak(byDay: map<int, int>, goal: int, today: int, n: nat) {
    (forall d :: today - n < d <= today ==> Qualifies(byDay, goal, d))
    && !Qualifies(byDay, goal, today - n)
  }

  /** At most one count is the streak. */
  lemma StreakUnique(byDay: map<int, int>, goal: int, today: int, m: nat, n: nat)
    requires IsStreak(byDay, goal, today, m) && IsStreak(byDay, goal, today, n)
    ensures m == n
  {
  }

  /** The `n` days that end at `today`. */
  ghost function DaysBack(today: int, n: nat): (r: set<int>)
    ensures forall d :: d in r <==> today - n < d <= today
    ensures |r| == n
  {
    if n == 0 then {} else DaysBack(today, n - 1) + {today - (n - 1)}
  }


  /** A set has no more elements than any set containing it. */
  lemma SubsetCardinality(a: set<int>, b: set<int>)
    requires a <= b
    ensures |a| <= |b|
  {
    assert b == a + (b - a);
    assert a * (b - a) == {};
  }

  /** The `forEach` that fills the day map. */
  method FillByDay(mine: seq<UsageEntry>) returns (byDay: map<int, int>)
    ensures byDay == ByDay(mine)
  {
    byDay := map[];
    for i := 0 to |mine|
      invariant byDay == ByDay(mine[..i])
    {
      assert mine[..i + 1][..i] == mine[..i];
      byDay := byDay[DayOf(mine[i].date) := mine[i].minutesUsed];
    }
    assert mine[..|mine|] == mine;
  }

  /** The `while (true)` walk: step back one day at a time from `today` and
      stop at the first day that does not qualify. Every step lands on a
      further day of the map, so the walk ends within as many steps as the
      map has days. */
  method WalkBack(byDay: map<int, int>, goalMinutes: int, today: int) returns (streak: nat)
    ensures IsStreak(byDay, goalMinutes, today, streak)
    ensures streak <= |byDay.Keys|
  {
    streak := 0;
    var dayCursor := today;
    while true
      invariant dayCursor == today - streak
      invariant forall d :: dayCursor < d <= today ==> Qualifies(byDay, goalMinutes, d)
      invariant DaysBack(today, streak) <= byDay.Keys
      invariant streak <= |byDay.Keys|
      decreases |byDay.Keys| - streak
    {
      var val: Option<int> := if dayCursor in byDay then Some(byDay[dayCursor]) else None;
      if val.None? || val.value > goalMinutes || goalMinutes == 0 {
        break;
      }
      WalkStep(byDay.Keys, today, streak);
      streak := streak + 1;
      dayCursor := dayCursor - 1;
    }
  }

  /** One more day of the map under the walk: the days walked stay within
      the map, so there are no more of them than the map has days. */
  lemma WalkStep(days: set<int>, today: int, n: nat)
    requires DaysBack(today, n) <= days && today - n in days
    ensures DaysBack(today, n + 1) <= days && n + 1 <= |days|
  {
    assert DaysBack(today, n + 1) == DaysBack(today, n) + {today - n};
    SubsetCardinality(DaysBack(today, n + 1), days);
  }

  // ---------------------------------------------------------------------
  // Saving today's entry

  /** The entry belongs to the user and falls on `today`. */
  predicate IsTodayOf(userId: string, today: int, e: UsageEntry) {
    e.userId == userId && DayOf(e.date) == today
  }

  /** The entries an upsert keeps: all but the user's entries of today. */
  function Others(entries: seq<UsageEntry>, userId: string, today: int): seq<UsageEntry> {
    Filter(entries, (e: UsageEntry) => !IsTodayOf(userId, today, e))
  }

  /** `upsertToday` on values: the list saved, or the alert shown instead. */
  function Upsert(entries: seq<UsageEntry>, user: Option<User>, value: JsNumber,
                  today: int, formatIso: int -> string): (r: Result<seq<UsageEntry>, string>)
    ensures user.None? ==> r == Err(MissingInfoMessage)
    ensures user.Some? && (!IsFinite(value) || value.value < 0.0) ==> r == Err(InvalidMinutesMessage)
    ensures r.Ok? <==> user.Some? && IsFinite(value) && value.value >= 0.0
  {
    if user.None? then Err(MissingInfoMessage)
    else if !IsFinite(value) || value.value < 0.0 then Err(InvalidMinutesMessage)
    else
      var todayStart := today * MsPerDay;
      var newEntry := UsageEntry(user.value.id + "_" + formatIso(todayStart), user.value.id,
                                 todayStart, Round(value.value), None, None, None);
      Ok(Others(entries, user.value.id, today) + [newEntry])
  }

  lemma DayOfDayStart(today: int)
    ensures DayOf(today * MsPerDay) == today
  {
  }

  /** After a successful upsert the user has exactly one entry for today:
      the last one, holding the rounded minutes and the id
      `${userId}_${date}`. */
  lemma UpsertOnePerDay(entries: seq<UsageEntry>, user: Option<User>, value: JsNumber,
                        today: int, formatIso: int -> string)
    requires Upsert(entries, user, value, today, formatIso).Ok?
    ensures var next := Upsert(entries, user, value, today, formatIso).value;
            var uid := user.value.id;
            && |next| >= 1
            && IsTodayOf(uid, today, next[|next| - 1])
            && next[|next| - 1].minutesUsed == Round(value.value)
            && next[|next| - 1].date == today * MsPerDay
            && next[|next| - 1].id == uid + "_" + formatIso(today * MsPerDay)
            && forall k :: 0 <= k < |next| - 1 ==> !IsTodayOf(uid, today, next[k])
  {
    var next := Upsert(entries, user, value, today, formatIso).value;
    var others := Others(entries, user.value.id, today);
    FilterSatisfies(entries, (e: UsageEntry) => !IsTodayOf(user.value.id, today, e));
    assert next[..|next| - 1] == others;
    DayOfDayStart(today);
  }

  /** Every entry that is not the user's entry of today survives the upsert,
      in its original order and as often as before, ahead of the new one. */
  lemma UpsertKeepsOthers(entries: seq<UsageEntry>, user: Option<User>, value: JsNumber,
                          today: int, formatIso: int -> string)
    requires Upsert(entries, user, value, today, formatIso).Ok?
    ensures var next := Upsert(entries, user, value, today, formatIso).value;
            && next[..|next| - 1] == Others(entries, user.value.id, today)
            && multiset(next[..|next| - 1]) <= multiset(entries)
            && forall k :: 0 <= k < |entries| && !IsTodayOf(user.value.id, today, entries[k])
                 ==> entries[k] in next[..|next| - 1]
  {
    var next := Upsert(entries, user, value, today, formatIso).value;
    var p := (e: UsageEntry) => !IsTodayOf(user.value.id, today, e);
    FilterKeeps(entries, p);
    FilterSubMultiset(entries, p);
    assert next[..|next| - 1] == Others(entries, user.value.id, today);
  }

  /** Saving twice on one day is saving the second value once. */
  lemma UpsertTwice(entries: seq<UsageEntry>, user: Option<User>, v1: JsNumber, v2: JsNumber,
                    today: int, formatIso: int -> string)
    requires Upsert(entries, user, v1, today, formatIso).Ok?
    ensures Upsert(Upsert(entries, user, v1, today, formatIso).value, user, v2, today, formatIso)
         == Upsert(entries, user, v2, today, formatIso)
  {
    var uid := user.value.id;
    var p := (e: UsageEntry) => !IsTodayOf(uid, today, e);
    var next := Upsert(entries, user, v1, today, formatIso).value;
    var others := Others(entries, uid, today);
    var e1 := next[|next| - 1];
    assert next == others + [e1];
    DayOfDayStart(today);
    assert !p(e1);
    FilterConcat(others, [e1], p);
    assert Filter([e1], p) == [] by {
      assert [e1][1..] == [];
    }
    FilterIdempotent(entries, p);
    assert Others(next, uid, today) == others;
  }

  /** No entry with negative minutes: saving keeps this, since it rounds a
      value that is at least 0. */
  lemma UpsertKeepsNonNegative(entries: seq<UsageEntry>, user: Option<User>, value: JsNumber,
                               today: int, formatIso: int -> string)
    requires AllNonNegative(entries)
    requires Upsert(entries, user, value, today, formatIso).Ok?
    ensures AllNonNegative(Upsert(entries, user, value, today, formatIso).value)
  {
    var next := Upsert(entries, user, value, today, formatIso).value;
    var others := Others(entries, user.value.id, today);
    FilterKeepsProperty(entries, (e: UsageEntry) => !IsTodayOf(user.value.id, today, e),
                        (e: UsageEntry) => e.minutesUsed >= 0);
    assert next == others + [next[|next| - 1]];
  }

  /** After saving, the streak map holds the saved minutes for today. */
  lemma UpsertSetsTodayInStreakMap(entries: seq<UsageEntry>, user: Option<User>, value: JsNumber,
                                   today: int, formatIso: int -> string)
    requires Upsert(entries, user, value, today, formatIso).Ok?
    ensures var byDay := ByDay(OwnEntries(Upsert(entries, user, value, today, formatIso).value, user.value.id));
            today in byDay && byDay[today] == Round(value.value)
  {
    var uid := user.value.id;
    var next := Upsert(entries, user, value, today, formatIso).value;
    var e1 := next[|next| - 1];
    var own := (e: UsageEntry) => e.userId == uid;
    assert next == next[..|next| - 1] + [e1];
    FilterConcat(next[..|next| - 1], [e1], own);
    assert Filter([e1], own) == [e1] by {
      assert [e1][1..] == [];
    }
    var mine := OwnEntries(next, uid);
    assert mine[|mine| - 1] == e1;
    DayOfDayStart(today);
  }

  // ---------------------------------------------------------------------
  // The screen

  class ProgressScreen {
    var user: Option<User>
    var todayMinutes: string
    var entries: seq<UsageEntry>

    /** Loading: the stored user and list, and the text field prefilled with
        the minutes of the first matching entry of today. */
    constructor Load(storedUser: Option<User>, stored: seq<UsageEntry>, today: int)
      ensures user == storedUser && entries == stored
      ensures todayMinutes == match FindToday(stored, storedUser, today)
                              case Some(e) => IntToString(e.minutesUsed)
                              case None => ""
    {
      user := storedUser;
      entries := stored;
      var myToday := FindToday(stored, storedUser, today);
      if myToday.Some? {
        todayMinutes := IntToString(myToday.value.minutesUsed);
      } else {
        todayMinutes := "";
      }
    }

    /** `computeStreak`: fill the day map from the user's entries, then walk
        back from today while each day qualifies. */
    method ComputeStreak(today: int) returns (streak: nat)
      ensures user.None? ==> streak == 0
      ensures user.Some? ==> IsStreak(ByDay(OwnEntries(entries, user.value.id)), DailyGoal(user), today, streak)
      ensures user.Some? ==> streak <= |ByDay(OwnEntries(entries, user.value.id)).Keys|
    {
      if user.None? {
        return 0;
      }
      var byDay := FillByDay(OwnEntries(entries, user.value.id));
      streak := WalkBack(byDay, DailyGoal(user), today);
    }

    /** `upsertToday`: save the typed minutes as the user's only entry of
        today, or show an alert and keep the list. */
    method UpsertToday(toNumber: string -> JsNumber, formatIso: int -> string, today: int)
      returns (r: Result<seq<UsageEntry>, string>)
      modifies this
      ensures r == Upsert(old(entries), old(user), toNumber(old(todayMinutes)), today, formatIso)
      ensures entries == (if r.Ok? then r.value else old(entries))
      ensures user == old(user) && todayMinutes == old(todayMinutes)
    {
      if user.None? {
        return Err(MissingInfoMessage);
      }
      var value := toNumber(todayMinutes);
      if !IsFinite(value) || value.value < 0.0 {
        return Err(InvalidMinutesMessage);
      }
      var todayStart := today * MsPerDay;
      var newEntry := UsageEntry(user.value.id + "_" + formatIso(todayStart), user.value.id,
                                 todayStart, Round(value.value), None, None, None);
      var others := Others(entries, user.value.id, today);
      var next := others + [newEntry];
      entries := next;
      r := Ok(next);
    }
  }
}
