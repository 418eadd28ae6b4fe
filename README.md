# Goalstake screen-time and challenge logic in Dafny

Goalstake is a React Native app. Users set a daily screen-time goal, record
their minutes, follow their streak and weekly totals, and form groups that
stake money on challenges. This project models the app's logic in Dafny and
proves properties of it:

- **Screenshot extractor** (`screen_time_ocr.dfy`, `ocr_patterns.dfy`). It
  turns the text recognised on an iOS Screen Time screenshot into a daily
  total, a weekly total, a daily average and per-app rows. It also models
  `formatMinutes`.
- **Progress screen** (`progress.dfy`). It computes today's share of the goal
  and the streak of days within the goal. It also saves today's minutes as
  the user's only entry of the day.
- **Weekly summary** (`weekly_summary.dfy`). It lists the week's entries in
  date order, with their total and the share of the weekly goal.
- **Local group screen** (`group_screen.dfy`). It creates a group and joins
  one by code. It also computes the code shown for a group and each member's
  share of their goal.
- **Challenge screen** (`challenge_detail.dfy`). It holds the creation form,
  its validation chain and the payload it sends. It also joins a challenge
  with a stake and quick-creates a group.
- **Group payout settings** (`group_settings.dfy`). Selecting or loading a
  group fills the form; a save sends an update.
- **Utilities.**
  - `calc.dfy`: the minutes sum.
  - `dates.dfy`: the current week range, with a `DateTime` class for the
    mutable JavaScript `Date`.
  - `validation.dfy`: the input guards.
- **Shared support.**
  - `text.dfy`: white space, trim, ASCII case, digits, `split('\n')`.
  - `numbers.dfy`: JavaScript numbers, `Math.round`, `Math.min`.
  - `sorting.dfy`: the stable sort.
  - `filtering.dfy`: `Array.prototype.filter`.
  - `usage_types.dfy`: the records.
  - `wrappers.dfy`: `Option` and `Result`.

**Modelling choices.**

- **Where state lives.**
  - React state that a handler updates is a class whose fields the handler's
    method assigns.
  - A handler's decision (the alert shown, or the value saved or sent) is a
    function returning a `Result`.
  - The loops of the extractor and of the streak are methods with loop
    invariants, each proved against a specification function.
- **What becomes a parameter.**
  - The host's `Number(string)` conversion is `toNumber: string -> JsNumber`.
  - `formatISO` is `formatIso`.
  - The current day is `today`.
  - Ids from `nanoid()` and the outcome of backend calls are also parameters.
- **Numbers.** JavaScript numbers are exact reals plus NaN and the two
  infinities.
- **Instants.** An instant is an integer number of local milliseconds.
  Calendar day `d` covers `d * 86400000 ..` `d * 86400000 + 86399999`.
- **Regular expressions.** The extractor's patterns are written as
  deterministic matchers that consume greedily. In every pattern the token
  after a quantifier cannot match a character the quantifier consumed, so
  backtracking never changes a match.
- **Case folding.** The `i` flag without `u` folds ASCII letters only.
- **Unitless lines.** The extractor records a line only when one of the
  three duration patterns finds an `h` or `m` unit. A line such as
  `Instagram 45` therefore records nothing, and a text of such lines alone
  fails. `ScreenTimeOcr.UnitlessAppLineFails` proves this.

## Model

| member | source | states |
|---|---|---|
| Calc.SumMinutes | src/utils/calc.ts:3-5 | the sum of the entries' minutes, defined by its body and characterised by `Calc.SumConcat`, `Calc.SumNonNegative` and `Calc.SumPermutation` |
| Calc.SumConcat | src/utils/calc.ts:3-5 | the sum of a concatenation is the sum of the parts (the empty list sums to 0) |
| Calc.SumNonNegative | src/utils/calc.ts:3-5 | entries with no negative minutes have a non-negative sum |
| Calc.SumPermutation | src/utils/calc.ts:3-5 | the sum depends only on the multiset of entries, not their order |
| Numbers.Round | src/screens/progress/ProgressScreen.tsx:40 | `Math.round(x)` is the integer within [x - 0.5, x + 0.5), halves going up |
| Numbers.RoundUnique | src/screens/progress/ProgressScreen.tsx:40 | any integer within that half-open window is `Math.round(x)` |
| Numbers.RoundDivSeven | src/services/ocr/screenTimeOCR.ts:129 | `Math.round(w / 7)` equals `(2w + 7) div 14` for w >= 0 |
| Numbers.RoundWithin | src/screens/group/GroupSettingsScreen.tsx:54 | rounding a value inside an integer interval stays inside it |
| Numbers.MinOne | src/screens/progress/ProgressScreen.tsx:39 | `Math.min(1, x)` is at most 1, is x or 1, and is x when x <= 1 |
| Numbers.GoalFraction | src/screens/summary/WeeklySummaryScreen.tsx:47 | the share is 0 without a positive goal; it is 1 exactly when used >= goal, and otherwise times the goal gives used; it is at most 1, and not negative for non-negative use |
| Numbers.OrZero | src/screens/progress/ProgressScreen.tsx:38 | `n \|\| 0` is never NaN and keeps non-zero finite numbers and infinities |
| Text.ToLowerAscii | src/services/ocr/screenTimeOCR.ts:103 | lower-casing keeps the length and maps each character |
| Text.ToUpperAscii | src/screens/group/GroupScreen.tsx:40 | upper-casing keeps the length and maps each character |
| Text.Trim | src/utils/validation.ts:2 | trim is empty exactly for all-white-space strings, starts and ends with non-white-space, and is a slice between two white-space runs |
| Text.TrimOfTrimmed | src/utils/validation.ts:2 | a string without white space at either end is its own trim |
| Text.TrimLower | src/screens/group/GroupScreen.tsx:86 | trimming and ASCII lower-casing commute |
| Text.NatToDigits | src/screens/progress/ProgressScreen.tsx:31 | the decimal digits of n are non-empty digits without a leading zero |
| Text.IntToStringRoundTrip | src/screens/group/GroupSettingsScreen.tsx:86 | `String(n)` is the digits of n, or a minus sign and the digits of -n, and reads back as n |
| Text.DigitsRoundTrip | src/services/ocr/screenTimeOCR.ts:82 | `parseInt` of the digits of n is n |
| Text.SplitLines | src/services/ocr/screenTimeOCR.ts:37 | `split('\n')` gives at least one piece, none with a line break, and joining them back gives the text |
| Text.SplitTwoLines | src/services/ocr/screenTimeOCR.ts:37 | text of two lines splits into those two lines |
| Text.SplitOneLine | src/services/ocr/screenTimeOCR.ts:37 | text without a line break is one line |
| Validation.IsNonEmptyString | src/utils/validation.ts:1-3 | true exactly for a string with a non-white-space character |
| Validation.ParsePositiveNumber | src/utils/validation.ts:5-9 | the converted number exactly when it is finite and positive, otherwise null |
| Validation.ParseNonNegativeNumber | src/utils/validation.ts:11-15 | the converted number exactly when it is finite and not negative, otherwise null |
| Validation.PositiveImpliesNonNegative | src/utils/validation.ts:5-15 | whatever the positive guard accepts the non-negative guard accepts with the same value; they differ only at 0 |
| Dates.Weekday | src/utils/dates.ts:3 | `getDay` is in 0..6 |
| Dates.DiffToMondayRange | src/utils/dates.ts:4 | `(day + 6) % 7` is in 0..6, 0 exactly on Monday, 6 on Sunday |
| Dates.WeekStartIsMonday | src/utils/dates.ts:4-7 | the week start is a Monday at most six days before the day |
| Dates.InDayRange | src/utils/dates.ts:7-11 | an instant lies between midnight of the first day and the last millisecond of the last day exactly when its day lies in that range |
| Dates.DateTime.GetDay | src/utils/dates.ts:3 | the weekday of the date is in 0..6 |
| Dates.DateTime.FromMillis | src/utils/dates.ts:2 | the new date holds the instant |
| Dates.DateTime.Copy | src/utils/dates.ts:5 | the copy holds the same day and time |
| Dates.DateTime.ShiftDays | src/utils/dates.ts:6 | `setDate(getDate() + k)` moves k days, keeping the time of day |
| Dates.DateTime.SetHours | src/utils/dates.ts:7 | `setHours` keeps the day and sets the time of day |
| Dates.GetCurrentWeekRange | src/utils/dates.ts:1-14 | start is midnight of a Monday, end the last millisecond of the Sunday six days later, and now lies between them |
| Filtering.FilterSatisfies | src/screens/summary/WeeklySummaryScreen.tsx:36-41 | every kept element passes the test |
| Filtering.FilterKeeps | src/screens/summary/WeeklySummaryScreen.tsx:36-41 | every element that passes the test is kept |
| Filtering.FilterSubMultiset | src/screens/summary/WeeklySummaryScreen.tsx:36-41 | filtering takes no element more often than it occurs |
| Filtering.FilterKeepsProperty | src/screens/progress/ProgressScreen.tsx:87 | a property of every element holds of every kept element |
| Filtering.FilterConcat | src/screens/progress/ProgressScreen.tsx:87-88 | filtering a concatenation filters each part |
| Filtering.FilterAll | src/screens/progress/ProgressScreen.tsx:87 | a list whose elements all pass is kept whole |
| Filtering.FilterIdempotent | src/screens/progress/ProgressScreen.tsx:87 | filtering twice with one test is filtering once |
| Sorting.SortByPermutes | src/screens/summary/WeeklySummaryScreen.tsx:42 | the sorted list is a permutation of the input and ascends by key |
| Sorting.SortByStable | src/screens/summary/WeeklySummaryScreen.tsx:42 | elements with equal keys keep their input order |
| OcrPatterns.DigitRunEnd | src/services/ocr/screenTimeOCR.ts:45 | `\d+` consumes only digits and stops before the first non-digit |
| OcrPatterns.MatchAt | src/services/ocr/screenTimeOCR.ts:45-47 | the capture exists exactly when the duration pattern matches at that position |
| OcrPatterns.Search | src/services/ocr/screenTimeOCR.ts:77-79 | `match` gives the match at the leftmost matching position, or none when no position matches |
| OcrPatterns.TestFrom | src/services/ocr/screenTimeOCR.ts:50 | `test` holds exactly when the probe matches at some position |
| OcrPatterns.AppNameCapture | src/services/ocr/screenTimeOCR.ts:94 | the capture is the shortest non-empty prefix of letters and white space followed by white space and a digit |
| OcrPatterns.NoUnitNoMatch | src/services/ocr/screenTimeOCR.ts:45-47 | a duration pattern cannot match a line without its unit letter |
| OcrPatterns.NoUnitLetterNoMinutes | src/services/ocr/screenTimeOCR.ts:77-90 | a line with neither `h` nor `m` states 0 minutes |
| OcrPatterns.NoKeywordLetters | src/services/ocr/screenTimeOCR.ts:61-71 | a line without `d`, `k` or `l` passes no header or keyword test |
| OcrPatterns.NoWeeklyHeaderLetters | src/services/ocr/screenTimeOCR.ts:50 | the weekly header needs a `k` or an `l` |
| OcrPatterns.TrailingNumberNoMinutes | src/services/ocr/screenTimeOCR.ts:45-47 | digits that only end the line carry no unit, so the line states 0 minutes |
| OcrPatterns.DigitFirstNoAppName | src/services/ocr/screenTimeOCR.ts:94 | a line starting with a digit has no app-name capture |
| OcrPatterns.MinutesAtStart | src/services/ocr/screenTimeOCR.ts:47 | `"{n}m…"` matches the minutes pattern at 0, capturing n |
| OcrPatterns.HoursAtStart | src/services/ocr/screenTimeOCR.ts:46 | `"{n}h…"` matches the hours pattern at 0, capturing n |
| OcrPatterns.HoursMinutesAtStart | src/services/ocr/screenTimeOCR.ts:45 | `"{h}h {m}m"` with any white space around the numbers matches at 0, capturing h and m |
| ScreenTimeOcr.Lines | src/services/ocr/screenTimeOCR.ts:37 | one trimmed line per piece of `split('\n')`: each is empty or has no white space at either end |
| ScreenTimeOcr.OfferedAppName | src/services/ocr/screenTimeOCR.ts:94-98 | a name is offered exactly when the trimmed capture is non-empty, and it is made of letters and white space |
| ScreenTimeOcr.ParseScreenTimeText | src/services/ocr/screenTimeOCR.ts:36-152 | the loop over the trimmed lines followed by the reconciliation returns the extractor's specification `Extract(text)` |
| ScreenTimeOcr.ScanLine | src/services/ocr/screenTimeOCR.ts:57-125 | one pass of the loop body is the step of the specification |
| ScreenTimeOcr.ReconcileResult | src/services/ocr/screenTimeOCR.ts:127-142 | the in-place fill-in and sort give the reconciliation of the specification |
| ScreenTimeOcr.JsRemainder | src/services/ocr/screenTimeOCR.ts:159 | JavaScript `%` by a positive divisor is the truncated-division remainder: the Euclidean remainder for a non-negative dividend, and for a negative one the r in (-b, 0] with a == b * -((-a) div b) + r |
| ScreenTimeOcr.ScanValid | src/services/ocr/screenTimeOCR.ts:57-125 | after any lines the section flags are exclusive, recorded totals are positive and every app row is valid |
| ScreenTimeOcr.HeaderRecordsNothing | src/services/ocr/screenTimeOCR.ts:61-71 | a section header only switches the flags |
| ScreenTimeOcr.TodayTestNeverDecides | src/services/ocr/screenTimeOCR.ts:115 | a line that reaches the daily branch never passes `/today/i`, so only the daily flag decides |
| ScreenTimeOcr.NoDurationNoChange | src/services/ocr/screenTimeOCR.ts:90-92 | a non-header line without a positive duration changes nothing |
| ScreenTimeOcr.RejectedAppLine | src/services/ocr/screenTimeOCR.ts:100-111 | a captured but rejected app name records no row and no total |
| ScreenTimeOcr.AppRowAppended | src/services/ocr/screenTimeOCR.ts:94-111 | a row is added exactly for a non-header line with a positive duration and an acceptable name, and it is appended last |
| ScreenTimeOcr.AppMinutesTotalPositive | src/services/ocr/screenTimeOCR.ts:134-139 | rows of positive minutes sum to a positive total |
| ScreenTimeOcr.ReconcileTotals | src/services/ocr/screenTimeOCR.ts:127-139 | a missing daily total is taken from the weekly total's seventh (also the average), then from the app rows' sum |
| ScreenTimeOcr.ReconcileApps | src/services/ocr/screenTimeOCR.ts:142 | the rows are reordered by usage, highest first, stably |
| ScreenTimeOcr.ReconcileOutcome | src/services/ocr/screenTimeOCR.ts:127-151 | for collected values the scan can produce: success exactly when a daily total, a weekly total of at least 4 minutes or an app row was found; on success the daily total is positive, on failure the error is the extractor's message |
| ScreenTimeOcr.ExtractOutcome | src/services/ocr/screenTimeOCR.ts:144-151 | extraction succeeds exactly when a daily total, a weekly total of at least 4 minutes or an app row was found; on success the daily total is positive and the rows are valid and sorted |
| ScreenTimeOcr.FormatMinutes | src/services/ocr/screenTimeOCR.ts:157-168 | the text ends in a unit letter, and in `h` exactly for a non-zero whole number of hours; read back through `ScreenTimeOcr.FormatMinutesRoundTrip` |
| ScreenTimeOcr.FormatMinutesRoundTrip | src/services/ocr/screenTimeOCR.ts:157-168 | every non-negative minute count that `formatMinutes` renders reads back as the same count |
| ScreenTimeOcr.MinutesText | src/services/ocr/screenTimeOCR.ts:161-163 | `"{n}m"` reads back as n minutes |
| ScreenTimeOcr.HoursText | src/services/ocr/screenTimeOCR.ts:164-166 | `"{h}h"` reads back as h hours |
| ScreenTimeOcr.HoursMinutesText | src/services/ocr/screenTimeOCR.ts:167 | `"{h}h {m}m"` reads back as h hours and m minutes |
| ScreenTimeOcr.SpacedDuration | src/services/ocr/screenTimeOCR.ts:45 | the iOS rendering `"{h} h {m} m"` reads back as h * 60 + m minutes |
| ScreenTimeOcr.QuietDurationLine | src/services/ocr/screenTimeOCR.ts:94 | a duration line without header letters passes no test and offers no app |
| ScreenTimeOcr.TodayHeader | src/services/ocr/screenTimeOCR.ts:67-71 | `Today` switches to the daily section |
| ScreenTimeOcr.TodayProbes | src/services/ocr/screenTimeOCR.ts:67 | `Today` is no weekly header and is a daily header |
| ScreenTimeOcr.ThisWeekHeader | src/services/ocr/screenTimeOCR.ts:61-65 | `This Week` switches to the weekly section |
| ScreenTimeOcr.ThisWeekProbe | src/services/ocr/screenTimeOCR.ts:50 | `This Week` is a weekly header |
| ScreenTimeOcr.DailyHeaderThenDuration | src/services/ocr/screenTimeOCR.ts:115-117 | a daily header and one duration line yield that duration as the daily total and nothing else |
| ScreenTimeOcr.WeeklyHeaderScan | src/services/ocr/screenTimeOCR.ts:112-114 | a weekly header and one duration line collect only the weekly total |
| ScreenTimeOcr.WeeklyOnlyFinished | src/services/ocr/screenTimeOCR.ts:127-131 | a weekly total alone becomes a daily total and average of its seventh, rounded, and fails when that is 0 |
| ScreenTimeOcr.WeeklyHeaderThenDuration | src/services/ocr/screenTimeOCR.ts:112-131 | a weekly header and one duration line give the weekly total and its rounded seventh as daily total and average |
| ScreenTimeOcr.TodayThenDuration | src/services/ocr/screenTimeOCR.ts:115-117 | the header `Today` and one duration line give that duration as the daily total |
| ScreenTimeOcr.ThisWeekThenDuration | src/services/ocr/screenTimeOCR.ts:112-114 | the header `This Week` and one duration line give that duration as the weekly total |
| ScreenTimeOcr.NoDurationFails | src/services/ocr/screenTimeOCR.ts:144-149 | a single quiet line without a duration gives the error |
| ScreenTimeOcr.FormatMinutesThroughExtractor | src/services/ocr/screenTimeOCR.ts:157-168 | any positive count rendered by `formatMinutes` below `Today` is read back as the daily total |
| ScreenTimeOcr.UnitlessAppLineFails | src/services/ocr/screenTimeOCR.ts:77-90 | an app name followed by a number without a unit states no duration, so the extractor fails |
| Progress.ProgressFraction | src/screens/progress/ProgressScreen.tsx:37-39 | the fraction as written is never NaN or +Infinity and at most 1; it is 0 without a goal or for NaN, 1 for +Infinity, and used/goal capped at 1 otherwise |
| Progress.NegativeEntryNegativeProgress | src/screens/progress/ProgressScreen.tsx:37-39 | a negative entry gives a negative fraction, and `-Infinity` gives -Infinity |
| Progress.ClampedProgress | src/screens/progress/ProgressScreen.tsx:37-39 | the fraction clamped to [0, 1]; 0 without a goal |
| Progress.ClampedAgreesOnNonNegative | src/screens/progress/ProgressScreen.tsx:37-39 | for every entry that is not negative, the clamped fraction equals the fraction as written |
| Progress.PercentText | src/screens/progress/ProgressScreen.tsx:37-40 | the corrected shown percentage (the clamped fraction, rounded) is in 0..100, and 0 without a goal |
| Progress.PercentTextAsWritten | src/screens/progress/ProgressScreen.tsx:37-40 | the shown percentage as written (the unclamped fraction, rounded) is never NaN or above 100, and 0 without a goal; it may be negative |
| Progress.PercentTextClampsAsWritten | src/screens/progress/ProgressScreen.tsx:37-40 | the corrected percentage is the as-written one raised to 0 where negative, and equal to it without a negative entry |
| Progress.NegativeEntryShowsMinusFifty | src/screens/progress/ProgressScreen.tsx:37-40 | `"-30"` against a goal of 60 is a fraction of -0.5, shown as -50 as written and 0 corrected |
| Progress.FindToday | src/screens/progress/ProgressScreen.tsx:30 | `find` returns the first entry that is dated today and is the user's (when a user is stored), or none when no entry matches |
| Progress.ByDayDays | src/screens/progress/ProgressScreen.tsx:46-52 | the day map's days are exactly the days of the entries |
| Progress.ByDayCardinality | src/screens/progress/ProgressScreen.tsx:46-52 | the map has no more days than there are entries |
| Progress.ByDayLastWins | src/screens/progress/ProgressScreen.tsx:49-52 | a day's value is the minutes of its last entry |
| Progress.StreakUnique | src/screens/progress/ProgressScreen.tsx:54-64 | at most one count satisfies the streak definition |
| Progress.FillByDay | src/screens/progress/ProgressScreen.tsx:46-52 | the `forEach` loop builds the day map of the specification |
| Progress.WalkBack | src/screens/progress/ProgressScreen.tsx:54-65 | the walk returns the streak: the days up to today qualify and the day before does not; it ends within as many steps as the map has days |
| Progress.Upsert | src/screens/progress/ProgressScreen.tsx:71-88 | without a user, or for a non-finite or negative value, the respective alert; otherwise a saved list |
| Progress.UpsertOnePerDay | src/screens/progress/ProgressScreen.tsx:81-88 | after saving the user has exactly one entry for today: the last, with the rounded minutes and the id `userId_date` |
| Progress.UpsertKeepsOthers | src/screens/progress/ProgressScreen.tsx:87-88 | every other entry survives in order, ahead of the new one |
| Progress.UpsertTwice | src/screens/progress/ProgressScreen.tsx:71-88 | saving twice on one day is saving the second value once |
| Progress.UpsertKeepsNonNegative | src/screens/progress/ProgressScreen.tsx:76-88 | saving keeps every stored entry non-negative |
| Progress.UpsertSetsTodayInStreakMap | src/screens/progress/ProgressScreen.tsx:81-88 | after saving, the streak map holds the saved minutes for today |
| Progress.ProgressScreen.Load | src/screens/progress/ProgressScreen.tsx:20-35 | stores the user and list and prefills the field with the first matching entry's minutes |
| Progress.ProgressScreen.ComputeStreak | src/screens/progress/ProgressScreen.tsx:42-67 | 0 without a user; otherwise the streak of the user's day map, bounded by its number of days |
| Progress.ProgressScreen.UpsertToday | src/screens/progress/ProgressScreen.tsx:71-92 | the outcome is `Upsert` of the state, and the list is replaced exactly on success |
| WeeklySummary.MyWeekEntries | src/screens/summary/WeeklySummaryScreen.tsx:34-42 | the user's entries within the week sorted by date, defined by its body and characterised by `WeeklySummary.WeekListMembers` and `WeeklySummary.WeekListOrder` |
| WeeklySummary.WeekListMembers | src/screens/summary/WeeklySummaryScreen.tsx:34-41 | the list is empty without a user, and otherwise holds exactly the user's entries dated within the week |
| WeeklySummary.WeekListOrder | src/screens/summary/WeeklySummaryScreen.tsx:42 | the list ascends by date, keeps stored order among equal dates, and takes no entry more often than stored |
| WeeklySummary.WeekWindowDays | src/screens/summary/WeeklySummaryScreen.tsx:38-41 | an entry is within the week interval exactly when its day is one of the seven days from Monday |
| WeeklySummary.Totals | src/screens/summary/WeeklySummaryScreen.tsx:45-48 | the week's total, goal, share and percentage, defined by its body and characterised by `WeeklySummary.TotalsFacts` |
| WeeklySummary.TotalsFacts | src/screens/summary/WeeklySummaryScreen.tsx:45-48 | the total is the sum of the week's entries in any order; the goal is seven daily goals; the share and percentage are bounded and in range for non-negative entries |
| Groups.CodeFromId | src/screens/group/GroupScreen.tsx:40 | the code is the last six characters (all of a shorter id), upper-cased |
| Groups.UpperAsciiIdempotent | src/screens/group/GroupScreen.tsx:40 | an upper-cased string is its own upper case |
| Groups.CodeFromIdIdempotent | src/screens/group/GroupScreen.tsx:40 | the code of a code is the code |
| Groups.CreateGroup | src/screens/group/GroupScreen.tsx:62-82 | without a user or with a blank name, the respective alert; otherwise the group with the given id and the trimmed name |
| Groups.CreatedGroupShape | src/screens/group/GroupScreen.tsx:69-76 | three members: the user first and once, then Alex under the Alex id with the user's goal, then Sam under the Sam id with the larger of 30 and the goal less 30; the name is trimmed and non-empty |
| Groups.JoinGroup | src/screens/group/GroupScreen.tsx:84-109 | without a user or with a trimmed code shorter than 4, the respective alert; otherwise group `grp_CODE` named `Group CODE` |
| Groups.JoinedGroupShape | src/screens/group/GroupScreen.tsx:94-103 | three members, each goal at least the user's, the user last and once |
| Groups.JoinIgnoresCase | src/screens/group/GroupScreen.tsx:86 | codes that differ in letter case join the same group |
| Groups.NormalizeIgnoresCase | src/screens/group/GroupScreen.tsx:86 | the normalised code does not depend on letter case |
| Groups.JoinedCodeShown | src/screens/group/GroupScreen.tsx:119 | the code shown for a joined group is the code's last six characters, or is preceded by `P_` or `_` for codes of four or five characters |
| Groups.ProgressPercent | src/screens/group/GroupScreen.tsx:111-115 | a member without recorded minutes has used 0; the share is 0 without a goal, in [0, 1] for non-negative use, 1 once the goal is reached |
| Groups.GroupScreen.constructor | src/screens/group/GroupScreen.tsx:17-38 | the screen opens with the stored user and group and empty fields |
| Groups.GroupScreen.HandleCreate | src/screens/group/GroupScreen.tsx:62-82 | the alert is `CreateGroup`'s, showing the new code; on success the group is replaced and the name cleared |
| Groups.GroupScreen.HandleJoin | src/screens/group/GroupScreen.tsx:84-109 | the alert is `JoinGroup`'s, showing the group's name; on success the group is replaced and the code cleared |
| ChallengeDetail.PatchLaws | src/screens/challenges/ChallengeDetailScreen.tsx:140 | an empty patch changes nothing, a patch is idempotent, and two patches compose |
| ChallengeDetail.PatchFrame | src/screens/challenges/ChallengeDetailScreen.tsx:140 | any patch sets each field it names to the patch's value and keeps every field it does not name |
| ChallengeDetail.TitlePatchKeepsRest | src/screens/challenges/ChallengeDetailScreen.tsx:140 | a title patch changes only the title |
| ChallengeDetail.ResetKeepsRest | src/screens/challenges/ChallengeDetailScreen.tsx:132 | the reset clears title and target, sets the stake to "0" and keeps all else |
| ChallengeDetail.ValidateCreate | src/screens/challenges/ChallengeDetailScreen.tsx:92-126 | the four checks in order with their alerts; success exactly when all pass; the payload has the trimmed title, the target, the rounded non-negative stake and no charity or percent |
| ChallengeDetail.ResetBlocksResubmit | src/screens/challenges/ChallengeDetailScreen.tsx:99-132 | after the reset, a second create is refused at the title check |
| ChallengeDetail.JoinStake | src/screens/challenges/ChallengeDetailScreen.tsx:173-180 | an empty field falls back to the stored stake; the stake is accepted exactly when finite and not negative, and sent rounded |
| ChallengeDetail.QuickGroupName | src/screens/challenges/ChallengeDetailScreen.tsx:64-68 | a blank name gives the alert; otherwise the trimmed non-empty name |
| ChallengeDetail.ChallengeDetailScreen.constructor | src/screens/challenges/ChallengeDetailScreen.tsx:35-47 | the initial form |
| ChallengeDetail.ChallengeDetailScreen.Set | src/screens/challenges/ChallengeDetailScreen.tsx:140 | the form is patched |
| ChallengeDetail.ChallengeDetailScreen.OnCreate | src/screens/challenges/ChallengeDetailScreen.tsx:87-138 | the outcome is `ValidateCreate`, and the form is reset exactly after a successful creation |
| ChallengeDetail.ChallengeDetailScreen.OnQuickCreateGroup | src/screens/challenges/ChallengeDetailScreen.tsx:64-85 | the outcome is `QuickGroupName`; once the group exists it is selected and the name cleared |
| GroupSettings.Selected | src/screens/group/GroupSettingsScreen.tsx:83-88 | selecting sets the id and the stored mode, percent and charity, with `redistribute`, `50` and empty as defaults |
| GroupSettings.LoadedAgreesWithSelected | src/screens/group/GroupSettingsScreen.tsx:25-31 | on a fresh form, loading a group fills the form as selecting it does |
| GroupSettings.SaveSettings | src/screens/group/GroupSettingsScreen.tsx:37-55 | without a selection, or in mixed mode with a percent outside [0, 100], the respective alert; otherwise the update, with an empty charity as null and the rounded percent exactly in mixed mode |
| GroupSettings.SelectThenSave | src/screens/group/GroupSettingsScreen.tsx:51-55 | selecting a group stored in saved shape and saving unchanged writes back what is stored |
| GroupSettings.GroupSettingsScreen.constructor | src/screens/group/GroupSettingsScreen.tsx:12-16 | the form starts with no selection, `redistribute`, `50` and no charity |
| GroupSettings.GroupSettingsScreen.Load | src/screens/group/GroupSettingsScreen.tsx:23-31 | keeps the list and fills the form from its first group, field by field where it has a value |
| GroupSettings.GroupSettingsScreen.SelectGroup | src/screens/group/GroupSettingsScreen.tsx:83-88 | the form becomes `Selected(g)` |
| GroupSettings.GroupSettingsScreen.OnSave | src/screens/group/GroupSettingsScreen.tsx:37-62 | the outcome is `SaveSettings` of the form |

## Left out

- `processScreenTimeScreenshot` (src/services/ocr/screenTimeOCR.ts:16-30) is left out: it runs ML-Kit text recognition on an image. The model starts from the recognised text.
- Floating point: finite numbers are exact reals. IEEE-754 rounding of `/`, `*` and `Math.round` on non-representable values is not modelled.
- `ScreenTimeOcr.FormatMinutes` takes a whole number of minutes. `formatMinutes` accepts any number and prints a fractional count as such (`90.5` gives `1h 30.5m`); fractional inputs are not modelled, since the extractor only produces whole minutes.
- `parseInt` is unbounded. Digit runs too long for an exact double are read exactly.
- `Array.prototype.sort` is modelled as a stable insertion sort on sequences. The in-place update of the array is not modelled.
- `Number(string)` and `formatISO` are host conversions and are parameters.
- Time zones and daylight saving (date-fns) are not modelled: a day is 86400000 milliseconds.
- Usage entries store their date as an instant, not as the ISO string the progress screen writes. Re-reading that string is the host's `new Date`.
- `Groups.JoinGroup`: the `code.length < 4` guard counts Unicode characters, where JavaScript counts UTF-16 code units. The two differ only for characters outside the Basic Multilingual Plane (code points above U+FFFF, such as emoji), which take two units each: a code of two such characters is refused by the model and accepted by the screen.
- `Groups.CodeFromId`: `slice(-6)` is taken over Unicode characters, not UTF-16 code units. For ids holding characters above U+FFFF the model keeps more of the id than the screen does, which may split a surrogate pair.
- `toUpperCase` and `toLowerCase` are modelled on ASCII letters only. Group codes and app names are compared through them, and non-ASCII letters keep their case in the model.
- `seedProgress` (src/screens/group/GroupScreen.tsx:42-52) is left out: it draws random minutes. `ProgressPercent` takes the member-progress map as a parameter.
- Storage reads and writes, the Supabase calls, their failures and the `Supabase not configured` alerts are left out. Their outcomes (a created group's id, whether `createChallenge` succeeded) are parameters.
- The `loading`, `saving` and `submitting` flags and all rendering are left out.
- The challenge screen's initial group selection (src/screens/challenges/ChallengeDetailScreen.tsx:54) and the loading of an existing challenge are left out.
- The pills that set the distribution mode and the free text fields are plain field writes. They are covered by `ChallengeDetail.ChallengeDetailScreen.Set` and the group-settings fields.
- `isWithinInterval` throws on a reversed interval. `getCurrentWeekRange` never produces one, so the model only has the ordered interval.
- `ScreenTimeOcr.ExtractOutcome`: the success condition is stated for the scan's collected values. Which texts produce which values is covered by the line-level lemmas and the header examples, not by a closed form over all texts.
- `Progress.ProgressScreen.Load`: malformed stored JSON, which the screen silently ignores, is not modelled. The stored user and list are given as values.
- `GroupSettings.SaveSettings`: the alert after a failed `updateGroupSettings` call is not modelled. The function gives the request sent.

## Findings

| source | as written | input that shows it | evidently intended | confidence | as-written member | corrected member |
|---|---|---|---|---|---|---|
| src/screens/progress/ProgressScreen.tsx:37-40 | `Math.min(1, used / goal)` has no lower bound and `Number(todayMinutes) \|\| 0` lets negative text through | todayMinutes `"-30"` with a daily goal of 60 gives progress -0.5 and a shown percentage of -50 | progress within [0, 1] and percentage within 0..100 | medium, not executed | Progress.NegativeEntryShowsMinusFifty | Progress.PercentText |
