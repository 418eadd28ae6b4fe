/** The screen-time extractor: OCR text in, daily total, weekly total,
    daily average and per-app rows out. `ParseScreenTimeText` is the loop of
    the source over the trimmed lines; `Extract` is the same computation as a
    fold (`ScanLines`) followed by the reconciliation, the sort and the
    failure check, and the lemmas below are stated about it. */
module ScreenTimeOcr {
  import opened Wrappers
  import opened Numbers
  import opened Text
  import opened OcrPatterns
  import opened Sorting
  import opened UsageTypes

  /** What the extractor returns. */
  datatype ScreenTimeData = ScreenTimeData(
    dailyMinutes: int,
    weeklyMinutes: Option<int>,
    dailyAverage: Option<int>,
    appUsage: seq<AppUsage>)

  const NoDataMessage: string :=
    "Could not extract screen time data. Please ensure the screenshot shows your screen time statistics clearly."

  /** The state carried from one line to the next: the two section flags
      and the result built so far. */
  datatype ScanState = ScanState(inWeeklySection: bool, inDailySection: bool, result: ScreenTimeData)

  const EmptyData := ScreenTimeData(0, None, None, [])
  const Start := ScanState(false, false, EmptyData)

  /** `text.split('\n').map(line => line.trim())` */
  function Lines(text: string): (r: seq<string>)
    ensures |r| == |SplitLines(text)| >= 1
    ensures forall k :: 0 <= k < |r| ==> r[k] == [] || (!IsWhitespace(r[k][0]) && !IsWhitespace(r[k][|r[k]| - 1]))
  {
    var parts := SplitLines(text);
    seq(|parts|, k requires 0 <= k < |parts| => Trim(parts[k]))
  }

  /** The characters of trimming a name made of letters and white space. */
  lemma TrimKeepsNameChars(c: string)
    requires forall k :: 0 <= k < |c| ==> IsAsciiLetter(c[k]) || IsWhitespace(c[k])
    ensures forall k :: 0 <= k < |Trim(c)| ==> IsAsciiLetter(Trim(c)[k]) || IsWhitespace(Trim(c)[k])
  {
    var t := Trim(c);
    var a :| 0 <= a <= |c| - |t| && t == c[a..a + |t|] && AllWhitespace(c[..a]) && AllWhitespace(c[a + |t|..]);
    forall k | 0 <= k < |t| ensures IsAsciiLetter(t[k]) || IsWhitespace(t[k]) {
      assert t[k] == c[a + k];
    }
  }

  /** The app name a line offers: the trimmed capture of
      `/^([A-Za-z\s]+?)\s+\d+/`, when there is a capture and its trim is
      non-empty. */
  function OfferedAppName(line: string): (r: Option<string>)
    ensures r.None? <==> AppNameCapture(line).None? || AllWhitespace(AppNameCapture(line).value)
    ensures r.Some? ==> r.value == Trim(AppNameCapture(line).value)
    ensures r.Some? ==> forall k :: 0 <= k < |r.value| ==> IsAsciiLetter(r.value[k]) || IsWhitespace(r.value[k])
  {
    match AppNameCapture(line)
    case None => None
    case Some(c) =>
      var t := Trim(c);
      if t == [] then None else TrimKeepsNameChars(c); Some(t)
  }

  /** What a line with a positive duration `total` records (lines 93-118):
      an app row, the weekly total or the daily total. */
  function Record(st: ScanState, line: string, total: nat): ScreenTimeData {
    var r := st.result;
    match OfferedAppName(line)
    case Some(name) =>
      if IsLikelyApp(name) && |name| > 1 then r.(appUsage := r.appUsage + [AppUsage(name, total)]) else r
    case None =>
      if st.inWeeklySection then r.(weeklyMinutes := Some(total))
      else if st.inDailySection || Test(Today, line) then r.(dailyMinutes := total)
      else r
  }

  /** One pass of the loop body over `line`. */
  function Step(st: ScanState, line: string): ScanState {
    if Test(WeeklyHeader, line) then st.(inWeeklySection := true, inDailySection := false)
    else if Test(TodayOrDailyAverage, line) then st.(inWeeklySection := false, inDailySection := true)
    else
      var total := LineMinutes(line);
      var r := if total > 0 then Record(st, line, total) else st.result;
      st.(result := if Test(DailyAverage, line) && total > 0 then r.(dailyAverage := Some(total)) else r)
  }

  /** The loop over all lines, from the initial state. */
  function ScanLines(lines: seq<string>): ScanState {
    if lines == [] then Start else Step(ScanLines(lines[..|lines| - 1]), lines[|lines| - 1])
  }

  /** `appUsage.reduce((sum, app) => sum + app.minutesUsed, 0)` */
  function AppMinutesTotal(apps: seq<AppUsage>): int {
    if apps == [] then 0 else AppMinutesTotal(apps[..|apps| - 1]) + apps[|apps| - 1].minutesUsed
  }

  /** The sort key of `(a, b) => b.minutesUsed - a.minutesUsed`: ascending in
      it is descending in minutes. */
  function NegMinutes(a: AppUsage): int {
    -a.minutesUsed
  }

  /** Lines 127-142: fill a missing daily total from the weekly total, then
      from the app rows, and sort the app rows by usage, highest first. */
  function Reconcile(d: ScreenTimeData): ScreenTimeData {
    var d2 := FillFromApps(FillFromWeekly(d));
    d2.(appUsage := SortBy(d2.appUsage, NegMinutes))
  }

  /** Lines 127-131: a missing daily total becomes the weekly total's
      seventh, rounded, which is also the daily average. */
  function FillFromWeekly(d: ScreenTimeData): ScreenTimeData {
    if d.dailyMinutes == 0 && d.weeklyMinutes.Some? && d.weeklyMinutes.value > 0 then
      var avg := Round(d.weeklyMinutes.value as real / 7.0);
      d.(dailyAverage := Some(avg), dailyMinutes := avg)
    else d
  }

  /** Lines 134-139: a daily total still missing becomes the sum of the app
      rows. */
  function FillFromApps(d: ScreenTimeData): ScreenTimeData {
    if d.dailyMinutes == 0 && |d.appUsage| > 0 then d.(dailyMinutes := AppMinutesTotal(d.appUsage)) else d
  }

  /** Lines 145-151: fail when nothing usable was found. */
  function Finish(d: ScreenTimeData): Result<ScreenTimeData, string> {
    if d.dailyMinutes == 0 && |d.appUsage| == 0 then Err(NoDataMessage) else Ok(d)
  }

  /** `parseScreenTimeText(text)`, with the thrown error as `Err`. */
  function Extract(text: string): Result<ScreenTimeData, string> {
    Finish(Reconcile(ScanLines(Lines(text)).result))
  }

  /** The parser: one pass over the trimmed lines updating the section flags
      and the result fields, then the reconciliation, the sort and the check. */
  method ParseScreenTimeText(text: string) returns (r: Result<ScreenTimeData, string>)
    ensures r == Extract(text)
  {
    var lines := Lines(text);
    var st := ScanState(false, false, ScreenTimeData(0, None, None, []));
    for i := 0 to |lines|
      invariant st == ScanLines(lines[..i])
    {
      assert lines[..i + 1][..i] == lines[..i];
      st := ScanLine(st, lines[i]);
    }
    assert lines[..|lines|] == lines;
    var result := ReconcileResult(st.result);
    if result.dailyMinutes == 0 && |result.appUsage| == 0 {
      return Err(NoDataMessage);
    }
    return Ok(result);
  }

  /** The body of the loop of lines 52-125 for one trimmed line: a header
      switches section and skips the line; otherwise a positive duration is
      recorded as an app row, the weekly or the daily total, and as the
      daily average on a daily-average line. */
  method ScanLine(st: ScanState, line: string) returns (next: ScanState)
    ensures next == Step(st, line)
  {
    var inWeeklySection, inDailySection, result := st.inWeeklySection, st.inDailySection, st.result;
    if Test(WeeklyHeader, line) {
      inWeeklySection := true;
      inDailySection := false;
      return ScanState(inWeeklySection, inDailySection, result);
    }
    if Test(TodayOrDailyAverage, line) {
      inDailySection := true;
      inWeeklySection := false;
      return ScanState(inWeeklySection, inDailySection, result);
    }
    var totalMinutes := LineMinutes(line);
    if totalMinutes > 0 {
      var appName := OfferedAppName(line);
      if appName.Some? {
        if IsLikelyApp(appName.value) && |appName.value| > 1 {
          result := result.(appUsage := result.appUsage + [AppUsage(appName.value, totalMinutes)]);
        }
      } else if inWeeklySection {
        result := result.(weeklyMinutes := Some(totalMinutes));
      } else if inDailySection || Test(Today, line) {
        result := result.(dailyMinutes := totalMinutes);
      }
    }
    assert result == if totalMinutes > 0 then Record(st, line, totalMinutes) else st.result;
    if Test(DailyAverage, line) && totalMinutes > 0 {
      result := result.(dailyAverage := Some(totalMinutes));
    }
    return ScanState(inWeeklySection, inDailySection, result);
  }

  /** Lines 127-142 in place: fill the daily total from the weekly total,
      then from the app rows, and sort the app rows. */
  method ReconcileResult(scanned: ScreenTimeData) returns (result: ScreenTimeData)
    ensures result == Reconcile(scanned)
  {
    result := scanned;
    if result.dailyMinutes == 0 && result.weeklyMinutes.Some? && result.weeklyMinutes.value > 0 {
      result := result.(dailyAverage := Some(Round(result.weeklyMinutes.value as real / 7.0)));
      result := result.(dailyMinutes := result.dailyAverage.value);
    }
    assert result == FillFromWeekly(scanned);
    ghost var filled := result;
    if result.dailyMinutes == 0 && |result.appUsage| > 0 {
      result := result.(dailyMinutes := AppMinutesTotal(result.appUsage));
    }
    assert result == FillFromApps(filled);
    result := result.(appUsage := SortBy(result.appUsage, NegMinutes));
  }

  /** `formatMinutes(minutes)`: `Math.floor` of the hours and JavaScript's
      `%`, whose remainder takes the sign of the dividend. */
  function FormatMinutes(minutes: int): (r: string)
    ensures |r| >= 2 && (r[|r| - 1] == 'h' || r[|r| - 1] == 'm')
    ensures r[|r| - 1] == 'h' <==> minutes != 0 && minutes % 60 == 0
  {
    var hours := minutes / 60;
    var mins := JsRemainder(minutes, 60);
    if hours == 0 then IntToString(mins) + "m"
    else if mins == 0 then IntToString(hours) + "h"
    else IntToString(hours) + "h " + IntToString(mins) + "m"
  }

  /** JavaScript's `a % b` for integers and `b > 0`. */
  function JsRemainder(a: int, b: int): (r: int)
    requires b > 0
    ensures a >= 0 ==> r == a % b
    ensures a < 0 ==> -b < r <= 0
    ensures a < 0 ==> a == b * -((-a) / b) + r
  {
    if a >= 0 then a % b else -((-a) % b)
  }

  // ---------------------------------------------------------------------
  // The state the scan keeps

  /** An app row as the scan records it. */
  ghost predicate ValidRow(a: AppUsage) {
    && a.minutesUsed > 0
    && |a.appName| > 1
    && IsLikelyApp(a.appName)
    && forall k :: 0 <= k < |a.appName| ==> IsAsciiLetter(a.appName[k]) || IsWhitespace(a.appName[k])
  }

  /** What holds between any two lines: the flags are exclusive, every
      recorded total is positive, every app row is valid. */
  ghost predicate ValidScan(st: ScanState) {
    && !(st.inWeeklySection && st.inDailySection)
    && st.result.dailyMinutes >= 0
    && (st.result.weeklyMinutes.Some? ==> st.result.weeklyMinutes.value > 0)
    && (st.result.dailyAverage.Some? ==> st.result.dailyAverage.value > 0)
    && forall k :: 0 <= k < |st.result.appUsage| ==> ValidRow(st.result.appUsage[k])
  }

  /** Recording a positive duration keeps the invariant. */
  lemma RecordValid(st: ScanState, line: string, total: nat)
    requires ValidScan(st) && total > 0
    ensures ValidScan(st.(result := Record(st, line, total)))
  {
    var name := OfferedAppName(line);
    if name.Some? && IsLikelyApp(name.value) && |name.value| > 1 {
      var rows := st.result.appUsage + [AppUsage(name.value, total)];
      assert Record(st, line, total).appUsage == rows;
      forall k | 0 <= k < |rows| ensures ValidRow(rows[k]) {
        if k < |st.result.appUsage| {
          assert rows[k] == st.result.appUsage[k];
        }
      }
    }
  }

  /** One line keeps the invariant. */
  lemma StepValid(st: ScanState, line: string)
    requires ValidScan(st)
    ensures ValidScan(Step(st, line))
  {
    if !Test(WeeklyHeader, line) && !Test(TodayOrDailyAverage, line) {
      var total := LineMinutes(line);
      if total > 0 {
        RecordValid(st, line, total);
      }
    }
  }

  /** The invariant holds after any sequence of lines. */
  lemma {:induction false} ScanValid(lines: seq<string>)
    ensures ValidScan(ScanLines(lines))
  {
    if lines != [] {
      ScanValid(lines[..|lines| - 1]);
      StepValid(ScanLines(lines[..|lines| - 1]), lines[|lines| - 1]);
    }
  }

  /** A section header only switches the flags: it records nothing. */
  lemma HeaderRecordsNothing(st: ScanState, line: string)
    requires Test(WeeklyHeader, line) || Test(TodayOrDailyAverage, line)
    ensures Step(st, line).result == st.result
    ensures Test(WeeklyHeader, line) ==> Step(st, line).inWeeklySection && !Step(st, line).inDailySection
    ensures !Test(WeeklyHeader, line) ==> !Step(st, line).inWeeklySection && Step(st, line).inDailySection
  {
  }

  /** Every line that reaches the daily-total branch has already failed
      `/today|daily average/i`, so its own `/today/i` test is always false:
      only the daily section flag decides. */
  lemma TodayTestNeverDecides(line: string)
    requires !Test(TodayOrDailyAverage, line)
    ensures !Test(Today, line)
  {
    forall j | 0 <= j < |line| ensures !ProbeAt(Today, line, j) {
      assert !ProbeAt(TodayOrDailyAverage, line, j);
    }
  }

  /** A line without a duration (no unit, or zero minutes) that is not a
      header changes nothing. */
  lemma NoDurationNoChange(st: ScanState, line: string)
    requires !Test(WeeklyHeader, line) && !Test(TodayOrDailyAverage, line)
    requires LineMinutes(line) == 0
    ensures Step(st, line) == st
  {
  }

  /** A line whose app name is captured but rejected (a stop word, or a
      single character) leaves the weekly total, the daily total and the app
      rows as they were; only the daily average may still change. */
  lemma RejectedAppLine(st: ScanState, line: string)
    requires !Test(WeeklyHeader, line) && !Test(TodayOrDailyAverage, line)
    requires OfferedAppName(line).Some?
    requires !(IsLikelyApp(OfferedAppName(line).value) && |OfferedAppName(line).value| > 1)
    ensures Step(st, line).result.weeklyMinutes == st.result.weeklyMinutes
    ensures Step(st, line).result.dailyMinutes == st.result.dailyMinutes
    ensures Step(st, line).result.appUsage == st.result.appUsage
    ensures Step(st, line).inWeeklySection == st.inWeeklySection
    ensures Step(st, line).inDailySection == st.inDailySection
  {
  }

  /** Exactly the lines that are not headers, state a positive duration and
      offer an acceptable app name add a row, and the row is appended last. */
  lemma AppRowAppended(st: ScanState, line: string)
    ensures var added := !Test(WeeklyHeader, line) && !Test(TodayOrDailyAverage, line)
                         && LineMinutes(line) > 0 && OfferedAppName(line).Some?
                         && IsLikelyApp(OfferedAppName(line).value) && |OfferedAppName(line).value| > 1;
      Step(st, line).result.appUsage
        == st.result.appUsage + (if added then [AppUsage(OfferedAppName(line).value, LineMinutes(line))] else [])
  {
  }

  /** The sum of positive app minutes over a non-empty list is positive. */
  lemma {:induction false} AppMinutesTotalPositive(apps: seq<AppUsage>)
    requires forall k :: 0 <= k < |apps| ==> apps[k].minutesUsed > 0
    ensures apps != [] ==> AppMinutesTotal(apps) > 0
    ensures AppMinutesTotal(apps) >= 0
  {
    if apps != [] {
      AppMinutesTotalPositive(apps[..|apps| - 1]);
    }
  }

  // ---------------------------------------------------------------------
  // Reconciliation and outcome

  /** How the daily total and average are filled in. */
  lemma ReconcileTotals(d: ScreenTimeData)
    ensures Reconcile(d).weeklyMinutes == d.weeklyMinutes
    ensures d.dailyMinutes != 0 ==>
      Reconcile(d).dailyMinutes == d.dailyMinutes && Reconcile(d).dailyAverage == d.dailyAverage
    ensures d.dailyMinutes == 0 && d.weeklyMinutes.Some? && d.weeklyMinutes.value > 0 ==>
      Reconcile(d).dailyAverage == Some((2 * d.weeklyMinutes.value + 7) / 14)
    ensures d.dailyMinutes == 0 && d.weeklyMinutes.Some? && d.weeklyMinutes.value >= 4 ==>
      Reconcile(d).dailyMinutes == (2 * d.weeklyMinutes.value + 7) / 14 > 0
    ensures d.dailyMinutes == 0 && (d.weeklyMinutes.None? || d.weeklyMinutes.value < 4) ==>
      Reconcile(d).dailyMinutes == AppMinutesTotal(d.appUsage)
  {
    if d.weeklyMinutes.Some? && d.weeklyMinutes.value > 0 {
      RoundDivSeven(d.weeklyMinutes.value);
    }
  }

  /** The returned app rows are the collected ones, reordered by usage,
      highest first, rows of equal usage keeping their order. */
  lemma ReconcileApps(d: ScreenTimeData)
    ensures multiset(Reconcile(d).appUsage) == multiset(d.appUsage)
    ensures forall i, j :: 0 <= i < j < |Reconcile(d).appUsage| ==>
      Reconcile(d).appUsage[i].minutesUsed >= Reconcile(d).appUsage[j].minutesUsed
    ensures forall v :: KeyFilter(Reconcile(d).appUsage, NegMinutes, v) == KeyFilter(d.appUsage, NegMinutes, v)
  {
    SortByPermutes(d.appUsage, NegMinutes);
    forall v ensures KeyFilter(Reconcile(d).appUsage, NegMinutes, v) == KeyFilter(d.appUsage, NegMinutes, v) {
      SortByStable(d.appUsage, NegMinutes, v);
    }
    var r := Reconcile(d).appUsage;
    forall i, j | 0 <= i < j < |r| ensures r[i].minutesUsed >= r[j].minutesUsed {
      assert NegMinutes(r[i]) <= NegMinutes(r[j]);
    }
  }

  /** When the extractor succeeds and what it then returns, for a
      state the scan can reach. */
  lemma ReconcileOutcome(d: ScreenTimeData)
    requires d.dailyMinutes >= 0
    requires d.weeklyMinutes.Some? ==> d.weeklyMinutes.value > 0
    requires forall k :: 0 <= k < |d.appUsage| ==> d.appUsage[k].minutesUsed > 0
    ensures Finish(Reconcile(d)).Ok? <==>
      d.dailyMinutes > 0 || (d.weeklyMinutes.Some? && d.weeklyMinutes.value >= 4) || d.appUsage != []
    ensures Finish(Reconcile(d)).Ok? ==> Finish(Reconcile(d)).value.dailyMinutes > 0
    ensures Finish(Reconcile(d)).Err? ==> Finish(Reconcile(d)).error == NoDataMessage
  {
    ReconcileTotals(d);
    ReconcileApps(d);
    AppMinutesTotalPositive(d.appUsage);
    if d.appUsage != [] {
      assert d.appUsage[0] in multiset(Reconcile(d).appUsage);
    }
  }

  /** The extractor succeeds exactly when the scan found a daily total, a
      weekly total of at least 4 minutes (whose seventh rounds to at least
      1) or an app row; on success the daily total is positive, every app
      row is valid, and the rows are sorted by usage, highest first. */
  lemma ExtractOutcome(text: string)
    ensures var d := ScanLines(Lines(text)).result;
      Extract(text).Ok? <==>
        d.dailyMinutes > 0 || (d.weeklyMinutes.Some? && d.weeklyMinutes.value >= 4) || d.appUsage != []
    ensures Extract(text).Err? ==> Extract(text).error == NoDataMessage
    ensures Extract(text).Ok? ==> Extract(text).value.dailyMinutes > 0
    ensures Extract(text).Ok? ==> forall k :: 0 <= k < |Extract(text).value.appUsage| ==>
      ValidRow(Extract(text).value.appUsage[k])
    ensures Extract(text).Ok? ==> forall i, j :: 0 <= i < j < |Extract(text).value.appUsage| ==>
      Extract(text).value.appUsage[i].minutesUsed >= Extract(text).value.appUsage[j].minutesUsed
  {
    var d := ScanLines(Lines(text)).result;
    ScanValid(Lines(text));
    ReconcileOutcome(d);
    ReconcileApps(d);
    var r := Reconcile(d).appUsage;
    forall k | 0 <= k < |r| ensures ValidRow(r[k]) {
      assert r[k] in multiset(d.appUsage);
    }
  }

  // ---------------------------------------------------------------------
  // formatMinutes, and whole texts through the extractor

  /** A one-line text without surrounding white space in which none of the
      letters `d`, `k`, `l` occurs, so that no header or keyword test
      passes on it. */
  predicate QuietLine(line: string) {
    && line != [] && !IsWhitespace(line[0]) && !IsWhitespace(line[|line| - 1])
    && forall k :: 0 <= k < |line| ==> line[k] != '\n' && LowerAscii(line[k]) !in {'d', 'k', 'l'}
  }

  /** Text made of digits, spaces and the unit letters, starting with a
      digit and ending with a unit letter, as `formatMinutes` renders. */
  predicate DurationText(s: string) {
    && s != [] && IsDigit(s[0]) && (s[|s| - 1] == 'h' || s[|s| - 1] == 'm')
    && forall k :: 0 <= k < |s| ==> IsDigit(s[k]) || s[k] == ' ' || s[k] == 'h' || s[k] == 'm'
  }

  lemma DurationTextIsQuiet(s: string)
    requires DurationText(s)
    ensures QuietLine(s)
  {
  }

  /** `n` followed by a unit letter. */
  lemma NumberUnitText(n: nat, u: char)
    requires u == 'h' || u == 'm'
    ensures DurationText(NatToDigits(n) + [u])
  {
    var d := NatToDigits(n);
    assert forall k :: 0 <= k < |d| ==> (d + [u])[k] == d[k];
  }

  /** `formatMinutes` renders every non-negative number of minutes as a
      duration the extractor reads back exactly. */
  lemma FormatMinutesRoundTrip(m: nat)
    ensures DurationText(FormatMinutes(m))
    ensures LineMinutes(FormatMinutes(m)) == m
  {
    var h := m / 60;
    var mm := m % 60;
    assert JsRemainder(m, 60) == mm;
    if h == 0 {
      MinutesText(mm);
    } else if mm == 0 {
      HoursText(h);
    } else {
      HoursMinutesText(h, mm);
    }
  }

  /** `"{n}m"` reads back as `n` minutes. */
  lemma MinutesText(n: nat)
    ensures DurationText(NatToDigits(n) + "m")
    ensures LineMinutes(NatToDigits(n) + "m") == n
  {
    var d := NatToDigits(n);
    var s := d + "m";
    NumberUnitText(n, 'm');
    assert Search(MinutesOnly, s, 0) == Some(Duration(0, n)) by {
      assert d + "" + "m" + "" == s;
      MinutesAtStart(d, "", "");
      DigitsRoundTrip(n);
    }
    assert Search(HoursMinutes, s, 0).None? && Search(HoursOnly, s, 0).None? by {
      OtherUnitAbsent(d, 'm', 'h');
      NoUnitNoMatch(HoursMinutes, s, 'h');
      NoUnitNoMatch(HoursOnly, s, 'h');
    }
  }

  /** Digits followed by one unit letter hold no trace of the other unit. */
  lemma OtherUnitAbsent(d: string, u: char, v: char)
    requires AllDigits(d) && u != v && 'a' <= u <= 'z' && 'a' <= v <= 'z'
    ensures forall k :: 0 <= k < |d + [u]| ==> LowerAscii((d + [u])[k]) != v
  {
    var s := d + [u];
    forall k | 0 <= k < |s| ensures LowerAscii(s[k]) != v {
      if k < |d| {
        assert s[k] == d[k];
      }
    }
  }

  /** `"{n}h"` reads back as `n` hours. */
  lemma HoursText(n: nat)
    ensures DurationText(NatToDigits(n) + "h")
    ensures LineMinutes(NatToDigits(n) + "h") == n * 60
  {
    var d := NatToDigits(n);
    var s := d + "h";
    NumberUnitText(n, 'h');
    assert Search(HoursOnly, s, 0) == Some(Duration(n, 0)) by {
      assert d + "" + "h" + "" == s;
      HoursAtStart(d, "", "");
      DigitsRoundTrip(n);
    }
    assert Search(HoursMinutes, s, 0).None? by {
      OtherUnitAbsent(d, 'h', 'm');
      NoUnitNoMatch(HoursMinutes, s, 'm');
    }
  }

  /** `"{h}h {m}m"` reads back as `h` hours and `m` minutes. */
  lemma HoursMinutesText(h: nat, m: nat)
    ensures DurationText(NatToDigits(h) + "h " + NatToDigits(m) + "m")
    ensures LineMinutes(NatToDigits(h) + "h " + NatToDigits(m) + "m") == h * 60 + m
  {
    var dh := NatToDigits(h);
    var dm := NatToDigits(m);
    var s := dh + "h " + dm + "m";
    SpacedText(dh, dm, "h ", "m");
    assert Search(HoursMinutes, s, 0) == Some(Duration(h, m)) by {
      CompactLayout(dh, dm);
      HoursMinutesAtStart(dh, "", " ", dm, "", "");
      DigitsRoundTrip(h);
      DigitsRoundTrip(m);
    }
  }

  /** `"{h}h {m}m"` as the general layout with empty white-space pieces. */
  lemma CompactLayout(dh: string, dm: string)
    ensures dh + "" + "h" + " " + dm + "" + "m" + "" == dh + "h " + dm + "m"
  {
    var x := dh + "h " + dm + "m";
    var y := dh + "" + "h" + " " + dm + "" + "m" + "";
    assert |x| == |y|;
    forall k | 0 <= k < |x| ensures x[k] == y[k] {
      if k < |dh| {
      } else if k < |dh| + 2 {
      } else if k < |dh| + 2 + |dm| {
      }
    }
  }

  /** `hours` and `minutes` with units and spaces as the iOS screen
      renders them, `"{h} h {m} m"`, read back as `h * 60 + m`. */
  lemma SpacedDuration(h: nat, m: nat)
    ensures DurationText(NatToDigits(h) + " h " + NatToDigits(m) + " m")
    ensures LineMinutes(NatToDigits(h) + " h " + NatToDigits(m) + " m") == h * 60 + m
  {
    var dh := NatToDigits(h);
    var dm := NatToDigits(m);
    DigitsRoundTrip(h);
    DigitsRoundTrip(m);
    SpacedLayout(dh, dm);
    HoursMinutesAtStart(dh, " ", " ", dm, " ", "");
    SpacedText(dh, dm, " h ", " m");
  }

  /** `"{h} h {m} m"` as the general layout. */
  lemma SpacedLayout(dh: string, dm: string)
    ensures dh + " " + "h" + " " + dm + " " + "m" + "" == dh + " h " + dm + " m"
  {
    var x := dh + " h " + dm + " m";
    var y := dh + " " + "h" + " " + dm + " " + "m" + "";
    assert |x| == |y|;
    forall k | 0 <= k < |x| ensures x[k] == y[k] {
      if k < |dh| {
      } else if k < |dh| + 3 {
      } else if k < |dh| + 3 + |dm| {
      }
    }
  }

  /** Two numbers with unit texts between and after them form duration text. */
  lemma SpacedText(dh: string, dm: string, mid: string, tail: string)
    requires dh != [] && AllDigits(dh) && AllDigits(dm)
    requires mid == "h " || mid == " h "
    requires tail == "m" || tail == " m"
    ensures DurationText(dh + mid + dm + tail)
  {
    var s := dh + mid + dm + tail;
    forall k | 0 <= k < |s| ensures IsDigit(s[k]) || s[k] == ' ' || s[k] == 'h' || s[k] == 'm' {
      if k < |dh| {
        assert s[k] == dh[k];
      } else if k < |dh| + |mid| {
        assert s[k] == mid[k - |dh|];
      } else if k < |dh| + |mid| + |dm| {
        assert s[k] == dm[k - |dh| - |mid|];
      } else {
        assert s[k] == tail[k - |dh| - |mid| - |dm|];
      }
    }
    assert s[0] == dh[0];
    assert s[|s| - 1] == 'm';
  }

  /** A quiet line starting with a digit passes no test and offers no app. */
  lemma QuietDurationLine(line: string)
    requires QuietLine(line) && IsDigit(line[0])
    ensures !Test(WeeklyHeader, line) && !Test(TodayOrDailyAverage, line)
    ensures !Test(Today, line) && !Test(DailyAverage, line)
    ensures OfferedAppName(line).None?
  {
    NoKeywordLetters(WeeklyHeader, line);
    NoKeywordLetters(TodayOrDailyAverage, line);
    NoKeywordLetters(Today, line);
    NoKeywordLetters(DailyAverage, line);
    DigitFirstNoAppName(line);
  }

  /** The lines of a header and a quiet line. */
  lemma TwoLines(header: string, line: string)
    requires header != [] && !IsWhitespace(header[0]) && !IsWhitespace(header[|header| - 1])
    requires '\n' !in header
    requires QuietLine(line)
    ensures Lines(header + "\n" + line) == [header, line]
    ensures ScanLines(Lines(header + "\n" + line)) == Step(Step(Start, header), line)
  {
    assert '\n' !in line;
    SplitTwoLines(header, line);
    TrimOfTrimmed(header);
    TrimOfTrimmed(line);
    var ls := Lines(header + "\n" + line);
    assert ls == [header, line];
    assert ls[..1] == [header];
    assert [header][..0] == [];
    assert ScanLines([header]) == Step(Start, header);
    assert ScanLines(ls) == Step(ScanLines([header]), line);
  }

  /** `Today` is a one-line daily-section header. */
  lemma TodayHeader(st: ScanState)
    ensures '\n' !in "Today" && !IsWhitespace("Today"[0]) && !IsWhitespace("Today"[4])
    ensures Step(st, "Today") == st.(inWeeklySection := false, inDailySection := true)
  {
    TodayProbes();
  }

  /** `Today` is no weekly header and is a daily-section header. */
  lemma TodayProbes()
    ensures !Test(WeeklyHeader, "Today") && Test(TodayOrDailyAverage, "Today")
  {
    var s := "Today";
    assert forall k :: 0 <= k < |s| ==> LowerAscii(s[k]) != 'k' && LowerAscii(s[k]) != 'l';
    NoWeeklyHeaderLetters(s);
    assert ProbeAt(TodayOrDailyAverage, s, 0);
  }

  /** `This Week` is a one-line weekly-section header. */
  lemma ThisWeekHeader(st: ScanState)
    ensures '\n' !in "This Week" && !IsWhitespace("This Week"[0]) && !IsWhitespace("This Week"[8])
    ensures Step(st, "This Week") == st.(inWeeklySection := true, inDailySection := false)
  {
    ThisWeekProbe();
  }

  /** `This Week` is a weekly header. */
  lemma ThisWeekProbe()
    ensures Test(WeeklyHeader, "This Week")
  {
    var s := "This Week";
    SkipSpacesAt(s, 4, 5);
    assert ProbeAt(WeeklyHeader, s, 0);
  }

  /** A daily-section header and one duration line: that duration is the
      daily total, and nothing else is found. */
  lemma DailyHeaderThenDuration(header: string, line: string)
    requires header != [] && !IsWhitespace(header[0]) && !IsWhitespace(header[|header| - 1])
    requires '\n' !in header
    requires Step(Start, header) == ScanState(false, true, EmptyData)
    requires QuietLine(line) && IsDigit(line[0]) && LineMinutes(line) > 0
    ensures Extract(header + "\n" + line) == Ok(ScreenTimeData(LineMinutes(line), None, None, []))
  {
    var w := LineMinutes(line);
    TwoLines(header, line);
    var st1 := Step(Start, header);
    QuietDurationLine(line);
    var d := ScreenTimeData(w, None, None, []);
    assert Record(st1, line, w) == d;
    assert Step(st1, line).result == d;
    assert Reconcile(d) == d;
  }

  /** A weekly-section header and one duration line `w`: the weekly total is
      `w`, and the daily total and average are its seventh, rounded; when
      that rounds to 0 the extractor fails. */
  lemma WeeklyHeaderThenDuration(header: string, line: string)
    requires header != [] && !IsWhitespace(header[0]) && !IsWhitespace(header[|header| - 1])
    requires '\n' !in header
    requires Step(Start, header) == ScanState(true, false, EmptyData)
    requires QuietLine(line) && IsDigit(line[0]) && LineMinutes(line) > 0
    ensures var w := LineMinutes(line);
      var avg := (2 * w + 7) / 14;
      Extract(header + "\n" + line)
        == if avg > 0 then Ok(ScreenTimeData(avg, Some(w), Some(avg), [])) else Err(NoDataMessage)
  {
    WeeklyOnlyFinished(LineMinutes(line));
    WeeklyHeaderScan(header, line);
  }

  /** What the scan collects from a weekly-section header and one duration
      line: only the weekly total. */
  lemma WeeklyHeaderScan(header: string, line: string)
    requires header != [] && !IsWhitespace(header[0]) && !IsWhitespace(header[|header| - 1])
    requires '\n' !in header
    requires Step(Start, header) == ScanState(true, false, EmptyData)
    requires QuietLine(line) && IsDigit(line[0]) && LineMinutes(line) > 0
    ensures Extract(header + "\n" + line) == Finish(Reconcile(ScreenTimeData(0, Some(LineMinutes(line)), None, [])))
  {
    var w := LineMinutes(line);
    TwoLines(header, line);
    var st1 := Step(Start, header);
    QuietDurationLine(line);
    var d := ScreenTimeData(0, Some(w), None, []);
    assert Record(st1, line, w) == d;
    assert Step(st1, line).result == d;
  }

  /** A weekly total alone is reconciled into a daily total and average of
      its seventh, rounded, and fails when that is 0. */
  lemma WeeklyOnlyFinished(w: nat)
    requires w > 0
    ensures var avg := (2 * w + 7) / 14;
      Finish(Reconcile(ScreenTimeData(0, Some(w), None, [])))
        == if avg > 0 then Ok(ScreenTimeData(avg, Some(w), Some(avg), [])) else Err(NoDataMessage)
  {
    RoundDivSeven(w);
    var avg := Round(w as real / 7.0);
    var d1 := ScreenTimeData(avg, Some(w), Some(avg), []);
    assert SortBy<AppUsage>([], NegMinutes) == [];
    assert Reconcile(ScreenTimeData(0, Some(w), None, [])) == d1;
  }

  /** The header `Today` and one duration line. */
  lemma TodayThenDuration(line: string)
    requires QuietLine(line) && IsDigit(line[0]) && LineMinutes(line) > 0
    ensures Extract("Today\n" + line) == Ok(ScreenTimeData(LineMinutes(line), None, None, []))
  {
    TodayHeader(Start);
    DailyHeaderThenDuration("Today", line);
    assert "Today" + "\n" == "Today\n";
  }

  /** The header `This Week` and one duration line. */
  lemma ThisWeekThenDuration(line: string)
    requires QuietLine(line) && IsDigit(line[0]) && LineMinutes(line) > 0
    ensures var w := LineMinutes(line);
      var avg := (2 * w + 7) / 14;
      Extract("This Week\n" + line)
        == if avg > 0 then Ok(ScreenTimeData(avg, Some(w), Some(avg), [])) else Err(NoDataMessage)
  {
    ThisWeekHeader(Start);
    WeeklyHeaderThenDuration("This Week", line);
    assert "This Week" + "\n" == "This Week\n";
  }

  /** A single quiet line without a duration gives the failure. */
  lemma NoDurationFails(line: string)
    requires QuietLine(line) && LineMinutes(line) == 0
    ensures Extract(line) == Err(NoDataMessage)
  {
    assert '\n' !in line;
    SplitOneLine(line);
    TrimOfTrimmed(line);
    NoKeywordLetters(WeeklyHeader, line);
    NoKeywordLetters(TodayOrDailyAverage, line);
    assert Lines(line) == [line];
    assert [line][..0] == [];
    assert ScanLines([line]) == Step(Start, line);
    assert Step(Start, line) == Start;
    assert SortBy<AppUsage>([], NegMinutes) == [];
    assert Reconcile(EmptyData) == EmptyData;
  }

  /** Whatever positive number of minutes `formatMinutes` renders below the
      header `Today` is read back as the daily total. */
  lemma FormatMinutesThroughExtractor(m: nat)
    requires m > 0
    ensures Extract("Today\n" + FormatMinutes(m)) == Ok(ScreenTimeData(m, None, None, []))
  {
    FormatMinutesRoundTrip(m);
    DurationTextIsQuiet(FormatMinutes(m));
    TodayThenDuration(FormatMinutes(m));
  }

  /** An app name and a number without a unit (`Instagram 45`) state no
      duration: the extractor fails. */
  lemma UnitlessAppLineFails(name: string, n: nat)
    requires name != [] && forall k :: 0 <= k < |name| ==> IsAsciiLetter(name[k])
    requires forall k :: 0 <= k < |name| ==> LowerAscii(name[k]) !in {'d', 'k', 'l'}
    ensures Extract(name + " " + NatToDigits(n)) == Err(NoDataMessage)
  {
    var d := NatToDigits(n);
    var s := name + " " + d;
    assert forall k :: 0 <= k < |name| ==> s[k] == name[k];
    assert s[|name|] == ' ';
    assert forall k :: |name| < k < |s| ==> s[k] == d[k - |name| - 1];
    TrailingNumberNoMinutes(s, |name| + 1);
    NoDurationFails(s);
  }
}
