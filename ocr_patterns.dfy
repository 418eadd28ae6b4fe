/** The regular expressions of the screen-time extractor as hand-written
    matchers. Each `…At` function tries a pattern at one start position; the
    search functions try positions left to right, as `String.prototype.match`
    and `RegExp.prototype.test` do. Every quantifier in these patterns is
    followed by a token that cannot match a character the quantifier
    consumed, so backtracking never changes a match and consuming greedily is
    exact. The `i` flag without `u` folds ASCII letters only. */
module OcrPatterns {
  import opened Wrappers
  import opened Text

  /** The lower-case ASCII literal `w` occurs at `i`, ignoring case. */
  predicate LiteralAt(s: string, i: nat, w: string) {
    i + |w| <= |s| && forall k :: 0 <= k < |w| ==> LowerAscii(s[i + k]) == w[k]
  }

  /** The end of the run of ASCII digits (`\d`) that starts at `i`. */
  function DigitRunEnd(s: string, i: nat): (j: nat)
    requires i <= |s|
    ensures i <= j <= |s|
    ensures AllDigits(s[i..j])
    ensures j < |s| ==> !IsDigit(s[j])
    decreases |s| - i
  {
    if i < |s| && IsDigit(s[i]) then DigitRunEnd(s, i + 1) else i
  }

  /** The three duration patterns of the extractor:
      `/(\d+)\s*h(?:ours?)?\s*(\d+)\s*m(?:in(?:utes?)?)?/i`,
      `/(\d+)\s*h(?:ours?)?/i` and `/(\d+)\s*m(?:in(?:utes?)?)?/i`. */
  datatype DurationPattern = HoursMinutes | HoursOnly | MinutesOnly

  /** The hour and minute numbers a duration pattern captured. */
  datatype Duration = Duration(hours: nat, minutes: nat)

  /** Where `(?:ours?)?` stops when it starts at `i`. */
  function HourSuffixEnd(s: string, i: nat): (j: nat)
    requires i <= |s|
    ensures i <= j <= |s|
  {
    if LiteralAt(s, i, "our") then (if LiteralAt(s, i + 3, "s") then i + 4 else i + 3) else i
  }

  /** Where the unit letter after the first number of a match starting at
      `i` must stand. */
  function UnitPos(s: string, i: nat): (a: nat)
    requires i <= |s|
    ensures i <= a <= |s|
  {
    SkipSpaces(s, DigitRunEnd(s, i))
  }

  /** Where the minutes number of `HoursMinutes` starts, after the `h`. */
  function MinutesStart(s: string, i: nat): (c: nat)
    requires i <= |s| && UnitPos(s, i) < |s|
  {
    SkipSpaces(s, HourSuffixEnd(s, UnitPos(s, i) + 1))
  }

  /** Pattern `p` matches starting exactly at `i`. */
  predicate MatchesAt(p: DurationPattern, s: string, i: nat)
    requires i <= |s|
  {
    && DigitRunEnd(s, i) > i
    && LiteralAt(s, UnitPos(s, i), if p == MinutesOnly then "m" else "h")
    && (p == HoursMinutes ==>
          var c := MinutesStart(s, i);
          DigitRunEnd(s, c) > c && LiteralAt(s, SkipSpaces(s, DigitRunEnd(s, c)), "m"))
  }

  /** The numbers captured by a match of `p` starting exactly at `i`. */
  function MatchAt(p: DurationPattern, s: string, i: nat): (r: Option<Duration>)
    requires i <= |s|
    ensures r.Some? <==> MatchesAt(p, s, i)
  {
    if !MatchesAt(p, s, i) then None
    else
      var first := DigitsValue(s[i..DigitRunEnd(s, i)]);
      if p == HoursOnly then Some(Duration(first, 0))
      else if p == MinutesOnly then Some(Duration(0, first))
      else
        var c := MinutesStart(s, i);
        Some(Duration(first, DigitsValue(s[c..DigitRunEnd(s, c)])))
  }

  /** `s.match(p)` searching from `i`: the match at the leftmost position. */
  function Search(p: DurationPattern, s: string, i: nat): (r: Option<Duration>)
    requires i <= |s|
    ensures r.None? <==> forall j :: i <= j < |s| ==> !MatchesAt(p, s, j)
    ensures r.Some? ==> exists j :: i <= j < |s| && MatchAt(p, s, j) == r
    decreases |s| - i
  {
    if i == |s| then None
    else if MatchesAt(p, s, i) then MatchAt(p, s, i)
    else Search(p, s, i + 1)
  }

  /** The minutes a line states: the first pattern in the order
      hours-and-minutes, hours, minutes that matches anywhere in the line
      decides, giving `hours * 60 + minutes`; no match gives 0. */
  function LineMinutes(line: string): nat {
    var hm := Search(HoursMinutes, line, 0);
    var h := Search(HoursOnly, line, 0);
    var m := Search(MinutesOnly, line, 0);
    if hm.Some? then hm.value.hours * 60 + hm.value.minutes
    else if h.Some? then h.value.hours * 60
    else if m.Some? then m.value.minutes
    else 0
  }

  /** The header and keyword tests of the extractor:
      `/(?:last\s*7\s*days?|this\s*week|weekly)/i`, `/today|daily average/i`,
      `/today/i` and `/daily\s*average/i`. */
  datatype Probe = WeeklyHeader | TodayOrDailyAverage | Today | DailyAverage

  /** Probe `p` matches starting at `i`. */
  predicate ProbeAt(p: Probe, s: string, i: nat)
    requires i <= |s|
  {
    match p
    case WeeklyHeader =>
      || (LiteralAt(s, i, "last") && LiteralAt(s, SkipSpaces(s, i + 4), "7")
          && LiteralAt(s, SkipSpaces(s, SkipSpaces(s, i + 4) + 1), "day"))
      || (LiteralAt(s, i, "this") && LiteralAt(s, SkipSpaces(s, i + 4), "week"))
      || LiteralAt(s, i, "weekly")
    case TodayOrDailyAverage => LiteralAt(s, i, "today") || LiteralAt(s, i, "daily average")
    case Today => LiteralAt(s, i, "today")
    case DailyAverage => LiteralAt(s, i, "daily") && LiteralAt(s, SkipSpaces(s, i + 5), "average")
  }

  /** `p.test(s)` looking from `i` onwards. */
  predicate TestFrom(p: Probe, s: string, i: nat)
    requires i <= |s|
    ensures TestFrom(p, s, i) <==> exists j :: i <= j < |s| && ProbeAt(p, s, j)
    decreases |s| - i
  {
    i < |s| && (ProbeAt(p, s, i) || TestFrom(p, s, i + 1))
  }

  /** `p.test(s)` */
  predicate Test(p: Probe, s: string) {
    TestFrom(p, s, 0)
  }

  /** `/^([A-Za-z\s]+?)\s+\d+/` lazily extending the group from `k` letters. */
  function AppNameFrom(s: string, k: nat): (r: Option<string>)
    requires 1 <= k
    requires forall i :: 0 <= i < k - 1 && i < |s| ==> IsAsciiLetter(s[i]) || IsWhitespace(s[i])
    ensures r.Some? ==> k <= |r.value| < |s| && r.value == s[..|r.value|]
    ensures r.Some? ==> forall i :: 0 <= i < |r.value| ==> IsAsciiLetter(r.value[i]) || IsWhitespace(r.value[i])
    decreases |s| - k
  {
    if k > |s| || !(IsAsciiLetter(s[k - 1]) || IsWhitespace(s[k - 1])) then None
    else if k < |s| && IsWhitespace(s[k]) && SkipSpaces(s, k) < |s| && IsDigit(s[SkipSpaces(s, k)])
    then Some(s[..k])
    else AppNameFrom(s, k + 1)
  }

  /** The captured app name of `line.match(/^([A-Za-z\s]+?)\s+\d+/)`: the
      shortest non-empty prefix of letters and white space that is followed
      by white space and a digit. */
  function AppNameCapture(line: string): (r: Option<string>)
    ensures r.Some? ==> 1 <= |r.value| < |line| && r.value == line[..|r.value|]
    ensures r.Some? ==> forall i :: 0 <= i < |r.value| ==> IsAsciiLetter(r.value[i]) || IsWhitespace(r.value[i])
  {
    AppNameFrom(line, 1)
  }

  /** The generic words that mark a line as a total rather than an app. */
  const ExcludedWords: seq<string> :=
    ["screen", "time", "daily", "average", "total", "week", "today", "yesterday"]

  /** `w` occurs in `s` at `i`, exactly. */
  predicate OccursAt(s: string, i: nat, w: string) {
    i + |w| <= |s| && s[i..i + |w|] == w
  }

  /** `s.includes(w)` */
  predicate Includes(s: string, w: string) {
    exists i :: 0 <= i <= |s| && OccursAt(s, i, w)
  }

  /** The name contains none of the excluded words, ignoring case. App names
      are made of ASCII letters and white space, for which ASCII lower-casing
      is `toLowerCase`. */
  predicate IsLikelyApp(name: string) {
    forall w :: w in ExcludedWords ==> !Includes(ToLowerAscii(name), w)
  }

  // ---------------------------------------------------------------------
  // Facts about the matchers

  /** A digit run from `i` to `j`. */
  lemma {:induction false} DigitRunEndAt(s: string, i: nat, j: nat)
    requires i <= j <= |s|
    requires forall k :: i <= k < j ==> IsDigit(s[k])
    requires j < |s| ==> !IsDigit(s[j])
    ensures DigitRunEnd(s, i) == j
    decreases j - i
  {
    if i < j {
      DigitRunEndAt(s, i + 1, j);
    }
  }

  /** A white-space run from `i` to `j`. */
  lemma {:induction false} SkipSpacesAt(s: string, i: nat, j: nat)
    requires i <= j <= |s|
    requires forall k :: i <= k < j ==> IsWhitespace(s[k])
    requires j < |s| ==> !IsWhitespace(s[j])
    ensures SkipSpaces(s, i) == j
    decreases j - i
  {
    if i < j {
      SkipSpacesAt(s, i + 1, j);
    }
  }

  /** One character of a case-insensitive literal. */
  lemma LiteralChar(s: string, i: nat, w: string, k: nat)
    requires LiteralAt(s, i, w) && k < |w|
    ensures LowerAscii(s[i + k]) == w[k]
  {
  }

  /** A pattern that needs the unit letter `u` cannot match a line in which
      `u` does not occur in either case. */
  lemma NoUnitNoMatch(p: DurationPattern, s: string, u: char)
    requires u == (if p == MinutesOnly then 'm' else 'h') || (p == HoursMinutes && u == 'm')
    requires forall k :: 0 <= k < |s| ==> LowerAscii(s[k]) != u
    ensures Search(p, s, 0).None?
  {
    forall j | 0 <= j < |s| ensures !MatchesAt(p, s, j) {
      NoUnitNoMatchAt(p, s, u, j);
    }
  }

  lemma NoUnitNoMatchAt(p: DurationPattern, s: string, u: char, j: nat)
    requires j < |s|
    requires u == (if p == MinutesOnly then 'm' else 'h') || (p == HoursMinutes && u == 'm')
    requires forall k :: 0 <= k < |s| ==> LowerAscii(s[k]) != u
    ensures !MatchesAt(p, s, j)
  {
    if MatchesAt(p, s, j) {
      var a := UnitPos(s, j);
      LiteralChar(s, a, if p == MinutesOnly then "m" else "h", 0);
      if p == HoursMinutes {
        var c := MinutesStart(s, j);
        LiteralChar(s, SkipSpaces(s, DigitRunEnd(s, c)), "m", 0);
      }
    }
  }

  /** A line in which neither `h` nor `m` occurs states no minutes. */
  lemma NoUnitLetterNoMinutes(line: string)
    requires forall k :: 0 <= k < |line| ==> LowerAscii(line[k]) != 'h' && LowerAscii(line[k]) != 'm'
    ensures LineMinutes(line) == 0
  {
    NoUnitNoMatch(HoursMinutes, line, 'h');
    NoUnitNoMatch(HoursOnly, line, 'h');
    NoUnitNoMatch(MinutesOnly, line, 'm');
  }

  /** Every header or keyword probe needs one of the letters `d`, `k`, `l`:
      a line without them passes no test. */
  lemma NoKeywordLetters(p: Probe, s: string)
    requires forall k :: 0 <= k < |s| ==> LowerAscii(s[k]) !in {'d', 'k', 'l'}
    ensures !Test(p, s)
  {
    forall j | 0 <= j < |s| ensures !ProbeAt(p, s, j) {
      if LiteralAt(s, j, "last") {
        LiteralChar(s, j, "last", 0);
      }
      if LiteralAt(s, j, "this") && LiteralAt(s, SkipSpaces(s, j + 4), "week") {
        LiteralChar(s, SkipSpaces(s, j + 4), "week", 3);
      }
      if LiteralAt(s, j, "weekly") {
        LiteralChar(s, j, "weekly", 3);
      }
      if LiteralAt(s, j, "today") {
        LiteralChar(s, j, "today", 2);
      }
      if LiteralAt(s, j, "daily") {
        LiteralChar(s, j, "daily", 0);
      }
      if LiteralAt(s, j, "daily average") {
        LiteralChar(s, j, "daily average", 0);
      }
    }
  }

  /** The weekly header needs a `k` or an `l`. */
  lemma NoWeeklyHeaderLetters(s: string)
    requires forall k :: 0 <= k < |s| ==> LowerAscii(s[k]) != 'k' && LowerAscii(s[k]) != 'l'
    ensures !Test(WeeklyHeader, s)
  {
    forall j | 0 <= j < |s| ensures !ProbeAt(WeeklyHeader, s, j) {
      if LiteralAt(s, j, "last") {
        LiteralChar(s, j, "last", 0);
      }
      if LiteralAt(s, j, "this") && LiteralAt(s, SkipSpaces(s, j + 4), "week") {
        LiteralChar(s, SkipSpaces(s, j + 4), "week", 3);
      }
      if LiteralAt(s, j, "weekly") {
        LiteralChar(s, j, "weekly", 3);
      }
    }
  }

  /** Digits that end the line carry no unit: a line whose digits all
      stand in one run at its end states no minutes. */
  lemma TrailingNumberNoMinutes(line: string, n: nat)
    requires n <= |line|
    requires forall k :: 0 <= k < n ==> !IsDigit(line[k])
    requires forall k :: n <= k < |line| ==> IsDigit(line[k])
    ensures LineMinutes(line) == 0
  {
    forall p: DurationPattern, j | 0 <= j < |line| ensures !MatchesAt(p, line, j) {
      if j >= n {
        DigitRunEndAt(line, j, |line|);
      }
    }
  }

  /** A line starting with a digit has no app-name capture. */
  lemma DigitFirstNoAppName(line: string)
    requires line != [] && IsDigit(line[0])
    ensures AppNameCapture(line).None?
  {
  }

  /** Digits on `[i, j)`, white space on `[j, u)` and then a character that
      is neither: the number ends at `j` and the unit letter stands at `u`. */
  lemma NumberThenUnit(s: string, i: nat, j: nat, u: nat)
    requires i < j <= u < |s|
    requires forall k :: i <= k < j ==> IsDigit(s[k])
    requires forall k :: j <= k < u ==> IsWhitespace(s[k])
    requires !IsWhitespace(s[u]) && !IsDigit(s[u])
    ensures DigitRunEnd(s, i) == j && UnitPos(s, i) == u
  {
    DigitRunEndAt(s, i, j);
    SkipSpacesAt(s, j, u);
  }

  /** A single-unit pattern matches at `i` when digits on `[i, j)`, white
      space on `[j, u)` and the unit letter at `u` stand there. */
  lemma UnitMatch(p: DurationPattern, s: string, d: string, i: nat, j: nat, u: nat)
    requires p != HoursMinutes
    requires i < j <= u < |s|
    requires AllDigits(d) && s[i..j] == d
    requires forall k :: i <= k < j ==> IsDigit(s[k])
    requires forall k :: j <= k < u ==> IsWhitespace(s[k])
    requires s[u] == (if p == HoursOnly then 'h' else 'm')
    ensures MatchAt(p, s, i) == Some(
      if p == HoursOnly then Duration(DigitsValue(d), 0)
      else Duration(0, DigitsValue(d)))
  {
    NumberThenUnit(s, i, j, u);
    assert LiteralAt(s, u, if p == HoursOnly then "h" else "m");
  }

  /** The hours-and-minutes pattern is the hours pattern followed, after the
      optional `ours` and white space, by the minutes pattern. */
  lemma HoursMinutesSplit(s: string, i: nat)
    requires i <= |s|
    ensures MatchesAt(HoursMinutes, s, i) <==>
      MatchesAt(HoursOnly, s, i) && MatchesAt(MinutesOnly, s, MinutesStart(s, i))
    ensures MatchesAt(HoursMinutes, s, i) ==>
      MatchAt(HoursMinutes, s, i) == Some(Duration(
        MatchAt(HoursOnly, s, i).value.hours, MatchAt(MinutesOnly, s, MinutesStart(s, i)).value.minutes))
  {
    if MatchesAt(HoursOnly, s, i) {
      LiteralChar(s, UnitPos(s, i), "h", 0);
    }
  }

  /** `minutes m` matches the minutes pattern at its first character. */
  lemma MinutesAtStart(dm: string, w1: string, tail: string)
    requires dm != [] && AllDigits(dm) && AllWhitespace(w1)
    ensures MatchAt(MinutesOnly, dm + w1 + "m" + tail, 0) == Some(Duration(0, DigitsValue(dm)))
  {
    var s := dm + w1 + "m" + tail;
    var u := |dm| + |w1|;
    assert forall k :: 0 <= k < |dm| ==> s[k] == dm[k];
    assert forall k :: |dm| <= k < u ==> s[k] == w1[k - |dm|];
    assert s[u] == 'm';
    assert s[0..|dm|] == dm;
    UnitMatch(MinutesOnly, s, dm, 0, |dm|, u);
  }

  /** `hours h` matches the hours pattern at its first character. */
  lemma HoursAtStart(dh: string, w1: string, tail: string)
    requires dh != [] && AllDigits(dh) && AllWhitespace(w1)
    ensures MatchAt(HoursOnly, dh + w1 + "h" + tail, 0) == Some(Duration(DigitsValue(dh), 0))
  {
    var s := dh + w1 + "h" + tail;
    var u := |dh| + |w1|;
    assert forall k :: 0 <= k < |dh| ==> s[k] == dh[k];
    assert forall k :: |dh| <= k < u ==> s[k] == w1[k - |dh|];
    assert s[u] == 'h';
    assert s[0..|dh|] == dh;
    UnitMatch(HoursOnly, s, dh, 0, |dh|, u);
  }

  /** The layout of an hours-and-minutes match at `0`, by positions: the
      digits `dh` on `[0, j1)`, white space on `[j1, a)`, the `h` at `a`,
      white space on `[a + 1, c)`, the digits `dm` on `[c, j2)`, white space
      on `[j2, e)`, the `m` at `e`. */
  lemma HoursMinutesLayout(s: string, dh: string, dm: string, j1: nat, a: nat, c: nat, j2: nat, e: nat)
    requires 0 < j1 <= a < c < j2 <= e < |s|
    requires AllDigits(dh) && AllDigits(dm) && s[0..j1] == dh && s[c..j2] == dm
    requires forall k :: 0 <= k < j1 ==> IsDigit(s[k])
    requires forall k :: j1 <= k < a ==> IsWhitespace(s[k])
    requires s[a] == 'h'
    requires forall k :: a + 1 <= k < c ==> IsWhitespace(s[k])
    requires forall k :: c <= k < j2 ==> IsDigit(s[k])
    requires forall k :: j2 <= k < e ==> IsWhitespace(s[k])
    requires s[e] == 'm'
    ensures MatchAt(HoursMinutes, s, 0) == Some(Duration(DigitsValue(dh), DigitsValue(dm)))
  {
    UnitMatch(HoursOnly, s, dh, 0, j1, a);
    HoursPrefix(s, j1, a, c);
    UnitMatch(MinutesOnly, s, dm, c, j2, e);
    HoursMinutesSplit(s, 0);
  }

  /** After the hours part of an hours-and-minutes layout the minutes
      number starts at `c`. */
  lemma HoursPrefix(s: string, j1: nat, a: nat, c: nat)
    requires 0 < j1 <= a < c < |s|
    requires forall k :: 0 <= k < j1 ==> IsDigit(s[k])
    requires forall k :: j1 <= k < a ==> IsWhitespace(s[k])
    requires s[a] == 'h'
    requires forall k :: a + 1 <= k < c ==> IsWhitespace(s[k])
    requires IsDigit(s[c])
    ensures UnitPos(s, 0) == a && MinutesStart(s, 0) == c
  {
    NumberThenUnit(s, 0, j1, a);
    NoHourSuffix(s, a + 1);
    SkipSpacesAt(s, a + 1, c);
  }

  /** White space or a digit right after the `h` leaves no `ours` suffix. */
  lemma NoHourSuffix(s: string, i: nat)
    requires i < |s| && (IsWhitespace(s[i]) || IsDigit(s[i]))
    ensures HourSuffixEnd(s, i) == i
  {
    assert LowerAscii(s[i]) != "our"[0];
  }

  /** An hours-and-minutes match split in two texts: the hours part with
      the white space after the `h` in `front`, the minutes part in `back`. */
  lemma HoursMinutesHalves(front: string, back: string, dh: string, dm: string, j1: nat, a: nat, j2: nat, e: nat)
    requires 0 < j1 <= a < |front| && 0 < j2 <= e < |back|
    requires AllDigits(dh) && AllDigits(dm) && front[..j1] == dh && back[..j2] == dm
    requires forall k :: 0 <= k < j1 ==> IsDigit(front[k])
    requires forall k :: j1 <= k < a ==> IsWhitespace(front[k])
    requires front[a] == 'h'
    requires forall k :: a + 1 <= k < |front| ==> IsWhitespace(front[k])
    requires forall k :: 0 <= k < j2 ==> IsDigit(back[k])
    requires forall k :: j2 <= k < e ==> IsWhitespace(back[k])
    requires back[e] == 'm'
    ensures MatchAt(HoursMinutes, front + back, 0) == Some(Duration(DigitsValue(dh), DigitsValue(dm)))
  {
    var s := front + back;
    var c := |front|;
    assert s[0..j1] == dh by {
      assert s[..c] == front;
    }
    assert s[c..c + j2] == dm by {
      assert s[c..] == back;
      assert s[c..c + j2] == s[c..][..j2];
    }
    assert forall k :: 0 <= k < c ==> s[k] == front[k];
    assert forall k :: c <= k < |s| ==> s[k] == back[k - c];
    HoursMinutesLayout(s, dh, dm, j1, a, c, c + j2, c + e);
  }

  /** `hours h minutes m` with any white space around the numbers matches
      the hours-and-minutes pattern at its first character. */
  lemma HoursMinutesAtStart(dh: string, w1: string, w2: string, dm: string, w3: string, tail: string)
    requires dh != [] && AllDigits(dh) && dm != [] && AllDigits(dm)
    requires AllWhitespace(w1) && AllWhitespace(w2) && AllWhitespace(w3)
    ensures MatchAt(HoursMinutes, dh + w1 + "h" + w2 + dm + w3 + "m" + tail, 0)
         == Some(Duration(DigitsValue(dh), DigitsValue(dm)))
  {
    var front := dh + w1 + "h" + w2;
    var back := dm + w3 + "m" + tail;
    assert dh + w1 + "h" + w2 + dm + w3 + "m" + tail == front + back;
    var a := |dh| + |w1|;
    assert forall k :: 0 <= k < |dh| ==> front[k] == dh[k];
    assert forall k :: |dh| <= k < a ==> front[k] == w1[k - |dh|];
    assert front[a] == 'h';
    assert forall k :: a + 1 <= k < |front| ==> front[k] == w2[k - a - 1];
    assert forall k :: 0 <= k < |dm| ==> back[k] == dm[k];
    assert forall k :: |dm| <= k < |dm| + |w3| ==> back[k] == w3[k - |dm|];
    assert back[|dm| + |w3|] == 'm';
    assert front[..|dh|] == dh;
    assert back[..|dm|] == dm;
    HoursMinutesHalves(front, back, dh, dm, |dh|, a, |dm|, |dm| + |w3|);
  }
}
