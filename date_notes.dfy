/**
 * The journal's calendar notes: the titles of month and day notes, the
 * ordinal of a day, the keys the year, month and day notes are looked up
 * by, and the first day of a week.
 *
 * A local date is a whole number of days since 1970-01-01 (a Thursday);
 * `date.setDate(date.getDate() - k)` rolls over month boundaries, so it
 * moves the date `k` days back.
 */
module DateNotes {
  import opened Common

  const DAYS: seq<string> := ["Sunday", "Monday", "Tuesday", "Wednesday", "Thursday", "Friday", "Saturday"]
  const MONTHS: seq<string> := ["January", "February", "March", "April", "May", "June", "July",
                                "August", "September", "October", "November", "December"]
  const SUFFIXES: seq<string> := ["th", "st", "nd", "rd"]

  // The placeholders of the title patterns.
  const SHORT_MONTH3 := "{shortMonth3}"
  const SHORT_MONTH4 := "{shortMonth4}"
  const MONTH_NUMBER_PADDED := "{monthNumberPadded}"
  const MONTH := "{month}"
  const ORDINAL_DAY := "{ordinal}"
  const DAY_IN_MONTH_PADDED := "{dayInMonthPadded}"
  const ISO_DATE := "{isoDate}"
  const WEEK_DAY := "{weekDay}"
  const WEEK_DAY3 := "{weekDay3}"
  const WEEK_DAY2 := "{weekDay2}"
  const SEPARATOR := " - "

  const DEFAULT_MONTH_PATTERN := MONTH_NUMBER_PADDED + SEPARATOR + MONTH
  const DEFAULT_DAY_PATTERN := DAY_IN_MONTH_PADDED + SEPARATOR + WEEK_DAY


  // ---------------------------------------------------------------------
  // ordinal
  // ---------------------------------------------------------------------

  /** `suffixes[i]`: undefined (falsy) outside the array. */
  function SuffixAt(i: int): Option<string>
  {
    if 0 <= i < |SUFFIXES| then Some(SUFFIXES[i]) else None
  }

  /**
   * The suffix `ordinal` picks: by `(n - 20) % 10` (JavaScript remainder)
   * when that indexes the table, else by `n` itself, else "th"; NaN (None)
   * indexes nothing.
   */
  function OrdinalSuffix(dayNumber: Option<int>): string
  {
    match dayNumber
    case None => SUFFIXES[0]
    case Some(n) =>
      var byTens := SuffixAt(JsRem(n - 20, 10));
      if byTens.Some? then byTens.value
      else
        var byNumber := SuffixAt(n);
        if byNumber.Some? then byNumber.value else SUFFIXES[0]
  }

  /** `ordinal`: the number followed by its suffix; NaN prints as "NaN". */
  function Ordinal(dayNumber: Option<int>): (r: string)
    ensures dayNumber.Some? ==> r == IntToString(dayNumber.value) + OrdinalSuffix(dayNumber)
    ensures dayNumber.None? ==> r == "NaNth"
  {
    match dayNumber
    case None => "NaN" + OrdinalSuffix(dayNumber)
    case Some(n) => IntToString(n) + OrdinalSuffix(dayNumber)
  }

  /** The English ordinal suffix: "th" for 11 to 13, else by the last digit. */
  function EnglishSuffix(n: nat): string
  {
    if 11 <= n % 100 <= 13 then "th"
    else if n % 10 == 1 then "st"
    else if n % 10 == 2 then "nd"
    else if n % 10 == 3 then "rd"
    else "th"
  }

  /** For every day of a month, `ordinal` gives the English suffix (1st, 2nd, 3rd, 4th, 11th, 21st, 24th, 31st, ...). */
  lemma OrdinalOfDaysOfMonth(n: int)
    requires 1 <= n <= 31
    ensures OrdinalSuffix(Some(n)) == EnglishSuffix(n)
    ensures Ordinal(Some(n)) == NatToString(n) + EnglishSuffix(n)
  {
    if n < 20 {
      SuffixBelowTwenty(n);
    } else {
      SuffixFromTwenty(n);
    }
  }

  lemma SuffixBelowTwenty(n: int)
    requires 1 <= n < 20
    ensures OrdinalSuffix(Some(n)) == EnglishSuffix(n)
  {
    if n < 10 {
      SuffixBelowTen(n);
    } else if n == 10 {
      assert JsRem(n - 20, 10) == 0;
    } else {
      assert JsRem(n - 20, 10) == n - 20 && n % 100 == n;
    }
  }

  lemma SuffixBelowTen(n: int)
    requires 1 <= n < 10
    ensures OrdinalSuffix(Some(n)) == EnglishSuffix(n)
  {
    assert JsRem(n - 20, 10) == n - 10 && n % 100 == n && n % 10 == n;
  }

  lemma SuffixFromTwenty(n: int)
    requires 20 <= n <= 31
    ensures OrdinalSuffix(Some(n)) == EnglishSuffix(n)
  {
    var r := JsRem(n - 20, 10);
    if n < 30 {
      assert r == n - 20 && n % 100 == n && n % 10 == n - 20;
    } else {
      assert r == n - 30 && n % 100 == n && n % 10 == n - 30;
    }
  }

  // ---------------------------------------------------------------------
  // Titles
  // ---------------------------------------------------------------------

  /** `s.slice(0, n)` / `s.substr(0, n)`. */
  function Prefix(s: string, n: nat): (r: string)
    ensures |r| <= n && |r| <= |s| && r == s[..|r|]
    ensures n <= |s| ==> r == s[..n]
  {
    Substr(s, 0, n)
  }

  lemma NamesHaveNoBrace()
    ensures forall m | 0 <= m < 12 :: '{' !in MONTHS[m] && |MONTHS[m]| >= 3
    ensures forall d | 0 <= d < 7 :: '{' !in DAYS[d] && |DAYS[d]| >= 6
  {
  }

  /** A placeholder: a brace-delimited name with no other opening brace. */
  predicate Placeholder(x: string)
  {
    |x| > 1 && x[0] == '{' && '{' !in x[1..]
  }

  lemma MonthPlaceholdersAre()
    ensures Placeholder(SHORT_MONTH3) && Placeholder(SHORT_MONTH4) && Placeholder(MONTH_NUMBER_PADDED) && Placeholder(MONTH)
  {
  }

  lemma DayPlaceholdersAre()
    ensures Placeholder(ORDINAL_DAY) && Placeholder(DAY_IN_MONTH_PADDED) && Placeholder(ISO_DATE)
  {
  }

  lemma WeekDayPlaceholdersAre()
    ensures Placeholder(WEEK_DAY) && Placeholder(WEEK_DAY3) && Placeholder(WEEK_DAY2)
  {
  }

  lemma PlaceholdersAre()
    ensures Placeholder(SHORT_MONTH3) && Placeholder(SHORT_MONTH4) && Placeholder(MONTH_NUMBER_PADDED) && Placeholder(MONTH)
    ensures Placeholder(ORDINAL_DAY) && Placeholder(DAY_IN_MONTH_PADDED) && Placeholder(ISO_DATE)
    ensures Placeholder(WEEK_DAY) && Placeholder(WEEK_DAY3) && Placeholder(WEEK_DAY2)
    ensures '{' !in SEPARATOR
  {
    MonthPlaceholdersAre();
    DayPlaceholdersAre();
    WeekDayPlaceholdersAre();
  }

  /** A placeholder differing from the pattern at index `k` passes through. */
  lemma PlaceholderKept(x: string, rest: string, pat: string, rep: string, k: nat)
    requires Placeholder(x) && Placeholder(pat)
    requires k < |x| && k < |pat| && x[k] != pat[k]
    ensures ReplaceAll(x + rest, pat, rep) == x + ReplaceAll(rest, pat, rep)
  {
    var s := x + rest;
    assert s[k] == x[k];
    ReplaceAllMismatch(s, pat, rep, k);
    if |s| < |pat| {
      assert ReplaceAll(rest, pat, rep) == rest;
      assert ReplaceAll(s, pat, rep) == s;
    } else {
      assert s[0] == x[0] && s[1..] == x[1..] + rest;
      assert ReplaceAll(s, pat, rep) == [x[0]] + ReplaceAll(x[1..] + rest, pat, rep);
      ReplaceAllSkip(x[1..], rest, pat, rep);
      assert [x[0]] + (x[1..] + ReplaceAll(rest, pat, rep)) == ([x[0]] + x[1..]) + ReplaceAll(rest, pat, rep);
      assert x == [x[0]] + x[1..];
    }
  }

  /** The same, for a placeholder shorter than the pattern at the end of the text. */
  lemma ShortPlaceholderKept(x: string, pat: string, rep: string)
    requires Placeholder(x) && Placeholder(pat) && |x| < |pat|
    ensures ReplaceAll(x, pat, rep) == x
  {
    ReplaceAllOtherPlaceholder(x, pat, rep, 0);
  }

  /** A whole-text placeholder equal to the pattern becomes the replacement. */
  lemma PlaceholderReplaced(pat: string, rep: string)
    requires |pat| > 0
    ensures ReplaceAll(pat, pat, rep) == rep
  {
    ReplaceAllAtHead("", pat, rep);
    assert pat + "" == pat && rep + "" == rep;
  }

  /**
   * `getMonthNoteTitle`: the root's `monthPattern` label (or the default
   * when it is absent or empty) with `{shortMonth3}`, `{shortMonth4}`,
   * `{monthNumberPadded}` and `{month}` replaced in that order.
   */
  function MonthNoteTitle(monthPattern: Option<string>, monthNumber: string, month: nat): string
    requires month < 12
  {
    var pattern := if Truthy(monthPattern) then monthPattern.value else DEFAULT_MONTH_PATTERN;
    var monthName := MONTHS[month];
    var s1 := ReplaceAll(pattern, SHORT_MONTH3, Prefix(monthName, 3));
    var s2 := ReplaceAll(s1, SHORT_MONTH4, Prefix(monthName, 4));
    var s3 := ReplaceAll(s2, MONTH_NUMBER_PADDED, monthNumber);
    ReplaceAll(s3, MONTH, monthName)
  }

  /** The short-month placeholders do not occur in the default month pattern. */
  lemma DefaultMonthPatternHasNoShortMonth(pat: string, rep: string)
    requires pat == SHORT_MONTH3 || pat == SHORT_MONTH4
    ensures ReplaceAll(DEFAULT_MONTH_PATTERN, pat, rep) == DEFAULT_MONTH_PATTERN
  {
    PlaceholdersAre();
    assert MONTH_NUMBER_PADDED[1] != pat[1];
    assert DEFAULT_MONTH_PATTERN == MONTH_NUMBER_PADDED + (SEPARATOR + MONTH);
    PlaceholderKept(MONTH_NUMBER_PADDED, SEPARATOR + MONTH, pat, rep, 1);
    ReplaceAllSkip(SEPARATOR, MONTH, pat, rep);
    ShortPlaceholderKept(MONTH, pat, rep);
  }

  /** Without a pattern, a month note is titled `<month number> - <month name>`. */
  lemma DefaultMonthTitle(monthPattern: Option<string>, monthNumber: string, month: nat)
    requires month < 12 && !Truthy(monthPattern) && '{' !in monthNumber
    ensures MonthNoteTitle(monthPattern, monthNumber, month) == monthNumber + " - " + MONTHS[month]
  {
    var name := MONTHS[month];
    PlaceholdersAre();
    DefaultMonthPatternHasNoShortMonth(SHORT_MONTH3, Prefix(name, 3));
    DefaultMonthPatternHasNoShortMonth(SHORT_MONTH4, Prefix(name, 4));
    assert DEFAULT_MONTH_PATTERN == MONTH_NUMBER_PADDED + (SEPARATOR + MONTH);
    ReplaceAllAtHead(SEPARATOR + MONTH, MONTH_NUMBER_PADDED, monthNumber);
    ReplaceAllSkip(SEPARATOR, MONTH, MONTH_NUMBER_PADDED, monthNumber);
    ShortPlaceholderKept(MONTH, MONTH_NUMBER_PADDED, monthNumber);
    assert monthNumber + (SEPARATOR + MONTH) == (monthNumber + SEPARATOR) + MONTH;
    assert '{' !in monthNumber + SEPARATOR;
    ReplaceAllSkip(monthNumber + SEPARATOR, MONTH, MONTH, name);
    PlaceholderReplaced(MONTH, name);
    assert SEPARATOR == " - ";
  }

  /** `{shortMonth3}` and `{shortMonth4}` stand for the first three and four letters of the month name. */
  lemma ShortMonthTitles(monthNumber: string, month: nat)
    requires month < 12
    ensures MonthNoteTitle(Some(SHORT_MONTH3), monthNumber, month) == MONTHS[month][..3]
    ensures MonthNoteTitle(Some(SHORT_MONTH4), monthNumber, month) == Prefix(MONTHS[month], 4)
  {
    var name := MONTHS[month];
    NamesHaveNoBrace();
    PlaceholdersAre();
    var p3 := Prefix(name, 3);
    var p4 := Prefix(name, 4);
    assert '{' !in p3 && '{' !in p4 by {
      assert forall k | 0 <= k < |p3| :: p3[k] == name[k];
      assert forall k | 0 <= k < |p4| :: p4[k] == name[k];
    }
    PlaceholderReplaced(SHORT_MONTH3, p3);
    ReplaceAllNoHead(p3, SHORT_MONTH4, p4);
    ReplaceAllNoHead(p3, MONTH_NUMBER_PADDED, monthNumber);
    ReplaceAllNoHead(p3, MONTH, name);
    assert SHORT_MONTH4[11] != SHORT_MONTH3[11];
    ReplaceAllOtherPlaceholder(SHORT_MONTH4, SHORT_MONTH3, p3, 11);
    PlaceholderReplaced(SHORT_MONTH4, p4);
    ReplaceAllNoHead(p4, MONTH_NUMBER_PADDED, monthNumber);
    ReplaceAllNoHead(p4, MONTH, name);
  }

  /**
   * `getDayNoteTitle`: the root's `datePattern` label (or the default)
   * with `{ordinal}`, `{dayInMonthPadded}`, `{isoDate}`, `{weekDay}`,
   * `{weekDay3}` and `{weekDay2}` replaced in that order.
   */
  function DayNoteTitle(datePattern: Option<string>, dayNumber: string, weekDay: nat, isoDate: string): string
    requires weekDay < 7
  {
    var pattern := if Truthy(datePattern) then datePattern.value else DEFAULT_DAY_PATTERN;
    var dayName := DAYS[weekDay];
    var s1 := ReplaceAll(pattern, ORDINAL_DAY, Ordinal(ParseInt(dayNumber)));
    var s2 := ReplaceAll(s1, DAY_IN_MONTH_PADDED, dayNumber);
    var s3 := ReplaceAll(s2, ISO_DATE, isoDate);
    var s4 := ReplaceAll(s3, WEEK_DAY, dayName);
    var s5 := ReplaceAll(s4, WEEK_DAY3, Prefix(dayName, 3));
    ReplaceAll(s5, WEEK_DAY2, Prefix(dayName, 2))
  }

  /** The ordinal placeholder does not occur in the default day pattern. */
  lemma DefaultDayPatternHasNoOrdinal(rep: string)
    ensures ReplaceAll(DEFAULT_DAY_PATTERN, ORDINAL_DAY, rep) == DEFAULT_DAY_PATTERN
  {
    PlaceholdersAre();
    assert DEFAULT_DAY_PATTERN == DAY_IN_MONTH_PADDED + (SEPARATOR + WEEK_DAY);
    assert DAY_IN_MONTH_PADDED[1] != ORDINAL_DAY[1] && WEEK_DAY[1] != ORDINAL_DAY[1];
    PlaceholderKept(DAY_IN_MONTH_PADDED, SEPARATOR + WEEK_DAY, ORDINAL_DAY, rep, 1);
    ReplaceAllSkip(SEPARATOR, WEEK_DAY, ORDINAL_DAY, rep);
    ReplaceAllOtherPlaceholder(WEEK_DAY, ORDINAL_DAY, rep, 1);
  }

  /** In the default day pattern, the day number goes first and `{isoDate}` does not occur. */
  lemma DefaultDayPatternNumbered(dayNumber: string, isoDate: string)
    requires '{' !in dayNumber
    ensures ReplaceAll(ReplaceAll(DEFAULT_DAY_PATTERN, DAY_IN_MONTH_PADDED, dayNumber), ISO_DATE, isoDate)
            == (dayNumber + SEPARATOR) + WEEK_DAY
  {
    PlaceholdersAre();
    assert DEFAULT_DAY_PATTERN == DAY_IN_MONTH_PADDED + (SEPARATOR + WEEK_DAY);
    ReplaceAllAtHead(SEPARATOR + WEEK_DAY, DAY_IN_MONTH_PADDED, dayNumber);
    ReplaceAllSkip(SEPARATOR, WEEK_DAY, DAY_IN_MONTH_PADDED, dayNumber);
    ShortPlaceholderKept(WEEK_DAY, DAY_IN_MONTH_PADDED, dayNumber);
    assert dayNumber + (SEPARATOR + WEEK_DAY) == (dayNumber + SEPARATOR) + WEEK_DAY;
    assert '{' !in dayNumber + SEPARATOR;
    assert WEEK_DAY[1] != ISO_DATE[1];
    ReplaceAllSkip(dayNumber + SEPARATOR, WEEK_DAY, ISO_DATE, isoDate);
    ReplaceAllOtherPlaceholder(WEEK_DAY, ISO_DATE, isoDate, 1);
  }

  /** Without a pattern, a day note is titled `<day number> - <week day name>`. */
  lemma DefaultDayTitle(datePattern: Option<string>, dayNumber: string, weekDay: nat, isoDate: string)
    requires weekDay < 7 && !Truthy(datePattern) && '{' !in dayNumber
    ensures DayNoteTitle(datePattern, dayNumber, weekDay, isoDate) == dayNumber + " - " + DAYS[weekDay]
  {
    var name := DAYS[weekDay];
    NamesHaveNoBrace();
    PlaceholdersAre();
    DefaultDayPatternHasNoOrdinal(Ordinal(ParseInt(dayNumber)));
    DefaultDayPatternNumbered(dayNumber, isoDate);
    assert '{' !in dayNumber + SEPARATOR;
    ReplaceAllSkip(dayNumber + SEPARATOR, WEEK_DAY, WEEK_DAY, name);
    PlaceholderReplaced(WEEK_DAY, name);
    var s4 := dayNumber + SEPARATOR + name;
    assert '{' !in s4;
    assert SEPARATOR == " - ";
    ReplaceAllNoHead(s4, WEEK_DAY3, Prefix(name, 3));
    ReplaceAllNoHead(s4, WEEK_DAY2, Prefix(name, 2));
  }

  /** The short week-day placeholders survive the earlier replacements. */
  lemma ShortWeekDayKept(b: string, dayNumber: string, name: string, isoDate: string)
    requires b == WEEK_DAY3 || b == WEEK_DAY2
    ensures var s1 := ReplaceAll(b, ORDINAL_DAY, Ordinal(ParseInt(dayNumber)));
            var s2 := ReplaceAll(s1, DAY_IN_MONTH_PADDED, dayNumber);
            var s3 := ReplaceAll(s2, ISO_DATE, isoDate);
            ReplaceAll(s3, WEEK_DAY, name) == b
  {
    PlaceholdersAre();
    assert b[1] != ORDINAL_DAY[1] && b[1] != ISO_DATE[1] && b[8] != WEEK_DAY[8];
    ReplaceAllOtherPlaceholder(b, ORDINAL_DAY, Ordinal(ParseInt(dayNumber)), 1);
    ShortPlaceholderKept(b, DAY_IN_MONTH_PADDED, dayNumber);
    ReplaceAllOtherPlaceholder(b, ISO_DATE, isoDate, 1);
    ReplaceAllOtherPlaceholder(b, WEEK_DAY, name, 8);
  }

  /** `{weekDay3}` and `{weekDay2}` stand for the first three and two letters of the week day name. */
  lemma ShortWeekDayTitles(dayNumber: string, weekDay: nat, isoDate: string)
    requires weekDay < 7
    ensures DayNoteTitle(Some(WEEK_DAY3), dayNumber, weekDay, isoDate) == DAYS[weekDay][..3]
    ensures DayNoteTitle(Some(WEEK_DAY2), dayNumber, weekDay, isoDate) == DAYS[weekDay][..2]
  {
    var name := DAYS[weekDay];
    NamesHaveNoBrace();
    PlaceholdersAre();
    ShortWeekDayKept(WEEK_DAY3, dayNumber, name, isoDate);
    ShortWeekDayKept(WEEK_DAY2, dayNumber, name, isoDate);
    var p3 := Prefix(name, 3);
    var p2 := Prefix(name, 2);
    assert '{' !in p3 && '{' !in p2 by {
      assert forall k | 0 <= k < 3 :: p3[k] == name[k];
      assert forall k | 0 <= k < 2 :: p2[k] == name[k];
    }
    PlaceholderReplaced(WEEK_DAY3, p3);
    ReplaceAllNoHead(p3, WEEK_DAY2, p2);
    assert WEEK_DAY2[8] != WEEK_DAY3[8];
    ReplaceAllOtherPlaceholder(WEEK_DAY2, WEEK_DAY3, p3, 8);
    PlaceholderReplaced(WEEK_DAY2, p2);
  }

  // ---------------------------------------------------------------------
  // Lookup keys
  // ---------------------------------------------------------------------

  /** `getYearNote`: the year is the first four characters of the trimmed date. */
  function YearKey(dateStr: string): (r: string)
    ensures |r| <= 4
  {
    Prefix(Trim(dateStr), 4)
  }

  /** `getMonthNote`: the month key is the first seven characters (untrimmed), the month number characters 5 and 6. */
  function MonthKey(dateStr: string): (r: string)
    ensures |r| <= 7
  {
    Prefix(dateStr, 7)
  }

  function MonthNumber(dateStr: string): (r: string)
    ensures |r| <= 2
  {
    Substr(dateStr, 5, 2)
  }

  /** `getDayNote`: the day key is the first ten characters of the trimmed date, the day number characters 8 and 9. */
  function DayKey(dateStr: string): (r: string)
    ensures |r| <= 10
  {
    Prefix(Trim(dateStr), 10)
  }

  function DayNumber(dayKey: string): (r: string)
    ensures |r| <= 2
  {
    Substr(dayKey, 8, 2)
  }

  /** A date string of at least ten characters, not padded, whose tenth character is not white space. */
  predicate WellFormedDate(s: string)
  {
    |s| >= 10 && !IsJsSpace(s[0]) && !IsJsSpace(s[9]) && !IsJsSpace(s[|s| - 1])
  }

  /**
   * The day note of a well-formed date is looked up under the month and
   * year of the same date: the keys `getDayNote` hands down are prefixes of
   * its own key.
   */
  lemma DayKeyNests(dateStr: string)
    requires WellFormedDate(dateStr)
    ensures DayKey(dateStr) == dateStr[..10]
    ensures MonthKey(DayKey(dateStr)) == dateStr[..7]
    ensures YearKey(DayKey(dateStr)) == dateStr[..4]
    ensures MonthNumber(DayKey(dateStr)) == dateStr[5..7] && DayNumber(DayKey(dateStr)) == dateStr[8..10]
  {
    TrimOfUnpadded(dateStr);
    var d := dateStr[..10];
    assert DayKey(dateStr) == d;
    assert !IsJsSpace(d[0]) && !IsJsSpace(d[9]) by {
      assert d[0] == dateStr[0] && d[9] == dateStr[9];
    }
    TrimOfUnpadded(d);
    assert YearKey(d) == d[..4];
    assert MonthKey(d) == d[..7];
    assert MonthNumber(d) == d[5..7];
    assert DayNumber(d) == d[8..10];
    assert d[..4] == dateStr[..4] && d[..7] == dateStr[..7];
    assert d[5..7] == dateStr[5..7] && d[8..10] == dateStr[8..10];
  }

  // ---------------------------------------------------------------------
  // Weeks
  // ---------------------------------------------------------------------

  /** `date.getDay()`: 0 for Sunday; 1970-01-01 was a Thursday. */
  function WeekDayOf(day: int): (r: nat)
    ensures r < 7
  {
    (day + 4) % 7
  }

  /** `getWeekNote`: the week starts on Monday unless the options say otherwise. */
  function WeekStart(startOfTheWeek: Option<string>): (r: string)
    ensures !Truthy(startOfTheWeek) ==> r == "monday"
    ensures Truthy(startOfTheWeek) ==> r == startOfTheWeek.value
  {
    if Truthy(startOfTheWeek) then startOfTheWeek.value else "monday"
  }

  /**
   * The day `getStartOfTheWeek` moves to: back to Monday (a Sunday goes
   * back six days) or back to Sunday; any other week start is an error.
   */
  function StartOfWeek(day: int, startOfTheWeek: string): Result<int, string>
  {
    var wd := WeekDayOf(day);
    if startOfTheWeek == "monday" then Ok(day - (if wd == 0 then 6 else wd - 1))
    else if startOfTheWeek == "sunday" then Ok(day - wd)
    else Err("Unrecognized start of the week " + startOfTheWeek)
  }

  /**
   * The week starts on the latest Monday (or Sunday) not after the date:
   * the result has that week day and lies less than a week back.
   */
  lemma StartOfWeekMeaning(day: int, startOfTheWeek: string)
    ensures StartOfWeek(day, startOfTheWeek).Ok? <==> startOfTheWeek == "monday" || startOfTheWeek == "sunday"
    ensures StartOfWeek(day, startOfTheWeek).Ok? ==>
              var s := StartOfWeek(day, startOfTheWeek).value;
              s <= day < s + 7 && WeekDayOf(s) == (if startOfTheWeek == "monday" then 1 else 0)
  {
    var wd := WeekDayOf(day);
    if startOfTheWeek == "monday" {
      var back := if wd == 0 then 6 else wd - 1;
      assert (day - back + 4) % 7 == 1 by {
        assert day + 4 == 7 * ((day + 4) / 7) + wd;
        assert day - back + 4 == 7 * ((day + 4) / 7) + (wd as int - back);
      }
    } else if startOfTheWeek == "sunday" {
      assert (day - wd + 4) % 7 == 0 by {
        assert day + 4 == 7 * ((day + 4) / 7) + wd;
      }
    }
  }

  /** A local date: whole days since 1970-01-01. */
  class LocalDate {
    var day: int

    constructor(day: int)
      ensures this.day == day
    {
      this.day := day;
    }

    function GetDay(): nat
      reads this
    {
      WeekDayOf(day)
    }

    /** `setDate(getDate() - back)`: `back` days earlier. */
    method MoveBack(back: int)
      modifies this
      ensures day == old(day) - back
    {
      day := day - back;
    }
  }

  /**
   * `getStartOfTheWeek`: moves `date` itself to the start of its week and
   * returns a new date for the same day; an unknown week start is an error
   * and leaves the date as it was.
   */
  method GetStartOfTheWeek(date: LocalDate, startOfTheWeek: string) returns (r: Result<LocalDate, string>)
    modifies date
    ensures StartOfWeek(old(date.day), startOfTheWeek).Err? ==>
              r.Err? && r.error == StartOfWeek(old(date.day), startOfTheWeek).error && date.day == old(date.day)
    ensures StartOfWeek(old(date.day), startOfTheWeek).Ok? ==>
              date.day == StartOfWeek(old(date.day), startOfTheWeek).value
              && r.Ok? && fresh(r.value) && r.value.day == date.day
  {
    var wd := date.GetDay();
    var back: int;
    if startOfTheWeek == "monday" {
      back := if wd == 0 then 6 else wd - 1;
    } else if startOfTheWeek == "sunday" {
      back := wd;
    } else {
      return Err("Unrecognized start of the week " + startOfTheWeek);
    }
    date.MoveBack(back);
    var copy := new LocalDate(date.day);
    return Ok(copy);
  }
}
