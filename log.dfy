/**
 * The server log: one file per day named after its date, each line
 * stamped with the time since midnight as `hh:mm:ss.mmm`, and request lines
 * for every URL outside a short blacklist. The clock, the calendar date of
 * midnight and the platform's line ending are parameters; writing to the
 * file is recorded as a sequence of (file, line) pairs.
 */
module Log {
  import opened Common

  const SECOND := 1000
  const MINUTE := 60_000
  const HOUR := 3_600_000
  const DAY := 86_400_000

  // ---------------------------------------------------------------------
  // Digit strings
  // ---------------------------------------------------------------------

  /** A leading zero does not change a decimal value. */
  lemma {:induction false} DecimalValueLeadingZero(s: string)
    requires AllDigits(s)
    ensures AllDigits("0" + s) && DecimalValue("0" + s) == DecimalValue(s)
    decreases |s|
  {
    if |s| > 0 {
      assert ("0" + s)[..|s|] == "0" + s[..|s| - 1];
      DecimalValueLeadingZero(s[..|s| - 1]);
    }
  }

  lemma NatToStringTwoDigits(n: nat)
    requires 10 <= n < 100
    ensures |NatToString(n)| == 2
  {
  }

  lemma NatToStringThreeDigits(n: nat)
    requires 100 <= n < 1000
    ensures |NatToString(n)| == 3
  {
    NatToStringTwoDigits(n / 10);
  }

  lemma NatToStringFourDigits(n: nat)
    requires 1000 <= n < 10000
    ensures |NatToString(n)| == 4
  {
    NatToStringThreeDigits(n / 10);
  }

  // ---------------------------------------------------------------------
  // pad, padMilli, formatTime, formatDate
  // ---------------------------------------------------------------------

  /**
   * `pad`, given the floor `n` of its argument (`Math.floor` of a quotient
   * by a positive divisor is Dafny's `/`): `0` in front below 10.
   */
  function Pad(n: int): string
  {
    if n < 10 then "0" + IntToString(n) else NatToString(n)
  }

  /** A padded non-negative value reads back as itself; below 100 it is two digits. */
  lemma PadReadsBack(n: int)
    ensures n >= 0 ==> |Pad(n)| >= 2 && AllDigits(Pad(n)) && DecimalValue(Pad(n)) == n
    ensures 0 <= n < 100 ==> |Pad(n)| == 2
    ensures n < 0 ==> Pad(n) == "0" + IntToString(n)
  {
    if n >= 0 {
      DecimalValueOfNatToString(n);
      if n < 10 {
        DecimalValueLeadingZero(NatToString(n));
      } else if n < 100 {
        NatToStringTwoDigits(n);
      }
    }
  }

  /** `padMilli`: left-pads with zeros to three digits below 100. */
  function PadMilli(num: int): string
  {
    if num < 10 then "00" + IntToString(num)
    else if num < 100 then "0" + IntToString(num)
    else IntToString(num)
  }

  /** A padded non-negative millisecond count reads back as itself; below 1000 it is three digits. */
  lemma PadMilliReadsBack(num: int)
    ensures num >= 0 ==> |PadMilli(num)| >= 3 && AllDigits(PadMilli(num)) && DecimalValue(PadMilli(num)) == num
    ensures 0 <= num < 1000 ==> |PadMilli(num)| == 3
    ensures num < 0 ==> PadMilli(num) == "00" + IntToString(num)
  {
    if num >= 0 {
      DecimalValueOfNatToString(num);
      if num < 10 {
        DecimalValueLeadingZero(NatToString(num));
        DecimalValueLeadingZero("0" + NatToString(num));
        assert "00" + NatToString(num) == "0" + ("0" + NatToString(num));
      } else if num < 100 {
        DecimalValueLeadingZero(NatToString(num));
        NatToStringTwoDigits(num);
      } else if num < 1000 {
        NatToStringThreeDigits(num);
      }
    }
  }

  /** `formatTime`: hours, minutes, seconds and milliseconds since midnight. */
  function FormatTime(millisSinceMidnight: int): string
  {
    Pad(millisSinceMidnight / HOUR) + ":" + Pad(JsRem(millisSinceMidnight, HOUR) / MINUTE) + ":"
    + Pad(JsRem(millisSinceMidnight, MINUTE) / SECOND) + "." + PadMilli(JsRem(millisSinceMidnight, SECOND))
  }

  /** The quotients and remainders `formatTime` takes recompose the time of day. */
  lemma TimeParts(ms: int)
    requires 0 <= ms < DAY
    ensures ms / HOUR < 24 && (ms % HOUR) / MINUTE < 60 && (ms % MINUTE) / SECOND < 60
    ensures (ms / HOUR) * HOUR + ((ms % HOUR) / MINUTE) * MINUTE + ((ms % MINUTE) / SECOND) * SECOND + ms % SECOND == ms
  {
    var h := ms / HOUR;
    var q := ms % HOUR;
    var m := q / MINUTE;
    assert ms == h * HOUR + q;
    assert q == m * MINUTE + q % MINUTE;
    assert ms == (h * 60 + m) * MINUTE + q % MINUTE;
    assert ms % MINUTE == q % MINUTE;
    assert ms % MINUTE == ((ms % MINUTE) / SECOND) * SECOND + (ms % MINUTE) % SECOND;
    assert ms == ((h * 60 + m) * 60 + (ms % MINUTE) / SECOND) * SECOND + (ms % MINUTE) % SECOND;
    assert ms % SECOND == (ms % MINUTE) % SECOND;
  }

  /**
   * Within a day, `formatTime` writes `hh:mm:ss.mmm`: two-digit hours below
   * 24, minutes and seconds below 60, three-digit milliseconds, which read
   * back as the time it was given.
   */
  lemma FormatTimeReadsBack(ms: int)
    requires 0 <= ms < DAY
    ensures var r := FormatTime(ms);
            |r| == 12 && r[2] == ':' && r[5] == ':' && r[8] == '.'
            && AllDigits(r[0..2]) && AllDigits(r[3..5]) && AllDigits(r[6..8]) && AllDigits(r[9..12])
            && DecimalValue(r[0..2]) < 24 && DecimalValue(r[3..5]) < 60 && DecimalValue(r[6..8]) < 60
            && DecimalValue(r[0..2]) * HOUR + DecimalValue(r[3..5]) * MINUTE
               + DecimalValue(r[6..8]) * SECOND + DecimalValue(r[9..12]) == ms
  {
    TimeParts(ms);
    JsRemAgreesOnNonNegative(ms, HOUR);
    JsRemAgreesOnNonNegative(ms, MINUTE);
    JsRemAgreesOnNonNegative(ms, SECOND);
    var hh := Pad(ms / HOUR);
    var mm := Pad(ms % HOUR / MINUTE);
    var ss := Pad(ms % MINUTE / SECOND);
    var mmm := PadMilli(ms % SECOND);
    PadReadsBack(ms / HOUR);
    PadReadsBack(ms % HOUR / MINUTE);
    PadReadsBack(ms % MINUTE / SECOND);
    PadMilliReadsBack(ms % SECOND);
    assert DecimalValue(hh) == ms / HOUR && DecimalValue(mm) == (ms % HOUR) / MINUTE;
    assert DecimalValue(ss) == (ms % MINUTE) / SECOND && DecimalValue(mmm) == ms % SECOND;
    TimeFields(hh, mm, ss, mmm);
  }

  /** Slicing `hh:mm:ss.mmm` back into its fields. */
  lemma TimeFields(hh: string, mm: string, ss: string, mmm: string)
    requires |hh| == 2 && |mm| == 2 && |ss| == 2 && |mmm| == 3
    ensures var r := hh + ":" + mm + ":" + ss + "." + mmm;
            |r| == 12 && r[2] == ':' && r[5] == ':' && r[8] == '.'
            && r[0..2] == hh && r[3..5] == mm && r[6..8] == ss && r[9..12] == mmm
  {
  }

  /** `formatDate`: `YYYY-MM-DD` of midnight, the month counted from 0 as `getMonth` does. */
  function FormatDate(year: int, month: int, date: int): string
  {
    Pad(year) + "-" + Pad(month + 1) + "-" + Pad(date)
  }

  /**
   * For a four-digit year the date is ten characters, `YYYY-MM-DD`, and
   * reads back as the year, the month counted from 1 and the day.
   */
  lemma FormatDateReadsBack(year: int, month: int, date: int)
    requires 1000 <= year < 10000 && 0 <= month < 12 && 1 <= date <= 31
    ensures var r := FormatDate(year, month, date);
            |r| == 10 && r[4] == '-' && r[7] == '-'
            && AllDigits(r[0..4]) && AllDigits(r[5..7]) && AllDigits(r[8..10])
            && DecimalValue(r[0..4]) == year && DecimalValue(r[5..7]) == month + 1 && DecimalValue(r[8..10]) == date
  {
    NatToStringFourDigits(year);
    PadReadsBack(year);
    PadReadsBack(month + 1);
    PadReadsBack(date);
    var yyyy := Pad(year);
    var mm := Pad(month + 1);
    var dd := Pad(date);
    var r := FormatDate(year, month, date);
    assert r == yyyy + "-" + mm + "-" + dd;
    assert r[0..4] == yyyy;
    assert r[5..7] == mm;
    assert r[8..10] == dd;
  }

  // ---------------------------------------------------------------------
  // checkDate
  // ---------------------------------------------------------------------

  /** The time since midnight `checkDate` returns: a day less once it reaches a day. */
  function CheckedMillis(millisSinceMidnight: int): (r: int)
    ensures millisSinceMidnight < DAY ==> r == millisSinceMidnight
    ensures 0 <= millisSinceMidnight < 2 * DAY ==> 0 <= r < DAY
  {
    if millisSinceMidnight >= DAY then millisSinceMidnight - DAY else millisSinceMidnight
  }

  /** The log file of a day: `<logDir>/trilium-YYYY-MM-DD.log`. */
  function LogPath(logDir: string, year: int, month: int, date: int): string
  {
    logDir + "/trilium-" + FormatDate(year, month, date) + ".log"
  }

  /** `log`'s text: prefixed with the script bundle running it, when there is one. */
  function Prefixed(bundleNoteId: Option<string>, str: string): (r: string)
    ensures !Truthy(bundleNoteId) ==> r == str
    ensures Truthy(bundleNoteId) ==> StartsWith(r, "[Script ") && EndsWith(r, "] " + str)
  {
    if Truthy(bundleNoteId) then "[Script " + bundleNoteId.value + "] " + str else str
  }

  /** A line `log` writes: the time since midnight it is stamped with, and its text. */
  datatype Entry = Entry(millisSinceMidnight: int, text: string)

  /** The characters of a written line: the time stamp, a space, the text and the line ending. */
  function Rendered(e: Entry, newLine: string): string
  {
    FormatTime(e.millisSinceMidnight) + " " + e.text + newLine
  }

  // ---------------------------------------------------------------------
  // request
  // ---------------------------------------------------------------------

  const REQUEST_BLACKLIST: seq<string> := ["/libraries", "/app", "/images", "/stylesheets", "/api/recent-notes"]

  /** Requests `request` does not log: a blacklisted prefix, or a source map. */
  predicate Skipped(url: string)
  {
    (exists k | 0 <= k < |REQUEST_BLACKLIST| :: StartsWith(url, REQUEST_BLACKLIST[k]))
    || Contains(url, ".js.map") || Contains(url, ".css.map")
  }

  /** The request line before the `Slow ` mark: status, method, URL, length and time. */
  function RequestText(url: string, httpMethod: string, statusCode: int, timeMs: int, responseLength: string): (line: string)
    ensures |line| > 0 && line[0] != 'S'
    ensures EndsWith(line, IntToString(timeMs) + "ms")
  {
    var head := IntToString(statusCode) + " " + httpMethod + " " + url + " with " + responseLength + " bytes took ";
    var tail := IntToString(timeMs) + "ms";
    assert head[0] == IntToString(statusCode)[0];
    assert (head + tail)[0] == head[0];
    EndsWithConcat(head, tail, tail);
    head + tail
  }

  /** The line `request` logs for a request that is not skipped. */
  function RequestLine(url: string, httpMethod: string, statusCode: int, timeMs: int, responseLength: string): (r: string)
    ensures StartsWith(r, "Slow ") <==> timeMs >= 10
    ensures EndsWith(r, IntToString(timeMs) + "ms")
  {
    var line := RequestText(url, httpMethod, statusCode, timeMs, responseLength);
    if timeMs >= 10 then
      EndsWithConcat("Slow ", line, IntToString(timeMs) + "ms");
      assert ("Slow " + line)[..5] == "Slow ";
      "Slow " + line
    else
      assert |line| < 5 || line[..5][0] != 'S';
      line
  }

  // ---------------------------------------------------------------------
  // The log file
  // ---------------------------------------------------------------------

  /** The module state of the log service: today's midnight and the open file. */
  class LogFile {
    /** `todaysMidnight`, in milliseconds since the epoch. */
    var todaysMidnight: int
    /** The path of the open log file. */
    var path: string
    /** Every line written, with the file it went to (`Rendered` gives its characters). */
    var written: seq<(string, Entry)>
    const logDir: string
    /** `NEW_LINE`: `\r\n` on Windows, `\n` elsewhere. */
    const newLine: string

    /** Module load: `initLogFile` for the first time. */
    constructor(logDir: string, win32: bool, midnight: int, year: int, month: int, date: int)
      ensures this.logDir == logDir && newLine == (if win32 then "\r\n" else "\n")
      ensures todaysMidnight == midnight && path == LogPath(logDir, year, month, date) && written == []
    {
      this.logDir := logDir;
      newLine := if win32 then "\r\n" else "\n";
      todaysMidnight := midnight;
      path := LogPath(logDir, year, month, date);
      written := [];
    }

    /** `initLogFile`: the new midnight, and the file named after its date opened for appending. */
    method InitLogFile(midnight: int, year: int, month: int, date: int)
      modifies this
      ensures todaysMidnight == midnight && path == LogPath(logDir, year, month, date)
      ensures written == old(written)
    {
      todaysMidnight := midnight;
      path := LogPath(logDir, year, month, date);
    }

    /**
     * `checkDate`: once the time since midnight reaches a day, re-opens the
     * log for the new day (whose midnight and date the clock gives) and
     * returns the time a day less; otherwise changes nothing.
     */
    method CheckDate(millisSinceMidnight: int, midnight: int, year: int, month: int, date: int) returns (r: int)
      modifies this
      ensures r == CheckedMillis(millisSinceMidnight)
      ensures millisSinceMidnight < DAY ==> todaysMidnight == old(todaysMidnight) && path == old(path)
      ensures millisSinceMidnight >= DAY ==> todaysMidnight == midnight && path == LogPath(logDir, year, month, date)
      ensures written == old(written)
    {
      r := millisSinceMidnight;
      if r >= DAY {
        InitLogFile(midnight, year, month, date);
        r := r - DAY;
      }
    }

    /**
     * `log`: appends `<formatTime> <text><NEW_LINE>` to the file open after
     * `checkDate`, the time measured from the midnight before the check.
     */
    method Log(str: string, bundleNoteId: Option<string>, now: int, midnight: int, year: int, month: int, date: int)
      modifies this
      ensures now - old(todaysMidnight) < DAY ==> todaysMidnight == old(todaysMidnight) && path == old(path)
      ensures now - old(todaysMidnight) >= DAY ==> todaysMidnight == midnight && path == LogPath(logDir, year, month, date)
      ensures written == old(written) + [(path, Entry(CheckedMillis(now - old(todaysMidnight)), Prefixed(bundleNoteId, str)))]
    {
      var text := Prefixed(bundleNoteId, str);
      var millisSinceMidnight := now - todaysMidnight;
      millisSinceMidnight := CheckDate(millisSinceMidnight, midnight, year, month, date);
      ghost var entry := Entry(CheckedMillis(now - old(todaysMidnight)), Prefixed(bundleNoteId, str));
      assert Entry(millisSinceMidnight, text) == entry;
      assert written == old(written);
      Write(millisSinceMidnight, text);
    }

    /** `logFile.write` of one stamped line. */
    method Write(millisSinceMidnight: int, text: string)
      modifies this
      ensures written == old(written) + [(path, Entry(millisSinceMidnight, text))]
      ensures todaysMidnight == old(todaysMidnight) && path == old(path)
    {
      written := written + [(path, Entry(millisSinceMidnight, text))];
    }

    /** `error`: `log` with `ERROR: ` in front of the message. */
    method Error(message: string, bundleNoteId: Option<string>, now: int, midnight: int, year: int, month: int, date: int)
      modifies this
      ensures var millis := CheckedMillis(now - old(todaysMidnight));
              written == old(written) + [(path, Entry(millis, Prefixed(bundleNoteId, "ERROR: " + message)))]
    {
      Log("ERROR: " + message, bundleNoteId, now, midnight, year, month, date);
    }

    /**
     * `request`: nothing for a skipped URL; otherwise `info` of the request
     * line, `Slow ` in front when it took 10 ms or more.
     */
    method Request(url: string, httpMethod: string, statusCode: int, timeMs: int, responseLength: string,
                   bundleNoteId: Option<string>, now: int, midnight: int, year: int, month: int, date: int)
      modifies this
      ensures Skipped(url) ==> written == old(written) && todaysMidnight == old(todaysMidnight) && path == old(path)
      ensures !Skipped(url) ==>
                var millis := CheckedMillis(now - old(todaysMidnight));
                written == old(written)
                           + [(path, Entry(millis, Prefixed(bundleNoteId, RequestLine(url, httpMethod, statusCode, timeMs, responseLength))))]
    {
      for k := 0 to |REQUEST_BLACKLIST|
        invariant forall j | 0 <= j < k :: !StartsWith(url, REQUEST_BLACKLIST[j])
      {
        if StartsWith(url, REQUEST_BLACKLIST[k]) {
          return;
        }
      }
      if Contains(url, ".js.map") || Contains(url, ".css.map") {
        return;
      }
      Log(RequestLine(url, httpMethod, statusCode, timeMs, responseLength), bundleNoteId, now, midnight, year, month, date);
    }
  }
}
