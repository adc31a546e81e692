/**
 * The main window's data-grid fillers and its language switch: the reader
 * that turns alarm log files into (time, message) rows, the splitter that
 * turns general log lines into columns, and the swedish/english toggle.
 */
module Gui {
  import opened Wrappers
  import opened PyStr
  import CreateLog

  // ---------------------------------------------------------------------
  // Log folders
  // ---------------------------------------------------------------------

  /** A directory entry of a log folder, with its lines as the file yields them. */
  datatype LogFile = LogFile(name: string, lines: seq<string>)

  predicate EndsWith(s: string, suffix: string) {
    |suffix| <= |s| && s[|s| - |suffix|..] == suffix
  }

  /** [file for file in os.listdir(log_folder) if file.endswith(".log")], in listing order. */
  function LogFiles(listing: seq<LogFile>): (files: seq<LogFile>)
    ensures forall k :: 0 <= k < |files| ==> files[k] in listing && EndsWith(files[k].name, ".log")
    ensures forall f :: f in listing && EndsWith(f.name, ".log") ==> f in files
  {
    if listing == [] then []
    else
      var files := LogFiles(listing[..|listing| - 1]);
      var f := listing[|listing| - 1];
      assert forall g :: g in listing ==> g in listing[..|listing| - 1] || g == f;
      if EndsWith(f.name, ".log") then files + [f] else files
  }

  // ---------------------------------------------------------------------
  // add_opcua_alarm_to_datagrid
  // ---------------------------------------------------------------------

  /**
   * datetime.fromisoformat(text).strftime("%Y-%m-%d %H:%M:%S"); None where
   * fromisoformat raises ValueError.
   */
  type TimeFormatter = string -> Option<string>

  /** The three slots the reader fills: message, time_str and state. */
  datatype Slots = Slots(message: Option<string>, time: Option<string>, state: Option<string>)

  const Cleared := Slots(None, None, None)

  /** Python truthiness of an optional str: set and non-empty. */
  predicate Truthy(o: Option<string>) {
    o.Some? && o.value != ""
  }

  /** `message and time_str and state`. */
  predicate Complete(s: Slots) {
    Truthy(s.message) && Truthy(s.time) && Truthy(s.state)
  }

  /**
   * One stripped, non-empty line: a "Message:" line sets the message to the
   * stripped text after "Text=", a "Time:" line the reformatted time, a
   * "State:" line the state, in that priority; a Message line without
   * "Text=" and a time fromisoformat rejects raise.
   */
  function ReadLine(s: Slots, line: string, format: TimeFormatter): (r: Result<Slots>)
    ensures Contains(line, "Message:") ==>
      (r.Raised? <==> !Contains(Strip(After(line, "Message:").value), "Text=")) &&
      (r.Ok? ==> r.value == s.(message := Some(Strip(After(Strip(After(line, "Message:").value), "Text=").value))))
    ensures !Contains(line, "Message:") && Contains(line, "Time:") ==>
      (r.Raised? <==> format(Strip(After(line, "Time:").value)).None?) &&
      (r.Ok? ==> r.value == s.(time := format(Strip(After(line, "Time:").value))))
    ensures !Contains(line, "Message:") && !Contains(line, "Time:") ==>
      r == Ok(if Contains(line, "State:") then s.(state := Some(Strip(After(line, "State:").value))) else s)
  {
    if Contains(line, "Message:") then
      var full := Strip(After(line, "Message:").value);
      match After(full, "Text=")
      case None => Raised("IndexError: list index out of range")
      case Some(text) => Ok(s.(message := Some(Strip(text))))
    else if Contains(line, "Time:") then
      match format(Strip(After(line, "Time:").value))
      case None => Raised("ValueError: Invalid isoformat string")
      case Some(t) => Ok(s.(time := Some(t)))
    else if Contains(line, "State:") then
      Ok(s.(state := Some(Strip(After(line, "State:").value))))
    else Ok(s)
  }

  /** A row of the alarm grid: values=(time_str, message). */
  datatype AlarmRow = AlarmRow(time: string, message: string)

  /** The reader's slots, the rows inserted so far, and whether an exception ended the refill. */
  datatype ScanState = ScanState(slots: Slots, rows: seq<AlarmRow>, raised: bool)

  /** The row a complete triple yields: one only when state.lower() == "true". */
  function Emitted(s: Slots): seq<AlarmRow>
    requires Complete(s)
  {
    if Lower(s.state.value) == "true" then [AlarmRow(s.time.value, s.message.value)] else []
  }

  /** The slots after a raw line: a line that is empty after strip changes none. */
  function ReadRaw(s: Slots, raw: string, format: TimeFormatter): Result<Slots> {
    var line := Strip(raw);
    if line == [] then Ok(s) else ReadLine(s, line, format)
  }

  /**
   * One line of a file: read it, then on a complete triple insert a row
   * exactly when the state lower-cases to "true", and reset all three slots;
   * so after every line the slots are never all set.
   */
  function ScanLine(st: ScanState, raw: string, format: TimeFormatter): (r: ScanState)
    requires !st.raised
    ensures r.raised <==> ReadRaw(st.slots, raw, format).Raised?
    ensures !r.raised ==> !Complete(r.slots)
    ensures !r.raised ==> var v := ReadRaw(st.slots, raw, format).value;
      (r.slots == Cleared <==> Complete(v) || v == Cleared) &&
      (Complete(v) && Lower(v.state.value) == "true" ==> r.rows == st.rows + [AlarmRow(v.time.value, v.message.value)]) &&
      (!(Complete(v) && Lower(v.state.value) == "true") ==> r.rows == st.rows)
  {
    match ReadRaw(st.slots, raw, format)
    case Raised(_) => st.(raised := true)
    case Ok(s) =>
      if Complete(s) then ScanState(Cleared, st.rows + Emitted(s), false)
      else ScanState(s, st.rows, false)
  }

  /** The loop over the lines of one file. */
  function ScanLines(st: ScanState, lines: seq<string>, format: TimeFormatter): ScanState {
    if lines == [] then st
    else
      var prev := ScanLines(st, lines[..|lines| - 1], format);
      if prev.raised then prev else ScanLine(prev, lines[|lines| - 1], format)
  }

  /** The loop over the files: each file starts with cleared slots. */
  function ScanFiles(files: seq<LogFile>, format: TimeFormatter): ScanState {
    if files == [] then ScanState(Cleared, [], false)
    else
      var prev := ScanFiles(files[..|files| - 1], format);
      if prev.raised then prev else ScanLines(ScanState(Cleared, prev.rows, false), files[|files| - 1].lines, format)
  }

  /** An empty line changes no slot. */
  lemma BlankLineKeepsSlots(st: ScanState, raw: string, format: TimeFormatter)
    requires !st.raised && !Complete(st.slots) && Strip(raw) == []
    ensures ScanLine(st, raw, format) == st
  {
  }

  /** A line with "Message:" touches only the message slot, whatever other markers it carries. */
  lemma MessageLineWins(s: Slots, line: string, format: TimeFormatter)
    requires Contains(line, "Message:")
    ensures var r := ReadLine(s, line, format); r.Ok? ==> r.value.time == s.time && r.value.state == s.state
  {
  }

  lemma {:induction false} ScanLinesRaisedSticks(st: ScanState, lines: seq<string>, k: nat, format: TimeFormatter)
    requires k <= |lines| && ScanLines(st, lines[..k], format).raised
    ensures ScanLines(st, lines, format) == ScanLines(st, lines[..k], format)
    decreases |lines|
  {
    if k < |lines| {
      var init := lines[..|lines| - 1];
      assert init[..k] == lines[..k];
      ScanLinesRaisedSticks(st, init, k, format);
    } else {
      assert lines[..k] == lines;
    }
  }

  lemma {:induction false} ScanFilesRaisedSticks(files: seq<LogFile>, k: nat, format: TimeFormatter)
    requires k <= |files| && ScanFiles(files[..k], format).raised
    ensures ScanFiles(files, format) == ScanFiles(files[..k], format)
    decreases |files|
  {
    if k < |files| {
      var init := files[..|files| - 1];
      assert init[..k] == files[..k];
      ScanFilesRaisedSticks(init, k, format);
    } else {
      assert files[..k] == files;
    }
  }

  /**
   * Rows only ever accumulate, and every row comes from a complete triple
   * whose state reads "true": a row has a non-empty time and message.
   */
  lemma {:induction false} ScanLinesRows(st: ScanState, lines: seq<string>, format: TimeFormatter)
    requires !st.raised
    ensures var r := ScanLines(st, lines, format);
      |st.rows| <= |r.rows| && r.rows[..|st.rows|] == st.rows &&
      (forall k :: |st.rows| <= k < |r.rows| ==> r.rows[k].time != "" && r.rows[k].message != "") &&
      (!r.raised && !Complete(st.slots) ==> !Complete(r.slots))
  {
    if lines != [] {
      var init := lines[..|lines| - 1];
      ScanLinesRows(st, init, format);
      var prev := ScanLines(st, init, format);
      if !prev.raised {
        var r := ScanLine(prev, lines[|lines| - 1], format);
        ScanLineRows(prev, lines[|lines| - 1], format);
        assert r.rows[..|st.rows|] == prev.rows[..|st.rows|];
        forall k | |st.rows| <= k < |r.rows| ensures r.rows[k].time != "" && r.rows[k].message != "" {
          if k < |prev.rows| {
            assert r.rows[k] == prev.rows[k];
          }
        }
      }
    }
  }

  /** One line keeps the rows so far and adds only rows with a non-empty time and message. */
  lemma ScanLineRows(prev: ScanState, raw: string, format: TimeFormatter)
    requires !prev.raised
    ensures var r := ScanLine(prev, raw, format);
      |prev.rows| <= |r.rows| && r.rows[..|prev.rows|] == prev.rows &&
      (forall k :: |prev.rows| <= k < |r.rows| ==> r.rows[k].time != "" && r.rows[k].message != "")
  {
  }

  // ---------------------------------------------------------------------
  // add_logs_to_datagrid
  // ---------------------------------------------------------------------

  /** The columns of a log line: line.split("|", 3) of the stripped line. */
  function LogColumns(raw: string): (cols: seq<string>)
    ensures 1 <= |cols| <= 4
  {
    SplitN(Strip(raw), '|', 3)
  }

  /** Rows of the log grid from one file: non-empty stripped lines, split. */
  function LogRowsOfLines(lines: seq<string>): seq<seq<string>> {
    if lines == [] then []
    else LogRowsOfLines(lines[..|lines| - 1]) + (if Strip(lines[|lines| - 1]) == [] then [] else [LogColumns(lines[|lines| - 1])])
  }

  function LogRows(files: seq<LogFile>): seq<seq<string>> {
    if files == [] then [] else LogRows(files[..|files| - 1]) + LogRowsOfLines(files[|files| - 1].lines)
  }

  /**
   * A log line yields at most four columns, only the last can hold "|",
   * joined with "|" they give back the stripped line, and splitting that
   * join again gives the same columns.
   */
  lemma LogColumnsRoundTrip(raw: string)
    ensures var cols := LogColumns(raw);
      |cols| <= 4 && SplitShaped(cols, '|', 3) && JoinWith(cols, '|') == Strip(raw) &&
      LogColumns(JoinWith(cols, '|')) == cols
  {
    var line := Strip(raw);
    SplitNJoin(line, '|', 3);
    SplitNShape(line, '|', 3);
    StripIdempotent(raw);
  }

  /** The loop over the lines of one alarm file, with its three slots. */
  method ScanAlarmFile(start: ScanState, lines: seq<string>, format: TimeFormatter) returns (r: ScanState)
    requires start.slots == Cleared && !start.raised
    ensures r == ScanLines(start, lines, format)
  {
    var rows := start.rows;
    var message: Option<string> := None;
    var timeStr: Option<string> := None;
    var state: Option<string> := None;
    var i := 0;
    while i < |lines|
      invariant 0 <= i <= |lines|
      invariant ScanLines(start, lines[..i], format) == ScanState(Slots(message, timeStr, state), rows, false)
    {
      assert lines[..i + 1][..i] == lines[..i];
      var line := Strip(lines[i]);
      if line != [] {
        var read := ReadLine(Slots(message, timeStr, state), line, format);
        if read.Raised? {
          ScanLinesRaisedSticks(start, lines, i + 1, format);
          return ScanState(Slots(message, timeStr, state), rows, true);
        }
        message, timeStr, state := read.value.message, read.value.time, read.value.state;
      }
      if Truthy(message) && Truthy(timeStr) && Truthy(state) {
        if Lower(state.value) == "true" {
          rows := rows + [AlarmRow(timeStr.value, message.value)];
        }
        message, timeStr, state := None, None, None;
      }
      i := i + 1;
    }
    assert lines[..i] == lines;
    r := ScanState(Slots(message, timeStr, state), rows, false);
  }

  /** The rows of one general log file. */
  method LogFileRows(lines: seq<string>) returns (rows: seq<seq<string>>)
    ensures rows == LogRowsOfLines(lines)
  {
    rows := [];
    var j := 0;
    while j < |lines|
      invariant 0 <= j <= |lines|
      invariant rows == LogRowsOfLines(lines[..j])
    {
      assert lines[..j + 1][..j] == lines[..j];
      var line := Strip(lines[j]);
      if line != [] {
        var error := SplitN(line, '|', 3);
        rows := rows + [error];
      }
      j := j + 1;
    }
    assert lines[..j] == lines;
  }

  /** Every file a logger writes is named with ".log", so the grids read it from the listing. */
  lemma LoggerFileListed(listing: seq<LogFile>, loggerName: string, lines: seq<string>)
    requires LogFile(CreateLog.LogFileName(loggerName), lines) in listing
    ensures LogFile(CreateLog.LogFileName(loggerName), lines) in LogFiles(listing)
  {
  }

  /**
   * A record the log formatter wrote comes back as its four columns: date,
   * level, logger name and the whole message, '|' characters included.
   * This is the record as one string; a message holding '\n' is written as
   * several lines of the file.
   */
  lemma LoggedRecordColumns(asctime: string, levelName: string, name: string, message: string)
    requires '|' !in asctime && '|' !in levelName && '|' !in name
    requires asctime != [] && !IsSpace(asctime[0]) && message != [] && !IsSpace(message[|message| - 1])
    ensures LogColumns(CreateLog.FormatRecord(asctime, levelName, name, message)) == [asctime, levelName, name, message]
  {
    var line := CreateLog.FormatRecord(asctime, levelName, name, message);
    assert line[0] == asctime[0] && line[|line| - 1] == message[|message| - 1];
    StripUnchanged(line);
    CreateLog.FormatRecordSplits(asctime, levelName, name, message);
  }

  // ---------------------------------------------------------------------
  // App
  // ---------------------------------------------------------------------

  /** change_language's rule: english becomes swedish, anything else english. */
  function Toggled(language: string): (r: string)
    ensures r in {"swedish", "english"}
    ensures r == "swedish" <==> language == "english"
    ensures language in {"swedish", "english"} ==> r != language
  {
    if language == "english" then "swedish" else "english"
  }

  /** Between the two languages the toggle is an involution. */
  lemma ToggleTwice(language: string)
    requires language in {"swedish", "english"}
    ensures Toggled(Toggled(language)) == language
  {
  }

  /** The main window: its language and the contents of the two log grids. */
  class App {
    var language: string
    var alarmGrid: seq<AlarmRow>
    var logGrid: seq<seq<string>>

    constructor(language: string)
      ensures this.language == language && alarmGrid == [] && logGrid == []
    {
      this.language := language;
      alarmGrid := [];
      logGrid := [];
    }

    /** change_language. */
    method ChangeLanguage()
      modifies this
      ensures language == Toggled(old(language))
      ensures alarmGrid == old(alarmGrid) && logGrid == old(logGrid)
    {
      language := if language == "english" then "swedish" else "english";
    }

    /** add_opcua_alarm_to_datagrid: clear the grid, then refill it from the folder's .log files. */
    method AddOpcuaAlarmToDatagrid(listing: seq<LogFile>, format: TimeFormatter) returns (raised: bool)
      modifies this
      ensures var r := ScanFiles(LogFiles(listing), format); alarmGrid == r.rows && raised == r.raised
      ensures language == old(language) && logGrid == old(logGrid)
    {
      alarmGrid := [];
      var files := LogFiles(listing);
      var st := ScanState(Cleared, [], false);
      var i := 0;
      while i < |files|
        invariant 0 <= i <= |files|
        invariant ScanFiles(files[..i], format) == st && !st.raised
        invariant language == old(language) && logGrid == old(logGrid)
      {
        assert files[..i + 1][..i] == files[..i];
        st := ScanAlarmFile(ScanState(Cleared, st.rows, false), files[i].lines, format);
        if st.raised {
          ScanFilesRaisedSticks(files, i + 1, format);
          alarmGrid := st.rows;
          return true;
        }
        i := i + 1;
      }
      assert files[..i] == files;
      alarmGrid := st.rows;
      raised := false;
    }

    /** add_logs_to_datagrid: clear the grid, then one row per non-empty line of each .log file. */
    method AddLogsToDatagrid(listing: seq<LogFile>)
      modifies this
      ensures logGrid == LogRows(LogFiles(listing))
      ensures language == old(language) && alarmGrid == old(alarmGrid)
    {
      logGrid := [];
      var files := LogFiles(listing);
      var grid: seq<seq<string>> := [];
      var i := 0;
      while i < |files|
        invariant 0 <= i <= |files|
        invariant grid == LogRows(files[..i])
        invariant language == old(language) && alarmGrid == old(alarmGrid)
      {
        assert files[..i + 1][..i] == files[..i];
        var rows := LogFileRows(files[i].lines);
        grid := grid + rows;
        i := i + 1;
      }
      assert files[..i] == files;
      logGrid := grid;
    }
  }
}
