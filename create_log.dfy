/**
 * Logging set-up: the filter that drops records mentioning a suppressed
 * text, where a logger's file goes, the line format it writes, and the
 * retention sweep that deletes old log files.
 */
module CreateLog {
  import opened Wrappers
  import opened PyStr

  // ---------------------------------------------------------------------
  // SuppressSpecificLogs
  // ---------------------------------------------------------------------

  /** Some entry of the list occurs in the message. */
  predicate Mentions(suppressList: seq<string>, message: string) {
    exists k :: 0 <= k < |suppressList| && Contains(message, suppressList[k])
  }

  /** SuppressSpecificLogs.filter: 0 (drop) at the first entry found in the message, 1 (keep) otherwise. */
  method Filter(suppressList: seq<string>, message: string) returns (r: int)
    ensures r == 0 <==> Mentions(suppressList, message)
    ensures r == 0 || r == 1
  {
    for i := 0 to |suppressList|
      invariant forall k :: 0 <= k < i ==> !Contains(message, suppressList[k])
    {
      if Contains(message, suppressList[i]) {
        return 0;
      }
    }
    return 1;
  }

  /**
   * Whether a handler set up with this suppress_list writes the record: the
   * filter is attached only when the list is given and non-empty.
   */
  predicate Written(suppressList: Option<seq<string>>, message: string) {
    suppressList.None? || suppressList.value == [] || !Mentions(suppressList.value, message)
  }

  /** Without a list, or with an empty one, nothing is suppressed. */
  lemma NoListKeepsAll(message: string)
    ensures Written(None, message) && Written(Some([]), message)
  {
  }

  /** An empty entry occurs in every message, so it suppresses everything. */
  lemma EmptyEntrySuppressesAll(suppressList: seq<string>, message: string)
    requires "" in suppressList
    ensures !Written(Some(suppressList), message)
  {
    var k :| 0 <= k < |suppressList| && suppressList[k] == "";
    assert OccursAt(message, "", 0);
  }

  // ---------------------------------------------------------------------
  // setup_logger
  // ---------------------------------------------------------------------

  /** The folder of a logger's file: "alarms" for the logger named alarms, "logs" for every other. */
  function LogFolder(loggerName: string): (folder: string)
    ensures folder in {"alarms", "logs"}
    ensures folder == "alarms" <==> loggerName == "alarms"
  {
    if loggerName == "alarms" then "alarms" else "logs"
  }

  /** The file name inside the folder. */
  function LogFileName(loggerName: string): (name: string)
    ensures |name| == |loggerName| + 4 && name[..|loggerName|] == loggerName && name[|loggerName|..] == ".log"
  {
    loggerName + ".log"
  }

  /** A record as the formatter '%(asctime)s|%(levelname)s|%(name)s|%(message)s' writes it. */
  function FormatRecord(asctime: string, levelName: string, name: string, message: string): string {
    asctime + "|" + levelName + "|" + name + "|" + message
  }

  /**
   * Splitting a formatted record at its first three '|' gives back its four
   * fields, whatever the message holds, provided the first three fields
   * contain no '|'.
   */
  lemma FormatRecordSplits(asctime: string, levelName: string, name: string, message: string)
    requires '|' !in asctime && '|' !in levelName && '|' !in name
    ensures SplitN(FormatRecord(asctime, levelName, name, message), '|', 3) == [asctime, levelName, name, message]
  {
    var parts := [asctime, levelName, name, message];
    assert JoinWith(parts, '|') == FormatRecord(asctime, levelName, name, message) by {
      assert parts[1..][1..][1..] == [message];
      assert JoinWith(parts[1..][1..], '|') == name + "|" + message;
      assert JoinWith(parts[1..], '|') == levelName + "|" + name + "|" + message;
    }
    SplitNOfJoin(parts, '|', 3);
  }

  // ---------------------------------------------------------------------
  // delete_old_logs
  // ---------------------------------------------------------------------

  /** A directory entry: its name, whether it is a regular file, and its ctime in seconds, as `os.path.getctime` gives it. */
  datatype DirEntry = DirEntry(name: string, isFile: bool, created: real)

  /** The age rule: strictly older than days_old days. */
  predicate Expired(now: real, created: real, daysOld: int) {
    now - created > (daysOld * 86400) as real
  }

  predicate Deleted(e: DirEntry, now: real, daysOld: int) {
    e.isFile && Expired(now, e.created, daysOld)
  }

  /** The entries the sweep leaves, in listing order. */
  function Kept(entries: seq<DirEntry>, now: real, daysOld: int): (r: seq<DirEntry>)
    ensures |r| <= |entries|
  {
    if entries == [] then []
    else
      var init := Kept(entries[..|entries| - 1], now, daysOld);
      var e := entries[|entries| - 1];
      if Deleted(e, now, daysOld) then init else init + [e]
  }

  /** The sweep leaves exactly the entries that are not expired regular files. */
  lemma {:induction false} KeptMembers(entries: seq<DirEntry>, now: real, daysOld: int, e: DirEntry)
    ensures e in Kept(entries, now, daysOld) <==> e in entries && !Deleted(e, now, daysOld)
  {
    if entries != [] {
      var init := entries[..|entries| - 1];
      KeptMembers(init, now, daysOld, e);
      assert entries == init + [entries[|entries| - 1]];
    }
  }

  lemma KeptStep(entries: seq<DirEntry>, i: nat, now: real, daysOld: int)
    requires i < |entries|
    ensures Kept(entries[..i + 1], now, daysOld) ==
      Kept(entries[..i], now, daysOld) + (if Deleted(entries[i], now, daysOld) then [] else [entries[i]])
  {
    assert entries[..i + 1][..i] == entries[..i];
  }

  /** The entry at the sweep's position, and the listing with it dropped or kept. */
  lemma SplitAt(done: seq<DirEntry>, listing: seq<DirEntry>, i: nat)
    requires i < |listing|
    ensures var s := done + listing[i..];
      s[..|done|] + s[|done| + 1..] == done + listing[i + 1..] &&
      s == (done + [listing[i]]) + listing[i + 1..]
  {
    assert listing[i..] == [listing[i]] + listing[i + 1..];
  }

  /** Sub-directories survive every sweep, whatever their age. */
  lemma DirectoriesKept(entries: seq<DirEntry>, now: real, daysOld: int, e: DirEntry)
    requires e in entries && !e.isFile
    ensures e in Kept(entries, now, daysOld)
  {
    KeptMembers(entries, now, daysOld, e);
  }

  /** A log directory whose entries the sweep removes. */
  class LogDir {
    var entries: seq<DirEntry>

    constructor(entries: seq<DirEntry>)
      ensures this.entries == entries
    {
      this.entries := entries;
    }

    /** delete_old_logs(log_dir, days_old) at time `now`: removes each expired regular file. */
    method DeleteOldLogs(daysOld: int, now: real)
      modifies this
      ensures entries == Kept(old(entries), now, daysOld)
    {
      var listing := entries;
      var i, j := 0, 0;
      while i < |listing|
        invariant 0 <= i <= |listing|
        invariant entries == Kept(listing[..i], now, daysOld) + listing[i..]
        invariant j == |Kept(listing[..i], now, daysOld)|
      {
        ghost var done := Kept(listing[..i], now, daysOld);
        KeptStep(listing, i, now, daysOld);
        var e := listing[i];
        SplitAt(done, listing, i);
        if e.isFile && now - e.created > (daysOld * 86400) as real {
          entries := entries[..j] + entries[j + 1..];
        } else {
          j := j + 1;
        }
        i := i + 1;
      }
      assert listing[..i] == listing;
    }
  }
}
