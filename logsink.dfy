/** The log sink of account-checker.js: `recycleLogFile` renames the active log once it has
    reached MAX_LOG_SIZE bytes, and `logMessage` appends one timestamped line after that check.
    The file system is abstract state: the contents of the active file `log.txt` (absent after a
    rotation until the next append recreates it) and the archived files by name. */
module LogSink {
  import opened Wrappers
  import opened Utf8
  import opened Chars

  /** MAX_LOG_SIZE: 1 MiB. */
  const MaxLogSize: nat := 1 * 1024 * 1024

  /** The name of the active log file. */
  const ActiveName: string := "log.txt"

  // ---------------------------------------------------------------------------------------
  // Archive names
  // ---------------------------------------------------------------------------------------

  /** The characters matched by the regular expression `[:.]`. */
  predicate IsSeparator(c: char) {
    c == ':' || c == '.'
  }

  /** `ts.replace(/[:.]/g, "-")`: every ':' and '.' becomes '-', nothing else changes. */
  function Sanitise(ts: string): (r: string)
    ensures |r| == |ts|
    ensures forall i :: 0 <= i < |r| ==> !IsSeparator(r[i])
    ensures forall i :: 0 <= i < |ts| && IsSeparator(ts[i]) ==> r[i] == '-'
    ensures forall i :: 0 <= i < |ts| && !IsSeparator(ts[i]) ==> r[i] == ts[i]
  {
    if ts == [] then []
    else [if IsSeparator(ts[0]) then '-' else ts[0]] + Sanitise(ts[1..])
  }

  /** The name an active log is renamed to: `log-<sanitised ISO timestamp>.txt`. */
  function ArchiveName(isoNow: string): (r: string)
    ensures |r| == |isoNow| + 8
    ensures r[..4] == "log-" && r[|r| - 4..] == ".txt"
    ensures r[4..|r| - 4] == Sanitise(isoNow)
  {
    "log-" + Sanitise(isoNow) + ".txt"
  }

  /** The only '.' of an archive name is the one that starts its ".txt" extension, and an
      archive name is never the active file's name. */
  lemma ArchiveNameShape(isoNow: string)
    ensures forall i :: 0 <= i < |ArchiveName(isoNow)| && ArchiveName(isoNow)[i] == '.' ==>
              i == |ArchiveName(isoNow)| - 4
    ensures ArchiveName(isoNow) != ActiveName
  {
  }

  /** The layout of `Date.prototype.toISOString` for years 0 to 9999:
      `YYYY-MM-DDTHH:mm:ss.sssZ`, where 'd' stands for a digit. */
  const IsoTemplate: string := "dddd-dd-ddTdd:dd:dd.dddZ"

  predicate IsIsoTimestamp(s: string) {
    |s| == |IsoTemplate| &&
    forall i :: 0 <= i < |s| ==>
      if IsoTemplate[i] == 'd' then IsDigit(s[i]) else s[i] == IsoTemplate[i]
  }

  /** Distinct ISO timestamps give distinct archive names, so two rotations at different
      milliseconds never rename onto the same archive. */
  lemma ArchiveNameInjective(s: string, t: string)
    requires IsIsoTimestamp(s) && IsIsoTimestamp(t)
    requires ArchiveName(s) == ArchiveName(t)
    ensures s == t
  {
  }

  // ---------------------------------------------------------------------------------------
  // The file system as a value
  // ---------------------------------------------------------------------------------------

  /** The active file's bytes (None when it does not exist) and the archives by name. */
  datatype LogState = LogState(active: Option<seq<byte>>, archives: map<string, seq<byte>>)

  /** The rotation condition of `recycleLogFile`: the file exists and `stats.size >= MAX_LOG_SIZE`. */
  predicate RotationDue(active: Option<seq<byte>>) {
    active.Some? && |active.value| >= MaxLogSize
  }

  /** The state after `recycleLogFile`; `fs.renameSync` replaces an archive of the same name. */
  function Recycled(s: LogState, isoNow: string): LogState {
    if RotationDue(s.active) then
      LogState(None, s.archives[ArchiveName(isoNow) := s.active.value])
    else
      s
  }

  /** The line that `logMessage` writes: `[<timestamp>] <message>` and a newline. */
  function LogLine(localeNow: string, message: string): (line: string)
    ensures |line| == |localeNow| + |message| + 4
    ensures line[0] == '[' && line[|line| - 1] == '\n'
    ensures line[1..|localeNow| + 1] == localeNow
    ensures line[|localeNow| + 1..|localeNow| + 3] == "] "
    ensures line[|localeNow| + 3..|line| - 1] == message
  {
    "[" + localeNow + "] " + message + "\n"
  }

  /** `fs.appendFileSync`: the file's bytes followed by the text's, creating it when absent. */
  function Appended(active: Option<seq<byte>>, text: string): seq<byte> {
    if active.Some? then active.value + Encode(text) else Encode(text)
  }

  /** The state after `logMessage(message)`: recycle first, then append the line. */
  function Logged(s: LogState, localeNow: string, isoNow: string, message: string): LogState {
    var t := Recycled(s, isoNow);
    LogState(Some(Appended(t.active, LogLine(localeNow, message))), t.archives)
  }

  // ---------------------------------------------------------------------------------------
  // Properties of recycling and logging
  // ---------------------------------------------------------------------------------------

  /** Without a due rotation, `recycleLogFile` leaves the whole file system as it was; with
      one, the active file is gone and its bytes sit under the archive name. */
  lemma RecycledSpec(s: LogState, isoNow: string)
    ensures !RotationDue(s.active) ==> Recycled(s, isoNow) == s
    ensures RotationDue(s.active) ==>
              Recycled(s, isoNow).active.None? &&
              ArchiveName(isoNow) in Recycled(s, isoNow).archives &&
              Recycled(s, isoNow).archives[ArchiveName(isoNow)] == s.active.value &&
              (forall n :: n != ArchiveName(isoNow) ==>
                 (n in Recycled(s, isoNow).archives <==> n in s.archives)) &&
              (forall n :: n != ArchiveName(isoNow) && n in s.archives ==>
                 Recycled(s, isoNow).archives[n] == s.archives[n])
  {
  }

  /** After a rotation the old contents are archived, the active file is exactly the new line,
      and every other archive is untouched. */
  lemma LoggedAfterRotation(s: LogState, localeNow: string, isoNow: string, message: string)
    requires RotationDue(s.active)
    ensures var r := Logged(s, localeNow, isoNow, message);
            r.active == Some(Encode(LogLine(localeNow, message))) &&
            ArchiveName(isoNow) in r.archives &&
            r.archives[ArchiveName(isoNow)] == s.active.value &&
            (forall n :: n != ArchiveName(isoNow) ==>
               (n in r.archives <==> n in s.archives)) &&
            (forall n :: n != ArchiveName(isoNow) && n in s.archives ==>
               r.archives[n] == s.archives[n])
  {
  }

  /** Without a rotation the line is appended to the existing contents (or starts the file)
      and the archives are not touched. */
  lemma LoggedWithoutRotation(s: LogState, localeNow: string, isoNow: string, message: string)
    requires !RotationDue(s.active)
    ensures var r := Logged(s, localeNow, isoNow, message);
            r.archives == s.archives &&
            r.active == Some(if s.active.Some?
                             then s.active.value + Encode(LogLine(localeNow, message))
                             else Encode(LogLine(localeNow, message)))
  {
  }

  /** After any `logMessage` the active file exists, ends with the new line's bytes, and is
      smaller than the threshold plus that line: rotation happens before the append, so the
      file can pass the threshold by less than one line but never by more. */
  lemma {:induction false} LoggedActiveBound(s: LogState, localeNow: string, isoNow: string,
                                             message: string)
    ensures var r := Logged(s, localeNow, isoNow, message);
            var line := Encode(LogLine(localeNow, message));
            r.active.Some? &&
            |line| <= |r.active.value| < MaxLogSize + |line| &&
            r.active.value[|r.active.value| - |line|..] == line
  {
  }

  /** The active file can end up larger than the threshold: a file one byte short of it is not
      rotated, and the appended line is at least four bytes long. */
  lemma {:induction false} ActiveCanExceedThreshold(s: LogState, localeNow: string, isoNow: string,
                                                    message: string)
    requires s.active.Some? && |s.active.value| == MaxLogSize - 1
    ensures var r := Logged(s, localeNow, isoNow, message);
            r.active.Some? && |r.active.value| > MaxLogSize
  {
  }

  /** The rotation scenario: a log of exactly 1,048,576 bytes is archived and `log.txt` then
      holds only `[<ts>] hello` and a newline; one byte less and it is appended to. */
  lemma RotationBoundary(localeNow: string, isoNow: string, contents: seq<byte>)
    ensures |contents| == 1048576 ==>
              Logged(LogState(Some(contents), map[]), localeNow, isoNow, "hello")
                == LogState(Some(Encode("[" + localeNow + "] hello\n")),
                            map[ArchiveName(isoNow) := contents])
    ensures |contents| == 1048575 ==>
              Logged(LogState(Some(contents), map[]), localeNow, isoNow, "hello")
                == LogState(Some(contents + Encode("[" + localeNow + "] hello\n")), map[])
  {
    assert LogLine(localeNow, "hello") == "[" + localeNow + "] hello\n";
  }

  // ---------------------------------------------------------------------------------------
  // The file system as mutable state
  // ---------------------------------------------------------------------------------------

  /** The directory holding `log.txt` and its archives, changed in place by the two routines. */
  class LogDirectory {
    var active: Option<seq<byte>>
    var archives: map<string, seq<byte>>

    function State(): LogState
      reads this
    {
      LogState(active, archives)
    }

    constructor (initial: LogState)
      ensures State() == initial
    {
      active := initial.active;
      archives := initial.archives;
    }

    /** `recycleLogFile`: rename `log.txt` to its archive name when it exists and is at
        least MAX_LOG_SIZE bytes; otherwise change nothing. */
    method RecycleLogFile(isoNow: string)
      modifies this
      ensures State() == Recycled(old(State()), isoNow)
      ensures !RotationDue(old(active)) ==> active == old(active) && archives == old(archives)
    {
      if active.Some? {
        var size := |active.value|;
        if size >= MaxLogSize {
          var newLogFilePath := ArchiveName(isoNow);
          archives := archives[newLogFilePath := active.value];
          active := None;
        }
      }
    }

    /** `fs.appendFileSync(LOG_FILE_PATH, text)`: append the text's UTF-8 bytes, creating the
        file when it does not exist. */
    method AppendFile(text: string)
      modifies this
      ensures active == Some(Appended(old(active), text))
      ensures archives == old(archives)
    {
      if active.Some? {
        active := Some(active.value + Encode(text));
      } else {
        active := Some(Encode(text));
      }
    }

    /** `logMessage`: build the line, recycle the file, append the line. The two clock
        readings (`toLocaleString` for the line, `toISOString` for the archive name) are
        parameters. */
    method LogMessage(localeNow: string, isoNow: string, message: string)
      modifies this
      ensures State() == Logged(old(State()), localeNow, isoNow, message)
      ensures RotationDue(old(active)) ==>
                active == Some(Encode(LogLine(localeNow, message))) &&
                archives == old(archives)[ArchiveName(isoNow) := old(active).value]
      ensures !RotationDue(old(active)) ==>
                active == Some(Appended(old(active), LogLine(localeNow, message))) &&
                archives == old(archives)
    {
      var log := LogLine(localeNow, message);
      RecycleLogFile(isoNow);
      AppendFile(log);
    }
  }
}
