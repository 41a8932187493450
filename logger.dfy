/** The session log writer (`src/utils/Logger.tsx`): table data handed to `logData` is held back
    for a debounce period, and only the latest data is written to the session's log file. */
module Logger {
  import opened Common
  import opened Text

  /** The debounce period, in milliseconds: the timer fires this long after the latest
      `logData` call. */
  const DebounceMs := 100
  const FilePrefix := "file_session"
  const RegistryPrefix := "registry_session"

  /** `formatDateTime`, applied to the clock's ISO-8601 text: `:` and `.` become `-`, the first
      `T` becomes `_`, and everything from the first `Z` is dropped. */
  function FormatDateTime(iso: string): string {
    FirstField(ReplaceFirst(ReplaceChars(iso, {':', '.'}, '-'), "T", "_"), "Z")
  }

  lemma FirstFieldPrefix(s: string, sep: string)
    ensures FirstField(s, sep) <= s
  {
  }

  /** The formatted time has no `:` or `.` left, so it is safe in a file name. */
  lemma FormatDateTimeClean(iso: string)
    ensures ':' !in FormatDateTime(iso) && '.' !in FormatDateTime(iso)
  {
    var a := ReplaceChars(iso, {':', '.'}, '-');
    var b := ReplaceFirst(a, "T", "_");
    assert ':' !in a && '.' !in a;
    match IndexOf(a, "T")
    case None =>
    case Some(i) =>
      assert b == a[..i] + "_" + a[i + 1..];
      assert ':' !in b && '.' !in b;
    FirstFieldPrefix(b, "Z");
  }

  /** The session log file name: `<prefix>_<formatted time>.log`. */
  function SessionFileName(prefix: string, iso: string): string {
    prefix + "_" + FormatDateTime(iso) + ".log"
  }

  /** What `logData` or `writeLogToFile` may be handed: `null`, a non-array, or an array. */
  datatype LogInput<T> = NullInput | NotAnArray | Items(items: seq<T>)

  /** Whether `ensureLogDirectory` lets the write go ahead: creating the directory succeeded, or
      failed only because it already exists. */
  predicate DirectoryReady(createDir: Reply) {
    createDir.Done? || Includes(createDir.message, "AlreadyExists")
  }

  /** `BaseLogger`: the pending data, the debounce timer handle and whether its callback is still
      due, and the data of every file write issued, in order. */
  class BaseLogger<T> {
    var pendingData: Option<seq<T>>
    var timerSet: bool
    var timerDue: bool
    var writes: seq<seq<T>>
    const sessionLogFile: string

    /** Data is pending exactly while a timer is due, and a due timer has its handle stored. */
    ghost predicate Valid()
      reads this
    {
      (pendingData.Some? <==> timerDue) && (timerDue ==> timerSet)
    }

    /** The logger named for `prefix`, created at the time `iso`. */
    constructor(prefix: string, iso: string)
      ensures sessionLogFile == SessionFileName(prefix, iso)
      ensures pendingData.None? && !timerSet && !timerDue && writes == [] && Valid()
    {
      sessionLogFile := SessionFileName(prefix, iso);
      pendingData := None;
      timerSet := false;
      timerDue := false;
      writes := [];
    }

    /** `writeLogToFile`: nothing for `null` or a non-array; otherwise the log directory is made
        sure of and, if that does not fail, the data is written. */
    method WriteLogToFile(data: LogInput<T>, createDir: Reply, write: Reply) returns (r: Result<()>)
      modifies this
      ensures !data.Items? ==> r.Ok? && writes == old(writes)
      ensures data.Items? && !DirectoryReady(createDir) ==> r == Err(createDir.message) && writes == old(writes)
      ensures data.Items? && DirectoryReady(createDir) ==>
        writes == old(writes) + [data.items] && (r.Err? <==> write.Threw?)
      ensures pendingData == old(pendingData) && timerSet == old(timerSet) && timerDue == old(timerDue)
    {
      if !data.Items? {
        return Ok(());
      }
      if !DirectoryReady(createDir) {
        return Err(createDir.message);
      }
      writes := writes + [data.items];
      r := if write.Threw? then Err(write.message) else Ok(());
    }

    /** `logData`: ignores `null` and non-arrays; otherwise makes `data` the pending data and
        replaces any earlier timer with a fresh one. */
    method LogData(data: LogInput<T>)
      requires Valid()
      modifies this
      ensures Valid()
      ensures !data.Items? ==> pendingData == old(pendingData) && timerSet == old(timerSet) && timerDue == old(timerDue)
      ensures data.Items? ==> pendingData == Some(data.items) && timerSet && timerDue
      ensures writes == old(writes)
    {
      if !data.Items? {
        return;
      }
      pendingData := Some(data.items);
      timerSet := true;
      timerDue := true;
    }

    /** The debounce timer fires, `DebounceMs` after the latest `logData`: the pending data is
        taken and written. */
    method TimerFires(createDir: Reply, write: Reply) returns (r: Result<()>)
      requires timerDue
      modifies this
      ensures pendingData.None? && !timerDue && timerSet == old(timerSet)
      ensures old(pendingData).None? ==> r.Ok? && writes == old(writes)
      ensures old(pendingData).Some? ==>
        writes == old(writes) + (if DirectoryReady(createDir) then [old(pendingData).value] else [])
      ensures old(Valid()) ==> old(pendingData).Some? && Valid()
    {
      timerDue := false;
      var dataToWrite := pendingData;
      pendingData := None;
      if dataToWrite.None? {
        return Ok(());
      }
      r := WriteLogToFile(Items(dataToWrite.value), createDir, write);
    }

    /** `forceWrite`: with data pending, cancels the timer and writes exactly that data; with none,
        does nothing. */
    method ForceWrite(createDir: Reply, write: Reply) returns (r: Result<()>)
      requires Valid()
      modifies this
      ensures Valid()
      ensures old(pendingData).None? ==>
        r.Ok? && writes == old(writes) && timerSet == old(timerSet) && !timerDue
      ensures old(pendingData).Some? ==>
        pendingData.None? && !timerSet && !timerDue &&
        writes == old(writes) + (if DirectoryReady(createDir) then [old(pendingData).value] else [])
    {
      if pendingData.None? {
        return Ok(());
      }
      if timerSet {
        timerDue := false;
        timerSet := false;
      }
      var dataToWrite := pendingData.value;
      pendingData := None;
      r := WriteLogToFile(Items(dataToWrite), createDir, write);
    }
  }

  /** The two singletons, `FileLogger.instance` and `RegistryLogger.instance`. */
  class Loggers<F, R> {
    var fileLogger: BaseLogger?<F>
    var registryLogger: BaseLogger?<R>

    constructor()
      ensures fileLogger == null && registryLogger == null
    {
      fileLogger := null;
      registryLogger := null;
    }

    /** `FileLogger.getInstance`: the first call creates the logger, every later call returns it. */
    method GetFileLogger(iso: string) returns (l: BaseLogger<F>)
      modifies this
      ensures fileLogger == l && registryLogger == old(registryLogger)
      ensures old(fileLogger) != null ==> l == old(fileLogger)
      ensures old(fileLogger) == null ==> fresh(l) && l.sessionLogFile == SessionFileName(FilePrefix, iso)
      ensures old(fileLogger) == null ==> l.pendingData.None? && l.writes == []
    {
      if fileLogger == null {
        fileLogger := new BaseLogger<F>(FilePrefix, iso);
      }
      l := fileLogger;
    }

    /** `RegistryLogger.getInstance`. */
    method GetRegistryLogger(iso: string) returns (l: BaseLogger<R>)
      modifies this
      ensures registryLogger == l && fileLogger == old(fileLogger)
      ensures old(registryLogger) != null ==> l == old(registryLogger)
      ensures old(registryLogger) == null ==> fresh(l) && l.sessionLogFile == SessionFileName(RegistryPrefix, iso)
      ensures old(registryLogger) == null ==> l.pendingData.None? && l.writes == []
    {
      if registryLogger == null {
        registryLogger := new BaseLogger<R>(RegistryPrefix, iso);
      }
      l := registryLogger;
    }
  }
}
