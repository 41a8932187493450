/** The minifilter-driver file monitor (`src-tauri/src/file_monitor.rs`): turns the driver's I/O
    messages into file-change events tagged with the watched directory they fall under, and keeps
    the list of watched directories. */
module FileMonitorBackend {
  import opened Common
  import opened Text
  import opened Numbers
  import opened WinPath

  /** `file_change_to_string`: the driver's change codes 0 to 13 and "Unknown" for the rest. */
  function FileChangeName(code: Byte): (name: string)
    ensures code > 13 <==> name == "Unknown"
  {
    match code
    case 0 => "Unchanged"
    case 1 => "Opened"
    case 2 => "Write"
    case 3 => "Created"
    case 4 => "Renamed"
    case 5 => "Renamed To"
    case 6 => "Renamed From"
    case 7 => "Extension Changed"
    case 8 => "Deleted"
    case 9 => "DeleteNewFile"
    case 10 => "Overwrite"
    case 11 => "Moved"
    case 12 => "Moved To"
    case 13 => "Moved From"
    case _ => "Unknown"
  }

  /** Each known change code has a name of its own. */
  lemma FileChangeNamesDistinct(a: Byte, b: Byte)
    requires a <= 13 && b <= 13 && a != b
    ensures FileChangeName(a) != FileChangeName(b)
  {
  }

  /** The two names that get the one-millisecond shift belong to codes 5 and 12 only. */
  lemma ArrivalNames(code: Byte)
    ensures FileChangeName(code) == "Renamed To" || FileChangeName(code) == "Moved To" <==> code == 5 || code == 12
  {
    if code > 13 {
      assert FileChangeName(code) == "Unknown";
    }
  }

  /** `irp_op_to_string`. */
  function IrpOpName(op: Byte): (name: string)
    ensures op > 5 <==> name == "UNKNOWN"
  {
    match op
    case 0 => "NONE"
    case 1 => "READ"
    case 2 => "WRITE"
    case 3 => "SETINFO"
    case 4 => "CREATE"
    case 5 => "CLEANUP"
    case _ => "UNKNOWN"
  }

  /** Digits grouped in threes from the right, separated by commas. */
  function GroupThousands(t: string): string
    decreases |t|
  {
    if |t| <= 3 then t else GroupThousands(t[..|t| - 3]) + "," + t[|t| - 3..]
  }

  /** Putting one more digit in front of a grouped number opens a new group exactly when the
      digits already there fill whole groups. */
  lemma {:induction false} GroupThousandsCons(c: char, t: string)
    decreases |t|
    ensures GroupThousands([c] + t) ==
      if |t| > 0 && |t| % 3 == 0 then [c, ','] + GroupThousands(t) else [c] + GroupThousands(t)
  {
    if |t| > 3 {
      var u := t[..|t| - 3];
      GroupThousandsCons(c, u);
      assert ([c] + t)[..|[c] + t| - 3] == [c] + u;
      assert ([c] + t)[|[c] + t| - 3..] == t[|t| - 3..];
    } else if |t| == 3 {
      assert ([c] + t)[..1] == [c];
      assert ([c] + t)[1..] == t;
    }
  }

  /** One step of the right-to-left walk over the digits. */
  lemma GroupStep(t: string, i: nat)
    requires i < |t|
    ensures GroupThousands(t[|t| - (i + 1)..]) ==
      (if i > 0 && i % 3 == 0 then [t[|t| - 1 - i], ','] else [t[|t| - 1 - i]]) + GroupThousands(t[|t| - i..])
  {
    var done := t[|t| - i..];
    assert t[|t| - (i + 1)..] == [t[|t| - 1 - i]] + done;
    GroupThousandsCons(t[|t| - 1 - i], done);
  }

  /** Removing the separators from a grouped number gives back its digits. */
  lemma {:induction false} UngroupThousands(t: string)
    requires ',' !in t
    decreases |t|
    ensures RemoveChar(GroupThousands(t), ',') == t
  {
    if |t| > 3 {
      var u, v := t[..|t| - 3], t[|t| - 3..];
      assert t == u + v;
      UngroupThousands(u);
      UngroupGroup(GroupThousands(u), u, v);
    }
  }

  /** One more group after a comma: removing the commas keeps its digits. */
  lemma UngroupGroup(g: string, u: string, v: string)
    requires RemoveChar(g, ',') == u && ',' !in v
    ensures RemoveChar(g + "," + v, ',') == u + v
  {
    var a := g + ",";
    assert RemoveChar(a, ',') == u by {
      RemoveCharAppend(g, ",", ',');
      assert RemoveChar(",", ',') == [];
    }
    RemoveCharAppend(a, v, ',');
  }

  /** The text `format_file_size` gives for `size`. */
  function SizeText(size: nat): string
  {
    GroupThousands(NatToDecimal(size)) + " bytes"
  }

  /** The size text ends in " bytes", and with that suffix and the commas removed it reads back
      as the size. */
  lemma SizeTextReadsBack(size: nat)
    ensures var t := SizeText(size);
      |t| >= 7 && t[|t| - 6..] == " bytes" &&
      RemoveChar(t[..|t| - 6], ',') == NatToDecimal(size) &&
      DecimalValue(RemoveChar(t[..|t| - 6], ',')) == size
  {
    var d := NatToDecimal(size);
    var t := SizeText(size);
    assert forall i :: 0 <= i < |d| ==> d[i] != ',';
    UngroupThousands(d);
    assert t[..|t| - 6] == GroupThousands(d);
    assert |RemoveChar(GroupThousands(d), ',')| <= |GroupThousands(d)|;
    DecimalRoundTrip(size);
  }

  /** `format_file_size`: walks the digits from the right, putting a comma in front of every
      third one. */
  method FormatFileSize(size: nat) returns (text: string)
    ensures text == SizeText(size)
  {
    var digits := NatToDecimal(size);
    var result := "";
    var i := 0;
    while i < |digits|
      invariant 0 <= i <= |digits|
      invariant result == GroupThousands(digits[|digits| - i..])
    {
      var ch := digits[|digits| - 1 - i];
      GroupStep(digits, i);
      if i > 0 && i % 3 == 0 {
        result := [','] + result;
      }
      result := [ch] + result;
      i := i + 1;
    }
    assert digits[|digits| - i..] == digits;
    text := result + " bytes";
  }

  /** `format_file_size_i64`: the size text for a known size, "Unknown size" for a negative one. */
  function SizeTextI64(size: int): (r: string)
    ensures size < 0 ==> r == "Unknown size"
    ensures size >= 0 ==> |r| >= 7 && r[|r| - 6..] == " bytes"
  {
    if size >= 0 then SizeTextReadsBack(size); SizeText(size) else "Unknown size"
  }

  /** The kinds of I/O error the program tells apart. */
  datatype IoErrorKind = PermissionDenied | NotFound | OtherError(description: string)

  function IoErrorText(k: IoErrorKind): string
  {
    match k
    case PermissionDenied => "Access Denied"
    case NotFound => "File Not Found"
    case OtherError(d) => "Error: " + d
  }

  /** The outcome of asking the file system for something. */
  datatype Probe<T> = Found(value: T) | Failed(kind: IoErrorKind)

  /** What `std::fs::metadata` reports; the times are given already formatted. */
  datatype FileStat = FileStat(len: nat, accessed: Probe<string>, created: Probe<string>,
                               modified: Probe<string>, readonly: bool)

  datatype Attributes = Attributes(hidden: bool, temporary: bool, encrypted: bool)

  /** Everything the metadata lookup learns about one path. */
  datatype FsProbe = FsProbe(stat: Probe<FileStat>, attributes: Probe<Attributes>)

  function TimeText(p: Probe<string>): string
  {
    match p
    case Found(t) => t
    case Failed(k) => IoErrorText(k)
  }

  function BoolText(b: bool): string
  {
    if b then "true" else "false"
  }

  const StatKeys: seq<string> := ["Size", "Created", "Modified", "Accessed", "Readonly"]
  const AttributeKeys: seq<string> := ["IsEncrypted", "IsHidden", "IsTemporary"]

  /** `m` with every key of `keys` set to `v`. */
  function FillKeys(m: map<string, string>, keys: seq<string>, v: string): map<string, string>
  {
    m + map k | k in keys :: v
  }

  /** The five basic entries of a file that could be examined. */
  function StatEntries(st: FileStat): map<string, string>
  {
    map["Size" := SizeText(st.len), "Accessed" := TimeText(st.accessed),
        "Created" := TimeText(st.created), "Modified" := TimeText(st.modified),
        "Readonly" := BoolText(st.readonly)]
  }

  /** The map `get_file_metadata` builds. */
  function Metadata(probe: FsProbe): map<string, string>
  {
    match probe.stat
    case Failed(k) => FillKeys(map[], StatKeys, IoErrorText(k))
    case Found(st) =>
      match probe.attributes
      case Found(a) =>
        StatEntries(st)["IsEncrypted" := BoolText(a.encrypted)]["IsHidden" := BoolText(a.hidden)]
            ["IsTemporary" := BoolText(a.temporary)]
      case Failed(k) => FillKeys(StatEntries(st), AttributeKeys, IoErrorText(k))
  }

  /** When the file cannot be examined, the map holds exactly the five basic keys, all carrying
      the same error text; otherwise it holds all eight keys and the size text of the file. */
  lemma MetadataShape(probe: FsProbe)
    ensures probe.stat.Failed? ==>
      Metadata(probe).Keys == {"Size", "Created", "Modified", "Accessed", "Readonly"} &&
      forall k :: k in Metadata(probe) ==> Metadata(probe)[k] == IoErrorText(probe.stat.kind)
    ensures probe.stat.Found? ==>
      Metadata(probe).Keys == {"Size", "Created", "Modified", "Accessed", "Readonly",
                               "IsEncrypted", "IsHidden", "IsTemporary"} &&
      Metadata(probe)["Size"] == SizeText(probe.stat.value.len)
  {
    match probe.stat
    case Failed(k) => FailedMetadataShape(k);
    case Found(st) => FoundMetadataShape(st, probe.attributes);
  }

  /** A successful lookup names all eight keys, whether or not the attributes could be read. */
  lemma FoundMetadataShape(st: FileStat, attributes: Probe<Attributes>)
    ensures Metadata(FsProbe(Found(st), attributes)).Keys ==
      {"Size", "Created", "Modified", "Accessed", "Readonly", "IsEncrypted", "IsHidden", "IsTemporary"}
    ensures Metadata(FsProbe(Found(st), attributes))["Size"] == SizeText(st.len)
  {
    match attributes
    case Found(a) => AttributesReadShape(st, a);
    case Failed(k) => AttributesFailedShape(st, k);
  }

  /** The three attribute flags join the five basic entries. */
  lemma AttributesReadShape(st: FileStat, a: Attributes)
    ensures Metadata(FsProbe(Found(st), Found(a))).Keys ==
      {"Size", "Created", "Modified", "Accessed", "Readonly", "IsEncrypted", "IsHidden", "IsTemporary"}
    ensures Metadata(FsProbe(Found(st), Found(a)))["Size"] == SizeText(st.len)
  {
    StatEntriesShape(st);
  }

  /** When the attributes cannot be read, their three keys carry the error instead. */
  lemma AttributesFailedShape(st: FileStat, k: IoErrorKind)
    ensures Metadata(FsProbe(Found(st), Failed(k))).Keys ==
      {"Size", "Created", "Modified", "Accessed", "Readonly", "IsEncrypted", "IsHidden", "IsTemporary"}
    ensures Metadata(FsProbe(Found(st), Failed(k)))["Size"] == SizeText(st.len)
    ensures forall x :: x in AttributeKeys ==> Metadata(FsProbe(Found(st), Failed(k)))[x] == IoErrorText(k)
  {
    StatEntriesShape(st);
    FillAttributeKeys(StatEntries(st), IoErrorText(k));
  }

  /** The basic entries: five keys, the size text under `Size`. */
  lemma StatEntriesShape(st: FileStat)
    ensures StatEntries(st).Keys == {"Size", "Created", "Modified", "Accessed", "Readonly"}
    ensures StatEntries(st)["Size"] == SizeText(st.len)
  {
  }

  /** Filling the attribute keys is three single updates. */
  lemma FillAttributeKeys(m: map<string, string>, v: string)
    ensures FillKeys(m, AttributeKeys, v) == m["IsEncrypted" := v]["IsHidden" := v]["IsTemporary" := v]
  {
  }

  /** Filling the basic keys of an empty map gives a map of five entries. */
  lemma FillStatKeys(v: string)
    ensures FillKeys(map[], StatKeys, v) ==
      map["Size" := v, "Created" := v, "Modified" := v, "Accessed" := v, "Readonly" := v]
  {
  }

  /** A failed lookup fills the five basic keys with its error. */
  lemma FailedMetadataShape(k: IoErrorKind)
    ensures FillKeys(map[], StatKeys, IoErrorText(k)).Keys == {"Size", "Created", "Modified", "Accessed", "Readonly"}
    ensures forall x :: x in FillKeys(map[], StatKeys, IoErrorText(k)) ==>
      FillKeys(map[], StatKeys, IoErrorText(k))[x] == IoErrorText(k)
  {
    FillStatKeys(IoErrorText(k));
  }

  /** The `for key in [...]` loops that fill several keys with one value. */
  method InsertAll(m: map<string, string>, keys: seq<string>, v: string) returns (r: map<string, string>)
    ensures r == FillKeys(m, keys, v)
  {
    r := m;
    for i := 0 to |keys|
      invariant r == m + map k | k in keys[..i] :: v
    {
      assert keys[..i + 1] == keys[..i] + [keys[i]];
      r := r[keys[i] := v];
    }
    assert keys[..|keys|] == keys;
  }

  /** `get_file_metadata`: never fails; a failed lookup is written into the map instead. */
  method GetFileMetadata(probe: FsProbe) returns (m: map<string, string>)
    ensures m == Metadata(probe)
  {
    m := map[];
    match probe.stat {
      case Failed(k) =>
        m := InsertAll(m, StatKeys, IoErrorText(k));
        return;
      case Found(st) =>
        var size := FormatFileSize(st.len);
        m := m["Size" := size];
        m := m["Accessed" := TimeText(st.accessed)];
        m := m["Created" := TimeText(st.created)];
        m := m["Modified" := TimeText(st.modified)];
        m := m["Readonly" := BoolText(st.readonly)];
        match probe.attributes {
          case Found(a) =>
            m := m["IsEncrypted" := BoolText(a.encrypted)];
            m := m["IsHidden" := BoolText(a.hidden)];
            m := m["IsTemporary" := BoolText(a.temporary)];
          case Failed(k) =>
            m := InsertAll(m, AttributeKeys, IoErrorText(k));
        }
    }
  }

  /** The executable behind a message, when it could be found. */
  datatype ProcessInfo = ProcessInfo(name: string, path: string)

  /** One I/O message from the driver (`IOMessage`), with its process lookup already done. */
  datatype IoMessage = IoMessage(fileChange: Byte, irpOp: Byte, path: string, fileSize: int,
                                 pid: nat, gid: nat, timeMs: int, extension: string,
                                 process: Option<ProcessInfo>)

  datatype EventMetadata = EventMetadata(size: string, created: string, modified: string,
                                         accessed: string, readonly: string, isEncrypted: string,
                                         isHidden: string, isTemporary: string)

  /** The event emitted to the frontend as "file-change-event" (`FileEvent`). */
  datatype FileEvent = FileEvent(path: string, pid: string, eventType: string, timestampMs: int,
                                 metadata: EventMetadata, watcher: string, size: string,
                                 irpOperation: string, extension: string, gid: string,
                                 processName: string, processPath: string)

  /** The driver messages that are discarded before any other processing. */
  predicate Dropped(msg: IoMessage) {
    (msg.fileChange == 1 && msg.irpOp == 4) || (msg.fileChange == 0 && msg.irpOp == 4) ||
    (msg.fileChange == 0 && msg.irpOp == 3)
  }

  /** A rename message carries "old|new": split at the first pipe. */
  function SplitAtPipe(s: string): (r: Option<(string, string)>)
    ensures r.None? <==> '|' !in s
    ensures r.Some? ==> s == r.value.0 + "|" + r.value.1 && '|' !in r.value.0
  {
    if '|' in s then
      var i := FirstIndexOf(s, '|');
      assert s == s[..i] + "|" + s[i + 1..];
      Some((s[..i], s[i + 1..]))
    else None
  }

  /** Splitting "a|b" where `a` has no pipe gives back `a` and `b`. */
  lemma SplitAtPipeOf(a: string, b: string)
    requires '|' !in a
    ensures SplitAtPipe(a + "|" + b) == Some((a, b))
  {
    var s := a + "|" + b;
    assert s[|a|] == '|';
    var i := FirstIndexOf(s, '|');
    assert forall j :: 0 <= j < |a| ==> s[j] == a[j];
    assert i == |a|;
    assert s[..i] == a && s[i + 1..] == b;
  }

  /** Both paths have a parent and the parents are equal: a rename rather than a move. */
  predicate SameDirectory(a: string, b: string) {
    Parent(a).Some? && Parent(b).Some? && Parent(a) == Parent(b)
  }

  /** Two files of one directory are in the same directory whatever the case of their drive
      letters, so a rename from `C:\a\x` to `c:\a\y` is a rename, not a move. */
  lemma SameDirectoryAcrossDriveCase(d: char, e: char, dir: string, x: string, y: string)
    requires IsDriveLetter(d) && IsDriveLetter(e) && UpperChar(d) == UpperChar(e)
    requires IsName(x) && IsName(y)
    ensures SameDirectory([d, ':', '\\'] + dir + ['\\'] + x, [e, ':', '\\'] + dir + ['\\'] + y)
  {
    ParentOfFile(d, dir, x);
    ParentOfFile(e, dir, y);
  }

  /** The index of the first watched directory the path lies under (`directories.iter().find`). */
  function FirstWatcher(dirs: seq<string>, path: string, from: nat := 0): (r: Option<nat>)
    decreases |dirs| - from
    ensures r.Some? ==> from <= r.value < |dirs| && StartsWithPath(path, dirs[r.value])
    ensures r.Some? ==> forall j :: from <= j < r.value ==> !StartsWithPath(path, dirs[j])
    ensures r.None? ==> forall j :: from <= j < |dirs| ==> !StartsWithPath(path, dirs[j])
  {
    if from >= |dirs| then None
    else if StartsWithPath(path, dirs[from]) then Some(from)
    else FirstWatcher(dirs, path, from + 1)
  }

  /** A file in the first watched directory is credited to it whatever the case of either drive
      letter: `C:\data\f.txt` goes to a watcher `c:\data`. */
  lemma FirstWatcherAcrossDriveCase(d: char, e: char, dir: string, file: string, rest: seq<string>)
    requires IsDriveLetter(d) && IsDriveLetter(e) && UpperChar(d) == UpperChar(e)
    ensures FirstWatcher([[e, ':', '\\'] + dir] + rest, [d, ':', '\\'] + dir + ['\\'] + file) == Some(0)
  {
    FileUnderDirectory(d, e, dir, file);
  }

  /** A rename is credited to the watcher of its old path, or failing that of its new path. */
  function RenameWatcher(dirs: seq<string>, first: string, second: string): Option<nat>
  {
    match FirstWatcher(dirs, first)
    case Some(i) => Some(i)
    case None => FirstWatcher(dirs, second)
  }

  function MetaOr(m: map<string, string>, key: string, fallback: string): string
  {
    if key in m then m[key] else fallback
  }

  /** `format_event_from_metadata_with_watcher`: `None` for events of the search indexer. */
  function FormatEvent(kind: string, path: string, meta: map<string, string>, watcher: string,
                       msg: IoMessage): (r: Option<FileEvent>)
  {
    var processName := if msg.process.Some? then msg.process.value.name else "Unknown";
    if processName == "SearchProtocolHost.exe" then None
    else
      var timestamp := if kind == "Moved To" || kind == "Renamed To" then msg.timeMs + 1 else msg.timeMs;
      Some(FileEvent(
        path, NatToDecimal(msg.pid), kind, timestamp,
        EventMetadata(MetaOr(meta, "Size", "N/A"), MetaOr(meta, "Created", "N/A"),
                      MetaOr(meta, "Modified", "N/A"), MetaOr(meta, "Accessed", "N/A"),
                      MetaOr(meta, "Readonly", "false"), MetaOr(meta, "IsEncrypted", "false"),
                      MetaOr(meta, "IsHidden", "false"), MetaOr(meta, "IsTemporary", "false")),
        watcher, SizeTextI64(msg.fileSize), IrpOpName(msg.irpOp), msg.extension,
        NatToDecimal(msg.gid), processName,
        if msg.process.Some? then msg.process.value.path else ""))
  }

  function OptionalEvent(e: Option<FileEvent>): seq<FileEvent>
  {
    if e.Some? then [e.value] else []
  }

  /** The events the processing thread emits for one message, given the watched directories at
      that moment and the file system. */
  function EventsFor(msg: IoMessage, dirs: seq<string>, fs: string -> FsProbe): seq<FileEvent>
  {
    if Dropped(msg) then []
    else if msg.fileChange == 4 then
      match SplitAtPipe(msg.path)
      case None => []
      case Some((first, second)) =>
        var meta := Metadata(fs(second));
        match RenameWatcher(dirs, first, second)
        case None => []
        case Some(w) =>
          var same := SameDirectory(first, second);
          var fromKind := FileChangeName(if same then 6 else 13);
          var toKind := FileChangeName(if same then 5 else 12);
          OptionalEvent(FormatEvent(fromKind, first, meta, dirs[w], msg)) +
          OptionalEvent(FormatEvent(toKind, second, meta, dirs[w], msg))
    else
      match FirstWatcher(dirs, msg.path)
      case None => []
      case Some(w) =>
        OptionalEvent(FormatEvent(FileChangeName(msg.fileChange), msg.path,
                                  Metadata(fs(msg.path)), dirs[w], msg))
  }

  /** Discarded messages, rename messages without a pipe, events of the search indexer and paths
      under no watched directory produce nothing. */
  lemma SilentMessages(msg: IoMessage, dirs: seq<string>, fs: string -> FsProbe)
    ensures Dropped(msg) ==> EventsFor(msg, dirs, fs) == []
    ensures !Dropped(msg) && msg.fileChange == 4 && '|' !in msg.path ==> EventsFor(msg, dirs, fs) == []
    ensures !Dropped(msg) && msg.fileChange != 4 && FirstWatcher(dirs, msg.path).None? ==>
      EventsFor(msg, dirs, fs) == []
    ensures msg.process.Some? && msg.process.value.name == "SearchProtocolHost.exe" ==>
      EventsFor(msg, dirs, fs) == []
  {
  }

  /** An ordinary event is credited to the first watched directory its path lies under, names its
      change kind and keeps the message's time. */
  lemma OrdinaryEvent(msg: IoMessage, dirs: seq<string>, fs: string -> FsProbe)
    requires !Dropped(msg) && msg.fileChange != 4
    requires msg.process.None? || msg.process.value.name != "SearchProtocolHost.exe"
    requires FirstWatcher(dirs, msg.path).Some?
    ensures var evs := EventsFor(msg, dirs, fs); var w := FirstWatcher(dirs, msg.path).value;
      |evs| == 1 && evs[0].watcher == dirs[w] && StartsWithPath(msg.path, evs[0].watcher) &&
      (forall j :: 0 <= j < w ==> !StartsWithPath(msg.path, dirs[j])) &&
      evs[0].path == msg.path && evs[0].eventType == FileChangeName(msg.fileChange) &&
      (msg.fileChange != 5 && msg.fileChange != 12 ==> evs[0].timestampMs == msg.timeMs)
  {
    var w := FirstWatcher(dirs, msg.path).value;
    ArrivalNames(msg.fileChange);
    var e := FormatEvent(FileChangeName(msg.fileChange), msg.path, Metadata(fs(msg.path)), dirs[w], msg);
    assert e.Some?;
    assert EventsFor(msg, dirs, fs) == [e.value];
  }

  /** A rename "old|new" under a watched directory becomes two events with one watcher: a
      "Renamed From"/"Renamed To" pair when both paths share a parent, "Moved From"/"Moved To"
      otherwise; both report the message's file size and the second is one millisecond later. */
  lemma RenameSplitsInTwo(msg: IoMessage, dirs: seq<string>, fs: string -> FsProbe, first: string, second: string)
    requires !Dropped(msg) && msg.fileChange == 4
    requires msg.path == first + "|" + second && '|' !in first
    requires msg.process.None? || msg.process.value.name != "SearchProtocolHost.exe"
    requires RenameWatcher(dirs, first, second).Some?
    ensures var evs := EventsFor(msg, dirs, fs);
      |evs| == 2 &&
      evs[0].path == first && evs[1].path == second &&
      evs[0].eventType == (if SameDirectory(first, second) then "Renamed From" else "Moved From") &&
      evs[1].eventType == (if SameDirectory(first, second) then "Renamed To" else "Moved To") &&
      evs[0].watcher == evs[1].watcher == dirs[RenameWatcher(dirs, first, second).value] &&
      evs[0].size == evs[1].size == SizeTextI64(msg.fileSize) &&
      evs[0].timestampMs == msg.timeMs && evs[1].timestampMs == msg.timeMs + 1
  {
    var w := RenameWatcher(dirs, first, second).value;
    var meta := Metadata(fs(second));
    var same := SameDirectory(first, second);
    var fromKind := FileChangeName(if same then 6 else 13);
    var toKind := FileChangeName(if same then 5 else 12);
    RenameKinds(same);
    RenameEvents(msg, dirs, fs, first, second);
    EventPairFields(fromKind, toKind, first, second, meta, dirs[w], msg);
  }

  /** The change names of a rename's two events: within one directory, and across two. */
  lemma RenameKinds(same: bool)
    ensures FileChangeName(if same then 6 else 13) == (if same then "Renamed From" else "Moved From")
    ensures FileChangeName(if same then 5 else 12) == (if same then "Renamed To" else "Moved To")
  {
  }

  /** A departure event followed by an arrival event, both formatted with one watcher. */
  lemma EventPairFields(fromKind: string, toKind: string, first: string, second: string,
                        meta: map<string, string>, watcher: string, msg: IoMessage)
    requires msg.process.None? || msg.process.value.name != "SearchProtocolHost.exe"
    requires !(fromKind == "Moved To" || fromKind == "Renamed To")
    requires toKind == "Moved To" || toKind == "Renamed To"
    ensures var evs := OptionalEvent(FormatEvent(fromKind, first, meta, watcher, msg)) +
                       OptionalEvent(FormatEvent(toKind, second, meta, watcher, msg));
      |evs| == 2 && evs[0].path == first && evs[1].path == second &&
      evs[0].eventType == fromKind && evs[1].eventType == toKind &&
      evs[0].watcher == evs[1].watcher == watcher &&
      evs[0].size == evs[1].size == SizeTextI64(msg.fileSize) &&
      evs[0].timestampMs == msg.timeMs && evs[1].timestampMs == msg.timeMs + 1
  {
    FormatEventFields(fromKind, first, meta, watcher, msg);
    FormatEventFields(toKind, second, meta, watcher, msg);
  }

  /** The two events of a rename are formatted from the old and the new path with the watcher
      found for the pair. */
  lemma RenameEvents(msg: IoMessage, dirs: seq<string>, fs: string -> FsProbe, first: string, second: string)
    requires !Dropped(msg) && msg.fileChange == 4
    requires msg.path == first + "|" + second && '|' !in first
    requires RenameWatcher(dirs, first, second).Some?
    ensures var w := RenameWatcher(dirs, first, second).value;
      var same := SameDirectory(first, second);
      EventsFor(msg, dirs, fs) ==
        OptionalEvent(FormatEvent(FileChangeName(if same then 6 else 13), first, Metadata(fs(second)), dirs[w], msg)) +
        OptionalEvent(FormatEvent(FileChangeName(if same then 5 else 12), second, Metadata(fs(second)), dirs[w], msg))
  {
    SplitAtPipeOf(first, second);
  }

  /** Outside the search indexer an event is formatted: it carries the path, the kind, the
      watcher and the message's file size, and arrivals are one millisecond later. */
  lemma FormatEventFields(kind: string, path: string, meta: map<string, string>, watcher: string, msg: IoMessage)
    requires msg.process.None? || msg.process.value.name != "SearchProtocolHost.exe"
    ensures var r := FormatEvent(kind, path, meta, watcher, msg);
      r.Some? && OptionalEvent(r) == [r.value] &&
      r.value.path == path && r.value.eventType == kind && r.value.watcher == watcher &&
      r.value.size == SizeTextI64(msg.fileSize) &&
      r.value.timestampMs == if kind == "Moved To" || kind == "Renamed To" then msg.timeMs + 1 else msg.timeMs
  {
  }

  /** A message together with the watched directories at the moment it is handled. */
  datatype Delivery = Delivery(message: IoMessage, directories: seq<string>)

  function EventsForAll(ds: seq<Delivery>, fs: string -> FsProbe): seq<FileEvent>
  {
    if ds == [] then []
    else EventsForAll(ds[..|ds| - 1], fs) + EventsFor(ds[|ds| - 1].message, ds[|ds| - 1].directories, fs)
  }

  /** The processing thread for one message: looks the metadata up and formats the events. */
  method HandleMessage(msg: IoMessage, dirs: seq<string>, fs: string -> FsProbe) returns (events: seq<FileEvent>)
    ensures events == EventsFor(msg, dirs, fs)
  {
    if Dropped(msg) {
      return [];
    }
    if msg.fileChange == 4 {
      var split := SplitAtPipe(msg.path);
      if split.None? {
        return [];
      }
      var (first, second) := split.value;
      var meta := GetFileMetadata(fs(second));
      var w := RenameWatcher(dirs, first, second);
      if w.None? {
        return [];
      }
      var same := SameDirectory(first, second);
      var fromEvent := FormatEvent(FileChangeName(if same then 6 else 13), first, meta, dirs[w.value], msg);
      var toEvent := FormatEvent(FileChangeName(if same then 5 else 12), second, meta, dirs[w.value], msg);
      events := OptionalEvent(fromEvent) + OptionalEvent(toEvent);
      return;
    }
    var w := FirstWatcher(dirs, msg.path);
    events := [];
    if w.Some? {
      var meta := GetFileMetadata(fs(msg.path));
      events := OptionalEvent(FormatEvent(FileChangeName(msg.fileChange), msg.path, meta, dirs[w.value], msg));
    }
  }

  /** The processing thread: handles the received messages in order and emits their events. */
  method ProcessMessages(ds: seq<Delivery>, fs: string -> FsProbe) returns (emitted: seq<FileEvent>)
    ensures emitted == EventsForAll(ds, fs)
  {
    emitted := [];
    for i := 0 to |ds|
      invariant emitted == EventsForAll(ds[..i], fs)
    {
      var evs := HandleMessage(ds[i].message, ds[i].directories, fs);
      assert ds[..i + 1][..i] == ds[..i];
      emitted := emitted + evs;
    }
    assert ds[..|ds|] == ds;
  }

  /** The shared monitoring state: `None` until monitoring starts, then the watched directories. */
  class FileMonitor {
    var directories: Option<seq<string>>

    constructor ()
      ensures directories.None?
    {
      directories := None;
    }

    /** `start_monitoring`: fails when the driver cannot be opened or told the app's process id;
        otherwise (re)starts with the given directories. */
    method StartMonitoring(dirs: seq<string>, driverOpens: bool, pidSet: bool) returns (r: Result<()>)
      modifies this
      ensures !driverOpens ==> r == Err("Failed to open driver communication. Is the minifilter started?")
      ensures driverOpens && !pidSet ==> r == Err("Failed to set driver app pid")
      ensures r.Err? ==> directories == old(directories)
      ensures r.Ok? <==> driverOpens && pidSet
      ensures r.Ok? ==> directories == Some(dirs)
    {
      if !driverOpens {
        return Err("Failed to open driver communication. Is the minifilter started?");
      }
      if !pidSet {
        return Err("Failed to set driver app pid");
      }
      directories := Some(dirs);
      r := Ok(());
    }

    /** `remove_directory`: drops every copy of the directory, keeping the others in order. */
    method RemoveDirectory(d: string) returns (r: Result<()>)
      modifies this
      ensures old(directories).None? ==> r == Err("Monitoring has not been started") && directories == old(directories)
      ensures old(directories).Some? ==> r.Ok? && directories == Some(Without(old(directories).value, d))
    {
      if directories.None? {
        return Err("Monitoring has not been started");
      }
      directories := Some(Without(directories.value, d));
      r := Ok(());
    }

    /** `update_monitoring_directories`: replaces the whole list. */
    method UpdateMonitoringDirectories(dirs: seq<string>) returns (r: Result<()>)
      modifies this
      ensures old(directories).None? ==> r == Err("Monitoring has not been started") && directories == old(directories)
      ensures old(directories).Some? ==> r.Ok? && directories == Some(dirs)
    {
      if directories.None? {
        return Err("Monitoring has not been started");
      }
      directories := Some(dirs);
      r := Ok(());
    }

    /** `add_directory`: appends the directory unless it is already listed; succeeds either way. */
    method AddDirectory(d: string) returns (r: Result<()>)
      modifies this
      ensures old(directories).None? ==> r == Err("Monitoring has not been started") && directories == old(directories)
      ensures old(directories).Some? ==> r.Ok? && directories == Some(With(old(directories).value, d))
    {
      if directories.None? {
        return Err("Monitoring has not been started");
      }
      if d !in directories.value {
        directories := Some(directories.value + [d]);
      }
      r := Ok(());
    }

    /** `get_watched_directories`. */
    method GetWatchedDirectories() returns (r: Result<seq<string>>)
      ensures directories.None? ==> r == Err("Monitoring has not been started")
      ensures directories.Some? ==> r == Ok(directories.value)
    {
      if directories.None? {
        return Err("Monitoring has not been started");
      }
      r := Ok(directories.value);
    }
  }

  /** The list after `retain(|dir| dir != d)`. */
  function Without(dirs: seq<string>, d: string): (r: seq<string>)
    ensures d !in r
    ensures forall x :: x in dirs && x != d <==> x in r
    ensures |r| <= |dirs|
  {
    if dirs == [] then [] else (if dirs[0] == d then [] else [dirs[0]]) + Without(dirs[1..], d)
  }

  /** The list after adding `d` when it is missing. */
  function With(dirs: seq<string>, d: string): seq<string>
  {
    if d in dirs then dirs else dirs + [d]
  }

  /** Adding a directory twice is the same as adding it once, and it is then listed. */
  lemma AddIdempotent(dirs: seq<string>, d: string)
    ensures d in With(dirs, d) && With(With(dirs, d), d) == With(dirs, d)
  {
  }

  /** Adding and then removing a directory that was not listed restores the list. */
  lemma {:induction false} AddThenRemove(dirs: seq<string>, d: string)
    requires d !in dirs
    ensures Without(With(dirs, d), d) == dirs
  {
    WithoutAbsent(dirs, d);
    WithoutAppend(dirs, [d], d);
  }

  lemma {:induction false} WithoutAbsent(dirs: seq<string>, d: string)
    requires d !in dirs
    ensures Without(dirs, d) == dirs
  {
    if dirs != [] {
      WithoutAbsent(dirs[1..], d);
    }
  }

  lemma {:induction false} WithoutAppend(a: seq<string>, b: seq<string>, d: string)
    ensures Without(a + b, d) == Without(a, d) + Without(b, d)
  {
    if a == [] {
      assert a + b == b;
    } else {
      var head := if a[0] == d then [] else [a[0]];
      assert (a + b)[0] == a[0] && (a + b)[1..] == a[1..] + b;
      calc {
        Without(a + b, d);
        head + Without(a[1..] + b, d);
        { WithoutAppend(a[1..], b, d); }
        head + (Without(a[1..], d) + Without(b, d));
      }
    }
  }
}
