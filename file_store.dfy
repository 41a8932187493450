/** The file side of the front-end store (`src/hooks/monitor.ts`): every accepted file event is
    counted under its watcher and path and appended to that path's entry list; the list of watched
    directories is kept in step with the backend. */
module FileStore {
  import opened Common
  import opened OrderedMaps
  import Seqs

  /** A process id as the events carry it: a number or a text. */
  datatype Pid = NumPid(n: int) | TextPid(s: string)

  /** JavaScript truthiness of a pid: `0` and `""` are falsy. */
  predicate PidTruthy(p: Pid) {
    match p
    case NumPid(n) => n != 0
    case TextPid(s) => s != ""
  }

  /** The `metadata` object of a backend file event. */
  datatype EventMetadata = EventMetadata(size: string, created: string, modified: string, accessed: string,
                                         readonly: string, isEncrypted: string, isHidden: string,
                                         isTemporary: string)

  /** A parsed "file-change-event" payload (`FileEvent`); the floating-point entropy is left out. */
  datatype FileEvent = FileEvent(watcher: string, path: string, pid: Pid, eventType: string, timestamp: string,
                                 metadata: EventMetadata, size: string, irpOperation: string, extension: string,
                                 gid: string, processName: string, processPath: string)

  /** The record the listener stores for an event (`commonData`): `kind` is `Type`, `time` is `Time`. */
  datatype Entry = Entry(path: string, pid: Pid, kind: string, displayType: string, timestamp: string,
                         metadata: seq<(string, string)>, watcher: string, size: string, time: string,
                         irpOperation: string, extension: string, gid: string, processName: string,
                         processPath: string)

  /** `FileDetail`: the latest event's fields and every entry for the path, in arrival order. */
  datatype FileDetail = FileDetail(info: Entry, entries: seq<Entry>)

  /** `FileMonitorState`. */
  datatype MonitorState = MonitorState(directories: seq<string>, fileChanges: Dict<Dict<nat>>,
                                       fileDetails: Dict<Dict<FileDetail>>)

  function EmptyState(): MonitorState {
    MonitorState([], Empty(), Empty())
  }

  /** `convertedMetadata`, keys in the order the listener writes them. */
  function MetadataRecord(m: EventMetadata): seq<(string, string)> {
    [("Size", m.size), ("Created", m.created), ("Modified", m.modified), ("Accessed", m.accessed),
     ("Readonly", m.readonly), ("IsEncrypted", m.isEncrypted), ("IsHidden", m.isHidden),
     ("IsTemporary", m.isTemporary)]
  }

  function CommonData(ev: FileEvent): Entry {
    Entry(ev.path, ev.pid, ev.eventType, ev.eventType, ev.timestamp, MetadataRecord(ev.metadata), ev.watcher,
          ev.size, ev.timestamp, ev.irpOperation, ev.extension, ev.gid, ev.processName, ev.processPath)
  }

  /** The listener only handles events with a non-empty watcher other than "Unknown". */
  predicate Accepted(ev: FileEvent) {
    ev.watcher != "" && ev.watcher != "Unknown"
  }

  /** `fileChanges[w][p]`, 0 when absent. */
  function Count(s: MonitorState, w: string, p: string): nat {
    if w in s.fileChanges.vals && p in s.fileChanges.vals[w].vals then s.fileChanges.vals[w].vals[p] else 0
  }

  /** `fileDetails[w][p]`, if any. */
  function Detail(s: MonitorState, w: string, p: string): Option<FileDetail> {
    if w in s.fileDetails.vals && p in s.fileDetails.vals[w].vals then Some(s.fileDetails.vals[w].vals[p]) else None
  }

  /** The entries stored for `(w, p)`, none when the path has no detail. */
  function Entries(s: MonitorState, w: string, p: string): seq<Entry> {
    match Detail(s, w, p)
    case None => []
    case Some(d) => d.entries
  }

  /** The two nested records have the same watchers and paths, in the same order, and every
      path's count is the length of its entry list. */
  ghost predicate Consistent(s: MonitorState) {
    Valid(s.fileChanges) && Valid(s.fileDetails) && s.fileChanges.keys == s.fileDetails.keys &&
    forall w :: w in s.fileChanges.vals ==> PathsConsistent(s.fileChanges.vals[w], s.fileDetails.vals[w])
  }

  /** One watcher's two records list the same paths, in the same order, and every path's count
      is the length of its entry list. */
  ghost predicate PathsConsistent(files: Dict<nat>, details: Dict<FileDetail>) {
    Valid(files) && Valid(details) && files.keys == details.keys &&
    forall p :: p in files.vals ==> files.vals[p] == |details.vals[p].entries|
  }

  /** The listener's update for one event. */
  function Ingest(s: MonitorState, ev: FileEvent): MonitorState {
    if !Accepted(ev) then s
    else
      var w := ev.watcher;
      MonitorState(s.directories,
                   Put(s.fileChanges, w, CountEvent(GetOr(s.fileChanges, w, Empty()), ev.path)),
                   Put(s.fileDetails, w, RecordEvent(GetOr(s.fileDetails, w, Empty()), ev.path, CommonData(ev))))
  }

  /** `fileChanges[w][p] = (fileChanges[w][p] || 0) + 1` on one watcher's counts. */
  function CountEvent(files: Dict<nat>, p: string): Dict<nat> {
    Put(files, p, GetOr(files, p, 0) + 1)
  }

  /** One watcher's details after an event for `p`: its fields become the latest, and its entry
      is appended to those already there. */
  function RecordEvent(details: Dict<FileDetail>, p: string, c: Entry): Dict<FileDetail> {
    var detail := match Get(details, p)
      case None => FileDetail(c, [c])
      case Some(d) => FileDetail(c, d.entries + [c]);
    Put(details, p, detail)
  }

  /** An event without a usable watcher changes nothing. */
  lemma IngestIgnores(s: MonitorState, ev: FileEvent)
    requires !Accepted(ev)
    ensures Ingest(s, ev) == s
  {
  }

  /** An accepted event raises its path's count by one, appends exactly one entry, makes the
      path's top-level fields the event's, and changes no other path's count or entries. */
  lemma IngestEffect(s: MonitorState, ev: FileEvent)
    requires Accepted(ev)
    ensures Count(Ingest(s, ev), ev.watcher, ev.path) == Count(s, ev.watcher, ev.path) + 1
    ensures Entries(Ingest(s, ev), ev.watcher, ev.path) == Entries(s, ev.watcher, ev.path) + [CommonData(ev)]
    ensures Detail(Ingest(s, ev), ev.watcher, ev.path).Some?
    ensures Detail(Ingest(s, ev), ev.watcher, ev.path).value.info == CommonData(ev)
    ensures forall w, p :: (w, p) != (ev.watcher, ev.path) ==>
      Count(Ingest(s, ev), w, p) == Count(s, w, p) && Detail(Ingest(s, ev), w, p) == Detail(s, w, p)
    ensures Ingest(s, ev).directories == s.directories
  {
    IngestTouchesPath(s, ev);
    IngestLeavesOthers(s, ev);
  }

  /** The event's own path: one more count, one more entry, the event's fields on top. */
  lemma IngestTouchesPath(s: MonitorState, ev: FileEvent)
    requires Accepted(ev)
    ensures Count(Ingest(s, ev), ev.watcher, ev.path) == Count(s, ev.watcher, ev.path) + 1
    ensures Detail(Ingest(s, ev), ev.watcher, ev.path) ==
      Some(FileDetail(CommonData(ev), Entries(s, ev.watcher, ev.path) + [CommonData(ev)]))
  {
    var w, p := ev.watcher, ev.path;
    var details := GetOr(s.fileDetails, w, Empty());
    CountEventAt(GetOr(s.fileChanges, w, Empty()), p);
    RecordEventAt(details, p, CommonData(ev));
    assert Entries(s, w, p) == (if p in details.vals then details.vals[p].entries else []);
  }

  lemma CountEventAt(files: Dict<nat>, p: string)
    ensures p in CountEvent(files, p).vals && CountEvent(files, p).vals[p] == GetOr(files, p, 0) + 1
  {
  }

  lemma RecordEventAt(details: Dict<FileDetail>, p: string, c: Entry)
    ensures p in RecordEvent(details, p, c).vals
    ensures RecordEvent(details, p, c).vals[p] ==
      FileDetail(c, (if p in details.vals then details.vals[p].entries else []) + [c])
  {
  }

  /** Every other path keeps its count and detail. */
  lemma IngestLeavesOthers(s: MonitorState, ev: FileEvent)
    requires Accepted(ev)
    ensures forall w, p :: (w, p) != (ev.watcher, ev.path) ==>
      Count(Ingest(s, ev), w, p) == Count(s, w, p) && Detail(Ingest(s, ev), w, p) == Detail(s, w, p)
  {
  }

  /** Every ingested event keeps the counts equal to the entry list lengths. */
  lemma IngestConsistent(s: MonitorState, ev: FileEvent)
    requires Consistent(s)
    ensures Consistent(Ingest(s, ev))
  {
    if Accepted(ev) {
      var w := ev.watcher;
      var files := GetOr(s.fileChanges, w, Empty());
      var details := GetOr(s.fileDetails, w, Empty());
      assert PathsConsistent(files, details);
      IngestPathConsistent(files, details, ev.path, CommonData(ev));
      PutWatcherConsistent(s, s.directories, w, CountEvent(files, ev.path), RecordEvent(details, ev.path, CommonData(ev)));
    }
  }

  /** Replacing one watcher's records by a consistent pair keeps the whole store consistent. */
  lemma PutWatcherConsistent(s: MonitorState, dirs: seq<string>, w: string, files: Dict<nat>, details: Dict<FileDetail>)
    requires Consistent(s) && PathsConsistent(files, details)
    ensures Consistent(MonitorState(dirs, Put(s.fileChanges, w, files), Put(s.fileDetails, w, details)))
  {
    assert w in s.fileChanges.vals <==> w in s.fileDetails.vals;
  }

  /** Counting one more event for path `p` and appending its entry keeps a watcher consistent. */
  lemma IngestPathConsistent(files: Dict<nat>, details: Dict<FileDetail>, p: string, c: Entry)
    requires PathsConsistent(files, details)
    ensures PathsConsistent(CountEvent(files, p), RecordEvent(details, p, c))
  {
  }

  /** Entries are only ever appended: every path's old entries are a prefix of its new ones. */
  lemma IngestKeepsHistory(s: MonitorState, ev: FileEvent, w: string, p: string)
    ensures Entries(s, w, p) <= Entries(Ingest(s, ev), w, p)
  {
    if Accepted(ev) {
      IngestEffect(s, ev);
    }
  }

  /** The state change of `addDirectoryByPath` when the directory is new: it is appended, and its
      existing counts and details, if any, are kept. */
  function AddDirectory(s: MonitorState, d: string): MonitorState {
    if d in s.directories then s
    else MonitorState(s.directories + [d],
                      Put(s.fileChanges, d, GetOr(s.fileChanges, d, Empty())),
                      Put(s.fileDetails, d, GetOr(s.fileDetails, d, Empty())))
  }

  predicate Distinct(s: seq<string>) {
    forall i, j :: 0 <= i < j < |s| ==> s[i] != s[j]
  }

  /** Adding appends only an absent directory, so the list stays free of duplicates and keeps its
      order; no count or entry list changes, and consistency is kept. */
  lemma AddDirectoryEffect(s: MonitorState, d: string)
    ensures AddDirectory(s, d).directories == if d in s.directories then s.directories else s.directories + [d]
    ensures Distinct(s.directories) ==> Distinct(AddDirectory(s, d).directories)
    ensures forall w, p :: Count(AddDirectory(s, d), w, p) == Count(s, w, p) &&
                           Detail(AddDirectory(s, d), w, p) == Detail(s, w, p)
    ensures Consistent(s) ==> Consistent(AddDirectory(s, d))
  {
    if d !in s.directories {
      AddDirectoryKeepsData(s, d);
      if Consistent(s) {
        AddDirectoryConsistent(s, d);
      }
    }
  }

  /** A new directory's count and detail records are the ones already there, or empty. */
  lemma AddDirectoryKeepsData(s: MonitorState, d: string)
    requires d !in s.directories
    ensures forall w, p :: Count(AddDirectory(s, d), w, p) == Count(s, w, p)
    ensures forall w, p :: Detail(AddDirectory(s, d), w, p) == Detail(s, w, p)
  {
  }

  /** Adding a directory keeps the records consistent. */
  lemma AddDirectoryConsistent(s: MonitorState, d: string)
    requires d !in s.directories && Consistent(s)
    ensures Consistent(AddDirectory(s, d))
  {
    var files := GetOr(s.fileChanges, d, Empty());
    var details := GetOr(s.fileDetails, d, Empty());
    assert PathsConsistent(files, details);
    PutWatcherConsistent(s, s.directories + [d], d, files, details);
  }

  /** The state change of a successful `removeDirectory`: the directory leaves the list, every
      count and entry stays. */
  function RemoveDirectory(s: MonitorState, d: string): (r: MonitorState)
    ensures d !in r.directories
    ensures forall x :: x in r.directories <==> x in s.directories && x != d
    ensures r.fileChanges == s.fileChanges && r.fileDetails == s.fileDetails
  {
    var kept := Seqs.Filter(s.directories, x => x != d);
    MonitorState(kept, s.fileChanges, s.fileDetails)
  }

  /** The backend commands the store issues. */
  datatype Call =
    | StartMonitoringCall(directories: seq<string>)
    | UpdateMonitoringDirectories(directories: seq<string>)
    | RemoveDirectoryCall(directory: string)
    | GetWatchedDirectories

  /** `FileMonitor`: the state, the monitoring flag, the last state handed to `updateState` and the
      backend commands issued so far. */
  class FileMonitor {
    var state: MonitorState
    var isMonitoring: bool
    var published: Option<MonitorState>
    var calls: seq<Call>

    constructor()
      ensures state == EmptyState() && !isMonitoring && published.None? && calls == []
      ensures Consistent(state)
    {
      state := EmptyState();
      isMonitoring := false;
      published := None;
      calls := [];
    }

    /** The "file-change-event" listener. */
    method OnFileEvent(ev: FileEvent)
      requires Consistent(state)
      modifies this
      ensures state == Ingest(old(state), ev) && Consistent(state)
      ensures published == if Accepted(ev) then Some(state) else old(published)
      ensures isMonitoring == old(isMonitoring) && calls == old(calls)
    {
      IngestConsistent(state, ev);
      if Accepted(ev) {
        state := Ingest(state, ev);
        published := Some(state);
      }
    }

    /** `addDirectoryByPath`: an absent directory is appended and published; while monitoring, the
        new list is then sent to the backend, whose failure is rethrown after the state change. */
    method AddDirectoryByPath(d: string, updateReply: Reply) returns (r: Result<()>)
      requires Consistent(state)
      modifies this
      ensures state == AddDirectory(old(state), d) && Consistent(state)
      ensures d in old(state.directories) ==> r.Ok? && published == old(published) && calls == old(calls)
      ensures d !in old(state.directories) ==>
        published == Some(state) &&
        calls == old(calls) + (if isMonitoring then [UpdateMonitoringDirectories(state.directories)] else []) &&
        (r.Err? <==> isMonitoring && updateReply.Threw?)
      ensures isMonitoring == old(isMonitoring)
    {
      AddDirectoryEffect(state, d);
      if d in state.directories {
        return Ok(());
      }
      state := AddDirectory(state, d);
      published := Some(state);
      r := Ok(());
      if isMonitoring {
        calls := calls + [UpdateMonitoringDirectories(state.directories)];
        if updateReply.Threw? {
          r := Err(updateReply.message);
        }
      }
    }

    /** `startMonitoring`: asks the backend to start with no directories, and sets the flag only
        when that succeeds; a no-op while monitoring. */
    method StartMonitoring(reply: Reply) returns (r: Result<()>)
      modifies this
      ensures old(isMonitoring) ==> r.Ok? && isMonitoring && calls == old(calls)
      ensures !old(isMonitoring) ==> calls == old(calls) + [StartMonitoringCall([])]
      ensures !old(isMonitoring) && reply.Done? ==> r.Ok? && isMonitoring
      ensures !old(isMonitoring) && reply.Threw? ==> r == Err(reply.message) && !isMonitoring
      ensures state == old(state) && published == old(published)
    {
      if !isMonitoring {
        calls := calls + [StartMonitoringCall([])];
        if reply.Threw? {
          return Err(reply.message);
        }
        isMonitoring := true;
      }
      r := Ok(());
    }

    /** `getWatchedDirectories`: the backend's answer, passed through. */
    method GetWatched(reply: Result<seq<string>>) returns (r: Result<seq<string>>)
      modifies this
      ensures r == reply && calls == old(calls) + [GetWatchedDirectories]
      ensures state == old(state) && isMonitoring == old(isMonitoring) && published == old(published)
    {
      calls := calls + [GetWatchedDirectories];
      r := reply;
    }

    /** `removeDirectory`: for a listed directory, asks the backend first; only when that succeeds
        is the directory dropped from the list (its history stays); while monitoring, the new list
        is then sent, and its failure is rethrown after the state change. */
    method RemoveDirectoryByPath(d: string, removeReply: Reply, updateReply: Reply) returns (r: Result<()>)
      modifies this
      ensures d !in old(state.directories) ==>
        r.Ok? && state == old(state) && calls == old(calls) && published == old(published)
      ensures d in old(state.directories) && removeReply.Threw? ==>
        r == Err(removeReply.message) && state == old(state) && calls == old(calls) + [RemoveDirectoryCall(d)] &&
        published == old(published)
      ensures d in old(state.directories) && removeReply.Done? ==>
        state == RemoveDirectory(old(state), d) && published == Some(state) &&
        calls == old(calls) + [RemoveDirectoryCall(d)] +
                 (if isMonitoring then [UpdateMonitoringDirectories(state.directories)] else []) &&
        (r.Err? <==> isMonitoring && updateReply.Threw?)
      ensures isMonitoring == old(isMonitoring)
    {
      if d !in state.directories {
        return Ok(());
      }
      calls := calls + [RemoveDirectoryCall(d)];
      if removeReply.Threw? {
        return Err(removeReply.message);
      }
      state := RemoveDirectory(state, d);
      published := Some(state);
      r := Ok(());
      if isMonitoring {
        calls := calls + [UpdateMonitoringDirectories(state.directories)];
        if updateReply.Threw? {
          r := Err(updateReply.message);
        }
      }
    }
  }
}
