/** The first event pipeline (`src-tauri/src/main.rs`): forwards driver messages under a watched
    directory as one text line "kind: path" followed by the file's metadata. */
module LegacyMonitor {
  import opened Common
  import opened Text
  import opened Numbers
  import opened WinPath
  import FileMonitorBackend

  /** `file_change_to_string` of the first pipeline: codes 0 to 8, "Unknown" for the rest. */
  function LegacyChangeName(code: Byte): (name: string)
    ensures code > 8 <==> name == "Unknown"
    ensures name == "NotSet" <==> code == 0
  {
    match code
    case 0 => "NotSet"
    case 1 => "OpenDirectory"
    case 2 => "Write"
    case 3 => "NewFile"
    case 4 => "RenameFile"
    case 5 => "ExtensionChanged"
    case 6 => "DeleteFile"
    case 7 => "DeleteNewFile"
    case 8 => "OverwriteFile"
    case _ => "Unknown"
  }

  /** The map `get_file_metadata_with_pid` returns: the metadata plus the decimal pid. */
  function MetadataWithPid(probe: FileMonitorBackend.FsProbe, pid: nat): (m: map<string, string>)
    ensures "PID" in m && m["PID"] == NatToDecimal(pid)
    ensures forall k :: k in FileMonitorBackend.Metadata(probe) && k != "PID" ==>
      k in m && m[k] == FileMonitorBackend.Metadata(probe)[k]
    ensures m.Keys == FileMonitorBackend.Metadata(probe).Keys + {"PID"}
  {
    FileMonitorBackend.Metadata(probe)["PID" := NatToDecimal(pid)]
  }

  /** `get_file_metadata_with_pid`. */
  method GetFileMetadataWithPid(probe: FileMonitorBackend.FsProbe, pid: nat) returns (m: map<string, string>)
    ensures m == MetadataWithPid(probe, pid)
  {
    m := FileMonitorBackend.GetFileMetadata(probe);
    m := m["PID" := NatToDecimal(pid)];
  }

  /** Some watched directory is a component-wise prefix of the path. */
  predicate Watched(dirs: seq<string>, path: string) {
    exists i :: 0 <= i < |dirs| && StartsWithPath(path, dirs[i])
  }

  /** Some of the first `i` watched directories is a prefix of the path. */
  ghost predicate WatchedAmong(dirs: seq<string>, path: string, i: nat)
    requires i <= |dirs|
  {
    exists j :: 0 <= j < i && StartsWithPath(path, dirs[j])
  }

  lemma WatchedAmongStep(dirs: seq<string>, path: string, i: nat)
    requires i < |dirs|
    ensures WatchedAmong(dirs, path, i + 1) <==> WatchedAmong(dirs, path, i) || StartsWithPath(path, dirs[i])
  {
  }

  /** The search may stop at the first match: what it found then decides `Watched`. */
  lemma WatchedAmongAll(dirs: seq<string>, path: string, i: nat)
    requires i <= |dirs|
    requires i < |dirs| ==> WatchedAmong(dirs, path, i)
    ensures WatchedAmong(dirs, path, i) <==> Watched(dirs, path)
  {
  }

  /** A file in a watched directory is forwarded whatever the case of either drive letter. */
  lemma WatchedAcrossDriveCase(d: char, e: char, dir: string, file: string, dirs: seq<string>, i: nat)
    requires IsDriveLetter(d) && IsDriveLetter(e) && UpperChar(d) == UpperChar(e)
    requires i < |dirs| && dirs[i] == [e, ':', '\\'] + dir
    ensures Watched(dirs, [d, ':', '\\'] + dir + ['\\'] + file)
  {
    FileUnderDirectory(d, e, dir, file);
  }

  /** `order` lists every key of `m` once: a `HashMap`'s iteration order. */
  predicate ListsKeys(order: seq<string>, m: map<string, string>) {
    (forall i :: 0 <= i < |order| ==> order[i] in m) &&
    (forall k :: k in m ==> k in order) &&
    (forall i, j :: 0 <= i < j < |order| ==> order[i] != order[j])
  }

  /** The "key: value" pairs in iteration order. */
  function Pairs(order: seq<string>, m: map<string, string>): (r: seq<string>)
    requires forall i :: 0 <= i < |order| ==> order[i] in m
    ensures |r| == |order|
    ensures forall i :: 0 <= i < |order| ==> r[i] == order[i] + ": " + m[order[i]]
  {
    if order == [] then [] else [order[0] + ": " + m[order[0]]] + Pairs(order[1..], m)
  }

  /** The event text: "kind: path", a newline, then the pairs joined by ", ". */
  function EventText(kind: string, path: string, order: seq<string>, m: map<string, string>): string
    requires forall i :: 0 <= i < |order| ==> order[i] in m
  {
    kind + ": " + path + "\n" + Join(Pairs(order, m), ", ")
  }

  /** What the processing thread emits for one message: nothing outside the watched directories or
      for an excluded "NotSet" change, otherwise the event text. */
  function Forward(msg: FileMonitorBackend.IoMessage, dirs: seq<string>, excludeNotSet: bool,
                   probe: FileMonitorBackend.FsProbe, order: seq<string>): (r: Option<string>)
    requires ListsKeys(order, MetadataWithPid(probe, msg.pid))
    ensures r.Some? <==> Watched(dirs, msg.path) && !(excludeNotSet && msg.fileChange == 0)
  {
    if !Watched(dirs, msg.path) then None
    else
      var kind := LegacyChangeName(msg.fileChange);
      if excludeNotSet && kind == "NotSet" then None
      else Some(EventText(kind, msg.path, order, MetadataWithPid(probe, msg.pid)))
  }

  /** The processing thread's step for one message, with the metadata lookup. */
  method ForwardMessage(msg: FileMonitorBackend.IoMessage, dirs: seq<string>, excludeNotSet: bool,
                        probe: FileMonitorBackend.FsProbe, order: seq<string>) returns (r: Option<string>)
    requires ListsKeys(order, MetadataWithPid(probe, msg.pid))
    ensures r == Forward(msg, dirs, excludeNotSet, probe, order)
  {
    var watched := false;
    var i := 0;
    while i < |dirs| && !watched
      invariant 0 <= i <= |dirs|
      invariant watched <==> WatchedAmong(dirs, msg.path, i)
    {
      WatchedAmongStep(dirs, msg.path, i);
      watched := StartsWithPath(msg.path, dirs[i]);
      i := i + 1;
    }
    WatchedAmongAll(dirs, msg.path, i);
    if !watched {
      return None;
    }
    var kind := LegacyChangeName(msg.fileChange);
    if excludeNotSet && kind == "NotSet" {
      return None;
    }
    var m := GetFileMetadataWithPid(probe, msg.pid);
    r := Some(EventText(kind, msg.path, order, m));
  }

  /** The directories and the exclusion flag the processing thread captures. */
  datatype Session = Session(directories: seq<string>, excludeNotSet: bool)

  /** `start_monitoring` of the first pipeline: fails with the driver's message when the driver
      port cannot be opened or the application pid cannot be registered. */
  function StartLegacyMonitoring(dirs: seq<string>, excludeNotSet: bool, driverOpens: bool, pidSet: bool): (r: Result<Session>)
    ensures r.Ok? <==> driverOpens && pidSet
    ensures r.Ok? ==> r.value.directories == dirs && r.value.excludeNotSet == excludeNotSet
    ensures !driverOpens ==> r.error == "Failed to open driver communication. Is the minifilter started?"
    ensures driverOpens && !pidSet ==> r.error == "Failed to set driver app pid"
  {
    if !driverOpens then Err("Failed to open driver communication. Is the minifilter started?")
    else if !pidSet then Err("Failed to set driver app pid")
    else Ok(Session(dirs, excludeNotSet))
  }

  /** The lines the processing thread emits for a stream of messages, message `i` looked up as
      `probes[i]` and its metadata iterated in `orders[i]`. */
  function ForwardedAll(msgs: seq<FileMonitorBackend.IoMessage>, session: Session,
                        probes: seq<FileMonitorBackend.FsProbe>, orders: seq<seq<string>>): (r: seq<string>)
    requires |probes| == |msgs| && |orders| == |msgs|
    requires forall i :: 0 <= i < |msgs| ==> ListsKeys(orders[i], MetadataWithPid(probes[i], msgs[i].pid))
    ensures |r| <= |msgs|
  {
    if msgs == [] then []
    else
      var n := |msgs| - 1;
      var emitted := Forward(msgs[n], session.directories, session.excludeNotSet, probes[n], orders[n]);
      ForwardedAll(msgs[..n], session, probes[..n], orders[..n]) + (if emitted.Some? then [emitted.value] else [])
  }

  /** The processing thread's loop over the received messages. */
  method ForwardAll(msgs: seq<FileMonitorBackend.IoMessage>, session: Session,
                    probes: seq<FileMonitorBackend.FsProbe>, orders: seq<seq<string>>) returns (emitted: seq<string>)
    requires |probes| == |msgs| && |orders| == |msgs|
    requires forall i :: 0 <= i < |msgs| ==> ListsKeys(orders[i], MetadataWithPid(probes[i], msgs[i].pid))
    ensures emitted == ForwardedAll(msgs, session, probes, orders)
  {
    emitted := [];
    for i := 0 to |msgs|
      invariant emitted == ForwardedAll(msgs[..i], session, probes[..i], orders[..i])
    {
      var r := ForwardMessage(msgs[i], session.directories, session.excludeNotSet, probes[i], orders[i]);
      assert msgs[..i + 1][..i] == msgs[..i];
      assert probes[..i + 1][..i] == probes[..i];
      assert orders[..i + 1][..i] == orders[..i];
      if r.Some? {
        emitted := emitted + [r.value];
      }
    }
    assert msgs[..|msgs|] == msgs;
    assert probes[..|probes|] == probes;
    assert orders[..|orders|] == orders;
  }

  /** With no watched directory nothing is ever emitted. */
  lemma {:induction false} NothingWatchedNothingEmitted(msgs: seq<FileMonitorBackend.IoMessage>, session: Session,
                                                        probes: seq<FileMonitorBackend.FsProbe>, orders: seq<seq<string>>)
    requires |probes| == |msgs| && |orders| == |msgs|
    requires forall i :: 0 <= i < |msgs| ==> ListsKeys(orders[i], MetadataWithPid(probes[i], msgs[i].pid))
    requires session.directories == []
    ensures ForwardedAll(msgs, session, probes, orders) == []
  {
    if msgs != [] {
      var n := |msgs| - 1;
      NothingWatchedNothingEmitted(msgs[..n], session, probes[..n], orders[..n]);
    }
  }

  /** A joined list contains each of its parts. */
  lemma {:induction false} JoinIncludes(parts: seq<string>, sep: string, i: nat)
    requires i < |parts| && parts[i] != []
    ensures Includes(Join(parts, sep), parts[i])
  {
    if |parts| == 1 {
      assert OccursAt(parts[0], parts[0], 0);
      IncludesIff(parts[0], parts[0]);
    } else if i == 0 {
      IncludesIff(parts[0], parts[0]);
      assert OccursAt(parts[0], parts[0], 0);
      IncludesIn([], parts[0], sep + Join(parts[1..], sep), parts[0]);
      assert [] + parts[0] + (sep + Join(parts[1..], sep)) == Join(parts, sep);
    } else {
      JoinIncludes(parts[1..], sep, i - 1);
      IncludesIn(parts[0] + sep, Join(parts[1..], sep), [], parts[i]);
      assert parts[0] + sep + Join(parts[1..], sep) + [] == Join(parts, sep);
    }
  }

  /** The first line of a forwarded event is "kind: path", and every metadata key appears as
      "key: value" after it; in particular "PID: <pid>". */
  lemma EventTextLayout(kind: string, path: string, order: seq<string>, m: map<string, string>, k: string)
    requires forall i :: 0 <= i < |order| ==> order[i] in m
    requires '\n' !in kind && '\n' !in path
    requires k in order
    ensures SplitChar(EventText(kind, path, order, m), '\n')[0] == kind + ": " + path
    ensures Includes(EventText(kind, path, order, m), k + ": " + m[k])
  {
    var head := kind + ": " + path;
    assert '\n' !in head;
    var rest := Join(Pairs(order, m), ", ");
    assert EventText(kind, path, order, m) == head + ['\n'] + rest;
    SplitCharCons(head, '\n', rest);
    var i :| 0 <= i < |order| && order[i] == k;
    JoinIncludes(Pairs(order, m), ", ", i);
    IncludesIn(head + ['\n'], rest, [], k + ": " + m[k]);
    assert head + ['\n'] + rest + [] == EventText(kind, path, order, m);
  }

  /** No change name contains a line break. */
  lemma ChangeNameOneLine(code: Byte)
    ensures '\n' !in LegacyChangeName(code)
  {
    var name := LegacyChangeName(code);
    if code == 0 { assert name == "NotSet"; }
    else if code == 1 { assert name == "OpenDirectory"; }
    else if code == 2 { assert name == "Write"; }
    else if code == 3 { assert name == "NewFile"; }
    else if code == 4 { assert name == "RenameFile"; }
    else if code == 5 { assert name == "ExtensionChanged"; }
    else if code == 6 { assert name == "DeleteFile"; }
    else if code == 7 { assert name == "DeleteNewFile"; }
    else if code == 8 { assert name == "OverwriteFile"; }
    else { assert name == "Unknown"; }
  }

  /** A failed examination leaves the same error text under each basic key of the event's map. */
  lemma ErrorTextUnderKey(probe: FileMonitorBackend.FsProbe, pid: nat, k: string)
    requires probe.stat.Failed?
    requires k in {"Size", "Created", "Modified", "Accessed", "Readonly"}
    ensures k in MetadataWithPid(probe, pid)
    ensures MetadataWithPid(probe, pid)[k] == FileMonitorBackend.IoErrorText(probe.stat.kind)
  {
    FileMonitorBackend.MetadataShape(probe);
  }

  /** A file that cannot be examined is reported with one shared error text in Size, Created,
      Modified, Accessed and Readonly, and the event is still forwarded. */
  lemma UnreadableFileReported(msg: FileMonitorBackend.IoMessage, dirs: seq<string>, excludeNotSet: bool,
                               probe: FileMonitorBackend.FsProbe, order: seq<string>, k: string)
    requires ListsKeys(order, MetadataWithPid(probe, msg.pid))
    requires probe.stat.Failed?
    requires Watched(dirs, msg.path) && !(excludeNotSet && msg.fileChange == 0)
    requires '\n' !in msg.path
    requires k in {"Size", "Created", "Modified", "Accessed", "Readonly"}
    ensures Forward(msg, dirs, excludeNotSet, probe, order).Some?
    ensures Includes(Forward(msg, dirs, excludeNotSet, probe, order).value,
                     k + ": " + FileMonitorBackend.IoErrorText(probe.stat.kind))
  {
    var m := MetadataWithPid(probe, msg.pid);
    ErrorTextUnderKey(probe, msg.pid, k);
    var kind := LegacyChangeName(msg.fileChange);
    assert Forward(msg, dirs, excludeNotSet, probe, order) == Some(EventText(kind, msg.path, order, m));
    ChangeNameOneLine(msg.fileChange);
    EventTextLayout(kind, msg.path, order, m, k);
  }
}
