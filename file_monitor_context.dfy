/** The file monitor context (`src/contexts/FileMonitorContext.tsx`): a list of directories with a
    monitoring flag, kept in step with the file monitor's add and remove calls. */
module FileMonitorContext {
  import opened Common

  /** A directory shown in the settings, and whether it is being monitored. */
  datatype Directory = Directory(path: string, isMonitored: bool)

  /** A boolean property of a context directory as a property read sees it: the objects carry
      `isMonitored`; any other name reads `undefined` (`None`). */
  function Field(d: Directory, name: string): Option<bool> {
    if name == "isMonitored" then Some(d.isMonitored) else None
  }

  /** The filter `d => d[name]`: true exactly when the property holds `true`. */
  function Reads(name: string): Directory -> bool {
    (d: Directory) => Field(d, name) == Some(true)
  }

  /** A call the context makes on the file monitor. */
  datatype MonitorCall = AddCall(directory: string) | RemoveCall(directory: string) | StartCall

  const DefaultDirectory := "C:\\example"

  function Paths(ds: seq<Directory>): (r: seq<string>)
    ensures |r| == |ds| && forall i :: 0 <= i < |ds| ==> r[i] == ds[i].path
  {
    seq(|ds|, i requires 0 <= i < |ds| => ds[i].path)
  }

  /** No path is listed twice. */
  predicate NoDuplicates(ds: seq<Directory>) {
    forall i, j :: 0 <= i < j < |ds| ==> ds[i].path != ds[j].path
  }

  /** Every entry for `d` gets the flag `on`; the others are kept as they are. */
  function SetMonitored(ds: seq<Directory>, d: string, on: bool): seq<Directory> {
    seq(|ds|, i requires 0 <= i < |ds| => if ds[i].path == d then Directory(d, on) else ds[i])
  }

  /** The `setDirectories` update after a successful add: an existing path is re-enabled, a new
      one is appended, enabled. */
  function Upsert(ds: seq<Directory>, d: string): seq<Directory> {
    if d in Paths(ds) then SetMonitored(ds, d, true) else ds + [Directory(d, true)]
  }

  /** The `setDirectories` update after a successful remove: the path is kept, disabled. */
  function MarkDisabled(ds: seq<Directory>, d: string): seq<Directory> {
    SetMonitored(ds, d, false)
  }

  /** After an add the path is listed and enabled, entry for entry the list is otherwise the same,
      and the length grows only for a new path. */
  lemma UpsertEffect(ds: seq<Directory>, d: string)
    ensures d in Paths(ds) ==> |Upsert(ds, d)| == |ds|
    ensures d !in Paths(ds) ==> Upsert(ds, d) == ds + [Directory(d, true)]
    ensures forall i :: 0 <= i < |ds| && ds[i].path != d ==> Upsert(ds, d)[i] == ds[i]
    ensures forall i :: 0 <= i < |Upsert(ds, d)| && Upsert(ds, d)[i].path == d ==> Upsert(ds, d)[i].isMonitored
    ensures d in Paths(Upsert(ds, d))
  {
    if d in Paths(ds) {
      var k :| 0 <= k < |ds| && Paths(ds)[k] == d;
      assert Paths(Upsert(ds, d))[k] == d;
    } else {
      assert Paths(Upsert(ds, d))[|ds|] == d;
    }
  }

  /** Adding never creates a duplicate. */
  lemma UpsertNoDuplicates(ds: seq<Directory>, d: string)
    requires NoDuplicates(ds)
    ensures NoDuplicates(Upsert(ds, d))
  {
    var r := Upsert(ds, d);
    if d !in Paths(ds) {
      forall i, j | 0 <= i < j < |r| ensures r[i].path != r[j].path {
        if j == |ds| {
          assert Paths(ds)[i] == r[i].path;
        }
      }
    }
  }

  /** Adding the same path again changes nothing more. */
  lemma UpsertIdempotent(ds: seq<Directory>, d: string)
    ensures Upsert(Upsert(ds, d), d) == Upsert(ds, d)
  {
    UpsertEffect(ds, d);
  }

  /** A remove keeps every entry in place: same length, same paths, the removed path disabled and
      every other entry unchanged. */
  lemma MarkDisabledEffect(ds: seq<Directory>, d: string)
    ensures |MarkDisabled(ds, d)| == |ds| && Paths(MarkDisabled(ds, d)) == Paths(ds)
    ensures forall i :: 0 <= i < |ds| && ds[i].path == d ==> !MarkDisabled(ds, d)[i].isMonitored
    ensures forall i :: 0 <= i < |ds| && ds[i].path != d ==> MarkDisabled(ds, d)[i] == ds[i]
  {
  }

  /** The provider's state: the directory list, whether initialisation has run, and the calls made
      on the file monitor. */
  class Context {
    var directories: seq<Directory>
    var initialized: bool
    var calls: seq<MonitorCall>

    constructor()
      ensures directories == [] && !initialized && calls == []
    {
      directories := [];
      initialized := false;
      calls := [];
    }

    /** The context's `addDirectoryByPath`: the list changes only when the monitor's add
        succeeds; a failure is swallowed. */
    method AddDirectoryByPath(d: string, reply: Reply)
      modifies this
      ensures calls == old(calls) + [AddCall(d)]
      ensures directories == if reply.Done? then Upsert(old(directories), d) else old(directories)
      ensures NoDuplicates(old(directories)) ==> NoDuplicates(directories)
      ensures initialized == old(initialized)
    {
      calls := calls + [AddCall(d)];
      if reply.Done? {
        if NoDuplicates(directories) {
          UpsertNoDuplicates(directories, d);
        }
        directories := Upsert(directories, d);
      }
    }

    /** The context's `removeDirectory`: a successful remove disables the entry, a failure
        changes nothing. */
    method RemoveDirectory(d: string, reply: Reply)
      modifies this
      ensures calls == old(calls) + [RemoveCall(d)]
      ensures directories == if reply.Done? then MarkDisabled(old(directories), d) else old(directories)
      ensures |directories| == |old(directories)|
      ensures initialized == old(initialized)
    {
      calls := calls + [RemoveCall(d)];
      if reply.Done? {
        directories := MarkDisabled(directories, d);
      }
    }

    /** `initializeMonitoring`: the first run adds the default directory straight on the monitor
        (the list is not updated) and, if that does not throw, starts monitoring; later runs do
        nothing. */
    method Initialize(addReply: Reply)
      modifies this
      ensures initialized
      ensures directories == old(directories)
      ensures old(initialized) ==> calls == old(calls)
      ensures !old(initialized) ==>
        calls == old(calls) + [AddCall(DefaultDirectory)] + (if addReply.Done? then [StartCall] else [])
    {
      if initialized {
        return;
      }
      initialized := true;
      calls := calls + [AddCall(DefaultDirectory)];
      if addReply.Done? {
        calls := calls + [StartCall];
      }
    }
  }
}
