/** The table cell actions (`src/utils/actions.ts`): the persisted list of monitored directories
    and the guards of the add-directory and kill-process actions. */
module Actions {
  import opened Common

  /** An entry of the persisted `monitoredDirectories` list. */
  datatype PersistedDirectory = PersistedDirectory(path: string, isEnabled: bool)

  /** A backend command issued by an action. */
  datatype ActionCall = AddDirectory(directory: string) | KillProcess(process: map<string, string>)

  /** The value a cell action is given: a string, or an object with the given fields. */
  datatype CellValue = TextValue(text: string) | ObjectValue(fields: map<string, string>)

  const DirectoriesKey := "monitoredDirectories"

  /** Whether `p` is listed. */
  predicate Listed(ds: seq<PersistedDirectory>, p: string) {
    exists i :: 0 <= i < |ds| && ds[i].path == p
  }

  /** The list `updateMonitoredDirectories` keeps: a path not yet listed is appended, enabled;
      a listed one changes nothing. */
  function AddIfAbsent(ds: seq<PersistedDirectory>, p: string): seq<PersistedDirectory> {
    if Listed(ds, p) then ds else ds + [PersistedDirectory(p, true)]
  }

  /** The persisted entries are never modified, a new path goes at the end enabled, and the path
      is listed afterwards. */
  lemma AddIfAbsentEffect(ds: seq<PersistedDirectory>, p: string)
    ensures Listed(ds, p) ==> AddIfAbsent(ds, p) == ds
    ensures !Listed(ds, p) ==> |AddIfAbsent(ds, p)| == |ds| + 1 && AddIfAbsent(ds, p)[|ds|] == PersistedDirectory(p, true)
    ensures AddIfAbsent(ds, p)[..|ds|] == ds
    ensures Listed(AddIfAbsent(ds, p), p)
  {
    if !Listed(ds, p) {
      var r := AddIfAbsent(ds, p);
      assert r[|ds|].path == p;
    }
  }

  /** Adding a path twice is the same as adding it once. */
  lemma AddIfAbsentIdempotent(ds: seq<PersistedDirectory>, p: string)
    ensures AddIfAbsent(AddIfAbsent(ds, p), p) == AddIfAbsent(ds, p)
  {
    AddIfAbsentEffect(ds, p);
  }

  /** What the actions touch: the persisted list (`None` when the stored item is missing or
      empty), the number of context refreshes, and the backend commands sent. */
  class ActionState {
    var saved: Option<seq<PersistedDirectory>>
    var refreshes: nat
    var calls: seq<ActionCall>

    constructor(saved: Option<seq<PersistedDirectory>>)
      ensures this.saved == saved && refreshes == 0 && calls == []
    {
      this.saved := saved;
      refreshes := 0;
      calls := [];
    }

    /** The list as read back, with a missing item read as empty. */
    function Current(): seq<PersistedDirectory>
      reads this
    {
      if saved.Some? then saved.value else []
    }

    /** `updateMonitoredDirectories`: a new path is appended and saved and the context refreshed
        when a refresh function is registered; a listed path changes nothing at all. */
    method UpdateMonitoredDirectories(p: string, refreshRegistered: bool)
      modifies this
      ensures Listed(old(Current()), p) ==> saved == old(saved) && refreshes == old(refreshes)
      ensures !Listed(old(Current()), p) ==> saved == Some(AddIfAbsent(old(Current()), p))
      ensures !Listed(old(Current()), p) ==> refreshes == old(refreshes) + (if refreshRegistered then 1 else 0)
      ensures Current() == AddIfAbsent(old(Current()), p)
      ensures calls == old(calls)
    {
      var directories := Current();
      if !Listed(directories, p) {
        saved := Some(directories + [PersistedDirectory(p, true)]);
        if refreshRegistered {
          refreshes := refreshes + 1;
        }
      }
    }

    /** The add-box action on a cell holding a file path: adds the file's directory (`parent`,
        as `dirname` gives it) to the backend and, only when that succeeds, to the persisted list. */
    method AddBoxAction(parent: string, addReply: Reply, refreshRegistered: bool)
      modifies this
      ensures calls == old(calls) + [AddDirectory(parent)]
      ensures addReply.Threw? ==> saved == old(saved) && refreshes == old(refreshes)
      ensures addReply.Done? ==> Current() == AddIfAbsent(old(Current()), parent)
    {
      calls := calls + [AddDirectory(parent)];
      if addReply.Done? {
        UpdateMonitoredDirectories(parent, refreshRegistered);
      }
    }

    /** The kill action: only an object value with a `pid` field is sent to the backend, and the
        backend's message is returned; any other value gives nothing. */
    method KillAction(value: CellValue, responseMessage: string) returns (r: Option<string>)
      modifies this
      ensures value.ObjectValue? && "pid" in value.fields ==>
        r == Some(responseMessage) && calls == old(calls) + [KillProcess(value.fields)]
      ensures !(value.ObjectValue? && "pid" in value.fields) ==> r.None? && calls == old(calls)
      ensures saved == old(saved) && refreshes == old(refreshes)
    {
      if value.ObjectValue? && "pid" in value.fields {
        calls := calls + [KillProcess(value.fields)];
        return Some(responseMessage);
      }
      return None;
    }
  }
}
