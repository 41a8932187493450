/** The registry table (`src/components/RegistryMUITable.tsx`): one row per key with its last
    change time, a flattened view of every change, the modal's selected changes and the exports. */
module RegistryTable {
  import opened Common
  import opened Seqs

  /** A change of a registry key, as the table receives it. */
  datatype ChangeEntry = ChangeEntry(kind: string, value: string, previousData: string, newData: string, timestamp: string)

  /** A row of the keys view: the key, its change count and its changes. */
  datatype RegistryRow = RegistryRow(key: string, changes: int, entries: seq<ChangeEntry>)

  /** `{ ...entry, Key: row.Key }`: a change tagged with its key. */
  datatype KeyedChange = KeyedChange(key: string, entry: ChangeEntry)

  /** `new Date(a) > new Date(b)`: `timeOf` reads a timestamp, `None` for an invalid date, with
      which every comparison is false. */
  predicate Later(timeOf: string -> Option<int>, a: string, b: string) {
    timeOf(a).Some? && timeOf(b).Some? && timeOf(a).value > timeOf(b).value
  }

  /** One step of the Last Modified `reduce`: an empty accumulator, or a later entry, takes the
      entry's timestamp. */
  function LatestStep(timeOf: string -> Option<int>, latest: string, e: ChangeEntry): string {
    if latest == "" || Later(timeOf, e.timestamp, latest) then e.timestamp else latest
  }

  /** The Last Modified column: the `reduce` over the entries from `''`. */
  function LastModified(timeOf: string -> Option<int>, entries: seq<ChangeEntry>): string
    decreases |entries|
  {
    if entries == [] then ""
    else LatestStep(timeOf, LastModified(timeOf, entries[..|entries| - 1]), entries[|entries| - 1])
  }

  /** Every timestamp is non-empty and a valid date. */
  predicate ValidTimes(timeOf: string -> Option<int>, entries: seq<ChangeEntry>) {
    forall i :: 0 <= i < |entries| ==> entries[i].timestamp != "" && timeOf(entries[i].timestamp).Some?
  }

  /** With valid timestamps, Last Modified is `''` exactly for no entries; otherwise it is the
      timestamp of one of the entries, and no entry is later. */
  lemma {:induction false} LastModifiedLatest(timeOf: string -> Option<int>, entries: seq<ChangeEntry>)
    requires ValidTimes(timeOf, entries)
    ensures LastModified(timeOf, entries) == "" <==> entries == []
    ensures entries != [] ==> exists i :: 0 <= i < |entries| && LastModified(timeOf, entries) == entries[i].timestamp
    ensures entries != [] ==> forall i :: 0 <= i < |entries| ==>
      timeOf(entries[i].timestamp).value <= timeOf(LastModified(timeOf, entries)).value
    decreases |entries|
  {
    if entries != [] {
      var n := |entries| - 1;
      var init := entries[..n];
      assert forall i :: 0 <= i < n ==> init[i] == entries[i];
      LastModifiedLatest(timeOf, init);
      var prev := LastModified(timeOf, init);
      if init != [] {
        var k :| 0 <= k < n && prev == init[k].timestamp;
        assert timeOf(prev).Some?;
      }
    }
  }

  /** The changes of one row, each tagged with the row's key. */
  function Tag(row: RegistryRow): (r: seq<KeyedChange>)
    ensures |r| == |row.entries|
  {
    seq(|row.entries|, i requires 0 <= i < |row.entries| => KeyedChange(row.key, row.entries[i]))
  }

  /** `rows.flatMap(row => row.entries.map(...))`: every change of every row, row by row. */
  function Changes(rows: seq<RegistryRow>): seq<KeyedChange>
    decreases |rows|
  {
    if rows == [] then [] else Changes(rows[..|rows| - 1]) + Tag(rows[|rows| - 1])
  }

  /** The number of changes, summed row by row. */
  function EntryCount(rows: seq<RegistryRow>): nat
    decreases |rows|
  {
    if rows == [] then 0 else EntryCount(rows[..|rows| - 1]) + |rows[|rows| - 1].entries|
  }

  /** The changes view has one row per change: its length is the sum of the entry list lengths. */
  lemma {:induction false} ChangesLength(rows: seq<RegistryRow>)
    ensures |Changes(rows)| == EntryCount(rows)
    decreases |rows|
  {
    if rows != [] {
      ChangesLength(rows[..|rows| - 1]);
    }
  }

  /** Every flattened change is a change of a row with the same key, and every change of every
      row appears. */
  lemma {:induction false} ChangesMembers(rows: seq<RegistryRow>)
    ensures forall x :: x in Changes(rows) ==>
      exists i :: 0 <= i < |rows| && rows[i].key == x.key && x.entry in rows[i].entries
    ensures forall i, j :: 0 <= i < |rows| && 0 <= j < |rows[i].entries| ==>
      KeyedChange(rows[i].key, rows[i].entries[j]) in Changes(rows)
    decreases |rows|
  {
    if rows != [] {
      var n := |rows| - 1;
      var init := rows[..n];
      ChangesMembers(init);
      var t := Tag(rows[n]);
      forall x | x in Changes(rows)
        ensures exists i :: 0 <= i < |rows| && rows[i].key == x.key && x.entry in rows[i].entries
      {
        if x in Changes(init) {
          var i :| 0 <= i < |init| && init[i].key == x.key && x.entry in init[i].entries;
          assert rows[i] == init[i];
        } else {
          assert x in t;
          var k :| 0 <= k < |t| && t[k] == x;
          assert rows[n].entries[k] == x.entry;
        }
      }
      forall i, j | 0 <= i < |rows| && 0 <= j < |rows[i].entries|
        ensures KeyedChange(rows[i].key, rows[i].entries[j]) in Changes(rows)
      {
        if i < n {
          assert rows[i] == init[i];
        } else {
          assert t[j] == KeyedChange(rows[i].key, rows[i].entries[j]);
        }
      }
    }
  }

  /** Whether a row's key is among the selected keys. */
  function SelectedBy(keys: seq<string>): RegistryRow -> bool {
    (row: RegistryRow) => row.key in keys
  }

  /** `selectedEntries`: nothing when the modal is closed or no key is selected; otherwise the
      changes of the selected rows, tagged with their keys, in row order. */
  function SelectedEntries(rows: seq<RegistryRow>, keys: seq<string>, isModalOpen: bool): seq<KeyedChange> {
    if !isModalOpen || keys == [] then [] else Changes(Filter(rows, SelectedBy(keys)))
  }

  /** The modal shows only changes of selected keys, all of them, and is empty when closed; with
      every row selected it shows the whole changes view. */
  lemma SelectedEntriesShape(rows: seq<RegistryRow>, keys: seq<string>, isModalOpen: bool)
    ensures !isModalOpen || keys == [] ==> SelectedEntries(rows, keys, isModalOpen) == []
    ensures forall x :: x in SelectedEntries(rows, keys, isModalOpen) ==> x.key in keys
    ensures isModalOpen && keys != [] ==>
      |SelectedEntries(rows, keys, isModalOpen)| == EntryCount(Filter(rows, SelectedBy(keys)))
    ensures isModalOpen && keys != [] ==> forall i, j :: 0 <= i < |rows| && rows[i].key in keys && 0 <= j < |rows[i].entries| ==>
      KeyedChange(rows[i].key, rows[i].entries[j]) in SelectedEntries(rows, keys, isModalOpen)
    ensures isModalOpen && keys != [] && (forall i :: 0 <= i < |rows| ==> rows[i].key in keys) ==>
      SelectedEntries(rows, keys, isModalOpen) == Changes(rows)
  {
    if isModalOpen && keys != [] {
      var sel := Filter(rows, SelectedBy(keys));
      ChangesMembers(sel);
      ChangesLength(sel);
      forall i, j | 0 <= i < |rows| && rows[i].key in keys && 0 <= j < |rows[i].entries|
        ensures KeyedChange(rows[i].key, rows[i].entries[j]) in Changes(sel)
      {
        assert SelectedBy(keys)(rows[i]);
        assert rows[i] in sel;
        var k :| 0 <= k < |sel| && sel[k] == rows[i];
      }
      if forall i :: 0 <= i < |rows| ==> rows[i].key in keys {
        FilterAll(rows, SelectedBy(keys));
      }
    }
  }

  /** The two views of the table. */
  datatype ViewMode = KeysView | ChangesView

  /** The rows shown: the key rows, or one row per change. */
  datatype View = KeyRows(rows: seq<RegistryRow>) | ChangeRows(changes: seq<KeyedChange>)

  function ViewOf(mode: ViewMode, rows: seq<RegistryRow>): View {
    if mode == KeysView then KeyRows(rows) else ChangeRows(Changes(rows))
  }

  /** A value of a row object as `Object.entries` yields it. */
  datatype JsValue = JsArray | JsNull | JsUndefined | JsObject(json: string) | JsNumber(n: int) | JsString(s: string)
                   | JsBool(b: bool)

  /** A cell of an exported row: text or a number. */
  datatype ExportCell = TextCell(text: string) | NumberCell(n: int)

  /** The export conversion of one value; an object carries the text `JSON.stringify` gives it. */
  function ExportValue(v: JsValue): (r: ExportCell)
    ensures r.NumberCell? <==> v.JsNumber?
    ensures v.JsNumber? ==> r.n == v.n
    ensures v.JsString? ==> r == TextCell(v.s)
    ensures v.JsArray? || v.JsNull? || v.JsUndefined? ==> r == TextCell("")
  {
    match v
    case JsArray => TextCell("")
    case JsNull => TextCell("")
    case JsUndefined => TextCell("")
    case JsObject(json) => TextCell(json)
    case JsNumber(n) => NumberCell(n)
    case JsString(s) => TextCell(s)
    case JsBool(b) => TextCell(if b then "true" else "false")
  }

  /** `exportObj` after the fields `fields` (in `Object.entries` order) have been assigned. */
  function ExportObject(fields: seq<(string, JsValue)>): map<string, ExportCell>
    decreases |fields|
  {
    if fields == [] then map[]
    else ExportObject(fields[..|fields| - 1])[fields[|fields| - 1].0 := ExportValue(fields[|fields| - 1].1)]
  }

  /** Every field of the row is exported under its own name, and nothing else is. */
  lemma {:induction false} ExportObjectKeys(fields: seq<(string, JsValue)>)
    ensures forall x :: x in ExportObject(fields) <==> exists i :: 0 <= i < |fields| && fields[i].0 == x
    decreases |fields|
  {
    if fields != [] {
      var n := |fields| - 1;
      var init := fields[..n];
      ExportObjectKeys(init);
      forall x | x in ExportObject(fields) ensures exists i :: 0 <= i < |fields| && fields[i].0 == x {
        if x != fields[n].0 {
          assert x in ExportObject(init);
          var i :| 0 <= i < n && init[i].0 == x;
          assert fields[i].0 == x;
        }
      }
      forall x | exists i :: 0 <= i < |fields| && fields[i].0 == x ensures x in ExportObject(fields) {
        var i :| 0 <= i < |fields| && fields[i].0 == x;
        if i < n {
          assert init[i].0 == x;
        }
      }
    }
  }

  /** A field whose name is not assigned again later is exported as its converted value (so a
      name assigned twice keeps its last value). */
  lemma {:induction false} ExportObjectValue(fields: seq<(string, JsValue)>, i: nat)
    requires i < |fields|
    requires forall j :: i < j < |fields| ==> fields[j].0 != fields[i].0
    ensures fields[i].0 in ExportObject(fields) && ExportObject(fields)[fields[i].0] == ExportValue(fields[i].1)
    decreases |fields|
  {
    var n := |fields| - 1;
    if i < n {
      var init := fields[..n];
      assert init[i] == fields[i];
      ExportObjectValue(init, i);
    }
  }

  /** The `forEach` of `handleExportRows` for one row. */
  method ExportRow(fields: seq<(string, JsValue)>) returns (exportObj: map<string, ExportCell>)
    ensures exportObj == ExportObject(fields)
  {
    exportObj := map[];
    for i := 0 to |fields|
      invariant exportObj == ExportObject(fields[..i])
    {
      assert fields[..i + 1][..i] == fields[..i];
      var (key, value) := fields[i];
      if value.JsArray? || value.JsNull? || value.JsUndefined? {
        exportObj := exportObj[key := TextCell("")];
      } else if value.JsObject? {
        exportObj := exportObj[key := TextCell(value.json)];
      } else if value.JsNumber? {
        exportObj := exportObj[key := NumberCell(value.n)];
      } else if value.JsBool? {
        exportObj := exportObj[key := TextCell(if value.b then "true" else "false")];
      } else {
        exportObj := exportObj[key := TextCell(value.s)];
      }
    }
    assert fields[..|fields|] == fields;
  }

  /** A keys-view export row; `entries` is the JSON text of the row's changes. */
  datatype KeyRecord = KeyRecord(key: string, changes: int, entries: string)

  /** A changes-view export row. */
  datatype ChangeRecord = ChangeRecord(key: string, kind: string, value: string, previousData: string, newData: string,
                                       timestamp: string)

  function Record(x: KeyedChange): ChangeRecord {
    ChangeRecord(x.key, x.entry.kind, x.entry.value, x.entry.previousData, x.entry.newData, x.entry.timestamp)
  }

  function Records(xs: seq<KeyedChange>): (r: seq<ChangeRecord>)
    ensures |r| == |xs|
  {
    seq(|xs|, i requires 0 <= i < |xs| => Record(xs[i]))
  }

  /** What `handleExportData` exports; `stringify` stands for `JSON.stringify` on a change list. */
  datatype Export = KeysExport(keyRecords: seq<KeyRecord>) | ChangesExport(changeRecords: seq<ChangeRecord>)

  function ExportData(mode: ViewMode, rows: seq<RegistryRow>, stringify: seq<ChangeEntry> -> string): Export {
    if mode == KeysView then
      KeysExport(seq(|rows|, i requires 0 <= i < |rows| => KeyRecord(rows[i].key, rows[i].changes, stringify(rows[i].entries))))
    else ChangesExport(Records(Changes(rows)))
  }

  /** The keys export has one record per row, in order, with its key and count; the changes
      export is the changes view, record for record, and so has one record per change. */
  lemma ExportDataShape(mode: ViewMode, rows: seq<RegistryRow>, stringify: seq<ChangeEntry> -> string)
    ensures mode == KeysView ==> var e := ExportData(mode, rows, stringify).keyRecords;
      |e| == |rows| && forall i :: 0 <= i < |rows| ==> e[i].key == rows[i].key && e[i].changes == rows[i].changes
    ensures mode == ChangesView ==> var e := ExportData(mode, rows, stringify).changeRecords;
      |e| == EntryCount(rows) &&
      forall i :: 0 <= i < |e| ==> (e[i].key == ViewOf(mode, rows).changes[i].key &&
        e[i].timestamp == ViewOf(mode, rows).changes[i].entry.timestamp &&
        e[i].kind == ViewOf(mode, rows).changes[i].entry.kind)
  {
    ChangesLength(rows);
  }

  /** `handleModalExportData`: the selected changes as records, so only selected keys, and nothing
      when the modal is closed. */
  function ModalExport(rows: seq<RegistryRow>, keys: seq<string>, isModalOpen: bool): seq<ChangeRecord> {
    Records(SelectedEntries(rows, keys, isModalOpen))
  }

  lemma ModalExportKeys(rows: seq<RegistryRow>, keys: seq<string>, isModalOpen: bool)
    ensures forall i :: 0 <= i < |ModalExport(rows, keys, isModalOpen)| ==> ModalExport(rows, keys, isModalOpen)[i].key in keys
    ensures !isModalOpen ==> ModalExport(rows, keys, isModalOpen) == []
  {
    SelectedEntriesShape(rows, keys, isModalOpen);
    var s := SelectedEntries(rows, keys, isModalOpen);
    forall i | 0 <= i < |s| ensures s[i].key in keys {
      assert s[i] in s;
    }
  }
}
