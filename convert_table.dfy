/** `convertMonitorStateToTableData` (`src/utils/convertMonitorStateToTableData.ts`): one table row
    per watched file, directory by directory, file by file. */
module ConvertTable {
  import opened Common
  import opened OrderedMaps
  import opened FileStore

  /** A `TableDataRow` of the file view. */
  datatype TableRow = TableRow(path: string, pid: Pid, kind: string, timestamp: string, changes: nat,
                               entries: seq<Entry>)

  const NotAvailable := "N/A"

  /** The files listed under directory `w` of `fileChanges`, in insertion order. */
  function FileKeys(s: MonitorState, w: string): seq<string> {
    GetOr(s.fileChanges, w, Empty()).keys
  }

  /** Both levels of `fileChanges` list each key once. */
  ghost predicate WellFormed(s: MonitorState) {
    Valid(s.fileChanges) && forall w :: w in s.fileChanges.vals ==> Valid(s.fileChanges.vals[w])
  }

  /** The row for file `f` of directory `w`. `now` is the clock reading the source takes when
      the file has no timestamp. */
  function Row(s: MonitorState, w: string, f: string, now: string): TableRow {
    var d := Detail(s, w, f);
    TableRow(f,
             if d.Some? && PidTruthy(d.value.info.pid) then d.value.info.pid else TextPid(NotAvailable),
             if d.Some? && d.value.info.kind != "" then d.value.info.kind else NotAvailable,
             if d.Some? && d.value.info.timestamp != "" then d.value.info.timestamp else now,
             Count(s, w, f),
             Entries(s, w, f))
  }

  /** The rows for the files `fs` of directory `w`, in order. */
  function DirRows(s: MonitorState, w: string, fs: seq<string>, now: string): (r: seq<TableRow>)
    ensures |r| == |fs|
    ensures forall j :: 0 <= j < |fs| ==> r[j] == Row(s, w, fs[j], now)
    decreases |fs|
  {
    if fs == [] then [] else DirRows(s, w, fs[..|fs| - 1], now) + [Row(s, w, fs[|fs| - 1], now)]
  }

  /** The rows of the directories `ws`, one block per directory. */
  function RowsOf(s: MonitorState, ws: seq<string>, now: string): seq<TableRow>
    decreases |ws|
  {
    if ws == [] then []
    else RowsOf(s, ws[..|ws| - 1], now) + DirRows(s, ws[|ws| - 1], FileKeys(s, ws[|ws| - 1]), now)
  }

  /** The number of files listed under the directories `ws`. */
  function FileTotal(s: MonitorState, ws: seq<string>): nat
    decreases |ws|
  {
    if ws == [] then 0 else FileTotal(s, ws[..|ws| - 1]) + |FileKeys(s, ws[|ws| - 1])|
  }

  /** The whole table. */
  function TableRows(s: MonitorState, now: string): seq<TableRow> {
    RowsOf(s, s.fileChanges.keys, now)
  }

  /** One row per listed file. */
  lemma {:induction false} RowsOfLength(s: MonitorState, ws: seq<string>, now: string)
    ensures |RowsOf(s, ws, now)| == FileTotal(s, ws)
    decreases |ws|
  {
    if ws != [] {
      RowsOfLength(s, ws[..|ws| - 1], now);
    }
  }

  lemma {:induction false} FileTotalGrows(s: MonitorState, ws: seq<string>, i: nat)
    requires i <= |ws|
    ensures FileTotal(s, ws[..i]) <= FileTotal(s, ws)
    decreases |ws|
  {
    if i < |ws| {
      assert ws[..|ws| - 1][..i] == ws[..i];
      FileTotalGrows(s, ws[..|ws| - 1], i);
    } else {
      assert ws[..i] == ws;
    }
  }

  /** Rows come directory by directory, and file by file inside a directory: the row of the
      `j`-th file of the `i`-th directory sits right after the rows of the earlier directories. */
  lemma {:induction false} RowsOfIndex(s: MonitorState, ws: seq<string>, now: string, i: nat, j: nat)
    requires i < |ws| && j < |FileKeys(s, ws[i])|
    ensures FileTotal(s, ws[..i]) + j < |RowsOf(s, ws, now)|
    ensures RowsOf(s, ws, now)[FileTotal(s, ws[..i]) + j] == Row(s, ws[i], FileKeys(s, ws[i])[j], now)
    decreases |ws|
  {
    if i == |ws| - 1 {
      RowsOfLast(s, ws, now, i, j);
    } else {
      var init := ws[..|ws| - 1];
      RowsOfIndex(s, init, now, i, j);
      RowsOfFront(s, ws, now, i, j);
    }
  }

  /** The last directory's rows come right after those of the directories before it. */
  lemma RowsOfLast(s: MonitorState, ws: seq<string>, now: string, i: nat, j: nat)
    requires i == |ws| - 1 && j < |FileKeys(s, ws[i])|
    ensures FileTotal(s, ws[..i]) + j < |RowsOf(s, ws, now)|
    ensures RowsOf(s, ws, now)[FileTotal(s, ws[..i]) + j] == Row(s, ws[i], FileKeys(s, ws[i])[j], now)
  {
    var block := DirRows(s, ws[i], FileKeys(s, ws[i]), now);
    RowsOfLength(s, ws[..i], now);
    assert RowsOf(s, ws, now) == RowsOf(s, ws[..i], now) + block;
  }

  /** A row of an earlier directory keeps its index when the last directory's rows follow. */
  lemma RowsOfFront(s: MonitorState, ws: seq<string>, now: string, i: nat, j: nat)
    requires i < |ws| - 1 && j < |FileKeys(s, ws[i])|
    requires var init := ws[..|ws| - 1];
      FileTotal(s, init[..i]) + j < |RowsOf(s, init, now)| &&
      RowsOf(s, init, now)[FileTotal(s, init[..i]) + j] == Row(s, init[i], FileKeys(s, init[i])[j], now)
    ensures FileTotal(s, ws[..i]) + j < |RowsOf(s, ws, now)|
    ensures RowsOf(s, ws, now)[FileTotal(s, ws[..i]) + j] == Row(s, ws[i], FileKeys(s, ws[i])[j], now)
  {
    var init := ws[..|ws| - 1];
    assert init[..i] == ws[..i] && init[i] == ws[i];
  }

  /** Every file listed in `fileChanges` has its row in the table. */
  lemma TableCovers(s: MonitorState, now: string, w: string, f: string)
    requires WellFormed(s)
    requires w in s.fileChanges.vals && f in s.fileChanges.vals[w].vals
    ensures Row(s, w, f, now) in TableRows(s, now)
  {
    var ws := s.fileChanges.keys;
    var i :| 0 <= i < |ws| && ws[i] == w;
    var fs := FileKeys(s, w);
    var j :| 0 <= j < |fs| && fs[j] == f;
    RowsOfIndex(s, ws, now, i, j);
  }

  /** The table has exactly one row per `(directory, file)` pair. */
  lemma TableLength(s: MonitorState, now: string)
    ensures |TableRows(s, now)| == FileTotal(s, s.fileChanges.keys)
  {
    RowsOfLength(s, s.fileChanges.keys, now);
  }

  /** In a consistent store, each row's `Changes` is the number of its entries. */
  lemma RowChangesCountEntries(s: MonitorState, w: string, f: string, now: string)
    requires Consistent(s)
    ensures Row(s, w, f, now).changes == |Row(s, w, f, now).entries|
  {
  }

  /** A path without details shows "N/A" for its PID and type, no entries, and the clock reading. */
  lemma RowWithoutDetail(s: MonitorState, w: string, f: string, now: string)
    requires Detail(s, w, f).None?
    ensures Row(s, w, f, now) == TableRow(f, TextPid(NotAvailable), NotAvailable, now, Count(s, w, f), [])
  {
  }

  /** After an event is ingested, its row shows one more change, the event's PID and type (or
      "N/A" when they are empty) and the event as its last entry. */
  lemma RowAfterIngest(s: MonitorState, ev: FileEvent, now: string)
    requires Accepted(ev)
    ensures Row(Ingest(s, ev), ev.watcher, ev.path, now).changes == Count(s, ev.watcher, ev.path) + 1
    ensures Row(Ingest(s, ev), ev.watcher, ev.path, now).pid ==
            if PidTruthy(ev.pid) then ev.pid else TextPid(NotAvailable)
    ensures Row(Ingest(s, ev), ev.watcher, ev.path, now).kind ==
            if ev.eventType != "" then ev.eventType else NotAvailable
    ensures Row(Ingest(s, ev), ev.watcher, ev.path, now).entries ==
            Entries(s, ev.watcher, ev.path) + [CommonData(ev)]
  {
    IngestEffect(s, ev);
  }

  /** `convertMonitorStateToTableData`: walks every directory and every file, pushing one row each. */
  method ConvertToTable(s: MonitorState, now: string) returns (rows: seq<TableRow>)
    ensures rows == TableRows(s, now)
  {
    var ws := s.fileChanges.keys;
    rows := [];
    for i := 0 to |ws|
      invariant rows == RowsOf(s, ws[..i], now)
    {
      var fs := GetOr(s.fileChanges, ws[i], Empty()).keys;
      rows := PushDirRows(rows, s, ws[i], fs, now);
      RowsOfStep(s, ws, i, now);
    }
    assert ws[..|ws|] == ws;
  }

  /** The inner loop of `convertMonitorStateToTableData`: one row pushed per file of the directory. */
  method PushDirRows(rows: seq<TableRow>, s: MonitorState, w: string, fs: seq<string>, now: string)
    returns (r: seq<TableRow>)
    ensures r == rows + DirRows(s, w, fs, now)
  {
    r := rows;
    for j := 0 to |fs|
      invariant r == rows + DirRows(s, w, fs[..j], now)
    {
      DirRowsStep(s, w, fs, j, now);
      r := r + [Row(s, w, fs[j], now)];
    }
    assert fs[..|fs|] == fs;
  }

  /** One more file: its row follows those of the files before it. */
  lemma DirRowsStep(s: MonitorState, w: string, fs: seq<string>, j: nat, now: string)
    requires j < |fs|
    ensures DirRows(s, w, fs[..j + 1], now) == DirRows(s, w, fs[..j], now) + [Row(s, w, fs[j], now)]
  {
    assert fs[..j + 1][..j] == fs[..j];
  }

  /** One more directory: its block follows those of the directories before it. */
  lemma RowsOfStep(s: MonitorState, ws: seq<string>, i: nat, now: string)
    requires i < |ws|
    ensures RowsOf(s, ws[..i + 1], now) == RowsOf(s, ws[..i], now) + DirRows(s, ws[i], FileKeys(s, ws[i]), now)
  {
    assert ws[..i + 1][..i] == ws[..i];
  }
}
