/** The logs table (`src/components/LogsTable.tsx`): a rendered list of file rows, the data table
    built over it, which only ever gains rows for new paths, and the entries modal. */
module LogsTable {
  import opened Common
  import opened Numbers
  import opened Seqs
  import opened FileStore
  import opened DataTables

  /** A `TableDataRow`: a file row with `Changes` and `entries`, or a bare entry, which has
      neither (`None`). */
  datatype LogRow = LogRow(path: string, pid: Pid, kind: string, timestamp: string, changes: Option<int>,
                           entries: Option<seq<Entry>>)

  /** `row.Changes > 1`: an undefined count compares false. */
  predicate Starred(row: LogRow) {
    row.changes.Some? && row.changes.value > 1
  }

  /** A PID as text, as `toString` and the rendered cell give it. */
  function PidString(p: Pid): string {
    match p
    case NumPid(n) => IntToDecimal(n)
    case TextPid(s) => s
  }

  /** The PID and Type columns as rendered: `*` for a file changed more than once. */
  function ShownPid(row: LogRow): string {
    if Starred(row) then "*" else PidString(row.pid)
  }

  function ShownType(row: LogRow): string {
    if Starred(row) then "*" else row.kind
  }

  /** `View ${row.Changes}`. */
  function ViewLabel(row: LogRow): string {
    "View " + if row.changes.Some? then IntToDecimal(row.changes.value) else "undefined"
  }

  /** The PID cell `updateData` builds: the PID keeps its kind as data, with its text beside it. */
  function PidCell(row: LogRow): Cell {
    if Starred(row) then Cell(TextData("*"), Some("*"))
    else match row.pid
      case NumPid(n) => Cell(NumberData(n), Some(PidString(row.pid)))
      case TextPid(s) => Cell(TextData(s), Some(PidString(row.pid)))
  }

  /** The data-table row `updateData` builds for a log row. */
  function NewRow(row: LogRow): Row {
    Row([Cell(TextData(row.path), None), PidCell(row), Cell(TextData(ShownType(row)), None),
         Cell(TextData(row.timestamp), None), Cell(TextData(ViewLabel(row)), None)])
  }

  /** A row with more than one change shows `*` for PID and Type, in the rendered rows and in
      the cells added to the data table alike; any other row shows its own PID and type. */
  lemma StarRule(row: LogRow)
    ensures Starred(row) ==> ShownPid(row) == "*" && ShownType(row) == "*"
    ensures !Starred(row) ==> ShownPid(row) == PidString(row.pid) && ShownType(row) == row.kind
    ensures NewRow(row).cells[1].text == Some(ShownPid(row))
    ensures NewRow(row).cells[2].data == TextData(ShownType(row))
    ensures NewRow(row).cells[0].data == TextData(row.path)
  {
  }

  /** Whether some row of `data` has path `p`. */
  predicate KnownPath(data: seq<LogRow>, p: string) {
    exists k :: 0 <= k < |data| && data[k].path == p
  }

  /** The filter of `updateData`: rows whose path is not in the current data. */
  function IsNew(data: seq<LogRow>): LogRow -> bool {
    (row: LogRow) => !KnownPath(data, row.path)
  }

  function NewRows(rows: seq<LogRow>): (r: seq<Row>)
    ensures |r| == |rows| && forall k :: 0 <= k < |rows| ==> r[k] == NewRow(rows[k])
  {
    seq(|rows|, k requires 0 <= k < |rows| => NewRow(rows[k]))
  }

  /** The rows `updateData` adds: one for each row of the new data with a path not already
      shown, in order. */
  function AddedRows(data: seq<LogRow>, newData: seq<LogRow>): seq<Row> {
    NewRows(Filter(newData, IsNew(data)))
  }

  /** Every added row is for a path not already shown and comes from the new data; every new
      row with an unknown path is added; against empty data everything is added. */
  lemma AddedRowsShape(data: seq<LogRow>, newData: seq<LogRow>)
    ensures |AddedRows(data, newData)| <= |newData|
    ensures forall r :: r in AddedRows(data, newData) ==> exists row ::
      row in newData && !KnownPath(data, row.path) && r == NewRow(row)
    ensures forall row :: row in newData && !KnownPath(data, row.path) ==> NewRow(row) in AddedRows(data, newData)
    ensures data == [] ==> AddedRows(data, newData) == NewRows(newData)
  {
    var kept := Filter(newData, IsNew(data));
    assert |AddedRows(data, newData)| == |kept|;
    AddedRowsAreNew(data, newData);
    AddedRowsComplete(data, newData);
    if data == [] {
      assert forall i :: 0 <= i < |newData| ==> IsNew(data)(newData[i]);
      FilterAll(newData, IsNew(data));
    }
  }

  /** Each added row is the new row of an unknown-path row of the new data. */
  lemma AddedRowsAreNew(data: seq<LogRow>, newData: seq<LogRow>)
    ensures forall r :: r in AddedRows(data, newData) ==> exists row ::
      row in newData && !KnownPath(data, row.path) && r == NewRow(row)
  {
    var kept := Filter(newData, IsNew(data));
    forall r | r in AddedRows(data, newData)
      ensures exists row :: row in newData && !KnownPath(data, row.path) && r == NewRow(row)
    {
      var k :| 0 <= k < |AddedRows(data, newData)| && AddedRows(data, newData)[k] == r;
      var row := kept[k];
      assert IsNew(data)(row) && row in newData;
      assert !KnownPath(data, row.path) && r == NewRow(row);
    }
  }

  /** Each unknown-path row of the new data is added. */
  lemma AddedRowsComplete(data: seq<LogRow>, newData: seq<LogRow>)
    ensures forall row :: row in newData && !KnownPath(data, row.path) ==> NewRow(row) in AddedRows(data, newData)
  {
    var kept := Filter(newData, IsNew(data));
    var added := AddedRows(data, newData);
    forall row | row in newData && !KnownPath(data, row.path) ensures NewRow(row) in added {
      var i :| 0 <= i < |newData| && newData[i] == row;
      assert IsNew(data)(newData[i]);
      assert row in kept;
      var j :| 0 <= j < |kept| && kept[j] == row;
      assert added[j] == NewRow(row);
    }
  }

  /** `data.find(row => row.Path === path)`. */
  function FindPath(data: seq<LogRow>, p: string): Option<LogRow>
    decreases |data|
  {
    if data == [] then None else if data[0].path == p then Some(data[0]) else FindPath(data[1..], p)
  }

  /** The row found is the first with the path, and there is one exactly when the path is shown. */
  lemma {:induction false} FindPathFirst(data: seq<LogRow>, p: string)
    ensures FindPath(data, p).Some? <==> KnownPath(data, p)
    ensures FindPath(data, p).Some? ==> exists k :: (0 <= k < |data| && data[k] == FindPath(data, p).value &&
      data[k].path == p && forall j :: 0 <= j < k ==> data[j].path != p)
    decreases |data|
  {
    if data != [] && data[0].path != p {
      FindPathFirst(data[1..], p);
      if KnownPath(data, p) {
        var k :| 0 <= k < |data| && data[k].path == p;
        assert data[1..][k - 1].path == p;
      }
      if FindPath(data, p).Some? {
        var k :| 0 <= k < |data[1..]| && data[1..][k] == FindPath(data, p).value &&
          data[1..][k].path == p && forall j :: 0 <= j < k ==> data[1..][j].path != p;
        assert data[k + 1] == data[1..][k];
        assert forall j :: 1 <= j < k + 1 ==> data[j] == data[1..][j - 1];
      }
    }
  }

  /** The component's state: the rows shown, the rows the click listener searches (those shown
      when the data table was created, which its handler captured), whether the data table has
      announced itself, the data table (once created), and the entries modal. */
  class Logs {
    var data: seq<LogRow>
    var listenerData: seq<LogRow>
    var isInitialized: bool
    var table: DataTable?
    var isModalOpen: bool
    var selectedEntries: seq<Entry>

    constructor(initialData: seq<LogRow>)
      ensures data == initialData && listenerData == [] && !isInitialized && table == null
      ensures !isModalOpen && selectedEntries == []
    {
      data := initialData;
      listenerData := [];
      isInitialized := false;
      table := null;
      isModalOpen := false;
      selectedEntries := [];
    }

    /** `initializeDataTable` and its `datatable.init` handler: a table is created once, over the
        rows the page shows (`rendered`), after which the component is initialised. The click
        listener the handler installs keeps the data of that moment. */
    method InitializeDataTable(rendered: seq<Row>)
      modifies this
      ensures old(table) != null ==> table == old(table) && isInitialized == old(isInitialized) &&
                                     listenerData == old(listenerData)
      ensures old(table) == null ==> table != null && fresh(table) && table.rows == rendered && isInitialized &&
                                     listenerData == data
      ensures data == old(data) && isModalOpen == old(isModalOpen) && selectedEntries == old(selectedEntries)
    {
      if table != null {
        return;
      }
      table := new DataTable(rendered);
      listenerData := data;
      isInitialized := true;
    }

    /** `updateData`: once initialised, the rows for new paths go to the data table; the shown
        data is replaced either way. */
    method UpdateData(newData: seq<LogRow>)
      modifies this, table
      ensures data == newData && listenerData == old(listenerData) && table == old(table)
      ensures isInitialized == old(isInitialized)
      ensures old(isInitialized) && table != null ==> table.rows == old(table.rows) + AddedRows(old(data), newData)
      ensures !old(isInitialized) && table != null ==> table.rows == old(table.rows)
      ensures isModalOpen == old(isModalOpen) && selectedEntries == old(selectedEntries)
    {
      if isInitialized && table != null {
        AddRows(table, AddedRows(data, newData));
      }
      data := newData;
    }

    /** `handleRowClick`: only a non-empty entry list opens the modal. */
    method HandleRowClick(entries: Option<seq<Entry>>)
      modifies this
      ensures entries.Some? && entries.value != [] ==> isModalOpen && selectedEntries == entries.value
      ensures !(entries.Some? && entries.value != []) ==> isModalOpen == old(isModalOpen) && selectedEntries == old(selectedEntries)
      ensures data == old(data) && listenerData == old(listenerData) && table == old(table)
      ensures isInitialized == old(isInitialized)
    {
      if entries.Some? && entries.value != [] {
        selectedEntries := entries.value;
        isModalOpen := true;
      }
    }

    /** A click on a row's button: the row's `data-path` is looked up in the data the listener
        captured, not the data shown now, and the first row with that path has its entries
        shown. So a row added by a later update never opens, and before the table exists no
        listener is installed and a click does nothing. */
    method OnViewClick(path: string)
      modifies this
      ensures path == "" || !KnownPath(listenerData, path) ==>
        isModalOpen == old(isModalOpen) && selectedEntries == old(selectedEntries)
      ensures (path != "" && FindPath(listenerData, path).Some? && FindPath(listenerData, path).value.entries.Some? &&
               FindPath(listenerData, path).value.entries.value != []) ==>
        isModalOpen && selectedEntries == FindPath(listenerData, path).value.entries.value
      ensures data == old(data) && listenerData == old(listenerData) && table == old(table)
      ensures isInitialized == old(isInitialized)
    {
      if path == "" {
        return;
      }
      FindPathFirst(listenerData, path);
      var row := FindPath(listenerData, path);
      if row.Some? {
        HandleRowClick(row.value.entries);
      }
    }

    /** The modal's close button. */
    method CloseModal()
      modifies this
      ensures !isModalOpen && selectedEntries == old(selectedEntries) && data == old(data) && table == old(table)
      ensures listenerData == old(listenerData) && isInitialized == old(isInitialized)
    {
      isModalOpen := false;
    }
  }
}
