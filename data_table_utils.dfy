/** `addRowsToDataTable` (`src/utils/dataTableUtils.ts`) and the table object it updates. */
module DataTables {
  import opened Common

  /** A cell's value: text or a number. */
  datatype CellData = TextData(text: string) | NumberData(n: int)

  /** A cell: its value and, optionally, the text shown for it. */
  datatype Cell = Cell(data: CellData, text: Option<string>)

  /** A row of cells. */
  datatype Row = Row(cells: seq<Cell>)

  /** The table's row data (`data.data`) and the number of times it has redrawn (`update()`). */
  class DataTable {
    var rows: seq<Row>
    var updates: nat

    constructor(rows: seq<Row>)
      ensures this.rows == rows && updates == 0
    {
      this.rows := rows;
      updates := 0;
    }
  }

  /** `addRowsToDataTable`: no table, no effect; otherwise the new rows go after the old ones, in
      their order, and the table redraws once. */
  method AddRows(table: DataTable?, newRows: seq<Row>)
    modifies table
    ensures table != null ==> table.rows == old(table.rows) + newRows && table.updates == old(table.updates) + 1
  {
    if table != null {
      table.rows := table.rows + newRows;
      table.updates := table.updates + 1;
    }
  }
}
