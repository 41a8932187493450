/** `areDataEqual` (`src/utils/areDataEqual.ts`): whether two file tables show the same rows. */
module DataEquality {
  import opened FileStore
  import opened ConvertTable

  /** The fields of an entry the comparison looks at. */
  datatype EntryKey = EntryKey(path: string, pid: Pid, kind: string, timestamp: string)

  /** The fields of a row the comparison looks at, with its entries' compared fields. */
  datatype RowKey = RowKey(path: string, pid: Pid, kind: string, timestamp: string, changes: nat,
                           entries: seq<EntryKey>)

  function EntryKeyOf(e: Entry): EntryKey {
    EntryKey(e.path, e.pid, e.kind, e.timestamp)
  }

  function EntryKeys(es: seq<Entry>): (r: seq<EntryKey>)
    ensures |r| == |es| && forall k :: 0 <= k < |es| ==> r[k] == EntryKeyOf(es[k])
  {
    seq(|es|, k requires 0 <= k < |es| => EntryKeyOf(es[k]))
  }

  function RowKeyOf(row: TableRow): RowKey {
    RowKey(row.path, row.pid, row.kind, row.timestamp, row.changes, EntryKeys(row.entries))
  }

  function RowKeys(rows: seq<TableRow>): (r: seq<RowKey>)
    ensures |r| == |rows| && forall k :: 0 <= k < |rows| ==> r[k] == RowKeyOf(rows[k])
  {
    seq(|rows|, k requires 0 <= k < |rows| => RowKeyOf(rows[k]))
  }

  /** The two tables agree row by row on `Path`, `PID`, `Type`, `Timestamp`, `Changes` and, entry
      by entry, on the entries' `Path`, `PID`, `Type` and `Timestamp`. */
  predicate SameData(a: seq<TableRow>, b: seq<TableRow>) {
    RowKeys(a) == RowKeys(b)
  }

  /** `areDataEqual`: compares lengths, then each row field by field, returning at the first
      difference. */
  method AreDataEqual(a: seq<TableRow>, b: seq<TableRow>) returns (r: bool)
    ensures r <==> SameData(a, b)
  {
    if |a| != |b| {
      return false;
    }
    for i := 0 to |a|
      invariant forall k :: 0 <= k < i ==> RowKeyOf(a[k]) == RowKeyOf(b[k])
    {
      var x, y := a[i], b[i];
      if x.path != y.path || x.pid != y.pid || x.kind != y.kind || x.timestamp != y.timestamp ||
         x.changes != y.changes || |x.entries| != |y.entries| {
        assert RowKeys(a)[i] != RowKeys(b)[i];
        return false;
      }
      for j := 0 to |x.entries|
        invariant forall k :: 0 <= k < j ==> EntryKeyOf(x.entries[k]) == EntryKeyOf(y.entries[k])
      {
        var e, f := x.entries[j], y.entries[j];
        if e.path != f.path || e.pid != f.pid || e.kind != f.kind || e.timestamp != f.timestamp {
          assert EntryKeys(x.entries)[j] != EntryKeys(y.entries)[j];
          assert RowKeys(a)[i] != RowKeys(b)[i];
          return false;
        }
      }
      assert EntryKeys(x.entries) == EntryKeys(y.entries);
    }
    assert RowKeys(a) == RowKeys(b);
    return true;
  }

  /** Tables of different lengths differ; two empty tables are equal. */
  lemma LengthsMatter(a: seq<TableRow>, b: seq<TableRow>)
    ensures |a| != |b| ==> !SameData(a, b)
    ensures SameData([], [])
  {
    if |a| != |b| {
      assert |RowKeys(a)| != |RowKeys(b)|;
    }
  }

  /** A field the comparison does not look at (an entry's size, metadata or process, say) never
      changes the result: rows with the same compared fields compare equal. */
  lemma {:induction false} OtherFieldsIgnored(a: seq<TableRow>, b: seq<TableRow>)
    requires |a| == |b|
    requires forall k :: 0 <= k < |a| ==>
      a[k].path == b[k].path && a[k].pid == b[k].pid && a[k].kind == b[k].kind &&
      a[k].timestamp == b[k].timestamp && a[k].changes == b[k].changes && |a[k].entries| == |b[k].entries| &&
      forall m :: 0 <= m < |a[k].entries| ==>
        a[k].entries[m].path == b[k].entries[m].path && a[k].entries[m].pid == b[k].entries[m].pid &&
        a[k].entries[m].kind == b[k].entries[m].kind && a[k].entries[m].timestamp == b[k].entries[m].timestamp
    ensures SameData(a, b)
  {
    forall k | 0 <= k < |a| ensures RowKeyOf(a[k]) == RowKeyOf(b[k]) {
      assert EntryKeys(a[k].entries) == EntryKeys(b[k].entries);
    }
    assert RowKeys(a) == RowKeys(b);
  }
}
