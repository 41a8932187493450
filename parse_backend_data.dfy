/** `parseBackendDataUnique` and `parseBackendDataAll` (`src/utils/parseBackendData.ts`): the rows of
    the file table, one per distinct path or one per recorded entry. */
module BackendData {
  import opened Common
  import opened OrderedMaps
  import opened Numbers
  import opened FileStore

  /** An entry object of the watcher data; an absent field is `None`. */
  datatype RawEntry = RawEntry(path: Option<string>, pid: Option<Pid>, kind: Option<string>, size: Option<string>,
                               timestamp: Option<string>, processName: Option<string>)

  /** A file object; `changes` is the text `parseInt` reads from `Changes`. */
  datatype RawFile = RawFile(path: Option<string>, changes: Option<string>, pid: Option<Pid>, kind: Option<string>,
                             size: Option<string>, timestamp: Option<string>, entries: seq<RawEntry>)

  /** A watcher object with its files. */
  datatype RawWatcher = RawWatcher(watcher: string, files: seq<RawFile>)

  /** `DataRow`; `changes` is `None` where the source leaves the field unset. */
  datatype DataRow = DataRow(changes: Option<int>, path: string, pid: Pid, kind: string, size: string,
                             timestamp: string)

  /** `x || ''` for a text field. */
  function OrEmpty(o: Option<string>): string {
    if o.Some? then o.value else ""
  }

  /** `x || ''` for a PID, which may be a number. */
  function PidOrEmpty(o: Option<Pid>): Pid {
    if o.Some? && PidTruthy(o.value) then o.value else TextPid("")
  }

  /** `parseInt(file.Changes) || 0`. */
  function ChangesOf(t: Option<string>): int {
    if t.None? then 0
    else match ParseInt(t.value)
      case None => 0
      case Some(v) => v
  }

  /** A `Changes` number, read back from its decimal text, is that number; a missing one is 0. */
  lemma ChangesOfNumber(n: int)
    ensures ChangesOf(Some(IntToDecimal(n))) == n
    ensures ChangesOf(None) == 0
  {
    ParseIntRoundTrip(n);
  }

  /** The unique-mode row a file object yields on its own. */
  function FileRow(f: RawFile): DataRow {
    DataRow(Some(ChangesOf(f.changes)), OrEmpty(f.path), PidOrEmpty(f.pid), OrEmpty(f.kind), OrEmpty(f.size),
            OrEmpty(f.timestamp))
  }

  /** The all-mode row of an entry object: no `changes`. */
  function EntryRow(e: RawEntry): DataRow {
    DataRow(None, OrEmpty(e.path), PidOrEmpty(e.pid), OrEmpty(e.kind), OrEmpty(e.size), OrEmpty(e.timestamp))
  }

  /** Every file of every watcher, in order. */
  function Files(data: seq<RawWatcher>): seq<RawFile>
    decreases |data|
  {
    if data == [] then [] else Files(data[..|data| - 1]) + data[|data| - 1].files
  }

  /** The path each file is keyed by. */
  function Paths(files: seq<RawFile>): (r: seq<string>)
    ensures |r| == |files| && forall i :: 0 <= i < |files| ==> r[i] == OrEmpty(files[i].path)
  {
    seq(|files|, i requires 0 <= i < |files| => OrEmpty(files[i].path))
  }

  /** One step of the unique-mode loop: a new path gets the file's row; a known one only takes
      the file's `changes` and `timestamp`. */
  function Merge(m: Dict<DataRow>, f: RawFile): Dict<DataRow> {
    var p := OrEmpty(f.path);
    if p in m.vals then Put(m, p, m.vals[p].(changes := FileRow(f).changes, timestamp := FileRow(f).timestamp))
    else Put(m, p, FileRow(f))
  }

  /** The unique-mode map after the files `files`, in order. */
  function UniqueMap(files: seq<RawFile>): (r: Dict<DataRow>)
    ensures Valid(r)
    decreases |files|
  {
    if files == [] then Empty() else Merge(UniqueMap(files[..|files| - 1]), files[|files| - 1])
  }

  /** `i` is where `p` first occurs in `paths`. */
  predicate FirstAt(paths: seq<string>, p: string, i: int) {
    0 <= i < |paths| && paths[i] == p && forall k :: 0 <= k < i ==> paths[k] != p
  }

  /** `j` is where `p` last occurs in `paths`. */
  predicate LastAt(paths: seq<string>, p: string, j: int) {
    0 <= j < |paths| && paths[j] == p && forall k :: j < k < |paths| ==> paths[k] != p
  }

  /** A merge leaves every other path's row where it was. */
  lemma MergeOther(m: Dict<DataRow>, f: RawFile, q: string)
    requires q != OrEmpty(f.path)
    ensures q in Merge(m, f).vals <==> q in m.vals
    ensures q in m.vals ==> Merge(m, f).vals[q] == m.vals[q]
  {
  }

  /** A merge gives the file's path the file's `changes` and `timestamp`, and keeps the other
      fields of a row already there. */
  lemma MergeSame(m: Dict<DataRow>, f: RawFile)
    ensures OrEmpty(f.path) in Merge(m, f).vals
    ensures Merge(m, f).vals[OrEmpty(f.path)].changes == FileRow(f).changes
    ensures Merge(m, f).vals[OrEmpty(f.path)].timestamp == FileRow(f).timestamp
    ensures OrEmpty(f.path) !in m.vals ==> Merge(m, f).vals[OrEmpty(f.path)] == FileRow(f)
    ensures OrEmpty(f.path) in m.vals ==>
      FirstFields(Merge(m, f).vals[OrEmpty(f.path)]) == FirstFields(m.vals[OrEmpty(f.path)])
  {
  }

  /** The fields of a row that only the first file with its path sets: `pid`, `type` and `size`. */
  function FirstFields(r: DataRow): (Pid, string, string) {
    (r.pid, r.kind, r.size)
  }

  /** The map after a non-empty list of files is the map after all but the last, merged with the
      last. */
  lemma UniqueMapLast(files: seq<RawFile>)
    requires files != []
    ensures UniqueMap(files) == Merge(UniqueMap(files[..|files| - 1]), files[|files| - 1])
  {
  }

  /** Paths of a longer file list extend the shorter list's paths. */
  lemma PathsSnoc(files: seq<RawFile>)
    requires files != []
    ensures Paths(files) == Paths(files[..|files| - 1]) + [OrEmpty(files[|files| - 1].path)]
  {
  }

  /** The map holds exactly the paths that occur, each row under its own path. */
  lemma {:induction false} UniqueKeys(files: seq<RawFile>)
    ensures forall p :: p in UniqueMap(files).vals <==> p in Paths(files)
    ensures forall p :: p in UniqueMap(files).vals ==> UniqueMap(files).vals[p].path == p
    decreases |files|
  {
    if files != [] {
      var init := files[..|files| - 1];
      var f := files[|files| - 1];
      UniqueKeys(init);
      PathsSnoc(files);
      UniqueMapLast(files);
      MergeKeys(UniqueMap(init), f);
    }
  }

  /** A merge adds the file's path and keeps every other path's row. */
  lemma MergeKeys(m: Dict<DataRow>, f: RawFile)
    ensures forall q :: q in Merge(m, f).vals <==> q in m.vals || q == OrEmpty(f.path)
    ensures forall q :: q in m.vals && q != OrEmpty(f.path) ==> Merge(m, f).vals[q] == m.vals[q]
    ensures OrEmpty(f.path) in m.vals ==>
      Merge(m, f).vals[OrEmpty(f.path)].path == m.vals[OrEmpty(f.path)].path
    ensures OrEmpty(f.path) !in m.vals ==> Merge(m, f).vals[OrEmpty(f.path)].path == OrEmpty(f.path)
  {
  }

  /** The first file with a path fixes its row's `pid`, `type` and `size`. */
  lemma {:induction false} UniqueFirst(files: seq<RawFile>, p: string, i: int)
    requires FirstAt(Paths(files), p, i)
    ensures p in UniqueMap(files).vals
    ensures FirstFields(UniqueMap(files).vals[p]) == FirstFields(FileRow(files[i]))
    decreases |files|
  {
    var n := |files| - 1;
    UniqueMapLast(files);
    if i < n {
      PrefixOccurrence(files, p, i);
      UniqueFirst(files[..n], p, i);
      MergeKeepsFirst(UniqueMap(files[..n]), files[n], p);
    } else {
      FirstAtEnd(files, p);
    }
  }

  /** A merge keeps the first fields of a path already in the map. */
  lemma MergeKeepsFirst(m: Dict<DataRow>, f: RawFile, p: string)
    requires p in m.vals
    ensures p in Merge(m, f).vals && FirstFields(Merge(m, f).vals[p]) == FirstFields(m.vals[p])
  {
    if OrEmpty(f.path) == p {
      MergeSame(m, f);
    } else {
      MergeOther(m, f, p);
    }
  }

  /** A path first seen in the last file gets that file's first fields. */
  lemma FirstAtEnd(files: seq<RawFile>, p: string)
    requires files != [] && FirstAt(Paths(files), p, |files| - 1)
    ensures p in UniqueMap(files).vals
    ensures FirstFields(UniqueMap(files).vals[p]) == FirstFields(FileRow(files[|files| - 1]))
  {
    var n := |files| - 1;
    var m := UniqueMap(files[..n]);
    UniqueMapLast(files);
    PathsSnoc(files);
    UniqueKeys(files[..n]);
    assert p !in m.vals;
    MergeSame(m, files[n]);
  }

  /** The last file with a path gives its row's `changes` and `timestamp`. */
  lemma {:induction false} UniqueLast(files: seq<RawFile>, p: string, j: int)
    requires LastAt(Paths(files), p, j)
    ensures p in UniqueMap(files).vals
    ensures UniqueMap(files).vals[p].changes == FileRow(files[j]).changes
    ensures UniqueMap(files).vals[p].timestamp == FileRow(files[j]).timestamp
    decreases |files|
  {
    var n := |files| - 1;
    var init := files[..n];
    UniqueMapLast(files);
    if j < n {
      PrefixOccurrence(files, p, j);
      UniqueLast(init, p, j);
      MergeOther(UniqueMap(init), files[n], p);
    } else {
      MergeSame(UniqueMap(init), files[n]);
    }
  }

  /** An occurrence before the last file is one among the earlier files: a first occurrence
      stays first and a last one stays last. */
  lemma PrefixOccurrence(files: seq<RawFile>, p: string, i: int)
    requires 0 <= i < |files| - 1
    ensures files[..|files| - 1][i] == files[i]
    ensures FirstAt(Paths(files), p, i) ==> FirstAt(Paths(files[..|files| - 1]), p, i)
    ensures LastAt(Paths(files), p, i) ==>
      (LastAt(Paths(files[..|files| - 1]), p, i) && OrEmpty(files[|files| - 1].path) != p)
  {
    PathsSnoc(files);
  }

  /** Rows keep the order in which their paths first occur. */
  lemma {:induction false} UniqueOrder(files: seq<RawFile>, a: int, b: int, i: int, j: int)
    requires 0 <= a < b < |UniqueMap(files).keys|
    requires FirstAt(Paths(files), UniqueMap(files).keys[a], i)
    requires FirstAt(Paths(files), UniqueMap(files).keys[b], j)
    ensures i < j
    decreases |files|
  {
    var n := |files| - 1;
    var init := files[..n];
    var ks, ks0 := UniqueMap(files).keys, UniqueMap(init).keys;
    KeysStep(files);
    FirstInPrefix(files, ks[a], i);
    if b < |ks0| {
      FirstInPrefix(files, ks[b], j);
      UniqueOrder(init, a, b, i, j);
    } else {
      PathsSnoc(files);
    }
  }

  /** The keys after one more file: the same keys when its path is known, one more at the end
      when it is new; every earlier key is a path of the earlier files. */
  lemma KeysStep(files: seq<RawFile>)
    requires files != []
    ensures var n := |files| - 1; var last := OrEmpty(files[n].path);
      var ks, ks0 := UniqueMap(files).keys, UniqueMap(files[..n]).keys;
      (last in Paths(files[..n]) ==> ks == ks0) && (last !in Paths(files[..n]) ==> ks == ks0 + [last]) &&
      forall k :: 0 <= k < |ks0| ==> ks0[k] in Paths(files[..n])
  {
    var n := |files| - 1;
    UniqueKeys(files[..n]);
    UniqueMapLast(files);
  }

  /** A path that occurs among all but the last file first occurs there. */
  lemma FirstInPrefix(files: seq<RawFile>, p: string, i: int)
    requires files != [] && FirstAt(Paths(files), p, i) && p in Paths(files[..|files| - 1])
    ensures i < |files| - 1 && FirstAt(Paths(files[..|files| - 1]), p, i)
  {
    PathsSnoc(files);
  }

  lemma UniqueMapSnoc(files: seq<RawFile>, f: RawFile)
    ensures UniqueMap(files + [f]) == Merge(UniqueMap(files), f)
  {
    assert (files + [f])[..|files|] == files;
  }

  lemma UniqueMapStep(before: seq<RawFile>, fs: seq<RawFile>, j: nat)
    requires j < |fs|
    ensures UniqueMap(before + fs[..j + 1]) == Merge(UniqueMap(before + fs[..j]), fs[j])
  {
    assert before + fs[..j + 1] == (before + fs[..j]) + [fs[j]];
    UniqueMapSnoc(before + fs[..j], fs[j]);
  }

  /** `parseBackendDataUnique`'s result. */
  function UniqueRows(data: seq<RawWatcher>): seq<DataRow> {
    Values(UniqueMap(Files(data)))
  }

  /** Exactly one row per distinct path, with no path twice, in order of first occurrence. */
  lemma UniqueRowsPaths(data: seq<RawWatcher>)
    ensures forall p :: p in Paths(Files(data)) <==> exists i :: 0 <= i < |UniqueRows(data)| && UniqueRows(data)[i].path == p
    ensures forall i, j :: 0 <= i < j < |UniqueRows(data)| ==> UniqueRows(data)[i].path != UniqueRows(data)[j].path
  {
    var m := UniqueMap(Files(data));
    var rows := UniqueRows(data);
    UniqueKeys(Files(data));
    assert forall i :: 0 <= i < |rows| ==> rows[i].path == m.keys[i];
    forall p | p in Paths(Files(data))
      ensures exists i :: 0 <= i < |rows| && rows[i].path == p
    {
      var i :| 0 <= i < |m.keys| && m.keys[i] == p;
      assert rows[i].path == p;
    }
  }

  /** `parseBackendDataUnique`: walks every file of every watcher, updating the map in place. */
  method ParseUnique(data: seq<RawWatcher>) returns (rows: seq<DataRow>)
    ensures rows == UniqueRows(data)
  {
    var m: Dict<DataRow> := Empty();
    for i := 0 to |data|
      invariant m == UniqueMap(Files(data[..i]))
    {
      var fs := data[i].files;
      var before := Files(data[..i]);
      assert before + fs[..0] == before;
      for j := 0 to |fs|
        invariant m == UniqueMap(before + fs[..j])
      {
        UniqueMapStep(before, fs, j);
        var f := fs[j];
        var p := OrEmpty(f.path);
        var row := FileRow(f);
        if p in m.vals {
          var existing := m.vals[p];
          m := Put(m, p, existing.(changes := row.changes, timestamp := row.timestamp));
        } else {
          m := Put(m, p, row);
        }
      }
      assert fs[..|fs|] == fs;
      assert data[..i + 1][..i] == data[..i];
    }
    assert data[..|data|] == data;
    rows := Values(m);
  }

  /** The entries of the files `files`, file by file. */
  function FileEntries(files: seq<RawFile>): seq<RawEntry>
    decreases |files|
  {
    if files == [] then [] else FileEntries(files[..|files| - 1]) + files[|files| - 1].entries
  }

  /** The number of entries, summed file by file. */
  function EntryTotal(files: seq<RawFile>): nat
    decreases |files|
  {
    if files == [] then 0 else EntryTotal(files[..|files| - 1]) + |files[|files| - 1].entries|
  }

  lemma {:induction false} FileEntriesLength(files: seq<RawFile>)
    ensures |FileEntries(files)| == EntryTotal(files)
    decreases |files|
  {
    if files != [] {
      FileEntriesLength(files[..|files| - 1]);
    }
  }

  /** The all-mode rows of `entries`, one each, in order. */
  function EntryRows(entries: seq<RawEntry>): (r: seq<DataRow>)
    ensures |r| == |entries| && forall k :: 0 <= k < |entries| ==> r[k] == EntryRow(entries[k])
  {
    seq(|entries|, k requires 0 <= k < |entries| => EntryRow(entries[k]))
  }

  /** `parseBackendDataAll`'s result. */
  function AllRows(data: seq<RawWatcher>): seq<DataRow> {
    EntryRows(FileEntries(Files(data)))
  }

  /** All mode has one row per entry, and none of them sets `changes`. */
  lemma AllRowsShape(data: seq<RawWatcher>)
    ensures |AllRows(data)| == EntryTotal(Files(data))
    ensures forall k :: 0 <= k < |AllRows(data)| ==> AllRows(data)[k].changes.None?
  {
    FileEntriesLength(Files(data));
  }

  /** Every file's entries form one contiguous block of the flattened entries. */
  lemma FileEntriesAppend(files: seq<RawFile>, f: RawFile)
    ensures FileEntries(files + [f]) == FileEntries(files) + f.entries
  {
    assert (files + [f])[..|files|] == files;
  }

  /** One more file of a watcher, as a file-by-file loop sees it. */
  lemma FileEntriesStep(before: seq<RawFile>, fs: seq<RawFile>, j: nat)
    requires j < |fs|
    ensures FileEntries(before + fs[..j + 1]) == FileEntries(before + fs[..j]) + fs[j].entries
  {
    assert before + fs[..j + 1] == (before + fs[..j]) + [fs[j]];
    FileEntriesAppend(before + fs[..j], fs[j]);
  }

  /** One more entry gives one more row. */
  lemma EntryRowsSnoc(es: seq<RawEntry>, e: RawEntry)
    ensures EntryRows(es + [e]) == EntryRows(es) + [EntryRow(e)]
  {
  }

  /** One more watcher adds its files after the earlier watchers' files. */
  lemma FilesStep(data: seq<RawWatcher>, i: nat)
    requires i < |data|
    ensures Files(data[..i + 1]) == Files(data[..i]) + data[i].files
  {
    assert data[..i + 1][..i] == data[..i];
  }

  /** The innermost `forEach` over a file's entries: pushes one row per entry onto the rows of
      the entries seen so far. */
  method PushEntryRows(rows: seq<DataRow>, ghost sofar: seq<RawEntry>, es: seq<RawEntry>) returns (r: seq<DataRow>)
    requires rows == EntryRows(sofar)
    ensures r == EntryRows(sofar + es)
  {
    r := rows;
    assert sofar + es[..0] == sofar;
    for k := 0 to |es|
      invariant r == EntryRows(sofar + es[..k])
    {
      assert sofar + es[..k + 1] == (sofar + es[..k]) + [es[k]];
      EntryRowsSnoc(sofar + es[..k], es[k]);
      r := r + [EntryRow(es[k])];
    }
    assert es[..|es|] == es;
  }

  /** `parseBackendDataAll`: one row per entry, watcher by watcher, file by file. */
  method ParseAll(data: seq<RawWatcher>) returns (rows: seq<DataRow>)
    ensures rows == AllRows(data)
  {
    rows := [];
    for i := 0 to |data|
      invariant rows == EntryRows(FileEntries(Files(data[..i])))
    {
      var fs := data[i].files;
      ghost var before := Files(data[..i]);
      assert before + fs[..0] == before;
      for j := 0 to |fs|
        invariant rows == EntryRows(FileEntries(before + fs[..j]))
      {
        rows := PushEntryRows(rows, FileEntries(before + fs[..j]), fs[j].entries);
        FileEntriesStep(before, fs, j);
      }
      assert fs[..|fs|] == fs;
      FilesStep(data, i);
    }
    assert data[..|data|] == data;
  }
}
