/** The file table (`src/components/MUITable.tsx`): the rows of the chosen view and the entries of
    the files selected for the detail modal. */
module FileTable {
  import opened Common
  import opened BackendData

  /** The two views of the table. */
  datatype ViewMode = UniqueView | AllView

  /** `parsedData`: one row per path in the unique view, one per entry otherwise. */
  function ParsedData(mode: ViewMode, data: seq<RawWatcher>): seq<DataRow> {
    if mode == UniqueView then UniqueRows(data) else AllRows(data)
  }

  /** The unique view never lists a path twice; the other view has one row per entry. */
  lemma ParsedDataShape(mode: ViewMode, data: seq<RawWatcher>)
    ensures mode == UniqueView ==> forall i, j :: 0 <= i < j < |ParsedData(mode, data)| ==>
      ParsedData(mode, data)[i].path != ParsedData(mode, data)[j].path
    ensures mode == AllView ==> |ParsedData(mode, data)| == EntryTotal(Files(data))
  {
    if mode == UniqueView {
      UniqueRowsPaths(data);
    } else {
      AllRowsShape(data);
    }
  }

  /** `paths.includes(file.Path)`: a file without a `Path` matches no selected path. */
  predicate Selected(f: RawFile, paths: seq<string>) {
    f.path.Some? && f.path.value in paths
  }

  /** The selected files among `files`, in order. */
  function SelectedFiles(files: seq<RawFile>, paths: seq<string>): (r: seq<RawFile>)
    ensures |r| <= |files|
    ensures forall k :: 0 <= k < |r| ==> Selected(r[k], paths)
    decreases |files|
  {
    if files == [] then []
    else
      var last := files[|files| - 1];
      SelectedFiles(files[..|files| - 1], paths) + (if Selected(last, paths) then [last] else [])
  }

  /** `getEntriesForPaths`' result: a row for every entry of every selected file, in watcher,
      file and entry order, with missing fields as `''` and no `changes`. */
  function EntriesForPaths(data: seq<RawWatcher>, paths: seq<string>): seq<DataRow> {
    EntryRows(FileEntries(SelectedFiles(Files(data), paths)))
  }

  /** Selecting every file's path gives the whole all-entries view. */
  lemma {:induction false} SelectAll(files: seq<RawFile>, paths: seq<string>)
    requires forall k :: 0 <= k < |files| ==> Selected(files[k], paths)
    ensures SelectedFiles(files, paths) == files
    decreases |files|
  {
    if files != [] {
      var n := |files| - 1;
      assert forall k :: 0 <= k < n ==> files[..n][k] == files[k];
      SelectAll(files[..n], paths);
    }
  }

  /** The detail rows never set `changes`, come only from selected files, and with every file
      selected are exactly the all-entries rows. */
  lemma EntriesForPathsShape(data: seq<RawWatcher>, paths: seq<string>)
    ensures |EntriesForPaths(data, paths)| == EntryTotal(SelectedFiles(Files(data), paths))
    ensures forall k :: 0 <= k < |EntriesForPaths(data, paths)| ==> EntriesForPaths(data, paths)[k].changes.None?
    ensures (forall k :: 0 <= k < |Files(data)| ==> Selected(Files(data)[k], paths)) ==>
      EntriesForPaths(data, paths) == AllRows(data)
  {
    FileEntriesLength(SelectedFiles(Files(data), paths));
    if forall k :: 0 <= k < |Files(data)| ==> Selected(Files(data)[k], paths) {
      SelectAll(Files(data), paths);
    }
  }

  /** No selected path means no detail rows. */
  lemma {:induction false} NothingSelected(files: seq<RawFile>)
    ensures SelectedFiles(files, []) == []
    decreases |files|
  {
    if files != [] {
      NothingSelected(files[..|files| - 1]);
    }
  }

  /** One more file, as the file-by-file loop sees it. */
  lemma SelectedStep(before: seq<RawFile>, fs: seq<RawFile>, j: nat, paths: seq<string>)
    requires j < |fs|
    ensures FileEntries(SelectedFiles(before + fs[..j + 1], paths)) ==
      FileEntries(SelectedFiles(before + fs[..j], paths)) + (if Selected(fs[j], paths) then fs[j].entries else [])
  {
    var xs := before + fs[..j + 1];
    assert xs[..|xs| - 1] == before + fs[..j];
    var prev := SelectedFiles(before + fs[..j], paths);
    if Selected(fs[j], paths) {
      FileEntriesAppend(prev, fs[j]);
    } else {
      assert prev + [] == prev;
    }
  }

  /** `getEntriesForPaths`: walks every file of every watcher and pushes a row for each entry of
      a selected file. */
  method GetEntriesForPaths(data: seq<RawWatcher>, paths: seq<string>) returns (entries: seq<DataRow>)
    ensures entries == EntriesForPaths(data, paths)
  {
    entries := [];
    for i := 0 to |data|
      invariant entries == EntryRows(FileEntries(SelectedFiles(Files(data[..i]), paths)))
    {
      var fs := data[i].files;
      ghost var before := Files(data[..i]);
      assert before + fs[..0] == before;
      for j := 0 to |fs|
        invariant entries == EntryRows(FileEntries(SelectedFiles(before + fs[..j], paths)))
      {
        SelectedStep(before, fs, j, paths);
        if Selected(fs[j], paths) {
          entries := PushEntryRows(entries, FileEntries(SelectedFiles(before + fs[..j], paths)), fs[j].entries);
        } else {
          ghost var sofar := FileEntries(SelectedFiles(before + fs[..j], paths));
          assert sofar + [] == sofar;
        }
      }
      assert fs[..|fs|] == fs;
      FilesStep(data, i);
    }
    assert data[..|data|] == data;
  }

  /** `modalData`: nothing while the modal is closed or no path is selected. */
  function ModalData(data: seq<RawWatcher>, paths: seq<string>, isModalOpen: bool): seq<DataRow> {
    if !isModalOpen || paths == [] then [] else EntriesForPaths(data, paths)
  }

  /** The modal's rows are empty when it is closed or nothing is selected, and otherwise are the
      selected files' entries. */
  lemma ModalDataShape(data: seq<RawWatcher>, paths: seq<string>, isModalOpen: bool)
    ensures !isModalOpen ==> ModalData(data, paths, isModalOpen) == []
    ensures ModalData(data, paths, isModalOpen) == (if isModalOpen then EntriesForPaths(data, paths) else [])
  {
    if isModalOpen && paths == [] {
      NothingSelected(Files(data));
    }
  }
}
