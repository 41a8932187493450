/** The file system settings panel (`src/components/FileSystemSettings.tsx`): an input box for a
    directory path and one card per directory, all acting through a directory command port. */
module FileSystemSettings {
  import opened Common
  import opened Text
  import opened FileMonitorContext
  import Seqs

  /** A command sent to the port. */
  datatype SettingsCall = AddByPath(path: string) | ToggleState(path: string) | DeleteDirectory(path: string)

  /** What a directory card is given: its path and the `isMonitored` prop, as the property read
      that fills it yields it (`None` for `undefined`). */
  datatype CardDirectory = CardDirectory(path: string, isMonitored: Option<bool>)

  /** A stable sort whose comparator puts first the directories whose property `name` reads
      true, and keeps the order of two directories whose reads are equal. */
  function SortedOn(ds: seq<Directory>, name: string): seq<Directory> {
    Seqs.KeyFirst(ds, Reads(name))
  }

  /** `sortedDirectories` as written: the comparator reads `isEnabled`, which the context's
      directories do not have. */
  function SortedDirectoriesAsWritten(ds: seq<Directory>): seq<Directory> {
    SortedOn(ds, "isEnabled")
  }

  /** The cards as written: each is given `directory.isEnabled` as its monitored flag. */
  function CardsAsWritten(ds: seq<Directory>): (cs: seq<CardDirectory>)
    ensures |cs| == |ds|
  {
    seq(|ds|, i requires 0 <= i < |ds| => CardDirectory(ds[i].path, Field(ds[i], "isEnabled")))
  }

  /** As written, every `isEnabled` read is `undefined`, so the comparator always returns 0: the
      listing is the directories in list order, and no card is shown as monitored. */
  lemma AsWrittenKeepsOrder(ds: seq<Directory>)
    ensures SortedDirectoriesAsWritten(ds) == ds
    ensures forall c :: c in CardsAsWritten(ds) ==> c.isMonitored.None?
  {
    Seqs.KeyFirstNone(ds, Reads("isEnabled"));
  }

  /** With one unmonitored directory before a monitored one, the listing as written keeps that
      order, where the monitored one is meant to come first. */
  lemma AsWrittenMonitoredNotFirst()
    ensures SortedDirectoriesAsWritten([Directory("a", false), Directory("b", true)]) ==
            [Directory("a", false), Directory("b", true)]
    ensures SortedDirectories([Directory("a", false), Directory("b", true)]) ==
            [Directory("b", true), Directory("a", false)]
  {
    AsWrittenKeepsOrder([Directory("a", false), Directory("b", true)]);
    Seqs.KeyFirstSwap(Directory("a", false), Directory("b", true), Reads("isMonitored"));
  }

  /** `sortedDirectories` as meant: monitored directories first, each group in list order. */
  function SortedDirectories(ds: seq<Directory>): seq<Directory> {
    SortedOn(ds, "isMonitored")
  }

  /** The cards as meant: each is given the directory's monitored flag. */
  function Cards(ds: seq<Directory>): (cs: seq<CardDirectory>)
    ensures |cs| == |ds|
  {
    seq(|ds|, i requires 0 <= i < |ds| => CardDirectory(ds[i].path, Some(ds[i].isMonitored)))
  }

  /** The listing as meant is a permutation of the directories with every monitored one before
      every other one, and each card shows its directory's path and flag. */
  lemma SortedDirectoriesShape(ds: seq<Directory>)
    ensures multiset(SortedDirectories(ds)) == multiset(ds)
    ensures forall i, j :: 0 <= i < j < |ds| && SortedDirectories(ds)[j].isMonitored ==> SortedDirectories(ds)[i].isMonitored
    ensures forall i :: 0 <= i < |ds| ==> Cards(ds)[i] == CardDirectory(ds[i].path, Some(ds[i].isMonitored))
  {
    var p := Reads("isMonitored");
    Seqs.KeyFirstSorted(ds, p);
    forall i, j | 0 <= i < j < |ds| && SortedDirectories(ds)[j].isMonitored
      ensures SortedDirectories(ds)[i].isMonitored
    {
      assert p(SortedDirectories(ds)[j]);
    }
  }

  /** The panel's state: the text in the input box and the commands sent. */
  class Panel {
    var directoryPath: string
    var calls: seq<SettingsCall>

    constructor()
      ensures directoryPath == "" && calls == []
    {
      directoryPath := "";
      calls := [];
    }

    /** The input box's `onChange`. */
    method OnInput(input: string)
      modifies this
      ensures directoryPath == input && calls == old(calls)
    {
      directoryPath := input;
    }

    /** `handleAddDirectory`: a blank input does nothing; otherwise the trimmed path is added and
        the box cleared. The context's `addDirectoryByPath` catches every failure of the
        monitor's add, so the awaited call always returns and the box is always cleared. */
    method HandleAddDirectory()
      modifies this
      ensures Trim(old(directoryPath)) == [] ==> calls == old(calls) && directoryPath == old(directoryPath)
      ensures Trim(old(directoryPath)) != [] ==> calls == old(calls) + [AddByPath(Trim(old(directoryPath)))]
      ensures Trim(old(directoryPath)) != [] ==> directoryPath == ""
    {
      var trimmed := Trim(directoryPath);
      if trimmed != [] {
        calls := calls + [AddByPath(trimmed)];
        directoryPath := "";
      }
    }

    /** A card's `onAdd`: toggles the directory's state. */
    method OnCardAdd(d: Directory)
      modifies this
      ensures calls == old(calls) + [ToggleState(d.path)] && directoryPath == old(directoryPath)
    {
      calls := calls + [ToggleState(d.path)];
    }

    /** A card's `onRemove`: toggles the directory's state too, exactly as `onAdd` does. */
    method OnCardRemove(d: Directory)
      modifies this
      ensures calls == old(calls) + [ToggleState(d.path)] && directoryPath == old(directoryPath)
    {
      calls := calls + [ToggleState(d.path)];
    }

    /** A card's `onDelete`: deletes the directory. */
    method OnCardDelete(d: Directory)
      modifies this
      ensures calls == old(calls) + [DeleteDirectory(d.path)] && directoryPath == old(directoryPath)
    {
      calls := calls + [DeleteDirectory(d.path)];
    }
  }
}
