/** The dashboard's monitored paths card (`src/components/dashboard/MonitoredPathsCard.tsx`): the
    count of enabled directories or keys and the first ten paths, shortened. */
module MonitoredPaths {
  import opened Common
  import opened Text
  import opened Numbers
  import opened Seqs
  import opened FileMonitorContext

  const ListLimit := 10
  const PathLimit := 40

  /** `truncatePath` (called with its default limit of 40): a short path as it is; one of at most
      two segments as `...` and its tail; any other as its first and last segments around `...`. */
  function TruncatePath(path: string, maxLength: nat): string {
    if |path| <= maxLength then path
    else
      var parts := PathSegments(path);
      if |parts| <= 2 then "..." + Slice(path, -(maxLength as int), |path|)
      else parts[0] + "\\...\\" + parts[|parts| - 1]
  }

  /** A path within the limit is kept; a long one of at most two segments becomes `...` and its
      last `maxLength` characters (the whole path for a limit of 0, as `slice(-0)` is everything). */
  lemma TruncatePathShort(path: string, maxLength: nat)
    ensures |path| <= maxLength ==> TruncatePath(path, maxLength) == path
    ensures |path| > maxLength > 0 && |PathSegments(path)| <= 2 ==>
      TruncatePath(path, maxLength) == "..." + path[|path| - maxLength..] &&
      |TruncatePath(path, maxLength)| == maxLength + 3
    ensures |path| > maxLength == 0 && |PathSegments(path)| <= 2 ==> TruncatePath(path, maxLength) == "..." + path
  {
  }

  /** A long path of three or more segments, split again after shortening, is exactly its first
      segment, `...` and its last segment. */
  lemma TruncatePathSegments(path: string, maxLength: nat)
    requires |path| > maxLength && |PathSegments(path)| > 2
    ensures var parts := PathSegments(path);
      PathSegments(TruncatePath(path, maxLength)) == [parts[0], "...", parts[|parts| - 1]]
  {
    var parts := PathSegments(path);
    var n := |parts|;
    PathSegmentsClean(path);
    var a, c := parts[0], parts[n - 1];
    assert TruncatePath(path, maxLength) == a + "\\...\\" + c;
    assert a + "\\...\\" + c == a + "\\" + "..." + "\\" + c by {
      assert "\\...\\" == "\\" + "..." + "\\";
    }
    SegmentsOfJoined3(a, "...", c);
  }

  /** `enabledCount` in file mode as written: it filters on `isEnabled`, a property the context's
      directories do not have. */
  function EnabledCountAsWritten(ds: seq<Directory>): nat {
    |Filter(ds, Reads("isEnabled"))|
  }

  /** As written, the file-mode count is zero whatever the directories are. */
  lemma {:induction false} EnabledCountAsWrittenZero(ds: seq<Directory>)
    ensures EnabledCountAsWritten(ds) == 0
    decreases |ds|
  {
    if ds != [] {
      EnabledCountAsWrittenZero(ds[1..]);
    }
  }

  /** With the default directory monitored, the card as written shows 0 where 1 is meant. */
  lemma EnabledCountAsWrittenMissesOne()
    ensures EnabledCountAsWritten([Directory(DefaultDirectory, true)]) == 0
    ensures EnabledCount([Directory(DefaultDirectory, true)]) == 1
  {
    var ds := [Directory(DefaultDirectory, true)];
    EnabledCountAsWrittenZero(ds);
    assert Reads("isMonitored")(ds[0]);
    assert ds[0] in Filter(ds, Reads("isMonitored"));
  }

  /** The count the card means: the directories being monitored. */
  function EnabledCount(ds: seq<Directory>): nat {
    |Filter(ds, Reads("isMonitored"))|
  }

  /** The count is positive exactly when some directory is monitored, and equals the number of
      directories exactly when all are. */
  lemma EnabledCountBounds(ds: seq<Directory>)
    ensures EnabledCount(ds) <= |ds|
    ensures EnabledCount(ds) > 0 <==> exists i :: 0 <= i < |ds| && ds[i].isMonitored
    ensures EnabledCount(ds) == |ds| <==> forall i :: 0 <= i < |ds| ==> ds[i].isMonitored
  {
    var p := Reads("isMonitored");
    assert forall i :: 0 <= i < |ds| ==> (p(ds[i]) <==> ds[i].isMonitored);
    if exists i :: 0 <= i < |ds| && ds[i].isMonitored {
      var i :| 0 <= i < |ds| && ds[i].isMonitored;
      assert ds[i] in Filter(ds, p);
    }
    if EnabledCount(ds) > 0 {
      var d := Filter(ds, p)[0];
      assert p(d) && d in ds;
    }
    FilterKeepsAll(ds, p);
  }

  /** The two modes of the card. */
  datatype Mode = FileMode | RegistryMode

  /** An entry of `paths`: its path and whether it is drawn as enabled. */
  datatype Item = Item(path: string, isEnabled: bool)

  function DirectoryItems(ds: seq<Directory>): (r: seq<Item>)
    ensures |r| == |ds| && forall i :: 0 <= i < |ds| ==> r[i].path == ds[i].path
  {
    seq(|ds|, i requires 0 <= i < |ds| => Item(ds[i].path, Reads("isMonitored")(ds[i])))
  }

  function KeyItems(keys: seq<string>): (r: seq<Item>)
    ensures |r| == |keys| && forall i :: 0 <= i < |keys| ==> r[i].path == keys[i]
  {
    seq(|keys|, i requires 0 <= i < |keys| => Item(keys[i], true))
  }

  /** `paths`: the directories in file mode, every monitored key as an enabled item in registry
      mode. */
  function Items(mode: Mode, ds: seq<Directory>, keys: seq<string>): seq<Item> {
    if mode == FileMode then DirectoryItems(ds) else KeyItems(keys)
  }

  /** `enabledCount`: monitored directories in file mode, all keys in registry mode. */
  function EnabledCountOf(mode: Mode, ds: seq<Directory>, keys: seq<string>): nat {
    if mode == FileMode then EnabledCount(ds) else |keys|
  }

  /** Whether an item is drawn with the green dot. */
  function Shown(): Item -> bool {
    (it: Item) => it.isEnabled
  }

  lemma {:induction false} DirectoryItemsEnabled(ds: seq<Directory>)
    ensures |Filter(DirectoryItems(ds), Shown())| == EnabledCount(ds)
    decreases |ds|
  {
    if ds != [] {
      DirectoryItemsEnabled(ds[1..]);
      var items := DirectoryItems(ds);
      assert items[1..] == DirectoryItems(ds[1..]);
      assert Shown()(items[0]) == Reads("isMonitored")(ds[0]);
    }
  }

  lemma {:induction false} KeyItemsEnabled(keys: seq<string>)
    ensures |Filter(KeyItems(keys), Shown())| == |keys|
    decreases |keys|
  {
    if keys != [] {
      KeyItemsEnabled(keys[1..]);
      assert KeyItems(keys)[1..] == KeyItems(keys[1..]);
    }
  }

  /** The number in the heading is the number of items drawn as enabled, in both modes; so every
      registry key counts and is drawn enabled. */
  lemma EnabledCountMatchesItems(mode: Mode, ds: seq<Directory>, keys: seq<string>)
    ensures EnabledCountOf(mode, ds, keys) == |Filter(Items(mode, ds, keys), Shown())|
    ensures mode == RegistryMode ==> forall i :: 0 <= i < |Items(mode, ds, keys)| ==> Items(mode, ds, keys)[i].isEnabled
  {
    if mode == FileMode {
      DirectoryItemsEnabled(ds);
    } else {
      KeyItemsEnabled(keys);
    }
  }

  /** The items listed: the first ten. */
  function Listed(items: seq<Item>): seq<Item> {
    Take(items, ListLimit)
  }

  /** The `+N more` line, when there is one. */
  function MoreCount(items: seq<Item>): Option<nat> {
    if |items| > ListLimit then Some(|items| - ListLimit) else None
  }

  /** At most ten items are listed, the first ones in order; the `+N more` line appears exactly
      when there are more than ten, and the listed ones and `N` together account for every item. */
  lemma ListedAndMore(items: seq<Item>)
    ensures |Listed(items)| <= ListLimit
    ensures forall i :: 0 <= i < |Listed(items)| ==> Listed(items)[i] == items[i]
    ensures MoreCount(items).Some? <==> |items| > ListLimit
    ensures |Listed(items)| + (if MoreCount(items).Some? then MoreCount(items).value else 0) == |items|
  {
  }

  /** What the card shows. */
  datatype Card = Card(heading: string, enabledCount: nat, caption: string, emptyText: Option<string>,
                       listed: seq<Item>, more: Option<nat>)

  /** The card: heading, count and caption, the empty message when there are no paths, the first
      ten paths shortened, and the overflow count. */
  function CardOf(mode: Mode, ds: seq<Directory>, keys: seq<string>): Card {
    var items := Items(mode, ds, keys);
    var listed := Listed(items);
    Card(
      if mode == FileMode then "Monitored Directories" else "Monitored Registry Keys",
      EnabledCountOf(mode, ds, keys),
      if mode == FileMode then "of " + NatToDecimal(|ds|) + " active" else "keys",
      if items == [] then Some(if mode == FileMode then "No directories configured" else "No registry keys configured")
      else None,
      seq(|listed|, i requires 0 <= i < |listed| => Item(TruncatePath(listed[i].path, PathLimit), listed[i].isEnabled)),
      MoreCount(items))
  }

  /** The card lists each of the first ten paths, shortened, with its state; an empty list shows
      the message and nothing else. */
  lemma CardShape(mode: Mode, ds: seq<Directory>, keys: seq<string>)
    ensures var items := Items(mode, ds, keys);
      var card := CardOf(mode, ds, keys);
      |card.listed| == |Listed(items)| &&
      (forall i :: 0 <= i < |card.listed| ==>
        card.listed[i] == Item(TruncatePath(items[i].path, PathLimit), items[i].isEnabled)) &&
      (card.emptyText.Some? <==> items == []) &&
      (items == [] ==> card.listed == [] && card.more.None?)
  {
  }
}
