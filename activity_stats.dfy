/** The dashboard's activity statistics (`src/components/dashboard/ActivityStatsCard.tsx`): file
    entries or registry events counted into fixed buckets. */
module ActivityStats {
  import opened Common
  import opened Text
  import opened BackendData
  import opened RegistryStore

  /** A statistic as shown: its label, its count and its colour class. */
  datatype StatItem = StatItem(name: string, count: nat, color: string)

  /** The file buckets, in the order they are tested. */
  datatype FileBucket = Created | Modified | Deleted | Renamed | Write | Unchanged

  /** The bucket of an entry type: the first word found in the lower-cased type, if any. */
  function FileBucketOf(kind: string): Option<FileBucket> {
    var t := ToLower(kind);
    if Includes(t, "create") then Some(Created)
    else if Includes(t, "modif") then Some(Modified)
    else if Includes(t, "delete") then Some(Deleted)
    else if Includes(t, "rename") then Some(Renamed)
    else if Includes(t, "write") then Some(Write)
    else if Includes(t, "unchanged") then Some(Unchanged)
    else None
  }

  /** The six file counters. */
  datatype FileCounts = FileCounts(created: nat, modified: nat, deleted: nat, renamed: nat, write: nat, unchangedCount: nat)

  /** One entry counted: its bucket's counter goes up by one; an entry in no bucket is not counted. */
  function CountEntry(c: FileCounts, e: RawEntry): FileCounts {
    // A missing `Type` reads as empty here; the source's `toLowerCase` call would throw instead.
    match FileBucketOf(OrEmpty(e.kind))
    case None => c
    case Some(Created) => c.(created := c.created + 1)
    case Some(Modified) => c.(modified := c.modified + 1)
    case Some(Deleted) => c.(deleted := c.deleted + 1)
    case Some(Renamed) => c.(renamed := c.renamed + 1)
    case Some(Write) => c.(write := c.write + 1)
    case Some(Unchanged) => c.(unchangedCount := c.unchangedCount + 1)
  }

  /** The counters after counting `es` in order. */
  function FileCountsOf(es: seq<RawEntry>): FileCounts
    decreases |es|
  {
    if es == [] then FileCounts(0, 0, 0, 0, 0, 0) else CountEntry(FileCountsOf(es[..|es| - 1]), es[|es| - 1])
  }

  function FileTotal(c: FileCounts): nat {
    c.created + c.modified + c.deleted + c.renamed + c.write + c.unchangedCount
  }

  /** Whether an entry lands in a bucket. */
  predicate Classified(e: RawEntry) {
    // A missing `Type` reads as empty, as in `CountEntry`.
    FileBucketOf(OrEmpty(e.kind)).Some?
  }

  /** Counting one entry raises the total by one exactly when the entry lands in a bucket. */
  lemma CountEntryTotal(c: FileCounts, e: RawEntry)
    ensures FileTotal(CountEntry(c, e)) == FileTotal(c) + (if Classified(e) then 1 else 0)
  {
  }

  /** Whether every entry lands in a bucket. */
  predicate AllClassified(es: seq<RawEntry>) {
    forall k :: 0 <= k < |es| ==> Classified(es[k])
  }

  lemma AllClassifiedSnoc(es: seq<RawEntry>)
    requires es != []
    ensures AllClassified(es) <==> AllClassified(es[..|es| - 1]) && Classified(es[|es| - 1])
  {
    var n := |es| - 1;
    if AllClassified(es[..n]) && Classified(es[n]) {
      forall k | 0 <= k < |es| ensures Classified(es[k]) {
        if k < n {
          assert es[k] == es[..n][k];
        }
      }
    }
  }

  /** Each entry is counted at most once: the counts add up to at most the number of entries, and
      to exactly that number when, and only when, every entry lands in a bucket. */
  lemma {:induction false} FileCountsTotal(es: seq<RawEntry>)
    ensures FileTotal(FileCountsOf(es)) <= |es|
    ensures FileTotal(FileCountsOf(es)) == |es| <==> AllClassified(es)
    decreases |es|
  {
    if es != [] {
      var n := |es| - 1;
      FileCountsTotal(es[..n]);
      CountEntryTotal(FileCountsOf(es[..n]), es[n]);
      AllClassifiedSnoc(es);
    }
  }

  /** One more entry counted, as the innermost loop sees it. */
  lemma FileCountsSnoc(sofar: seq<RawEntry>, es: seq<RawEntry>, k: nat)
    requires k < |es|
    ensures FileCountsOf(sofar + es[..k + 1]) == CountEntry(FileCountsOf(sofar + es[..k]), es[k])
  {
    assert (sofar + es[..k + 1])[..|sofar| + k] == sofar + es[..k];
  }

  /** The file-mode statistics: the six labels (`name`) in their fixed order with their counts. */
  function FileStatsOf(c: FileCounts): (r: seq<StatItem>)
    ensures |r| == 6
  {
    [StatItem("Created", c.created, "bg-green-500"), StatItem("Modified", c.modified, "bg-yellow-500"),
     StatItem("Deleted", c.deleted, "bg-red-500"), StatItem("Renamed", c.renamed, "bg-blue-500"),
     StatItem("Write", c.write, "bg-cyan-500"), StatItem("Unchanged", c.unchangedCount, "bg-gray-500")]
  }

  /** The registry buckets. */
  datatype RegistryBucket = Added | Updated | Removed | Subkeys

  /** The bucket of an event type: an exact upper-cased `ADDED`, `UPDATED` or `REMOVED`, else any
      type containing `SUBKEY`. */
  function RegistryBucketOf(kind: string): Option<RegistryBucket> {
    var t := ToUpper(kind);
    if t == "ADDED" then Some(Added)
    else if t == "UPDATED" then Some(Updated)
    else if t == "REMOVED" then Some(Removed)
    else if Includes(t, "SUBKEY") then Some(Subkeys)
    else None
  }

  datatype RegistryCounts = RegistryCounts(added: nat, updated: nat, removed: nat, subkeys: nat)

  function CountEvent(c: RegistryCounts, ev: RegistryEvent): RegistryCounts {
    match RegistryBucketOf(ev.kind)
    case None => c
    case Some(Added) => c.(added := c.added + 1)
    case Some(Updated) => c.(updated := c.updated + 1)
    case Some(Removed) => c.(removed := c.removed + 1)
    case Some(Subkeys) => c.(subkeys := c.subkeys + 1)
  }

  function RegistryCountsOf(events: seq<RegistryEvent>): RegistryCounts
    decreases |events|
  {
    if events == [] then RegistryCounts(0, 0, 0, 0)
    else CountEvent(RegistryCountsOf(events[..|events| - 1]), events[|events| - 1])
  }

  function RegistryTotal(c: RegistryCounts): nat {
    c.added + c.updated + c.removed + c.subkeys
  }

  /** Counting one event raises the total by at most one, and by one for each backend type. */
  lemma CountEventTotal(c: RegistryCounts, ev: RegistryEvent)
    ensures RegistryTotal(c) <= RegistryTotal(CountEvent(c, ev)) <= RegistryTotal(c) + 1
    ensures ev.kind in {"ADDED", "UPDATED", "REMOVED"} ==> RegistryTotal(CountEvent(c, ev)) == RegistryTotal(c) + 1
  {
    UpperFixed(ev.kind);
  }

  /** Each event is counted at most once, and every event of the three backend types is counted. */
  lemma {:induction false} RegistryCountsTotal(events: seq<RegistryEvent>)
    ensures RegistryTotal(RegistryCountsOf(events)) <= |events|
    ensures (forall k :: 0 <= k < |events| ==> events[k].kind in {"ADDED", "UPDATED", "REMOVED"}) ==>
      RegistryTotal(RegistryCountsOf(events)) == |events|
    decreases |events|
  {
    if events != [] {
      var n := |events| - 1;
      RegistryCountsTotal(events[..n]);
      CountEventTotal(RegistryCountsOf(events[..n]), events[n]);
      if forall k :: 0 <= k < |events| ==> events[k].kind in {"ADDED", "UPDATED", "REMOVED"} {
        assert forall k :: 0 <= k < n ==> events[..n][k] == events[k];
      }
    }
  }

  /** The backend's three type names are already upper case. */
  lemma UpperFixed(kind: string)
    ensures kind in {"ADDED", "UPDATED", "REMOVED"} ==> ToUpper(kind) == kind
  {
    if kind in {"ADDED", "UPDATED", "REMOVED"} {
      UpperUnchanged(kind);
    }
  }

  /** The registry-mode statistics: the four labels in their fixed order with their counts. */
  function RegistryStatsOf(c: RegistryCounts): (r: seq<StatItem>)
    ensures |r| == 4
  {
    [StatItem("Added", c.added, "bg-green-500"), StatItem("Updated", c.updated, "bg-yellow-500"),
     StatItem("Removed", c.removed, "bg-red-500"), StatItem("Subkeys", c.subkeys, "bg-purple-500")]
  }

  /** `totalEvents`: the counts summed. */
  function TotalEvents(stats: seq<StatItem>): nat
    decreases |stats|
  {
    if stats == [] then 0 else TotalEvents(stats[..|stats| - 1]) + stats[|stats| - 1].count
  }

  /** The total of the file statistics is the sum of the six counters. */
  lemma FileStatsSum(c: FileCounts)
    ensures TotalEvents(FileStatsOf(c)) == FileTotal(c)
  {
    var f := FileStatsOf(c);
    assert f[..1][..0] == [] && f[..2][..1] == f[..1] && f[..3][..2] == f[..2];
    assert f[..4][..3] == f[..3] && f[..5][..4] == f[..4] && f[..6][..5] == f[..5] && f[..6] == f;
    assert TotalEvents(f[..1]) == c.created;
    assert TotalEvents(f[..2]) == c.created + c.modified;
    assert TotalEvents(f[..3]) == c.created + c.modified + c.deleted;
    assert TotalEvents(f[..4]) == c.created + c.modified + c.deleted + c.renamed;
    assert TotalEvents(f[..5]) == c.created + c.modified + c.deleted + c.renamed + c.write;
  }

  /** The total of the registry statistics is the sum of the four counters. */
  lemma RegistryStatsSum(c: RegistryCounts)
    ensures TotalEvents(RegistryStatsOf(c)) == RegistryTotal(c)
  {
    var g := RegistryStatsOf(c);
    assert g[..1][..0] == [] && g[..2][..1] == g[..1] && g[..3][..2] == g[..2] && g[..4][..3] == g[..3] && g[..4] == g;
    assert TotalEvents(g[..1]) == c.added;
    assert TotalEvents(g[..2]) == c.added + c.updated;
    assert TotalEvents(g[..3]) == c.added + c.updated + c.removed;
  }

  /** The file total shown is the sum of the six buckets, so never more than the entries, and
      exactly the number of entries when every entry lands in a bucket. */
  lemma FileTotalBound(es: seq<RawEntry>)
    ensures TotalEvents(FileStatsOf(FileCountsOf(es))) <= |es|
    ensures TotalEvents(FileStatsOf(FileCountsOf(es))) == |es| <==> AllClassified(es)
  {
    var c := FileCountsOf(es);
    FileCountsTotal(es);
    FileStatsSum(c);
  }

  /** The registry total shown is never more than the events, and equals their number when
      every event has one of the backend's three types. */
  lemma RegistryTotalBound(events: seq<RegistryEvent>)
    ensures TotalEvents(RegistryStatsOf(RegistryCountsOf(events))) <= |events|
    ensures (forall k :: 0 <= k < |events| ==> events[k].kind in {"ADDED", "UPDATED", "REMOVED"}) ==>
      TotalEvents(RegistryStatsOf(RegistryCountsOf(events))) == |events|
  {
    var c := RegistryCountsOf(events);
    RegistryCountsTotal(events);
    RegistryStatsSum(c);
  }

  /** The `forEach` callback for one entry: the counter of the first word found goes up. */
  method TallyEntry(counts: FileCounts, e: RawEntry) returns (r: FileCounts)
    ensures r == CountEntry(counts, e)
    ensures FileTotal(r) == FileTotal(counts) + (if Classified(e) then 1 else 0)
  {
    r := counts;
    // A missing `Type` reads as empty, where `entry.Type.toLowerCase()` would throw.
    var kind := ToLower(OrEmpty(e.kind));
    if Includes(kind, "create") {
      r := r.(created := r.created + 1);
    } else if Includes(kind, "modif") {
      r := r.(modified := r.modified + 1);
    } else if Includes(kind, "delete") {
      r := r.(deleted := r.deleted + 1);
    } else if Includes(kind, "rename") {
      r := r.(renamed := r.renamed + 1);
    } else if Includes(kind, "write") {
      r := r.(write := r.write + 1);
    } else if Includes(kind, "unchanged") {
      r := r.(unchangedCount := r.unchangedCount + 1);
    }
  }

  /** The file-mode `stats`: every entry of every file of every watcher counted in order. */
  method FileStats(data: seq<RawWatcher>) returns (stats: seq<StatItem>)
    ensures stats == FileStatsOf(FileCountsOf(FileEntries(Files(data))))
  {
    var counts := FileCounts(0, 0, 0, 0, 0, 0);
    for i := 0 to |data|
      invariant counts == FileCountsOf(FileEntries(Files(data[..i])))
    {
      var fs := data[i].files;
      var before := Files(data[..i]);
      assert before + fs[..0] == before;
      for j := 0 to |fs|
        invariant counts == FileCountsOf(FileEntries(before + fs[..j]))
      {
        var es := fs[j].entries;
        var sofar := FileEntries(before + fs[..j]);
        assert sofar + es[..0] == sofar;
        for k := 0 to |es|
          invariant counts == FileCountsOf(sofar + es[..k])
        {
          FileCountsSnoc(sofar, es, k);
          counts := TallyEntry(counts, es[k]);
        }
        assert es[..|es|] == es;
        FileEntriesStep(before, fs, j);
      }
      assert fs[..|fs|] == fs;
      assert data[..i + 1][..i] == data[..i];
    }
    assert data[..|data|] == data;
    stats := FileStatsOf(counts);
  }

  /** The registry-mode `stats`: every event counted in log order. */
  method RegistryStats(events: seq<RegistryEvent>) returns (stats: seq<StatItem>)
    ensures stats == RegistryStatsOf(RegistryCountsOf(events))
  {
    var counts := RegistryCounts(0, 0, 0, 0);
    for i := 0 to |events|
      invariant counts == RegistryCountsOf(events[..i])
    {
      assert events[..i + 1][..i] == events[..i];
      var kind := ToUpper(events[i].kind);
      if kind == "ADDED" {
        counts := counts.(added := counts.added + 1);
      } else if kind == "UPDATED" {
        counts := counts.(updated := counts.updated + 1);
      } else if kind == "REMOVED" {
        counts := counts.(removed := counts.removed + 1);
      } else if Includes(kind, "SUBKEY") {
        counts := counts.(subkeys := counts.subkeys + 1);
      }
    }
    assert events[..|events|] == events;
    stats := RegistryStatsOf(counts);
  }
}
