/** The dashboard's recent activity feed (`src/components/dashboard/RecentActivityFeed.tsx`): the
    newest file entries or registry events, coloured by action, with long paths shortened. */
module RecentActivity {
  import opened Common
  import opened Text
  import opened Numbers
  import opened Seqs
  import opened FileStore
  import opened BackendData
  import opened RegistryStore

  const FeedLimit := 50
  const PathLimit := 60

  /** The text colour classes `getActionColor` picks from, in the order of its rules. */
  datatype Color = Green | Red | Yellow | Blue | Cyan | Gray | Purple | LightGray

  /** `getActionColor`: the first rule whose word occurs in the lower-cased action. */
  function ActionColor(action: string): Color {
    var a := ToLower(action);
    if Includes(a, "create") || Includes(a, "added") then Green
    else if Includes(a, "delete") || Includes(a, "removed") then Red
    else if Includes(a, "modif") || Includes(a, "updated") then Yellow
    else if Includes(a, "rename") then Blue
    else if Includes(a, "write") then Cyan
    else if Includes(a, "unchanged") then Gray
    else if Includes(a, "subkey") then Purple
    else LightGray
  }

  /** One colour rule: any of its words selects its colour. */
  datatype Rule = Rule(words: seq<string>, color: Color)

  /** The rules as a table, in the order they are tried. */
  const Rules: seq<Rule> := [
    Rule(["create", "added"], Green), Rule(["delete", "removed"], Red), Rule(["modif", "updated"], Yellow),
    Rule(["rename"], Blue), Rule(["write"], Cyan), Rule(["unchanged"], Gray), Rule(["subkey"], Purple)]

  /** The colour of the first rule of `rules` with a word occurring in `a`, else the default. */
  function FirstMatch(rules: seq<Rule>, a: string): Color
    decreases |rules|
  {
    if rules == [] then LightGray
    else if AnyWord(rules[0].words, a) then rules[0].color
    else FirstMatch(rules[1..], a)
  }

  /** Whether one of `words` occurs in `a`. */
  predicate AnyWord(words: seq<string>, a: string)
    decreases |words|
  {
    words != [] && (Includes(a, words[0]) || AnyWord(words[1..], a))
  }

  lemma AnyWordPair(w1: string, w2: string, a: string)
    ensures AnyWord([w1, w2], a) <==> Includes(a, w1) || Includes(a, w2)
  {
    assert [w1, w2][1..] == [w2];
    AnyWordOne(w2, a);
  }

  lemma AnyWordOne(w: string, a: string)
    ensures AnyWord([w], a) <==> Includes(a, w)
  {
    assert [w][1..] == [];
    assert !AnyWord([], a);
  }

  /** `getActionColor` is the first-match reading of the rule table. */
  lemma ActionColorIsFirstMatch(action: string)
    ensures ActionColor(action) == FirstMatch(Rules, ToLower(action))
  {
    var a := ToLower(action);
    var r1 := Rules[1..];
    var r2 := r1[1..];
    var r3 := r2[1..];
    var r4 := r3[1..];
    var r5 := r4[1..];
    var r6 := r5[1..];
    assert Rules[0] == Rule(["create", "added"], Green) && r1[0] == Rule(["delete", "removed"], Red);
    assert r2[0] == Rule(["modif", "updated"], Yellow) && r3[0] == Rule(["rename"], Blue);
    assert r4[0] == Rule(["write"], Cyan) && r5[0] == Rule(["unchanged"], Gray);
    assert r6 == [Rule(["subkey"], Purple)] && r6[1..] == [];
    AnyWordPair("create", "added", a);
    AnyWordPair("delete", "removed", a);
    AnyWordPair("modif", "updated", a);
    AnyWordOne("rename", a);
    AnyWordOne("write", a);
    AnyWordOne("unchanged", a);
    AnyWordOne("subkey", a);
  }

  /** An action naming an addition is green even when it also names a subkey. */
  lemma AddedBeatsSubkey(action: string)
    requires Includes(ToLower(action), "added")
    ensures ActionColor(action) == Green
  {
  }

  /** `truncatePath` with its default limit of 60 characters. */
  function TruncatePath(path: string, maxLength: nat): string {
    if |path| <= maxLength then path
    else
      var parts := PathSegments(path);
      if |parts| <= 3 then "..." + Slice(path, -(maxLength as int), |path|)
      else parts[0] + "\\...\\" + Join(parts[|parts| - 2..], "\\")
  }

  /** A path within the limit is shown as it is; a long one with at most three segments becomes
      `...` and its last `maxLength` characters (all of it for a limit of 0, as `slice(-0)` is the
      whole string). */
  lemma TruncatePathShort(path: string, maxLength: nat)
    ensures |path| <= maxLength ==> TruncatePath(path, maxLength) == path
    ensures |path| > maxLength > 0 && |PathSegments(path)| <= 3 ==>
      TruncatePath(path, maxLength) == "..." + path[|path| - maxLength..] &&
      |TruncatePath(path, maxLength)| == maxLength + 3
    ensures |path| > maxLength == 0 && |PathSegments(path)| <= 3 ==> TruncatePath(path, maxLength) == "..." + path
  {
  }

  /** A long path with more than three segments keeps its first segment and its last two: split
      again, the result is exactly those with `...` in between. */
  lemma TruncatePathSegments(path: string, maxLength: nat)
    requires |path| > maxLength && |PathSegments(path)| > 3
    ensures var parts := PathSegments(path);
      PathSegments(TruncatePath(path, maxLength)) == [parts[0], "...", parts[|parts| - 2], parts[|parts| - 1]]
  {
    var parts := PathSegments(path);
    var n := |parts|;
    PathSegmentsClean(path);
    var last := parts[n - 2..];
    assert last == [parts[n - 2], parts[n - 1]];
    assert Join(last, "\\") == parts[n - 2] + "\\" + parts[n - 1];
    var r := parts[0] + "\\...\\" + (parts[n - 2] + "\\" + parts[n - 1]);
    assert r == parts[0] + "\\" + "..." + "\\" + parts[n - 2] + "\\" + parts[n - 1];
    SegmentsOfJoined4(parts[0], "...", parts[n - 2], parts[n - 1]);
  }

  /** Where an activity comes from. */
  datatype Source = FileSource | RegistrySource

  /** `ActivityItem`; `details` is `None` where the source leaves it undefined. */
  datatype Activity = Activity(source: Source, path: string, action: string, timestamp: string, details: Option<string>)

  /** A PID as a template literal prints it. */
  function PidText(p: Option<Pid>): string {
    match p
    case None => "undefined"
    case Some(NumPid(n)) => IntToDecimal(n)
    case Some(TextPid(s)) => s
  }

  /** `entry.process_name || \`PID: ${entry.PID}\``. */
  function EntryDetails(e: RawEntry): string {
    if e.processName.Some? && e.processName.value != "" then e.processName.value else "PID: " + PidText(e.pid)
  }

  /** A file entry's activity. A missing `Path`, `Type` or `Timestamp` reads as empty here; in
      the source it stays `undefined`, and rendering that path would throw. */
  function FileActivity(e: RawEntry): Activity {
    Activity(FileSource, OrEmpty(e.path), OrEmpty(e.kind), OrEmpty(e.timestamp), Some(EntryDetails(e)))
  }

  /** File mode: one activity per entry, in watcher, file and entry order. */
  function FileActivities(data: seq<RawWatcher>): (r: seq<Activity>)
    ensures |r| == |FileEntries(Files(data))|
    ensures forall k :: 0 <= k < |r| ==> r[k] == FileActivity(FileEntries(Files(data))[k])
  {
    var es := FileEntries(Files(data));
    seq(|es|, k requires 0 <= k < |es| => FileActivity(es[k]))
  }

  /** There are as many file activities as entries, and each names its process, or its PID when
      the process name is missing or empty. */
  lemma FileActivitiesShape(data: seq<RawWatcher>)
    ensures |FileActivities(data)| == EntryTotal(Files(data))
    ensures forall k :: 0 <= k < |FileActivities(data)| ==>
      var e := FileEntries(Files(data))[k];
      FileActivities(data)[k].details ==
        Some(if e.processName.Some? && e.processName.value != "" then e.processName.value else "PID: " + PidText(e.pid))
  {
    FileEntriesLength(Files(data));
  }

  function RegistryActivity(ev: RegistryEvent): Activity {
    Activity(RegistrySource, ev.key, ev.kind, ev.timestamp, if ev.value == "" then None else Some(ev.value))
  }

  /** Registry mode: one activity per event, in log order. */
  function RegistryActivities(events: seq<RegistryEvent>): (r: seq<Activity>)
    ensures |r| == |events| && forall k :: 0 <= k < |events| ==> r[k] == RegistryActivity(events[k])
  {
    seq(|events|, k requires 0 <= k < |events| => RegistryActivity(events[k]))
  }

  /** The newest 50 activities, newest first: a stable sort on the time `timeOf` reads from each
      timestamp, then the first 50. */
  function Newest(items: seq<Activity>, timeOf: string -> int): seq<Activity> {
    Take(SortDesc(items, ByTime(timeOf)), FeedLimit)
  }

  /** The sort key: the time of an activity's timestamp. */
  function ByTime(timeOf: string -> int): Activity -> int {
    (a: Activity) => timeOf(a.timestamp)
  }

  /** The feed holds at most 50 activities, all taken from the input, newest first; every activity
      left out is no newer than every one shown, and nothing is left out of a short input. */
  lemma NewestShape(items: seq<Activity>, timeOf: string -> int)
    ensures |Newest(items, timeOf)| == if |items| < FeedLimit then |items| else FeedLimit
    ensures forall i, j :: 0 <= i < j < |Newest(items, timeOf)| ==>
      timeOf(Newest(items, timeOf)[i].timestamp) >= timeOf(Newest(items, timeOf)[j].timestamp)
    ensures multiset(Newest(items, timeOf)) <= multiset(items)
    ensures |items| <= FeedLimit ==> multiset(Newest(items, timeOf)) == multiset(items)
    ensures forall x, y :: x in multiset(items) - multiset(Newest(items, timeOf)) && y in Newest(items, timeOf) ==>
      timeOf(x.timestamp) <= timeOf(y.timestamp)
  {
    var key := ByTime(timeOf);
    var s := SortDesc(items, key);
    assert |s| == |multiset(s)| == |items|;
    DroppedNoGreater(s, FeedLimit, key);
    var r := Take(s, FeedLimit);
    forall i, j | 0 <= i < j < |r| ensures timeOf(r[i].timestamp) >= timeOf(r[j].timestamp) {
      assert key(r[i]) >= key(r[j]);
    }
  }

  /** The two modes of the feed. */
  datatype Mode = FileMode | RegistryMode

  /** `activities`: the newest file entries or registry events. */
  function Feed(mode: Mode, data: seq<RawWatcher>, events: seq<RegistryEvent>, timeOf: string -> int): seq<Activity> {
    if mode == FileMode then Newest(FileActivities(data), timeOf) else Newest(RegistryActivities(events), timeOf)
  }
}
