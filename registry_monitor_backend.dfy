/** The registry watcher (`src-tauri/src/registry_monitor.rs`): the table of watched keys with
    their stop flags, the parsing of a key path, and the cache diff that turns two snapshots of a
    key's values into UPDATED, ADDED and REMOVED events. */
module RegistryMonitorBackend {
  import opened Common
  import opened Text

  /** The five predefined registry roots a path may start with. */
  datatype RootKey = LocalMachine | CurrentUser | ClassesRoot | Users | CurrentConfig

  function RootName(r: RootKey): string {
    match r
    case LocalMachine => "HKEY_LOCAL_MACHINE"
    case CurrentUser => "HKEY_CURRENT_USER"
    case ClassesRoot => "HKEY_CLASSES_ROOT"
    case Users => "HKEY_USERS"
    case CurrentConfig => "HKEY_CURRENT_CONFIG"
  }

  /** The root a name denotes, if it is one of the five. */
  function RootFromName(s: string): (r: Option<RootKey>)
    ensures r.Some? ==> RootName(r.value) == s
    ensures r.None? ==> forall k: RootKey :: RootName(k) != s
  {
    if s == "HKEY_LOCAL_MACHINE" then Some(LocalMachine)
    else if s == "HKEY_CURRENT_USER" then Some(CurrentUser)
    else if s == "HKEY_CLASSES_ROOT" then Some(ClassesRoot)
    else if s == "HKEY_USERS" then Some(Users)
    else if s == "HKEY_CURRENT_CONFIG" then Some(CurrentConfig)
    else None
  }

  /** A parsed key path: a root and the sub-key below it. */
  datatype KeyPath = KeyPath(root: RootKey, subkey: string)

  /** The parsing half of `open_registry_key`: split at the first backslash, look the root up. */
  function ParseKeyPath(path: string): (r: Result<KeyPath>)
    ensures '\\' !in path ==> r == Err("Invalid registry key path")
    ensures r.Ok? ==> path == RootName(r.value.root) + "\\" + r.value.subkey
  {
    if '\\' !in path then Err("Invalid registry key path")
    else
      var pos := FirstIndexOf(path, '\\');
      var root := path[..pos];
      match RootFromName(root)
      case None => Err("Unknown root key '" + root + "'")
      case Some(rk) =>
        assert path == path[..pos] + "\\" + path[pos + 1..];
        Ok(KeyPath(rk, path[pos + 1..]))
  }

  /** Writing a key path and parsing it gives the same root and sub-key back, whatever the
      sub-key holds (further backslashes included). */
  lemma ParseKeyPathRoundTrip(k: KeyPath)
    ensures ParseKeyPath(RootName(k.root) + "\\" + k.subkey) == Ok(k)
  {
    RootNameRoundTrip(k.root);
    FirstIndexAfterHead(RootName(k.root), '\\', k.subkey);
  }

  /** Every root name is read back as its root and holds no backslash. */
  lemma RootNameRoundTrip(r: RootKey)
    ensures RootFromName(RootName(r)) == Some(r)
    ensures '\\' !in RootName(r)
  {
  }

  /** A first segment that is not one of the five roots is reported by name. */
  lemma UnknownRootRejected(root: string, rest: string)
    requires '\\' !in root
    requires forall k: RootKey :: RootName(k) != root
    ensures ParseKeyPath(root + "\\" + rest) == Err("Unknown root key '" + root + "'")
  {
    var path := root + "\\" + rest;
    assert path[|root|] == '\\';
    assert path[..|root|] == root;
    assert FirstIndexOf(path, '\\') == |root|;
  }

  /** `open_registry_key`; `openSubkey(k)` is the error text of the operating system's open
      call, `None` when it succeeds. */
  function OpenRegistryKey(path: string, openSubkey: KeyPath -> Option<string>): (r: Result<KeyPath>)
    ensures r.Ok? <==> ParseKeyPath(path).Ok? && openSubkey(ParseKeyPath(path).value).None?
    ensures r.Ok? ==> r == ParseKeyPath(path)
    ensures ParseKeyPath(path).Err? ==> r == ParseKeyPath(path)
    ensures ParseKeyPath(path).Ok? && openSubkey(ParseKeyPath(path).value).Some? ==>
      r.error == "Failed to open registry key '" + path + "': " + openSubkey(ParseKeyPath(path).value).value
  {
    match ParseKeyPath(path)
    case Err(e) => Err(e)
    case Ok(k) =>
      match openSubkey(k)
      case Some(e) => Err("Failed to open registry key '" + path + "': " + e)
      case None => Ok(k)
  }

  // ---------------------------------------------------------------------------------------------
  // Value data

  /** The two lossy text decoders `clean_registry_data` relies on. */
  datatype Decoders = Decoders(utf16Lossy: seq<int> -> string, utf8Lossy: seq<Byte> -> string)

  /** `chunks_exact(2)` read as little-endian 16-bit units; an odd last byte is dropped. */
  function Utf16Units(data: seq<Byte>): (units: seq<int>)
    ensures |units| == |data| / 2
    ensures forall i :: 0 <= i < |units| ==> units[i] == data[2 * i] as int + 256 * (data[2 * i + 1] as int)
  {
    if |data| < 2 then []
    else
      var unit := data[0] as int + 256 * (data[1] as int);
      [unit] + Utf16Units(data[2..])
  }

  /** `trim_start_matches('\0')`. */
  function TrimNulStart(s: string): (r: string)
    ensures |r| <= |s| && r == s[|s| - |r|..]
    ensures r != [] ==> r[0] != '\0'
    ensures forall i :: 0 <= i < |s| - |r| ==> s[i] == '\0'
  {
    if s != [] && s[0] == '\0' then TrimNulStart(s[1..]) else s
  }

  /** `trim_end_matches('\0')`. */
  function TrimNulEnd(s: string): (r: string)
    ensures |r| <= |s| && r == s[..|r|]
    ensures r != [] ==> r[|r| - 1] != '\0'
    ensures forall i :: |r| <= i < |s| ==> s[i] == '\0'
  {
    if s != [] && s[|s| - 1] == '\0' then TrimNulEnd(s[..|s| - 1]) else s
  }

  /** A text that neither starts nor ends with a NUL. */
  predicate NulTrimmed(r: string) {
    r == [] || (r[0] != '\0' && r[|r| - 1] != '\0')
  }

  /** `trim_matches('\0')`: drops NUL characters from both ends and nothing else. */
  function TrimNul(s: string): (r: string)
    ensures NulTrimmed(r)
  {
    TrimNulEnd(TrimNulStart(s))
  }

  /** `clean_registry_data`: the data read as UTF-16 unless that text is blank (its `trim()` is
      empty, see `Text.TrimEmptyIffBlank`), in which case it is read as UTF-8; NULs are trimmed
      from both ends either way. */
  function CleanRegistryData(data: seq<Byte>, dec: Decoders): (r: string)
    ensures NulTrimmed(r)
  {
    var wide := TrimNul(dec.utf16Lossy(Utf16Units(data)));
    if AllWhitespace(wide) then TrimNul(dec.utf8Lossy(data)) else wide
  }

  // ---------------------------------------------------------------------------------------------
  // The cache diff

  /** The cleaning the watcher applies to every value's bytes. */
  function Cleaner(dec: Decoders): (clean: seq<Byte> -> string)
    ensures forall b :: clean(b) == CleanRegistryData(b, dec)
  {
    b => CleanRegistryData(b, dec)
  }

  /** A cached value: its raw bytes and their cleaned text. */
  datatype Cached = Cached(bytes: seq<Byte>, data: string)

  /** One event of the diff; `name` is the value's name inside the watched key. */
  datatype ValueChange =
    | Updated(name: string, oldData: string, newData: string)
    | Added(name: string, newData: string)
    | Removed(name: string, oldData: string)

  /** The first line of an event text: "<TYPE>: Value '<name>' in registry key '<key>'". */
  function HeaderLine(kind: string, name: string, key: string): string {
    kind + ": Value '" + name + "' in registry key '" + key + "'"
  }

  /** A data line of an event text: "<label>: '<data>'". */
  function DataLine(tag: string, data: string): string {
    tag + ": '" + data + "'"
  }

  /** The text emitted on "registry-change-event" for a change under `key`: the header line,
      then the previous and/or the new data, one line each. */
  function ChangeText(key: string, c: ValueChange): string {
    match c
    case Updated(n, o, d) =>
      HeaderLine("UPDATED", n, key) + "\n" + DataLine("Previous Data", o) + "\n" + DataLine("New Data", d)
    case Added(n, d) =>
      HeaderLine("ADDED", n, key) + "\n" + DataLine("New Data", d)
    case Removed(n, o) =>
      HeaderLine("REMOVED", n, key) + "\n" + DataLine("Previous Data", o)
  }

  /** The cache entry a current value is stored under. */
  function Fresh(bytes: seq<Byte>, clean: seq<Byte> -> string): Cached {
    Cached(bytes, clean(bytes))
  }

  /** The cache after a pass over the current values. */
  function Refreshed(current: map<string, seq<Byte>>, clean: seq<Byte> -> string): map<string, Cached> {
    map n | n in current :: Fresh(current[n], clean)
  }

  /** The changes a pass reports: every current value whose bytes differ from the cached ones,
      every current value not cached, every cached value no longer present. */
  predicate IsExpected(cache: map<string, Cached>, current: map<string, seq<Byte>>, clean: seq<Byte> -> string, c: ValueChange) {
    match c
    case Updated(n, o, d) =>
      n in current && n in cache && cache[n].bytes != current[n] && o == cache[n].data && d == clean(current[n])
    case Added(n, d) => n in current && n !in cache && d == clean(current[n])
    case Removed(n, o) => n in cache && n !in current && o == cache[n].data
  }

  /** `cs` lists every change of the pass exactly once. */
  ghost predicate Enumerates(cs: seq<ValueChange>, cache: map<string, Cached>, current: map<string, seq<Byte>>, clean: seq<Byte> -> string) {
    (forall c :: c in cs <==> IsExpected(cache, current, clean, c)) &&
    (forall i, j :: 0 <= i < j < |cs| ==> cs[i] != cs[j])
  }

  /** Every value name that differs between the cache and the current values has a change, and
      two changes of one pass about the same name are the same change. */
  lemma OneChangePerName(cache: map<string, Cached>, current: map<string, seq<Byte>>, clean: seq<Byte> -> string, n: string)
    ensures (n in current && (n !in cache || cache[n].bytes != current[n])) || (n in cache && n !in current) <==>
      exists c: ValueChange :: c.name == n && IsExpected(cache, current, clean, c)
    ensures forall c1: ValueChange, c2: ValueChange :: IsExpected(cache, current, clean, c1) && IsExpected(cache, current, clean, c2) && c1.name == n && c2.name == n ==> c1 == c2
  {
    if n in current && n in cache && cache[n].bytes != current[n] {
      assert IsExpected(cache, current, clean, Updated(n, cache[n].data, clean(current[n])));
    } else if n in current && n !in cache {
      assert IsExpected(cache, current, clean, Added(n, clean(current[n])));
    } else if n in cache && n !in current {
      assert IsExpected(cache, current, clean, Removed(n, cache[n].data));
    }
  }

  /** A second pass over the same values reports nothing. */
  lemma QuietAfterPass(current: map<string, seq<Byte>>, clean: seq<Byte> -> string, c: ValueChange)
    ensures !IsExpected(Refreshed(current, clean), current, clean, c)
  {
    if c.Updated? && c.name in current {
      assert Refreshed(current, clean)[c.name].bytes == current[c.name];
    }
  }

  /** The first half of a diff pass: every current value is compared with the cache (UPDATED
      when its bytes changed, ADDED when it was not cached) and then stored. */
  method StoreCurrent(cache: map<string, Cached>, current: map<string, seq<Byte>>, clean: seq<Byte> -> string)
    returns (next: map<string, Cached>, changes: seq<ValueChange>)
    ensures next.Keys == cache.Keys + current.Keys
    ensures forall n :: n in current ==> next[n] == Fresh(current[n], clean)
    ensures forall n :: n in cache && n !in current ==> next[n] == cache[n]
    ensures forall c :: c in changes <==> IsExpected(cache, current, clean, c) && c.name in current
    ensures forall i, j :: 0 <= i < j < |changes| ==> changes[i] != changes[j]
  {
    next := cache;
    changes := [];
    var todo := current.Keys;
    while todo != {}
      invariant StoreProgress(cache, current, clean, todo, next, changes)
      decreases todo
    {
      var n :| n in todo;
      StoreStep(cache, current, clean, todo, next, changes, n);
      ghost var before := changes;
      var newData := clean(current[n]);
      if n in next && next[n].bytes != current[n] {
        changes := changes + [Updated(n, next[n].data, newData)];
      } else if n !in next {
        changes := changes + [Added(n, newData)];
      }
      assert changes == before + ChangeFor(cache, current, clean, n);
      next := next[n := Fresh(current[n], clean)];
      todo := todo - {n};
    }
  }

  /** The change the comparison reports for current value `n`: UPDATED when its bytes differ
      from the cached ones, ADDED when it is not cached, nothing when it is unchanged. */
  function ChangeFor(cache: map<string, Cached>, current: map<string, seq<Byte>>, clean: seq<Byte> -> string, n: string): seq<ValueChange>
    requires n in current
  {
    if n in cache && cache[n].bytes != current[n] then [Updated(n, cache[n].data, clean(current[n]))]
    else if n !in cache then [Added(n, clean(current[n]))]
    else []
  }

  /** The loop invariant of `StoreCurrent`: the names outside `todo` are stored and reported,
      those inside still hold their cached entries. */
  ghost predicate StoreProgress(cache: map<string, Cached>, current: map<string, seq<Byte>>, clean: seq<Byte> -> string,
                                todo: set<string>, next: map<string, Cached>, changes: seq<ValueChange>) {
    todo <= current.Keys &&
    next.Keys == cache.Keys + (current.Keys - todo) &&
    (forall n :: n in current && n !in todo ==> next[n] == Fresh(current[n], clean)) &&
    (forall n :: n in cache && (n !in current || n in todo) ==> next[n] == cache[n]) &&
    (forall c :: c in changes <==> IsExpected(cache, current, clean, c) && c.name in current && c.name !in todo) &&
    (forall i, j :: 0 <= i < j < |changes| ==> changes[i] != changes[j])
  }

  /** Comparing and storing one more name keeps the invariant. */
  lemma StoreStep(cache: map<string, Cached>, current: map<string, seq<Byte>>, clean: seq<Byte> -> string,
                  todo: set<string>, next: map<string, Cached>, changes: seq<ValueChange>, n: string)
    requires StoreProgress(cache, current, clean, todo, next, changes) && n in todo
    ensures n in next <==> n in cache
    ensures n in next ==> next[n] == cache[n]
    ensures StoreProgress(cache, current, clean, todo - {n}, next[n := Fresh(current[n], clean)],
                          changes + ChangeFor(cache, current, clean, n))
  {
    OneChangePerName(cache, current, clean, n);
    var cs := changes + ChangeFor(cache, current, clean, n);
    forall c ensures c in cs <==> IsExpected(cache, current, clean, c) && c.name in current && c.name !in todo - {n} {
      if c.name == n && IsExpected(cache, current, clean, c) {
        assert c in ChangeFor(cache, current, clean, n);
      }
    }
  }

  /** The second half of a diff pass: a scan over a copy of the cache reports and drops every
      value that is no longer present. */
  method DropMissing(cache: map<string, Cached>, current: map<string, seq<Byte>>, clean: seq<Byte> -> string,
                     snapshot: map<string, Cached>)
    returns (next: map<string, Cached>, changes: seq<ValueChange>)
    requires snapshot.Keys == cache.Keys + current.Keys
    requires forall n :: n in cache && n !in current ==> snapshot[n] == cache[n]
    ensures next.Keys == current.Keys
    ensures forall n :: n in next ==> next[n] == snapshot[n]
    ensures forall c :: c in changes <==> IsExpected(cache, current, clean, c) && c.name !in current
    ensures forall i, j :: 0 <= i < j < |changes| ==> changes[i] != changes[j]
  {
    next := snapshot;
    changes := [];
    var scan := snapshot.Keys;
    while scan != {}
      invariant DropProgress(cache, current, clean, snapshot, scan, next, changes)
      decreases scan
    {
      var n :| n in scan;
      DropStep(cache, current, clean, snapshot, scan, next, changes, n);
      if n !in current {
        changes := changes + [Removed(n, snapshot[n].data)];
        next := next - {n};
      }
      scan := scan - {n};
    }
  }

  /** The loop invariant of `DropMissing`: the names outside `scan` that are not current are
      dropped and reported, everything else still holds its snapshot entry. */
  ghost predicate DropProgress(cache: map<string, Cached>, current: map<string, seq<Byte>>, clean: seq<Byte> -> string,
                               snapshot: map<string, Cached>, scan: set<string>, next: map<string, Cached>, changes: seq<ValueChange>) {
    scan <= snapshot.Keys &&
    next.Keys == current.Keys + scan &&
    (forall n :: n in next ==> n in snapshot && next[n] == snapshot[n]) &&
    (forall c :: c in changes <==> IsExpected(cache, current, clean, c) && c.name !in current && c.name !in scan) &&
    (forall i, j :: 0 <= i < j < |changes| ==> changes[i] != changes[j])
  }

  /** Scanning one more name keeps the invariant. */
  lemma DropStep(cache: map<string, Cached>, current: map<string, seq<Byte>>, clean: seq<Byte> -> string,
                 snapshot: map<string, Cached>, scan: set<string>, next: map<string, Cached>, changes: seq<ValueChange>, n: string)
    requires snapshot.Keys == cache.Keys + current.Keys
    requires forall n :: n in cache && n !in current ==> snapshot[n] == cache[n]
    requires DropProgress(cache, current, clean, snapshot, scan, next, changes) && n in scan && n in snapshot
    ensures n !in current ==> DropProgress(cache, current, clean, snapshot, scan - {n}, next - {n},
                                           changes + [Removed(n, snapshot[n].data)])
    ensures n in current ==> DropProgress(cache, current, clean, snapshot, scan - {n}, next, changes)
  {
    OneChangePerName(cache, current, clean, n);
    if n !in current {
      assert IsExpected(cache, current, clean, Removed(n, snapshot[n].data));
    }
  }

  /** One diff pass of `monitor_registry_key`: afterwards the cache holds exactly the current
      values, and the changes list every difference once. Names are visited in whatever order
      the maps yield them. */
  method ComparePass(cache: map<string, Cached>, current: map<string, seq<Byte>>, clean: seq<Byte> -> string)
    returns (next: map<string, Cached>, changes: seq<ValueChange>)
    ensures next.Keys == current.Keys
    ensures forall n :: n in next ==> next[n].bytes == current[n] && next[n].data == clean(current[n])
    ensures next == Refreshed(current, clean)
    ensures Enumerates(changes, cache, current, clean)
  {
    var stored, updates := StoreCurrent(cache, current, clean);
    var removals;
    next, removals := DropMissing(cache, current, clean, stored);
    changes := updates + removals;
    forall c | IsExpected(cache, current, clean, c)
      ensures c in changes
    {
      if c.name in current {
        assert c in updates;
      } else {
        assert c in removals;
      }
    }
    assert next == Refreshed(current, clean);
  }

  // ---------------------------------------------------------------------------------------------
  // The watching loop

  /** One value as enumerated; `None` is an enumeration error, which is skipped. */
  datatype Entry = Entry(name: string, bytes: seq<Byte>)

  /** The cache built from the first enumeration, later entries overwriting earlier ones. */
  function InitialCache(entries: seq<Option<Entry>>, clean: seq<Byte> -> string): (c: map<string, Cached>)
    ensures forall n :: n in c <==> exists i :: 0 <= i < |entries| && entries[i].Some? && entries[i].value.name == n
  {
    if entries == [] then map[]
    else
      var n := |entries| - 1;
      var c := InitialCache(entries[..n], clean);
      assert forall i :: 0 <= i < n ==> entries[..n][i] == entries[i];
      match entries[n]
      case None => c
      case Some(e) => c[e.name := Fresh(e.bytes, clean)]
  }

  /** The initial population loop. */
  method PopulateCache(entries: seq<Option<Entry>>, clean: seq<Byte> -> string) returns (cache: map<string, Cached>)
    ensures cache == InitialCache(entries, clean)
  {
    cache := map[];
    for i := 0 to |entries|
      invariant cache == InitialCache(entries[..i], clean)
    {
      assert entries[..i + 1][..i] == entries[..i];
      if entries[i].Some? {
        cache := cache[entries[i].value.name := Fresh(entries[i].value.bytes, clean)];
      }
    }
    assert entries[..|entries|] == entries;
  }

  /** What one turn of the watching loop observes: whether both the key's flag and the global
      flag are set before it starts, whether the change notification could be registered,
      whether both flags are still set after the half-second sleep, and the values then read. */
  datatype Round = Round(running: bool, notified: bool, runningAfterSleep: bool, values: map<string, seq<Byte>>)

  /** The inputs of one diff pass: the cache before it and the values it read. */
  datatype PassInput = PassInput(before: map<string, Cached>, current: map<string, seq<Byte>>)

  /** The diff passes a run of the loop makes. A failed notification goes straight back to the
      loop test; a flag found cleared, before or after the sleep, ends the loop. */
  function RunPasses(cache: map<string, Cached>, rounds: seq<Round>, clean: seq<Byte> -> string): seq<PassInput>
    decreases |rounds|
  {
    if rounds == [] || !rounds[0].running then []
    else if !rounds[0].notified then RunPasses(cache, rounds[1..], clean)
    else if !rounds[0].runningAfterSleep then []
    else [PassInput(cache, rounds[0].values)] + RunPasses(Refreshed(rounds[0].values, clean), rounds[1..], clean)
  }

  /** The cache when the run ends. */
  function RunCache(cache: map<string, Cached>, rounds: seq<Round>, clean: seq<Byte> -> string): map<string, Cached>
    decreases |rounds|
  {
    if rounds == [] || !rounds[0].running then cache
    else if !rounds[0].notified then RunCache(cache, rounds[1..], clean)
    else if !rounds[0].runningAfterSleep then cache
    else RunCache(Refreshed(rounds[0].values, clean), rounds[1..], clean)
  }

  /** The passes `ps` chain from `cache` to `final`: the first starts from `cache`, each later one
      from the cache its predecessor leaves, and `final` is the cache the last one leaves (or
      `cache` itself when there is no pass). */
  ghost predicate Chain(cache: map<string, Cached>, ps: seq<PassInput>, final: map<string, Cached>, clean: seq<Byte> -> string) {
    (ps == [] ==> final == cache) &&
    (ps != [] ==> ps[0].before == cache && final == Refreshed(ps[|ps| - 1].current, clean)) &&
    (forall j :: 0 < j < |ps| ==> ps[j].before == Refreshed(ps[j - 1].current, clean))
  }

  /** Each pass starts from the cache the previous pass left, and the run ends with the cache of
      the last pass: the latest values read, or the initial cache when no pass happened. */
  lemma {:induction false} RunChains(cache: map<string, Cached>, rounds: seq<Round>, clean: seq<Byte> -> string)
    ensures Chain(cache, RunPasses(cache, rounds, clean), RunCache(cache, rounds, clean), clean)
    decreases |rounds|
  {
    if rounds == [] || !rounds[0].running {
    } else if !rounds[0].notified {
      RunChains(cache, rounds[1..], clean);
    } else if !rounds[0].runningAfterSleep {
    } else {
      var next := Refreshed(rounds[0].values, clean);
      RunChains(next, rounds[1..], clean);
      ChainCons(PassInput(cache, rounds[0].values), RunPasses(next, rounds[1..], clean), RunCache(next, rounds[1..], clean), clean);
    }
  }

  /** A pass put in front of a chain that starts from the cache it leaves makes a chain from the
      cache it started from. */
  lemma ChainCons(p: PassInput, rest: seq<PassInput>, final: map<string, Cached>, clean: seq<Byte> -> string)
    requires Chain(Refreshed(p.current, clean), rest, final, clean)
    ensures Chain(p.before, [p] + rest, final, clean)
  {
    var ps := [p] + rest;
    forall j | 0 < j < |ps| ensures ps[j].before == Refreshed(ps[j - 1].current, clean) {
      assert ps[j] == rest[j - 1];
    }
  }

  /** `monitor_registry_key` after the initial population, over a finite script of turns:
      returns the final cache and the changes of each pass, in order. */
  method MonitorRegistryKey(cache0: map<string, Cached>, rounds: seq<Round>, clean: seq<Byte> -> string)
    returns (cache: map<string, Cached>, passes: seq<seq<ValueChange>>)
    ensures cache == RunCache(cache0, rounds, clean)
    ensures |passes| == |RunPasses(cache0, rounds, clean)|
    ensures forall j :: 0 <= j < |passes| ==>
      Enumerates(passes[j], RunPasses(cache0, rounds, clean)[j].before, RunPasses(cache0, rounds, clean)[j].current, clean)
  {
    cache := cache0;
    passes := [];
    ghost var inputs: seq<PassInput> := [];
    var i := 0;
    while i < |rounds| && rounds[i].running
      invariant 0 <= i <= |rounds|
      invariant RunCache(cache0, rounds, clean) == RunCache(cache, rounds[i..], clean)
      invariant RunPasses(cache0, rounds, clean) == inputs + RunPasses(cache, rounds[i..], clean)
      invariant |passes| == |inputs|
      invariant forall j :: 0 <= j < |passes| ==> Enumerates(passes[j], inputs[j].before, inputs[j].current, clean)
    {
      assert rounds[i..][1..] == rounds[i + 1..];
      if !rounds[i].notified {
        i := i + 1;
        continue;
      }
      if !rounds[i].runningAfterSleep {
        break;
      }
      var next, changes := ComparePass(cache, rounds[i].values, clean);
      inputs := inputs + [PassInput(cache, rounds[i].values)];
      passes := passes + [changes];
      cache := next;
      i := i + 1;
    }
  }

  // ---------------------------------------------------------------------------------------------
  // The table of watched keys

  /** The stop flag shared between the table and a key's watching thread. */
  class KeyFlag {
    var running: bool

    constructor(running: bool)
      ensures this.running == running
    {
      this.running := running;
    }
  }

  /** `RegistryMonitor`: the watched keys, each with its own flag, and the global flag. */
  class RegistryMonitor {
    var monitoredKeys: map<string, KeyFlag>
    var running: bool

    /** No two keys share a flag. */
    ghost predicate Valid()
      reads this
    {
      forall k1, k2 :: k1 in monitoredKeys && k2 in monitoredKeys && k1 != k2 ==> monitoredKeys[k1] != monitoredKeys[k2]
    }

    constructor()
      ensures Valid() && monitoredKeys == map[] && !running
    {
      monitoredKeys := map[];
      running := false;
    }

    function IsRunning(): bool
      reads this
    {
      running
    }

    /** `start_monitoring`: refuses when already running. */
    method StartMonitoring() returns (r: Result<()>)
      modifies this
      ensures old(running) ==> r == Err("Registry monitoring already started")
      ensures !old(running) ==> r == Ok(())
      ensures running && monitoredKeys == old(monitoredKeys)
    {
      if running {
        return Err("Registry monitoring already started");
      }
      running := true;
      r := Ok(());
    }

    /** `stop_monitoring`: refuses when not running; otherwise clears the global flag, empties
        the table and clears the flag of every key it held. */
    method StopMonitoring() returns (r: Result<()>)
      modifies this, monitoredKeys.Values
      ensures !old(running) ==> r == Err("Registry monitoring not started") && monitoredKeys == old(monitoredKeys)
      ensures !old(running) ==> forall k :: k in monitoredKeys ==> monitoredKeys[k].running == old(monitoredKeys[k].running)
      ensures old(running) ==> r == Ok(()) && !running && monitoredKeys == map[]
      ensures old(running) ==> forall k :: k in old(monitoredKeys) ==> !old(monitoredKeys)[k].running
      requires Valid()
      ensures Valid()
    {
      if !running {
        return Err("Registry monitoring not started");
      }
      running := false;
      var drained := monitoredKeys;
      monitoredKeys := map[];
      var todo := drained.Keys;
      while todo != {}
        invariant todo <= drained.Keys
        invariant forall k :: k in drained && k !in todo ==> !drained[k].running
        invariant !running && monitoredKeys == map[]
        decreases todo
      {
        var k :| k in todo;
        drained[k].running := false;
        todo := todo - {k};
      }
      r := Ok(());
    }

    /** `add_registry_key`: opens the key first, then refuses a key already in the table, then
        adds it with a set flag. */
    method AddRegistryKey(keyPath: string, openSubkey: KeyPath -> Option<string>) returns (r: Result<()>)
      requires Valid()
      modifies this
      ensures Valid() && running == old(running)
      ensures OpenRegistryKey(keyPath, openSubkey).Err? ==>
        r == Err(OpenRegistryKey(keyPath, openSubkey).error) && monitoredKeys == old(monitoredKeys)
      ensures OpenRegistryKey(keyPath, openSubkey).Ok? && keyPath in old(monitoredKeys) ==>
        r == Err("Key is already being monitored") && monitoredKeys == old(monitoredKeys)
      ensures r.Ok? <==> OpenRegistryKey(keyPath, openSubkey).Ok? && keyPath !in old(monitoredKeys)
      ensures r.Ok? ==> (keyPath in monitoredKeys && fresh(monitoredKeys[keyPath]) &&
                         monitoredKeys[keyPath].running && monitoredKeys - {keyPath} == old(monitoredKeys))
    {
      var key := OpenRegistryKey(keyPath, openSubkey);
      if key.Err? {
        return Err(key.error);
      }
      if keyPath in monitoredKeys {
        return Err("Key is already being monitored");
      }
      var flag := new KeyFlag(true);
      monitoredKeys := monitoredKeys[keyPath := flag];
      r := Ok(());
    }

    /** `remove_registry_key`: refuses a key not in the table; otherwise drops it and clears its
        flag, leaving every other key's flag as it was. */
    method RemoveRegistryKey(keyPath: string) returns (r: Result<()>)
      requires Valid()
      modifies this, monitoredKeys.Values
      ensures Valid() && running == old(running)
      ensures keyPath !in old(monitoredKeys) ==>
        r == Err("Key is not being monitored") && monitoredKeys == old(monitoredKeys)
      ensures keyPath in old(monitoredKeys) ==>
        r == Ok(()) && monitoredKeys == old(monitoredKeys) - {keyPath} && !old(monitoredKeys)[keyPath].running
      ensures forall k :: k in monitoredKeys ==> monitoredKeys[k].running == old(monitoredKeys[k].running)
    {
      if keyPath !in monitoredKeys {
        return Err("Key is not being monitored");
      }
      var flag := monitoredKeys[keyPath];
      monitoredKeys := monitoredKeys - {keyPath};
      flag.running := false;
      r := Ok(());
    }

    /** `get_monitored_keys`: every key in the table, once each. */
    method GetMonitoredKeys() returns (keys: seq<string>)
      ensures forall k :: k in keys <==> k in monitoredKeys
      ensures forall i, j :: 0 <= i < j < |keys| ==> keys[i] != keys[j]
    {
      keys := [];
      var todo := monitoredKeys.Keys;
      while todo != {}
        invariant todo <= monitoredKeys.Keys
        invariant forall k :: k in keys <==> k in monitoredKeys && k !in todo
        invariant forall i, j :: 0 <= i < j < |keys| ==> keys[i] != keys[j]
        decreases todo
      {
        var k :| k in todo;
        keys := keys + [k];
        todo := todo - {k};
      }
    }
  }
}
