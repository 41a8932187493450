/** The earlier registry watcher (`src-tauri/src/registry_monitor_prototype.rs`): one cache of raw
    bytes per key, updated value by value while the key is enumerated, then a scan for values that
    disappeared; a failed change notification ends the watch with an error. */
module RegistryPrototype {
  import opened Common
  import opened Text
  import opened Numbers

  /** One value as enumerated; `None` is an enumeration error, which is skipped. */
  datatype Entry = Entry(name: string, bytes: seq<Byte>)

  /** `format!("{:?}", bytes)` for a byte vector: the decimal bytes in brackets. */
  function DebugBytes(b: seq<Byte>): (r: string)
    ensures |r| >= 2 && r[0] == '[' && r[|r| - 1] == ']'
  {
    "[" + Join(seq(|b|, i requires 0 <= i < |b| => NatToDecimal(b[i])), ", ") + "]"
  }

  /** The text logged for a value's data: the bytes as UTF-8 when they are valid UTF-8 (`utf8`
      answers `None` otherwise), else their debug form. */
  function DataText(b: seq<Byte>, utf8: seq<Byte> -> Option<string>): (r: string)
    ensures utf8(b).Some? ==> r == utf8(b).value
    ensures utf8(b).None? ==> r == DebugBytes(b)
  {
    match utf8(b)
    case Some(t) => t
    case None => DebugBytes(b)
  }

  /** One `info!` line of the watcher. */
  datatype LogLine =
    | Updated(name: string, oldData: string, newData: string)
    | Added(name: string, data: string)
    | Removed(name: string, oldData: string)

  /** A line of the shape `<kind>Value '<field>'<rest>`, the shape all three lines share. */
  function Line(kind: string, field: string, rest: string): string {
    kind + "Value '" + field + "'" + rest
  }

  /** The lines as the source formats them: the UPDATED and ADDED lines pass the key's path where
      the value's name belongs and the other way round. */
  function LogTextAsWritten(key: string, l: LogLine): string {
    match l
    case Updated(n, o, d) =>
      Line("UPDATED: ", key, " in registry key '" + n + "' was changed. Previous Data: '" + o + "' -> New Data: '" + d + "'")
    case Added(n, d) =>
      Line("ADDED: ", key, " was added to registry key '" + n + "'. Data: '" + d + "'")
    case Removed(n, o) =>
      Line("REMOVED: ", n, " was deleted from registry key '" + key + "'. Previous Data: '" + o + "'")
  }

  /** The lines with the value's name and the key's path where their wording puts them, as the
      REMOVED line already has it. */
  function LogText(key: string, l: LogLine): string {
    match l
    case Updated(n, o, d) =>
      Line("UPDATED: ", n, " in registry key '" + key + "' was changed. Previous Data: '" + o + "' -> New Data: '" + d + "'")
    case Added(n, d) =>
      Line("ADDED: ", n, " was added to registry key '" + key + "'. Data: '" + d + "'")
    case Removed(n, o) =>
      Line("REMOVED: ", n, " was deleted from registry key '" + key + "'. Previous Data: '" + o + "'")
  }

  /** What a reader of a line takes for the value's name: the text between the first "Value '"
      and the next quote. */
  function ValueField(s: string): (r: Option<string>)
    ensures r.Some? ==> '\'' !in r.value
  {
    match IndexOf(s, "Value '")
    case None => None
    case Some(i) =>
      var rest := s[i + 7..];
      if '\'' in rest then Some(rest[..FirstIndexOf(rest, '\'')]) else None
  }

  /** The three line kinds; none has "Value '" starting inside it. */
  predicate IsKind(kind: string) {
    kind == "UPDATED: " || kind == "ADDED: " || kind == "REMOVED: "
  }

  lemma KindHasNoValue(kind: string, k: nat)
    requires IsKind(kind) && k < |kind|
    ensures !OccursAt(kind + "Value '", "Value '", k)
  {
    var s := kind + "Value '";
    if k + 7 <= |s| {
      assert s[k..k + 7][0] == s[k] && s[k..k + 7][1] == s[k + 1];
    }
  }

  /** The quoted field right after "Value '" reads back whole when it has no quote in it. */
  lemma ValueFieldOf(kind: string, field: string, rest: string)
    requires IsKind(kind) && '\'' !in field
    ensures ValueField(Line(kind, field, rest)) == Some(field)
  {
    var s := Line(kind, field, rest);
    assert s == kind + "Value '" + (field + "'" + rest);
    forall k | 0 <= k < |kind| ensures !OccursAt(kind + "Value '", "Value '", k) {
      KindHasNoValue(kind, k);
    }
    IndexOfAfterPrefix(kind, "Value '", field + "'" + rest);
    var tail := s[|kind| + 7..];
    assert tail == field + "'" + rest;
    assert tail[|field|] == '\'';
    assert tail[..|field|] == field;
    assert FirstIndexOf(tail, '\'') == |field|;
  }

  /** As written, an UPDATED or ADDED line names the key's path as the value. */
  lemma AsWrittenNamesTheKey(key: string, l: LogLine)
    requires !l.Removed? && '\'' !in key
    ensures ValueField(LogTextAsWritten(key, l)) == Some(key)
  {
    match l
    case Updated(n, o, d) =>
      ValueFieldOf("UPDATED: ", key, " in registry key '" + n + "' was changed. Previous Data: '" + o + "' -> New Data: '" + d + "'");
    case Added(n, d) =>
      ValueFieldOf("ADDED: ", key, " was added to registry key '" + n + "'. Data: '" + d + "'");
  }

  /** A concrete case: a change of the value "OneDrive" under the Run key is logged as a change
      of a value called "HKEY_CURRENT_USER\Run". */
  lemma AsWrittenMisnamesValue()
    ensures var l := Updated("OneDrive", "C:\\old.exe", "C:\\new.exe");
      ValueField(LogTextAsWritten("HKEY_CURRENT_USER\\Run", l)) != Some(l.name)
  {
    var key := "HKEY_CURRENT_USER\\Run";
    assert '\'' !in key;
    AsWrittenNamesTheKey(key, Updated("OneDrive", "C:\\old.exe", "C:\\new.exe"));
    assert key[0] != "OneDrive"[0];
  }

  /** Every corrected line names the value it is about. */
  lemma LogTextNamesValue(key: string, l: LogLine)
    requires '\'' !in l.name
    ensures ValueField(LogText(key, l)) == Some(l.name)
  {
    match l
    case Updated(n, o, d) =>
      ValueFieldOf("UPDATED: ", n, " in registry key '" + key + "' was changed. Previous Data: '" + o + "' -> New Data: '" + d + "'");
    case Added(n, d) =>
      ValueFieldOf("ADDED: ", n, " was added to registry key '" + key + "'. Data: '" + d + "'");
    case Removed(n, o) =>
      ValueFieldOf("REMOVED: ", n, " was deleted from registry key '" + key + "'. Previous Data: '" + o + "'");
  }

  // ---------------------------------------------------------------------------------------------
  // One pass

  /** The cache after the enumeration loop: every enumerated value stored under its name. */
  function Stored(cache: map<string, seq<Byte>>, entries: seq<Option<Entry>>): (r: map<string, seq<Byte>>)
    ensures forall n :: n in r <==> n in cache || exists i :: 0 <= i < |entries| && entries[i].Some? && entries[i].value.name == n
  {
    if entries == [] then cache
    else
      var k := |entries| - 1;
      var c := Stored(cache, entries[..k]);
      assert forall i :: 0 <= i < k ==> entries[..k][i] == entries[i];
      match entries[k]
      case None => c
      case Some(e) => c[e.name := e.bytes]
  }

  /** What the enumeration loop logs for one entry, against the cache as it stands. */
  function LogFor(c: map<string, seq<Byte>>, entry: Option<Entry>, utf8: seq<Byte> -> Option<string>): seq<LogLine> {
    match entry
    case None => []
    case Some(e) =>
      if e.name in c then
        if c[e.name] != e.bytes then [Updated(e.name, DataText(c[e.name], utf8), DataText(e.bytes, utf8))] else []
      else [Added(e.name, DataText(e.bytes, utf8))]
  }

  /** The lines the enumeration loop logs, in enumeration order. */
  function UpdateLogs(cache: map<string, seq<Byte>>, entries: seq<Option<Entry>>, utf8: seq<Byte> -> Option<string>): seq<LogLine>
  {
    if entries == [] then []
    else
      var k := |entries| - 1;
      UpdateLogs(cache, entries[..k], utf8) + LogFor(Stored(cache, entries[..k]), entries[k], utf8)
  }

  /** The cache after the scan: only the names the second enumeration still lists. */
  function Kept(c: map<string, seq<Byte>>, names: seq<string>): (r: map<string, seq<Byte>>)
    ensures r.Keys == c.Keys * set n | n in names
    ensures forall n :: n in r ==> r[n] == c[n]
  {
    map n | n in c && n in names :: c[n]
  }

  /** `logs` reports, once each, every cached value the second enumeration no longer lists. */
  ghost predicate RemovalLogs(logs: seq<LogLine>, c: map<string, seq<Byte>>, names: seq<string>, utf8: seq<Byte> -> Option<string>) {
    (forall l :: l in logs <==> l.Removed? && l.name in c && l.name !in names && l.oldData == DataText(c[l.name], utf8)) &&
    (forall i, j :: 0 <= i < j < |logs| ==> logs[i] != logs[j])
  }

  /** A pass's lines: the enumeration loop's, then the scan's. */
  ghost predicate PassLogs(logs: seq<LogLine>, cache: map<string, seq<Byte>>, entries: seq<Option<Entry>>,
                           names: seq<string>, utf8: seq<Byte> -> Option<string>) {
    var u := UpdateLogs(cache, entries, utf8);
    |u| <= |logs| && logs[..|u|] == u && RemovalLogs(logs[|u|..], Stored(cache, entries), names, utf8)
  }

  /** The enumeration loop: a changed value is logged and overwritten, an identical one is left
      alone, an unknown one is logged and inserted, an enumeration error is skipped. */
  method StoreEntries(cache: map<string, seq<Byte>>, entries: seq<Option<Entry>>, utf8: seq<Byte> -> Option<string>)
    returns (next: map<string, seq<Byte>>, logs: seq<LogLine>)
    ensures next == Stored(cache, entries)
    ensures logs == UpdateLogs(cache, entries, utf8)
  {
    next := cache;
    logs := [];
    for i := 0 to |entries|
      invariant next == Stored(cache, entries[..i])
      invariant logs == UpdateLogs(cache, entries[..i], utf8)
    {
      EnumerationStep(cache, entries, i, utf8);
      match entries[i]
      case None =>
      case Some(e) =>
        if e.name in next {
          if next[e.name] != e.bytes {
            logs := logs + [Updated(e.name, DataText(next[e.name], utf8), DataText(e.bytes, utf8))];
            next := next[e.name := e.bytes];
          } else {
            assert next[e.name := e.bytes] == next;
          }
        } else {
          logs := logs + [Added(e.name, DataText(e.bytes, utf8))];
          next := next[e.name := e.bytes];
        }
    }
    assert entries[..|entries|] == entries;
  }

  /** One more enumerated entry: the cache stores it and the log gains what `LogFor` says. */
  lemma EnumerationStep(cache: map<string, seq<Byte>>, entries: seq<Option<Entry>>, i: nat, utf8: seq<Byte> -> Option<string>)
    requires i < |entries|
    ensures Stored(cache, entries[..i + 1]) ==
      (match entries[i] case None => Stored(cache, entries[..i]) case Some(e) => Stored(cache, entries[..i])[e.name := e.bytes])
    ensures UpdateLogs(cache, entries[..i + 1], utf8) ==
      UpdateLogs(cache, entries[..i], utf8) + LogFor(Stored(cache, entries[..i]), entries[i], utf8)
  {
    assert entries[..i + 1][..i] == entries[..i];
  }

  /** The scan over the cached names: each one missing from `names` is logged and dropped. */
  method DropMissing(cache: map<string, seq<Byte>>, names: seq<string>, utf8: seq<Byte> -> Option<string>)
    returns (next: map<string, seq<Byte>>, logs: seq<LogLine>)
    ensures next == Kept(cache, names)
    ensures RemovalLogs(logs, cache, names, utf8)
  {
    next := cache;
    logs := [];
    var scan := cache.Keys;
    while scan != {}
      invariant scan <= cache.Keys
      invariant next.Keys == (cache.Keys * set n | n in names) + scan
      invariant forall n :: n in next ==> next[n] == cache[n]
      invariant forall l :: l in logs <==>
        l.Removed? && l.name in cache && l.name !in names && l.name !in scan && l.oldData == DataText(cache[l.name], utf8)
      invariant forall i, j :: 0 <= i < j < |logs| ==> logs[i] != logs[j]
      decreases scan
    {
      var n :| n in scan;
      if n !in names {
        logs := logs + [Removed(n, DataText(next[n], utf8))];
        next := next - {n};
      }
      scan := scan - {n};
    }
    assert next == Kept(cache, names);
  }

  /** One pass of the prototype's loop body after the sleep. */
  method Pass(cache: map<string, seq<Byte>>, entries: seq<Option<Entry>>, names: seq<string>, utf8: seq<Byte> -> Option<string>)
    returns (next: map<string, seq<Byte>>, logs: seq<LogLine>)
    ensures next == Kept(Stored(cache, entries), names)
    ensures PassLogs(logs, cache, entries, names, utf8)
  {
    var stored, updates := StoreEntries(cache, entries, utf8);
    var removals;
    next, removals := DropMissing(stored, names, utf8);
    logs := updates + removals;
    assert logs[..|updates|] == updates;
    assert logs[|updates|..] == removals;
  }

  /** When both enumerations see the same values, the cache afterwards holds exactly those
      names. */
  lemma PassKeysMatchNames(cache: map<string, seq<Byte>>, entries: seq<Option<Entry>>, names: seq<string>)
    requires forall n :: n in names <==> exists i :: 0 <= i < |entries| && entries[i].Some? && entries[i].value.name == n
    ensures Kept(Stored(cache, entries), names).Keys == set n | n in names
  {
  }

  /** Enumerating exactly the cached bytes logs nothing and leaves the cache as it was. */
  lemma {:induction false} UnchangedValuesQuiet(cache: map<string, seq<Byte>>, entries: seq<Option<Entry>>, utf8: seq<Byte> -> Option<string>)
    requires forall i :: 0 <= i < |entries| && entries[i].Some? ==>
      entries[i].value.name in cache && cache[entries[i].value.name] == entries[i].value.bytes
    ensures Stored(cache, entries) == cache
    ensures UpdateLogs(cache, entries, utf8) == []
  {
    if entries != [] {
      var k := |entries| - 1;
      UnchangedValuesQuiet(cache, entries[..k], utf8);
      if entries[k].Some? {
        assert cache[entries[k].value.name := entries[k].value.bytes] == cache;
      }
    }
  }

  /** The initial snapshot: every value enumerated without error, later ones overwriting. */
  method Snapshot(entries: seq<Option<Entry>>) returns (cache: map<string, seq<Byte>>)
    ensures cache == Stored(map[], entries)
    ensures forall n :: n in cache <==> exists i :: 0 <= i < |entries| && entries[i].Some? && entries[i].value.name == n
  {
    cache := map[];
    for i := 0 to |entries|
      invariant cache == Stored(map[], entries[..i])
    {
      assert entries[..i + 1][..i] == entries[..i];
      if entries[i].Some? {
        cache := cache[entries[i].value.name := entries[i].value.bytes];
      }
    }
    assert entries[..|entries|] == entries;
  }

  // ---------------------------------------------------------------------------------------------
  // The loop

  /** What one turn observes: the flag before it, the notification's status code (0 is success),
      the flag after the sleep, the first enumeration and the names of the second. */
  datatype Turn = Turn(running: bool, notifyCode: int, runningAfterSleep: bool,
                       entries: seq<Option<Entry>>, names: seq<string>)

  /** How the loop ends: the function returns, or the finite script of turns runs out. */
  datatype Exit = Returned(result: Result<()>) | ScriptEnded

  function NotifyError(key: string, code: int): string {
    "Failed to set registry notification for '" + key + "'. Error code: " + IntToDecimal(code)
  }

  function RunExit(key: string, turns: seq<Turn>): Exit
  {
    if turns == [] then ScriptEnded
    else if !turns[0].running then Returned(Ok(()))
    else if turns[0].notifyCode != 0 then Returned(Err(NotifyError(key, turns[0].notifyCode)))
    else if !turns[0].runningAfterSleep then Returned(Ok(()))
    else RunExit(key, turns[1..])
  }

  function RunCache(cache: map<string, seq<Byte>>, turns: seq<Turn>): map<string, seq<Byte>>
    decreases |turns|
  {
    if turns == [] || !turns[0].running || turns[0].notifyCode != 0 || !turns[0].runningAfterSleep then cache
    else RunCache(Kept(Stored(cache, turns[0].entries), turns[0].names), turns[1..])
  }

  /** The cache each pass starts from, and the turn it runs on. */
  datatype PassInput = PassInput(before: map<string, seq<Byte>>, turn: Turn)

  function RunPasses(cache: map<string, seq<Byte>>, turns: seq<Turn>): seq<PassInput>
    decreases |turns|
  {
    if turns == [] || !turns[0].running || turns[0].notifyCode != 0 || !turns[0].runningAfterSleep then []
    else [PassInput(cache, turns[0])] + RunPasses(Kept(Stored(cache, turns[0].entries), turns[0].names), turns[1..])
  }

  /** A turn after which the loop goes on to the next one. */
  predicate Continues(t: Turn) {
    t.running && t.notifyCode == 0 && t.runningAfterSleep
  }

  /** A script in which every notification succeeds never ends in an error. */
  lemma {:induction false} NoErrWithoutNotifyFailure(key: string, turns: seq<Turn>)
    requires forall i :: 0 <= i < |turns| ==> turns[i].notifyCode == 0
    ensures RunExit(key, turns) == ScriptEnded || RunExit(key, turns) == Returned(Ok(()))
  {
    if turns != [] && Continues(turns[0]) {
      NoErrWithoutNotifyFailure(key, turns[1..]);
    }
  }

  /** The first failed notification ends the loop with an error naming the key and the status
      code. */
  lemma {:induction false} FirstNotifyFailureIsErr(key: string, turns: seq<Turn>, i: nat)
    requires i < |turns| && turns[i].running && turns[i].notifyCode != 0
    requires forall j :: 0 <= j < i ==> Continues(turns[j])
    ensures RunExit(key, turns) == Returned(Err(NotifyError(key, turns[i].notifyCode)))
  {
    if i > 0 {
      assert Continues(turns[0]);
      assert forall j :: 0 <= j < i - 1 ==> turns[1..][j] == turns[j + 1];
      FirstNotifyFailureIsErr(key, turns[1..], i - 1);
    }
  }

  /** Every error the loop ends with comes from some turn's failed notification. */
  lemma {:induction false} ErrComesFromNotify(key: string, turns: seq<Turn>)
    requires RunExit(key, turns).Returned? && RunExit(key, turns).result.Err?
    ensures exists i :: (0 <= i < |turns| && turns[i].notifyCode != 0 &&
                         RunExit(key, turns).result.error == NotifyError(key, turns[i].notifyCode))
  {
    if Continues(turns[0]) {
      ErrComesFromNotify(key, turns[1..]);
      var i :| 0 <= i < |turns[1..]| && turns[1..][i].notifyCode != 0 &&
        RunExit(key, turns[1..]).result.error == NotifyError(key, turns[1..][i].notifyCode);
      assert turns[i + 1] == turns[1..][i];
    } else {
      assert turns[0].notifyCode != 0;
    }
  }

  /** `monitor_registry_key` of the prototype after its initial snapshot, over a finite script of
      turns: how it ends, the final cache and each pass's lines in order. */
  method MonitorRegistryKey(key: string, cache0: map<string, seq<Byte>>, turns: seq<Turn>, utf8: seq<Byte> -> Option<string>)
    returns (exit: Exit, cache: map<string, seq<Byte>>, passes: seq<seq<LogLine>>)
    ensures exit == RunExit(key, turns)
    ensures cache == RunCache(cache0, turns)
    ensures EveryPassLogs(passes, RunPasses(cache0, turns), utf8)
  {
    cache := cache0;
    passes := [];
    ghost var inputs: seq<PassInput> := [];
    var i := 0;
    while i < |turns| && turns[i].running
      invariant 0 <= i <= |turns|
      invariant RunExit(key, turns) == RunExit(key, turns[i..])
      invariant RunCache(cache0, turns) == RunCache(cache, turns[i..])
      invariant RunPasses(cache0, turns) == inputs + RunPasses(cache, turns[i..])
      invariant EveryPassLogs(passes, inputs, utf8)
    {
      if turns[i].notifyCode != 0 {
        RunStops(key, cache, turns[i..]);
        return Returned(Err(NotifyError(key, turns[i].notifyCode))), cache, passes;
      }
      if !turns[i].runningAfterSleep {
        RunStops(key, cache, turns[i..]);
        return Returned(Ok(())), cache, passes;
      }
      var next, logs := Pass(cache, turns[i].entries, turns[i].names, utf8);
      RunContinuesAt(key, cache, turns, i, inputs);
      EveryPassLogsSnoc(passes, inputs, logs, PassInput(cache, turns[i]), utf8);
      inputs := inputs + [PassInput(cache, turns[i])];
      passes := passes + [logs];
      cache := next;
      i := i + 1;
    }
    if i < |turns| {
      RunStops(key, cache, turns[i..]);
    }
    exit := if i == |turns| then ScriptEnded else Returned(Ok(()));
  }

  /** Each pass's lines are those of the pass it ran, one pass for each input. */
  ghost predicate EveryPassLogs(passes: seq<seq<LogLine>>, inputs: seq<PassInput>, utf8: seq<Byte> -> Option<string>) {
    |passes| == |inputs| &&
    forall j :: 0 <= j < |passes| ==>
      PassLogs(passes[j], inputs[j].before, inputs[j].turn.entries, inputs[j].turn.names, utf8)
  }

  /** One more pass with its lines. */
  lemma EveryPassLogsSnoc(passes: seq<seq<LogLine>>, inputs: seq<PassInput>, logs: seq<LogLine>, input: PassInput,
                          utf8: seq<Byte> -> Option<string>)
    requires EveryPassLogs(passes, inputs, utf8)
    requires PassLogs(logs, input.before, input.turn.entries, input.turn.names, utf8)
    ensures EveryPassLogs(passes + [logs], inputs + [input], utf8)
  {
  }

  /** A turn that ends the loop leaves the cache as it is and runs no pass. */
  lemma RunStops(key: string, cache: map<string, seq<Byte>>, turns: seq<Turn>)
    requires turns != [] && !Continues(turns[0])
    ensures RunCache(cache, turns) == cache && RunPasses(cache, turns) == []
    ensures RunExit(key, turns) == if !turns[0].running || turns[0].notifyCode == 0 then Returned(Ok(()))
                                   else Returned(Err(NotifyError(key, turns[0].notifyCode)))
  {
  }

  /** A turn after which the loop goes on runs one pass from the current cache. */
  lemma RunContinues(key: string, cache: map<string, seq<Byte>>, turns: seq<Turn>)
    requires turns != [] && Continues(turns[0])
    ensures RunExit(key, turns) == RunExit(key, turns[1..])
    ensures RunCache(cache, turns) == RunCache(Kept(Stored(cache, turns[0].entries), turns[0].names), turns[1..])
    ensures RunPasses(cache, turns) ==
      [PassInput(cache, turns[0])] + RunPasses(Kept(Stored(cache, turns[0].entries), turns[0].names), turns[1..])
  {
  }

  /** The same step seen from the loop: turn `i` continues, and its pass joins those already run. */
  lemma RunContinuesAt(key: string, cache: map<string, seq<Byte>>, turns: seq<Turn>, i: nat, inputs: seq<PassInput>)
    requires i < |turns| && Continues(turns[i])
    ensures var next := Kept(Stored(cache, turns[i].entries), turns[i].names);
      RunExit(key, turns[i..]) == RunExit(key, turns[i + 1..]) &&
      RunCache(cache, turns[i..]) == RunCache(next, turns[i + 1..]) &&
      inputs + RunPasses(cache, turns[i..]) == (inputs + [PassInput(cache, turns[i])]) + RunPasses(next, turns[i + 1..])
  {
    assert turns[i..][1..] == turns[i + 1..];
    RunContinues(key, cache, turns[i..]);
  }
}
