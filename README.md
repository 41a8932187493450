# file-mod-tracker, modelled in Dafny

file-mod-tracker is a Windows desktop tool (a Tauri application) that watches directories and
registry keys for changes. It has two halves. The Rust backend receives I/O messages from a
file-system minifilter driver and polls registry keys. It turns both into change events. The
React front end collects those events. It keeps, per watched directory and file, a history of
changes with a change count. It keeps, per registry key, an event log and a cache of change
counts and last-change times. It shows all of this in tables, dashboard cards and session log
files, and it keeps the lists of watched directories and keys in step with the backend.

This project models the core of both halves, one Dafny module per source file:

- **Event producers (Rust).**
  - `file_monitor_backend.dfy`: change-code names, comma-grouped sizes, the message filter,
    rename/move splitting, first-match watcher lookup, and the watched-directory list.
  - `legacy_monitor.dfy`: the older `main.rs` pipeline and its event text.
  - `registry_monitor_backend.dfy`: the watched-key table, key-path parsing, NUL trimming and
    the cache diff.
  - `registry_prototype.dfy`: the earlier variant of the cache diff.
  - `kill_process.dfy`: the kill decision rule.
- **The aggregation stores.**
  - `file_store.dfy` models `monitor.ts`.
  - `registry_store.dfy` models `registry-monitor.ts`: payload parsing as written (data is
    cut at its first colon) beside the intended reading of a data line, the event log, and the
    incremental cache against a full rebuild.
- **Projections of the stores into rows and statistics.**
  - `convert_table.dfy`, `parse_backend_data.dfy`, `are_data_equal.dfy`, `pagination.dfy`.
  - The tables: `mui_table.dfy`, `registry_table.dfy`, `logs_table.dfy`,
    `data_table_utils.dfy`.
  - The dashboard cards: `recent_activity.dfy`, `activity_stats.dfy`,
    `monitored_paths.dfy`, `system_status.dfy`.
- **Watch-list synchronisation and settings.**
  - `registry_settings.dfy`, `file_system_settings.dfy`, `file_monitor_context.dfy`,
    `actions.dfy`.
  - `local_storage.dfy`, `settings_context.dfy`, `navigation.dfy`.
- **The session log writer:** `logger.dfy`, with its debounce state machine.

Helper modules state the library behaviour the code relies on:

- `text.dfy`: JavaScript string operations such as `trim`, `includes`, `split` and
  `toLowerCase`.
- `numbers.dfy`: decimal text and `parseInt`.
- `seqs.dfy`: `filter`, `slice` and stable sorts.
- `ordered_maps.dfy`: insertion-ordered objects.
- `win_path.dfy`: Windows path components as Rust's `Path` parses them: a drive prefix `X:` whose letter compares case-blind, a root directory, a leading `.`, `..` and names. `Path::starts_with` and `Path::parent` are read over these components.
- `common.dfy`: `Option` and `Result`.

State that the source mutates is modelled as classes, with `modifies` clauses:

- the watched-directory list and the registry key table;
- the two stores;
- the logger and its singletons;
- the settings panels and contexts;
- the data table.

Loops that build rows, counts or caches are methods with loop invariants, proved equal to
specification functions. Lemmas then state what the source promises about those functions.

Calls into the backend, the operating system, storage and the clock are parameters:

- a `Reply` or `Outcome` value says whether a call returned or threw, and with what message;
- a `timeOf` function stands for `new Date(...)`;
- the process table, registry enumerations and driver messages are inputs.
## Model

| member | source | states |
|---|---|---|
| FileMonitorBackend.FileChangeName | src-tauri/src/file_monitor.rs:391-409 | a change code is named "Unknown" exactly when it is above 13 |
| FileMonitorBackend.FileChangeNamesDistinct | src-tauri/src/file_monitor.rs:391-409 | the fourteen known change codes have fourteen different names |
| FileMonitorBackend.ArrivalNames | src-tauri/src/file_monitor.rs:553-559 | the names that get the one-millisecond timestamp shift ("Renamed To", "Moved To") belong to codes 5 and 12 and no others |
| FileMonitorBackend.IrpOpName | src-tauri/src/file_monitor.rs:600-610 | an I/O operation code is named "UNKNOWN" exactly when it is above 5 |
| FileMonitorBackend.GroupThousandsCons | src-tauri/src/file_monitor.rs:432-441 | one more leading digit opens a new comma group exactly when the digits so far fill whole groups |
| FileMonitorBackend.GroupStep | src-tauri/src/file_monitor.rs:435-440 | one step of the right-to-left digit walk inserts a comma before every third digit |
| FileMonitorBackend.UngroupThousands | src-tauri/src/file_monitor.rs:432-441 | removing the commas from grouped digits gives the digits back |
| FileMonitorBackend.SizeTextReadsBack | src-tauri/src/file_monitor.rs:432-442 | a size text ends in " bytes", and without that suffix and its commas reads back as the size |
| FileMonitorBackend.FormatFileSize | src-tauri/src/file_monitor.rs:432-442 | the digit-by-digit loop produces the size text whose read-back is proved above |
| FileMonitorBackend.SizeTextI64 | src-tauri/src/file_monitor.rs:612-618 | a negative size gives "Unknown size", any other a text ending in " bytes" |
| FileMonitorBackend.MetadataShape | src-tauri/src/file_monitor.rs:444-517 | a file that cannot be examined gets exactly the five basic keys, all holding the error text; otherwise all eight keys are present, with the size text under "Size" |
| FileMonitorBackend.InsertAll | src-tauri/src/file_monitor.rs:458-460 | the key loop sets each listed key to the one value and leaves the other keys alone |
| FileMonitorBackend.GetFileMetadata | src-tauri/src/file_monitor.rs:444-517 | the lookup always returns a map: the one characterised by MetadataShape |
| FileMonitorBackend.SplitAtPipe | src-tauri/src/file_monitor.rs:163-165 | no pipe means no split; otherwise the text is the part before the first pipe, a pipe, and the rest |
| FileMonitorBackend.SplitAtPipeOf | src-tauri/src/file_monitor.rs:163-165 | splitting "old\|new" with a pipe-free old path gives back both paths |
| FileMonitorBackend.FirstWatcher | src-tauri/src/file_monitor.rs:294-297 | the watcher found is the first listed directory the path lies under (by component), and none is found only when the path lies under none |
| FileMonitorBackend.SilentMessages | src-tauri/src/file_monitor.rs:283-289 | the three discarded open/cleanup combinations, renames without a pipe, paths under no watched directory and events of SearchProtocolHost.exe emit nothing |
| FileMonitorBackend.OrdinaryEvent | src-tauri/src/file_monitor.rs:294-327 | any other non-rename message emits one event naming its change kind and path, credited to the first watcher it lies under |
| FileMonitorBackend.RenameSplitsInTwo | src-tauri/src/file_monitor.rs:160-265 | a rename "old\|new" under a watched directory emits a "from" event for the old path and a "to" event for the new one, both with the old path's watcher or else the new one's, named Renamed when the parents match and Moved otherwise |
| FileMonitorBackend.HandleMessage | src-tauri/src/file_monitor.rs:155-330 | the processing thread's handling of one message emits exactly the events characterised above |
| FileMonitorBackend.ProcessMessages | src-tauri/src/file_monitor.rs:155-156 | the processing thread handles the received messages in order and emits the concatenation of their events |
| FileMonitorBackend.FileMonitor.constructor | src-tauri/src/file_monitor.rs:69-74 | monitoring starts out not started |
| FileMonitorBackend.FileMonitor.StartMonitoring | src-tauri/src/file_monitor.rs:76-105 | the driver-open and set-pid failures give their error texts and change nothing; success installs the given directories |
| FileMonitorBackend.FileMonitor.RemoveDirectory | src-tauri/src/file_monitor.rs:333-345 | before start: "Monitoring has not been started"; after: every copy of the directory is dropped, the others keep their order |
| FileMonitorBackend.FileMonitor.UpdateMonitoringDirectories | src-tauri/src/file_monitor.rs:347-359 | before start the error; after, the list is replaced whole |
| FileMonitorBackend.FileMonitor.AddDirectory | src-tauri/src/file_monitor.rs:361-378 | before start the error; after, the directory is appended unless already listed, and the call succeeds either way |
| FileMonitorBackend.FileMonitor.GetWatchedDirectories | src-tauri/src/file_monitor.rs:380-388 | before start the error, after it the current list |
| FileMonitorBackend.Without | src-tauri/src/file_monitor.rs:339 | the removed directory is gone, every other listed directory stays, and the list does not grow |
| FileMonitorBackend.AddIdempotent | src-tauri/src/file_monitor.rs:367-374 | adding a directory twice is adding it once, and it is then listed |
| FileMonitorBackend.AddThenRemove | src-tauri/src/file_monitor.rs:339-368 | adding then removing a directory that was not listed restores the list |
| FileMonitorBackend.WithoutAbsent | src-tauri/src/file_monitor.rs:339 | removing a directory that is not listed changes nothing |
| FileMonitorBackend.WithoutAppend | src-tauri/src/file_monitor.rs:339 | removal distributes over concatenation of lists |
| FileMonitorBackend.FoundMetadataShape | src-tauri/src/file_monitor.rs:444-515 | a file that can be examined gets all eight keys, the size text under Size, whether or not its attributes can be read |
| FileMonitorBackend.AttributesFailedShape | src-tauri/src/file_monitor.rs:508-512 | when the attributes cannot be read, IsEncrypted, IsHidden and IsTemporary all carry the error text |
| FileMonitorBackend.FormatEventFields | src-tauri/src/file_monitor.rs:535-587 | an event from any process but SearchProtocolHost.exe is emitted with its path, kind, watcher and the message's size text, stamped one millisecond later only for "Moved To" and "Renamed To" |
| FileMonitorBackend.EventPairFields | src-tauri/src/file_monitor.rs:235-262 | a rename pair is two events, old path then new path, sharing watcher and size, the second stamped one millisecond after the first |
| FileMonitorBackend.RenameEvents | src-tauri/src/file_monitor.rs:161-265 | a rename within one directory is reported as "Renamed From" and "Renamed To", across directories as "Moved From" and "Moved To", both with the new path's metadata |
| FileMonitorBackend.SameDirectoryAcrossDriveCase | src-tauri/src/file_monitor.rs:170-175 | two files of one directory are in the same directory whatever the case of their drive letters, so `C:\a\x` to `c:\a\y` is a rename, not a move |
| FileMonitorBackend.FirstWatcherAcrossDriveCase | src-tauri/src/file_monitor.rs:294-297 | a file in the first watched directory is credited to it whatever the case of either drive letter |
| WinPath.Components | src-tauri/src/file_monitor.rs:294-297 | a drive path starts with its prefix, its letter upper-cased, then a root when a separator follows; after them come only `..` and plain names, so `.` and repeated or trailing separators do not count |
| WinPath.DriveCaseIgnored | src-tauri/src/file_monitor.rs:294-297 | `c:` and `C:` paths have the same components |
| WinPath.StartsWithIgnoresDriveCase | src-tauri/src/file_monitor.rs:294-297 | whether a path lies under a directory does not depend on either drive letter's case |
| WinPath.FileUnderDirectory | src-tauri/src/file_monitor.rs:294-297 | a file in a directory lies under it, drive letters compared case-blind: `C:\data\f.txt` lies under `c:\data` |
| WinPath.RelativeNotUnderRoot | src-tauri/src/file_monitor.rs:294-297 | a drive-relative path such as `C:a` has no root, so it does not lie under `C:\` |
| WinPath.DotSegmentDropped | src-tauri/src/file_monitor.rs:294-297 | an interior `.` segment is dropped: `a\.\b` parses as `a\b` |
| WinPath.BodySplit | src-tauri/src/file_monitor.rs:294-297 | the components split at a separator: the parts before and after it parse separately |
| WinPath.Parent | src-tauri/src/file_monitor.rs:170-175 | no parent when there are no components or the last one is the prefix or the root; otherwise the parent's components plus the last component are the path's components |
| WinPath.RootHasNoParent | src-tauri/src/file_monitor.rs:170-175 | a drive's root `X:\` has no parent |
| WinPath.ParentOfFile | src-tauri/src/file_monitor.rs:170-175 | the parent of a file in a rooted directory is the prefix, the root and that directory's components |
| LegacyMonitor.LegacyChangeName | src-tauri/src/main.rs:25-38 | codes above 8 are "Unknown", and "NotSet" is the name of code 0 only |
| LegacyMonitor.MetadataWithPid | src-tauri/src/main.rs:173-181 | the metadata map plus a "PID" key holding the decimal pid; every other key keeps its metadata value |
| LegacyMonitor.GetFileMetadataWithPid | src-tauri/src/main.rs:173-181 | the lookup returns the map characterised by MetadataWithPid |
| LegacyMonitor.Pairs | src-tauri/src/main.rs:246-249 | one "key: value" text per key, in the map's iteration order |
| LegacyMonitor.Forward | src-tauri/src/main.rs:230-252 | a message is forwarded exactly when its path lies under a watched directory and it is not a NotSet event with the exclusion on |
| LegacyMonitor.WatchedAcrossDriveCase | src-tauri/src/main.rs:230-252 | a file in a watched directory counts as watched whatever the case of either drive letter |
| LegacyMonitor.ForwardMessage | src-tauri/src/main.rs:230-262 | the processing step for one message gives the line characterised by Forward |
| LegacyMonitor.StartLegacyMonitoring | src-tauri/src/main.rs:185-199 | start succeeds exactly when the driver opens and accepts the pid, with the driver's error texts otherwise, and the session keeps the directories and the exclusion flag |
| LegacyMonitor.ForwardedAll | src-tauri/src/main.rs:228-229 | the thread never emits more lines than it receives messages |
| LegacyMonitor.ForwardAll | src-tauri/src/main.rs:228-274 | the processing loop emits the forwarded lines of the received messages, in order |
| LegacyMonitor.NothingWatchedNothingEmitted | src-tauri/src/main.rs:231-235 | with no watched directory, nothing is ever emitted |
| LegacyMonitor.JoinIncludes | src-tauri/src/main.rs:246-250 | each joined "key: value" part occurs in the joined metadata text |
| LegacyMonitor.EventTextLayout | src-tauri/src/main.rs:251-252 | the event's first line is "kind: path", and every metadata key appears as "key: value" in the text |
| LegacyMonitor.ChangeNameOneLine | src-tauri/src/main.rs:25-38 | no change name contains a line break, so the first line ends after the path |
| LegacyMonitor.ErrorTextUnderKey | src-tauri/src/main.rs:78-100 | a file that cannot be examined has the same error text under each of the five basic keys |
| LegacyMonitor.UnreadableFileReported | src-tauri/src/main.rs:230-256 | such a file is still forwarded, and the forwarded text carries the error under each basic key |
| KillProcess.FindPid | src-tauri/src/kill_process.rs:21 | the process found carries the requested pid, and none is found only when no listed process has it |
| KillProcess.KillSoundness | src-tauri/src/kill_process.rs:16-78 | success means a kill was attempted and worked; a kill is only attempted on the pid when it still names the program, or else on the one process with that name |
| KillProcess.KillByPid | src-tauri/src/kill_process.rs:21-38 | when the pid still names the requested program, exactly that pid is killed, with "Success!" or the permissions failure |
| KillProcess.KillByNameOutcomes | src-tauri/src/kill_process.rs:50-77 | by name: none found gives "Failed (Process not found)" and no kill; several give "Failed (PID Changed, multiple <name>s found)" and no kill |
| KillProcess.NoneNamed | src-tauri/src/kill_process.rs:51-53 | no process with the name leaves nothing after the name filter |
| KillProcess.FilterCountsAtLeastTwo | src-tauri/src/kill_process.rs:51-55 | two processes with the name leave at least two after the filter |
| RegistryMonitorBackend.RootFromName | src-tauri/src/registry_monitor.rs:172-196 | a root is found exactly for the five predefined root names, and it is the root with that name |
| RegistryMonitorBackend.ParseKeyPath | src-tauri/src/registry_monitor.rs:167-212 | a path without a backslash is "Invalid registry key path"; a parsed path is the root's name, a backslash and the sub-key |
| RegistryMonitorBackend.ParseKeyPathRoundTrip | src-tauri/src/registry_monitor.rs:169-192 | writing a root and sub-key as a path and parsing it gives them back, whatever the sub-key holds |
| RegistryMonitorBackend.UnknownRootRejected | src-tauri/src/registry_monitor.rs:193-196 | a first segment that is not a root gives "Unknown root key '<segment>'" |
| RegistryMonitorBackend.OpenRegistryKey | src-tauri/src/registry_monitor.rs:167-213 | opening succeeds exactly when the path parses and the operating system opens the sub-key; a failed open gives "Failed to open registry key '<path>': <error>" |
| RegistryMonitorBackend.Utf16Units | src-tauri/src/registry_monitor.rs:217-219 | the data is read as half as many 16-bit little-endian units, an odd last byte dropped |
| RegistryMonitorBackend.TrimNulStart | src-tauri/src/registry_monitor.rs:222 | only leading NULs are cut, and the result does not start with one |
| RegistryMonitorBackend.TrimNulEnd | src-tauri/src/registry_monitor.rs:222 | only trailing NULs are cut, and the result does not end with one |
| RegistryMonitorBackend.TrimNul | src-tauri/src/registry_monitor.rs:222 | the result neither starts nor ends with a NUL |
| RegistryMonitorBackend.CleanRegistryData | src-tauri/src/registry_monitor.rs:216-232 | the cleaned text, UTF-16 or the UTF-8 fallback, neither starts nor ends with a NUL |
| RegistryMonitorBackend.Cleaner | src-tauri/src/registry_monitor.rs:248 | the cleaning applied to every value is clean_registry_data |
| RegistryMonitorBackend.OneChangePerName | src-tauri/src/registry_monitor.rs:289-330 | a value name gets a change exactly when it is new, its bytes differ, or it disappeared, and never more than one |
| RegistryMonitorBackend.QuietAfterPass | src-tauri/src/registry_monitor.rs:289-330 | a second pass over the same values reports nothing |
| RegistryMonitorBackend.StoreCurrent | src-tauri/src/registry_monitor.rs:289-316 | every current value is reported as UPDATED or ADDED when its bytes are new, and cached afresh; the other cached values stay |
| RegistryMonitorBackend.DropMissing | src-tauri/src/registry_monitor.rs:318-330 | every cached value that is no longer present is reported REMOVED with its old data and dropped |
| RegistryMonitorBackend.ComparePass | src-tauri/src/registry_monitor.rs:283-330 | after a pass the cache holds exactly the current values and their cleaned data, and the pass reported each change once |
| RegistryMonitorBackend.InitialCache | src-tauri/src/registry_monitor.rs:245-251 | the first cache holds exactly the names enumerated without error |
| RegistryMonitorBackend.PopulateCache | src-tauri/src/registry_monitor.rs:245-251 | the population loop builds that cache, a later entry overwriting an earlier one |
| RegistryMonitorBackend.RunChains | src-tauri/src/registry_monitor.rs:255-331 | each pass starts from the cache the previous pass left, and the run ends with the cache of its last pass |
| RegistryMonitorBackend.MonitorRegistryKey | src-tauri/src/registry_monitor.rs:234-335 | the watching loop makes one diff pass per turn that gets through the notification and both flag checks, each pass comparing against the cache its predecessor left |
| RegistryMonitorBackend.KeyFlag.constructor | src-tauri/src/registry_monitor.rs:83 | a key's stop flag starts with the given value |
| RegistryMonitorBackend.RegistryMonitor.constructor | src-tauri/src/registry_monitor.rs:27-34 | no watched keys and not running |
| RegistryMonitorBackend.RegistryMonitor.StartMonitoring | src-tauri/src/registry_monitor.rs:36-43 | refuses with "Registry monitoring already started" when running; either way it is running afterwards and the table is unchanged |
| RegistryMonitorBackend.RegistryMonitor.StopMonitoring | src-tauri/src/registry_monitor.rs:45-66 | refuses with "Registry monitoring not started" when stopped; otherwise clears the global flag, empties the table and clears every drained key's flag |
| RegistryMonitorBackend.RegistryMonitor.AddRegistryKey | src-tauri/src/registry_monitor.rs:72-124 | an open failure is returned as is; a key already watched gives "Key is already being monitored"; otherwise the key is added with a fresh running flag |
| RegistryMonitorBackend.RegistryMonitor.RemoveRegistryKey | src-tauri/src/registry_monitor.rs:126-154 | a key not watched gives "Key is not being monitored"; otherwise it is dropped and its flag cleared, and no other flag changes |
| RegistryMonitorBackend.RegistryMonitor.GetMonitoredKeys | src-tauri/src/registry_monitor.rs:156-164 | every watched key, once each |
| RegistryMonitorBackend.ChainCons | src-tauri/src/registry_monitor.rs:255-331 | a pass followed by a chain starting from the cache it leaves is a chain from the cache it started from |
| RegistryPrototype.DebugBytes | src-tauri/src/registry_monitor_prototype.rs:87 | the debug text of a byte vector is bracketed |
| RegistryPrototype.DataText | src-tauri/src/registry_monitor_prototype.rs:85-92 | valid UTF-8 data is logged as its text, anything else as its debug bytes |
| RegistryPrototype.ValueField | src-tauri/src/registry_monitor_prototype.rs:94 | the field a reader takes for the value's name never holds a quote |
| RegistryPrototype.KindHasNoValue | src-tauri/src/registry_monitor_prototype.rs:94 | no line kind has "Value '" starting inside it |
| RegistryPrototype.ValueFieldOf | src-tauri/src/registry_monitor_prototype.rs:94 | the quoted field after "Value '" reads back whole when it has no quote |
| RegistryPrototype.AsWrittenNamesTheKey | src-tauri/src/registry_monitor_prototype.rs:93-95 | as written, every UPDATED and ADDED line puts the key's path where the value's name belongs |
| RegistryPrototype.AsWrittenMisnamesValue | src-tauri/src/registry_monitor_prototype.rs:93-95 | a change of the value "OneDrive" under the Run key is logged as a change of a value named after the key |
| RegistryPrototype.LogTextNamesValue | src-tauri/src/registry_monitor_prototype.rs:93-95 | every corrected line names the value it is about |
| RegistryPrototype.Stored | src-tauri/src/registry_monitor_prototype.rs:78-117 | after the enumeration the cache holds the old names plus every enumerated name |
| RegistryPrototype.Kept | src-tauri/src/registry_monitor_prototype.rs:125-141 | after the scan the cache holds the cached names the second enumeration still lists, with their bytes |
| RegistryPrototype.StoreEntries | src-tauri/src/registry_monitor_prototype.rs:78-117 | the enumeration loop logs and overwrites changed values, logs and adds new ones, skips enumeration errors |
| RegistryPrototype.DropMissing | src-tauri/src/registry_monitor_prototype.rs:120-141 | the scan logs and drops, once each, every cached value the second enumeration no longer lists |
| RegistryPrototype.Pass | src-tauri/src/registry_monitor_prototype.rs:77-141 | one pass stores the enumerated values, then drops the missing ones, logging in that order |
| RegistryPrototype.PassKeysMatchNames | src-tauri/src/registry_monitor_prototype.rs:77-141 | when both enumerations see the same names, the cache afterwards holds exactly those names |
| RegistryPrototype.UnchangedValuesQuiet | src-tauri/src/registry_monitor_prototype.rs:82-99 | enumerating exactly the cached bytes logs nothing and leaves the cache as it was |
| RegistryPrototype.Snapshot | src-tauri/src/registry_monitor_prototype.rs:30-39 | the initial snapshot holds exactly the names enumerated without error |
| RegistryPrototype.NoErrWithoutNotifyFailure | src-tauri/src/registry_monitor_prototype.rs:42-144 | if every notification succeeds, the watch never ends with an error |
| RegistryPrototype.FirstNotifyFailureIsErr | src-tauri/src/registry_monitor_prototype.rs:57-66 | the first failed notification ends the watch with an error naming the key and the status code |
| RegistryPrototype.ErrComesFromNotify | src-tauri/src/registry_monitor_prototype.rs:57-66 | every error the watch ends with comes from a failed notification |
| RegistryPrototype.MonitorRegistryKey | src-tauri/src/registry_monitor_prototype.rs:42-144 | the loop ends as RunExit says, with the cache of its last pass, each pass starting from the cache its predecessor left |
| RegistryPrototype.RunStops | src-tauri/src/registry_monitor_prototype.rs:42-144 | a turn that does not continue ends the loop with the cache untouched and no pass: Ok when the monitor was stopped or the wait succeeded, the notification error otherwise |
| RegistryPrototype.RunContinues | src-tauri/src/registry_monitor_prototype.rs:42-144 | a turn that continues runs one pass from the current cache and the rest of the loop from the cache that pass leaves |
| FileStore.IngestIgnores | src/hooks/monitor.ts:32 | an event whose watcher is empty or "Unknown" changes nothing |
| FileStore.IngestEffect | src/hooks/monitor.ts:32-97 | an accepted event raises its path's count by one, appends exactly one entry, makes the event's data the path's latest info, and leaves every other path and the directory list alone |
| FileStore.IngestConsistent | src/hooks/monitor.ts:73-88 | every event keeps each path's count equal to the length of its entry list |
| FileStore.IngestKeepsHistory | src/hooks/monitor.ts:82-86 | entries are only ever appended: each path's old entries are a prefix of its new ones |
| FileStore.AddDirectoryEffect | src/hooks/monitor.ts:103-118 | only an absent directory is appended, so the list stays free of duplicates; counts and entries are unchanged |
| FileStore.RemoveDirectory | src/hooks/monitor.ts:172-175 | the directory leaves the list, every other listed directory stays, and the recorded changes are kept |
| FileStore.FileMonitor.constructor | src/hooks/monitor.ts:18-26 | an empty state, not monitoring, nothing published or sent |
| FileStore.FileMonitor.OnFileEvent | src/hooks/monitor.ts:29-99 | the listener ingests the event, keeps the state consistent, and publishes the new state only for an accepted event |
| FileStore.FileMonitor.AddDirectoryByPath | src/hooks/monitor.ts:103-129 | an absent directory is appended and published, and while monitoring the whole list is sent to the backend, whose failure is passed on; a listed one changes nothing |
| FileStore.FileMonitor.StartMonitoring | src/hooks/monitor.ts:131-145 | asks the backend to start with no directories and sets the flag only when that succeeds; a failure is passed on; already monitoring does nothing |
| FileStore.FileMonitor.GetWatched | src/hooks/monitor.ts:147-154 | the backend's answer or failure, passed through |
| FileStore.FileMonitor.RemoveDirectoryByPath | src/hooks/monitor.ts:168-190 | a listed directory is removed only after the backend agrees, then published and, while monitoring, the list is sent; an unlisted one changes nothing |
| FileStore.IngestTouchesPath | src/hooks/monitor.ts:73-88 | an accepted event raises its own path's count by one and appends its data to that path's entries, making it the latest |
| FileStore.IngestLeavesOthers | src/hooks/monitor.ts:73-88 | an accepted event leaves the count and details of every other watcher and path unchanged |
| FileStore.AddDirectoryKeepsData | src/hooks/monitor.ts:103-118 | adding a directory changes no count and no detail |
| FileStore.AddDirectoryConsistent | src/hooks/monitor.ts:103-118 | adding a directory keeps each path's count equal to the length of its entry list |
| RegistryStore.NormalizeKeyFixedPoint | src/hooks/registry-monitor.ts:61-63 | a trimmed key without " was changed." is already normal |
| RegistryStore.BumpEffect | src/hooks/registry-monitor.ts:102-110 | counting an event raises its key's count by one (from 0 for a new key) and stamps it with the event's time; every other key is untouched |
| RegistryStore.CacheOfMeaning | src/hooks/registry-monitor.ts:46-59 | the rebuilt cache holds exactly the normalised keys of the log, each with its number of events and the time of its last one |
| RegistryStore.CacheOfPrefix | src/hooks/registry-monitor.ts:48-58 | the rebuild counts the events one at a time in log order |
| RegistryStore.CacheOfAppend | src/hooks/registry-monitor.ts:102-112 | counting one live event gives the same cache as rebuilding from the longer log |
| RegistryStore.QuoteFree | src/hooks/registry-monitor.ts:90 | the `[^']+` run from a position ends at the next quote or the end |
| RegistryStore.SliceParts | src/hooks/registry-monitor.ts:90 | adjacent slices of the matched text make up the slice that spans them |
| RegistryStore.MatchAt | src/hooks/registry-monitor.ts:90 | a match at a position yields a non-empty quote-free value name and key that occur there in the pattern's shape |
| RegistryStore.FindMatch | src/hooks/registry-monitor.ts:90 | the leftmost match is found, and none only when no position matches |
| RegistryStore.ParseLines | src/hooks/registry-monitor.ts:76-100 | the listener's loop over the lines builds the record ParsePayload describes, or throws as it does |
| RegistryStore.NoHeaderKeepsIdentity | src/hooks/registry-monitor.ts:85-100 | lines without a header never touch the type, key, value or time |
| RegistryStore.UnknownPayload | src/hooks/registry-monitor.ts:78-83 | a payload without a header line is still recorded, as type "UNKNOWN" with empty key and value |
| RegistryStore.LacksColonSpaceConcat | src/hooks/registry-monitor.ts:87 | no ": " is created by joining two pieces that lack it, unless the join itself forms one |
| RegistryStore.NoColonLacks | src/hooks/registry-monitor.ts:87 | text without a colon has no ": " |
| RegistryStore.QuoteFreeEndsAt | src/hooks/registry-monitor.ts:90 | a run of non-quote characters ends at the next quote |
| RegistryStore.SubjectMatches | src/hooks/registry-monitor.ts:90 | the regular expression recovers the value name and key from the backend's header text |
| RegistryStore.SubjectLacksColonSpace | src/hooks/registry-monitor.ts:87 | the header text after the type has no ": " when the name and key have none |
| RegistryStore.SplitColonSpace | src/hooks/registry-monitor.ts:87 | splitting "head: rest" at ": " gives the head and the rest |
| RegistryStore.HeaderFields | src/hooks/registry-monitor.ts:86-94 | a header line sets the type, the value name and the key |
| RegistryStore.HeaderLineParses | src/hooks/registry-monitor.ts:86-94 | each of the three emitted header lines yields its type, value name and key |
| RegistryStore.SplitColon | src/hooks/registry-monitor.ts:96 | `split(':')[1]` of "head:rest" is the rest when neither has a colon |
| RegistryStore.UnquoteData | src/hooks/registry-monitor.ts:96 | trimming and removing the quotes of " '<x>'" gives back x |
| RegistryStore.DataLineParses | src/hooks/registry-monitor.ts:95-99 | a data line "<tag>: '<x>'" yields x when x has no colon and no quote |
| RegistryStore.DataLineCutAtColon | src/hooks/registry-monitor.ts:95-98 | as written, a data line whose data holds a colon yields only the part of the data before its first colon |
| RegistryStore.AsWrittenDataCutAtColon | src/hooks/registry-monitor.ts:72-100 | as written, an ADDED text whose new data is "<a>:<b>" is read back with new data a |
| RegistryStore.AsWrittenDrivePathCut | src/hooks/registry-monitor.ts:97-98 | as written, new data `C:\x` is read back as `C` |
| RegistryStore.DataFieldMeantReadsBack | src-tauri/src/registry_monitor.rs:303-308 | the intended reading (everything after the first ": ", trimmed, without its surrounding quotes) gives back any data the backend writes, colons and quotes included |
| RegistryStore.DataFieldsAgree | src/hooks/registry-monitor.ts:95-98 | on data without a colon or a quote the reading as written and the intended one both give the data back |
| RegistryStore.DrivePathReadsBackMeant | src-tauri/src/registry_monitor.rs:303-308 | the intended reading keeps `C:\x` whole |
| RegistryStore.PreviousDataLine | src/hooks/registry-monitor.ts:95-96 | a "Previous Data" line sets only the previous data |
| RegistryStore.NewDataLine | src/hooks/registry-monitor.ts:97-98 | a "New Data" line sets only the new data |
| RegistryStore.ApplyLinesCons | src/hooks/registry-monitor.ts:85 | the lines are applied in order |
| RegistryStore.TwoLines | src/hooks/registry-monitor.ts:76 | two lines joined by a newline split back into the two |
| RegistryStore.ThreeLines | src/hooks/registry-monitor.ts:76 | three lines joined by newlines split back into the three |
| RegistryStore.ParseTwo | src/hooks/registry-monitor.ts:76-100 | a two-line payload gives the record of its two lines applied in order |
| RegistryStore.ParseThree | src/hooks/registry-monitor.ts:76-100 | a three-line payload gives the record of its three lines applied in order |
| RegistryStore.UpdatedLines | src/hooks/registry-monitor.ts:76 | an emitted UPDATED text splits into its header, previous-data and new-data lines |
| RegistryStore.AddedLines | src/hooks/registry-monitor.ts:76 | an emitted ADDED text splits into its header and new-data lines |
| RegistryStore.RemovedLines | src/hooks/registry-monitor.ts:76 | an emitted REMOVED text splits into its header and previous-data lines |
| RegistryStore.ReadsBackUpdated | src/hooks/registry-monitor.ts:72-100 | reading back an UPDATED text of the backend recovers its type, value name, key and both data |
| RegistryStore.ReadsBackAdded | src/hooks/registry-monitor.ts:72-100 | reading back an ADDED text recovers its type, value name, key and new data |
| RegistryStore.ReadsBackRemoved | src/hooks/registry-monitor.ts:72-100 | reading back a REMOVED text recovers its type, value name, key and previous data |
| RegistryStore.RegistryMonitor.constructor | src/hooks/registry-monitor.ts:30-44 | loads the saved log when there is one and rebuilds the cache from it |
| RegistryStore.RegistryMonitor.RebuildCache | src/hooks/registry-monitor.ts:46-59 | the cache is rebuilt from the log, which is unchanged |
| RegistryStore.RegistryMonitor.ReceivePayload | src/hooks/registry-monitor.ts:72-115 | a payload that throws changes nothing; otherwise its record is appended to the log, saved and published, and the cache still equals a rebuild from the log |
| RegistryStore.RegistryMonitor.GetChangeCount | src/hooks/registry-monitor.ts:130-133 | the number of logged events under the normalised key, 0 for an unknown key |
| RegistryStore.RegistryMonitor.GetLastModified | src/hooks/registry-monitor.ts:135-138 | the time of the last logged event under the normalised key, or none when there is no event or that time is empty |
| RegistryStore.RegistryMonitor.ClearStorage | src/hooks/registry-monitor.ts:140-147 | empties the log, the cache and the saved item, and publishes the empty log |
| RegistryStore.RegistryMonitor.CheckMonitoringStatus | src/hooks/registry-monitor.ts:149-157 | adopts and publishes the backend's answer, or fails with its error and changes nothing |
| RegistryStore.RegistryMonitor.StartMonitoring | src/hooks/registry-monitor.ts:159-170 | only when stopped: the flag is set and published when the backend agrees, and its failure is passed on |
| RegistryStore.RegistryMonitor.StopMonitoring | src/hooks/registry-monitor.ts:172-183 | only when monitoring: the flag is cleared and published when the backend agrees, and its failure is passed on |
| ConvertTable.DirRows | src/utils/convertMonitorStateToTableData.ts:11-23 | one row per file of a directory, in order, each the row of that file |
| ConvertTable.RowsOfLength | src/utils/convertMonitorStateToTableData.ts:10-24 | the rows number exactly the files listed under the directories |
| ConvertTable.FileTotalGrows | src/utils/convertMonitorStateToTableData.ts:10 | the directories before a given one list no more files than all of them |
| ConvertTable.RowsOfIndex | src/utils/convertMonitorStateToTableData.ts:10-23 | rows come directory by directory and file by file: the row of file j of directory i sits after all rows of the earlier directories |
| ConvertTable.TableCovers | src/utils/convertMonitorStateToTableData.ts:10-23 | every file listed in the changes has its row in the table |
| ConvertTable.TableLength | src/utils/convertMonitorStateToTableData.ts:10-24 | one row per directory and file pair |
| ConvertTable.RowChangesCountEntries | src/utils/convertMonitorStateToTableData.ts:13-21 | in a consistent store a row's Changes is the number of its entries |
| ConvertTable.RowWithoutDetail | src/utils/convertMonitorStateToTableData.ts:12-21 | a path without details shows "N/A" for PID and type, no entries, and the clock reading as its time |
| ConvertTable.RowAfterIngest | src/utils/convertMonitorStateToTableData.ts:12-21 | after an event is ingested its row shows one more change, the event's PID and type (or "N/A" when falsy) and its entries extended by the event |
| ConvertTable.ConvertToTable | src/utils/convertMonitorStateToTableData.ts:5-29 | the nested walk pushes exactly the rows characterised above |
| BackendData.ChangesOfNumber | src/utils/parseBackendData.ts:21 | a Changes number read back from its decimal text is that number, and a missing one is 0 |
| BackendData.Paths | src/utils/parseBackendData.ts:17 | each file is keyed by its path, or "" when it has none |
| BackendData.UniqueMap | src/utils/parseBackendData.ts:13-37 | the map stays well formed: each path is listed once |
| BackendData.PathsSnoc | src/utils/parseBackendData.ts:16-17 | one more file adds one more key |
| BackendData.UniqueKeys | src/utils/parseBackendData.ts:17-35 | the map holds exactly the paths that occur, each row under its own path |
| BackendData.UniqueFirst | src/utils/parseBackendData.ts:29-30 | the first file with a path fixes its row's PID, type and size |
| BackendData.UniqueLast | src/utils/parseBackendData.ts:31-34 | the last file with a path gives its row's changes and timestamp |
| BackendData.UniqueOrder | src/utils/parseBackendData.ts:39 | rows keep the order in which their paths first occur |
| BackendData.UniqueMapSnoc | src/utils/parseBackendData.ts:16-35 | the files are merged one at a time |
| BackendData.UniqueMapStep | src/utils/parseBackendData.ts:16-35 | one more file of a watcher, as the loop sees it |
| BackendData.UniqueRowsPaths | src/utils/parseBackendData.ts:12-40 | exactly one row per distinct path, none twice |
| BackendData.ParseUnique | src/utils/parseBackendData.ts:12-40 | the loop over watchers and files returns the unique rows characterised above |
| BackendData.FileEntriesLength | src/utils/parseBackendData.ts:46-47 | the flattened entries number the sum of the files' entry counts |
| BackendData.EntryRows | src/utils/parseBackendData.ts:47-56 | one row per entry, in order, with missing fields as "" |
| BackendData.AllRowsShape | src/utils/parseBackendData.ts:42-62 | one row per entry, none of them with changes |
| BackendData.FileEntriesAppend | src/utils/parseBackendData.ts:46-47 | every file's entries form one contiguous block |
| BackendData.FileEntriesStep | src/utils/parseBackendData.ts:46-47 | one more file of a watcher, as the loop sees it |
| BackendData.ParseAll | src/utils/parseBackendData.ts:42-62 | the triple loop returns the all-entries rows |
| DataEquality.EntryKeys | src/utils/areDataEqual.ts:24-27 | the compared fields of each entry, in order |
| DataEquality.RowKeys | src/utils/areDataEqual.ts:10-17 | the compared fields of each row, in order |
| DataEquality.AreDataEqual | src/utils/areDataEqual.ts:3-32 | the nested loop answers true exactly when the tables agree row by row on Path, PID, Type, Timestamp, Changes and entry by entry on Path, PID, Type, Timestamp |
| DataEquality.LengthsMatter | src/utils/areDataEqual.ts:4 | tables of different lengths differ, and two empty tables are equal |
| DataEquality.OtherFieldsIgnored | src/utils/areDataEqual.ts:10-27 | fields outside the compared ones never make tables differ |
| ConvertTable.PushDirRows | src/utils/convertMonitorStateToTableData.ts:11-23 | the inner loop appends exactly the rows of one directory's files |
| BackendData.MergeSame | src/utils/parseBackendData.ts:29-34 | merging a file keeps an existing row's PID, type and size and takes the file's changes and timestamp; an unseen path gets the file's own row |
| BackendData.MergeOther | src/utils/parseBackendData.ts:29-34 | merging a file leaves every other path's row as it was |
| BackendData.PushEntryRows | src/utils/parseBackendData.ts:47-56 | the innermost loop appends one row per entry of a file, in order |
| Pagination.TotalPagesIsCeiling | src/hooks/usePagination.ts:17 | the page count is the least number of pages that holds every item, and is 0 exactly when there are no items |
| Pagination.ClampInRange | src/hooks/usePagination.ts:27-30 | `goToPage` always lands on a page in range, on the requested page when that is in range, on page 1 below and on the last page above |
| Pagination.StepsKeepRange | src/hooks/usePagination.ts:19-25 | `nextPage` and `prevPage` keep an in-range page in range |
| Pagination.NextThenPrev | src/hooks/usePagination.ts:19-25 | forward then back returns to the starting page from any page before the last |
| Pagination.PageItemsBound | src/hooks/usePagination.ts:32-36 | a page never holds more than the page size |
| Pagination.PageAt | src/hooks/usePagination.ts:33-35 | position r of page c holds item (c - 1) * size + r |
| Pagination.PageOfItem | src/hooks/usePagination.ts:17-36 | every item is on a counted page, at the position its index gives |
| Pagination.PageCursor.constructor | src/hooks/usePagination.ts:10-15 | the cursor starts on the initial page |
| Pagination.PageCursor.NextPage | src/hooks/usePagination.ts:19-21 | one page further unless on the last page, staying in range |
| Pagination.PageCursor.PrevPage | src/hooks/usePagination.ts:23-25 | one page back unless on page 1, staying in range |
| Pagination.PageCursor.GoToPage | src/hooks/usePagination.ts:27-30 | the requested page clamped into range |
| Pagination.PageCursor.GetPageItems | src/hooks/usePagination.ts:32-36 | the current page's items, at most a page's worth |
| Logger.FormatDateTimeClean | src/utils/Logger.tsx:27-33 | the formatted time holds no `:` or `.`, so it can go in a file name |
| Logger.FirstFieldPrefix | src/utils/Logger.tsx:32 | `split('Z')[0]` is a prefix of the text split |
| Logger.BaseLogger.constructor | src/utils/Logger.tsx:5-15 | a new logger is named `<prefix>_<time>.log`, with nothing pending and no timer |
| Logger.BaseLogger.WriteLogToFile | src/utils/Logger.tsx:49-76 | null and non-array data write nothing; a failed directory creation other than AlreadyExists fails the write; otherwise exactly the data is written to the session file |
| Logger.BaseLogger.LogData | src/utils/Logger.tsx:78-112 | null and non-arrays are ignored; otherwise the data replaces what was pending and the timer is restarted, nothing written yet |
| Logger.BaseLogger.TimerFires | src/utils/Logger.tsx:96-110 | when the timer fires, the pending data (the last handed over) is taken and written once |
| Logger.BaseLogger.ForceWrite | src/utils/Logger.tsx:114-126 | pending data is written at once and the timer cancelled; with nothing pending nothing happens |
| Logger.Loggers.constructor | src/utils/Logger.tsx:133-146 | no logger exists yet |
| Logger.Loggers.GetFileLogger | src/utils/Logger.tsx:136-144 | the first call creates the `file_session` logger, every later call returns the same one |
| Logger.Loggers.GetRegistryLogger | src/utils/Logger.tsx:148-156 | the first call creates the `registry_session` logger, every later call returns the same one |
| RegistrySettings.SortedKeysShape | src/components/RegistrySettings.tsx:39-44 | the listing is a permutation of the stored keys, monitored keys first, each group in stored order |
| RegistrySettings.Sanitize | src/components/RegistrySettings.tsx:150-153 | one leading `Computer\` is removed, any other input is kept |
| RegistrySettings.AddCalls | src/components/RegistrySettings.tsx:110 | one add call per key |
| RegistrySettings.NewKeysSnoc | src/components/RegistrySettings.tsx:102-107 | the keys sent are the presets not already stored, in order |
| RegistrySettings.AddCallsSnoc | src/components/RegistrySettings.tsx:102-110 | one more key sent adds its call at the end |
| RegistrySettings.PresetCounts | src/components/RegistrySettings.tsx:97-117 | every attempted key is counted once, as added or failed, and only new keys are added, in order |
| RegistrySettings.PresetStep | src/components/RegistrySettings.tsx:102-117 | one more preset, as the loop sees it |
| RegistrySettings.PresetMessageCases | src/components/RegistrySettings.tsx:124-129 | the message is left alone exactly when every preset was already stored, and reports failures exactly when an add failed |
| RegistrySettings.Panel.constructor | src/components/RegistrySettings.tsx:28-31 | empty input and message over the stored keys |
| RegistrySettings.Panel.OnInput | src/components/RegistrySettings.tsx:150-154 | the box holds the sanitized input and nothing else changes |
| RegistrySettings.Panel.HandleAdd | src/components/RegistrySettings.tsx:46-63 | a blank input is refused with its message; otherwise the trimmed key is sent, and stored with the box cleared on success, or the error shown on failure |
| RegistrySettings.Panel.HandleToggle | src/components/RegistrySettings.tsx:65-75 | a monitored key is removed, any other added, and nothing else changes |
| RegistrySettings.Panel.HandleRemove | src/components/RegistrySettings.tsx:77-86 | the port removes only a monitored key, and the key leaves the stored list unless that removal failed |
| RegistrySettings.Panel.HandleAddPresets | src/components/RegistrySettings.tsx:97-130 | the new presets are sent in order, the successful ones appended to the stored keys, and the message set as the counts say |
| FileMonitorContext.Paths | src/contexts/FileMonitorContext.tsx:7-10 | the paths of the listed directories, in order |
| FileMonitorContext.UpsertEffect | src/contexts/FileMonitorContext.tsx:55-64 | after an add the path is listed and enabled, a new path is appended, and other entries are untouched |
| FileMonitorContext.UpsertNoDuplicates | src/contexts/FileMonitorContext.tsx:56-63 | adding never lists a path twice |
| FileMonitorContext.UpsertIdempotent | src/contexts/FileMonitorContext.tsx:55-64 | adding the same path twice is adding it once |
| FileMonitorContext.MarkDisabledEffect | src/contexts/FileMonitorContext.tsx:73-77 | a remove keeps every entry in place and only disables the removed path |
| FileMonitorContext.Context.constructor | src/contexts/FileMonitorContext.tsx:25-28 | no directories, not initialised, no calls |
| FileMonitorContext.Context.AddDirectoryByPath | src/contexts/FileMonitorContext.tsx:52-69 | the monitor is asked to add; only on success is the list updated, never with a duplicate |
| FileMonitorContext.Context.RemoveDirectory | src/contexts/FileMonitorContext.tsx:70-82 | the monitor is asked to remove; only on success is the entry disabled, and the list keeps its length |
| FileMonitorContext.Context.Initialize | src/contexts/FileMonitorContext.tsx:87-100 | the first run adds `C:\example` on the monitor and starts it, leaving the list as it was; later runs do nothing |
| FileSystemSettings.AsWrittenKeepsOrder | src/components/FileSystemSettings.tsx:15-18 | as written, the comparator reads `isEnabled`, which the context's directories lack, so the listing is the list order and no card is shown monitored |
| FileSystemSettings.AsWrittenMonitoredNotFirst | src/components/FileSystemSettings.tsx:15-18 | an unmonitored directory listed before a monitored one stays first as written, where the meant order puts the monitored one first |
| FileSystemSettings.SortedDirectoriesShape | src/components/FileSystemSettings.tsx:15-18 | the listing as meant is a permutation of the directories, monitored ones first, and each card shows its directory's path and flag |
| FileSystemSettings.Panel.constructor | src/components/FileSystemSettings.tsx:7 | an empty input box |
| FileSystemSettings.Panel.OnInput | src/components/FileSystemSettings.tsx:56-57 | the box holds the input |
| FileSystemSettings.Panel.HandleAddDirectory | src/components/FileSystemSettings.tsx:20-26 | a blank input does nothing; otherwise the trimmed path is added and the box is always cleared, since the context swallows a failed add |
| FileSystemSettings.Panel.OnCardAdd | src/components/FileSystemSettings.tsx:90 | toggles the directory |
| FileSystemSettings.Panel.OnCardRemove | src/components/FileSystemSettings.tsx:91 | toggles the directory, as adding does |
| FileSystemSettings.Panel.OnCardDelete | src/components/FileSystemSettings.tsx:92 | deletes the directory |
| Actions.AddIfAbsentEffect | src/utils/actions.ts:20-28 | a listed path leaves the list unchanged; a new path is appended enabled; the existing entries are never changed; afterwards the path is listed |
| Actions.AddIfAbsentIdempotent | src/utils/actions.ts:25-26 | adding a path twice is adding it once |
| Actions.ActionState.constructor | src/utils/actions.ts:22-23 | the stored list as found, with no refreshes and no calls |
| Actions.ActionState.UpdateMonitoredDirectories | src/utils/actions.ts:20-35 | a new path is appended, saved, and the context refreshed when a refresher is registered; a listed path changes nothing |
| Actions.ActionState.AddBoxAction | src/utils/actions.ts:58-66 | the file's directory is sent to the backend, and recorded only when that call returns |
| Actions.ActionState.KillAction | src/utils/actions.ts:84-95 | only an object with a `pid` is sent to the backend, whose message is returned; anything else sends nothing and returns nothing |
| RecentActivity.ActionColorIsFirstMatch | src/components/dashboard/RecentActivityFeed.tsx:17-27 | `getActionColor` is the first rule, in order, whose word occurs in the lower-cased action, gray by default |
| RecentActivity.AddedBeatsSubkey | src/components/dashboard/RecentActivityFeed.tsx:19-25 | an action that names an addition is green even when it names a subkey too |
| RecentActivity.TruncatePathShort | src/components/dashboard/RecentActivityFeed.tsx:38-41 | a path within the limit is kept; a long one of at most three segments keeps its last `maxLength` characters after `...` |
| RecentActivity.TruncatePathSegments | src/components/dashboard/RecentActivityFeed.tsx:40-42 | a long path of more than three segments becomes its first segment, `...` and its last two segments |
| RecentActivity.FileActivities | src/components/dashboard/RecentActivityFeed.tsx:50-64 | one activity per entry, in watcher, file and entry order |
| RecentActivity.FileActivitiesShape | src/components/dashboard/RecentActivityFeed.tsx:52-64 | as many activities as entries, each with the entry's path, type and time, and its process name or else `PID: <pid>` |
| RecentActivity.RegistryActivities | src/components/dashboard/RecentActivityFeed.tsx:69-76 | one activity per event, in log order, with key, type and time, and the value as details when it is not empty |
| RecentActivity.NewestShape | src/components/dashboard/RecentActivityFeed.tsx:65-80 | the feed is at most 50 of the activities, newest first, and every one left out is no newer than any shown |
| ActivityStats.CountEntryTotal | src/components/dashboard/ActivityStatsCard.tsx:26-32 | an entry raises exactly one counter, or none when no word matches |
| ActivityStats.AllClassifiedSnoc | src/components/dashboard/ActivityStatsCard.tsx:25-33 | every entry is classified exactly when the earlier ones are and the last one is |
| ActivityStats.FileCountsTotal | src/components/dashboard/ActivityStatsCard.tsx:23-35 | the file counts add up to at most the number of entries, and to exactly that number when every entry matches a word |
| ActivityStats.FileCountsSnoc | src/components/dashboard/ActivityStatsCard.tsx:25 | one more entry counted, as the innermost loop sees it |
| ActivityStats.CountEventTotal | src/components/dashboard/ActivityStatsCard.tsx:49-53 | an event raises at most one counter, and exactly one for the three backend types |
| ActivityStats.RegistryCountsTotal | src/components/dashboard/ActivityStatsCard.tsx:48-54 | the registry counts add up to at most the number of events, and to exactly that number when all have backend types |
| ActivityStats.UpperFixed | src/components/dashboard/ActivityStatsCard.tsx:49-52 | the backend's type names are unchanged by `toUpperCase` |
| ActivityStats.FileStatsSum | src/components/dashboard/ActivityStatsCard.tsx:37-65 | the total shown is the sum of the six file counters |
| ActivityStats.RegistryStatsSum | src/components/dashboard/ActivityStatsCard.tsx:56-65 | the total shown is the sum of the four registry counters |
| ActivityStats.FileTotalBound | src/components/dashboard/ActivityStatsCard.tsx:19-65 | the file total shown never exceeds the entries, and equals them exactly when every entry is classified |
| ActivityStats.RegistryTotalBound | src/components/dashboard/ActivityStatsCard.tsx:45-65 | the registry total shown never exceeds the events, and equals them when all have backend types |
| ActivityStats.TallyEntry | src/components/dashboard/ActivityStatsCard.tsx:26-32 | the callback raises the counter of the first word found |
| ActivityStats.FileStats | src/components/dashboard/ActivityStatsCard.tsx:20-44 | the nested loops count every entry in order, giving the six statistics |
| ActivityStats.RegistryStats | src/components/dashboard/ActivityStatsCard.tsx:45-61 | the loop counts every event in order, giving the four statistics |
| MonitoredPaths.TruncatePathShort | src/components/dashboard/MonitoredPathsCard.tsx:9-12 | a path within the limit is kept; a long one of at most two segments keeps its last `maxLength` characters after `...` |
| MonitoredPaths.TruncatePathSegments | src/components/dashboard/MonitoredPathsCard.tsx:11-13 | a long path of three or more segments becomes its first segment, `...` and its last segment |
| MonitoredPaths.EnabledCountAsWrittenZero | src/components/dashboard/MonitoredPathsCard.tsx:21-22 | as written, the file-mode count is 0 whatever the directories |
| MonitoredPaths.EnabledCountAsWrittenMissesOne | src/components/dashboard/MonitoredPathsCard.tsx:21-22 | with the default directory monitored, the card as written shows 0 where the corrected count is 1 |
| MonitoredPaths.EnabledCountBounds | src/components/dashboard/MonitoredPathsCard.tsx:21-23 | the corrected count never exceeds the directories, is positive exactly when one is monitored, and is all of them exactly when all are |
| MonitoredPaths.DirectoryItems | src/components/dashboard/MonitoredPathsCard.tsx:20-44 | one item per directory, with its path |
| MonitoredPaths.KeyItems | src/components/dashboard/MonitoredPathsCard.tsx:20 | one item per monitored key, with the key as its path |
| MonitoredPaths.DirectoryItemsEnabled | src/components/dashboard/MonitoredPathsCard.tsx:20-52 | the directories drawn green are exactly those counted |
| MonitoredPaths.KeyItemsEnabled | src/components/dashboard/MonitoredPathsCard.tsx:20-52 | every key is drawn green |
| MonitoredPaths.EnabledCountMatchesItems | src/components/dashboard/MonitoredPathsCard.tsx:20-23 | in both modes the heading count is the number of items drawn as enabled |
| MonitoredPaths.ListedAndMore | src/components/dashboard/MonitoredPathsCard.tsx:42-63 | at most the first ten items are listed, in order, and `+N more` appears exactly for the rest |
| MonitoredPaths.CardShape | src/components/dashboard/MonitoredPathsCard.tsx:25-66 | each listed path is shortened and keeps its state; an empty list shows only its message |
| SystemStatus.Statuses | src/components/dashboard/SystemStatusCard.tsx:17-32 | two rows, file monitoring then registry monitoring |
| SystemStatus.StatusesAsWrittenInactive | src/components/dashboard/SystemStatusCard.tsx:15-23 | as written, file monitoring is always inactive with "No directories configured", though the default directory is monitored |
| SystemStatus.StatusesActive | src/components/dashboard/SystemStatusCard.tsx:15-32 | corrected, file monitoring is active exactly when some directory is monitored; registry monitoring exactly when the monitor runs and has keys |
| SystemStatus.DetailText | src/components/dashboard/SystemStatusCard.tsx:21-30 | the detail says nothing is configured exactly for zero; otherwise it names the count, singular exactly for one |
| SystemStatus.FileStatusMatchesDetail | src/components/dashboard/SystemStatusCard.tsx:20-30 | file monitoring is active exactly when its detail names a count; an active registry row always names its keys |
| RegistryTable.LastModifiedLatest | src/components/RegistryMUITable.tsx:48-55 | with valid timestamps, Last Modified is empty exactly for no entries, and otherwise the latest of them |
| RegistryTable.Tag | src/components/RegistryMUITable.tsx:140 | one keyed change per entry of a row |
| RegistryTable.ChangesLength | src/components/RegistryMUITable.tsx:220-222 | the changes view has one row per change of every key |
| RegistryTable.ChangesMembers | src/components/RegistryMUITable.tsx:220-222 | every change shown belongs to a row with that key, and every change of every row is shown |
| RegistryTable.SelectedEntriesShape | src/components/RegistryMUITable.tsx:134-141 | the modal is empty when closed or with nothing selected, shows only changes of selected keys, and all of them |
| RegistryTable.ExportValue | src/components/RegistryMUITable.tsx:158-166 | arrays, null and undefined export as empty text, numbers as numbers, strings as themselves, objects as their JSON |
| RegistryTable.ExportObjectKeys | src/components/RegistryMUITable.tsx:156-168 | every field of the row is exported under its own name, and nothing else |
| RegistryTable.ExportObjectValue | src/components/RegistryMUITable.tsx:157-167 | a field not assigned again later is exported as its converted value |
| RegistryTable.ExportRow | src/components/RegistryMUITable.tsx:154-169 | the loop over the row's fields builds exactly that export object |
| RegistryTable.Records | src/components/RegistryMUITable.tsx:185-207 | one record per change |
| RegistryTable.ExportDataShape | src/components/RegistryMUITable.tsx:174-197 | the keys export has one record per row with its key and count; the changes export one record per change, with its key and fields |
| RegistryTable.ModalExportKeys | src/components/RegistryMUITable.tsx:199-210 | the modal export holds only changes of selected keys, and nothing when the modal is closed |
| SystemStatus.MonitoringTextShape | src/components/dashboard/SystemStatusCard.tsx:21-29 | the detail reads "Monitoring " then the count's decimal digits, which read back as the count, and uses the singular noun exactly for one |
| FileTable.ParsedDataShape | src/components/MUITable.tsx:103-109 | the unique view never lists a path twice; the other view has one row per entry |
| FileTable.SelectedFiles | src/components/MUITable.tsx:149-150 | only files whose path is selected, never more than there are |
| FileTable.SelectAll | src/components/MUITable.tsx:150 | when every file's path is selected, every file is kept |
| FileTable.EntriesForPathsShape | src/components/MUITable.tsx:145-167 | the detail rows number the entries of the selected files and never carry `changes`; with every file selected they are the whole all-entries view |
| FileTable.NothingSelected | src/components/MUITable.tsx:150 | with no path selected no file is kept |
| FileTable.SelectedStep | src/components/MUITable.tsx:149-162 | one more file, as the file-by-file loop sees it |
| FileTable.GetEntriesForPaths | src/components/MUITable.tsx:145-167 | the nested loops push exactly the detail rows of the selected files, in order |
| FileTable.ModalDataShape | src/components/MUITable.tsx:170-175 | the modal is empty while closed and otherwise shows the detail rows of the selected paths |
| DataTables.DataTable.constructor | src/utils/dataTableUtils.ts:5 | a table over the given rows, not yet redrawn |
| DataTables.AddRows | src/utils/dataTableUtils.ts:5-13 | with no table nothing happens; otherwise the new rows follow the old ones, in order, and the table redraws once |
| LogsTable.StarRule | src/components/LogsTable.tsx:109-185 | a file changed more than once shows `*` for PID and Type, otherwise its PID and type, in the rendered rows and in the rows added later alike |
| LogsTable.NewRows | src/components/LogsTable.tsx:107-115 | one data-table row per log row, in order |
| LogsTable.AddedRowsShape | src/components/LogsTable.tsx:105-115 | only rows of the new data whose path is not shown yet are added, every such row is, and with nothing shown all of them are |
| LogsTable.FindPathFirst | src/components/LogsTable.tsx:62 | the lookup finds the first row with the path, and finds one exactly when the path is shown |
| LogsTable.Logs.constructor | src/components/LogsTable.tsx:33-36 | the initial data, no table, not initialised, modal closed |
| LogsTable.Logs.InitializeDataTable | src/components/LogsTable.tsx:38-85 | a table is created only once, over the rendered rows; the component is then initialised and the click listener keeps the data of that moment |
| LogsTable.Logs.UpdateData | src/components/LogsTable.tsx:102-119 | once initialised the rows for new paths go to the table; the new data is always kept |
| LogsTable.Logs.HandleRowClick | src/components/LogsTable.tsx:125-133 | only a non-empty entry list opens the modal with those entries |
| LogsTable.Logs.OnViewClick | src/components/LogsTable.tsx:38-67 | a click looks its path up in the data captured when the table was created: a row found there with entries opens them, and an empty path or a path not in that data (such as a row added by a later update) does nothing |
| LogsTable.Logs.CloseModal | src/components/LogsTable.tsx:135 | the modal closes and nothing else changes |
| LogsTable.AddedRowsAreNew | src/components/LogsTable.tsx:105-115 | every added row comes from a new-data row whose path is not shown yet |
| LogsTable.AddedRowsComplete | src/components/LogsTable.tsx:105-115 | every new-data row whose path is not shown yet is added |
| SettingsContext.InitialSettingsMeaning | src/contexts/SettingsContext.tsx:31-39 | nothing stored or a read or parse error gives the defaults; each stored field overrides its default and a missing one keeps it; saved settings read back as they were |
| SettingsContext.Provider.constructor | src/contexts/SettingsContext.tsx:31-48 | the initial settings, saved under `appSettings` by the first run of the save effect |
| SettingsContext.Provider.Change | src/contexts/SettingsContext.tsx:42-48 | every settings change is saved under `appSettings`, other keys untouched |
| SettingsContext.Provider.SetFileSystemCurrentSession | src/contexts/SettingsContext.tsx:51-53 | only that field changes, and the result is saved |
| SettingsContext.Provider.SetFileSystemPastSessions | src/contexts/SettingsContext.tsx:55-57 | only that field changes, and the result is saved |
| SettingsContext.Provider.SetRegistryCurrentSession | src/contexts/SettingsContext.tsx:59-61 | only that field changes, and the result is saved |
| SettingsContext.Provider.SetRegistryPastSessions | src/contexts/SettingsContext.tsx:63-65 | only that field changes, and the result is saved |
| SettingsContext.Provider.ResetToDefaults | src/contexts/SettingsContext.tsx:67-69 | the defaults, saved |
| SettingsContext.SettersIndependent | src/contexts/SettingsContext.tsx:51-65 | each setter leaves the other fields alone, and setters of different fields commute |
| LocalStorage.InitialValueMeaning | src/hooks/useLocalStorage.ts:5-13 | a readable stored value is taken; a missing or empty item, or a read or parse error, gives the initial value; a value written is read back |
| LocalStorage.Hook.constructor | src/hooks/useLocalStorage.ts:4-13 | the state starts at the initial read |
| LocalStorage.Hook.SetValue | src/hooks/useLocalStorage.ts:16-23 | the state takes the value; storage holds it under the key unless the write throws; other keys are untouched |
| Navigation.NavigateToShape | src/contexts/NavigationContext.tsx:32-42 | the destination is selected; the home crumb comes first; the Dashboard has no other crumb, and any other destination exactly one more, current, with its name and href |
| Navigation.Dashed | src/contexts/NavigationContext.tsx:36 | the replacement never lengthens the text |
| Navigation.DashedNoWhitespace | src/contexts/NavigationContext.tsx:36 | no whitespace is left |
| Navigation.DashedPlain | src/contexts/NavigationContext.tsx:36 | text without whitespace is unchanged |
| Navigation.DashedIdempotent | src/contexts/NavigationContext.tsx:36 | replacing twice is replacing once |
| Navigation.DashedAppend | src/contexts/NavigationContext.tsx:36 | text starting with a non-space is replaced on its own, whatever precedes it |
| Navigation.DashedRun | src/contexts/NavigationContext.tsx:36 | a whole run of whitespace becomes a single `-` |
| Navigation.DashedWords | src/contexts/NavigationContext.tsx:36 | two words separated by whitespace are joined by one `-` |
| Navigation.HrefShape | src/contexts/NavigationContext.tsx:36 | the href starts with `/`, is at most one longer than the destination, and has no whitespace |
| Navigation.HrefWords | src/contexts/NavigationContext.tsx:36 | two lower-case words separated by whitespace give `/word-word` |
| Text.TrimEmptyIffBlank | src/components/RegistrySettings.tsx:47-50 | `trim()` leaves nothing exactly when the input is all whitespace, so a blank input is refused |
| Text.TrimIdempotent | src/components/FileSystemSettings.tsx:21 | trimming a trimmed path changes nothing |
| Numbers.ParseIntRoundTrip | src/utils/parseBackendData.ts:21 | `parseInt` reads back the decimal text of every integer |
| Numbers.ParseIntHex | src/utils/parseBackendData.ts:21 | with no radix given, `0x` followed by hexadecimal digits reads as their hexadecimal value, and `0x` alone is `NaN` |
| Numbers.ParseIntHexExample | src/utils/parseBackendData.ts:21 | a change count written `0x1A` reads as 26 |
| Seqs.SortDesc | src/components/dashboard/RecentActivityFeed.tsx:65-67 | the newest-first sort orders by time and is a permutation of its input |
| Seqs.KeyFirstSorted | src/components/FileSystemSettings.tsx:15-18 | a stable sort on a two-valued key is a permutation putting every keyed item first |
| OrderedMaps.Put | src/utils/parseBackendData.ts:29-35 | assigning an object property keeps an existing key in place and appends a new one |
| OrderedMaps.Values | src/utils/parseBackendData.ts:39 | `Object.values` lists the values in key order |
| Seqs.DroppedNoGreater | src/components/dashboard/RecentActivityFeed.tsx:77-80 | keeping the first n of a newest-first list keeps it sorted, takes only listed items, keeps everything when it is short, and drops nothing newer than what it keeps |

## Left out

- Threads, channels, `Arc<Mutex>`/`AtomicBool` sharing and the driver polling loop are left out; the processing threads are sequential loops over a finite list of messages or turns.
- WinPath.Components: only the drive prefix `X:` is parsed. The UNC (`\\server\share`), verbatim (`\\?\`) and device (`\\.\`) prefixes are read as a root followed by names, so paths with those prefixes are not compared as Rust compares them.
- The minifilter driver, `GetFileAttributesW`, `std::fs::metadata`, `winreg` enumeration and `RegNotifyChangeKeyValue`, the `sysinfo` process table and its `kill` are inputs (driver messages with the process lookup done, file probes, enumerated values, notification outcomes, a process list and kill outcomes).
- The clock is an input: message times, `new Date()`, `toISOString`, `getTime` (`timeOf`), `toLocaleString`/`toLocaleTimeString` and chrono formatting are not modelled; timestamps are opaque strings.
- `JSON.parse`/`JSON.stringify` and serde are not modelled: stored items are held decoded, the logger writes the items themselves, and the registry table's object export carries its JSON text as given (`JsObject.json`, the `stringify` parameter).
- The lossy UTF-16 and UTF-8 decoders inside `clean_registry_data` are parameters; only the byte-to-unit step and the NUL trimming are modelled.
- RegistryMonitorBackend.Utf16Units: reads `u16::from_ne_bytes` as little-endian, the byte order of the Windows targets the program runs on.
- Tauri's `invoke`, `listen` and `emit_all` become `Reply`/`Outcome` inputs and logs of the calls made; `localStorage` is a map from keys to decoded values.
- FileStore.FileMonitor.OnFileEvent: works on values, so the sharing of nested objects between the old and new state that `monitor.ts`'s shallow copies create (an `entries.push` seen through the previous state) is not captured.
- Pagination.TotalPages: requires a positive page size; with 0 the source divides by zero and JavaScript gives `Infinity` or `NaN` pages, which the model does not represent. The same precondition is on `Pagination.PageCursor` and its methods.
- Logger.BaseLogger.TimerFires: the promise chain (`logQueue`) that serialises writes is modelled as writes issued one after another; the promises `logData` returns and their rejection are not modelled, nor the 100 ms delay itself.
- The console output of every component and the empty-data warning of `writeLogToFile` are not modelled.
- `handleBrowseRegistry`, `handleBrowseDirectory`, the clipboard, open-in-explorer and show-properties actions open external programs and are not modelled.
- RegistrySettings.Panel.HandleAddPresets: the 3-second timer that clears the success message is not modelled.
- The context methods that the settings panels call (`addRegistryKey`, `removeRegistryKey`, `toggleDirectoryState`, `deleteDirectory`) are not defined in the contexts shown, so they are a fallible command port whose calls are logged.
- Actions.ActionState.AddBoxAction: `dirname` is an input (`parent`); the kill action's backend response is an input (`responseMessage`).
- JavaScript numbers are modelled as unbounded integers; `NaN` appears only where `parseInt` can produce it.
- RecentActivity.NewestShape: `timeOf` is total; an invalid date (`NaN`) would make the source's comparator inconsistent, which is not modelled.
- RegistryStore.ReadsBackUpdated: stated only for data without colons or quotes; the listener as written cuts other data at its first colon and drops its quotes (see Findings).
- RegistryStore.ReadsBackAdded: the same restriction on the new data.
- RegistryStore.ReadsBackRemoved: the same restriction on the previous data.
- RegistryStore.ParsePayload: keeps the listener's reading as written; the intended reading `DataFieldMeant` is defined beside it for single lines, and the store's log is not rebuilt on it.
- RegistryTable.LastModifiedLatest: states the result only for entries whose times are all valid and non-empty; with an invalid date the `>` comparison is false and the model follows the code, but no lemma describes the outcome.
- The LogsTable button markup, the DOM lookup from a click to its row, the export button and the effect's cleanup are not modelled (the cleanup destroys the data table whenever `data` changes but leaves the reference set, so the table is never rebuilt; the model keeps one live table); the rows rendered before the data table is built are an input, and the `datatable.init` event is taken to follow the table's creation at once.
- The registry row type used by `RegistryMUITable.tsx` is missing from `src/utils/types.ts`; its fields are taken from their use in the component.
- SystemStatus.StatusColor and SystemStatus.StatusText are direct case tables and carry no contract.
- Text.IsWhitespace: covers the ASCII and Latin-1 spaces; other Unicode spaces that JavaScript's `\s` and `trim` also accept are not modelled, and `toLowerCase`/`toUpperCase` change only ASCII letters.
- The settings storage write failure, which `SettingsContext.tsx` catches and logs, is not modelled: the save always succeeds.
- The floating-point `entropy` field of file events and the percentage formatting of the dashboard are not modelled.
- The rendering of every component (markup, icons, themes, MUI and Flowbite widgets) is not modelled; the cards are modelled as the values they display.
- `src/hooks/useFileMonitor.ts`, `src/hooks/useRegistryMonitor.ts` and `src/contexts/RegistryMonitorContext.tsx` are thin wrappers and are not part of this model, nor are `console_only.rs`, `wmi_manager.rs`, the export helpers and the pages.

## Findings

| source | as written | input that shows it | evidently intended | confidence | as-written member | corrected member |
|---|---|---|---|---|---|---|
| src-tauri/src/registry_monitor_prototype.rs:93-95, 106-108 | the UPDATED and ADDED log lines put the key's path where the value name goes, and the value name where the key goes | a change of value `OneDrive` under key `HKEY_CURRENT_USER\Software\Microsoft\Windows\CurrentVersion\Run` is logged as value `HKEY_CURRENT_USER\...\Run` in key `OneDrive` | `Value '<name>' in registry key '<key>'`, as the REMOVED line (lines 134-137) and `registry_monitor.rs` write it | high, not executed | RegistryPrototype.AsWrittenMisnamesValue | RegistryPrototype.LogTextNamesValue |
| src/hooks/registry-monitor.ts:95-98 | a data line is read with `split(':')[1]`, so data holding a colon is cut at its first colon, and every quote in the data is removed | an ADDED change whose new data is `C:\x` (any drive path) is recorded with new data `C` | the whole text between the quotes after `": "`, as `registry_monitor.rs` writes it (lines 303-308) | high, not executed | RegistryStore.AsWrittenDrivePathCut | RegistryStore.DataFieldMeantReadsBack |
| src/components/dashboard/MonitoredPathsCard.tsx:21-22 | the file-mode count filters on `d.isEnabled`, but the context's directories only have `isMonitored` (src/contexts/FileMonitorContext.tsx:7-10), so the count is always 0 | directories `[{ path: "C:\\example", isMonitored: true }]` show 0 | the number of monitored directories (here 1) | high, not executed | MonitoredPaths.EnabledCountAsWrittenMissesOne | MonitoredPaths.EnabledCountBounds |
| src/components/dashboard/SystemStatusCard.tsx:15, 20-23 | the same `isEnabled` read makes file monitoring always "Inactive" with "No directories configured" | the same directories give Inactive | Active with "Monitoring 1 directory" | high, not executed | SystemStatus.StatusesAsWrittenInactive | SystemStatus.StatusesActive |
| src/components/FileSystemSettings.tsx:15-18, 88 | the settings list sorts on `a.isEnabled` and passes `directory.isEnabled` to each card, but the context's directories only have `isMonitored`, so the comparator always returns 0 and every card gets `undefined` | directories `[{ path: "a", isMonitored: false }, { path: "b", isMonitored: true }]` are listed a, b with neither card shown monitored | monitored directories first (b, a), each card showing its flag | high, not executed | FileSystemSettings.AsWrittenMonitoredNotFirst | FileSystemSettings.SortedDirectoriesShape |
