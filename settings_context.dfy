/** The settings context (`src/contexts/SettingsContext.tsx`): four flags, read at start from
    storage over the defaults, changed one at a time and saved on every change. */
module SettingsContext {
  import opened Common

  /** `Settings`. */
  datatype Settings = Settings(fileSystemCurrentSession: bool, fileSystemPastSessions: bool,
                               registryCurrentSession: bool, registryPastSessions: bool)

  const DefaultSettings := Settings(true, false, true, false)
  const SettingsKey := "appSettings"

  /** The fields of a parsed stored object that are present. */
  datatype StoredFields = StoredFields(fileSystemCurrentSession: Option<bool>, fileSystemPastSessions: Option<bool>,
                                       registryCurrentSession: Option<bool>, registryPastSessions: Option<bool>)

  /** What reading the stored item gives: nothing (missing or empty), an error (a read or parse
      failure), or the parsed fields. */
  datatype StoredRead = NotStored | ReadFailed | Parsed(fields: StoredFields)

  function Override(d: bool, o: Option<bool>): bool {
    if o.Some? then o.value else d
  }

  /** `{ ...DEFAULT_SETTINGS, ...JSON.parse(stored) }`. */
  function Merge(d: Settings, f: StoredFields): Settings {
    Settings(Override(d.fileSystemCurrentSession, f.fileSystemCurrentSession),
             Override(d.fileSystemPastSessions, f.fileSystemPastSessions),
             Override(d.registryCurrentSession, f.registryCurrentSession),
             Override(d.registryPastSessions, f.registryPastSessions))
  }

  /** The initial settings. */
  function InitialSettings(read: StoredRead): Settings {
    match read
    case NotStored => DefaultSettings
    case ReadFailed => DefaultSettings
    case Parsed(f) => Merge(DefaultSettings, f)
  }

  /** The fields as saved: every one present. */
  function Saved(s: Settings): StoredFields {
    StoredFields(Some(s.fileSystemCurrentSession), Some(s.fileSystemPastSessions), Some(s.registryCurrentSession),
                 Some(s.registryPastSessions))
  }

  /** A stored field wins, a missing one keeps its default, and nothing stored or an error gives
      the defaults; saved settings are read back as they were. */
  lemma InitialSettingsMeaning(read: StoredRead, s: Settings)
    ensures !read.Parsed? ==> InitialSettings(read) == DefaultSettings
    ensures read.Parsed? ==> (InitialSettings(read).fileSystemCurrentSession ==
      if read.fields.fileSystemCurrentSession.Some? then read.fields.fileSystemCurrentSession.value else true)
    ensures read.Parsed? ==> (InitialSettings(read).fileSystemPastSessions ==
      if read.fields.fileSystemPastSessions.Some? then read.fields.fileSystemPastSessions.value else false)
    ensures read.Parsed? ==> (InitialSettings(read).registryCurrentSession ==
      if read.fields.registryCurrentSession.Some? then read.fields.registryCurrentSession.value else true)
    ensures read.Parsed? ==> (InitialSettings(read).registryPastSessions ==
      if read.fields.registryPastSessions.Some? then read.fields.registryPastSessions.value else false)
    ensures InitialSettings(Parsed(Saved(s))) == s
    ensures InitialSettings(Parsed(StoredFields(None, None, None, None))) == DefaultSettings
  {
  }

  /** The provider's state: the settings and what storage holds under each key. */
  class Provider {
    var settings: Settings
    var storage: map<string, StoredFields>

    /** Start-up: the initial settings, then the save effect's first run. */
    constructor(read: StoredRead, storage: map<string, StoredFields>)
      ensures settings == InitialSettings(read)
      ensures this.storage == storage[SettingsKey := Saved(settings)]
    {
      settings := InitialSettings(read);
      this.storage := storage[SettingsKey := Saved(InitialSettings(read))];
    }

    /** Whatever the settings, storage holds them under `appSettings`. */
    ghost predicate Persisted()
      reads this
    {
      SettingsKey in storage && storage[SettingsKey] == Saved(settings)
    }

    /** A settings change followed by the save effect. */
    method Change(s: Settings)
      modifies this
      ensures settings == s && storage == old(storage)[SettingsKey := Saved(s)] && Persisted()
    {
      settings := s;
      storage := storage[SettingsKey := Saved(s)];
    }

    method SetFileSystemCurrentSession(v: bool)
      modifies this
      ensures settings == old(settings).(fileSystemCurrentSession := v) && Persisted()
      ensures storage == old(storage)[SettingsKey := Saved(settings)]
    {
      Change(settings.(fileSystemCurrentSession := v));
    }

    method SetFileSystemPastSessions(v: bool)
      modifies this
      ensures settings == old(settings).(fileSystemPastSessions := v) && Persisted()
      ensures storage == old(storage)[SettingsKey := Saved(settings)]
    {
      Change(settings.(fileSystemPastSessions := v));
    }

    method SetRegistryCurrentSession(v: bool)
      modifies this
      ensures settings == old(settings).(registryCurrentSession := v) && Persisted()
      ensures storage == old(storage)[SettingsKey := Saved(settings)]
    {
      Change(settings.(registryCurrentSession := v));
    }

    method SetRegistryPastSessions(v: bool)
      modifies this
      ensures settings == old(settings).(registryPastSessions := v) && Persisted()
      ensures storage == old(storage)[SettingsKey := Saved(settings)]
    {
      Change(settings.(registryPastSessions := v));
    }

    /** `resetToDefaults`. */
    method ResetToDefaults()
      modifies this
      ensures settings == DefaultSettings && Persisted()
      ensures storage == old(storage)[SettingsKey := Saved(DefaultSettings)]
    {
      Change(DefaultSettings);
    }
  }

  /** Each setter changes its own field and no other, and two setters on different fields
      commute. */
  lemma SettersIndependent(s: Settings, v: bool, w: bool)
    ensures s.(fileSystemCurrentSession := v).fileSystemPastSessions == s.fileSystemPastSessions
    ensures s.(fileSystemCurrentSession := v).registryCurrentSession == s.registryCurrentSession
    ensures s.(fileSystemCurrentSession := v).registryPastSessions == s.registryPastSessions
    ensures s.(fileSystemCurrentSession := v).(registryPastSessions := w) == s.(registryPastSessions := w).(fileSystemCurrentSession := v)
    ensures s.(fileSystemPastSessions := v).(registryCurrentSession := w) == s.(registryCurrentSession := w).(fileSystemPastSessions := v)
  {
  }
}
