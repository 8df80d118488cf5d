/** The persisted settings of `src/store/settingsStore.ts`: four connection
    strings, empty until the user fills them in, updated by a shallow merge
    of a partial record. */
module SettingsStore {
  import opened Wrappers

  /** `Settings`. */
  datatype Settings = Settings(soraApiUrl: string, soraApiKey: string, geminiApiUrl: string, geminiApiKey: string)

  /** `Partial<Settings>`: a field is `Some` exactly when the partial has it. */
  datatype SettingsPatch = SettingsPatch(
    soraApiUrl: Option<string>,
    soraApiKey: Option<string>,
    geminiApiUrl: Option<string>,
    geminiApiKey: Option<string>)

  const Defaults := Settings("", "", "", "")
  const NoSettingsChanges := SettingsPatch(None, None, None, None)

  /** `{ ...settings, ...patch }`: each field of the partial overwrites the
      stored one; the fields the partial lacks keep their values. */
  function Merge(s: Settings, p: SettingsPatch): Settings
  {
    Settings(
      p.soraApiUrl.GetOr(s.soraApiUrl),
      p.soraApiKey.GetOr(s.soraApiKey),
      p.geminiApiUrl.GetOr(s.geminiApiUrl),
      p.geminiApiKey.GetOr(s.geminiApiKey))
  }

  /** Exactly the fields present in the partial are overwritten, each with
      the partial's value; a field whose value changed was in the partial. */
  lemma MergeFields(s: Settings, p: SettingsPatch)
    ensures var r := Merge(s, p);
      && (p.soraApiUrl.Some? ==> r.soraApiUrl == p.soraApiUrl.value)
      && (p.soraApiKey.Some? ==> r.soraApiKey == p.soraApiKey.value)
      && (p.geminiApiUrl.Some? ==> r.geminiApiUrl == p.geminiApiUrl.value)
      && (p.geminiApiKey.Some? ==> r.geminiApiKey == p.geminiApiKey.value)
      && (p.soraApiUrl.None? ==> r.soraApiUrl == s.soraApiUrl)
      && (p.soraApiKey.None? ==> r.soraApiKey == s.soraApiKey)
      && (p.geminiApiUrl.None? ==> r.geminiApiUrl == s.geminiApiUrl)
      && (p.geminiApiKey.None? ==> r.geminiApiKey == s.geminiApiKey)
  {
  }

  /** Two partials applied in turn: the later one wins field by field. */
  function ThenSettings(p: SettingsPatch, q: SettingsPatch): SettingsPatch
  {
    SettingsPatch(
      p.soraApiUrl.OverriddenBy(q.soraApiUrl),
      p.soraApiKey.OverriddenBy(q.soraApiKey),
      p.geminiApiUrl.OverriddenBy(q.geminiApiUrl),
      p.geminiApiKey.OverriddenBy(q.geminiApiKey))
  }

  /** The empty partial changes nothing; a partial applied twice is applied
      once; two updates in a row are one update with the combined partial. */
  lemma MergeAlgebra(s: Settings, p: SettingsPatch, q: SettingsPatch)
    ensures Merge(s, NoSettingsChanges) == s
    ensures Merge(Merge(s, p), p) == Merge(s, p)
    ensures Merge(Merge(s, p), q) == Merge(s, ThenSettings(p, q))
  {
  }

  /** A merge is decided by the partial alone when the partial is complete:
      whatever was stored before, filling in every field gives the same
      settings. */
  lemma CompletePatchOverwrites(s: Settings, t: Settings, p: SettingsPatch)
    requires p.soraApiUrl.Some? && p.soraApiKey.Some? && p.geminiApiUrl.Some? && p.geminiApiKey.Some?
    ensures Merge(s, p) == Merge(t, p)
  {
  }

  class SettingsState {
    var settings: Settings

    /** The initial state: every field empty. */
    constructor()
      ensures settings == Defaults
    {
      settings := Defaults;
    }

    /** `updateSettings`. */
    method UpdateSettings(p: SettingsPatch)
      modifies this
      ensures settings == Merge(old(settings), p)
    {
      settings := Merge(settings, p);
    }
  }
}
