/** The integration settings form (src/pages/IntegrationsPage.tsx): the
    single settings row is loaded into a form of plain strings, and saving
    writes empty fields back as nulls. */
module IntegrationsPage {
  import opened Types
  import opened Tables
  import opened Store

  /** The settings form; "" stands for a missing value. */
  datatype SettingsForm = SettingsForm(
    assemblyaiApiKey: string,
    assemblyaiWebhookSecret: string,
    llmProvider: string,
    llmApiKey: string,
    llmBaseUrl: string,
    llmDefaultModel: string)

  const DefaultProvider := "openai"

  /** The form before any settings are loaded. */
  const InitialSettingsForm := SettingsForm("", "", DefaultProvider, "", "", "")

  /** `.single()`: the row when the table holds exactly one, otherwise nothing. */
  function SingleRow(rows: seq<IntegrationSettings>): (r: Option<IntegrationSettings>)
    ensures r.Some? <==> |rows| == 1
    ensures r.Some? ==> r.value in rows
  {
    if |rows| == 1 then Some(rows[0]) else None
  }

  /** The form filled from a settings row; missing values show as "" and a
      missing provider as the default one. */
  function FormOf(s: IntegrationSettings): (f: SettingsForm)
    ensures f.llmProvider != ""
    ensures f.llmProvider == (if s.llmProvider == "" then DefaultProvider else s.llmProvider)
  {
    SettingsForm(NullToEmpty(s.assemblyaiApiKey), NullToEmpty(s.assemblyaiWebhookSecret),
                 if s.llmProvider == "" then DefaultProvider else s.llmProvider,
                 NullToEmpty(s.llmApiKey), NullToEmpty(s.llmBaseUrl), NullToEmpty(s.llmDefaultModel))
  }

  /** The columns a save writes: every empty field but the provider as null. */
  function ChangesOf(f: SettingsForm): (ch: SettingsChanges)
    ensures ch.llmProvider == f.llmProvider
    ensures ch.assemblyaiApiKey.None? <==> f.assemblyaiApiKey == ""
    ensures ch.assemblyaiWebhookSecret.None? <==> f.assemblyaiWebhookSecret == ""
    ensures ch.llmApiKey.None? <==> f.llmApiKey == ""
    ensures ch.llmBaseUrl.None? <==> f.llmBaseUrl == ""
    ensures ch.llmDefaultModel.None? <==> f.llmDefaultModel == ""
  {
    SettingsChanges(EmptyToNull(f.assemblyaiApiKey), EmptyToNull(f.assemblyaiWebhookSecret), f.llmProvider,
                    EmptyToNull(f.llmApiKey), EmptyToNull(f.llmBaseUrl), EmptyToNull(f.llmDefaultModel))
  }

  /** Saving a form and loading the row again gives back the same form
      (the provider select never offers ""). */
  lemma SaveThenLoad(s: IntegrationSettings, f: SettingsForm)
    requires f.llmProvider != ""
    ensures FormOf(ApplySettings(s, ChangesOf(f))) == f
  {
    NullRoundTrip(f.assemblyaiApiKey, None);
    NullRoundTrip(f.assemblyaiWebhookSecret, None);
    NullRoundTrip(f.llmApiKey, None);
    NullRoundTrip(f.llmBaseUrl, None);
    NullRoundTrip(f.llmDefaultModel, None);
  }

  /** Loading a row and saving the form untouched keeps the row, provided
      it holds no empty strings (those come back as null, and an empty
      provider as the default). */
  lemma LoadThenSave(s: IntegrationSettings)
    requires s.llmProvider != ""
    requires s.assemblyaiApiKey != Some("") && s.assemblyaiWebhookSecret != Some("")
    requires s.llmApiKey != Some("") && s.llmBaseUrl != Some("") && s.llmDefaultModel != Some("")
    ensures ApplySettings(s, ChangesOf(FormOf(s))) == s
  {
    NullRoundTrip("", s.assemblyaiApiKey);
    NullRoundTrip("", s.assemblyaiWebhookSecret);
    NullRoundTrip("", s.llmApiKey);
    NullRoundTrip("", s.llmBaseUrl);
    NullRoundTrip("", s.llmDefaultModel);
  }

  class IntegrationsPage {
    const store: RecordStore
    var settings: Option<IntegrationSettings>
    var form: SettingsForm
    var saving: bool
    var saved: bool

    constructor (store: RecordStore)
      ensures this.store == store && !saving && !saved
      ensures |store.db.settings| == 1 ==>
        settings == Some(store.db.settings[0]) && form == FormOf(store.db.settings[0])
      ensures |store.db.settings| != 1 ==> settings.None? && form == InitialSettingsForm
    {
      this.store := store;
      settings := None;
      form := InitialSettingsForm;
      saving := false;
      saved := false;
      new;
      LoadSettings();
    }

    /** Reads the settings row; with exactly one row the form is refilled
        from it, otherwise the page keeps what it had. */
    method LoadSettings()
      modifies this`settings, this`form
      ensures |store.db.settings| == 1 ==>
        settings == Some(store.db.settings[0]) && form == FormOf(store.db.settings[0])
      ensures |store.db.settings| != 1 ==> settings == old(settings) && form == old(form)
    {
      var row := SingleRow(store.db.settings);
      if row.Some? {
        settings := row;
        form := FormOf(row.value);
      }
    }

    /** Editing a field of the form. */
    method Edit(f: SettingsForm)
      modifies this`form
      ensures form == f
    {
      form := f;
    }

    /** Writes the form to the loaded row (no row when none was loaded),
        shows the saved notice and reloads. */
    method HandleSubmit()
      requires store.Valid()
      modifies this, store
      ensures store.Valid()
      ensures store.db == UpdateSettings(old(store.db), if old(settings).Some? then Some(old(settings).value.id) else None,
                                         ChangesOf(old(form)))
      ensures !saving && saved
      ensures |store.db.settings| == 1 ==>
        settings == Some(store.db.settings[0]) && form == FormOf(store.db.settings[0])
      ensures |store.db.settings| != 1 ==> settings == old(settings) && form == old(form)
    {
      saving := true;
      saved := false;
      store.UpdateSettings(if settings.Some? then Some(settings.value.id) else None, ChangesOf(form));
      saving := false;
      saved := true;
      LoadSettings();
    }

    /** The saved notice goes away after a while. */
    method HideSavedNotice()
      modifies this`saved
      ensures !saved
    {
      saved := false;
    }
  }

  /** With one settings row loaded, submitting writes that row and the
      reloaded form is the one submitted. */
  lemma SubmitRoundTrip(db: Db, f: SettingsForm)
    requires |db.settings| == 1 && f.llmProvider != ""
    ensures var r := UpdateSettings(db, Some(db.settings[0].id), ChangesOf(f));
      |r.settings| == 1 && r.settings[0].id == db.settings[0].id && FormOf(r.settings[0]) == f
  {
    SaveThenLoad(db.settings[0], f);
  }
}
