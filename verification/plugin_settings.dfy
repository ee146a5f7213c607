/** The plugin's persisted settings record (main.ts): its documented
    defaults, the load step that overlays stored data on them, and the
    save step that writes the record back as JSON. */
module PluginSettings {
  import opened JsValues

  /** The settings record. `llmModel` is `None` when the field holds
      `undefined`, which a successful model refresh produces when no model
      is set and the catalog is still empty after the reply's ids, that
      is, the catalog was empty and the reply listed no models.
      `language` is read by the completion prompt but has no declared
      default, so it is `undefined` unless stored data supplies it. */
  datatype Settings = Settings(
    groqKey: string,
    llmModel: Option<string>,
    instructGeneral: string,
    instructSummary: string,
    instructKeypoint: string,
    instructDefine: string,
    temperature: real,
    language: Option<string>)

  /** The object the host's `loadData()` resolves to: each field is
      present or absent. JSON cannot hold `undefined`, so a present field
      always carries a value. */
  datatype Stored = Stored(
    groqKey: Option<string>,
    llmModel: Option<string>,
    instructGeneral: Option<string>,
    instructSummary: Option<string>,
    instructKeypoint: Option<string>,
    instructDefine: Option<string>,
    temperature: Option<real>,
    language: Option<string>)

  const NoKey: string := ""
  const DefaultInstructGeneral: string :=
    "Answer the following question in the input language; Important: If you have no answer, only respond with 'ERROR'"
  const DefaultInstructSummary: string := "Summarize the following text"
  const DefaultInstructKeypoint: string := "Identify the key points in the following text"
  const DefaultInstructDefine: string := "Define the following text"
  const DefaultTemperature: real := 0.8

  /** `DEFAULT_SETTINGS`. A constant value: no load step can change it. */
  const Defaults: Settings := Settings(
    NoKey, Some(""), DefaultInstructGeneral, DefaultInstructSummary,
    DefaultInstructKeypoint, DefaultInstructDefine, DefaultTemperature, None)

  /** Stored data with no fields at all. */
  const NothingStored: Stored := Stored(None, None, None, None, None, None, None, None)

  /** A present stored field wins over the default. */
  function Pick<T>(stored: Option<T>, default: T): T {
    match stored
    case Some(v) => v
    case None => default
  }

  /** `Object.assign({}, DEFAULT_SETTINGS, data)`: a shallow overlay of
      the stored fields on a fresh copy of the defaults. `loadData()`
      resolving to `null` contributes nothing. */
  function Load(data: Option<Stored>): (s: Settings)
    ensures data.None? ==> s == Defaults
    ensures data.Some? ==>
      && (data.value.groqKey.Some? ==> s.groqKey == data.value.groqKey.value)
      && (data.value.groqKey.None? ==> s.groqKey == Defaults.groqKey)
      && (data.value.llmModel.Some? ==> s.llmModel == data.value.llmModel)
      && (data.value.llmModel.None? ==> s.llmModel == Defaults.llmModel)
      && (data.value.instructGeneral.Some? ==> s.instructGeneral == data.value.instructGeneral.value)
      && (data.value.instructGeneral.None? ==> s.instructGeneral == Defaults.instructGeneral)
      && (data.value.instructSummary.Some? ==> s.instructSummary == data.value.instructSummary.value)
      && (data.value.instructSummary.None? ==> s.instructSummary == Defaults.instructSummary)
      && (data.value.instructKeypoint.Some? ==> s.instructKeypoint == data.value.instructKeypoint.value)
      && (data.value.instructKeypoint.None? ==> s.instructKeypoint == Defaults.instructKeypoint)
      && (data.value.instructDefine.Some? ==> s.instructDefine == data.value.instructDefine.value)
      && (data.value.instructDefine.None? ==> s.instructDefine == Defaults.instructDefine)
      && (data.value.temperature.Some? ==> s.temperature == data.value.temperature.value)
      && (data.value.temperature.None? ==> s.temperature == Defaults.temperature)
      && s.language == data.value.language
  {
    match data
    case None => Defaults
    case Some(d) =>
      Settings(
        Pick(d.groqKey, Defaults.groqKey),
        if d.llmModel.Some? then d.llmModel else Defaults.llmModel,
        Pick(d.instructGeneral, Defaults.instructGeneral),
        Pick(d.instructSummary, Defaults.instructSummary),
        Pick(d.instructKeypoint, Defaults.instructKeypoint),
        Pick(d.instructDefine, Defaults.instructDefine),
        Pick(d.temperature, Defaults.temperature),
        d.language)
  }

  /** `saveData(settings)`: the record serialised as JSON, where a field
      holding `undefined` is dropped. */
  function Save(s: Settings): (d: Stored)
    ensures d.groqKey.Some? && d.instructGeneral.Some? && d.instructSummary.Some?
    ensures d.instructKeypoint.Some? && d.instructDefine.Some? && d.temperature.Some?
    ensures d.llmModel == s.llmModel && d.language == s.language
  {
    Stored(Some(s.groqKey), s.llmModel, Some(s.instructGeneral), Some(s.instructSummary),
           Some(s.instructKeypoint), Some(s.instructDefine), Some(s.temperature), s.language)
  }

  /** The documented defaults: no key, no model selected, temperature 0.8. */
  lemma DefaultsAreDocumented()
    ensures Load(None) == Load(Some(NothingStored))
    ensures Load(None).groqKey == "" && Load(None).llmModel == Some("")
    ensures Load(None).temperature == 0.8
    ensures Load(None).language.None?
  {
  }

  /** Saving a record and loading it again gives the same record, as long
      as its model field is not `undefined`. */
  lemma SaveLoadRoundTrip(s: Settings)
    requires s.llmModel.Some?
    ensures Load(Some(Save(s))) == s
  {
  }

  /** An `undefined` model field does not survive a save and reload: the
      default empty model comes back, so the next refresh selects again. */
  lemma UndefinedModelResetOnReload(s: Settings)
    requires s.llmModel.None?
    ensures Load(Some(Save(s))) == s.(llmModel := Some(""))
  {
  }
}
