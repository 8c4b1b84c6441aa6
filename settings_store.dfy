/** The settings record of the clock and how `loadSettings()` in
    script.js obtains it from storage. Storage and JSON are not modelled:
    the stored text is a parameter (None when the key is missing) and the
    parser is a function that yields None where `JSON.parse` throws. */
module SettingsStore {
  import opened Wrappers

  datatype AlarmSetting = AlarmSetting(enabled: bool, time: string)

  /** The persisted record. Fields the source reads from select controls
      are kept as the strings the controls hold. */
  datatype Settings = Settings(
    theme: string,
    accent: string,
    fontSize: int,
    mode: string,
    tz: string,
    format: string,
    showSeconds: bool,
    dateStyle: string,
    alarm: AlarmSetting
  )

  /** The fixed default record; its zone is the browser's local zone. */
  function DefaultSettings(localZone: string): (s: Settings)
    ensures s.tz == localZone
    ensures s.mode == "both" && s.format == "24" && s.showSeconds
    ensures !s.alarm.enabled && s.alarm.time == ""
  {
    Settings("dark", "#5b9dff", 40, "both", localZone, "24", true, "full", AlarmSetting(false, ""))
  }

  /** `loadSettings()`: a stored text that is missing or empty (both falsy
      in JavaScript) gives the defaults; otherwise the parsed record as it
      is, or the defaults when parsing fails. */
  function LoadSettings(raw: Option<string>, parse: string -> Option<Settings>, localZone: string): (s: Settings)
    ensures s == DefaultSettings(localZone) || (raw.Some? && raw.value != "" && parse(raw.value) == Some(s))
  {
    match raw
    case None => DefaultSettings(localZone)
    case Some(text) => if text == "" then DefaultSettings(localZone) else parse(text).GetOr(DefaultSettings(localZone))
  }

  /** Absent, empty or unparseable storage yields the default record
      exactly. */
  lemma LoadFallsBackToDefaults(raw: Option<string>, parse: string -> Option<Settings>, localZone: string)
    requires raw == None || raw == Some("") || parse(raw.value) == None
    ensures LoadSettings(raw, parse, localZone) == DefaultSettings(localZone)
    ensures LoadSettings(raw, parse, localZone).theme == "dark"
    ensures LoadSettings(raw, parse, localZone).tz == localZone
    ensures !LoadSettings(raw, parse, localZone).alarm.enabled
  {
  }

  /** A record that parses is taken as it is: no field of it is replaced
      by a default, whatever it holds. */
  lemma LoadDoesNotMerge(text: string, parse: string -> Option<Settings>, localZone: string)
    requires text != "" && parse(text).Some?
    ensures LoadSettings(Some(text), parse, localZone) == parse(text).value
  {
  }

  /** Saving a record and loading it back gives the same record, given a
      serialiser whose output is non-empty and parses back to its input. */
  lemma SaveThenLoad(s: Settings, encode: Settings -> string, parse: string -> Option<Settings>, localZone: string)
    requires encode(s) != "" && parse(encode(s)) == Some(s)
    ensures LoadSettings(Some(encode(s)), parse, localZone) == s
  {
  }

  /** The reset button removes the stored record and saves the defaults;
      loading afterwards gives the defaults, whether the save happened or
      not. */
  lemma ResetThenLoad(encode: Settings -> string, parse: string -> Option<Settings>, localZone: string)
    requires encode(DefaultSettings(localZone)) != ""
    requires parse(encode(DefaultSettings(localZone))) == Some(DefaultSettings(localZone))
    ensures LoadSettings(None, parse, localZone) == DefaultSettings(localZone)
    ensures LoadSettings(Some(encode(DefaultSettings(localZone))), parse, localZone) == DefaultSettings(localZone)
  {
  }
}
