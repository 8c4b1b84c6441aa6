/** How `applySettings()` in script.js turns a settings record into what
    the page shows: the resolved colour theme, which panels are visible and
    whether the seconds are. */
module Appearance {
  import opened SettingsStore

  /** What the page shows. */
  datatype View = View(
    theme: string,
    accent: string,
    fontSizePx: int,
    analogShown: bool,
    digitalShown: bool,
    secondsShown: bool
  )

  /** The theme written to the page: "auto" follows the colour-scheme
      preference, any other value is used as it is. */
  function ResolveTheme(theme: string, prefersDark: bool): (t: string)
    ensures t != "auto"
    ensures theme != "auto" ==> t == theme
    ensures theme == "auto" ==> (t == "dark" <==> prefersDark) && (t == "light" <==> !prefersDark)
  {
    if theme == "auto" then (if prefersDark then "dark" else "light") else theme
  }

  /** `prefersDark` is whether the browser reports a dark colour-scheme
      preference (false when it cannot be asked). */
  function ApplySettings(s: Settings, prefersDark: bool): (v: View)
    ensures v.theme == ResolveTheme(s.theme, prefersDark)
    ensures v.analogShown <==> s.mode != "digital"
    ensures v.digitalShown <==> s.mode != "analog"
    ensures v.analogShown || v.digitalShown
    ensures v.secondsShown <==> s.showSeconds
    ensures v.accent == s.accent && v.fontSizePx == s.fontSize
  {
    View(
      ResolveTheme(s.theme, prefersDark),
      s.accent,
      s.fontSize,
      s.mode != "digital",
      s.mode != "analog",
      s.showSeconds
    )
  }

  /** Both panels show exactly when the mode is neither "digital" nor
      "analog"; "both" is one such value, and so is any unknown one. */
  lemma BothPanelsUnlessSingleMode(s: Settings, prefersDark: bool)
    ensures ApplySettings(s, prefersDark).analogShown && ApplySettings(s, prefersDark).digitalShown
        <==> s.mode != "digital" && s.mode != "analog"
  {
  }

  /** Resolving an already resolved theme changes nothing, whatever the
      preference is then. */
  lemma ResolveThemeIdempotent(theme: string, p: bool, q: bool)
    ensures ResolveTheme(ResolveTheme(theme, p), q) == ResolveTheme(theme, p)
  {
  }

  /** The colour-scheme preference matters only for the "auto" theme. */
  lemma PreferenceMattersOnlyForAuto(s: Settings)
    ensures ApplySettings(s, true) == ApplySettings(s, false) <==> s.theme != "auto"
  {
  }

  /** The default record shows both panels, the seconds and the dark
      theme. */
  lemma DefaultView(localZone: string, prefersDark: bool)
    ensures ApplySettings(DefaultSettings(localZone), prefersDark)
         == View("dark", "#5b9dff", 40, true, true, true)
  {
  }
}
