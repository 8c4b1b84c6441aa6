# Browser clock: a Dafny model of its logic

The clock widget shows a digital and an analog clock in a chosen timezone.
It has an optional alarm, and it keeps its settings in the browser's storage.
All of it lives in one script, `script.js`. Most of that script is glue to the page.
This project pulls out the parts that can be stated exactly and proves properties about them:

- **ClockHands** (`clock_hands.dfy`): the rotation of the hour, minute and second hands.
  It is computed from the hour, minute and second readings, in the 12- or 24-hour cycle.
  Angles are integers in tenths of a degree, so the source's 0.5° and 0.1° steps are exact.
- **Alarm** (`alarm.dfy`): the alarm check that runs on every tick.
  It is debounced by the marker `lastAlarmFire`.
  The model is a pure step function plus lemmas over whole runs of ticks.
- **Clock** (`clock.dfy`): one tick of the render loop, `update()`.
  It is a method of a page object whose only field is `lastAlarmFire`.
- **StringOrder** and **Timezones** (`string_order.dfy`, `timezones.dfy`): the options of the timezone selector.
  The curated zone list plus the local zone is de-duplicated through a set and then sorted.
- **SettingsStore** (`settings_store.dfy`): the settings record, its defaults and the fallback of `loadSettings()`.
- **Appearance** (`appearance.dfy`): what `applySettings()` derives from a record.
  That is the resolved theme, the visible panels and the visibility of the seconds.
- **Dial** (`dial.dfy`): the 60 tick marks that `buildTicks()` lays out.
- **Wrappers** (`wrappers.dfy`): an `Option` type.

## Behaviour as written

The model follows the code. In three places the code's behaviour is worth stating:

- **The alarm does not re-arm by itself.** The marker is written only when the alarm fires.
  It is never cleared when the minute passes.
  So with an unchanged alarm time, the alarm fires at most once while the page lives, even on later days.
  It can fire at that time again only after a firing at some other time.
  `Alarm.FixedAlarmFiresAtMostOnce`, `Alarm.SameTimeNeedsInterveningFiring` and `Alarm.NoRearmExample` prove this.
  One might expect the alarm to re-arm when the minute changes; the code never clears the marker.
- **Loading does not merge.** A stored record that parses is used exactly as parsed.
  Defaults fill in only when the stored text is missing, empty or unparseable.
  An empty stored string counts as missing, because it is falsy in JavaScript.
- **There is no timezone validation.** The code never checks a zone name before using it.
  An unknown zone makes `Intl.DateTimeFormat` throw a `RangeError` inside every `update()` (script.js:117, 133, 147).
  That failure belongs to the formatting library, which is not part of this model.

## Model

| member | source | states |
|---|---|---|
| `ClockHands.Cycle` | script.js:136 | the hour cycle is 12 exactly when the format is "12", and 24 for every other format value |
| `ClockHands.DialHour` | script.js:136-139 | the dial hour is below 12 and equals the reading mod 12, whichever hour cycle (12 or 24) reduced it first |
| `ClockHands.HourAngle` | script.js:136-139 | for a minute below 60, the hour hand is below 360°, lies in the sector of the hour mod 12, and its offset inside that sector is 0.5° per minute |
| `ClockHands.MinuteAngle` | script.js:137-140 | for a valid minute and second, the minute hand is below 360°, and it splits back into 6° per minute and 0.1° per second |
| `ClockHands.SecondAngle` | script.js:138-141 | for a valid second, the second hand is at most 354° on a whole 6° step, and it gives back the second |
| `ClockHands.HandAngles` | script.js:136-141 | the three hand angles of a reading; on a valid reading each is below 360° and gives back the hour mod 12, the minute and the second (properties in `HandsInRange`, `HandsMoveTogether`, `HandsDetermineReading`) |
| `ClockHands.TwelveHourReading` | script.js:117-121 | the 12-hour rendering of a 24-hour hour is in 1..12 and agrees with it mod 12 |
| `ClockHands.HandsInRange` | script.js:136-141 | every valid reading keeps the hands at most 359.5°, 359.9° and 354° |
| `ClockHands.HandMaxima` | script.js:136-141 | 23:59:59 reaches those maxima exactly |
| `ClockHands.FormatsAgree` | script.js:136-139 | the 12-hour and 24-hour readings of the same instant give the same hour hand |
| `ClockHands.HourHandIgnoresCycle` | script.js:136-139 | any two hour readings equal mod 12, in any two formats, give the same hour hand |
| `ClockHands.HandsMoveTogether` | script.js:139-141 | within an hour the hour hand sweeps 1/12 of the minute hand's sweep; within a minute the minute hand sweeps 1/60 of the second hand's |
| `ClockHands.HandsDetermineReading` | script.js:139-141 | equal hands mean equal hour mod 12, equal minute and equal second |
| `ClockHands.AfternoonExample` | script.js:136-141 | 13:05:30 gives 32.5°, 33.0° and 180° in the 24-hour format, and the same for reading 1 in the 12-hour format |
| `ClockHands.NoonExample` | script.js:136-139 | noon puts the hour hand at 0° in either format |
| `ClockHands.MidnightExample` | script.js:136-139 | midnight, read as 0 or as 24, puts the hour hand at 0° |
| `Alarm.Fires` | script.js:146-148 | a tick fires only when the alarm is enabled and the current "HH:MM" is non-empty, equals the alarm time and differs from the marker (properties in `FiringDebounces`) |
| `Alarm.Marker` | script.js:148-149 | the marker after a tick is either the old marker or the current time; it changes only to the alarm time of an enabled alarm (properties in `FiringDebounces`, `QuietTickKeepsMarker`) |
| `Alarm.Firings` | script.js:112-149 | the firing times over a run of ticks from a starting marker: at most one per tick, never an empty time (properties in `SameTimeNeedsInterveningFiring`, `FixedAlarmFiresAtMostOnce`) |
| `Alarm.FinalMarker` | script.js:112-149 | the marker after a run of ticks is the starting marker or the alarm time of one of the ticks (property in `MarkerIsLastFiring`) |
| `Alarm.FiringDebounces` | script.js:146-149 | a firing needs the alarm enabled, a non-empty alarm time and a current time equal to it; after a firing the marker holds the current time and no tick in the same minute fires |
| `Alarm.QuietTickKeepsMarker` | script.js:146-149 | a tick that does not fire leaves the marker unchanged |
| `Alarm.MarkerIsLastFiring` | script.js:112-149 | after any run of ticks the marker is the last firing time, or the starting value if nothing fired |
| `Alarm.FiringsAtAlarmTime` | script.js:146-148 | with a fixed alarm time, every firing happens at that time |
| `Alarm.SameTimeNeedsInterveningFiring` | script.js:112-149 | the first firing of a run differs from the starting marker, no two consecutive firings are at the same time, and so a run fires at any given time at most once more than it fires at other times (no more than that count if the marker already holds the time) |
| `Alarm.FixedAlarmFiresAtMostOnce` | script.js:112-149 | with a fixed alarm time the alarm fires at most once over the marker's whole life, and never if the marker already holds that time |
| `Alarm.NoRearmExample` | script.js:146-149 | a 07:30 alarm fires once, and not again when 07:30 comes round after 07:31 |
| `Alarm.RearmAfterOtherFiringExample` | script.js:146-149 | a firing at another time in between lets 07:30 fire again |
| `Clock.ClockPage.constructor` | script.js:112 | the marker starts empty |
| `Clock.ClockPage.Update` | script.js:114-157 | one tick returns the hand angles for the chosen format and whether the alarm fired; the marker becomes the current time on a firing and is otherwise unchanged |
| `StringOrder.Below` | script.js:98 | the comparison that stands in for `localeCompare`: lexicographic order on character codes, never relating a string to itself (order properties in the lemmas below) |
| `StringOrder.BelowIrreflexive` | script.js:98 | no name sorts before itself |
| `StringOrder.BelowAsymmetric` | script.js:98 | two names are never each before the other |
| `StringOrder.BelowTransitive` | script.js:98 | the sort order is transitive |
| `StringOrder.BelowTotal` | script.js:98 | any two different names are ordered one way or the other |
| `StringOrder.SortedDistinctIsStrict` | script.js:98 | a sorted list without repeats is exactly a strictly sorted list |
| `StringOrder.StrictlySortedUnique` | script.js:98 | two strictly sorted lists with the same elements are equal, so the option list depends only on the set of names |
| `Timezones.Curated` | script.js:91-96 | the curated list holds 17 zone names, none twice |
| `Timezones.Unique` | script.js:98 | going through a set keeps each name once and keeps exactly the names of the list |
| `Timezones.Insert` | script.js:98 | inserting into a sorted list keeps it sorted and adds exactly the new name |
| `Timezones.Sort` | script.js:98 | sorting gives a sorted permutation of its input |
| `Timezones.PopulateTimezones` | script.js:89-101 | the options are strictly sorted, so each zone appears once; they are exactly the curated zones plus the local zone; the local zone is the one selected |
| `SettingsStore.DefaultSettings` | script.js:30-40 | the default record uses the local zone, shows both panels and the seconds in the 24-hour format, and has the alarm off with no time |
| `SettingsStore.LoadSettings` | script.js:42-47 | loading gives either the default record or exactly the record that the non-empty stored text parses to (properties in `LoadFallsBackToDefaults`, `LoadDoesNotMerge`) |
| `SettingsStore.LoadFallsBackToDefaults` | script.js:30-47 | missing, empty or unparseable storage gives exactly the default record: dark theme, the local zone, alarm off |
| `SettingsStore.LoadDoesNotMerge` | script.js:42-47 | stored text that parses gives the parsed record unchanged, with no defaults merged in |
| `SettingsStore.SaveThenLoad` | script.js:42-51 | loading after saving gives back the saved record, given a serializer whose output parses back |
| `SettingsStore.ResetThenLoad` | script.js:164 | after a reset, loading gives the defaults, whether the stored key was only removed or the defaults were saved again |
| `Appearance.ResolveTheme` | script.js:68-69 | the resolved theme is never "auto"; "auto" becomes dark exactly when dark is preferred and light otherwise; any other theme passes through |
| `Appearance.ApplySettings` | script.js:67-76 | the analog panel shows unless the mode is "digital", the digital panel shows unless it is "analog", at least one panel always shows, seconds show exactly when `showSeconds` is set, and accent and font size pass through |
| `Appearance.BothPanelsUnlessSingleMode` | script.js:74-75 | both panels show exactly when the mode is neither "digital" nor "analog" |
| `Appearance.ResolveThemeIdempotent` | script.js:69 | resolving an already resolved theme changes nothing |
| `Appearance.PreferenceMattersOnlyForAuto` | script.js:68-69 | the colour-scheme preference changes the view exactly when the theme is "auto" |
| `Appearance.DefaultView` | script.js:30-40 | the default record shows both panels, the seconds and the dark theme |
| `Dial.MarkAt` | script.js:106-107 | mark i sits on the i-th 6° step, within 354° for the 60 marks, and is major exactly when i is a multiple of 5 |
| `Dial.BuildTicks` | script.js:103-110 | the loop yields 60 marks; mark i is at 6i degrees and is major exactly when i is a multiple of 5 |
| `Dial.MajorCountPrefix` | script.js:104-106 | the first n marks hold (n+4)/5 major marks |
| `Dial.DialLayout` | script.js:103-110 | the dial has 12 major marks, every mark is at most 354°, and the angles strictly increase |
| `Dial.MarksMatchHands` | script.js:106-107 | the second hand at s seconds and the minute hand at s minutes sharp point at mark s; the hour hand at h o'clock sharp points at major mark 5h |

## Left out

- Timezone conversion and formatting (`Intl.DateTimeFormat`, `formatToParts`) are browser library code.
  The hour, minute and second readings and the 24-hour "HH:MM" string are parameters of `Clock.ClockPage.Update`.
  Readings are assumed in range: hour at most 24, minute and second below 60.
- The digital text, the AM/PM label and the locale date string are not modelled.
  They are formatted output written to the page.
- `Clock.ClockPage.Update` does not derive the "HH:MM" string from the readings.
  The source takes both from separate calls into the formatting library.
- `parseInt` on malformed or empty strings, and the NaN angles it would give, are not modelled.
  The formatting library always yields digits.
- The floating-point rendering of angles in CSS is not modelled.
  Angles are exact integer tenths of a degree.
- `localStorage`, `JSON.parse` and `JSON.stringify` are not modelled.
  The stored text is an `Option<string>` parameter, and parsing is a function parameter returning `Option`.
- A stored document with missing fields cannot be represented.
  A record that parses is complete, so the `undefined` fields such a document would leave are not modelled.
- `saveSettings()` and `getSettingsFromUI()` only read page controls and write storage.
  Saving is represented only by the serializer parameter of `SettingsStore.SaveThenLoad`.
- `SettingsStore.SaveThenLoad` assumes a serializer that round-trips the record.
  A font size that `parseInt` turns into NaN cannot be represented; `JSON.stringify` would store it as `null`.
- Exporting the settings as a downloadable file (`Blob`, object URL) is not modelled; it is I/O only.
- `localeCompare` is replaced by lexicographic order on character codes, `StringOrder.Below`.
  Locale-aware collation can order some names differently.
- The engine's sort algorithm is replaced by `Timezones.Sort`, an insertion sort.
  By `StringOrder.StrictlySortedUnique`, any sort gives the same list under this order.
- Page writes are not modelled: text content, transforms, display styles and the option markup.
  Neither are the alarm tone, the flash animation and the event binding in `bind()`.
  These are presentation and side effects.
- The colour-scheme listener is not modelled.
  It only re-applies the settings when the theme is "auto", and `Appearance.PreferenceMattersOnlyForAuto` covers that case.
- The `setInterval` scheduling of `update()` is not modelled.
  One tick is one call of `Clock.ClockPage.Update`, and a run of ticks is a sequence in `Alarm`.
