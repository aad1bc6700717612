# Ramadan timetable dashboard: countdown, settings store and settings form

A Dafny model of the client-side logic of a Ramadan timetable dashboard, a web page
that shows the day's prayer timings for a chosen city together with a countdown to
the next Sehar (the Fajr time) or Iftar (the Maghrib time). Three pieces are modelled:

- **The countdown** (`countdown.dfy`, module `Countdown`). From the day's Fajr and Maghrib
  timings (text such as `"05:12 (PST)"`) and the current instant, it picks the next event
  ("Sehar", "Iftar" or "Sehar (Next Day)"), the milliseconds left until it, and the
  zero-padded `HH:MM:SS` display. Instants are integer milliseconds from local midnight
  of the anchor day. The dashboard's state (`now`, the received timings, the derived
  countdown) is the class `Countdown.Dashboard`, whose timer tick, data arrival and
  recompute are explicit method calls.
- **The settings store** (`store.dfy`, module `Store`). The class `Store.SettingsStore`
  holds the settings, `isLoaded` and `isFirstVisit`. Browser storage is a
  `map<string, string>` field. JSON parsing and serialisation are function values the
  store is built with, and parsing may fail. The store has the load step and
  `updateSettings`, which merges a partial record, persists it and ends the first visit.
- **The settings form** (`settings_panel.dfy`, module `SettingsForm`). The class
  `SettingsForm.SettingsPanel` holds the form fields and the per-field error record.
  Its save action trims and validates the city and country and calls the store only
  when both are valid. Its edit handlers clear the matching error.

`js_text.dfy` (module `JsText`) gives the JavaScript built-ins these rely on:
`split` with a one-character separator, `parseInt` on digit strings, integer `toString`,
`padStart(2, "0")` and `trim` with ECMAScript's whitespace set. `wrappers.dfy`
holds `Option`, which stands for `undefined`/`null`.

Two points where the model follows the code rather than the intended design:

- After Maghrib, the code adds a calendar day to today's Fajr (`setDate(+1)`), not a
  fixed 24 hours. The model has no time zones, so this is 86,400,000 ms.
- The intended first-visit flag holds only before any explicit save. The code
  sets it only when the load finds no record, or an empty string, under the settings key.
  A record that fails to parse gives a store that is not on a first visit, even though
  nothing was ever saved. The model does what the code does.

## Model

The source's computations are functions without contracts of their own. The lemmas
in the table below state their properties:

- `JsText.Split` is `split` with a one-character separator (src/components/dashboard.tsx:53-54, 59, 64).
- `JsText.DigitsToNat` is `parseInt` on a digit string (src/components/dashboard.tsx:61, 66).
- `JsText.IntToString` is `toString` and `JsText.PadStart2` is `padStart(2, '0')` (src/components/dashboard.tsx:93).
- `JsText.Trim` is `trim` (src/components/settings-panel.tsx:17-18). It is `TrimEnd(TrimStart(s))`.
- `Countdown.ClockFields` and `Countdown.ParseClock` read the hour and minute of a timing
  (src/components/dashboard.tsx:53-54, 59-66). `Countdown.InstantOf` is `setHours(h, m, 0, 0)` on the anchor day
  (src/components/dashboard.tsx:60-61, 65-66).
- `Countdown.NextTarget` is the three-way choice of the next event (src/components/dashboard.tsx:72-84).
- `Countdown.JsRem` is JavaScript's `%`. `Countdown.HoursOf`, `Countdown.MinutesOf` and `Countdown.SecondsOf`
  are the three `Math.floor` lines (src/components/dashboard.tsx:87-89).
- `Countdown.Field` and `Countdown.Render` build the `HH:MM:SS` text (src/components/dashboard.tsx:93).
- `Countdown.DayOf` and `Countdown.AnchorOf` are the day of the fresh `new Date()` and its midnight
  (src/components/dashboard.tsx:56).
- `Store.GetItem` is the map lookup that stands for `localStorage.getItem` (src/lib/store.tsx:35).
  `Store.Truthy` is the `if (saved)` test (src/lib/store.tsx:36): both a missing record and an empty string are falsy.
  `SettingsStore.Load` and `Store.Mount` state what the lookup means for the store.

| member | source | states |
|---|---|---|
| `JsText.NatToString` | src/components/dashboard.tsx:93 | `toString` of a non-negative integer: at least one digit, no leading zero, and its digits read back as the number |
| `JsText.IntToStringSign` | src/components/dashboard.tsx:93 | `toString` of any integer starts with a minus sign exactly when the integer is negative, and the digits after any sign read back as its absolute value |
| `JsText.PadStart2Digits` | src/components/dashboard.tsx:93 | `padStart(2, "0")` on a digit string makes it at least two long and keeps it a digit string of the same value |
| `JsText.IndexOf` | src/components/dashboard.tsx:53-54 | the index of the first occurrence of a character, or the length when it does not occur |
| `JsText.Split` | src/components/dashboard.tsx:53-54 | `split` yields at least one part, no part contains the separator, and joining the parts with the separator gives back the input |
| `JsText.SplitJoin` | src/components/dashboard.tsx:59 | splitting text joined from separator-free parts gives back exactly those parts |
| `JsText.SplitFirst` | src/components/dashboard.tsx:53 | `split(" ")[0]` is the text before the first space |
| `JsText.TrimStart` | src/components/settings-panel.tsx:17-18 | removes exactly the leading whitespace: the result is a suffix that does not start with whitespace, and everything before it is whitespace |
| `JsText.TrimEnd` | src/components/settings-panel.tsx:17-18 | removes exactly the trailing whitespace, symmetrically |
| `JsText.TrimIsSlice` | src/components/settings-panel.tsx:17-18 | `trim` returns a slice of the input with only whitespace outside it |
| `JsText.TrimEnds` | src/components/settings-panel.tsx:17-18 | the trimmed value neither starts nor ends with whitespace |
| `JsText.TrimEmptyIffBlank` | src/components/settings-panel.tsx:20-26 | the trimmed value is empty if and only if the input is empty or whitespace only |
| `JsText.TrimFixed` | src/components/settings-panel.tsx:17-18 | a value with no whitespace at either end is its own trim |
| `JsText.TrimIdempotent` | src/components/settings-panel.tsx:17-18 | trimming twice gives the same as trimming once |
| `Countdown.ResolveNextEvent` | src/components/dashboard.tsx:50-97 | the countdown names exactly one of "Sehar", "Iftar", "Sehar (Next Day)" |
| `Countdown.NamesDistinct` | src/components/dashboard.tsx:73-83 | the three event names are pairwise different |
| `Countdown.ResolveBranches` | src/components/dashboard.tsx:68-95 | before Fajr: Sehar at Fajr; from Fajr until Maghrib: Iftar at Maghrib; otherwise: Sehar (Next Day) at Fajr plus one day; the diff is target minus now and the display renders it |
| `Countdown.ResolveFromClocks` | src/components/dashboard.tsx:59-66 | proof helper for the scenarios: it unfolds the countdown once in terms of the parsed clock times, so that the literal timing texts need not be unfolded |
| `Countdown.InstantWithinDay` | src/components/dashboard.tsx:60-61 | an hour in 0..23 and a minute in 0..59 on the anchor day, seconds zeroed, fall within that day |
| `Countdown.RemainingPositive` | src/components/dashboard.tsx:72-86 | with real clock times and `now` on the anchor day, the remaining time is in (0, one day]; it stays positive when `now` is on the day before |
| `Countdown.DecompositionRoundTrip` | src/components/dashboard.tsx:87-89 | for a non-negative diff, minutes and seconds are in 0..59 and hours·3600 + minutes·60 + seconds is the diff's whole seconds |
| `Countdown.FieldDigits` | src/components/dashboard.tsx:93 | a non-negative display field is at least two digits, has no `:` or space, and reads back as its number |
| `Countdown.FieldOneDigit` | src/components/dashboard.tsx:93 | a one-digit field is displayed with a leading zero |
| `Countdown.FieldTwoDigits` | src/components/dashboard.tsx:93 | a two-digit field is displayed as its two digits |
| `Countdown.RenderRoundTrip` | src/components/dashboard.tsx:91-95 | for a non-negative diff the display is three `:`-separated fields of at least two digits that read back as hours, minutes and seconds, totalling the diff's whole seconds |
| `Countdown.RenderSplits` | src/components/dashboard.tsx:93 | the display splits at its colons into exactly the hours, minutes and seconds fields |
| `Countdown.TimingRoundTrip` | src/components/dashboard.tsx:53-66 | a timing written "HH:MM annotation" is well formed and parses to that hour and minute, whatever the annotation |
| `Countdown.ExampleFajr` | src/components/dashboard.tsx:53-61 | "05:12 (PST)" parses to 05:12 |
| `Countdown.ExampleMaghrib` | src/components/dashboard.tsx:54-66 | "18:45 (PST)" parses to 18:45 |
| `Countdown.ExampleRenders` | src/components/dashboard.tsx:87-93 | 1 h 12 min, 8 h 45 min, 9 h 12 min and 12 h 45 min display as "01:12:00", "08:45:00", "09:12:00" and "12:45:00" |
| `Countdown.ExampleBeforeSehar` | src/components/dashboard.tsx:72-73 | at 04:00 the countdown is Sehar, "01:12:00" |
| `Countdown.ExampleBeforeIftar` | src/components/dashboard.tsx:76-77 | at 10:00 the countdown is Iftar, "08:45:00" |
| `Countdown.ExampleAfterIftar` | src/components/dashboard.tsx:80-84 | at 20:00 the countdown is Sehar (Next Day), "09:12:00" |
| `Countdown.ExampleNextMorning` | src/components/dashboard.tsx:76-77 | at 06:00 the countdown is Iftar, "12:45:00" |
| `Countdown.Dashboard.constructor` | src/components/dashboard.tsx:15-27 | the dashboard starts with the mount instant, no data and no countdown |
| `Countdown.Dashboard.Tick` | src/components/dashboard.tsx:43-48 | the timer sets `now` to the clock's reading and changes nothing else |
| `Countdown.Dashboard.ReceiveTimings` | src/components/dashboard.tsx:37-40 | a response, present or failed, replaces the data and changes nothing else |
| `Countdown.Dashboard.Recompute` | src/components/dashboard.tsx:50-97 | without data the countdown is unchanged; with data it is the event resolved at `now` measured from the midnight of the recompute's own clock reading `today`; on a real day it is in (0, one day] when `now` and `today` fall on the same day, and positive when `now` was read on the day before |
| `Countdown.AnchorOffset` | src/components/dashboard.tsx:56-61 | `now` measured from the midnight of its own day lies in [0, one day), and measured from the next day's midnight in [-one day, 0) |
| `Countdown.OvernightResolves` | src/components/dashboard.tsx:56-95 | with 05:12 and 18:45 timings, 20:00 on the first day gives Sehar (Next Day), "09:12:00", and 06:00 on the next day, measured from that day's midnight, gives Iftar, "12:45:00" |
| `Countdown.OvernightScenario` | src/components/dashboard.tsx:43-97 | a dashboard mounted at 20:00 that receives 05:12 and 18:45 timings shows Sehar (Next Day), "09:12:00"; after its timer ticks to 06:00 the next day it shows Iftar, "12:45:00" |
| `Store.Merge` | src/lib/store.tsx:50 | each field present in the partial takes its value and each absent field keeps the previous one |
| `Store.MergeIdempotent` | src/lib/store.tsx:50 | applying the same partial twice gives the same settings as once |
| `Store.MergeComplete` | src/lib/store.tsx:50 | a partial with all four fields replaces the settings wholesale |
| `Store.MergeNothing` | src/lib/store.tsx:50 | an empty partial changes nothing |
| `Store.SettingsStore.constructor` | src/lib/store.tsx:19-31 | the store starts with the defaults (San Francisco, United States, method 2, school 0), not loaded and not on a first visit |
| `Store.SettingsStore.Load` | src/lib/store.tsx:33-46 | no record or an empty one: a first visit with the settings kept; a parseable record: the settings are the parsed value; an unparseable one: the settings are kept and nothing fails; the store is loaded in every case |
| `Store.SettingsStore.UpdateSettings` | src/lib/store.tsx:48-55 | the settings become the merge of the partial over the old ones, storage holds their serialisation under "ramadan-app-settings", the first visit is over, and the update is logged exactly once |
| `Store.Mount` | src/lib/store.tsx:28-46 | a freshly mounted store: defaults and a first visit without a record, the parsed settings with a parseable record, the defaults and no first visit with an unparseable one |
| `Store.SaveThenReload` | src/lib/store.tsx:35-38 | with a faithful JSON codec, settings saved by an update are exactly what a store mounted over the resulting storage loads, on a visit that is not a first one |
| `SettingsForm.OptionsAreCodes` | src/components/settings-panel.tsx:95-112 | the method drop-down offers exactly the codes 0..5 and the school drop-down exactly 0 and 1 |
| `SettingsForm.RequiredError` | src/components/settings-panel.tsx:17-26 | a field gets its message exactly when its value is empty or whitespace only |
| `SettingsForm.SettingsPanel.constructor` | src/components/settings-panel.tsx:8-13 | the form starts with the store's city, country, method and school and no errors |
| `SettingsForm.SettingsPanel.EditCity` | src/components/settings-panel.tsx:61-64 | editing the city sets it and clears only the city error, leaving the country error |
| `SettingsForm.SettingsPanel.EditCountry` | src/components/settings-panel.tsx:77-80 | editing the country sets it and clears only the country error, leaving the city error |
| `SettingsForm.SettingsPanel.SelectMethod` | src/components/settings-panel.tsx:90-101 | the method becomes the chosen option, one of 2, 3, 1, 4, 5, 0 |
| `SettingsForm.SettingsPanel.SelectSchool` | src/components/settings-panel.tsx:106-113 | the school becomes the chosen option, 0 or 1 |
| `SettingsForm.SettingsPanel.Cancel` | src/components/settings-panel.tsx:48 | the close button asks the parent to close the panel and saves nothing |
| `SettingsForm.SettingsPanel.HandleSave` | src/components/settings-panel.tsx:15-36 | the errors are "City is required" and "Country is required" for blank fields, both at once if need be; with any error the store and the parent are untouched; otherwise the errors are cleared, the store gets exactly one update with the trimmed city and country and the unchanged method and school, and the panel asks to close |
| `SettingsForm.ExampleBlank` | src/components/settings-panel.tsx:20-22 | an empty city is blank and "X" is not |
| `SettingsForm.ExampleCity` | src/components/settings-panel.tsx:17 | "Lahore" trims to itself |
| `SettingsForm.ExampleCountry` | src/components/settings-panel.tsx:18 | "Pakistan" trims to itself |
| `SettingsForm.SaveScenario` | src/components/settings-panel.tsx:15-36 | saving an empty city with country "X" is refused with the city message only; saving Lahore, Pakistan then persists, and a later mount loads it with no first-visit prompt |

## Left out

- Network fetch (`src/lib/api.ts`): the timings provider is an HTTP wrapper. The model takes its result as the argument of `ReceiveTimings`, `None` for a failed fetch.
- The month table (`src/components/month-timeline.tsx`): it is fetch-driven loading and error state plus table rendering. Its trim-and-check repeats the form's and is not modelled again.
- `formatTime` and `cn` (`src/lib/utils.ts`): their output comes from the browser's locale formatter and a class-name helper.
- Static pages and markup (`about-section.tsx`, `error.tsx`, `not-found.tsx`, all JSX, animation and icons) have no logic.
- The dashboard's first-visit effect (src/components/dashboard.tsx:19-23) only opens the settings panel, and is not modelled.
- Timers and React scheduling: `setInterval`, the order in which effects run, and which of two racing fetches finishes last. `Tick`, `ReceiveTimings` and `Recompute` are sequential calls made by the client.
- Dates and time zones. Instants are milliseconds from local midnight of the first day. The recompute's own `new Date()` is the clock reading `today` passed to `Recompute`, and its day, `AnchorOf(today)`, is the anchor. One day is always 86,400,000 ms, so daylight-saving changes are ignored.
- Floating point: `Math.floor(diff / b)` is treated as exact integer floor division. This agrees with the code for any difference below 2^53 ms.
- Malformed timing strings: `parseInt` can give `NaN`, and the code does not guard against it. `WellFormedTiming` is a precondition: two non-empty digit fields before the first space. Signs, leading spaces and trailing non-digits, which `parseInt` would also accept, are outside it.
- Strings are sequences of Unicode scalar values, not UTF-16 code units. Every character `trim` removes is in the Basic Multilingual Plane, so trimming is unaffected.
- `JSON.parse`/`JSON.stringify` are the store's `parse` and `stringify` functions. The code does not check a parsed value's shape, so it could store any JSON value as the settings. The model can only hold a `UserSettings`, so a parse either fails or yields one.
- The `console.error` call on a failed parse (src/lib/store.tsx:40) is logging and is left out.
- `useSettings` throwing outside its provider (src/lib/store.tsx:64-70) is React context plumbing and is left out.
- A partial carrying an explicit `undefined` is not modelled. In the code, spreading it would overwrite a field with `undefined`; in the model, `None` always means "field absent".
- `Store.SettingsStore.UpdateSettings`: the code passes `setSettings` an updater function. The model applies the merge at once to the current settings, which gives the same result when calls happen one after another.
