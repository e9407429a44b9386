# Wheelock administration dashboard: a verified model of its data logic

Wheelock is a React dashboard for parkings of bicycle docks ("bornes",
"socles"), each watched by a sensor. Once the backend's JSON has arrived, the
dashboard's work is a set of small deterministic transformations. This
project models them in Dafny and proves what each one promises:

- **Statistics page** (`src/pages/Stats.jsx`):
  - time bucketing of sessions per grain (day, week, month, quarter, half-year, year), with averages and the string sort of the keys;
  - the session KPIs;
  - the ranking of geographic zones, and the level and name of the selected zone;
  - the per-date usage sums, the usage KPIs, the peak day and the occupation graph;
  - the instant dock statistics with the most active parking.
- **Demonstration data** (`src/data/mockData.js`): the flattened borne list, sorted most recent first by its "DD/MM HH:MM" stamp, and the status counts.
- **Map page** (`src/pages/Map.jsx`):
  - the translation of dock statuses between backend and page;
  - the mapping of backend parkings into the page's parkings;
  - the marker colour;
  - the removal of a deleted parking;
  - the new-parking form (`AddParkingModal`), modelled as a class whose methods are the form's handlers.
- **Borne list** (`src/pages/BornesList.jsx`): the search, status and city filter, and the list of cities offered.
- **Settings page** (`src/pages/Settings.jsx`): the statistics export, which flattens the usage into one row per sensor and day, with its guards.

Modelling choices:

- Rates, hours and seconds are exact rationals (`real`).
- `Math.round` is round-half-up, `(x + 0.5).Floor`.
- A JavaScript date is a calendar date plus milliseconds into the day.
- A JavaScript string comparison is modelled as the lexicographic order on code points, `Common.LexLess`. JavaScript compares UTF-16 code units; the two orders differ only between a character above U+FFFF and one in U+E000–U+FFFF, which cannot occur in the ASCII date and time keys that are sorted.
- `parseFloat`, `trim`, `toLowerCase` and `includes` are modelled in `JsText`, following ECMAScript.
- Shared modules:
  - `Common`: rounding, decimal strings, the string order, de-duplication, filtering and a key sort;
  - `Calendar`: day numbers, weekdays and the week formula;
  - `Buckets`: the keyed accumulator that several loops of the statistics page share;
  - `UsageData`: the backend's per-sensor daily usage.

Each loop of the source is a method with a `while` loop. The method is proved against a specification function. The accumulators are tied to the specification by the ghost predicate `Buckets.Tracks`.

Where the source differs from its evident intent, the model keeps the code as written. The corrected version sits beside it with its intended property proved (see "Findings").

## Model

| member | source | states |
|---|---|---|
| Common.Round | src/pages/Stats.jsx:77 | `Math.round` of `x` lies within half a unit of `x`, rounding halves up |
| Common.RoundWithin | src/pages/Stats.jsx:77 | rounding a value between two integers stays between them |
| Common.RoundMonotone | src/pages/Stats.jsx:356 | rounding preserves order |
| Common.Clamp | src/pages/Stats.jsx:350 | `Math.max(lo, Math.min(hi, v))` lies in [lo, hi], is `v` inside the range, and is the bound it crosses otherwise |
| Common.IntToString | src/pages/Stats.jsx:36 | the decimal text of a number is non-empty digits, with a leading '-' exactly for negatives |
| Common.DigitsValueOfNatToString | src/pages/Stats.jsx:36 | reading back the decimal text of `n` gives `n` |
| Common.IntToStringInjective | src/pages/Stats.jsx:36 | distinct numbers have distinct decimal texts, both directions |
| Common.LexLessTransitive | src/pages/Stats.jsx:76 | the string order `>` used by the sort is transitive |
| Common.LexLessTotal | src/pages/Stats.jsx:76 | two distinct strings are ordered one way or the other |
| Common.LexLessAsymmetric | src/pages/Stats.jsx:76 | the string order is asymmetric |
| Common.Dedup | src/pages/BornesList.jsx:14 | `[...new Set(xs)]` has no duplicates and holds exactly the elements of `xs` |
| Common.DedupFirstSeen | src/pages/BornesList.jsx:14 | `[...new Set(xs)]` lists the elements in the order of their first occurrence in `xs` |
| Common.SortKeys | src/pages/Stats.jsx:75-76 | the sorted keys are a permutation of the keys, strictly ascending in the string order |
| Common.Filter | src/pages/BornesList.jsx:17 | `xs.filter(keep)` holds exactly the kept elements of `xs` and is no longer |
| Common.FilterConcat | src/pages/BornesList.jsx:17 | filtering keeps the input order: filtering a concatenation is concatenating the filtered parts |
| Calendar.DaysInMonth | src/pages/Stats.jsx:39-41 | a month has 28 to 31 days, 29 exactly for February of a leap year |
| Calendar.MonthsMakeAYear | src/pages/Stats.jsx:39-41 | the twelve months add up to the year's 365 or 366 days |
| Calendar.DayOfYear | src/pages/Stats.jsx:41 | `(d - onejan) / 86400000` for a date at midnight is a day index within its year |
| Calendar.WeekNumber | src/pages/Stats.jsx:40-42 | the week number `ceil((days since Jan 1 + weekday of Jan 1 + 1) / 7)` lies in 1..54 |
| Calendar.WeekNumberOfTimestamp | src/pages/Stats.jsx:38-44 | with a time of day the formula gives the whole-day week, plus one on a Saturday after midnight |
| Calendar.JanuaryFirstWeek | src/pages/Stats.jsx:38-44 | January 1 is in week 1 unless it is a Saturday after midnight, when it is in week 2 |
| Calendar.WholeDayWeekNumber | src/pages/Stats.jsx:40-42 | the week formula on whole days lies in 1..54 |
| Calendar.WholeDayWeeksStartOnSunday | src/pages/Stats.jsx:40-42 | on whole days the week number goes up by one exactly when the next day is a Sunday |
| Calendar.WholeDayJanuaryFirst | src/pages/Stats.jsx:40-42 | on whole days January 1 is always week 1 |
| Buckets.DistinctKeys | src/pages/Stats.jsx:67-69 | the bucket keys in first-seen order have no duplicates and are exactly the samples' keys |
| Buckets.KeysHaveSamples | src/pages/Stats.jsx:67-72 | every bucket has at least one sample, and there are no buckets exactly when there are no samples |
| Buckets.CountsSumToSamples | src/pages/Stats.jsx:72 | the bucket counts add up to the number of samples |
| Buckets.TotalsSumToSamples | src/pages/Stats.jsx:71 | the bucket totals add up to the sum of all samples' amounts |
| Buckets.MeanWithin | src/pages/Stats.jsx:77 | a bucket's mean lies between bounds that all of its samples respect |
| Buckets.AddSampleTracks | src/pages/Stats.jsx:67-72 | one step of the accumulator (create the bucket if missing, add the amount, count one) keeps it equal to the per-key totals and counts of the samples seen |
| StatsTime.GrainKeyIdentifiesBucket | src/pages/Stats.jsx:34-64 | two sessions get the same key exactly when they fall in the same day, week, month, quarter, half-year or year of the grain, and any other grain keys by year |
| StatsTime.QuarterAndSemesterKeys | src/pages/Stats.jsx:51-59 | the quarter key is `Y-Tq` with q in 1..4, and the half-year key is `Y-S1` exactly for January to June |
| StatsTime.MonthKeysChronological | src/pages/Stats.jsx:46-50 | within a year the zero-padded month keys sort in calendar order, both directions |
| StatsTime.DayKeysNotChronological | src/pages/Stats.jsx:36 | the unpadded day keys do not sort chronologically: "2025-1-10" sorts before "2025-1-9" |
| StatsTime.AggregateByTime | src/pages/Stats.jsx:27-80 | one entry per distinct key, strictly ascending by key string, each the rounded mean of its sessions' rates |
| StatsTime.BucketByTime | src/pages/Stats.jsx:31-73 | the session loop leaves, per key of the grain, the sum and count of the sessions' rates, keys in first-seen order |
| StatsTime.AggregateCountsSessions | src/pages/Stats.jsx:67-72 | every session lands in a bucket and the bucket counts sum to the number of sessions |
| StatsTime.AggregateWithinPercent | src/pages/Stats.jsx:77 | with rates in [0, 100] every bucket's value is in 0..100 |
| StatsTime.ComputeKpi | src/pages/Stats.jsx:82-110 | no sessions give four zeros; otherwise the session count, the rounded mean rate, the rounded mean duration in minutes, and an occupation rate equal to the mean rate |
| StatsTime.KpiBounds | src/pages/Stats.jsx:92-99 | with rates in [0, 100] and ends not before starts, the mean rate is in 0..100 and the mean duration is non-negative |
| StatsTime.KpiOccupationWithin | src/pages/Stats.jsx:92-93 | with rates in [0, 100] the rounded mean rate is in 0..100 |
| StatsTime.OneYearBucketIsKpi | src/pages/Stats.jsx:61-63 | when all sessions fall in one year, the single year bucket's value is the KPI's mean rate |
| StatsZone.KeyField | src/pages/Stats.jsx:113-118 | zones are grouped by departement for Région, by ville for Département, and by parking otherwise |
| StatsZone.ZoneKey | src/pages/Stats.jsx:122 | a session's zone is its field's value, or 'Inconnu' when that is missing or empty |
| StatsZone.BucketByZone | src/pages/Stats.jsx:120-128 | the zone loop leaves the per-zone totals and counts of all sessions |
| StatsZone.ActiveZoneFold | src/pages/Stats.jsx:134-141 | the selection as written returns a listed zone, with its rounded mean, no lower than any zone's rounded mean |
| StatsZone.ComputeActiveZone | src/pages/Stats.jsx:112-144 | no sessions give {'-', 0}; otherwise the zone the selection as written picks over the zones in first-seen order |
| StatsZone.SelectZone | src/pages/Stats.jsx:135-141 | the selection loop over the zone buckets returns what the selection as written picks, reading each mean from the running totals and counts |
| StatsZone.ActiveZoneNotArgMax | src/pages/Stats.jsx:137-139 | the selection as written can miss the highest mean (first finding) |
| StatsZone.FirstArgMax | src/pages/Stats.jsx:134-141 | the intended selection: a zone with the highest mean, and before it only zones with lower means |
| StatsZone.ComputeActiveZoneIntended | src/pages/Stats.jsx:112-144 | the corrected selection returns the first zone with the highest mean, with its rounded mean |
| StatsZone.FirstBestIndex | src/pages/Stats.jsx:135-141 | the corrected selection loop returns the index of the first zone with the highest mean, and that mean |
| StatsZone.ActiveZoneIntendedExample | src/pages/Stats.jsx:137-139 | on the first finding's input the corrected selection picks the zone with the higher mean |
| StatsZone.ActiveZoneLevel | src/pages/Stats.jsx:400-405 | the level is Ville when a ville is selected, otherwise Département when a departement is, otherwise Région |
| StatsZone.ActiveZoneNameAtLevel | src/pages/Stats.jsx:400-414 | the title names the selection at the level the ranking reports: the ville at 'Ville', the departement at 'Département', the region or 'Toutes les régions' at 'Région'; it is never 'Tous' |
| StatsZone.RankingGroupsOneLevelDown | src/pages/Stats.jsx:113-118 | the ranking for the selected level groups zones one level below it |
| UsageData.Days | src/pages/Stats.jsx:329 | `sensor.daily_usage || []` |
| UsageData.BucketByDate | src/pages/Stats.jsx:326-335 | the nested loop over sensors and days leaves, per date, the sum and count of the chosen measure with missing values as 0 |
| UsageData.BucketDays | src/pages/Stats.jsx:329-332 | the inner loop over one sensor's days extends the per-date sums by exactly that sensor's days |
| UsageData.UsageSamplesLength | src/pages/Stats.jsx:328-329 | one sample per day of every sensor |
| StatsUsage.UsageByDate | src/pages/Stats.jsx:326-335 | one entry per distinct date in first-seen order, holding the sum of that date's occupied hours |
| StatsUsage.UsageByDateConserves | src/pages/Stats.jsx:326-335 | the dates are distinct and exactly those present, and the per-date hours add up to all hours of all sensors |
| StatsUsage.DayPct | src/pages/Stats.jsx:350 | a day's percentage is clamped to [0, 100], and is `h / 24 * 100` for 0 to 24 hours |
| StatsUsage.ComputeUsageKpi | src/pages/Stats.jsx:338-359 | no dates give nulls; otherwise the rounded means of the clamped percentages and of the minutes, with the rate in 0..100 |
| StatsUsage.UsageDurationNonNegative | src/pages/Stats.jsx:352-357 | with non-negative hours the mean duration is non-negative |
| StatsUsage.PeakIndex | src/pages/Stats.jsx:420-428 | the first date whose hours reach the maximum, or none when no date exceeds the initial -1 |
| StatsUsage.PeakDayFromUsage | src/pages/Stats.jsx:417-446 | null without dates or with an empty best date; otherwise the first peak date with its clamped, rounded percentage in 0..100 |
| StatsUsage.PeakExists | src/pages/Stats.jsx:420-428 | with non-negative hours some date is the peak |
| StatsUsage.PeakAtLeastAverage | src/pages/Stats.jsx:441-443 | the peak day's percentage is at least the average occupation rate of the usage KPIs |
| StatsUsage.DateLabel | src/pages/Stats.jsx:471-476 | the graph label of a "YYYY-MM-DD" date is the weekday abbreviation, then "DD/MM" |
| StatsUsage.DateLabelExample | src/pages/Stats.jsx:471-476 | 2025-01-05 is labelled "Dim 05/01" |
| StatsUsage.OccupationGraphData | src/pages/Stats.jsx:449-480 | one point per distinct date, dates strictly ascending, each labelled and holding round(total seconds / (count × 86400) × 100) |
| StatsUsage.GraphPercentageWithin | src/pages/Stats.jsx:466-469 | when every day's seconds are in [0, 86400] every percentage is in 0..100 |
| StatsDocks.GroupRateWithin | src/pages/Stats.jsx:384-385 | a group's rate is in [0, 100] when its available docks are between 0 and its total |
| StatsDocks.MostActiveFoldIsBest | src/pages/Stats.jsx:382-389 | the selection as written returns a listed group, with its rounded rate, no lower than any group's rounded rate |
| StatsDocks.BackendInstantStats | src/pages/Stats.jsx:361-398 | no groups give zeros and no parking; otherwise the summed totals, occupied = total - available, the rounded overall rate (0 when the total is 0) and the selected group |
| StatsDocks.SelectMostActive | src/pages/Stats.jsx:382-389 | the loop over the groups returns the group the selection as written picks |
| StatsDocks.MostActiveNotFirstOnTie | src/pages/Stats.jsx:386 | on a tie the selection as written takes the later group (second finding) |
| StatsDocks.FirstMaxGroup | src/pages/Stats.jsx:382-389 | the intended selection: a group with the highest rate, and before it only groups with lower rates |
| StatsDocks.MostActiveIntended | src/pages/Stats.jsx:382-389 | the corrected loop returns the first group with the highest rate, with its rounded rate |
| StatsDocks.MostActiveIntendedOnTie | src/pages/Stats.jsx:386 | on the second finding's input the corrected selection keeps the first group |
| StatsDocks.InstantStatsWithin | src/pages/Stats.jsx:372-389 | with sane groups the occupied docks lie between 0 and the total, and both rates are in 0..100 |
| MockData.ParkingRows | src/data/mockData.js:73-80 | one row per borne of a parking, each the borne with the parking's name and ville added |
| MockData.FlattenRows | src/data/mockData.js:69-81 | the flattened list has one row per borne of every parking: every borne appears and nothing else does |
| MockData.StampKeyOrder | src/data/mockData.js:86-91 | the parsed stamps order two bornes exactly as (month, day, hour, minute) do |
| MockData.SortDescNonIncreasing | src/data/mockData.js:84-94 | the sort leaves the list most recent first |
| MockData.SortDescStable | src/data/mockData.js:84-94 | rows with the same stamp keep their relative order |
| MockData.GetAllBornesList | src/data/mockData.js:66-95 | the list is the flattened rows sorted most recent first, a permutation of them with one row per borne, stable on equal stamps |
| MockData.SortDescCount | src/data/mockData.js:99-104 | sorting does not change how many rows have a given status |
| MockData.CountsPartition | src/data/mockData.js:99-104 | when every statut is one of the three, the three counts add up to the total |
| MockData.CalculateRealTimeStats | src/data/mockData.js:97-105 | on the demonstration data: 8 bornes, 5 libres, 2 occupées, 1 anomalie |
| MockData.DataCounts | src/data/mockData.js:11-60 | the demonstration data holds 8 bornes, with 5 libre, 2 occupée and 1 anomalie |
| MockData.ParkingsDataStamps | src/data/mockData.js:11-60 | every stamp of the demonstration data names a real day of 2025 and a time of day |
| JsText.Trim | src/pages/Map.jsx:90 | `trim` removes exactly the leading and trailing ECMAScript white space |
| JsText.TrimEmptyIffBlank | src/pages/Map.jsx:90 | `!s.trim()` holds exactly when `s` is all white space |
| JsText.ToLower | src/pages/BornesList.jsx:19 | `toLowerCase` maps each character, keeping the length |
| JsText.LowerCharSpec | src/pages/BornesList.jsx:19 | lower-casing maps capitals to their small letters and leaves every other character |
| JsText.ToLowerIdempotent | src/pages/BornesList.jsx:19-20 | lower-casing twice is lower-casing once |
| JsText.Includes | src/pages/BornesList.jsx:19 | `s.includes(t)` holds exactly when `t` occurs in `s` at some position |
| JsText.IncludesEmptyAndSelf | src/pages/BornesList.jsx:19 | every string includes the empty string and itself |
| JsText.ParseFloatNaNIff | src/pages/Map.jsx:72 | `parseFloat` is NaN exactly when the text after white space and a sign does not start a number |
| JsText.ParseFloatOfIntToString | src/pages/Map.jsx:134 | `parseFloat` of an integer's decimal text gives that integer back |
| JsText.ParseFloatFixedPoint | src/pages/Map.jsx:134 | `parseFloat` of digits, a point and digits gives the decimal value they write |
| JsText.ParseFloatOfWord | src/pages/Map.jsx:72 | "abc" and "" are NaN |
| MapPage.ApiToUiStatus | src/pages/Map.jsx:679-682 | available→libre, occupied→occupée, anything else→anomalie |
| MapPage.UiToApiStatus | src/pages/Map.jsx:222-224 | libre→available, occupée→occupied, anything else→out_of_service |
| MapPage.UiStatusRoundTrip | src/pages/Map.jsx:222-224 | a page status survives the round trip to the backend exactly when it is one of the three page statuses |
| MapPage.ApiStatusRoundTrip | src/pages/Map.jsx:679-682 | a backend status survives the round trip to the page exactly when it is one of the three backend statuses |
| MapPage.StatusTranslationsInjective | src/pages/Map.jsx:222-224 | on the known statuses each translation maps distinct statuses to distinct statuses |
| MapPage.OrElse | src/pages/Map.jsx:674 | `s \|\| fallback` is `s` when present and non-empty, and the fallback otherwise |
| MapPage.MapParkings | src/pages/Map.jsx:671-695 | one page parking per backend parking, in order |
| MapPage.MapParkingsShape | src/pages/Map.jsx:671-695 | each parking keeps id, name and position, gets a non-empty ville, and has one borne per dock in order with a non-empty id, the dock's id and sensor and a page status; missing docks give no bornes |
| MapPage.MapParkingsConcat | src/pages/Map.jsx:671 | mapping keeps order: mapping a concatenation maps its parts |
| MapPage.Marker | src/pages/Map.jsx:851-857 | libres counts the free bornes, libres ≤ total, and the colour is red iff some borne is faulty, green iff none is faulty and some is free, blue iff none is either |
| MapPage.RemoveParking | src/pages/Map.jsx:821 | the parkings left are exactly those with a different id |
| MapPage.RemoveParkingKeepsOrder | src/pages/Map.jsx:821 | removal keeps the other parkings in order and changes nothing when no parking has the id |
| ParkingModal.AppendKeepsDistinct | src/pages/Map.jsx:98-102 | appending a dock whose id is not listed keeps the ids distinct |
| ParkingModal.WithoutSocle | src/pages/Map.jsx:109 | the docks left are exactly those with a different id |
| ParkingModal.WithoutSocleSnoc | src/pages/Map.jsx:109 | deleting keeps the other docks in order |
| ParkingModal.WithoutSocleDistinct | src/pages/Map.jsx:109 | deleting keeps the ids distinct |
| ParkingModal.WithoutSocleLength | src/pages/Map.jsx:109 | deleting a listed id removes exactly one dock; deleting an unlisted one removes none |
| ParkingModal.UpdatedSocles | src/pages/Map.jsx:113 | every dock with the id gets the field set; every other dock is unchanged; the length is kept |
| ParkingModal.UpdatedSoclesSpec | src/pages/Map.jsx:113 | an edit changes only the named field of the matching docks, and keeps ids distinct unless it renames a dock to another listed id |
| ParkingModal.RenameCanDuplicate | src/pages/Map.jsx:113 | renaming a dock to another listed id makes two docks share an id |
| ParkingModal.AddParkingModal.constructor | src/pages/Map.jsx:60-68 | the form opens with the clicked coordinates or the default ones, an empty name, 'Chargement...' as ville, no docks and empty dock inputs with status available, so the form starts with distinct dock ids |
| ParkingModal.AddParkingModal.SetNom | src/pages/Map.jsx:147 | the name input sets the name and nothing else |
| ParkingModal.AddParkingModal.SetCoordinates | src/pages/Map.jsx:152-156 | the coordinate inputs set the coordinates and nothing else |
| ParkingModal.AddParkingModal.SetNewSocle | src/pages/Map.jsx:168-170 | the new-dock inputs set the new dock's id, sensor and status and nothing else |
| ParkingModal.AddParkingModal.ResolveVille | src/pages/Map.jsx:70-84 | invalid coordinates clear the ville; otherwise it becomes the place found, or 'Non spécifiée' |
| ParkingModal.AddParkingModal.AddSocle | src/pages/Map.jsx:89-106 | a blank id, a blank sensor or a listed id is refused and changes nothing; otherwise exactly the new dock is appended and the inputs are reset; distinct ids stay distinct, and the handler also runs on a list with a shared id |
| ParkingModal.AddParkingModal.DeleteSocle | src/pages/Map.jsx:108-110 | removes every dock with that id (all of them when renaming left the id shared), keeps the others in order and changes nothing else; with distinct ids exactly one dock goes |
| ParkingModal.AddParkingModal.UpdateSocle | src/pages/Map.jsx:112-114 | applies the field edit to the list and nothing else changes |
| ParkingModal.AddParkingModal.Validate | src/pages/Map.jsx:125-135 | refuses a blank name, then coordinates that are empty or NaN; otherwise hands over the name, the parsed coordinates, ville, docks and photo |
| BornesList.FilteredBornes | src/pages/BornesList.jsx:17-26 | the shown bornes are exactly the listed bornes that match the search, the status filter and the city filter |
| BornesList.FilteredKeepsOrder | src/pages/BornesList.jsx:17 | the shown bornes keep the list's order |
| BornesList.NoCriteriaShowsAll | src/pages/BornesList.jsx:18-25 | with no search text and both filters on 'all' every borne is shown |
| BornesList.FiltersAreExact | src/pages/BornesList.jsx:22-23 | a filter other than 'all' shows only bornes with exactly that statut or ville, and every matching borne is shown |
| BornesList.SearchIgnoresCase | src/pages/BornesList.jsx:18-20 | a search text and its lower-cased form select the same bornes |
| BornesList.AvailableCities | src/pages/BornesList.jsx:14 | the cities offered have no duplicates, are exactly the villes of the bornes and come in the order each ville first appears |
| BornesList.ShownCitiesAreOffered | src/pages/BornesList.jsx:14-23 | every shown borne's ville is offered by the city filter |
| SettingsExport.FlattenUsage | src/pages/Settings.jsx:44-58 | the nested loop yields the rows of all sensors in turn, one per day of every sensor; null data and missing daily usage add none |
| SettingsExport.UsageRowAt | src/pages/Settings.jsx:44-56 | row `offset(i) + j` copies the ids of sensor `i` and the date and occupied times of its day `j`, sensor by sensor and day by day in input order |
| SettingsExport.UsageRowsConcat | src/pages/Settings.jsx:44 | the rows of two batches of sensors are the batches' rows in turn |
| SettingsExport.HandleExportStats | src/pages/Settings.jsx:18-87 | no token stops before fetching; a failed fetch aborts; the usage export writes the flattened rows to usage_by_day; the sensors export writes exactly the response object; zero rows write nothing |

## Left out

- Network access is not modelled: `fetch` to the backend, the Nominatim reverse geocoding, `setTimeout` debouncing and out-of-order completion.
  - The fetched JSON is an input of the members.
  - The address Nominatim finds is the `found` parameter of `ParkingModal.AddParkingModal.ResolveVille`.
  - A failed request is the `HttpError` case of `SettingsExport.Response`.
- XLSX workbook writing is not modelled. `SettingsExport.HandleExportStats` stops at the sheet name, the file name and the rows.
- The photo upload through `FileReader`, Leaflet markers, recharts charts, `alert`, `confirm`, `console` and styles are not modelled; they are browser and rendering concerns.
- The page's React state setters are modelled only for the form's inputs.
- getRealTimeOccupancy and getPeakDay in src/pages/Stats.jsx are not modelled. They are computed but never shown, and duplicate `backendInstantStats` and `peakDayFromUsage`.
- `toLocaleDateString` and `toFixed` are not modelled; they are locale and floating-point formatting.
  - StatsUsage.PeakDayFromUsage: returns the peak's ISO date as its label rather than the long French date text.
  - MockData.GetAllBornesList: does not build the `coordonnees` display string. A row keeps the parking's latitude and longitude instead.
  - ParkingModal.AddParkingModal.constructor: takes the clicked position already written with six decimals.
- Floating point is not modelled: rates, hours and seconds are exact rationals, so double rounding is not modelled.
- JsText.ParseFloat: does not model rounding to the nearest double or overflow to Infinity; a number is its exact decimal value.
- JsText.ToLower: lower-cases ASCII and Latin-1 capitals only, not the full Unicode case mapping.
- Time zones and daylight saving time are not modelled. A date is its local calendar day plus milliseconds into the day, so the week formula's subtraction has no DST hour.
- MockData.GetAllBornesList: requires every stamp to be in the fixed "DD/MM HH:MM" form of a real 2025 day, as every stamp of the demonstration data is (MockData.ParkingsDataStamps). The page also sorts other stamps: `new Date` rolls an overflowing day forward ("31/02 10:00" is 3 March) and reads one-digit fields ("1/1 9:05" is 1 January, 09:05); only non-numeric fields or a missing space give NaN. Such stamps are not modelled.
- MockData.CalculateRealTimeStats: states its counts for the demonstration data only. The general count-preservation is MockData.SortDescCount.
- StatsUsage.DateLabel: gives no label (None) for a key that is not a "YYYY-MM-DD" date of a real day with a year of at least 100, although the page does label most of them: `new Date` rolls "2025-02-30" forward to Sunday 2 March ("Dim 30/02"), reads "2025-1-5" as 5 January ("Dim 5/1"), and moves year 0099 to 1999. The date normalisation of `new Date` is not modelled.
- MapPage.Marker: does not compute the unused `occupees` count.
- StatsUsage.UsageByDate: its accumulator also keeps per-date counts, which the page does not use.
- Dashboard, login, routing and the API client in src/services/api.js are not part of this model.

## Findings

| source | as written | input that shows it | evidently intended | confidence | as-written member | corrected member |
|---|---|---|---|---|---|---|
| src/pages/Stats.jsx:134-141 | `computeActiveZone` compares a zone's exact mean with the best zone's ROUNDED mean | samples ("A", 10.4), ("B", 10.2): A's mean is higher, yet B is chosen because 10.2 > round(10.4) = 10 | the zone with the highest mean, first-seen on ties | not executed | StatsZone.ActiveZoneNotArgMax | StatsZone.ComputeActiveZoneIntended |
| src/pages/Stats.jsx:382-389 | `backendInstantStats` compares a group's exact rate with the best group's ROUNDED rate | two groups with 3 docks and 2 available each: both rates are 33.3…, and the second group wins because 33.3… > round(33.3…) = 33 | the first group with the highest rate | not executed | StatsDocks.MostActiveNotFirstOnTie | StatsDocks.MostActiveIntended |
| src/pages/Stats.jsx:40-42 | the week formula uses the date with its time of day, so the ceiling rounds up any Saturday after midnight | a year whose January 1 is a Saturday, at 10:00 on that day: week 2 | January 1 in week 1, weeks starting on Sunday | not executed | Calendar.JanuaryFirstWeek | Calendar.WholeDayJanuaryFirst |
