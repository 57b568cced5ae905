# EpiFriend stores and report, modelled in Dafny

EpiFriend is a browser application for people with epilepsy. It records
seizure episodes, keeps a medication list with missed doses, holds profile
and emergency settings, and exports a medical PDF report. All state lives in
a handful of Vue composables that persist to browser storage. This project
models the logic of those composables:

- **the medication store** (`medications.dfy`, class `MedicationStore`).
  - Adding a medication, versioned updates that archive a snapshot of the
    old record into `history`, stopping a medication and the active filter.
  - The missed-dose log: logging a dose, looking one up and unlogging it.
- **the episode store** (`episodes.dfy`, class `EpisodeStore`): newest-first
  insertion, shallow-merge updates by id, and the `slice(0, limit)` view.
- **the settings store** (`settings.dfy`, class `SettingsStore`).
  - Loading merges the stored object over the defaults.
  - Each sub-record has its own shallow-merge updater.
  - The allergy list has duplicate-free insertion and `splice` removal.
- **the toast queue** (`toasts.dfy`, class `ToastQueue`): ids from a counter
  that only goes up, append, and removal by id.
- **the medicine search** (`medicine_database.dfy`): case-insensitive
  substring search over the bundled catalogue.
- **the report data** (`pdf_export.dfy`).
  - Option defaults and the inclusive date-range filter.
  - The episode and missed-medication table rows and headers.
  - The choice between a table and a "none recorded" message.
  - The file name.
  - The running `yPosition` page-break rule between sections.

JavaScript values are `Json.Value`, and objects are maps from key to value.
A missing key reads as `Undefined`. Object spread `{...a, ...b}` is
`Json.Merge`: `b`'s keys win. JavaScript truthiness is `Json.Truthy`.
`Collections` holds the array operations the stores use. `filter`,
`findIndex` and `splice(i, 1)` come with partner lemmas. `slice(0, n)`'s
end index is `SliceEnd`, a plain definition of the built-in's clamping.

The stores are classes whose fields are the source's reactive arrays and
objects. Each method states the whole new state, in terms of functions on
the old one. Those functions carry the promised properties:

- A history entry never nests.
- Stopping touches only `endDate`.
- Removing a toast is a filter when ids increase.
- The allergy list stays duplicate-free.
- Unlogging a missed dose clears the flag unless the same key was logged
  twice.

Three behaviours of the code are easy to misread:

- Loading settings is a shallow merge. A stored profile without
  `dateOfBirth` does not get the default back.
  `Settings.LoadDoesNotBackfillSubRecords` states this.
- `removeMissedDose` removes only the first matching row. If a dose was
  logged twice, it stays marked as missed.
- A date-only `to` bound parses to midnight at the start of that day. An
  episode later on the `to` day falls outside the range, because the
  comparison is on the parsed instants (`PdfExport.DateRangeInclusive`).

## Model

| member | source | states |
|---|---|---|
| Json.Merge | src/composables/useEpisodeStore.js:36 | object spread: the result's keys are both key sets; the second object's values win, the first's are kept elsewhere |
| Collections.Filter | src/composables/useMedicationStore.js:93 | `filter` keeps at most the elements it is given, and every element it returns satisfies the predicate |
| Collections.FilterIsSubseq | src/composables/useMedicationStore.js:93 | a filtered list is a subsequence of the original, so order is kept |
| Collections.FilterMultiplicity | src/composables/useMedicationStore.js:93 | an element occurs in the filtered list exactly as often as in the original if it satisfies the predicate, and not at all otherwise |
| Collections.FilterMembers | src/composables/useMedicineDatabase.js:10-12 | an element is in the filtered list if and only if it is in the original and satisfies the predicate |
| Collections.FilterAppend | src/composables/useToast.js:24-27 | filtering distributes over concatenation |
| Collections.FilterRemoveAt | src/composables/useMedicationStore.js:124-127 | removing an element that satisfies the predicate lowers the filtered count by one |
| Collections.FindIndex | src/composables/useMedicationStore.js:58-59 | `findIndex` is None exactly when no element matches; otherwise the index is in range, matches, and no earlier index matches |
| Collections.RemoveAt | src/composables/useMedicationStore.js:126 | `splice(i, 1)` removes one element: the elements before `i` stay and the later ones move down by one |
| Collections.RemoveAtIsSubseq | src/composables/useToast.js:26 | `splice(i, 1)` leaves a subsequence of the list |
| Collections.SliceEnd | src/composables/useEpisodeStore.js:41 | (definition of the built-in) `slice`'s end index: a negative end counts back from the length, and the end is clamped to `0..len` |
| Collections.MapSeq | src/composables/usePdfExport.js:213 | (definition of the built-in) `map` keeps the length and applies the function at every index |
| Collections.Somes | src/composables/usePdfExport.js:225 | `filter(Boolean)` on mapped rows never yields more elements than it is given |
| Collections.SomesOfMap | src/composables/usePdfExport.js:213-225 | mapping and then dropping the nulls keeps one value per element that does not map to null; value i belongs to the i-th such element |
| Collections.SubseqSkip | src/composables/useToast.js:26 | a subsequence of a list's tail is a subsequence of the list |
| Medications.NewMedication | src/composables/useMedicationStore.js:41-48 | the new record's id is the generated one unless the caller gave one; the start date is now, the end date null, the history empty (so the record is active and flat); the caller's other fields are kept |
| Medications.Snapshot | src/composables/useMedicationStore.js:64-68 | the archived copy has every field of the record, `archivedAt` set to now and no history of its own |
| Medications.Updated | src/composables/useMedicationStore.js:71-75 | the history grows by exactly the snapshot of the old record; the update's fields win except `history`; other fields are kept; a flat history stays flat |
| Medications.Stopped | src/composables/useMedicationStore.js:85 | only `endDate` changes, to now, which makes the record inactive; the history is untouched |
| Medications.MissedCountPositive | src/composables/useMedicationStore.js:116-118 | a dose key counts as missed if and only if at least one missed row carries it |
| Medications.MedicationStore.constructor | src/composables/useMedicationStore.js:8-18 | the store starts from the loaded lists |
| Medications.MedicationStore.AddMedication | src/composables/useMedicationStore.js:41-50 | appends exactly the new record and keeps every history flat |
| Medications.MedicationStore.UpdateMedication | src/composables/useMedicationStore.js:57-76 | an unknown id changes nothing; otherwise only the first record with that id is replaced by its updated version; histories stay flat |
| Medications.MedicationStore.StopMedication | src/composables/useMedicationStore.js:82-87 | an unknown id changes nothing; otherwise only the first record with that id is stopped |
| Medications.MedicationStore.ActiveMedications | src/composables/useMedicationStore.js:92-94 | the records with a falsy end date, in order: each active record as often as in the list, no inactive one |
| Medications.MedicationStore.LogMissedDose | src/composables/useMedicationStore.js:102-111 | appends exactly one missed row with the given key, after which the dose is missed and the medication has a missed dose that day |
| Medications.MedicationStore.RemoveMissedDose | src/composables/useMedicationStore.js:123-128 | removes the first row with the key, if any; the count of rows with the key drops by one when there was one; the dose stays missed if and only if it had been logged at least twice |
| Medications.MedicationStore.IsMissed | src/composables/useMedicationStore.js:116-118 | `some` over the log: the dose is missed on the date if and only if at least one missed row carries its key |
| Medications.MedicationStore.HasAnyMissedDose | src/composables/useMedicationStore.js:134-136 | the medication has a missed dose on the date if and only if some logged dose index of it is missed that day |
| Medications.MedicationStore.IsMissedImpliesAnyMissed | src/composables/useMedicationStore.js:116-118 | a missed dose implies that the medication has a missed dose on that date |
| Episodes.Stamped | src/composables/useEpisodeStore.js:26-30 | the stored record has the generated id and the current time unless the caller gave its own; all of the caller's fields are kept |
| Episodes.AddAll | src/composables/useEpisodeStore.js:25-31 | a run of `unshift`s grows the list by one per added episode and leaves the old list at the back |
| Episodes.AddAllReversed | src/composables/useEpisodeStore.js:25-31 | a run of additions puts the episodes in front in reverse order of insertion, newest first |
| Episodes.StampedKeepsIdsDistinct | src/composables/useEpisodeStore.js:26-30 | adding an episode with a fresh generated id keeps the ids distinct |
| Episodes.EpisodeStore.constructor | src/composables/useEpisodeStore.js:6-15 | the store starts from the loaded list |
| Episodes.EpisodeStore.AddEpisode | src/composables/useEpisodeStore.js:25-31 | the stamped episode goes in front of the old list |
| Episodes.EpisodeStore.UpdateEpisode | src/composables/useEpisodeStore.js:33-38 | an unknown id changes nothing; otherwise only the first episode with that id becomes the merge of its fields and the update |
| Episodes.EpisodeStore.GetRecentEpisodes | src/composables/useEpisodeStore.js:40-42 | a prefix of the list: `min(limit, length)` long for a non-negative limit (default 5), and `length + limit` (at least 0) for a negative one |
| Settings.DefaultSettings | src/composables/useSettings.js:5-26 | the defaults have exactly the four sub-records profile, emergency, medical and preferences |
| Settings.LoadSettings | src/composables/useSettings.js:29-37 | nothing stored, an empty string or a parse failure gives the defaults; otherwise the stored top-level keys replace the defaults' and the other defaults are kept |
| Settings.LoadDoesNotBackfillSubRecords | src/composables/useSettings.js:32 | the load merge is shallow: a stored profile without a date of birth has none afterwards |
| Settings.MergeSection | src/composables/useSettings.js:49-59 | one sub-record becomes the shallow merge of its old fields and the partial; every other top-level key is untouched |
| Settings.WithAllergy | src/composables/useSettings.js:61-65 | an empty name or an allergy already listed changes nothing; a new non-empty allergy is appended at the end; the old list is always a prefix and nothing else is added |
| Settings.WithAllergyKeepsNoDuplicates | src/composables/useSettings.js:62 | adding keeps a duplicate-free list duplicate-free |
| Settings.WithAllergyIdempotent | src/composables/useSettings.js:62 | adding the same allergy twice is the same as adding it once |
| Settings.WithoutAllergy | src/composables/useSettings.js:67-69 | `splice(index, 1)`: an index in range removes that element; a negative index counts back from the end, clamped to the first element; an index past the end removes nothing |
| Settings.WithoutAllergyKeepsNoDuplicates | src/composables/useSettings.js:67-69 | removing keeps the list duplicate-free |
| Settings.WithAllergies | src/composables/useSettings.js:63 | only the allergy list of the medical sub-record is replaced |
| Settings.SettingsStore.constructor | src/composables/useSettings.js:39 | the store starts from the loaded settings |
| Settings.SettingsStore.UpdateProfile | src/composables/useSettings.js:49-51 | the profile is merged with the partial |
| Settings.SettingsStore.UpdateEmergency | src/composables/useSettings.js:53-55 | the emergency sub-record is merged with the partial |
| Settings.SettingsStore.UpdateMedical | src/composables/useSettings.js:57-59 | the medical sub-record is merged with the partial |
| Settings.SettingsStore.UpdatePreferences | src/composables/useSettings.js:71-73 | the preferences are merged with the partial |
| Settings.SettingsStore.AddAllergy | src/composables/useSettings.js:61-65 | an empty name is ignored; a missing allergy list throws and changes nothing; otherwise the list becomes the duplicate-free insertion |
| Settings.SettingsStore.RemoveAllergy | src/composables/useSettings.js:67-69 | a missing allergy list throws and changes nothing; otherwise the list loses the element `splice` removes |
| Toasts.Without | src/composables/useToast.js:23-28 | an unknown id changes nothing; the result is a subsequence; with increasing ids it keeps them increasing, no toast with the id is left, and it equals filtering the id out |
| Toasts.WithoutIdempotent | src/composables/useToast.js:18-20 | a removal timer firing after the toast was already closed changes nothing |
| Toasts.NoneMatchingFilter | src/composables/useToast.js:24-25 | filtering out an id no toast has leaves the queue as it is |
| Toasts.UniqueRemoveIsFilter | src/composables/useToast.js:24-27 | with increasing ids, removing the found toast is the same as filtering out its id |
| Toasts.ToastQueue.constructor | src/composables/useToast.js:3-4 | the queue starts empty with the counter at 0 |
| Toasts.ToastQueue.ShowToast | src/composables/useToast.js:7-21 | the toast gets the counter's value as id and is appended, visible, with defaults 'success', '' and 3000; the counter goes up by one; a removal timer for that id is returned; ids stay increasing and below the counter |
| Toasts.ToastQueue.RemoveToast | src/composables/useToast.js:23-28 | the queue becomes `Without(queue, id)`: no toast with that id is left and the invariant holds |
| MedicineDatabase.LowerChar | src/composables/useMedicineDatabase.js:9 | (definition of the built-in) ASCII `toLowerCase`: the code point of an upper-case letter goes up by 32 and every other character is kept |
| MedicineDatabase.Lower | src/composables/useMedicineDatabase.js:9-11 | (definition of the built-in) lower-casing keeps the length and works character by character |
| MedicineDatabase.SearchMedicines | src/composables/useMedicineDatabase.js:7-13 | an absent or empty query returns the whole catalogue; otherwise the result is a subsequence, holds only matches, and holds every match |
| MedicineDatabase.EmptyQueryMatchesAll | src/composables/useMedicineDatabase.js:8 | every name contains the empty query, so the shortcut agrees with the filter |
| PdfExport.ResolveOptions | src/composables/usePdfExport.js:23-30 | each flag is on unless given and falsy; only the exact level 'basic' gives short rows; the date range defaults to null only when absent |
| PdfExport.FilterByDateRange | src/composables/usePdfExport.js:99-108 | no range, or neither end given, returns the items; otherwise a subsequence that keeps each item exactly when it does not lie outside a given, valid bound |
| PdfExport.DateRangeInclusive | src/composables/usePdfExport.js:104-105 | with both ends given, an item with a valid date is kept if and only if `from <= date <= to` |
| PdfExport.BoundOf | src/composables/usePdfExport.js:104-105 | a range end is unset exactly when it is falsy, unparsable exactly when it is truthy and does not parse, and otherwise the instant it parses to |
| PdfExport.WithinBounds | src/composables/usePdfExport.js:104-106 | an item whose date does not parse is always kept, as is any item when neither end is a valid date; with both ends valid a dated item is kept if and only if `from <= date <= to` |
| PdfExport.MissedLogs | src/composables/usePdfExport.js:197 | the rows with status 'missed', in order and with their multiplicities |
| PdfExport.OrPlaceholder | src/composables/usePdfExport.js:139-140 | the cell is '-' exactly when the value is falsy or is '-' itself; otherwise it is the value |
| PdfExport.CodeLabels | src/composables/usePdfExport.js:147-149 | (definition of the built-in) one translated label per code, in order |
| PdfExport.Symptoms | src/composables/usePdfExport.js:143-146 | the warning symptoms, then the during symptoms, then the after symptoms |
| PdfExport.SymptomsCell | src/composables/usePdfExport.js:143-147 | '-' if and only if the episode has no symptoms; otherwise one translated label per symptom, in that order, joined |
| PdfExport.TriggersCell | src/composables/usePdfExport.js:149 | '-' if and only if the trigger list is missing or empty; otherwise one translated label per trigger, in order, joined |
| PdfExport.EmergencyLabels | src/composables/usePdfExport.js:152-155 | each of witnessed, emergency called and went to hospital is listed if and only if its flag is truthy, in that order |
| PdfExport.EmergencyCell | src/composables/usePdfExport.js:152-156 | '-' if and only if no emergency flag is set; otherwise the listed labels joined |
| PdfExport.EpisodeHeaders | src/composables/usePdfExport.js:165-167 | 3 headers at the basic level and 9 at the full level, starting with date, time and type |
| PdfExport.BaseCells | src/composables/usePdfExport.js:128-133 | date, time and the translated type, a missing type reading as 'general' |
| PdfExport.DetailCells | src/composables/usePdfExport.js:139-160 | in the source's column order: severity, duration, the triggers, symptoms and emergency cells, and notes; severity, duration and notes are each '-' when missing |
| PdfExport.EpisodeRow | src/composables/usePdfExport.js:127-162 | the row has as many cells as the headers: the base cells, and at the full level the detail cells after them |
| PdfExport.EpisodeRowContents | src/composables/usePdfExport.js:143-156 | in a full row the triggers, symptoms and emergency columns are '-' when there are none and otherwise the translated values joined in order |
| PdfExport.MissedHeaders | src/composables/usePdfExport.js:230 | the missed-medication table has four columns |
| PdfExport.MedicationOf | src/composables/usePdfExport.js:214 | `find` returns the first medication in the list with the log's id, and None only when there is none |
| PdfExport.MissedRow | src/composables/usePdfExport.js:217-224 | name and dosage come from the medication; the dose label is "dose i+1 of n" for a numeric frequency above 1 and the single-dose label otherwise |
| PdfExport.RowOf | src/composables/usePdfExport.js:213-224 | a log maps to null exactly when no medication has its id, and otherwise to the row built from the first such medication |
| PdfExport.MissedMedRows | src/composables/usePdfExport.js:213-225 | one four-cell row per log whose medication exists, so never more rows than logs; row i is the row of the i-th such log |
| PdfExport.FileName | src/composables/usePdfExport.js:257 | the name starts with `EpiFriend_Report_`, ends with `.pdf`, and holds at most the first ten characters of the ISO time (its date) in between |
| PdfExport.EpisodeSectionOf | src/composables/usePdfExport.js:111-191 | a table exactly when some episode is in range; the table has the level's headers and one row per episode in range, in order, each as wide as the headers |
| PdfExport.MissedSectionOf | src/composables/usePdfExport.js:195-253 | "none recorded" exactly when no missed row is in range; the heading alone exactly when rows are in range but none has an existing medication; otherwise a table whose rows are those of the in-range logs with a medication, between 1 and the number of in-range rows, four cells each |
| PdfExport.BuildReport | src/composables/usePdfExport.js:23-260 | a section is present exactly when its option is on, and is built from the resolved options; the file name follows the date |
| PdfExport.PlaceSections | src/composables/usePdfExport.js:96-253 | each heading follows the page-break rule (past 250 for episodes, 220 for missed doses and 270 for the empty missed section, the heading moves to the top of a new page at 20); the "no episodes" heading has no check; each section starts where the previous one ended |
| PdfExport.MissedDoseSameDayExample | src/composables/usePdfExport.js:195-237 | a dose missed on 2024-01-01 gives one table row in a report for that day |
| PdfExport.MissedDoseNextDayExample | src/composables/usePdfExport.js:195-253 | the same dose gives "none recorded" in a report from 2024-01-02 on |

## Left out

- Persistence is not modelled. Browser storage, its `watch` writers and `JSON.parse`/`stringify` are outside the model. Loaded lists are constructor parameters, and a settings parse is a parameter that returns None where `JSON.parse` throws.
- Vue reactivity (`ref`, deep watches) is not modelled; the stores are plain objects that methods update.
- `crypto.randomUUID()` and `new Date().toISOString()` become `id` and `now` parameters. The default `date` argument (today's date) is left to the caller.
- Toasts.ToastQueue.ShowToast: the `setTimeout` callback is not run; the method returns the `RemovalTimer` it would schedule, and `RemoveToast` is what the timer calls.
- The toast queue is module-wide state shared by all callers; the model has one `ToastQueue` object and does not model the sharing.
- PDF drawing (jsPDF text, fonts, colours, `autoTable` styling, `doc.save`) is not modelled. The patient-information block's own y arithmetic depends on wrapped text lengths, so `PlaceSections` takes the position after it as a parameter. The table end positions `finalY` are also parameters.
- Translation (`t`) and locale date and time formatting are not modelled; cells keep them symbolic as labels and `LocaleDate`/`LocaleTime`.
- `new Date(...)` parsing is a `parseDate` parameter; None stands for an invalid date.
- PdfExport.ResolveOptions: `includePatientInfo` is resolved, but the patient block it controls is drawing and is not modelled.
- Numbers are integers. Floating point, NaN and string-to-number coercion are not modelled. For example, `med.frequency > 1` on a numeric string is treated as false by `PdfExport.SeveralDoses`.
- Medications.Updated: a truthy `history` that is not an array is not modelled faithfully. The source spreads a string into its characters. For a truthy object, number or `true`, the spread throws a TypeError, so `updateMedication` aborts and the list is unchanged. The model's `PriorHistory` reads any non-array as empty, and `Updated` goes ahead with an empty prior history.
- Json.Spread: spreading a string or an array gives index keys in JavaScript; the model gives no keys for any non-object.
- Key order of objects is not modelled (maps are unordered); nothing in the core depends on it.
- `===` on objects is reference identity; the model compares values. Ids in the core are strings or numbers, where the two agree.
- Settings.LoadSettings: aliasing with `defaultSettings` is not modelled. With nothing stored, the source returns the shared `defaultSettings` object itself. With a stored object, the shallow merge `{...defaultSettings, ...parsed}` still shares every default sub-record the stored object lacks, so `addAllergy`'s in-place `push` can change `defaultSettings.medical.allergies`. The model returns fresh values.
- Settings.WithAllergy: allergies are strings; `includes` on a non-array allergy list (a string) is not modelled and counts as the missing-list TypeError.
- PdfExport.SymptomsCell: a truthy symptom field that is not an array is read as empty. In the source, a string is spread into its characters, and a number or a non-iterable object makes `push(...x)` throw a TypeError, which aborts the whole report.
- PdfExport.TriggersCell: a truthy `triggers` that is not an array is read as empty. In the source, a non-empty string has a length but no `map`, so it throws and aborts the report; an object without a positive `length` gives '-'.
- MedicineDatabase.Lower: only ASCII letters are lower-cased; Unicode case mapping is not modelled.
- `tailwind.config.js` is styling configuration and is not part of this model.
