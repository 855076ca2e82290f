# VoiceNote AI: categories, migration and note store

VoiceNote AI records a voice memo, sends it for transcription, and lets the
user pick a *prompt category* (Summary, Action Items, a category of their own,
and so on). A language model then rewrites the transcript, and the result is
kept as a note in browser storage. This project models the core of that flow
in Dafny and proves properties of it:

- **Effective categories** (`prompt_utils.dfy`, module `PromptUtils`). The six
  built-in categories, minus those the user deleted, are overlaid by the user's
  own categories in a map keyed by id. On top of that list sit the id lookup,
  the display-name and icon fallbacks, the "is this category in use" test, and
  the resolution of a category's instruction text (user override first, then
  the preset table).
- **Key-ordered maps** (`insertion_map.dfy`, module `InsertionMap`). JavaScript
  `Map` and plain objects iterate keys in first-insertion order. This is
  modelled once as a sequence of entries, with upsert `Set` and the fold
  `SetAll`. It is used both for the category map and for the prompt-override
  object.
- **Identifier migration** (`migration.dfy`, module `Migration`). Legacy enum
  labels ("Summary", …) become category ids ("summary", …) in every stored
  note and in every key of the stored prompt overrides.
- **The application state** (`app_state.dfy`, module `AppState`). A class
  `App` holds the component's state and its two storage slots. Its methods are
  the initialisation effect, the persistence effects, the three handlers and
  the search box. The filter itself is in `note_search.dfy`.
- **The recorder** (`recorder.dfy`, module `Recorder`). The `m:ss` duration
  display, with a proved read-back, and a class for the recording flag, the
  timer, the elapsed seconds and the buffered chunks.
- **Records and tables** (`types.dfy`, `constants.dfy`). The note and settings
  records, the legacy `PromptType` enum, `PRESET_PROMPTS`, the built-in
  categories, the storage keys and the legacy prompt-option list.

Notes on how the model reads the source:

- `utils/promptUtils.ts` uses `PromptCategory`, `DEFAULT_PROMPT_CATEGORIES`
  and the settings fields `customPrompts`, `customCategories` and
  `deletedCategories`. None of these is declared in `types.ts` (types.ts:18-20
  declares only the token). The model declares them with the fields the code
  reads. The built-in ids are the ones the migration produces (App.tsx:26-31).
  The built-in names and icons are placeholders: the model states nothing that
  depends on them.
- `PRESET_PROMPTS` (types.ts:26-33) is keyed by the legacy labels, but notes and
  categories carry the migrated ids. So a built-in id with no user override
  resolves to the empty instruction. This is proved as
  `PromptUtils.BuiltInIdsHaveNoPreset` rather than changed.
- For a category that is not in the list, `getCategoryDisplayName`
  (promptUtils.ts:62) returns the id itself. The "deleted category" label is
  used only when the id is empty. The model follows the code.
- `Note.promptType` is typed as the enum (types.ts:6), but it holds category
  ids after migration and after generation (App.tsx:45, 142). The model types
  it as a string.
- Storage holds the parsed value, or `None` when the key is missing, empty or
  fails to parse; these three cases behave alike (App.tsx:38-55, 57-74). The
  notes write-back compares the lists structurally, where the source compares
  their JSON texts.
- `Recorder.ParseDuration` and its helper `Recorder.Find` (the first position of a character) are not in the source. They read an `m:ss` display back, so that `Recorder.FormatDurationRoundTrip` can state that the display loses nothing.
- The handlers are asynchronous. Each is modelled from its call to its end. The
  outcome of the remote call (transcript, generated text, or a thrown error as
  `None`) is a parameter. Generation is a function of the transcript, the
  category id and the resolved instruction text.

## Model

| member | source | states |
|---|---|---|
| InsertionMap.Get | utils/promptUtils.ts:42-43 | a key is found exactly when it is among the map's keys, and the value found is the one stored at the key's position |
| InsertionMap.Set | utils/promptUtils.ts:17 | setting an existing key replaces its value in place (its position is kept); setting a new key appends it at the end |
| InsertionMap.SetGet | utils/promptUtils.ts:17 | after setting k to v, reading k gives v and reading any other key gives what it gave before |
| InsertionMap.SetAllKeys | utils/promptUtils.ts:22-24 | after a series of sets, the key order is the old keys followed by each new key at its first insertion |
| InsertionMap.SetAllGet | utils/promptUtils.ts:22-24 | after a series of sets, a key that was set holds its last value, and any other key keeps its old value |
| InsertionMap.LastValueIsLast | App.tsx:64-67 | the last value for a key comes from an entry with that key after which the key does not occur again |
| InsertionMap.SetAllFresh | App.tsx:64-67 | setting only new and pairwise distinct keys appends the entries unchanged and in order |
| PromptUtils.ComputePromptCategories | utils/promptUtils.ts:6-27 | the two forEach loops over one map compute the effective list: the surviving built-ins, then the custom categories overlaid on them |
| PromptUtils.MergeCategories | utils/promptUtils.ts:12-26 | the loops' map equals setting the non-deleted built-ins and then every custom category, and its values are returned in key order |
| PromptUtils.PromptCategoriesWithoutSettings | utils/promptUtils.ts:6-9 | with no settings, or with no custom and no deleted categories, the list is exactly the six built-ins |
| PromptUtils.PromptCategoriesDistinct | utils/promptUtils.ts:12-26 | no id occurs twice in the effective list |
| PromptUtils.PromptCategoriesOrder | utils/promptUtils.ts:15-26 | surviving built-ins keep their order and positions; each new custom id follows, in the order it first occurs |
| PromptUtils.CategoryResolution | utils/promptUtils.ts:6-35 | lookup gives the last custom category with the id, else the built-in with that id unless it is deleted, else nothing |
| PromptUtils.DeletedDefaultAbsent | utils/promptUtils.ts:15-19 | a deleted id is in the list exactly when a custom category carries it |
| PromptUtils.CustomCategoryWins | utils/promptUtils.ts:22-24 | a custom id resolves to the last custom category with that id, with all its fields |
| PromptUtils.BuiltInNotOverlaid | utils/promptUtils.ts:15-19 | a built-in that is neither deleted nor overlaid is found unchanged and still marked as a default |
| PromptUtils.DeletedBuiltInFallback | utils/promptUtils.ts:60-71 | a deleted built-in that no custom category brings back is not found; it is shown by its id with the generic icon, and its instruction text is unaffected |
| PromptUtils.FindById | utils/promptUtils.ts:34 | a category is found exactly when the id occurs, and the one found has that id and is in the list |
| PromptUtils.GetCategoryById | utils/promptUtils.ts:32-35 | a category is found exactly when the id is in the effective list, and the one found is the effective category with that id |
| PromptUtils.GetPromptForCategory | utils/promptUtils.ts:40-48 | a non-empty override wins; otherwise the preset under the same key; otherwise the empty string; a non-empty result always comes from one of the two tables |
| PromptUtils.PromptIndependentOfCategories | utils/promptUtils.ts:40-48 | the instruction text does not depend on custom or deleted categories |
| PromptUtils.BuiltInIdsHaveNoPreset | utils/promptUtils.ts:47 | a built-in id with no override resolves to the empty string, because the presets are keyed by legacy labels |
| PromptUtils.IsCategoryInUse | utils/promptUtils.ts:53-55 | true exactly when some note's promptType equals the id |
| PromptUtils.GetCategoryDisplayName | utils/promptUtils.ts:60-63 | the effective category's name; for an id not in the list, the id itself, or the "deleted category" label for the empty id |
| PromptUtils.GetCategoryIcon | utils/promptUtils.ts:68-71 | the effective category's icon; for an id not in the list, the generic document glyph |
| Types.PromptTypeValuesDistinct | types.ts:9-16 | the six enum values are pairwise distinct |
| Types.PresetPromptsCoverPromptTypes | types.ts:26-33 | the preset table has an entry for exactly the six enum values, each non-empty |
| Types.DefaultCategoriesWellFormed | utils/promptUtils.ts:7 | there are six built-ins, with pairwise distinct ids, all marked as defaults |
| Constants.GetPromptOptions | constants.ts:12-19 | one option per effective category, in the same order, with the category's id as type, its icon, and its name as label |
| Constants.PromptOptionTypesDistinct | constants.ts:12-19 | no two options share a type |
| Constants.PromptOptionsWithoutSettings | constants.ts:12-19 | without settings the options are the six built-ins, one to one and in order |
| Constants.StorageKeysDistinct | constants.ts:5-6 | the notes slot and the settings slot have different names |
| Migration.MigratePromptType | App.tsx:24-34 | a legacy label maps to its id, any other string is returned as is, and the result is never a legacy label |
| Migration.MigratePromptTypeIdempotent | App.tsx:24-34 | migrating twice is the same as migrating once |
| Migration.MigrationTableMatchesTypes | App.tsx:25-32 | the table's keys are exactly the enum values (the preset keys), and its values are exactly the built-in ids |
| Migration.MigrateNotes | App.tsx:43-46 | same length and order; every field but promptType kept; promptType migrated |
| Migration.MigrateNotesIdempotent | App.tsx:43-46 | migrating the notes twice is the same as migrating them once |
| Migration.MigrateNotesChanges | App.tsx:49 | the migrated list differs from the stored one exactly when some note has a legacy label |
| Migration.MigrateNotesFixedPoint | App.tsx:43-46 | notes without a legacy label are left unchanged |
| Migration.MigratedEntries | App.tsx:64-66 | each override entry gets its key migrated and keeps its value, in iteration order |
| Migration.MigrateCustomPrompts | App.tsx:62-69 | the forEach loop builds the object obtained by setting each migrated key, in iteration order |
| Migration.MigratedPromptKeys | App.tsx:62-69 | the result has no key twice and no legacy key; its keys are exactly the migrated original keys; each key holds the value of the last original key that migrates to it |
| Migration.MigratePromptKeysIdempotent | App.tsx:62-69 | migrating the overrides twice is the same as migrating them once |
| Migration.MigrateSettings | App.tsx:60-70 | the overrides become the key-migrated overrides, the token and both category lists are kept, and settings without overrides stay as they are |
| Migration.MigrateSettingsIdempotent | App.tsx:60-70 | migrating the settings twice is the same as migrating them once |
| Migration.MigrateSettingsFixedPoint | App.tsx:62-69 | settings whose override keys are distinct and not legacy labels are left unchanged |
| NoteSearch.Includes | App.tsx:170-171 | true exactly when the query occurs at some position of the text |
| NoteSearch.FilterNotes | App.tsx:169-172 | a note is kept exactly when the lower-cased query occurs in its lower-cased generated text or transcript; nothing is added |
| NoteSearch.FilterConcat | App.tsx:169-172 | filtering distributes over concatenation, so the kept notes stay in their original order |
| NoteSearch.FilterEmptyQuery | App.tsx:169-172 | the empty query keeps every note |
| AppState.App.constructor | App.tsx:14-21 | empty notes, settings with only an empty token, all flags false, empty transcription and query |
| AppState.App.Initialize | App.tsx:37-76 | loads the notes migrated and writes them back only if migration changed them; loads the settings with migrated override keys; a missing slot leaves the state as it was; then marks the app initialised |
| AppState.App.Persist | App.tsx:79-95 | once initialised, both slots hold the current notes and settings; before that, nothing is written |
| AppState.App.HandleRecordingComplete | App.tsx:98-116 | without a token, settings open and nothing else changes; otherwise a transcript fills the slot and opens the picker, a failure leaves both as they were, and processing ends either way |
| AppState.App.HandlePromptSelect | App.tsx:118-161 | without a token, settings open and nothing else changes; otherwise the picker closes, a generated text becomes one new note in front of the unchanged older notes, and processing ends and the transcription empties either way |
| AppState.App.HandleCancelProcessing | App.tsx:163-166 | the picker closes and the transcription empties; the notes are untouched |
| AppState.App.SetSearchQuery | App.tsx:20 | the query is replaced |
| AppState.App.FilteredNotes | App.tsx:169-172 | the shown notes are the current notes filtered by the current query |
| AppState.Generated | App.tsx:137-150 | on failure the list is unchanged; on success the new first note carries the chosen category, the transcription, the generated text, the id and the time, followed by the old list |
| AppState.GeneratedKeepsCategoriesInUse | App.tsx:137-150 | after a successful generation, the chosen category is in use and every category in use before still is |
| AppState.GeneratedFiltered | App.tsx:146-172 | the search shows the new note first when it matches, followed by what it showed before |
| AppState.SaveAndReload | App.tsx:37-95 | after the persistence effect, a new component initialised over the written slots holds the same notes and settings, when the notes carry no legacy label and the override keys are distinct and migrated |
| AppState.LoadAndSave | App.tsx:14-95 | after loading and saving, storage holds the migrated stored values or the initial ones, and a second migration changes nothing |
| Recorder.NumberToString | components/Recorder.tsx:65 | the decimal digits of a number without leading zeros; one digit below 10, two below 100 |
| Recorder.NumberToStringRoundTrip | components/Recorder.tsx:65 | the digits read back as the number |
| Recorder.PadStart2 | components/Recorder.tsx:65 | a single digit gets one leading zero; two or more characters are kept as they are |
| Recorder.FormatDuration | components/Recorder.tsx:62-66 | minutes, a colon and exactly two second digits; the fields read back as seconds / 60 and seconds % 60 |
| Recorder.FormatDurationRoundTrip | components/Recorder.tsx:62-66 | parsing the display gives back the number of seconds |
| Recorder.RecorderState.constructor | components/Recorder.tsx:10-14 | not recording, zero seconds, no recorder, no timer, no chunks |
| Recorder.RecorderState.StartRecording | components/Recorder.tsx:16-49 | with the microphone granted, a recorder with an empty buffer, the flag set, zero seconds and the timer running; otherwise nothing changes |
| Recorder.RecorderState.DataAvailable | components/Recorder.tsx:23-27 | a non-empty chunk is appended to the buffer, and an empty one is dropped |
| Recorder.RecorderState.Tick | components/Recorder.tsx:41-43 | each timer tick adds one second |
| Recorder.RecorderState.StopRecording | components/Recorder.tsx:51-60 | with a recorder and while recording, the flag and the timer are cleared and the seconds and buffer are kept; otherwise nothing changes |
| Recorder.RecorderState.Stopped | components/Recorder.tsx:29-31 | the blob handed on is the buffered chunks, in order |

## Left out

- Network services: transcription and text generation are external calls. Their outcomes are parameters, and what they send and receive is not modelled.
- Browser storage and JSON: a slot is an optional parsed value. Text encoding, quota errors on write, and parsed values of the wrong shape (for example a note without `promptType`) are not modelled.
- Media capture: the microphone, `MediaRecorder`, audio tracks and the blob's MIME type. Whether access was granted is a parameter.
- The interval timer is not modelled as a clock. Its callback is a method the environment calls. Starting twice leaves the first interval running (a leaked handle), and this is not modelled.
- Rendering, alerts, console logging, scrolling and the analytics service.
- `crypto.randomUUID()` and `Date.now()` are parameters of the generation handler.
- NoteSearch.FilterNotes: lower-casing covers ASCII letters only, not full Unicode case mapping.
- Migration.MigratePromptType: the table is a finite map, so JavaScript prototype keys such as `constructor` are not looked up in it. The same holds for `PRESET_PROMPTS` in `PromptUtils.GetPromptForCategory`.
- PromptUtils.OverrideOf: `settings.customPrompts['constructor']` (utils/promptUtils.ts:42-43) reads the inherited `Object` function, which is truthy and would be returned as the instruction. The model reads a missing key as empty.
- Migration.MigrateCustomPrompts: assigning to the key `__proto__` (App.tsx:66) creates no key in the source. The model adds it like any other key.
- Objects order integer-like keys (such as "12") before the others. The model keeps plain insertion order for every key.
- AppState.App.HandleRecordingComplete: the intermediate state while the call is pending (`isProcessing` true) is not modelled, only the state at the end.
- AppState.App.HandlePromptSelect: the same holds for the pending state. Several handler calls interleaving is not modelled.
- No code in the source changes `customCategories`, `deletedCategories` or `customPrompts`. The settings dialog saves only the token (components/SettingsModal.tsx:19-22). These fields arrive only from storage, so the model has no operation that edits them. `ProcessingModal`, which calls the prompt handler, is not part of this model.
