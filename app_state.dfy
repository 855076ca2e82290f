/**
  The state of the `App` component of `App.tsx`: the notes, the settings, the
  dialog and progress flags, the transcription slot and the search box, together
  with the two browser storage slots it loads from and saves to. Each stored slot
  holds the parsed value, or nothing when the key is missing or does not parse.
  The speech-to-text and text-generation services are the environment: their
  outcomes are parameters, `None` standing for a thrown error.
 */
module AppState {
  import opened Wrappers
  import opened InsertionMap
  import opened Types
  import opened PromptUtils
  import opened Migration
  import opened NoteSearch

  class App {
    var notes: seq<Note>
    var settings: AppSettings
    var isSettingsOpen: bool
    var isProcessingModalOpen: bool
    var currentTranscription: string
    var isProcessing: bool
    var searchQuery: string
    var isInitialized: bool
    /** The `vn_ai_notes` storage slot. */
    var storedNotes: Option<seq<Note>>
    /** The `vn_ai_settings` storage slot. */
    var storedSettings: Option<AppSettings>

    /** The component's initial state, over whatever the browser has stored. */
    constructor (savedNotes: Option<seq<Note>>, savedSettings: Option<AppSettings>)
      ensures notes == [] && settings == INITIAL_SETTINGS
      ensures !isSettingsOpen && !isProcessingModalOpen && !isProcessing && !isInitialized
      ensures currentTranscription == "" && searchQuery == ""
      ensures storedNotes == savedNotes && storedSettings == savedSettings
    {
      notes, settings := [], INITIAL_SETTINGS;
      isSettingsOpen, isProcessingModalOpen, isProcessing, isInitialized := false, false, false, false;
      currentTranscription, searchQuery := "", "";
      storedNotes, storedSettings := savedNotes, savedSettings;
    }

    /**
      The initialisation effect. Stored notes are loaded with their prompt types
      migrated, and written back only when the migration changed something.
      Stored settings are loaded with their override keys migrated and are not
      written back here. A missing or unreadable slot leaves the state as it was.
      Afterwards the component counts as initialised.
     */
    method Initialize()
      modifies this`notes, this`settings, this`storedNotes, this`isInitialized
      ensures old(storedNotes).Some? ==> notes == MigrateNotes(old(storedNotes).value)
      ensures old(storedNotes).None? ==> notes == old(notes)
      ensures storedNotes ==
        if old(storedNotes).Some? && MigrateNotes(old(storedNotes).value) != old(storedNotes).value
        then Some(notes) else old(storedNotes)
      ensures old(storedSettings).Some? ==> settings == MigrateSettings(old(storedSettings).value)
      ensures old(storedSettings).None? ==> settings == old(settings)
      ensures isInitialized
    {
      if storedNotes.Some? {
        var parsed := storedNotes.value;
        var migratedNotes := MigrateNotes(parsed);
        notes := migratedNotes;
        if parsed != migratedNotes {
          storedNotes := Some(migratedNotes);
        }
      }
      if storedSettings.Some? {
        var parsed := storedSettings.value;
        if parsed.customPrompts.Some? {
          var migratedPrompts := MigrateCustomPrompts(parsed.customPrompts.value);
          parsed := parsed.(customPrompts := Some(migratedPrompts));
        }
        settings := parsed;
      }
      isInitialized := true;
    }

    /** The two persistence effects: once initialised, both slots hold the current notes and settings. */
    method Persist()
      modifies this`storedNotes, this`storedSettings
      ensures isInitialized ==> storedNotes == Some(notes) && storedSettings == Some(settings)
      ensures !isInitialized ==> storedNotes == old(storedNotes) && storedSettings == old(storedSettings)
    {
      if isInitialized {
        storedNotes := Some(notes);
        storedSettings := Some(settings);
      }
    }

    /**
      `handleRecordingComplete`, from the call to its end. Without a token the
      settings dialog opens and nothing else changes. Otherwise the transcription
      outcome decides: a transcript fills the slot and opens the prompt picker;
      a failure leaves both as they were. Either way processing is over.
     */
    method HandleRecordingComplete(transcript: Option<string>)
      modifies this`isSettingsOpen, this`isProcessing, this`currentTranscription, this`isProcessingModalOpen
      ensures settings.siliconFlowToken == "" ==>
        && isSettingsOpen && isProcessing == old(isProcessing)
        && currentTranscription == old(currentTranscription)
        && isProcessingModalOpen == old(isProcessingModalOpen)
      ensures settings.siliconFlowToken != "" ==>
        && isSettingsOpen == old(isSettingsOpen) && !isProcessing
        && currentTranscription == (if transcript.Some? then transcript.value else old(currentTranscription))
        && isProcessingModalOpen == (transcript.Some? || old(isProcessingModalOpen))
    {
      if settings.siliconFlowToken == "" {
        isSettingsOpen := true;
        return;
      }
      isProcessing := true;
      match transcript
      case Some(text) =>
        currentTranscription := text;
        isProcessing := false;
        isProcessingModalOpen := true;
      case None =>
        isProcessing := false;
    }

    /**
      `handlePromptSelect`, from the call to its end. Without a token the settings
      dialog opens and nothing else changes. Otherwise the picker closes and the
      generator is asked to transform the transcription with the category's
      instruction; its text, if any, becomes a new note in front of the others,
      carrying the transcription and the chosen category. Either way processing is
      over and the transcription slot is emptied. The note's id and creation time
      are inputs.
     */
    method HandlePromptSelect(promptType: string, generate: (string, string, string) -> Option<string>,
                              noteId: string, createdAt: int)
      modifies this`isSettingsOpen, this`isProcessingModalOpen, this`isProcessing, this`notes, this`currentTranscription
      ensures settings.siliconFlowToken == "" ==>
        && isSettingsOpen && isProcessingModalOpen == old(isProcessingModalOpen)
        && isProcessing == old(isProcessing) && notes == old(notes)
        && currentTranscription == old(currentTranscription)
      ensures settings.siliconFlowToken != "" ==>
        && isSettingsOpen == old(isSettingsOpen) && !isProcessingModalOpen && !isProcessing
        && currentTranscription == ""
        && notes == Generated(old(notes), old(currentTranscription), promptType,
             generate(old(currentTranscription), promptType, GetPromptForCategory(promptType, Some(settings))),
             noteId, createdAt)
    {
      if settings.siliconFlowToken == "" {
        isSettingsOpen := true;
        return;
      }
      isProcessingModalOpen := false;
      isProcessing := true;
      var instruction := GetPromptForCategory(promptType, Some(settings));
      match generate(currentTranscription, promptType, instruction) {
        case Some(generatedContent) =>
          var newNote := Note(noteId, createdAt, currentTranscription, generatedContent, promptType);
          notes := [newNote] + notes;
        case None =>
      }
      isProcessing := false;
      currentTranscription := "";
    }

    /** `handleCancelProcessing`: the picker closes and the transcription is dropped. */
    method HandleCancelProcessing()
      modifies this`isProcessingModalOpen, this`currentTranscription
      ensures !isProcessingModalOpen && currentTranscription == ""
    {
      isProcessingModalOpen := false;
      currentTranscription := "";
    }

    /** The search box's `onChange`. */
    method SetSearchQuery(query: string)
      modifies this`searchQuery
      ensures searchQuery == query
    {
      searchQuery := query;
    }

    /** `filteredNotes`, as rendered. */
    method FilteredNotes() returns (shown: seq<Note>)
      ensures shown == FilterNotes(notes, searchQuery)
    {
      shown := FilterNotes(notes, searchQuery);
    }
  }

  /** The note list after a generation: the outcome's text, if any, as a new first note. */
  function Generated(notes: seq<Note>, transcription: string, promptType: string,
                     outcome: Option<string>, noteId: string, createdAt: int): (r: seq<Note>)
    ensures outcome.None? ==> r == notes
    ensures outcome.Some? ==> |r| == |notes| + 1 && r[1..] == notes
    ensures outcome.Some? ==>
      && r[0].promptType == promptType && r[0].originalText == transcription
      && r[0].processedContent == outcome.value && r[0].id == noteId && r[0].createdAt == createdAt
  {
    match outcome
    case None => notes
    case Some(content) => [Note(noteId, createdAt, transcription, content, promptType)] + notes
  }

  /**
    After a successful generation the chosen category is in use, and every
    category that was in use still is.
   */
  lemma GeneratedKeepsCategoriesInUse(notes: seq<Note>, transcription: string, promptType: string,
                                      content: string, noteId: string, createdAt: int, other: string)
    ensures IsCategoryInUse(promptType, Generated(notes, transcription, promptType, Some(content), noteId, createdAt))
    ensures IsCategoryInUse(other, notes) ==>
      IsCategoryInUse(other, Generated(notes, transcription, promptType, Some(content), noteId, createdAt))
  {
    var r := Generated(notes, transcription, promptType, Some(content), noteId, createdAt);
    assert r[0].promptType == promptType;
    if IsCategoryInUse(other, notes) {
      var i :| 0 <= i < |notes| && notes[i].promptType == other;
      assert r[i + 1] == notes[i];
    }
  }

  /**
    What the search shows after a generation: the new note in front when it
    matches the query, followed by what was shown before, in the same order.
   */
  lemma GeneratedFiltered(notes: seq<Note>, transcription: string, promptType: string,
                          content: string, noteId: string, createdAt: int, query: string)
    ensures var note := Note(noteId, createdAt, transcription, content, promptType);
      FilterNotes(Generated(notes, transcription, promptType, Some(content), noteId, createdAt), query) ==
        (if NoteMatches(note, query) then [note] else []) + FilterNotes(notes, query)
  {
    var note := Note(noteId, createdAt, transcription, content, promptType);
    FilterConcat([note], notes, query);
    assert FilterNotes([note], query) == (if NoteMatches(note, query) then [note] else []) + FilterNotes([], query);
  }

  /**
    Saving and loading again is lossless for notes without a legacy label and
    settings whose overrides have distinct, migrated keys: after the
    persistence effect, a new component over the written slots holds, once
    initialised, the same notes and settings.
   */
  method SaveAndReload(app: App) returns (reloaded: App)
    requires app.isInitialized
    requires forall i :: 0 <= i < |app.notes| ==> app.notes[i].promptType !in MIGRATION_MAP
    requires app.settings.customPrompts.Some? ==>
      && Distinct(Keys(app.settings.customPrompts.value))
      && forall i :: 0 <= i < |app.settings.customPrompts.value| ==> app.settings.customPrompts.value[i].key !in MIGRATION_MAP
    modifies app`storedNotes, app`storedSettings
    ensures fresh(reloaded) && reloaded.isInitialized
    ensures reloaded.notes == app.notes && reloaded.settings == app.settings
    ensures reloaded.storedNotes == Some(app.notes) && reloaded.storedSettings == Some(app.settings)
  {
    app.Persist();
    MigrateNotesFixedPoint(app.notes);
    MigrateSettingsFixedPoint(app.settings);
    reloaded := new App(app.storedNotes, app.storedSettings);
    reloaded.Initialize();
  }

  /**
    A full load followed by a save: after the initialisation effect and the
    persistence effect, the storage holds exactly the migrated stored values
    (or the initial ones where nothing was stored), and loading once more
    changes nothing because migration is idempotent.
   */
  method LoadAndSave(savedNotes: Option<seq<Note>>, savedSettings: Option<AppSettings>) returns (app: App)
    ensures app.isInitialized
    ensures app.notes == (if savedNotes.Some? then MigrateNotes(savedNotes.value) else [])
    ensures app.settings == (if savedSettings.Some? then MigrateSettings(savedSettings.value) else INITIAL_SETTINGS)
    ensures app.storedNotes == Some(app.notes) && app.storedSettings == Some(app.settings)
    ensures MigrateNotes(app.notes) == app.notes && MigrateSettings(app.settings) == app.settings
  {
    app := new App(savedNotes, savedSettings);
    app.Initialize();
    app.Persist();
    if savedNotes.Some? {
      MigrateNotesIdempotent(savedNotes.value);
    }
    if savedSettings.Some? {
      MigrateSettingsIdempotent(savedSettings.value);
    }
  }
}
