/**
  The identifier migration of `App.tsx`: legacy enum labels become the
  built-in category ids, in every stored note and in every key of the stored
  prompt overrides.
 */
module Migration {
  import opened Wrappers
  import opened InsertionMap
  import opened Types
  import PromptUtils

  /** Legacy label to category id. */
  const MIGRATION_MAP: map<string, string> := map[
    "Raw Record" := "raw",
    "Summary" := "summary",
    "Action Items" := "action_items",
    "Journal Entry" := "journal",
    "Email Draft" := "email",
    "Code Snippet" := "code"
  ]

  /**
    `migratePromptType`: a legacy label is replaced by its id; anything else
    (an id already migrated, or a user's own id) is returned as it is. The
    result is never a legacy label.
   */
  function MigratePromptType(oldType: string): (r: string)
    ensures r !in MIGRATION_MAP
    ensures oldType in MIGRATION_MAP ==> r == MIGRATION_MAP[oldType]
    ensures oldType !in MIGRATION_MAP ==> r == oldType
  {
    if oldType in MIGRATION_MAP then MIGRATION_MAP[oldType] else oldType
  }

  /** Migrating twice is migrating once. */
  lemma MigratePromptTypeIdempotent(t: string)
    ensures MigratePromptType(MigratePromptType(t)) == MigratePromptType(t)
  {
  }

  /**
    The table's keys are exactly the legacy enum values (the keys of the
    preset table), and its values are exactly the built-in category ids.
   */
  lemma MigrationTableMatchesTypes()
    ensures MIGRATION_MAP.Keys == PRESET_PROMPTS.Keys
    ensures forall t: PromptType :: t.Value() in MIGRATION_MAP
    ensures forall k :: k in MIGRATION_MAP ==> MIGRATION_MAP[k] in PromptUtils.Ids(DEFAULT_PROMPT_CATEGORIES)
    ensures forall i :: 0 <= i < |DEFAULT_PROMPT_CATEGORIES| ==> DEFAULT_PROMPT_CATEGORIES[i].id in MIGRATION_MAP.Values
  {
    var ids := PromptUtils.Ids(DEFAULT_PROMPT_CATEGORIES);
    assert ids == ["raw", "summary", "action_items", "journal", "email", "code"];
    assert MIGRATION_MAP["Raw Record"] == "raw";
    assert MIGRATION_MAP["Summary"] == "summary";
    assert MIGRATION_MAP["Action Items"] == "action_items";
    assert MIGRATION_MAP["Journal Entry"] == "journal";
    assert MIGRATION_MAP["Email Draft"] == "email";
    assert MIGRATION_MAP["Code Snippet"] == "code";
  }

  // ---------------------------------------------------------------------------
  // Notes

  function MigrateNote(note: Note): Note
  {
    note.(promptType := MigratePromptType(note.promptType))
  }

  /**
    The note migration: same length and order, every field but `promptType`
    kept, `promptType` migrated.
   */
  function MigrateNotes(notes: seq<Note>): (r: seq<Note>)
    ensures |r| == |notes|
    ensures forall i :: 0 <= i < |notes| ==>
      && r[i].id == notes[i].id
      && r[i].createdAt == notes[i].createdAt
      && r[i].originalText == notes[i].originalText
      && r[i].processedContent == notes[i].processedContent
      && r[i].promptType == MigratePromptType(notes[i].promptType)
  {
    if notes == [] then [] else [MigrateNote(notes[0])] + MigrateNotes(notes[1..])
  }

  lemma MigrateNotesIdempotent(notes: seq<Note>)
    ensures MigrateNotes(MigrateNotes(notes)) == MigrateNotes(notes)
  {
  }

  /** The migrated list differs from the stored one exactly when some note still has a legacy label. */
  lemma MigrateNotesChanges(notes: seq<Note>)
    ensures MigrateNotes(notes) != notes <==> exists i :: 0 <= i < |notes| && notes[i].promptType in MIGRATION_MAP
  {
    if exists i :: 0 <= i < |notes| && notes[i].promptType in MIGRATION_MAP {
      var i :| 0 <= i < |notes| && notes[i].promptType in MIGRATION_MAP;
      assert MigrateNotes(notes)[i] != notes[i];
    }
  }

  // ---------------------------------------------------------------------------
  // Prompt overrides

  /** The overrides' entries with their keys migrated, in iteration order. */
  function MigratedEntries(prompts: seq<Entry<string>>): (es: seq<Entry<string>>)
    ensures |es| == |prompts|
    ensures forall i :: 0 <= i < |prompts| ==> es[i] == Entry(MigratePromptType(prompts[i].key), prompts[i].value)
  {
    seq(|prompts|, i requires 0 <= i < |prompts| => Entry(MigratePromptType(prompts[i].key), prompts[i].value))
  }

  /** The override object after key migration: each migrated key assigned in iteration order. */
  function MigratePromptKeys(prompts: seq<Entry<string>>): seq<Entry<string>>
  {
    SetAll([], MigratedEntries(prompts))
  }

  /** The key migration as the source runs it: a loop that fills a fresh object. */
  method MigrateCustomPrompts(prompts: seq<Entry<string>>) returns (migratedPrompts: seq<Entry<string>>)
    ensures migratedPrompts == MigratePromptKeys(prompts)
  {
    migratedPrompts := [];
    for i := 0 to |prompts|
      invariant migratedPrompts == SetAll([], MigratedEntries(prompts[..i]))
    {
      var oldKey := prompts[i].key;
      var newKey := MigratePromptType(oldKey);
      assert prompts[..i + 1] == prompts[..i] + [prompts[i]];
      MigrationStep(prompts[..i], prompts[i]);
      migratedPrompts := Set(migratedPrompts, newKey, prompts[i].value);
    }
    assert prompts[..|prompts|] == prompts;
  }

  /** One iteration of the key-migration loop. */
  lemma MigrationStep(prompts: seq<Entry<string>>, e: Entry<string>)
    ensures SetAll([], MigratedEntries(prompts + [e])) ==
      Set(SetAll([], MigratedEntries(prompts)), MigratePromptType(e.key), e.value)
  {
    var entry := Entry(MigratePromptType(e.key), e.value);
    assert MigratedEntries(prompts + [e]) == MigratedEntries(prompts) + [entry];
    SetAllSnoc([], MigratedEntries(prompts), entry);
  }

  /**
    After key migration: no key twice, no legacy key, the keys are exactly the
    migrated original keys, and each key holds the value of the LAST original
    key that migrates to it.
   */
  lemma MigratedPromptKeys(prompts: seq<Entry<string>>, k: string)
    ensures Distinct(Keys(MigratePromptKeys(prompts)))
    ensures forall key :: key in Keys(MigratePromptKeys(prompts)) ==> key !in MIGRATION_MAP
    ensures k in Keys(MigratePromptKeys(prompts)) <==>
      exists i :: 0 <= i < |prompts| && MigratePromptType(prompts[i].key) == k
    ensures Get(MigratePromptKeys(prompts), k).Some? ==>
      exists j :: 0 <= j < |prompts| && MigratePromptType(prompts[j].key) == k
        && Get(MigratePromptKeys(prompts), k).value == prompts[j].value
        && forall l :: j < l < |prompts| ==> MigratePromptType(prompts[l].key) != k
  {
    var es := MigratedEntries(prompts);
    SetAllKeys([], es);
    AppendNewDistinct([], Keys(es));
    forall key | key in Keys(MigratePromptKeys(prompts))
      ensures key !in MIGRATION_MAP
    {
      AppendNewContains([], Keys(es), key);
    }
    AppendNewContains([], Keys(es), k);
    SetAllGet([], es, k);
    if k in Keys(es) {
      LastValueIsLast(es, k);
    }
  }

  /** Migrating the overrides twice is migrating them once. */
  lemma MigratePromptKeysIdempotent(prompts: seq<Entry<string>>)
    ensures MigratePromptKeys(MigratePromptKeys(prompts)) == MigratePromptKeys(prompts)
  {
    var once := MigratePromptKeys(prompts);
    MigratedPromptKeys(prompts, "");
    assert MigratedEntries(once) == once;
    SetAllFresh([], once);
  }

  /** The settings migration: only the overrides' keys change, and only when there are overrides. */
  function MigrateSettings(settings: AppSettings): (r: AppSettings)
    ensures r.siliconFlowToken == settings.siliconFlowToken
    ensures r.customCategories == settings.customCategories
    ensures r.deletedCategories == settings.deletedCategories
    ensures r.customPrompts.Some? <==> settings.customPrompts.Some?
    ensures settings.customPrompts.Some? ==> r.customPrompts == Some(MigratePromptKeys(settings.customPrompts.value))
  {
    match settings.customPrompts
    case None => settings
    case Some(prompts) => settings.(customPrompts := Some(MigratePromptKeys(prompts)))
  }

  lemma MigrateSettingsIdempotent(settings: AppSettings)
    ensures MigrateSettings(MigrateSettings(settings)) == MigrateSettings(settings)
  {
    if settings.customPrompts.Some? {
      MigratePromptKeysIdempotent(settings.customPrompts.value);
    }
  }

  /**
    Settings saved after a migration load back unchanged: with no legacy key and
    no key twice among the overrides, the settings migration changes nothing.
   */
  lemma MigrateSettingsFixedPoint(settings: AppSettings)
    requires settings.customPrompts.Some? ==>
      && Distinct(Keys(settings.customPrompts.value))
      && forall i :: 0 <= i < |settings.customPrompts.value| ==> settings.customPrompts.value[i].key !in MIGRATION_MAP
    ensures MigrateSettings(settings) == settings
  {
    if settings.customPrompts.Some? {
      var p := settings.customPrompts.value;
      assert MigratedEntries(p) == p;
      SetAllFresh([], p);
      assert [] + p == p;
      assert MigratePromptKeys(p) == p;
    }
  }

  /** Notes saved after a migration load back unchanged. */
  lemma MigrateNotesFixedPoint(notes: seq<Note>)
    requires forall i :: 0 <= i < |notes| ==> notes[i].promptType !in MIGRATION_MAP
    ensures MigrateNotes(notes) == notes
  {
    MigrateNotesChanges(notes);
  }
}
