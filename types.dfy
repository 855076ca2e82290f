/**
  The records, the legacy enum and the constant tables of `types.ts`.

  `PromptCategory`, `DEFAULT_PROMPT_CATEGORIES` and the settings fields
  `customCategories`, `deletedCategories` and `customPrompts` are used by
  `utils/promptUtils.ts` but are not declared in `types.ts`;
  they are declared here with the fields that code reads.
 */
module Types {
  import opened Wrappers
  import opened InsertionMap

  /** A saved note. `promptType` is the category id chosen when it was generated. */
  datatype Note = Note(
    id: string,
    createdAt: int,
    originalText: string,
    processedContent: string,
    promptType: string)

  /** A category the user can pick to rewrite a transcript. */
  datatype PromptCategory = PromptCategory(id: string, name: string, icon: string, isDefault: bool)

  /** The legacy rewriting styles; `Value` is the enum's string value. */
  datatype PromptType = Raw | Summary | ActionItems | Journal | Email | Code
  {
    function Value(): string
    {
      match this
      case Raw => "Raw Record"
      case Summary => "Summary"
      case ActionItems => "Action Items"
      case Journal => "Journal Entry"
      case Email => "Email Draft"
      case Code => "Code Snippet"
    }
  }

  /**
    Persisted settings. `customPrompts` is a plain object, so its keys keep
    insertion order; `None` means the property is absent. The two category
    lists are read as `settings?.customCategories || []`, so an absent list and
    an empty one are the same here.
   */
  datatype AppSettings = AppSettings(
    siliconFlowToken: string,
    customPrompts: Option<seq<Entry<string>>>,
    customCategories: seq<PromptCategory>,
    deletedCategories: seq<string>)

  /** The settings the application starts with: only an empty token. */
  const INITIAL_SETTINGS := AppSettings("", None, [], [])

  /** The preset instruction text, keyed by the enum's values. */
  const PRESET_PROMPTS: map<string, string> := map[
    "Raw Record" := "Keep the text exactly as is, just fix minor punctuation.",
    "Summary" := "Summarize the following text into a concise paragraph, capturing the main points.",
    "Action Items" := "Extract a list of actionable tasks and to-do items from the text. Format them as a bulleted list.",
    "Journal Entry" := "Rewrite the text as a reflective journal entry, maintaining a personal and thoughtful tone.",
    "Email Draft" := "Convert the spoken notes into a professional email draft.",
    "Code Snippet" := "Extract any technical logic or code concepts and format them as a code snippet or technical explanation."
  ]

  /**
    The six built-in categories in display order. Their ids are fixed; the
    names and icons stand in for display text the model does not depend on.
   */
  const DEFAULT_PROMPT_CATEGORIES: seq<PromptCategory> := [
    PromptCategory("raw", "Raw Record", "\U{1F4DD}", true),
    PromptCategory("summary", "Summary", "\U{1F4CB}", true),
    PromptCategory("action_items", "Action Items", "\U{2705}", true),
    PromptCategory("journal", "Journal Entry", "\U{1F4D4}", true),
    PromptCategory("email", "Email Draft", "\U{1F4E7}", true),
    PromptCategory("code", "Code Snippet", "\U{1F4BB}", true)
  ]

  /** The six enum values are pairwise distinct. */
  lemma PromptTypeValuesDistinct(a: PromptType, b: PromptType)
    ensures a.Value() == b.Value() ==> a == b
  {
  }

  /** `PRESET_PROMPTS` has a non-empty entry for exactly the six enum values. */
  lemma PresetPromptsCoverPromptTypes()
    ensures forall t: PromptType :: t.Value() in PRESET_PROMPTS && PRESET_PROMPTS[t.Value()] != ""
    ensures forall k :: k in PRESET_PROMPTS ==> exists t: PromptType :: t.Value() == k
  {
    assert forall k :: k in PRESET_PROMPTS ==>
      k == Raw.Value() || k == Summary.Value() || k == ActionItems.Value() ||
      k == Journal.Value() || k == Email.Value() || k == Code.Value();
  }

  /** Six built-in categories with pairwise distinct ids, all marked as defaults. */
  lemma DefaultCategoriesWellFormed()
    ensures |DEFAULT_PROMPT_CATEGORIES| == 6
    ensures forall i, j :: 0 <= i < j < 6 ==>
      DEFAULT_PROMPT_CATEGORIES[i].id != DEFAULT_PROMPT_CATEGORIES[j].id
    ensures forall i :: 0 <= i < 6 ==> DEFAULT_PROMPT_CATEGORIES[i].isDefault
  {
  }
}
