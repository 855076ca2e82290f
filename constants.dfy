/** `constants.ts`: the storage keys and the legacy prompt-option projection. */
module Constants {
  import opened Wrappers
  import opened InsertionMap
  import opened Types
  import opened PromptUtils

  const APP_NAME := "VoiceNote AI"
  const LOCAL_STORAGE_KEY_NOTES := "vn_ai_notes"
  const LOCAL_STORAGE_KEY_SETTINGS := "vn_ai_settings"

  /** One entry of the legacy prompt picker; `optionType` and `labelText` are the source's `type` and `label` fields. */
  datatype PromptOption = PromptOption(optionType: string, icon: string, labelText: string)

  function ToOption(cat: PromptCategory): PromptOption
  {
    PromptOption(cat.id, cat.icon, cat.name)
  }

  function ToOptions(cats: seq<PromptCategory>): (options: seq<PromptOption>)
    ensures |options| == |cats|
    ensures forall i :: 0 <= i < |cats| ==> options[i] == ToOption(cats[i])
  {
    if cats == [] then [] else [ToOption(cats[0])] + ToOptions(cats[1..])
  }

  /**
    `getPromptOptions`: one option per effective category, in the same order,
    carrying the category's id, icon and name.
   */
  function GetPromptOptions(settings: Option<AppSettings>): (options: seq<PromptOption>)
    ensures |options| == |GetPromptCategories(settings)|
    ensures forall i :: 0 <= i < |options| ==>
      var cat := GetPromptCategories(settings)[i];
      options[i].optionType == cat.id && options[i].icon == cat.icon && options[i].labelText == cat.name
  {
    ToOptions(GetPromptCategories(settings))
  }

  function OptionTypes(options: seq<PromptOption>): (types: seq<string>)
    ensures |types| == |options|
    ensures forall i :: 0 <= i < |options| ==> types[i] == options[i].optionType
  {
    seq(|options|, i requires 0 <= i < |options| => options[i].optionType)
  }

  /** No two options share a `type`, because no two effective categories share an id. */
  lemma PromptOptionTypesDistinct(settings: Option<AppSettings>)
    ensures Distinct(OptionTypes(GetPromptOptions(settings)))
  {
    PromptCategoriesDistinct(settings);
    assert OptionTypes(GetPromptOptions(settings)) == Ids(GetPromptCategories(settings));
  }

  /** Without settings the options are the built-in categories, one to one and in order. */
  lemma PromptOptionsWithoutSettings()
    ensures GetPromptOptions(None) == ToOptions(DEFAULT_PROMPT_CATEGORIES)
    ensures |GetPromptOptions(None)| == 6
  {
    PromptCategoriesWithoutSettings(None);
    DefaultCategoriesWellFormed();
  }

  /** The two storage slots have distinct names. */
  lemma StorageKeysDistinct()
    ensures LOCAL_STORAGE_KEY_NOTES != LOCAL_STORAGE_KEY_SETTINGS
  {
  }
}
