/**
  `utils/promptUtils.ts`: the effective category list (built-ins minus
  deletions, overlaid by the user's categories), lookups and display fallbacks
  on top of it, and the resolution of a category's instruction text.
 */
module PromptUtils {
  import opened Wrappers
  import opened InsertionMap
  import opened Types

  /** Glyph shown for a category that is not in the effective list. */
  const FALLBACK_ICON := "\U{1F4C4}"
  /** Label shown for the empty category id when no category has it ("deleted category"). */
  const DELETED_CATEGORY_LABEL := "\U{5DF2}\U{5220}\U{9664}\U{7684}\U{7C7B}\U{522B}"

  function Ids(cats: seq<PromptCategory>): (ids: seq<string>)
    ensures |ids| == |cats|
    ensures forall i :: 0 <= i < |cats| ==> ids[i] == cats[i].id
  {
    seq(|cats|, i requires 0 <= i < |cats| => cats[i].id)
  }

  /** The entries `categoryMap.set(cat.id, { ...cat })` inserts, one per category. */
  function ById(cats: seq<PromptCategory>): (es: seq<Entry<PromptCategory>>)
    ensures Keys(es) == Ids(cats) && Values(es) == cats && KeyedById(es)
  {
    seq(|cats|, i requires 0 <= i < |cats| => Entry(cats[i].id, cats[i]))
  }

  /** Every entry is stored under its category's own id. */
  predicate KeyedById(m: seq<Entry<PromptCategory>>)
  {
    forall i :: 0 <= i < |m| ==> m[i].key == m[i].value.id
  }

  /** The built-ins that survive the deletions, in their original order. */
  function Surviving(defaults: seq<PromptCategory>, deleted: seq<string>): seq<PromptCategory>
  {
    if defaults == [] then []
    else if defaults[0].id in deleted then Surviving(defaults[1..], deleted)
    else [defaults[0]] + Surviving(defaults[1..], deleted)
  }

  function CustomCategoriesOf(settings: Option<AppSettings>): seq<PromptCategory>
  {
    if settings.Some? then settings.value.customCategories else []
  }

  function DeletedCategoriesOf(settings: Option<AppSettings>): seq<string>
  {
    if settings.Some? then settings.value.deletedCategories else []
  }

  /**
    The effective list for a given list of built-ins: the surviving built-ins
    are set into an empty map, then every custom category is set over them, and
    the map's values are returned in key order.
   */
  function Merge(defaults: seq<PromptCategory>, deleted: seq<string>, customs: seq<PromptCategory>): seq<PromptCategory>
  {
    Values(SetAll(SetAll([], ById(Surviving(defaults, deleted))), ById(customs)))
  }

  /** `getPromptCategories`: the effective list of categories for the given settings. */
  function GetPromptCategories(settings: Option<AppSettings>): seq<PromptCategory>
  {
    Merge(DEFAULT_PROMPT_CATEGORIES, DeletedCategoriesOf(settings), CustomCategoriesOf(settings))
  }

  /** `getPromptCategories` as the source runs it: two loops that update one map. */
  method ComputePromptCategories(settings: Option<AppSettings>) returns (cats: seq<PromptCategory>)
    ensures cats == GetPromptCategories(settings)
  {
    cats := MergeCategories(DEFAULT_PROMPT_CATEGORIES, DeletedCategoriesOf(settings), CustomCategoriesOf(settings));
  }

  method MergeCategories(defaults: seq<PromptCategory>, deleted: seq<string>, customs: seq<PromptCategory>)
    returns (cats: seq<PromptCategory>)
    ensures cats == Merge(defaults, deleted, customs)
  {
    var categoryMap: seq<Entry<PromptCategory>> := [];
    for i := 0 to |defaults|
      invariant categoryMap == SetAll([], ById(Surviving(defaults[..i], deleted)))
    {
      var cat := defaults[i];
      assert defaults[..i + 1] == defaults[..i] + [cat];
      SurvivingStep(defaults[..i], cat, deleted);
      if cat.id !in deleted {
        categoryMap := Set(categoryMap, cat.id, cat);
      }
    }
    assert defaults[..|defaults|] == defaults;
    ghost var builtIns := categoryMap;
    for i := 0 to |customs|
      invariant categoryMap == SetAll(builtIns, ById(customs[..i]))
    {
      var cat := customs[i];
      assert customs[..i + 1] == customs[..i] + [cat];
      CustomStep(builtIns, customs[..i], cat);
      categoryMap := Set(categoryMap, cat.id, cat);
    }
    assert customs[..|customs|] == customs;
    cats := Values(categoryMap);
  }

  /** `Array.prototype.find` by id: the first category with that id. */
  function FindById(cats: seq<PromptCategory>, id: string): (r: Option<PromptCategory>)
    ensures r.Some? <==> id in Ids(cats)
    ensures r.Some? ==> r.value in cats && r.value.id == id
  {
    if cats == [] then None
    else if cats[0].id == id then Some(cats[0])
    else
      assert Ids(cats) == [cats[0].id] + Ids(cats[1..]);
      FindById(cats[1..], id)
  }

  /** `getCategoryById`: the effective category with that id, if there is one. */
  function GetCategoryById(id: string, settings: Option<AppSettings>): (r: Option<PromptCategory>)
    ensures r.Some? <==> id in Ids(GetPromptCategories(settings))
    ensures r.Some? ==> r.value in GetPromptCategories(settings) && r.value.id == id
  {
    FindById(GetPromptCategories(settings), id)
  }

  /**
    `getPromptForCategory`: a non-empty override wins, then a non-empty preset
    under the same key, then the empty string.
   */
  function GetPromptForCategory(categoryId: string, settings: Option<AppSettings>): (r: string)
    ensures r != "" ==> r == OverrideOf(categoryId, settings) || (categoryId in PRESET_PROMPTS && r == PRESET_PROMPTS[categoryId])
    ensures OverrideOf(categoryId, settings) != "" ==> r == OverrideOf(categoryId, settings)
    ensures OverrideOf(categoryId, settings) == "" && categoryId in PRESET_PROMPTS ==> r == PRESET_PROMPTS[categoryId]
    ensures OverrideOf(categoryId, settings) == "" && categoryId !in PRESET_PROMPTS ==> r == ""
  {
    var custom := OverrideOf(categoryId, settings);
    if custom != "" then custom
    else if categoryId in PRESET_PROMPTS then PRESET_PROMPTS[categoryId]
    else ""
  }

  /** `settings.customPrompts[id]`, with a missing object or key read as the falsy `''`. */
  function OverrideOf(categoryId: string, settings: Option<AppSettings>): string
  {
    if settings.Some? && settings.value.customPrompts.Some? then
      match Get(settings.value.customPrompts.value, categoryId)
      case Some(text) => text
      case None => ""
    else ""
  }

  /** `isCategoryInUse`: some note was generated with this category id. */
  function IsCategoryInUse(categoryId: string, notes: seq<Note>): (r: bool)
    ensures r <==> exists i :: 0 <= i < |notes| && notes[i].promptType == categoryId
  {
    if notes == [] then false
    else notes[0].promptType == categoryId || IsCategoryInUse(categoryId, notes[1..])
  }

  /**
    `getCategoryDisplayName`: the effective category's name, else the id itself,
    else (for the empty id) the "deleted category" label.
   */
  function GetCategoryDisplayName(categoryId: string, settings: Option<AppSettings>): (r: string)
    ensures forall c :: c in GetPromptCategories(settings) && c.id == categoryId ==> r == c.name
    ensures categoryId !in Ids(GetPromptCategories(settings)) ==>
      r == if categoryId != "" then categoryId else DELETED_CATEGORY_LABEL
  {
    PromptCategoriesDistinct(settings);
    match GetCategoryById(categoryId, settings)
    case Some(category) => category.name
    case None => if categoryId != "" then categoryId else DELETED_CATEGORY_LABEL
  }

  /** `getCategoryIcon`: the effective category's icon, else the generic glyph. */
  function GetCategoryIcon(categoryId: string, settings: Option<AppSettings>): (r: string)
    ensures forall c :: c in GetPromptCategories(settings) && c.id == categoryId ==> r == c.icon
    ensures categoryId !in Ids(GetPromptCategories(settings)) ==> r == FALLBACK_ICON
  {
    PromptCategoriesDistinct(settings);
    match GetCategoryById(categoryId, settings)
    case Some(category) => category.icon
    case None => FALLBACK_ICON
  }

  // ---------------------------------------------------------------------------
  // Properties of the effective category list

  /** With no settings, or with no custom and no deleted categories, the list is exactly the built-ins. */
  lemma PromptCategoriesWithoutSettings(settings: Option<AppSettings>)
    requires settings.None? || (settings.value.customCategories == [] && settings.value.deletedCategories == [])
    ensures GetPromptCategories(settings) == DEFAULT_PROMPT_CATEGORIES
  {
    DefaultIdsDistinct();
    MergeNothing(DEFAULT_PROMPT_CATEGORIES);
  }

  /** The effective list never holds two categories with the same id. */
  lemma PromptCategoriesDistinct(settings: Option<AppSettings>)
    ensures Distinct(Ids(GetPromptCategories(settings)))
  {
    DefaultIdsDistinct();
    MergeOrder(DEFAULT_PROMPT_CATEGORIES, DeletedCategoriesOf(settings), CustomCategoriesOf(settings));
    SurvivingDistinct(DEFAULT_PROMPT_CATEGORIES, DeletedCategoriesOf(settings));
    AppendNewDistinct(Ids(Surviving(DEFAULT_PROMPT_CATEGORIES, DeletedCategoriesOf(settings))),
                      Ids(CustomCategoriesOf(settings)));
  }

  /**
    Order of the effective list: the surviving built-ins keep their places and
    order; each custom id that is new comes after them, in the order of its first
    occurrence among the custom categories.
   */
  lemma PromptCategoriesOrder(settings: Option<AppSettings>)
    ensures Ids(GetPromptCategories(settings)) ==
      AppendNew(Ids(Surviving(DEFAULT_PROMPT_CATEGORIES, DeletedCategoriesOf(settings))),
                Ids(CustomCategoriesOf(settings)))
  {
    DefaultIdsDistinct();
    MergeOrder(DEFAULT_PROMPT_CATEGORIES, DeletedCategoriesOf(settings), CustomCategoriesOf(settings));
  }

  /**
    What `getCategoryById` finds: the last custom category with that id if there
    is one; otherwise the built-in with that id unless it was deleted; otherwise
    nothing.
   */
  lemma CategoryResolution(id: string, settings: Option<AppSettings>)
    ensures var customs := ById(CustomCategoriesOf(settings));
      GetCategoryById(id, settings) ==
        if id in Keys(customs) then Some(LastValue(customs, id))
        else if id in DeletedCategoriesOf(settings) then None
        else FindById(DEFAULT_PROMPT_CATEGORIES, id)
  {
    DefaultIdsDistinct();
    MergeFind(DEFAULT_PROMPT_CATEGORIES, DeletedCategoriesOf(settings), CustomCategoriesOf(settings), id);
  }

  /** A default whose id is deleted is absent unless a custom category carries that id. */
  lemma DeletedDefaultAbsent(id: string, settings: Option<AppSettings>)
    requires id in DeletedCategoriesOf(settings)
    ensures id in Ids(GetPromptCategories(settings)) <==> id in Ids(CustomCategoriesOf(settings))
  {
    CategoryResolution(id, settings);
  }

  /** The last custom category with a given id is the one found, with all its fields. */
  lemma CustomCategoryWins(id: string, settings: Option<AppSettings>)
    requires id in Ids(CustomCategoriesOf(settings))
    ensures exists j ::
      && 0 <= j < |CustomCategoriesOf(settings)|
      && GetCategoryById(id, settings) == Some(CustomCategoriesOf(settings)[j])
      && forall l :: j < l < |CustomCategoriesOf(settings)| ==> CustomCategoriesOf(settings)[l].id != id
  {
    var customs := ById(CustomCategoriesOf(settings));
    CategoryResolution(id, settings);
    LastValueIsLast(customs, id);
  }

  /** A built-in that is neither deleted nor overlaid is found unchanged, and so still marked as a default. */
  lemma BuiltInNotOverlaid(d: PromptCategory, settings: Option<AppSettings>)
    requires d in DEFAULT_PROMPT_CATEGORIES
    requires d.id !in DeletedCategoriesOf(settings) && d.id !in Ids(CustomCategoriesOf(settings))
    ensures GetCategoryById(d.id, settings) == Some(d) && d.isDefault
  {
    CategoryResolution(d.id, settings);
    DefaultIdsDistinct();
    DefaultCategoriesWellFormed();
    FindDistinct(DEFAULT_PROMPT_CATEGORIES, d);
  }

  /**
    A deleted built-in that no custom category brings back is absent; a note that
    still refers to it is displayed with its id as the name and the generic icon,
    and its instruction text is resolved as before.
   */
  lemma DeletedBuiltInFallback(d: PromptCategory, settings: AppSettings, notes: seq<Note>)
    requires d in DEFAULT_PROMPT_CATEGORIES
    requires d.id in settings.deletedCategories && d.id !in Ids(settings.customCategories)
    ensures d.id !in Ids(GetPromptCategories(Some(settings)))
    ensures GetCategoryById(d.id, Some(settings)).None?
    ensures GetCategoryDisplayName(d.id, Some(settings)) == d.id
    ensures GetCategoryIcon(d.id, Some(settings)) == FALLBACK_ICON
    ensures GetPromptForCategory(d.id, Some(settings)) ==
      GetPromptForCategory(d.id, Some(settings.(deletedCategories := [])))
  {
    CategoryResolution(d.id, Some(settings));
    DefaultCategoriesWellFormed();
    assert d.id != "" by {
      assert d == DEFAULT_PROMPT_CATEGORIES[0] || d == DEFAULT_PROMPT_CATEGORIES[1] ||
        d == DEFAULT_PROMPT_CATEGORIES[2] || d == DEFAULT_PROMPT_CATEGORIES[3] ||
        d == DEFAULT_PROMPT_CATEGORIES[4] || d == DEFAULT_PROMPT_CATEGORIES[5];
    }
  }

  /** The instruction text depends only on the overrides: categories and deletions do not matter. */
  lemma PromptIndependentOfCategories(id: string, settings: AppSettings, customs: seq<PromptCategory>, deleted: seq<string>)
    ensures GetPromptForCategory(id, Some(settings)) ==
      GetPromptForCategory(id, Some(settings.(customCategories := customs, deletedCategories := deleted)))
  {
  }

  /**
    The presets are keyed by the legacy enum values, never by the built-in ids,
    so a built-in id without an override resolves to the empty string.
   */
  lemma BuiltInIdsHaveNoPreset(d: PromptCategory, settings: Option<AppSettings>)
    requires d in DEFAULT_PROMPT_CATEGORIES
    requires OverrideOf(d.id, settings) == ""
    ensures GetPromptForCategory(d.id, settings) == ""
  {
    assert d.id !in PRESET_PROMPTS by {
      assert d == DEFAULT_PROMPT_CATEGORIES[0] || d == DEFAULT_PROMPT_CATEGORIES[1] ||
        d == DEFAULT_PROMPT_CATEGORIES[2] || d == DEFAULT_PROMPT_CATEGORIES[3] ||
        d == DEFAULT_PROMPT_CATEGORIES[4] || d == DEFAULT_PROMPT_CATEGORIES[5];
    }
  }

  // ---------------------------------------------------------------------------
  // Helpers

  lemma DefaultIdsDistinct()
    ensures Distinct(Ids(DEFAULT_PROMPT_CATEGORIES))
  {
    DefaultCategoriesWellFormed();
  }

  /** The built-in stage of the map is exactly the surviving built-ins, keyed by id. */
  lemma BuiltInStage(defaults: seq<PromptCategory>, deleted: seq<string>)
    requires Distinct(Ids(defaults))
    ensures var survivors := Surviving(defaults, deleted);
      SetAll([], ById(survivors)) == ById(survivors) && Distinct(Ids(survivors))
  {
    var survivors := Surviving(defaults, deleted);
    SurvivingDistinct(defaults, deleted);
    SetAllFresh([], ById(survivors));
  }

  lemma MergeNothing(defaults: seq<PromptCategory>)
    requires Distinct(Ids(defaults))
    ensures Merge(defaults, [], []) == defaults
  {
    SurvivingNothing(defaults);
    BuiltInStage(defaults, []);
    assert ById([]) == [];
  }

  lemma MergeOrder(defaults: seq<PromptCategory>, deleted: seq<string>, customs: seq<PromptCategory>)
    requires Distinct(Ids(defaults))
    ensures Ids(Merge(defaults, deleted, customs)) == AppendNew(Ids(Surviving(defaults, deleted)), Ids(customs))
  {
    var survivors := Surviving(defaults, deleted);
    var m := SetAll(SetAll([], ById(survivors)), ById(customs));
    BuiltInStage(defaults, deleted);
    SetAllKeys(ById(survivors), ById(customs));
    SetAllKeyed(ById(survivors), ById(customs));
    assert Ids(Values(m)) == Keys(m);
  }

  lemma MergeFind(defaults: seq<PromptCategory>, deleted: seq<string>, customs: seq<PromptCategory>, id: string)
    requires Distinct(Ids(defaults))
    ensures FindById(Merge(defaults, deleted, customs), id) ==
      if id in Keys(ById(customs)) then Some(LastValue(ById(customs), id))
      else if id in deleted then None
      else FindById(defaults, id)
  {
    var survivors := Surviving(defaults, deleted);
    BuiltInStage(defaults, deleted);
    SetAllKeyed(ById(survivors), ById(customs));
    FindInValues(SetAll(ById(survivors), ById(customs)), id);
    SetAllGet(ById(survivors), ById(customs), id);
    FindInValues(ById(survivors), id);
    FindSurviving(defaults, deleted, id);
  }

  lemma {:induction false} SurvivingNothing(defaults: seq<PromptCategory>)
    ensures Surviving(defaults, []) == defaults
  {
    if defaults != [] {
      SurvivingNothing(defaults[1..]);
    }
  }

  lemma {:induction false} SurvivingSnoc(defaults: seq<PromptCategory>, c: PromptCategory, deleted: seq<string>)
    ensures Surviving(defaults + [c], deleted) ==
      Surviving(defaults, deleted) + (if c.id in deleted then [] else [c])
  {
    if defaults == [] {
      assert Surviving([c], deleted) == (if c.id in deleted then [] else [c]);
    } else {
      assert (defaults + [c])[1..] == defaults[1..] + [c];
      SurvivingSnoc(defaults[1..], c, deleted);
    }
  }

  lemma {:induction false} SurvivingIds(defaults: seq<PromptCategory>, deleted: seq<string>, id: string)
    ensures id in Ids(Surviving(defaults, deleted)) ==> id in Ids(defaults)
  {
    if defaults != [] {
      assert Ids(defaults) == [defaults[0].id] + Ids(defaults[1..]);
      SurvivingIds(defaults[1..], deleted, id);
      var rest := Surviving(defaults[1..], deleted);
      assert Ids([defaults[0]] + rest) == [defaults[0].id] + Ids(rest);
    }
  }

  lemma {:induction false} SurvivingDistinct(defaults: seq<PromptCategory>, deleted: seq<string>)
    requires Distinct(Ids(defaults))
    ensures Distinct(Ids(Surviving(defaults, deleted)))
  {
    if defaults != [] {
      assert Ids(defaults[1..]) == Ids(defaults)[1..];
      SurvivingDistinct(defaults[1..], deleted);
      var rest := Surviving(defaults[1..], deleted);
      if defaults[0].id !in deleted {
        assert defaults[0].id !in Ids(defaults[1..]);
        SurvivingIds(defaults[1..], deleted, defaults[0].id);
        assert Ids([defaults[0]] + rest) == [defaults[0].id] + Ids(rest);
      }
    }
  }

  lemma {:induction false} FindSurviving(defaults: seq<PromptCategory>, deleted: seq<string>, id: string)
    ensures FindById(Surviving(defaults, deleted), id) == if id in deleted then None else FindById(defaults, id)
  {
    if defaults != [] {
      FindSurviving(defaults[1..], deleted, id);
      var rest := Surviving(defaults[1..], deleted);
      if defaults[0].id !in deleted {
        assert ([defaults[0]] + rest)[1..] == rest;
      }
    }
  }

  lemma {:induction false} FindDistinct(cats: seq<PromptCategory>, c: PromptCategory)
    requires Distinct(Ids(cats)) && c in cats
    ensures FindById(cats, c.id) == Some(c)
  {
    if cats[0] != c {
      assert Ids(cats[1..]) == Ids(cats)[1..];
      assert c in cats[1..];
      FindDistinct(cats[1..], c);
    }
  }

  lemma {:induction false} FindInValues(m: seq<Entry<PromptCategory>>, id: string)
    requires KeyedById(m)
    ensures FindById(Values(m), id) == Get(m, id)
  {
    if m != [] {
      assert Values(m[1..]) == Values(m)[1..];
      FindInValues(m[1..], id);
    }
  }

  /** One iteration of the built-in loop. */
  lemma SurvivingStep(defaults: seq<PromptCategory>, c: PromptCategory, deleted: seq<string>)
    ensures SetAll([], ById(Surviving(defaults + [c], deleted))) ==
      if c.id in deleted then SetAll([], ById(Surviving(defaults, deleted)))
      else Set(SetAll([], ById(Surviving(defaults, deleted))), c.id, c)
  {
    var before := Surviving(defaults, deleted);
    SurvivingSnoc(defaults, c, deleted);
    if c.id in deleted {
      assert Surviving(defaults + [c], deleted) == before;
    } else {
      assert Surviving(defaults + [c], deleted) == before + [c];
      ByIdSnoc(before, c);
      SetAllSnoc([], ById(before), Entry(c.id, c));
    }
  }

  /** One iteration of the custom loop. */
  lemma CustomStep(m: seq<Entry<PromptCategory>>, customs: seq<PromptCategory>, c: PromptCategory)
    ensures SetAll(m, ById(customs + [c])) == Set(SetAll(m, ById(customs)), c.id, c)
  {
    ByIdSnoc(customs, c);
    SetAllSnoc(m, ById(customs), Entry(c.id, c));
  }

  lemma ByIdSnoc(cats: seq<PromptCategory>, c: PromptCategory)
    ensures ById(cats + [c]) == ById(cats) + [Entry(c.id, c)]
  {
    assert ById(cats + [c])[|cats|] == Entry(c.id, c);
  }

  lemma {:induction false} SetAllKeyed(m: seq<Entry<PromptCategory>>, es: seq<Entry<PromptCategory>>)
    requires KeyedById(m) && KeyedById(es)
    ensures KeyedById(SetAll(m, es))
  {
    if es != [] {
      SetAllKeyed(m, es[..|es| - 1]);
    }
  }
}
