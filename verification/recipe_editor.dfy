/**
 * `RecipeEditorView`: the sheet that creates a recipe or edits one. It
 * edits the title, the calories per serving as text, and the notes;
 * everything else of an edited recipe is carried over untouched.
 */
module RecipeEditor {
  import opened Wrappers
  import opened Text
  import opened Domain

  datatype Mode = Create | Edit

  datatype RecipeEditor = RecipeEditor(
    mode: Mode,
    ownerIdentifier: Option<string>,
    original: Option<Recipe>,
    title: string,
    caloriesText: string,
    body: string)

  /** `init`: the fields start from the recipe, if one is given, and are empty otherwise. */
  function Open(mode: Mode, recipe: Option<Recipe>, ownerIdentifier: Option<string>): (ed: RecipeEditor)
    ensures ed.original == recipe && ed.ownerIdentifier == ownerIdentifier && ed.mode == mode
    ensures recipe.None? ==> ed.title == "" && ed.caloriesText == "" && ed.body == ""
    ensures recipe.Some? ==> ed.title == recipe.value.title && ed.body == recipe.value.body
    ensures recipe.Some? && recipe.value.caloriesPerServing.Some? && IsInt64(recipe.value.caloriesPerServing.value)
            ==> ParseInt(ed.caloriesText) == recipe.value.caloriesPerServing
    ensures recipe.Some? && recipe.value.caloriesPerServing.None? ==> ed.caloriesText == ""
  {
    match recipe
    case None => RecipeEditor(mode, ownerIdentifier, recipe, "", "", "")
    case Some(r) =>
      var text := match r.caloriesPerServing
        case None => ""
        case Some(v) => ShowInt(v);
      assert r.caloriesPerServing.Some? && IsInt64(r.caloriesPerServing.value)
             ==> ParseInt(text) == r.caloriesPerServing by {
        if r.caloriesPerServing.Some? && IsInt64(r.caloriesPerServing.value) {
          ParseShowInt(r.caloriesPerServing.value);
        }
      }
      RecipeEditor(mode, ownerIdentifier, recipe, r.title, text, r.body)
  }

  /** The owner the saved recipe will have: the original's, else the signed-in user's. */
  function EffectiveOwner(ed: RecipeEditor): Option<string> {
    if ed.original.Some? && ed.original.value.ownerIdentifier.Some? then ed.original.value.ownerIdentifier
    else ed.ownerIdentifier
  }

  /** `canSave`: someone owns the recipe, and the title is not blank. */
  predicate CanSave(ed: RecipeEditor)
    ensures CanSave(ed) <==> EffectiveOwner(ed).Some? && !IsBlank(ed.title)
  {
    && (ed.ownerIdentifier.Some? || (ed.original.Some? && ed.original.value.ownerIdentifier.Some?))
    && Trimmed(ed.title) != ""
  }

  /**
   * `save()`, reachable only when `CanSave`: the trimmed title, the notes
   * as typed, and the calories text read as an `Int` without trimming (so
   * text that does not parse clears the calories). An edited recipe keeps
   * its id, tags, ingredients and owner; a new one gets `freshId` and none
   * of them, and the signed-in user as owner.
   */
  function Save(ed: RecipeEditor, freshId: Uuid): (r: Option<Recipe>)
    ensures r.Some? <==> CanSave(ed)
    ensures r.Some? ==> && r.value.title == Trimmed(ed.title) && |r.value.title| > 0
                        && r.value.body == ed.body
                        && r.value.caloriesPerServing == ParseInt(ed.caloriesText)
                        && r.value.ownerIdentifier == EffectiveOwner(ed)
                        && r.value.ownerIdentifier.Some?
    ensures r.Some? && ed.original.Some? ==>
              && r.value.id == ed.original.value.id
              && r.value.tags == ed.original.value.tags
              && r.value.ingredients == ed.original.value.ingredients
    ensures r.Some? && ed.original.None? ==>
              r.value.id == freshId && r.value.tags == [] && r.value.ingredients == []
  {
    if !CanSave(ed) then None
    else
      var trimmedTitle := Trimmed(ed.title);
      var caloriesValue := ParseInt(ed.caloriesText);
      var base := match ed.original
        case Some(o) => o
        case None => NewRecipe(freshId, trimmedTitle, ed.body,
                               caloriesPerServing := caloriesValue, ownerIdentifier := ed.ownerIdentifier);
      var recipe := base.(title := trimmedTitle, body := ed.body, caloriesPerServing := caloriesValue);
      Some(if recipe.ownerIdentifier.None? then recipe.(ownerIdentifier := ed.ownerIdentifier) else recipe)
  }

  /** A recipe as the editor can store it: an owner, a tidy title, and calories an `Int` can hold. */
  predicate Editable(r: Recipe) {
    && r.ownerIdentifier.Some?
    && |r.title| > 0 && Trimmed(r.title) == r.title
    && (r.caloriesPerServing.Some? ==> IsInt64(r.caloriesPerServing.value))
  }

  /** Opening the editor on a recipe and saving without typing anything returns the recipe unchanged. */
  lemma SaveUneditedIsIdentity(r: Recipe, ownerIdentifier: Option<string>, freshId: Uuid)
    requires Editable(r)
    ensures Save(Open(Edit, Some(r), ownerIdentifier), freshId) == Some(r)
  {
    var ed := Open(Edit, Some(r), ownerIdentifier);
    if r.caloriesPerServing.None? {
      assert ParseInt("") == None;
    }
  }
}
