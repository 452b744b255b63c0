/**
 * `AddIntakeView`: logging calories either as a typed item or from one of
 * the signed-in user's recipes, and keeping the recipe picker's selection
 * pointing at a recipe that is still listed.
 */
module AddIntake {
  import opened Wrappers
  import opened Seqs
  import opened Text
  import opened Days
  import opened Domain
  import opened DataStore

  const PerItemMode: int := 0
  const FromRecipeMode: int := 1

  datatype AddIntakeState = AddIntakeState(
    selection: int,
    itemTitle: string,
    itemKcal: string,
    selectedRecipe: Option<Recipe>)

  /** The view's initial state. */
  const Initial: AddIntakeState := AddIntakeState(PerItemMode, "", "", None)

  function RecipeOwner(r: Recipe): Option<string> {
    r.ownerIdentifier
  }

  /** `recipes`: the signed-in user's recipes in store order; none when signed out. */
  function UserRecipes(s: Store, userID: Option<string>): (r: seq<Recipe>)
    ensures userID.None? ==> r == []
    ensures userID.Some? ==> forall x :: x in r <==> x in Recipes(s) && x.ownerIdentifier == userID
    ensures userID.Some? ==> IsSubsequence(r, Recipes(s))
    ensures userID.Some? ==> forall x :: multiset(r)[x] == if x.ownerIdentifier == userID then multiset(Recipes(s))[x] else 0
  {
    OwnedBy(Recipes(s), RecipeOwner, userID)
  }

  /** Switching to recipe mode with nothing selected selects the first recipe. */
  function OnModeChange(st: AddIntakeState, newValue: int, recipes: seq<Recipe>): (r: AddIntakeState)
    ensures r.selection == newValue
    ensures r.itemTitle == st.itemTitle && r.itemKcal == st.itemKcal
    ensures st.selectedRecipe.Some? ==> r.selectedRecipe == st.selectedRecipe
    ensures newValue != FromRecipeMode ==> r.selectedRecipe == st.selectedRecipe
    ensures newValue == FromRecipeMode && st.selectedRecipe.None? ==> r.selectedRecipe == First(recipes)
  {
    var st' := st.(selection := newValue);
    if newValue == FromRecipeMode && st.selectedRecipe.None? then st'.(selectedRecipe := First(recipes)) else st'
  }

  /** `onAppear`: with nothing selected, select the first recipe, if any. */
  function OnAppear(st: AddIntakeState, recipes: seq<Recipe>): (r: AddIntakeState)
    ensures st.selectedRecipe.Some? ==> r == st
    ensures st.selectedRecipe.None? ==> r == st.(selectedRecipe := First(recipes))
  {
    if st.selectedRecipe.None? then st.(selectedRecipe := First(recipes)) else st
  }

  /** A selection is valid for a list when it is one of the list's recipes, or empty only for an empty list. */
  predicate SelectionValid(selected: Option<Recipe>, recipes: seq<Recipe>) {
    match selected
    case Some(r) => r in recipes
    case None => |recipes| == 0
  }

  /**
   * The picker starts out, and stays on entering recipe mode, pointing at
   * one of the user's recipes, or at nothing only when they have none: from
   * an empty or valid selection, `onAppear` and switching to recipe mode
   * both leave a valid selection, a stored recipe of the signed-in user.
   */
  lemma OpeningSelectsValidRecipe(st: AddIntakeState, s: Store, userID: Option<string>)
    requires st.selectedRecipe.None? || SelectionValid(st.selectedRecipe, UserRecipes(s, userID))
    ensures var recipes := UserRecipes(s, userID);
            var appeared := OnAppear(st, recipes).selectedRecipe;
            var switched := OnModeChange(st, FromRecipeMode, recipes).selectedRecipe;
            && SelectionValid(appeared, recipes)
            && SelectionValid(switched, recipes)
            && (appeared.Some? ==> appeared.value in Recipes(s) && appeared.value.ownerIdentifier == userID)
            && (switched.Some? ==> switched.value in Recipes(s) && switched.value.ownerIdentifier == userID)
  {
    var recipes := UserRecipes(s, userID);
    if |recipes| > 0 {
      assert recipes[0] in recipes;
    }
  }

  /**
   * `onChange(of: recipes)`: keep the selection if the new list still
   * contains it, otherwise select the new list's first recipe.
   */
  function OnRecipesChange(st: AddIntakeState, newRecipes: seq<Recipe>): (r: AddIntakeState)
    ensures SelectionValid(r.selectedRecipe, newRecipes)
    ensures st.selectedRecipe.Some? && st.selectedRecipe.value in newRecipes ==> r == st
    ensures !(st.selectedRecipe.Some? && st.selectedRecipe.value in newRecipes) ==> r.selectedRecipe == First(newRecipes)
    ensures r.(selectedRecipe := st.selectedRecipe) == st
  {
    match st.selectedRecipe
    case None => st.(selectedRecipe := First(newRecipes))
    case Some(sel) =>
      if sel in newRecipes then st else st.(selectedRecipe := First(newRecipes))
  }

  /** Reconciling twice with the same list is the same as reconciling once. */
  lemma OnRecipesChangeIdempotent(st: AddIntakeState, newRecipes: seq<Recipe>)
    ensures OnRecipesChange(OnRecipesChange(st, newRecipes), newRecipes) == OnRecipesChange(st, newRecipes)
  {
    var once := OnRecipesChange(st, newRecipes);
    if once.selectedRecipe.None? {
      assert |newRecipes| == 0;
    }
  }

  /**
   * Deleting the selected recipe from the store takes it off the user's
   * list, so the list changes and the picker reconciles to the first of
   * the user's remaining recipes, which is another recipe of theirs; with
   * none left, nothing is selected.
   */
  lemma RemovingSelectedRecipeMovesSelection(st: AddIntakeState, s: Store, userID: Option<string>)
    requires Valid(s)
    requires st.selectedRecipe.Some? && SelectionValid(st.selectedRecipe, UserRecipes(s, userID))
    ensures var gone := st.selectedRecipe.value.id;
            var left := UserRecipes(RemoveRecipe(s, gone), userID);
            var r := OnRecipesChange(st, left);
            && st.selectedRecipe.value !in left
            && r.selectedRecipe == First(left)
            && (r.selectedRecipe.None? <==> |left| == 0)
            && (r.selectedRecipe.Some? ==>
                  r.selectedRecipe.value.id != gone && r.selectedRecipe.value.ownerIdentifier == userID
                  && r.selectedRecipe.value in Recipes(s))
  {
    var gone := st.selectedRecipe.value.id;
    var left := UserRecipes(RemoveRecipe(s, gone), userID);
    assert forall x :: x in left ==> x in Keep(Recipes(s), RecipeIdIsNot(gone));
    if |left| > 0 {
      assert left[0] in left;
    }
  }

  /**
   * "Add to Day" in item mode: a non-empty title and calories that parse
   * (untrimmed) log an item entry and clear both fields; otherwise nothing
   * changes.
   */
  function AddItem(st: AddIntakeState, s: Store, id: Uuid, now: Instant): (r: (AddIntakeState, Store))
    ensures var ok := st.itemTitle != "" && ParseInt(st.itemKcal).Some?;
            && (ok ==> r.0 == st.(itemTitle := "", itemKcal := "")
                       && r.1 == AddEntry(s, CalorieEntry(id, now, st.itemTitle, ParseInt(st.itemKcal).value, ItemSource)))
            && (!ok ==> r == (st, s))
  {
    match ParseInt(st.itemKcal)
    case Some(kcal) =>
      if st.itemTitle != "" then
        (st.(itemTitle := "", itemKcal := ""), AddEntry(s, CalorieEntry(id, now, st.itemTitle, kcal, ItemSource)))
      else (st, s)
    case None => (st, s)
  }

  /** The entry logged for a recipe: its title, its calories per serving or 0, marked as from a recipe. */
  function RecipeEntry(r: Recipe, id: Uuid, now: Instant): (e: CalorieEntry)
    ensures e.title == r.title && e.source == RecipeSource && e.date == now
    ensures r.caloriesPerServing.Some? ==> e.calories == r.caloriesPerServing.value
    ensures r.caloriesPerServing.None? ==> e.calories == 0
  {
    CalorieEntry(id, now, r.title, r.caloriesPerServing.GetOr(0), RecipeSource)
  }

  /** "Add to Day" in recipe mode: logs the selected recipe and clears the selection. */
  function AddSelectedRecipe(st: AddIntakeState, s: Store, id: Uuid, now: Instant): (r: (AddIntakeState, Store))
    ensures st.selectedRecipe.None? ==> r == (st, s)
    ensures st.selectedRecipe.Some? ==>
              r == (st.(selectedRecipe := None), AddEntry(s, RecipeEntry(st.selectedRecipe.value, id, now)))
  {
    match st.selectedRecipe
    case None => (st, s)
    case Some(recipe) => (st.(selectedRecipe := None), AddEntry(s, RecipeEntry(recipe, id, now)))
  }

  /**
   * Logging a recipe leaves the recipe list as it was, so the picker is not
   * reconciled: after one recipe is logged nothing is selected until the
   * user picks again, even though the list still holds recipes.
   */
  lemma LoggingRecipeClearsSelection(st: AddIntakeState, s: Store, id: Uuid, now: Instant, userID: Option<string>)
    requires st.selectedRecipe.Some?
    ensures var (st', s') := AddSelectedRecipe(st, s, id, now);
            && st'.selectedRecipe.None?
            && UserRecipes(s', userID) == UserRecipes(s, userID)
  {
  }

  /** The recipe mode logs only the user's own recipes, whenever the selection is valid. */
  lemma LoggedRecipeIsOwned(st: AddIntakeState, s: Store, userID: Option<string>)
    requires st.selectedRecipe.Some?
    requires SelectionValid(st.selectedRecipe, UserRecipes(s, userID))
    ensures userID.Some? && st.selectedRecipe.value.ownerIdentifier == userID
    ensures st.selectedRecipe.value in Recipes(s)
  {
  }
}
