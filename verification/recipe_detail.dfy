/**
 * `RecipeDetailView`: one recipe, looked up by id in the store on every
 * read, editable only by its owner, and written back with `update`.
 */
module RecipeDetail {
  import opened Wrappers
  import opened Seqs
  import opened Text
  import opened Domain
  import opened DataStore
  import RecipeEditor

  /** `recipes.first(where:)` by id. */
  function FindRecipe(recipes: seq<Recipe>, id: Uuid): (r: Option<Recipe>)
    ensures r.None? <==> forall i :: 0 <= i < |recipes| ==> recipes[i].id != id
    ensures r.Some? ==> exists i :: FirstWithId(recipes, id, i) && recipes[i] == r.value
  {
    match FirstIndexWhere(recipes, RecipeHasId(id))
    case None => None
    case Some(i) =>
      assert FirstWithId(recipes, id, i);
      Some(recipes[i])
  }

  /**
   * `canEdit`: the recipe exists and belongs to the signed-in user. Only
   * the owner is offered the editor: signed out, for a recipe without an
   * owner, or for someone else's recipe, never.
   */
  predicate CanEdit(recipe: Option<Recipe>, userID: Option<string>)
    ensures CanEdit(recipe, userID) ==> recipe.Some? && recipe.value.ownerIdentifier.Some?
    ensures userID.None? ==> !CanEdit(recipe, userID)
    ensures recipe.Some? && recipe.value.ownerIdentifier != userID ==> !CanEdit(recipe, userID)
    ensures recipe.Some? && userID.Some? && recipe.value.ownerIdentifier == userID ==> CanEdit(recipe, userID)
  {
    recipe.Some? && userID.Some? && recipe.value.ownerIdentifier == userID
  }

  /**
   * The editor sheet's save handler: opens the editor on the recipe shown,
   * and writes back whatever the editor returns with `update`.
   */
  function SaveEdit(s: Store, edited: RecipeEditor.RecipeEditor, freshId: Uuid): (r: Store)
    ensures Valid(s) ==> Valid(r)
    ensures |Recipes(r)| == |Recipes(s)|
    ensures RecipeEditor.Save(edited, freshId).None? ==> r == s
    ensures Valid(s) && RecipeEditor.Save(edited, freshId).Some? ==>
              var saved := RecipeEditor.Save(edited, freshId).value;
              forall i :: FirstWithId(Recipes(s), saved.id, i) ==> Recipes(r) == Recipes(s)[i := Kept(s, saved)]
  {
    match RecipeEditor.Save(edited, freshId)
    case None => s
    case Some(updated) => UpdateRecipe(s, updated)
  }

  /** A list has at most one first position for an id. */
  lemma FirstWithIdUnique(recipes: seq<Recipe>, id: Uuid, i: int, j: int)
    requires FirstWithId(recipes, id, i) && FirstWithId(recipes, id, j)
    ensures i == j
  {
  }

  /**
   * The owner who retitles the recipe shown finds it, at the same place,
   * under the trimmed new title and still their own, so editing stays
   * open to them; a blank title saves nothing.
   */
  lemma RetitleReadsBack(s: Store, id: Uuid, userID: Option<string>, title: string, freshId: Uuid)
    requires Valid(s)
    requires CanEdit(FindRecipe(Recipes(s), id), userID)
    ensures var ed := RecipeEditor.Open(RecipeEditor.Edit, FindRecipe(Recipes(s), id), userID).(title := title);
            var r := SaveEdit(s, ed, freshId);
            && (IsBlank(title) ==> r == s)
            && (!IsBlank(title) ==>
                  && FindRecipe(Recipes(r), id).Some?
                  && FindRecipe(Recipes(r), id).value.title == Trimmed(title)
                  && FindRecipe(Recipes(r), id).value.ownerIdentifier == userID
                  && CanEdit(FindRecipe(Recipes(r), id), userID)
                  && forall i :: FirstWithId(Recipes(s), id, i) ==> FirstWithId(Recipes(r), id, i))
  {
    var recipe := FindRecipe(Recipes(s), id).value;
    var ed := RecipeEditor.Open(RecipeEditor.Edit, Some(recipe), userID).(title := title);
    var r := SaveEdit(s, ed, freshId);
    if !IsBlank(title) {
      assert RecipeEditor.CanSave(ed);
      var saved := RecipeEditor.Save(ed, freshId).value;
      assert saved.id == id && saved.title == Trimmed(title) && saved.ownerIdentifier == userID;
      var i :| FirstWithId(Recipes(s), id, i) && Recipes(s)[i] == recipe;
      assert Recipes(r) == Recipes(s)[i := Kept(s, saved)];
      assert FirstWithId(Recipes(r), id, i);
      var j :| FirstWithId(Recipes(r), id, j) && Recipes(r)[j] == FindRecipe(Recipes(r), id).value;
      FirstWithIdUnique(Recipes(r), id, i, j);
      forall k | FirstWithId(Recipes(s), id, k) ensures FirstWithId(Recipes(r), id, k) {
        FirstWithIdUnique(Recipes(s), id, i, k);
      }
    }
  }

  /** Opening the editor on the recipe shown and saving without changes leaves the recipes as they were. */
  lemma EditWithoutChangesIsNoOp(s: Store, id: Uuid, userID: Option<string>, freshId: Uuid)
    requires Valid(s)
    requires FindRecipe(Recipes(s), id).Some?
    requires RecipeEditor.Editable(FindRecipe(Recipes(s), id).value)
    ensures var ed := RecipeEditor.Open(RecipeEditor.Edit, FindRecipe(Recipes(s), id), userID);
            Recipes(SaveEdit(s, ed, freshId)) == Recipes(s)
  {
    var recipe := FindRecipe(Recipes(s), id).value;
    var i :| FirstWithId(Recipes(s), id, i) && Recipes(s)[i] == recipe;
    RecipeEditor.SaveUneditedIsIdentity(recipe, userID, freshId);
    UpdateWithReadRecipeIsNoOp(s, i);
  }

  /**
   * Once the recipe is deleted the view shows it as unavailable, and a save
   * from an editor still open on it changes nothing: `update` never inserts.
   */
  lemma SaveAfterRemovalIsNoOp(s: Store, recipe: Recipe, userID: Option<string>, freshId: Uuid)
    requires Valid(s)
    ensures var gone := RemoveRecipe(s, recipe.id);
            var ed := RecipeEditor.Open(RecipeEditor.Edit, Some(recipe), userID);
            && FindRecipe(Recipes(gone), recipe.id).None?
            && Recipes(SaveEdit(gone, ed, freshId)) == Recipes(gone)
  {
    var gone := RemoveRecipe(s, recipe.id);
    forall i | 0 <= i < |Recipes(gone)| ensures Recipes(gone)[i].id != recipe.id {
      assert Recipes(gone)[i] in Keep(Recipes(s), RecipeIdIsNot(recipe.id));
    }
    var ed := RecipeEditor.Open(RecipeEditor.Edit, Some(recipe), userID);
    if RecipeEditor.Save(ed, freshId).Some? {
      UpdateAbsentRecipeIsNoOp(gone, RecipeEditor.Save(ed, freshId).value);
    }
  }
}
