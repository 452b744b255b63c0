/**
 * `CoreDataStore`, the durable backend, as a relational state: the rows of
 * the four persisted entities and the two session-only caches.
 *
 * Each recipe row carries `key`, the identity of its managed object, and
 * each ingredient row the key of the recipe object that owns it (the
 * `ingredients`/`recipe` relationship pair, cascading from recipe to
 * ingredient). Row order stands for fetch order, which Core Data leaves
 * unspecified without a sort descriptor; contracts therefore speak of
 * multisets wherever the source promises no order.
 */
module CoreData {
  import opened Wrappers
  import opened Seqs
  import opened Days
  import opened Domain

  /** A `CalorieEntryEntity` object; the source is stored as its raw string. */
  datatype EntryRow = EntryRow(id: Uuid, date: Instant, title: string, calories: int, source: string)

  /** A `RecipeEntity` object. There is no attribute for tags. */
  datatype RecipeRow = RecipeRow(
    key: nat,
    id: Uuid,
    title: string,
    body: string,
    ownerIdentifier: Option<string>,
    caloriesPerServing: Option<int>)

  /** An `IngredientEntity` object, owned by the recipe object `recipeKey`. */
  datatype IngredientRow = IngredientRow(id: Uuid, name: string, quantity: string, recipeKey: nat)

  /** A `DailyGoalEntity` object. */
  datatype GoalRow = GoalRow(calories: int)

  datatype CoreDataStore = CoreDataStore(
    entryRows: seq<EntryRow>,
    recipeRows: seq<RecipeRow>,
    ingredientRows: seq<IngredientRow>,
    goalRows: seq<GoalRow>,
    nextKey: nat,
    cachedExercises: seq<Exercise>,
    cachedRoutines: seq<Routine>)

  /** A store over an empty persistent container. */
  function Empty(): CoreDataStore {
    CoreDataStore([], [], [], [], 0, [], [])
  }

  /** The keys of the recipe objects that exist. */
  function RecipeKeys(st: CoreDataStore): set<nat> {
    set row | row in st.recipeRows :: row.key
  }

  /**
   * The object graph is consistent: recipe objects are distinct, the next
   * key is unused, and every ingredient belongs to an existing recipe.
   */
  ghost predicate Valid(st: CoreDataStore) {
    && (forall i, j :: 0 <= i < j < |st.recipeRows| ==> st.recipeRows[i].key != st.recipeRows[j].key)
    && (forall i :: 0 <= i < |st.recipeRows| ==> st.recipeRows[i].key < st.nextKey)
    && (forall k :: 0 <= k < |st.ingredientRows| ==> st.ingredientRows[k].recipeKey in RecipeKeys(st))
  }

  lemma EmptyIsValid()
    ensures Valid(Empty())
  {
  }

  /**
   * A new process opening the same persistent store: every row survives,
   * the exercise and routine caches start empty.
   */
  function Reopen(st: CoreDataStore): (r: CoreDataStore)
    ensures r.cachedExercises == [] && r.cachedRoutines == []
    ensures r.entryRows == st.entryRows && r.recipeRows == st.recipeRows
    ensures r.ingredientRows == st.ingredientRows && r.goalRows == st.goalRows
    ensures Valid(st) ==> Valid(r)
  {
    st.(cachedExercises := [], cachedRoutines := [])
  }

  // ---------------------------------------------------------------- entries

  function EncodeEntry(e: CalorieEntry): EntryRow {
    EntryRow(e.id, e.date, e.title, e.calories, SourceRaw(e.source))
  }

  /** Reads a row back; a source string that is not a raw value reads as `.item`. */
  function DecodeEntry(row: EntryRow): (e: CalorieEntry)
    ensures e.id == row.id && e.date == row.date && e.title == row.title && e.calories == row.calories
    ensures e.source == RecipeSource <==> row.source == "recipe"
  {
    CalorieEntry(row.id, row.date, row.title, row.calories, SourceFromRaw(row.source).GetOr(ItemSource))
  }

  lemma EntryRowRoundTrip(e: CalorieEntry)
    ensures DecodeEntry(EncodeEntry(e)) == e
  {
    SourceRawRoundTrip(e.source);
  }

  /** The fetch predicate `date >= start AND date < next day start`. */
  function RowInDay(cal: Calendar, day: Instant): EntryRow -> bool {
    (row: EntryRow) => InDayRange(cal, day, row.date)
  }

  /** The rows dated in the day's half-open range, decoded, newest first. */
  function Entries(st: CoreDataStore, day: Instant, cal: Calendar): (r: seq<CalorieEntry>)
    ensures SortedDesc(r, EntryDate)
    ensures multiset(r) == multiset(Map(Keep(st.entryRows, RowInDay(cal, day)), DecodeEntry))
    ensures forall e :: e in r ==> InDayRange(cal, day, e.date)
  {
    var decoded := Map(Keep(st.entryRows, RowInDay(cal, day)), DecodeEntry);
    assert forall e :: e in decoded ==> InDayRange(cal, day, e.date) by {
      forall e | e in decoded ensures InDayRange(cal, day, e.date) {
        var i :| 0 <= i < |decoded| && decoded[i] == e;
        assert Keep(st.entryRows, RowInDay(cal, day))[i] in Keep(st.entryRows, RowInDay(cal, day));
      }
    }
    SortDesc(decoded, EntryDate)
  }

  /** Inserts a new row; an entry whose id is already stored is inserted again. */
  function AddEntry(st: CoreDataStore, e: CalorieEntry): (r: CoreDataStore)
    ensures |r.entryRows| == |st.entryRows| + 1
    ensures multiset(r.entryRows) == multiset(st.entryRows) + multiset{EncodeEntry(e)}
    ensures r.(entryRows := st.entryRows) == st
  {
    st.(entryRows := st.entryRows + [EncodeEntry(e)])
  }

  function EntryRowIdIsNot(id: Uuid): EntryRow -> bool {
    (row: EntryRow) => row.id != id
  }

  /** Deletes every row carrying `id`, whatever their number, and keeps the others. */
  function RemoveEntry(st: CoreDataStore, id: Uuid): (r: CoreDataStore)
    ensures forall row :: row in r.entryRows <==> row in st.entryRows && row.id != id
    ensures forall row: EntryRow :: row.id != id ==> multiset(r.entryRows)[row] == multiset(st.entryRows)[row]
    ensures (forall i :: 0 <= i < |st.entryRows| ==> st.entryRows[i].id != id) ==> r == st
    ensures r.(entryRows := st.entryRows) == st
  {
    KeepAllOrNone(st.entryRows, EntryRowIdIsNot(id));
    var kept := Keep(st.entryRows, EntryRowIdIsNot(id));
    assert forall row: EntryRow :: row.id != id ==> multiset(kept)[row] == multiset(st.entryRows)[row] by {
      forall row: EntryRow | row.id != id ensures multiset(kept)[row] == multiset(st.entryRows)[row] {
        KeepMultiset(st.entryRows, EntryRowIdIsNot(id), row);
      }
    }
    st.(entryRows := kept)
  }

  /** Adding an entry with an unused id and removing that id restores the rows. */
  lemma AddThenRemoveEntry(st: CoreDataStore, e: CalorieEntry)
    requires forall i :: 0 <= i < |st.entryRows| ==> st.entryRows[i].id != e.id
    ensures RemoveEntry(AddEntry(st, e), e.id) == st
  {
    KeepAppend(st.entryRows, [EncodeEntry(e)], EntryRowIdIsNot(e.id));
    KeepAllOrNone(st.entryRows, EntryRowIdIsNot(e.id));
  }

  // ---------------------------------------------------------------- recipes

  function IngredientOwnedBy(key: nat): IngredientRow -> bool {
    (row: IngredientRow) => row.recipeKey == key
  }

  function IngredientOwnerNotIn(keys: set<nat>): IngredientRow -> bool {
    (row: IngredientRow) => row.recipeKey !in keys
  }

  function DecodeIngredient(row: IngredientRow): Ingredient {
    Ingredient(row.id, row.name, row.quantity)
  }

  /** An ingredient object inserted into the relationship of recipe object `key`. */
  function EncodeIngredient(key: nat): Ingredient -> IngredientRow {
    (ing: Ingredient) => IngredientRow(ing.id, ing.name, ing.quantity, key)
  }

  /** The ingredients reachable through the relationship of recipe object `key`. */
  function OwnedIngredients(rows: seq<IngredientRow>, key: nat): seq<Ingredient> {
    Map(Keep(rows, IngredientOwnedBy(key)), DecodeIngredient)
  }

  /** `recipeFromManaged`: the stored fields, the owned ingredients, and no tags. */
  function RecipeFromRow(row: RecipeRow, ingredientRows: seq<IngredientRow>): (r: Recipe)
    ensures r.id == row.id && r.title == row.title && r.body == row.body
    ensures r.caloriesPerServing == row.caloriesPerServing && r.ownerIdentifier == row.ownerIdentifier
    ensures r.tags == []
    ensures forall ing :: ing in r.ingredients <==> IngredientRow(ing.id, ing.name, ing.quantity, row.key) in ingredientRows
  {
    var owned := Keep(ingredientRows, IngredientOwnedBy(row.key));
    var ings := OwnedIngredients(ingredientRows, row.key);
    assert forall ing :: ing in ings <==> IngredientRow(ing.id, ing.name, ing.quantity, row.key) in ingredientRows by {
      forall ing ensures ing in ings <==> IngredientRow(ing.id, ing.name, ing.quantity, row.key) in ingredientRows {
        var w := IngredientRow(ing.id, ing.name, ing.quantity, row.key);
        if ing in ings {
          var i :| 0 <= i < |ings| && ings[i] == ing;
          assert owned[i] in owned;
        }
        if w in ingredientRows {
          assert w in owned;
          var i :| 0 <= i < |owned| && owned[i] == w;
          assert ings[i] == ing;
        }
      }
    }
    NewRecipe(row.id, row.title, row.body,
              caloriesPerServing := row.caloriesPerServing,
              ingredients := OwnedIngredients(ingredientRows, row.key),
              ownerIdentifier := row.ownerIdentifier)
  }

  function DecodeRecipeWith(ingredientRows: seq<IngredientRow>): RecipeRow -> Recipe {
    (row: RecipeRow) => RecipeFromRow(row, ingredientRows)
  }

  /** The `recipes` property: every recipe row, read back in fetch order. */
  function Recipes(st: CoreDataStore): (r: seq<Recipe>)
    ensures |r| == |st.recipeRows|
    ensures forall i :: 0 <= i < |r| ==> r[i].id == st.recipeRows[i].id && r[i].tags == []
  {
    Map(st.recipeRows, DecodeRecipeWith(st.ingredientRows))
  }

  function RecipeRowHasId(id: Uuid): RecipeRow -> bool {
    (row: RecipeRow) => row.id == id
  }

  function RecipeRowIdIsNot(id: Uuid): RecipeRow -> bool {
    (row: RecipeRow) => row.id != id
  }

  /** The row `add(recipe)` inserts; tags are dropped, there being nowhere to store them. */
  function EncodeRecipe(recipe: Recipe, key: nat): RecipeRow {
    RecipeRow(key, recipe.id, recipe.title, recipe.body, recipe.ownerIdentifier, recipe.caloriesPerServing)
  }

  /**
   * Inserts a new recipe object with one new ingredient object per
   * ingredient, wired into its relationship; no id check.
   */
  function AddRecipe(st: CoreDataStore, recipe: Recipe): (r: CoreDataStore)
    ensures Valid(st) ==> Valid(r)
    ensures |r.recipeRows| == |st.recipeRows| + 1
    ensures |r.ingredientRows| == |st.ingredientRows| + |recipe.ingredients|
    ensures r.entryRows == st.entryRows && r.goalRows == st.goalRows
    ensures r.cachedExercises == st.cachedExercises && r.cachedRoutines == st.cachedRoutines
  {
    var key := st.nextKey;
    var r := st.(recipeRows := st.recipeRows + [EncodeRecipe(recipe, key)],
                 ingredientRows := st.ingredientRows + Map(recipe.ingredients, EncodeIngredient(key)),
                 nextKey := key + 1);
    assert Valid(st) ==> Valid(r) by {
      if Valid(st) {
        assert forall k :: k in RecipeKeys(st) ==> k in RecipeKeys(r);
        assert key in RecipeKeys(r) by {
          assert r.recipeRows[|st.recipeRows|] in r.recipeRows;
        }
        forall k | 0 <= k < |r.ingredientRows| ensures r.ingredientRows[k].recipeKey in RecipeKeys(r) {
          if k < |st.ingredientRows| {
            assert r.ingredientRows[k] == st.ingredientRows[k];
          }
        }
      }
    }
    r
  }

  /** Reading back freshly written ingredient rows gives the ingredients that were written. */
  lemma DecodeEncodeIngredients(ings: seq<Ingredient>, key: nat)
    ensures Map(Map(ings, EncodeIngredient(key)), DecodeIngredient) == ings
  {
  }

  /** Ingredient rows written for object `key` belong to `key` and to no other object. */
  lemma EncodedIngredientsOwnership(ings: seq<Ingredient>, key: nat, other: nat)
    ensures Keep(Map(ings, EncodeIngredient(key)), IngredientOwnedBy(key)) == Map(ings, EncodeIngredient(key))
    ensures other != key ==> Keep(Map(ings, EncodeIngredient(key)), IngredientOwnedBy(other)) == []
  {
    KeepAllOrNone(Map(ings, EncodeIngredient(key)), IngredientOwnedBy(key));
    KeepAllOrNone(Map(ings, EncodeIngredient(key)), IngredientOwnedBy(other));
  }

  /**
   * The ingredients of object `key` after appending the rows written for
   * object `newKey` to a table: the same as before when `key` is another
   * object, the written ones plus any older rows of `newKey` otherwise.
   */
  lemma OwnedAfterAppend(rows: seq<IngredientRow>, ings: seq<Ingredient>, newKey: nat, key: nat)
    ensures key != newKey ==> OwnedIngredients(rows + Map(ings, EncodeIngredient(newKey)), key) == OwnedIngredients(rows, key)
    ensures key == newKey ==> OwnedIngredients(rows + Map(ings, EncodeIngredient(newKey)), key) == OwnedIngredients(rows, key) + ings
  {
    var added := Map(ings, EncodeIngredient(newKey));
    KeepAppend(rows, added, IngredientOwnedBy(key));
    EncodedIngredientsOwnership(ings, newKey, key);
    MapAppend(Keep(rows, IngredientOwnedBy(key)), Keep(added, IngredientOwnedBy(key)), DecodeIngredient);
    DecodeEncodeIngredients(ings, newKey);
  }

  /** No ingredient row of a valid store points at a key that is not yet in use. */
  lemma NoIngredientsForFreshKey(st: CoreDataStore)
    requires Valid(st)
    ensures Keep(st.ingredientRows, IngredientOwnedBy(st.nextKey)) == []
  {
    forall k | 0 <= k < |st.ingredientRows| ensures st.ingredientRows[k].recipeKey != st.nextKey {
      var owner := st.ingredientRows[k].recipeKey;
      assert owner in RecipeKeys(st);
      var row :| row in st.recipeRows && row.key == owner;
    }
    KeepAllOrNone(st.ingredientRows, IngredientOwnedBy(st.nextKey));
  }

  /**
   * After `add(recipe)`, `recipes` lists the old recipes unchanged followed
   * by one with the same id, title, body, calories per serving, owner and
   * ingredients, and with no tags.
   */
  lemma AddRecipeRoundTrip(st: CoreDataStore, recipe: Recipe)
    requires Valid(st)
    ensures var before, after := Recipes(st), Recipes(AddRecipe(st, recipe));
            && |after| == |before| + 1
            && after[..|before|] == before
            && after[|before|] == recipe.(tags := [])
  {
    var r := AddRecipe(st, recipe);
    var key := st.nextKey;
    var before, after := Recipes(st), Recipes(r);
    forall i | 0 <= i < |before| ensures after[i] == before[i] {
      var row := st.recipeRows[i];
      assert r.recipeRows[i] == row;
      OwnedAfterAppend(st.ingredientRows, recipe.ingredients, key, row.key);
    }
    assert after[..|before|] == before;
    NoIngredientsForFreshKey(st);
    OwnedAfterAppend(st.ingredientRows, recipe.ingredients, key, key);
    assert r.recipeRows[|before|] == EncodeRecipe(recipe, key);
    assert after[|before|].ingredients == recipe.ingredients;
  }

  /** The ingredient table with the objects of `key` replaced by `ings`. */
  function ReplaceOwnedIngredients(rows: seq<IngredientRow>, key: nat, ings: seq<Ingredient>): seq<IngredientRow> {
    Keep(rows, IngredientOwnerNotIn({key})) + Map(ings, EncodeIngredient(key))
  }

  /** Replacing the ingredients of one object gives it exactly the new ones and leaves the others alone. */
  lemma OwnedAfterReplace(rows: seq<IngredientRow>, key: nat, ings: seq<Ingredient>, other: nat)
    ensures OwnedIngredients(ReplaceOwnedIngredients(rows, key, ings), key) == ings
    ensures other != key ==> OwnedIngredients(ReplaceOwnedIngredients(rows, key, ings), other) == OwnedIngredients(rows, other)
  {
    var kept := Keep(rows, IngredientOwnerNotIn({key}));
    OwnedAfterAppend(kept, ings, key, key);
    OwnedAfterAppend(kept, ings, key, other);
    KeepAllOrNone(kept, IngredientOwnedBy(key));
    if other != key {
      KeepKeep(rows, IngredientOwnerNotIn({key}), IngredientOwnedBy(other));
    }
  }

  /**
   * Looks the recipe up by id and, when found, overwrites the first
   * matching object's scalar fields (a nil calories per serving clears the
   * stored value) and replaces its whole ingredient set. With no match,
   * nothing changes: update never inserts.
   */
  function UpdateRecipe(st: CoreDataStore, recipe: Recipe): (r: CoreDataStore)
    ensures Valid(st) ==> Valid(r)
    ensures (forall j :: 0 <= j < |st.recipeRows| ==> st.recipeRows[j].id != recipe.id) ==> r == st
    ensures |r.recipeRows| == |st.recipeRows|
    ensures r.entryRows == st.entryRows && r.goalRows == st.goalRows
    ensures r.cachedExercises == st.cachedExercises && r.cachedRoutines == st.cachedRoutines
  {
    match FirstIndexWhere(st.recipeRows, RecipeRowHasId(recipe.id))
    case None => st
    case Some(i) =>
      var row := st.recipeRows[i];
      var updated := row.(title := recipe.title, body := recipe.body,
                          caloriesPerServing := recipe.caloriesPerServing,
                          ownerIdentifier := recipe.ownerIdentifier);
      var r := st.(recipeRows := st.recipeRows[i := updated],
                   ingredientRows := ReplaceOwnedIngredients(st.ingredientRows, row.key, recipe.ingredients));
      assert Valid(st) ==> Valid(r) by {
        if Valid(st) {
          assert RecipeKeys(r) == RecipeKeys(st) by {
            forall k | k in RecipeKeys(st) ensures k in RecipeKeys(r) {
              var x :| x in st.recipeRows && x.key == k;
              var j :| 0 <= j < |st.recipeRows| && st.recipeRows[j] == x;
              assert r.recipeRows[j].key == k;
              assert r.recipeRows[j] in r.recipeRows;
            }
            forall k | k in RecipeKeys(r) ensures k in RecipeKeys(st) {
              var x :| x in r.recipeRows && x.key == k;
              var j :| 0 <= j < |r.recipeRows| && r.recipeRows[j] == x;
              assert st.recipeRows[j].key == k;
              assert st.recipeRows[j] in st.recipeRows;
            }
          }
          assert row.key in RecipeKeys(st) by {
            assert row in st.recipeRows;
          }
          var kept := Keep(st.ingredientRows, IngredientOwnerNotIn({row.key}));
          forall k | 0 <= k < |r.ingredientRows| ensures r.ingredientRows[k].recipeKey in RecipeKeys(r) {
            if k < |kept| {
              assert kept[k] in kept;
            }
          }
        }
      }
      r
  }

  /**
   * After `update(recipe)` on a stored id, the first recipe with that id
   * reads back with the new scalar fields and exactly the new ingredients
   * (none of the old ones survive), and every other recipe is unchanged.
   */
  lemma UpdateRecipeReplaces(st: CoreDataStore, recipe: Recipe, i: nat)
    requires Valid(st)
    requires i < |st.recipeRows| && st.recipeRows[i].id == recipe.id
    requires forall j :: 0 <= j < i ==> st.recipeRows[j].id != recipe.id
    ensures var before, after := Recipes(st), Recipes(UpdateRecipe(st, recipe));
            && |after| == |before|
            && (forall j :: 0 <= j < |before| && j != i ==> after[j] == before[j])
            && after[i] == recipe.(tags := [])
  {
    var r := UpdateRecipe(st, recipe);
    var key := st.recipeRows[i].key;
    assert FirstIndexWhere(st.recipeRows, RecipeRowHasId(recipe.id)) == Some(i);
    assert r.ingredientRows == ReplaceOwnedIngredients(st.ingredientRows, key, recipe.ingredients);
    var before, after := Recipes(st), Recipes(r);
    forall j | 0 <= j < |before| && j != i ensures after[j] == before[j] {
      assert r.recipeRows[j] == st.recipeRows[j];
      OwnedAfterReplace(st.ingredientRows, key, recipe.ingredients, st.recipeRows[j].key);
    }
    OwnedAfterReplace(st.ingredientRows, key, recipe.ingredients, key);
  }

  /** The keys of the recipe objects carrying `id`. */
  function KeysWithId(rows: seq<RecipeRow>, id: Uuid): set<nat> {
    set row | row in rows && row.id == id :: row.key
  }

  /**
   * Deletes every recipe object carrying `id`; the cascade rule deletes the
   * ingredients they own, so no ingredient is left without its recipe.
   */
  function RemoveRecipe(st: CoreDataStore, id: Uuid): (r: CoreDataStore)
    ensures Valid(st) ==> Valid(r)
    ensures forall row :: row in r.recipeRows <==> row in st.recipeRows && row.id != id
    ensures forall ing :: ing in r.ingredientRows <==> ing in st.ingredientRows && ing.recipeKey !in KeysWithId(st.recipeRows, id)
    ensures (forall i :: 0 <= i < |st.recipeRows| ==> st.recipeRows[i].id != id) ==> r == st
    ensures r.entryRows == st.entryRows && r.goalRows == st.goalRows
    ensures r.cachedExercises == st.cachedExercises && r.cachedRoutines == st.cachedRoutines
  {
    var doomed := KeysWithId(st.recipeRows, id);
    var r := st.(recipeRows := Keep(st.recipeRows, RecipeRowIdIsNot(id)),
                 ingredientRows := Keep(st.ingredientRows, IngredientOwnerNotIn(doomed)));
    KeepAllOrNone(st.recipeRows, RecipeRowIdIsNot(id));
    KeepAllOrNone(st.ingredientRows, IngredientOwnerNotIn(doomed));
    assert Valid(st) ==> Valid(r) by {
      if Valid(st) {
        RemoveRecipeKeepsValid(st, id);
      }
    }
    r
  }

  /** In a valid store, an object key identifies one recipe row. */
  lemma KeyDeterminesRow(st: CoreDataStore, x: RecipeRow, y: RecipeRow)
    requires Valid(st)
    requires x in st.recipeRows && y in st.recipeRows && x.key == y.key
    ensures x == y
  {
    var a :| 0 <= a < |st.recipeRows| && st.recipeRows[a] == x;
    var b :| 0 <= b < |st.recipeRows| && st.recipeRows[b] == y;
    assert !(a < b) && !(b < a);
  }

  /** Deleting the recipe rows with an id, and the ingredients they own, keeps the graph consistent. */
  lemma RemoveRecipeKeepsValid(st: CoreDataStore, id: Uuid)
    requires Valid(st)
    ensures Valid(st.(recipeRows := Keep(st.recipeRows, RecipeRowIdIsNot(id)),
                      ingredientRows := Keep(st.ingredientRows, IngredientOwnerNotIn(KeysWithId(st.recipeRows, id)))))
  {
    var doomed := KeysWithId(st.recipeRows, id);
    var r := st.(recipeRows := Keep(st.recipeRows, RecipeRowIdIsNot(id)),
                 ingredientRows := Keep(st.ingredientRows, IngredientOwnerNotIn(doomed)));
    KeepIsSubsequence(st.recipeRows, RecipeRowIdIsNot(id));
    SubsequenceKeepsDistinctKeys(r.recipeRows, st.recipeRows);
    forall i | 0 <= i < |r.recipeRows| ensures r.recipeRows[i].key < r.nextKey {
      assert r.recipeRows[i] in r.recipeRows;
      var j :| 0 <= j < |st.recipeRows| && st.recipeRows[j] == r.recipeRows[i];
    }
    forall k | 0 <= k < |r.ingredientRows| ensures r.ingredientRows[k].recipeKey in RecipeKeys(r) {
      var ing := r.ingredientRows[k];
      assert ing in r.ingredientRows;
      var owner :| owner in st.recipeRows && owner.key == ing.recipeKey;
      assert owner.id != id;
      assert owner in r.recipeRows;
    }
  }

  /** Distinct object keys stay distinct in any subsequence, whose rows all come from the original. */
  lemma {:induction false} SubsequenceKeepsDistinctKeys(sub: seq<RecipeRow>, rows: seq<RecipeRow>)
    requires IsSubsequence(sub, rows)
    requires forall i, j :: 0 <= i < j < |rows| ==> rows[i].key != rows[j].key
    ensures forall i, j :: 0 <= i < j < |sub| ==> sub[i].key != sub[j].key
    ensures forall x :: x in sub ==> x in rows
    decreases |rows|
  {
    if |sub| > 0 && |rows| > 0 {
      if sub[0] == rows[0] {
        SubsequenceKeepsDistinctKeys(sub[1..], rows[1..]);
        forall j | 0 < j < |sub| ensures sub[0].key != sub[j].key {
          assert sub[j] in sub[1..];
          var m :| 0 <= m < |rows[1..]| && rows[1..][m] == sub[j];
          assert rows[m + 1] == sub[j];
        }
        assert sub == [sub[0]] + sub[1..];
      } else {
        SubsequenceKeepsDistinctKeys(sub, rows[1..]);
      }
    }
  }

  /**
   * Reading recipes after `remove(recipeID:)` gives the recipes read before,
   * minus those with that id: the survivors keep all their ingredients.
   */
  lemma RemoveRecipeReadsBack(st: CoreDataStore, id: Uuid)
    requires Valid(st)
    ensures Recipes(RemoveRecipe(st, id)) == Keep(Recipes(st), RecipeIdIsNot(id))
  {
    var r := RemoveRecipe(st, id);
    var doomed := KeysWithId(st.recipeRows, id);
    forall row | row in st.recipeRows && row.id != id
      ensures RecipeFromRow(row, r.ingredientRows) == RecipeFromRow(row, st.ingredientRows)
    {
      assert row.key !in doomed by {
        forall other | other in st.recipeRows && other.key == row.key ensures other == row {
          KeyDeterminesRow(st, other, row);
        }
      }
      KeepKeep(st.ingredientRows, IngredientOwnerNotIn(doomed), IngredientOwnedBy(row.key));
    }
    DecodeSurvivors(st.recipeRows, id, st.ingredientRows, r.ingredientRows);
  }

  lemma {:induction false} DecodeSurvivors(rows: seq<RecipeRow>, id: Uuid, before: seq<IngredientRow>, after: seq<IngredientRow>)
    requires forall row :: row in rows && row.id != id ==> RecipeFromRow(row, after) == RecipeFromRow(row, before)
    ensures Map(Keep(rows, RecipeRowIdIsNot(id)), DecodeRecipeWith(after))
            == Keep(Map(rows, DecodeRecipeWith(before)), RecipeIdIsNot(id))
  {
    if |rows| > 0 {
      DecodeSurvivors(rows[1..], id, before, after);
      assert Map(rows, DecodeRecipeWith(before))[1..] == Map(rows[1..], DecodeRecipeWith(before));
    }
  }

  // ------------------------------------------------------------------- goal

  /**
   * The `dailyGoal` getter: the first goal row's calories; with no row, it
   * inserts one holding 2200 and returns that. Returns the goal and the
   * store after the read.
   */
  function GetDailyGoal(st: CoreDataStore): (r: (DailyGoal, CoreDataStore))
    ensures |st.goalRows| > 0 ==> r.1 == st && r.0.calories == st.goalRows[0].calories
    ensures |st.goalRows| == 0 ==> r.0.calories == DefaultGoalCalories && |r.1.goalRows| == 1
    ensures r.1.(goalRows := st.goalRows) == st
  {
    if |st.goalRows| > 0 then (DailyGoal(st.goalRows[0].calories), st)
    else (DailyGoal(DefaultGoalCalories), st.(goalRows := [GoalRow(DefaultGoalCalories)]))
  }

  /** The `dailyGoal` setter: overwrites the first goal row, or inserts one if there is none. */
  function SetDailyGoal(st: CoreDataStore, goal: DailyGoal): (r: CoreDataStore)
    ensures |r.goalRows| == if |st.goalRows| == 0 then 1 else |st.goalRows|
    ensures GetDailyGoal(r) == (goal, r)
    ensures r.(goalRows := st.goalRows) == st
  {
    if |st.goalRows| > 0 then st.(goalRows := st.goalRows[0 := GoalRow(goal.calories)])
    else st.(goalRows := [GoalRow(goal.calories)])
  }

  /**
   * The first read provisions exactly one row holding 2200; reading again
   * returns the same goal and creates nothing.
   */
  lemma GoalReadIsIdempotent(st: CoreDataStore)
    ensures var (g1, s1) := GetDailyGoal(st);
            && GetDailyGoal(s1) == (g1, s1)
            && |s1.goalRows| == (if |st.goalRows| == 0 then 1 else |st.goalRows|)
  {
  }

  // ---------------------------------------------- session-only exercises/routines

  /** Appends to the exercise cache. */
  function AddExercise(st: CoreDataStore, exercise: Exercise): (r: CoreDataStore)
    ensures r.cachedExercises == st.cachedExercises + [exercise]
    ensures r.(cachedExercises := st.cachedExercises) == st
  {
    st.(cachedExercises := st.cachedExercises + [exercise])
  }

  /** Overwrites the first cached exercise with the same id; never inserts. */
  function UpdateExercise(st: CoreDataStore, exercise: Exercise): (r: CoreDataStore)
    ensures |r.cachedExercises| == |st.cachedExercises|
    ensures (forall j :: 0 <= j < |st.cachedExercises| ==> st.cachedExercises[j].id != exercise.id) ==> r == st
    ensures forall i :: 0 <= i < |st.cachedExercises| && st.cachedExercises[i].id == exercise.id
                        && (forall j :: 0 <= j < i ==> st.cachedExercises[j].id != exercise.id)
                        ==> r.cachedExercises == st.cachedExercises[i := exercise]
    ensures r.(cachedExercises := st.cachedExercises) == st
  {
    st.(cachedExercises := ReplaceFirstWhere(st.cachedExercises, ExerciseHasId(exercise.id), exercise))
  }

  /** Deletes every cached exercise carrying `id`. */
  function RemoveExercise(st: CoreDataStore, id: Uuid): (r: CoreDataStore)
    ensures forall x :: x in r.cachedExercises <==> x in st.cachedExercises && x.id != id
    ensures IsSubsequence(r.cachedExercises, st.cachedExercises)
    ensures forall x :: multiset(r.cachedExercises)[x] == if x.id != id then multiset(st.cachedExercises)[x] else 0
    ensures (forall i :: 0 <= i < |st.cachedExercises| ==> st.cachedExercises[i].id != id) ==> r == st
    ensures r.(cachedExercises := st.cachedExercises) == st
  {
    KeepAllOrNone(st.cachedExercises, ExerciseIdIsNot(id));
    KeepIsSubsequence(st.cachedExercises, ExerciseIdIsNot(id));
    KeepCounts(st.cachedExercises, ExerciseIdIsNot(id));
    st.(cachedExercises := Keep(st.cachedExercises, ExerciseIdIsNot(id)))
  }

  /** Caching an exercise under an unused id and then removing that id restores the store. */
  lemma AddThenRemoveExercise(st: CoreDataStore, exercise: Exercise)
    requires forall i :: 0 <= i < |st.cachedExercises| ==> st.cachedExercises[i].id != exercise.id
    ensures RemoveExercise(AddExercise(st, exercise), exercise.id) == st
  {
    KeepAppend(st.cachedExercises, [exercise], ExerciseIdIsNot(exercise.id));
    KeepAllOrNone(st.cachedExercises, ExerciseIdIsNot(exercise.id));
  }

  /** Appends to the routine cache. */
  function AddRoutine(st: CoreDataStore, routine: Routine): (r: CoreDataStore)
    ensures r.cachedRoutines == st.cachedRoutines + [routine]
    ensures r.(cachedRoutines := st.cachedRoutines) == st
  {
    st.(cachedRoutines := st.cachedRoutines + [routine])
  }

  /** Overwrites the first cached routine with the same id; never inserts. */
  function UpdateRoutine(st: CoreDataStore, routine: Routine): (r: CoreDataStore)
    ensures |r.cachedRoutines| == |st.cachedRoutines|
    ensures (forall j :: 0 <= j < |st.cachedRoutines| ==> st.cachedRoutines[j].id != routine.id) ==> r == st
    ensures forall i :: 0 <= i < |st.cachedRoutines| && st.cachedRoutines[i].id == routine.id
                        && (forall j :: 0 <= j < i ==> st.cachedRoutines[j].id != routine.id)
                        ==> r.cachedRoutines == st.cachedRoutines[i := routine]
    ensures r.(cachedRoutines := st.cachedRoutines) == st
  {
    st.(cachedRoutines := ReplaceFirstWhere(st.cachedRoutines, RoutineHasId(routine.id), routine))
  }

  /** Deletes every cached routine carrying `id`. */
  function RemoveRoutine(st: CoreDataStore, id: Uuid): (r: CoreDataStore)
    ensures forall x :: x in r.cachedRoutines <==> x in st.cachedRoutines && x.id != id
    ensures IsSubsequence(r.cachedRoutines, st.cachedRoutines)
    ensures forall x :: multiset(r.cachedRoutines)[x] == if x.id != id then multiset(st.cachedRoutines)[x] else 0
    ensures (forall i :: 0 <= i < |st.cachedRoutines| ==> st.cachedRoutines[i].id != id) ==> r == st
    ensures r.(cachedRoutines := st.cachedRoutines) == st
  {
    KeepAllOrNone(st.cachedRoutines, RoutineIdIsNot(id));
    KeepIsSubsequence(st.cachedRoutines, RoutineIdIsNot(id));
    KeepCounts(st.cachedRoutines, RoutineIdIsNot(id));
    st.(cachedRoutines := Keep(st.cachedRoutines, RoutineIdIsNot(id)))
  }

  /** Caching a routine under an unused id and then removing that id restores the store. */
  lemma AddThenRemoveRoutine(st: CoreDataStore, routine: Routine)
    requires forall i :: 0 <= i < |st.cachedRoutines| ==> st.cachedRoutines[i].id != routine.id
    ensures RemoveRoutine(AddRoutine(st, routine), routine.id) == st
  {
    KeepAppend(st.cachedRoutines, [routine], RoutineIdIsNot(routine.id));
    KeepAllOrNone(st.cachedRoutines, RoutineIdIsNot(routine.id));
  }
}
