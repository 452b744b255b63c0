/**
 * The records the store keeps: calorie entries, recipes with their
 * ingredients and tags, the daily goal, and the exercises and routines the
 * exercise hub works with. Every field except the id is a `var` in the
 * source; a Dafny datatype value is immutable, and an update `r.(f := v)`
 * keeps the id.
 */
module Domain {
  import opened Wrappers
  import opened Days
  import opened Seqs

  /** A UUID. Ids are generated by callers and only compared for equality. */
  datatype Uuid = Uuid(value: nat)

  /** `CalorieEntry.Source`: whether an entry was typed in or taken from a recipe. */
  datatype Source = ItemSource | RecipeSource

  /** The raw string a source is persisted as. */
  function SourceRaw(s: Source): string {
    match s
    case ItemSource => "item"
    case RecipeSource => "recipe"
  }

  /** `Source(rawValue:)`: nil for any string that is not a raw value. */
  function SourceFromRaw(raw: string): (r: Option<Source>)
    ensures r.Some? <==> raw == "item" || raw == "recipe"
    ensures r.Some? ==> SourceRaw(r.value) == raw
  {
    if raw == "item" then Some(ItemSource)
    else if raw == "recipe" then Some(RecipeSource)
    else None
  }

  lemma SourceRawRoundTrip(s: Source)
    ensures SourceFromRaw(SourceRaw(s)) == Some(s)
  {
  }

  /** `Recipe.Tag`, a dietary label. */
  datatype Tag = Vegetarian | Vegan | GlutenFree | DairyFree | Pescatarian

  /** The display string each tag is also encoded as. */
  function TagRaw(t: Tag): string {
    match t
    case Vegetarian => "Vegetarian"
    case Vegan => "Vegan"
    case GlutenFree => "Gluten-Free"
    case DairyFree => "Dairy-Free"
    case Pescatarian => "Pescatarian"
  }

  /** `Tag(rawValue:)` */
  function TagFromRaw(raw: string): (r: Option<Tag>)
    ensures r.Some? ==> TagRaw(r.value) == raw
    ensures r.None? ==> forall t: Tag :: TagRaw(t) != raw
  {
    if raw == "Vegetarian" then Some(Vegetarian)
    else if raw == "Vegan" then Some(Vegan)
    else if raw == "Gluten-Free" then Some(GlutenFree)
    else if raw == "Dairy-Free" then Some(DairyFree)
    else if raw == "Pescatarian" then Some(Pescatarian)
    else None
  }

  /** `Tag.allCases`, in declaration order. */
  const AllTags: seq<Tag> := [Vegetarian, Vegan, GlutenFree, DairyFree, Pescatarian]

  /** There are exactly five tags, each listed once, and their raw strings are pairwise distinct. */
  lemma TagsAreFiveDistinct()
    ensures |AllTags| == 5 && NoDuplicates(AllTags)
    ensures forall t: Tag :: t in AllTags
    ensures NoDuplicates(Map(AllTags, TagRaw))
  {
    forall t: Tag ensures t in AllTags {
      match t
      case Vegetarian => assert AllTags[0] == t;
      case Vegan => assert AllTags[1] == t;
      case GlutenFree => assert AllTags[2] == t;
      case DairyFree => assert AllTags[3] == t;
      case Pescatarian => assert AllTags[4] == t;
    }
    var raws := Map(AllTags, TagRaw);
    assert raws == ["Vegetarian", "Vegan", "Gluten-Free", "Dairy-Free", "Pescatarian"];
  }

  lemma {:induction false} TagRawRoundTrip(t: Tag)
    ensures TagFromRaw(TagRaw(t)) == Some(t)
  {
    match t
    case Vegetarian =>
    case Vegan =>
      assert TagRaw(t) != "Vegetarian";
    case GlutenFree =>
      assert TagRaw(t)[0] == 'G';
    case DairyFree =>
      assert TagRaw(t)[0] == 'D';
    case Pescatarian =>
      assert TagRaw(t)[0] == 'P';
  }

  /** One logged food item: what was eaten, when, and how many calories it had. */
  datatype CalorieEntry = CalorieEntry(id: Uuid, date: Instant, title: string, calories: int, source: Source)

  /** An entry's timestamp, the key the day query sorts by. */
  function EntryDate(e: CalorieEntry): int {
    e.date
  }

  datatype Ingredient = Ingredient(id: Uuid, name: string, quantity: string)

  datatype Recipe = Recipe(
    id: Uuid,
    title: string,
    tags: seq<Tag>,
    body: string,
    caloriesPerServing: Option<int>,
    ingredients: seq<Ingredient>,
    ownerIdentifier: Option<string>)

  /** `Recipe.init`, with the source's default arguments. */
  function NewRecipe(
    id: Uuid,
    title: string,
    body: string,
    tags: seq<Tag> := [],
    caloriesPerServing: Option<int> := None,
    ingredients: seq<Ingredient> := [],
    ownerIdentifier: Option<string> := None): Recipe
  {
    Recipe(id, title, tags, body, caloriesPerServing, ingredients, ownerIdentifier)
  }

  /** A recipe built from the required arguments alone has no tags, calories, ingredients or owner. */
  lemma NewRecipeDefaults(id: Uuid, title: string, body: string)
    ensures var r := NewRecipe(id, title, body);
            r.id == id && r.title == title && r.body == body
            && r.tags == [] && r.caloriesPerServing == None
            && r.ingredients == [] && r.ownerIdentifier == None
  {
  }

  /** The calorie target; it has no identity of its own. */
  datatype DailyGoal = DailyGoal(calories: int)

  /** The goal a store starts with. */
  const DefaultGoalCalories: int := 2200

  /** A training exercise, with the fields the exercise hub reads and writes. */
  datatype Exercise = Exercise(
    id: Uuid,
    name: string,
    numberOfSets: int,
    repetitionsPerSet: int,
    instructions: Option<string>,
    ownerIdentifier: Option<string>)

  /** A named list of exercises, referenced by id only: the ids may dangle. */
  datatype Routine = Routine(id: Uuid, name: string, exerciseIDs: seq<Uuid>, ownerIdentifier: Option<string>)

  // The id tests the stores' `firstIndex(where:)`, `removeAll(where:)` and
  // fetch predicates use.

  function EntryHasId(id: Uuid): CalorieEntry -> bool {
    (e: CalorieEntry) => e.id == id
  }

  function EntryIdIsNot(id: Uuid): CalorieEntry -> bool {
    (e: CalorieEntry) => e.id != id
  }

  function RecipeHasId(id: Uuid): Recipe -> bool {
    (x: Recipe) => x.id == id
  }

  function RecipeIdIsNot(id: Uuid): Recipe -> bool {
    (x: Recipe) => x.id != id
  }

  function ExerciseHasId(id: Uuid): Exercise -> bool {
    (x: Exercise) => x.id == id
  }

  function ExerciseIdIsNot(id: Uuid): Exercise -> bool {
    (x: Exercise) => x.id != id
  }

  function RoutineHasId(id: Uuid): Routine -> bool {
    (x: Routine) => x.id == id
  }

  function RoutineIdIsNot(id: Uuid): Routine -> bool {
    (x: Routine) => x.id != id
  }

  /** `i` is the position of the first recipe carrying `id`. */
  predicate FirstWithId(recipes: seq<Recipe>, id: Uuid, i: int) {
    && 0 <= i < |recipes| && recipes[i].id == id
    && forall j :: 0 <= j < i ==> recipes[j].id != id
  }

  /**
   * Owner scoping as the screens do it: nothing when no one is signed in,
   * otherwise the records whose owner is the signed-in user, in list order.
   * The store itself enforces no ownership.
   */
  function OwnedBy<T(!new)>(s: seq<T>, ownerOf: T -> Option<string>, userID: Option<string>): (r: seq<T>)
    ensures userID.None? ==> r == []
    ensures userID.Some? ==> forall x :: x in r <==> x in s && ownerOf(x) == userID
    ensures userID.Some? ==> IsSubsequence(r, s)
    ensures userID.Some? ==> forall x :: multiset(r)[x] == if ownerOf(x) == userID then multiset(s)[x] else 0
  {
    match userID
    case None => []
    case Some(u) =>
      KeepIsSubsequence(s, x => ownerOf(x) == Some(u));
      KeepCounts(s, x => ownerOf(x) == Some(u));
      Keep(s, x => ownerOf(x) == Some(u))
  }
}
