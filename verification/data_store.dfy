/**
 * The `DataStore` protocol: the entry, recipe and goal operations the
 * screens call, over whichever backend the app was started with. Both
 * backends answer the same questions; the lemmas here state the laws a
 * screen may rely on whichever one it has.
 */
module DataStore {
  import opened Wrappers
  import opened Seqs
  import opened Days
  import opened Domain
  import InMemory
  import CoreData

  datatype Store = Memory(m: InMemory.InMemoryStore) | Durable(d: CoreData.CoreDataStore)

  /** The backend invariant: only the durable object graph has one. */
  ghost predicate Valid(s: Store) {
    s.Durable? ==> CoreData.Valid(s.d)
  }

  /** `entries(on:in:)`: the entries of the day, newest first. */
  function Entries(s: Store, day: Instant, cal: Calendar): (r: seq<CalorieEntry>)
    ensures SortedDesc(r, EntryDate)
    ensures WellFormed(cal) ==> forall e :: e in r ==> IsSameDay(cal, e.date, day)
  {
    match s
    case Memory(m) => InMemory.EntriesOn(m, day, cal)
    case Durable(d) =>
      var r := CoreData.Entries(d, day, cal);
      assert WellFormed(cal) ==> forall e :: e in r ==> IsSameDay(cal, e.date, day) by {
        if WellFormed(cal) {
          forall e | e in r ensures IsSameDay(cal, e.date, day) {
            SameDayIffInRange(cal, day, e.date);
          }
        }
      }
      r
  }

  /** Every stored entry, as the backend would decode it, in storage order. */
  function StoredEntries(s: Store): seq<CalorieEntry> {
    match s
    case Memory(m) => m.allEntries
    case Durable(d) => Map(d.entryRows, CoreData.DecodeEntry)
  }

  /** `add(_ entry:)`: the entry is stored after all others, on either backend. */
  function AddEntry(s: Store, e: CalorieEntry): (r: Store)
    ensures r.Memory? == s.Memory?
    ensures Valid(s) ==> Valid(r)
    ensures StoredEntries(r) == StoredEntries(s) + [e]
    ensures Recipes(r) == Recipes(s)
  {
    match s
    case Memory(m) => Memory(InMemory.AddEntry(m, e))
    case Durable(d) =>
      MapAppend(d.entryRows, [CoreData.EncodeEntry(e)], CoreData.DecodeEntry);
      CoreData.EntryRowRoundTrip(e);
      Durable(CoreData.AddEntry(d, e))
  }

  /** `remove(entryID:)`: every stored entry with the id goes, the rest stay in order. */
  function RemoveEntry(s: Store, id: Uuid): (r: Store)
    ensures r.Memory? == s.Memory?
    ensures Valid(s) ==> Valid(r)
    ensures StoredEntries(r) == Keep(StoredEntries(s), EntryIdIsNot(id))
    ensures Recipes(r) == Recipes(s)
  {
    match s
    case Memory(m) => Memory(InMemory.RemoveEntry(m, id))
    case Durable(d) =>
      RowIdTestsAgree(id);
      MapKeep(d.entryRows, CoreData.DecodeEntry, CoreData.EntryRowIdIsNot(id), EntryIdIsNot(id));
      Durable(CoreData.RemoveEntry(d, id))
  }

  /** The `recipes` property; the durable backend has nowhere to keep tags. */
  function Recipes(s: Store): (r: seq<Recipe>)
    ensures s.Durable? ==> |r| == |s.d.recipeRows| && forall i :: 0 <= i < |r| ==> r[i].tags == []
  {
    match s
    case Memory(m) => m.recipes
    case Durable(d) => CoreData.Recipes(d)
  }

  /** A recipe as the backend keeps it: whole in memory, without its tags when durable. */
  function Kept(s: Store, recipe: Recipe): Recipe {
    if s.Memory? then recipe else recipe.(tags := [])
  }

  /** `add(_ recipe:)`: the recipe is read back last, as the backend keeps it; no id check. */
  function AddRecipe(s: Store, recipe: Recipe): (r: Store)
    ensures r.Memory? == s.Memory?
    ensures Valid(s) ==> Valid(r)
    ensures Valid(s) ==> Recipes(r) == Recipes(s) + [Kept(s, recipe)]
  {
    match s
    case Memory(m) => Memory(InMemory.AddRecipe(m, recipe))
    case Durable(d) =>
      assert CoreData.Valid(d) ==>
               CoreData.Recipes(CoreData.AddRecipe(d, recipe)) == CoreData.Recipes(d) + [recipe.(tags := [])] by {
        if CoreData.Valid(d) {
          CoreData.AddRecipeRoundTrip(d, recipe);
          var after := CoreData.Recipes(CoreData.AddRecipe(d, recipe));
          assert after == after[..|CoreData.Recipes(d)|] + [after[|CoreData.Recipes(d)|]];
        }
      }
      Durable(CoreData.AddRecipe(d, recipe))
  }

  /**
   * `update(_:)`: the first recipe with the id is read back as the update,
   * as the backend keeps it, and every other one is unchanged; never inserts.
   */
  function UpdateRecipe(s: Store, recipe: Recipe): (r: Store)
    ensures r.Memory? == s.Memory?
    ensures Valid(s) ==> Valid(r)
    ensures |Recipes(r)| == |Recipes(s)|
    ensures Valid(s) ==> forall i :: FirstWithId(Recipes(s), recipe.id, i) ==>
              Recipes(r) == Recipes(s)[i := Kept(s, recipe)]
  {
    match s
    case Memory(m) => Memory(InMemory.UpdateRecipe(m, recipe))
    case Durable(d) =>
      var r := CoreData.UpdateRecipe(d, recipe);
      assert CoreData.Valid(d) ==> forall i :: FirstWithId(Recipes(s), recipe.id, i) ==>
               CoreData.Recipes(r) == CoreData.Recipes(d)[i := recipe.(tags := [])] by {
        if CoreData.Valid(d) {
          forall i | FirstWithId(Recipes(s), recipe.id, i)
            ensures CoreData.Recipes(r) == CoreData.Recipes(d)[i := recipe.(tags := [])]
          {
            CoreData.UpdateRecipeReplaces(d, recipe, i);
          }
        }
      }
      Durable(r)
  }

  /** `remove(recipeID:)`: the recipes read are those read before minus the ones with the id. */
  function RemoveRecipe(s: Store, id: Uuid): (r: Store)
    ensures r.Memory? == s.Memory?
    ensures Valid(s) ==> Valid(r)
    ensures Valid(s) ==> Recipes(r) == Keep(Recipes(s), RecipeIdIsNot(id))
  {
    match s
    case Memory(m) => Memory(InMemory.RemoveRecipe(m, id))
    case Durable(d) =>
      assert CoreData.Valid(d) ==>
               CoreData.Recipes(CoreData.RemoveRecipe(d, id)) == Keep(CoreData.Recipes(d), RecipeIdIsNot(id)) by {
        if CoreData.Valid(d) {
          CoreData.RemoveRecipeReadsBack(d, id);
        }
      }
      Durable(CoreData.RemoveRecipe(d, id))
  }

  /**
   * The `dailyGoal` getter, with the store as it is after the read (the
   * durable backend may have provisioned the default goal).
   */
  function GetDailyGoal(s: Store): (r: (DailyGoal, Store))
    ensures r.1.Memory? == s.Memory?
    ensures Valid(s) ==> Valid(r.1)
    ensures Recipes(r.1) == Recipes(s)
    ensures s.Memory? ==> r == (s.m.dailyGoal, s)
    ensures s.Durable? ==> r.0.calories == if |s.d.goalRows| > 0 then s.d.goalRows[0].calories else DefaultGoalCalories
  {
    match s
    case Memory(m) => (m.dailyGoal, s)
    case Durable(d) =>
      var (g, d') := CoreData.GetDailyGoal(d);
      (g, Durable(d'))
  }

  /** The `dailyGoal` setter. */
  function SetDailyGoal(s: Store, goal: DailyGoal): (r: Store)
    ensures r.Memory? == s.Memory?
    ensures Valid(s) ==> Valid(r)
    ensures Recipes(r) == Recipes(s)
    ensures GetDailyGoal(r) == (goal, r)
  {
    match s
    case Memory(m) => Memory(InMemory.SetDailyGoal(m, goal))
    case Durable(d) => Durable(CoreData.SetDailyGoal(d, goal))
  }

  /** Reading the goal twice gives the same goal, and the second read changes nothing. */
  lemma GoalReadIsStable(s: Store)
    ensures var (g, s1) := GetDailyGoal(s); GetDailyGoal(s1) == (g, s1)
  {
    if s.Durable? {
      CoreData.GoalReadIsIdempotent(s.d);
    }
  }

  /** A brand-new store of either kind reads a goal of 2200 kcal. */
  lemma FreshStoresStartAtDefaultGoal()
    ensures GetDailyGoal(Memory(InMemory.Make())).0.calories == DefaultGoalCalories
    ensures GetDailyGoal(Durable(CoreData.Empty())).0.calories == DefaultGoalCalories
  {
  }

  /** No entry of the store carries `id`. */
  predicate EntryIdUnused(s: Store, id: Uuid) {
    match s
    case Memory(m) => forall i :: 0 <= i < |m.allEntries| ==> m.allEntries[i].id != id
    case Durable(d) => forall i :: 0 <= i < |d.entryRows| ==> d.entryRows[i].id != id
  }

  /** Logging an entry under an unused id and then deleting that id restores the store. */
  lemma AddThenRemoveEntry(s: Store, e: CalorieEntry)
    requires EntryIdUnused(s, e.id)
    ensures RemoveEntry(AddEntry(s, e), e.id) == s
  {
    match s
    case Memory(m) => InMemory.AddThenRemoveEntry(m, e);
    case Durable(d) => CoreData.AddThenRemoveEntry(d, e);
  }

  /** `update` on an id that no recipe carries changes nothing a reader can see. */
  lemma UpdateAbsentRecipeIsNoOp(s: Store, recipe: Recipe)
    requires forall i :: 0 <= i < |Recipes(s)| ==> Recipes(s)[i].id != recipe.id
    ensures Recipes(UpdateRecipe(s, recipe)) == Recipes(s)
  {
    if s.Durable? {
      assert forall j :: 0 <= j < |s.d.recipeRows| ==> s.d.recipeRows[j].id != recipe.id by {
        forall j | 0 <= j < |s.d.recipeRows| ensures s.d.recipeRows[j].id != recipe.id {
          assert Recipes(s)[j].id == s.d.recipeRows[j].id;
        }
      }
    }
  }

  /**
   * Writing back, unchanged, a recipe just read is invisible: the durable
   * backend rewrites its ingredient objects but they read back the same.
   */
  lemma UpdateWithReadRecipeIsNoOp(s: Store, i: nat)
    requires Valid(s)
    requires i < |Recipes(s)|
    requires forall j :: 0 <= j < i ==> Recipes(s)[j].id != Recipes(s)[i].id
    ensures Recipes(UpdateRecipe(s, Recipes(s)[i])) == Recipes(s)
  {
    match s
    case Memory(m) =>
      assert FirstIndexWhere(m.recipes, RecipeHasId(m.recipes[i].id)) == Some(i);
    case Durable(d) =>
      CoreData.UpdateRecipeReplaces(d, Recipes(s)[i], i);
  }

  /** The day's entries, decoded in row order, as a sequence with the same contents as `Entries`. */
  function DayList(s: Store, day: Instant, cal: Calendar): (r: seq<CalorieEntry>)
    ensures multiset(r) == multiset(Entries(s, day, cal))
  {
    match s
    case Memory(m) => Keep(m.allEntries, InMemory.OnDay(cal, day))
    case Durable(d) => Map(Keep(d.entryRows, CoreData.RowInDay(cal, day)), CoreData.DecodeEntry)
  }

  /**
   * Logging an entry adds exactly that entry to the list of its own day,
   * and leaves every other day's list as it was; a list may be reordered
   * only among equal timestamps.
   */
  lemma AddEntryJoinsDay(s: Store, e: CalorieEntry, day: Instant, cal: Calendar)
    requires WellFormed(cal)
    ensures IsSameDay(cal, e.date, day) ==>
              multiset(Entries(AddEntry(s, e), day, cal)) == multiset(Entries(s, day, cal)) + multiset{e}
    ensures !IsSameDay(cal, e.date, day) ==>
              multiset(Entries(AddEntry(s, e), day, cal)) == multiset(Entries(s, day, cal))
  {
    match s
    case Memory(m) =>
      KeepAppend(m.allEntries, [e], InMemory.OnDay(cal, day));
      if IsSameDay(cal, e.date, day) {
        assert Keep([e], InMemory.OnDay(cal, day)) == [e];
      } else {
        assert Keep([e], InMemory.OnDay(cal, day)) == [];
      }
    case Durable(d) =>
      var row := CoreData.EncodeEntry(e);
      SameDayIffInRange(cal, day, e.date);
      KeepAppend(d.entryRows, [row], CoreData.RowInDay(cal, day));
      if IsSameDay(cal, e.date, day) {
        assert Keep([row], CoreData.RowInDay(cal, day)) == [row];
        MapAppend(Keep(d.entryRows, CoreData.RowInDay(cal, day)), [row], CoreData.DecodeEntry);
        CoreData.EntryRowRoundTrip(e);
      } else {
        assert Keep([row], CoreData.RowInDay(cal, day)) == [];
        assert Keep(d.entryRows, CoreData.RowInDay(cal, day)) + [] == Keep(d.entryRows, CoreData.RowInDay(cal, day));
      }
  }

  /** The id test on rows and on the entries they decode to agree. */
  lemma RowIdTestsAgree(id: Uuid)
    ensures forall row :: CoreData.EntryRowIdIsNot(id)(row) == EntryIdIsNot(id)(CoreData.DecodeEntry(row))
  {
  }

  /** Deleting an id takes exactly the entries with that id out of every day's list. */
  lemma RemoveEntryLeavesDay(s: Store, id: Uuid, day: Instant, cal: Calendar)
    ensures multiset(Entries(RemoveEntry(s, id), day, cal)) == multiset(Keep(Entries(s, day, cal), EntryIdIsNot(id)))
  {
    match s
    case Memory(m) =>
      KeepCommute(m.allEntries, EntryIdIsNot(id), InMemory.OnDay(cal, day));
      KeepPermutation(DayList(s, day, cal), Entries(s, day, cal), EntryIdIsNot(id));
    case Durable(d) =>
      var inDay := CoreData.RowInDay(cal, day);
      var notId := CoreData.EntryRowIdIsNot(id);
      KeepCommute(d.entryRows, notId, inDay);
      RowIdTestsAgree(id);
      MapKeep(Keep(d.entryRows, inDay), CoreData.DecodeEntry, notId, EntryIdIsNot(id));
      KeepPermutation(DayList(s, day, cal), Entries(s, day, cal), EntryIdIsNot(id));
  }

  /**
   * Decoding the rows of a day, written from a list of entries, gives the
   * entries of that day in list order: the durable range test and the
   * in-memory same-day test select the same entries.
   */
  lemma {:induction false} DayRowsMatchDayEntries(entries: seq<CalorieEntry>, day: Instant, cal: Calendar)
    requires WellFormed(cal)
    ensures Map(Keep(Map(entries, CoreData.EncodeEntry), CoreData.RowInDay(cal, day)), CoreData.DecodeEntry)
            == Keep(entries, InMemory.OnDay(cal, day))
  {
    if |entries| > 0 {
      var e := entries[0];
      DayRowsMatchDayEntries(entries[1..], day, cal);
      assert Map(entries, CoreData.EncodeEntry)[1..] == Map(entries[1..], CoreData.EncodeEntry);
      SameDayIffInRange(cal, day, e.date);
      CoreData.EntryRowRoundTrip(e);
    }
  }

  /**
   * The two backends agree: a durable store holding the same entries as an
   * in-memory store returns the same entries for every day, in an order
   * that can differ only among entries with equal timestamps.
   */
  lemma BackendsAgreeOnEntries(m: InMemory.InMemoryStore, d: CoreData.CoreDataStore, day: Instant, cal: Calendar)
    requires WellFormed(cal)
    requires d.entryRows == Map(m.allEntries, CoreData.EncodeEntry)
    ensures multiset(Entries(Durable(d), day, cal)) == multiset(Entries(Memory(m), day, cal))
  {
    DayRowsMatchDayEntries(m.allEntries, day, cal);
  }
}
