/**
 * `InMemoryStore`, the reference backend: three plain values, ordered lists
 * of entries and recipes and the current goal, transformed by pure
 * functions. Also `totalCalories`, the sum the home screen shows.
 */
module InMemory {
  import opened Wrappers
  import opened Seqs
  import opened Days
  import opened Domain

  datatype InMemoryStore = InMemoryStore(allEntries: seq<CalorieEntry>, recipes: seq<Recipe>, dailyGoal: DailyGoal)

  /** `InMemoryStore.init`, with the source's default arguments. */
  function Make(
    allEntries: seq<CalorieEntry> := [],
    recipes: seq<Recipe> := [],
    dailyGoal: DailyGoal := DailyGoal(DefaultGoalCalories)): InMemoryStore
  {
    InMemoryStore(allEntries, recipes, dailyGoal)
  }

  /** A store built with no arguments has no entries, no recipes and a goal of 2200 kcal. */
  lemma DefaultStoreIsEmpty()
    ensures Make().allEntries == [] && Make().recipes == []
    ensures Make().dailyGoal.calories == 2200
  {
  }

  /** The in-memory day test, `calendar.isDate(e.date, inSameDayAs: day)`. */
  function OnDay(cal: Calendar, day: Instant): CalorieEntry -> bool {
    (e: CalorieEntry) => IsSameDay(cal, e.date, day)
  }

  /** The entries dated on the same calendar day as `day`, newest first. */
  function EntriesOn(st: InMemoryStore, day: Instant, cal: Calendar): (r: seq<CalorieEntry>)
    ensures SortedDesc(r, EntryDate)
    ensures forall e :: e in r <==> e in st.allEntries && IsSameDay(cal, e.date, day)
    ensures multiset(r) == multiset(Keep(st.allEntries, OnDay(cal, day)))
  {
    SortDesc(Keep(st.allEntries, OnDay(cal, day)), EntryDate)
  }

  /** Appends the entry after all existing ones; nothing else changes. */
  function AddEntry(st: InMemoryStore, e: CalorieEntry): (r: InMemoryStore)
    ensures |r.allEntries| == |st.allEntries| + 1
    ensures r.allEntries[..|st.allEntries|] == st.allEntries && r.allEntries[|st.allEntries|] == e
    ensures r.recipes == st.recipes && r.dailyGoal == st.dailyGoal
  {
    st.(allEntries := st.allEntries + [e])
  }

  /** Deletes every entry carrying `id` and keeps the others in order. */
  function RemoveEntry(st: InMemoryStore, id: Uuid): (r: InMemoryStore)
    ensures forall e :: e in r.allEntries <==> e in st.allEntries && e.id != id
    ensures IsSubsequence(r.allEntries, st.allEntries)
    ensures forall e :: multiset(r.allEntries)[e] == if e.id != id then multiset(st.allEntries)[e] else 0
    ensures (forall i :: 0 <= i < |st.allEntries| ==> st.allEntries[i].id != id) ==> r == st
    ensures r.recipes == st.recipes && r.dailyGoal == st.dailyGoal
  {
    KeepIsSubsequence(st.allEntries, EntryIdIsNot(id));
    KeepCounts(st.allEntries, EntryIdIsNot(id));
    KeepAllOrNone(st.allEntries, EntryIdIsNot(id));
    st.(allEntries := Keep(st.allEntries, EntryIdIsNot(id)))
  }

  /** Adding an entry whose id is not yet used and then removing that id gives back the store. */
  lemma AddThenRemoveEntry(st: InMemoryStore, e: CalorieEntry)
    requires forall i :: 0 <= i < |st.allEntries| ==> st.allEntries[i].id != e.id
    ensures RemoveEntry(AddEntry(st, e), e.id) == st
  {
    var p := EntryIdIsNot(e.id);
    KeepAppend(st.allEntries, [e], p);
    KeepAllOrNone(st.allEntries, p);
    assert Keep(st.allEntries + [e], p) == st.allEntries;
  }

  function AddRecipe(st: InMemoryStore, recipe: Recipe): (r: InMemoryStore)
    ensures r.recipes == st.recipes + [recipe]
    ensures r.allEntries == st.allEntries && r.dailyGoal == st.dailyGoal
  {
    st.(recipes := st.recipes + [recipe])
  }

  /**
   * Overwrites the first recipe with the same id; with no such recipe the
   * store is unchanged. Never inserts.
   */
  function UpdateRecipe(st: InMemoryStore, recipe: Recipe): (r: InMemoryStore)
    ensures |r.recipes| == |st.recipes|
    ensures (forall j :: 0 <= j < |st.recipes| ==> st.recipes[j].id != recipe.id) ==> r == st
    ensures forall i :: 0 <= i < |st.recipes| && st.recipes[i].id == recipe.id
                        && (forall j :: 0 <= j < i ==> st.recipes[j].id != recipe.id)
                        ==> r.recipes == st.recipes[i := recipe]
    ensures r.allEntries == st.allEntries && r.dailyGoal == st.dailyGoal
  {
    st.(recipes := ReplaceFirstWhere(st.recipes, RecipeHasId(recipe.id), recipe))
  }

  /** Deletes every recipe carrying `id` and no other. */
  function RemoveRecipe(st: InMemoryStore, id: Uuid): (r: InMemoryStore)
    ensures forall x :: x in r.recipes <==> x in st.recipes && x.id != id
    ensures IsSubsequence(r.recipes, st.recipes)
    ensures forall x :: multiset(r.recipes)[x] == if x.id != id then multiset(st.recipes)[x] else 0
    ensures (forall i :: 0 <= i < |st.recipes| ==> st.recipes[i].id != id) ==> r == st
    ensures r.allEntries == st.allEntries && r.dailyGoal == st.dailyGoal
  {
    KeepIsSubsequence(st.recipes, RecipeIdIsNot(id));
    KeepCounts(st.recipes, RecipeIdIsNot(id));
    KeepAllOrNone(st.recipes, RecipeIdIsNot(id));
    st.(recipes := Keep(st.recipes, RecipeIdIsNot(id)))
  }

  /** The `dailyGoal` setter. */
  function SetDailyGoal(st: InMemoryStore, goal: DailyGoal): (r: InMemoryStore)
    ensures r.dailyGoal == goal
    ensures r.allEntries == st.allEntries && r.recipes == st.recipes
  {
    st.(dailyGoal := goal)
  }

  /** `reduce(0) { $0 + $1.calories }`: the left fold, adding the last entry last. */
  function ReduceTotal(entries: seq<CalorieEntry>): int {
    if |entries| == 0 then 0 else ReduceTotal(entries[..|entries| - 1]) + entries[|entries| - 1].calories
  }

  /** The left fold can also be unrolled from the front. */
  lemma {:induction false} ReduceTotalCons(e: CalorieEntry, rest: seq<CalorieEntry>)
    ensures ReduceTotal([e] + rest) == e.calories + ReduceTotal(rest)
  {
    var s := [e] + rest;
    if |rest| == 0 {
      assert s[..0] == [];
    } else {
      assert s[..|s| - 1] == [e] + rest[..|rest| - 1];
      ReduceTotalCons(e, rest[..|rest| - 1]);
    }
  }

  /** `totalCalories()`: the calories of the entries added up, as `reduce` does. */
  function TotalCalories(entries: seq<CalorieEntry>): (total: int)
    ensures total == ReduceTotal(entries)
  {
    if |entries| == 0 then 0
    else
      ReduceTotalCons(entries[0], entries[1..]);
      assert entries == [entries[0]] + entries[1..];
      entries[0].calories + TotalCalories(entries[1..])
  }

  /** Entries with non-negative calories add up to a non-negative total. */
  lemma {:induction false} TotalCaloriesNonNegative(entries: seq<CalorieEntry>)
    requires forall i :: 0 <= i < |entries| ==> entries[i].calories >= 0
    ensures TotalCalories(entries) >= 0
  {
    if |entries| > 0 {
      TotalCaloriesNonNegative(entries[1..]);
    }
  }

  lemma {:induction false} TotalCaloriesAppend(a: seq<CalorieEntry>, b: seq<CalorieEntry>)
    ensures TotalCalories(a + b) == TotalCalories(a) + TotalCalories(b)
  {
    if |a| == 0 {
      assert a + b == b;
    } else {
      assert (a + b)[1..] == a[1..] + b;
      TotalCaloriesAppend(a[1..], b);
    }
  }

  /** Taking one entry out of a list takes its calories out of the total. */
  lemma {:induction false} TotalCaloriesRemoveAt(b: seq<CalorieEntry>, k: nat)
    requires k < |b|
    ensures TotalCalories(b) == b[k].calories + TotalCalories(b[..k] + b[k + 1..])
  {
    var front, back := b[..k], b[k + 1..];
    var tail := [b[k]] + back;
    assert b == front + tail;
    TotalCaloriesAppend(front, tail);
    TotalCaloriesAppend(front, back);
    assert tail[1..] == back;
    assert TotalCalories(tail) == b[k].calories + TotalCalories(back);
  }

  /** The total does not depend on the order of the entries, only on which entries there are. */
  lemma {:induction false} TotalCaloriesPermutation(a: seq<CalorieEntry>, b: seq<CalorieEntry>)
    requires multiset(a) == multiset(b)
    ensures TotalCalories(a) == TotalCalories(b)
    decreases |a|
  {
    if |a| == 0 {
      assert |multiset(b)| == 0;
    } else {
      assert a[0] in multiset(b);
      var k :| 0 <= k < |b| && b[k] == a[0];
      var rest := b[..k] + b[k + 1..];
      TotalCaloriesRemoveAt(b, k);
      assert multiset(a[1..]) == multiset(rest) by {
        assert a == [a[0]] + a[1..];
        assert multiset(a) == multiset{a[0]} + multiset(a[1..]);
        assert b == b[..k] + [b[k]] + b[k + 1..];
        assert multiset(b) == multiset(b[..k]) + multiset{b[k]} + multiset(b[k + 1..]);
        assert multiset(rest) == multiset(b[..k]) + multiset(b[k + 1..]);
        assert multiset(a[1..]) == multiset(a) - multiset{a[0]};
        assert multiset(rest) == multiset(b) - multiset{b[k]};
      }
      TotalCaloriesPermutation(a[1..], rest);
    }
  }

  /** A list's total is that of the entries with a given id plus that of the others. */
  lemma {:induction false} TotalCaloriesSplitById(entries: seq<CalorieEntry>, id: Uuid)
    ensures TotalCalories(entries)
            == TotalCalories(Keep(entries, EntryHasId(id))) + TotalCalories(Keep(entries, EntryIdIsNot(id)))
  {
    if |entries| > 0 {
      TotalCaloriesSplitById(entries[1..], id);
    }
  }

  /** In a list whose ids are distinct, the entries carrying the id of a member are that member alone. */
  lemma {:induction false} OnlyEntryWithItsId(entries: seq<CalorieEntry>, e: CalorieEntry)
    requires e in entries
    requires forall i, j :: 0 <= i < j < |entries| ==> entries[i].id != entries[j].id
    ensures Keep(entries, EntryHasId(e.id)) == [e]
  {
    if entries[0] == e {
      forall k | 0 <= k < |entries[1..]| ensures entries[1..][k].id != e.id {
        assert entries[1..][k] == entries[k + 1];
      }
      KeepAllOrNone(entries[1..], EntryHasId(e.id));
    } else {
      assert e in entries[1..];
      var k :| 0 <= k < |entries[1..]| && entries[1..][k] == e;
      assert entries[k + 1] == e;
      OnlyEntryWithItsId(entries[1..], e);
    }
  }

  /** The day's total is the sum over the same-day entries in insertion order: sorting does not matter. */
  lemma DayTotalIgnoresOrder(st: InMemoryStore, day: Instant, cal: Calendar)
    ensures TotalCalories(EntriesOn(st, day, cal))
            == TotalCalories(Keep(st.allEntries, OnDay(cal, day)))
  {
    TotalCaloriesPermutation(EntriesOn(st, day, cal), Keep(st.allEntries, OnDay(cal, day)));
  }
}
