/**
 * `HomeView`: today's consumed calories against the goal, the quick-add
 * sheet, and removal of an entry by long press.
 */
module Home {
  import opened Wrappers
  import opened Seqs
  import opened Text
  import opened Days
  import opened Domain
  import opened DataStore
  import InMemory

  /**
   * `consumed`: the calories of the day of `now`, which are those of the
   * day's stored entries in storage order; the sort does not matter.
   */
  function Consumed(s: Store, now: Instant, cal: Calendar): (r: int)
    ensures r == InMemory.TotalCalories(DayList(s, now, cal))
  {
    InMemory.TotalCaloriesPermutation(Entries(s, now, cal), DayList(s, now, cal));
    InMemory.TotalCalories(Entries(s, now, cal))
  }

  const RemainingSuffix: string := " kcal remaining"
  const OverGoalSuffix: string := " kcal over goal"

  /**
   * `remainingText(consumed:goal:)`: the distance to the goal, never with a
   * sign, followed by which side of the goal the day is on.
   */
  function RemainingText(consumed: int, goal: int): (r: string)
    ensures forall i :: 0 <= i < |r| ==> r[i] != '-'
    ensures goal >= consumed ==> |RemainingSuffix| < |r| && r[|r| - |RemainingSuffix|..] == RemainingSuffix
    ensures goal < consumed ==> |OverGoalSuffix| < |r| && r[|r| - |OverGoalSuffix|..] == OverGoalSuffix
  {
    var remaining := goal - consumed;
    if remaining >= 0 then ShowInt(remaining) + RemainingSuffix
    else ShowInt(-remaining) + OverGoalSuffix
  }

  /** The text names the goal's side correctly and its number reads back as the distance. */
  lemma RemainingTextReadsBack(consumed: int, goal: int)
    requires IsInt64(goal - consumed) && IsInt64(consumed - goal)
    ensures var r := RemainingText(consumed, goal);
            var suffix := if goal >= consumed then RemainingSuffix else OverGoalSuffix;
            && |suffix| <= |r|
            && r[|r| - |suffix|..] == suffix
            && ParseInt(r[..|r| - |suffix|]) == Some(if goal >= consumed then goal - consumed else consumed - goal)
  {
    var r := RemainingText(consumed, goal);
    if goal >= consumed {
      assert r[..|r| - |RemainingSuffix|] == ShowInt(goal - consumed);
      ParseShowInt(goal - consumed);
    } else {
      assert r[..|r| - |OverGoalSuffix|] == ShowInt(consumed - goal);
      ParseShowInt(consumed - goal);
    }
  }

  /**
   * The quick-add sheet's Add button: with a non-empty title and calories
   * that parse as an `Int` (untrimmed), logs an item entry dated `now`
   * under the fresh id `id`; otherwise nothing happens and the sheet stays.
   */
  function QuickAdd(s: Store, title: string, caloriesText: string, id: Uuid, now: Instant): (r: Option<Store>)
    ensures r.Some? <==> title != "" && ParseInt(caloriesText).Some?
    ensures r.Some? ==> r.value == AddEntry(s, CalorieEntry(id, now, title, ParseInt(caloriesText).value, ItemSource))
  {
    match ParseInt(caloriesText)
    case Some(kcal) =>
      if title != "" then Some(AddEntry(s, CalorieEntry(id, now, title, kcal, ItemSource))) else None
    case None => None
  }

  /** A quick add raises today's consumed total by exactly the calories typed. */
  lemma QuickAddRaisesConsumed(s: Store, title: string, caloriesText: string, id: Uuid, now: Instant, cal: Calendar)
    requires WellFormed(cal)
    requires QuickAdd(s, title, caloriesText, id, now).Some?
    ensures Consumed(QuickAdd(s, title, caloriesText, id, now).value, now, cal)
            == Consumed(s, now, cal) + ParseInt(caloriesText).value
  {
    var e := CalorieEntry(id, now, title, ParseInt(caloriesText).value, ItemSource);
    var before := Entries(s, now, cal);
    var after := Entries(AddEntry(s, e), now, cal);
    AddEntryJoinsDay(s, e, now, cal);
    assert multiset(after) == multiset(before + [e]);
    InMemory.TotalCaloriesPermutation(after, before + [e]);
    InMemory.TotalCaloriesAppend(before, [e]);
  }

  /** A long press on a row: delete every entry carrying that row's id. */
  function LongPressRemove(s: Store, e: CalorieEntry): (r: Store)
    ensures forall day, cal :: multiset(Entries(r, day, cal)) == multiset(Keep(Entries(s, day, cal), EntryIdIsNot(e.id)))
  {
    forall day, cal ensures multiset(Entries(RemoveEntry(s, e.id), day, cal))
                            == multiset(Keep(Entries(s, day, cal), EntryIdIsNot(e.id))) {
      RemoveEntryLeavesDay(s, e.id, day, cal);
    }
    RemoveEntry(s, e.id)
  }

  /**
   * Long-pressing one of today's rows, when today's ids are distinct, takes
   * exactly its calories off the consumed total, and the row is gone.
   */
  lemma LongPressLowersConsumed(s: Store, e: CalorieEntry, now: Instant, cal: Calendar)
    requires e in Entries(s, now, cal)
    requires var today := Entries(s, now, cal);
             forall i, j :: 0 <= i < j < |today| ==> today[i].id != today[j].id
    ensures Consumed(LongPressRemove(s, e), now, cal) == Consumed(s, now, cal) - e.calories
    ensures forall x :: x in Entries(LongPressRemove(s, e), now, cal) ==> x.id != e.id
  {
    var today := Entries(s, now, cal);
    var after := Entries(LongPressRemove(s, e), now, cal);
    var kept := Keep(today, EntryIdIsNot(e.id));
    InMemory.TotalCaloriesPermutation(after, kept);
    InMemory.TotalCaloriesSplitById(today, e.id);
    InMemory.OnlyEntryWithItsId(today, e);
    assert InMemory.TotalCalories([e]) == e.calories;
    forall x | x in after ensures x.id != e.id {
      assert x in multiset(after);
      assert x in kept;
    }
  }
}
