# MyKenko calorie store and screen rules, in Dafny

MyKenko is a calorie-tracking app for iOS. This project models two parts of it.

The first part is the data store behind the `DataStore` protocol, which has two backends:

- `InMemoryStore` keeps plain lists.
- `CoreDataStore` keeps persistent objects. A recipe object owns its ingredient objects, and deleting the recipe deletes them. Exercises and routines live only in per-process caches.

The second part is the decision rules of the screens that use the store:

- the goal onboarding prompt and the goal editor sheet;
- the home screen's totals, quick add and long-press removal;
- the add-intake screen;
- the recipe editor and recipe detail;
- the tag selector;
- the exercise hub with its exercise and routine forms;
- the session manager, which remembers the signed-in user and the per-user onboarding flag.

Modules, one per file:

| module | file | models |
|---|---|---|
| `Wrappers` | wrappers.dfy | `Option` and `first` |
| `Seqs` | seqs.dfy | `filter`/`removeAll`, `firstIndex(where:)`, `map`, `sorted(by:)` |
| `Text` | text.dfy | trimming, `Int(String)`, `String(Int)` |
| `Days` | days.dfy | calendar days |
| `Domain` | domain.dfy | the records, plus owner filtering |
| `InMemory` | in_memory.dfy | `InMemoryStore`, `totalCalories` |
| `CoreData` | core_data.dfy | `CoreDataStore`, as rows of objects |
| `DataStore` | data_store.dfy | the protocol over both backends, and their laws |
| `Session` | session.dfy | `SessionManager` |
| `GoalPrompt` | goal_prompt.dfy | the root view's onboarding |
| `GoalEditor` | goal_editor.dfy | `DailyGoalEditorView` |
| `Home` | home.dfy | `HomeView` |
| `AddIntake` | add_intake.dfy | `AddIntakeView` |
| `ExerciseHub` | exercise_hub.dfy | `ExerciseHubView` and its forms |
| `RecipeEditor` | recipe_editor.dfy | `RecipeEditorView` |
| `RecipeDetail` | recipe_detail.dfy | `RecipeDetailView` |
| `TagSelector` | tag_selector.dfy | `TagSelectorView` |

Modelling choices:

- **Ids.** A UUID is a `nat`, and only equality is used. Every UUID the source would generate (`UUID()`, and the default `id` argument) becomes a parameter supplied by the caller.
- **Dates.** A `Date` is an integer instant. `.now` also becomes a parameter.
- **Calendars.** A calendar is a pair of total functions: start of day, and start of the next day. `Days.WellFormed` states that these cut the timeline into consecutive days. Day lengths may differ, as with daylight-saving changes.
- **Core Data rows.** Each persisted entity is a sequence of rows. Every recipe row carries `key`, the identity of its managed object, and each ingredient row carries the key of the recipe object that owns it. This reproduces the source's behaviour on duplicate recipe ids: `update` touches the first fetched object, and `remove` deletes them all, along with all their ingredients. `CoreData.Valid` is the consistency invariant of this object graph.
- **Fetch order.** A fetch without a sort descriptor, and an `NSSet` of ingredients, have no defined order. The model reads rows in table order. Statements about the order of recipes, or of a recipe's ingredients, read from the durable backend therefore hold for this order. The goal getter and setter both take the first row of an unsorted goal fetch; the model has them agree on that row, so the goal read back after a set, and the stability of two reads, hold for this order too when more than one goal row exists. Everything said up to a multiset holds for any order.
- **Sorting.** A date-sorted list is specified as a permutation of its input, ordered newest first. Ties are left in any order, as Swift's `sorted` and a sort descriptor leave them.
- **Integer parsing.** `Int(String)` is modelled exactly: an optional sign, then ASCII digits, and nil outside the 64-bit range.

## Model

| member | source | states |
|---|---|---|
| Domain.SourceFromRaw | MyKenkoCore/Sources/MyKenkoCore/Domain.swift:11 | `Source(rawValue:)` accepts exactly "item" and "recipe", and each accepted string is the raw value of what it yields |
| Domain.SourceRawRoundTrip | MyKenkoCore/Sources/MyKenkoCore/Domain.swift:11 | every source survives conversion to its raw string and back |
| Domain.TagFromRaw | MyKenkoCore/Sources/MyKenkoCore/Domain.swift:41-47 | `Tag(rawValue:)` yields a tag only for that tag's raw string, and nil when no tag has that raw string |
| Domain.TagRawRoundTrip | MyKenkoCore/Sources/MyKenkoCore/Domain.swift:41-47 | every tag survives conversion to its raw string and back |
| Domain.TagsAreFiveDistinct | MyKenkoCore/Sources/MyKenkoCore/Domain.swift:41-47 | `allCases` lists five tags, each once, covers every tag, and their raw strings are distinct |
| Domain.NewRecipeDefaults | MyKenkoCore/Sources/MyKenkoCore/Domain.swift:56-70 | a recipe built from id, title and body alone has no tags, calories, ingredients or owner |
| Domain.OwnedBy | MyKenko-iOS/MyKenko-iOS/Views/ExerciseHubView.swift:34-42 | owner scoping: nothing when signed out; otherwise the records owned by the user, in list order, each as often as it occurs in the list, and no other record |
| InMemory.DefaultStoreIsEmpty | MyKenkoCore/Sources/MyKenkoCore/Store.swift:31-37 | a store built with no arguments has no entries, no recipes and a 2200 kcal goal |
| InMemory.EntriesOn | MyKenkoCore/Sources/MyKenkoCore/Store.swift:39-42 | the day's entries are exactly the stored entries on that calendar day, each as often as stored, newest first |
| InMemory.AddEntry | MyKenkoCore/Sources/MyKenkoCore/Store.swift:44 | the entry is appended after all existing ones, and recipes and goal are untouched |
| InMemory.RemoveEntry | MyKenkoCore/Sources/MyKenkoCore/Store.swift:45-47 | every entry with the id goes; the others stay, in order, each as often as before; an absent id changes nothing |
| InMemory.AddThenRemoveEntry | MyKenkoCore/Sources/MyKenkoCore/Store.swift:44-47 | adding an entry under an unused id and then removing that id restores the store |
| InMemory.AddRecipe | MyKenkoCore/Sources/MyKenkoCore/Store.swift:49 | the recipe is appended, and entries and goal are untouched |
| InMemory.UpdateRecipe | MyKenkoCore/Sources/MyKenkoCore/Store.swift:50-54 | only the first recipe with the id is replaced; an absent id changes nothing, so `update` never inserts |
| InMemory.RemoveRecipe | MyKenkoCore/Sources/MyKenkoCore/Store.swift:55 | every recipe with the id goes; the others stay, in order, each as often as before |
| InMemory.SetDailyGoal | MyKenkoCore/Sources/MyKenkoCore/Store.swift:29 | setting the goal changes nothing else |
| InMemory.TotalCalories | MyKenkoCore/Sources/MyKenkoCore/Store.swift:58-60 | the total equals the left fold `reduce(0)` computes, adding the entries' calories first to last |
| InMemory.TotalCaloriesNonNegative | MyKenkoCore/Sources/MyKenkoCore/Store.swift:58-60 | entries with non-negative calories total a non-negative sum |
| InMemory.TotalCaloriesAppend | MyKenkoCore/Sources/MyKenkoCore/Store.swift:58-60 | the total of two lists laid end to end is the sum of their totals |
| InMemory.TotalCaloriesPermutation | MyKenkoCore/Sources/MyKenkoCore/Store.swift:58-60 | the total depends only on which entries there are, not on their order |
| InMemory.TotalCaloriesSplitById | MyKenkoCore/Sources/MyKenkoCore/Store.swift:58-60 | the total is the total of the entries with a given id plus that of the rest |
| InMemory.DayTotalIgnoresOrder | MyKenkoCore/Sources/MyKenkoCore/Store.swift:39-42 | sorting the day's entries does not change their total |
| CoreData.EmptyIsValid | MyKenkoCore/Sources/MyKenkoCore/CoreDataStore.swift:79-121 | an empty store satisfies the object-graph invariant |
| CoreData.Reopen | MyKenkoCore/Sources/MyKenkoCore/CoreDataStore.swift:11-12 | a new process keeps every persisted row but starts with empty exercise and routine caches |
| CoreData.DecodeEntry | MyKenkoCore/Sources/MyKenkoCore/CoreDataStore.swift:200-207 | a row decodes field by field; the source is `.recipe` exactly when the stored string is "recipe", and any other string reads as `.item` |
| CoreData.EntryRowRoundTrip | MyKenkoCore/Sources/MyKenkoCore/CoreDataStore.swift:214-224 | an entry written by `add` reads back as the same entry |
| CoreData.Entries | MyKenkoCore/Sources/MyKenkoCore/CoreDataStore.swift:191-212 | the day query returns the decoded rows in the half-open range from the day's start to the next day's start, newest first |
| CoreData.AddEntry | MyKenkoCore/Sources/MyKenkoCore/CoreDataStore.swift:214-224 | inserts exactly one row for the entry, with no duplicate check, and nothing else changes |
| CoreData.RemoveEntry | MyKenkoCore/Sources/MyKenkoCore/CoreDataStore.swift:226-235 | deletes every row carrying the id and keeps every other row as often as it was stored |
| CoreData.AddThenRemoveEntry | MyKenkoCore/Sources/MyKenkoCore/CoreDataStore.swift:214-235 | adding an entry under an unused id and then removing that id restores the rows |
| CoreData.RecipeFromRow | MyKenkoCore/Sources/MyKenkoCore/CoreDataStore.swift:167-188 | a recipe object reads back with its stored fields and always with no tags; an ingredient is listed exactly when an ingredient object with its fields belongs to this recipe object |
| CoreData.Recipes | MyKenkoCore/Sources/MyKenkoCore/CoreDataStore.swift:237-246 | one recipe per recipe object, with its id, and none of them has tags |
| CoreData.AddRecipe | MyKenkoCore/Sources/MyKenkoCore/CoreDataStore.swift:248-269 | inserts one recipe object and one ingredient object per ingredient, keeps the object graph valid, and touches neither entries nor goal |
| CoreData.AddRecipeRoundTrip | MyKenkoCore/Sources/MyKenkoCore/CoreDataStore.swift:248-269 | after `add`, the earlier recipes read back unchanged and the new one reads back as given, minus its tags |
| CoreData.UpdateRecipe | MyKenkoCore/Sources/MyKenkoCore/CoreDataStore.swift:271-300 | keeps the object graph valid and the number of recipes; an unknown id changes nothing |
| CoreData.UpdateRecipeReplaces | MyKenkoCore/Sources/MyKenkoCore/CoreDataStore.swift:275-296 | the first recipe with the id reads back as the update, minus tags, with exactly the new ingredients; every other recipe reads back unchanged |
| CoreData.OwnedAfterReplace | MyKenkoCore/Sources/MyKenkoCore/CoreDataStore.swift:284-296 | replacing one object's ingredient set gives that object exactly the new ingredients and leaves other objects' ingredients alone |
| CoreData.RemoveRecipe | MyKenkoCore/Sources/MyKenkoCore/CoreDataStore.swift:302-311 | deletes every recipe object with the id, and through the cascade rule exactly their ingredients; the graph stays valid |
| CoreData.RemoveRecipeKeepsValid | MyKenkoCore/Sources/MyKenkoCore/CoreDataStore.swift:84 | the cascading delete leaves no ingredient without its recipe |
| CoreData.RemoveRecipeReadsBack | MyKenkoCore/Sources/MyKenkoCore/CoreDataStore.swift:302-311 | the recipes read after removal are those read before minus the ones with that id, and the survivors keep their ingredients |
| CoreData.GetDailyGoal | MyKenkoCore/Sources/MyKenkoCore/CoreDataStore.swift:366-380 | reads the first goal row; with no row, it inserts one holding 2200 and returns 2200 |
| CoreData.SetDailyGoal | MyKenkoCore/Sources/MyKenkoCore/CoreDataStore.swift:381-392 | overwrites the first goal row, or inserts one; a read afterwards returns the goal set and changes nothing |
| CoreData.GoalReadIsIdempotent | MyKenkoCore/Sources/MyKenkoCore/CoreDataStore.swift:366-380 | the provisioning read creates at most one row, and a second read returns the same goal and writes nothing |
| CoreData.AddExercise | MyKenkoCore/Sources/MyKenkoCore/CoreDataStore.swift:319-323 | appends to the exercise cache only |
| CoreData.UpdateExercise | MyKenkoCore/Sources/MyKenkoCore/CoreDataStore.swift:325-331 | replaces only the first cached exercise with the id; never inserts |
| CoreData.RemoveExercise | MyKenkoCore/Sources/MyKenkoCore/CoreDataStore.swift:333-337 | every cached exercise with the id goes; the others stay, in order, each as often as before |
| CoreData.AddThenRemoveExercise | MyKenkoCore/Sources/MyKenkoCore/CoreDataStore.swift:319-337 | caching an exercise under an unused id and removing that id restores the store |
| CoreData.AddRoutine | MyKenkoCore/Sources/MyKenkoCore/CoreDataStore.swift:345-349 | appends to the routine cache only |
| CoreData.UpdateRoutine | MyKenkoCore/Sources/MyKenkoCore/CoreDataStore.swift:351-357 | replaces only the first cached routine with the id; never inserts |
| CoreData.RemoveRoutine | MyKenkoCore/Sources/MyKenkoCore/CoreDataStore.swift:359-363 | every cached routine with the id goes; the others stay, in order, each as often as before |
| CoreData.AddThenRemoveRoutine | MyKenkoCore/Sources/MyKenkoCore/CoreDataStore.swift:345-363 | caching a routine under an unused id and removing that id restores the store |
| DataStore.Entries | MyKenkoCore/Sources/MyKenkoCore/Store.swift:12 | both backends answer newest first, with only entries of the requested day |
| DataStore.AddEntry | MyKenkoCore/Sources/MyKenkoCore/Store.swift:13 | on either backend, the entry is stored after every other one and the recipes are untouched |
| DataStore.RemoveEntry | MyKenkoCore/Sources/MyKenkoCore/Store.swift:14 | on either backend, exactly the stored entries with the id go, the rest stay in order, and the recipes are untouched |
| DataStore.Recipes | MyKenkoCore/Sources/MyKenkoCore/Store.swift:17 | the durable backend reads one recipe per recipe object, none of them with tags |
| DataStore.AddRecipe | MyKenkoCore/Sources/MyKenkoCore/Store.swift:18 | on either backend, the recipes read afterwards are the earlier ones followed by the new one as the backend keeps it: whole in memory, without tags when durable |
| DataStore.UpdateRecipe | MyKenkoCore/Sources/MyKenkoCore/Store.swift:19 | on either backend, the first recipe with the id reads back as the update, as the backend keeps it, and every other recipe is unchanged; the count never changes |
| DataStore.RemoveRecipe | MyKenkoCore/Sources/MyKenkoCore/Store.swift:20 | on either backend, the recipes read afterwards are those read before minus the ones with the id |
| DataStore.GetDailyGoal | MyKenkoCore/Sources/MyKenkoCore/Store.swift:23 | in memory, the read returns the stored goal and changes nothing; durably, it returns the first goal row's calories, or 2200 when there is none; either way the recipes are untouched |
| DataStore.SetDailyGoal | MyKenkoCore/Sources/MyKenkoCore/Store.swift:23 | setting the goal keeps the recipes; reading afterwards returns the goal set and writes nothing |
| DataStore.AddEntryJoinsDay | MyKenkoCore/Sources/MyKenkoCore/Store.swift:12-13 | on either backend, logging an entry adds exactly that entry to its own day's list and leaves every other day's list as it was |
| DataStore.RemoveEntryLeavesDay | MyKenkoCore/Sources/MyKenkoCore/Store.swift:12-14 | on either backend, deleting an id takes exactly the entries with that id out of every day's list |
| DataStore.AddThenRemoveEntry | MyKenkoCore/Sources/MyKenkoCore/Store.swift:13-14 | on either backend, adding under an unused id and removing it restores the store |
| DataStore.UpdateAbsentRecipeIsNoOp | MyKenkoCore/Sources/MyKenkoCore/Store.swift:19 | on either backend, `update` with an id no recipe carries changes no recipe |
| DataStore.UpdateWithReadRecipeIsNoOp | MyKenkoCore/Sources/MyKenkoCore/Store.swift:17-19 | on either backend, writing back a recipe just read leaves the recipe list unchanged |
| DataStore.GoalReadIsStable | MyKenkoCore/Sources/MyKenkoCore/Store.swift:23 | two reads in a row agree, and the second one writes nothing |
| DataStore.FreshStoresStartAtDefaultGoal | MyKenkoCore/Sources/MyKenkoCore/CoreDataStore.swift:367-376 | a new store of either kind reads a 2200 kcal goal |
| DataStore.DayRowsMatchDayEntries | MyKenkoCore/Sources/MyKenkoCore/CoreDataStore.swift:195-197 | under a well-formed calendar, the durable range test selects the same entries, in the same order, as the in-memory same-day test |
| DataStore.BackendsAgreeOnEntries | MyKenkoCore/Sources/MyKenkoCore/Store.swift:39-42 | the two backends holding the same entries return the same entries for every day |
| Session.Init | MyKenko-iOS/MyKenko-iOS/SessionManager.swift:23-28 | the session starts signed in exactly when the user key holds a decodable user, and as that user |
| Session.IsSignedIn | MyKenko-iOS/MyKenko-iOS/SessionManager.swift:30 | signed in exactly when there is a per-user onboarding key |
| Session.CurrentGoalKey | MyKenko-iOS/MyKenko-iOS/SessionManager.swift:19-21 | a goal key exists exactly when someone is signed in |
| Session.BoolForKey | MyKenko-iOS/MyKenko-iOS/SessionManager.swift:44 | a defaults boolean is true only for a stored true, and false when the key is missing |
| Session.UpdateUser | MyKenko-iOS/MyKenko-iOS/SessionManager.swift:32-40 | sets the user and stores it, or on sign-out deletes the stored user; nothing else in defaults changes |
| Session.NeedsGoalOnboarding | MyKenko-iOS/MyKenko-iOS/SessionManager.swift:42-45 | true only for a signed-in user whose own completion flag is not set |
| Session.MarkGoalOnboardingComplete | MyKenko-iOS/MyKenko-iOS/SessionManager.swift:47-50 | sets only the signed-in user's flag; signed out, it does nothing |
| Session.UpdateUserPersists | MyKenko-iOS/MyKenko-iOS/SessionManager.swift:23-40 | the next launch restores whichever user was last stored, or no one after sign-out |
| Session.MarkClearsOnboarding | MyKenko-iOS/MyKenko-iOS/SessionManager.swift:42-50 | once marked, onboarding is not needed, now or after relaunch |
| Session.GoalKeyIsNotUserKey | MyKenko-iOS/MyKenko-iOS/SessionManager.swift:18-20 | no onboarding key can overwrite the stored user |
| Session.GoalKeyInjective | MyKenko-iOS/MyKenko-iOS/SessionManager.swift:19-21 | different user identifiers have different onboarding keys |
| Session.OnboardingIsPerUser | MyKenko-iOS/MyKenko-iOS/SessionManager.swift:19-21 | one user completing onboarding does not change whether another user needs it |
| Session.SignOutKeepsOnboarding | MyKenko-iOS/MyKenko-iOS/SessionManager.swift:32-45 | signing out and back in as the same user keeps the onboarding state |
| GoalPrompt.EvaluateGoalPrompt | MyKenko-iOS/MyKenko-iOS/ContentView.swift:45-57 | the prompt shows exactly when onboarding is needed; signed out, it is hidden and nothing else changes; signed in, the pending value is the stored goal |
| GoalPrompt.SaveGoalFromPrompt | MyKenko-iOS/MyKenko-iOS/ContentView.swift:36-41 | saving stores the goal, closes the prompt and clears the signed-in user's onboarding |
| GoalPrompt.OnboardingFlow | MyKenko-iOS/MyKenko-iOS/ContentView.swift:27-57 | a user who needs onboarding sees the stored goal; after saving a valid goal, the goal is stored and re-evaluation keeps the prompt closed |
| GoalEditor.Open | MyKenko-iOS/MyKenko-iOS/Views/DailyGoalEditorView.swift:21-26 | the sheet opens with no error and with text that parses back to the initial value |
| GoalEditor.EditText | MyKenko-iOS/MyKenko-iOS/Views/DailyGoalEditorView.swift:41-43 | a change of text clears the error |
| GoalEditor.SaveGoal | MyKenko-iOS/MyKenko-iOS/Views/DailyGoalEditorView.swift:64-72 | saves exactly when the text trimmed of spaces and tabs parses as a positive `Int`; otherwise shows "Enter a positive number of calories." |
| GoalEditor.OpenThenSave | MyKenko-iOS/MyKenko-iOS/Views/DailyGoalEditorView.swift:21-72 | saving an untouched sheet returns the initial goal if positive, and is rejected otherwise |
| GoalEditor.PaddedNumberIsAccepted | MyKenko-iOS/MyKenko-iOS/Views/DailyGoalEditorView.swift:65 | spaces and tabs around a positive number are ignored |
| GoalEditor.TrailingNewlineIsRejected | MyKenko-iOS/MyKenko-iOS/Views/DailyGoalEditorView.swift:65 | a trailing line break is not trimmed, so the text is rejected |
| Home.RemainingText | MyKenko-iOS/MyKenko-iOS/Views/HomeView.swift:78-82 | the text never shows a minus sign; it says "remaining" when at or under the goal and "over goal" when past it |
| Home.RemainingTextReadsBack | MyKenko-iOS/MyKenko-iOS/Views/HomeView.swift:78-82 | the number in the text reads back as the distance to the goal, followed by the right suffix |
| Home.Consumed | MyKenko-iOS/MyKenko-iOS/Views/HomeView.swift:21-22 | the consumed number is the total of the day's stored entries in storage order, so sorting them does not change it |
| Home.QuickAdd | MyKenko-iOS/MyKenko-iOS/Views/HomeView.swift:101-107 | adds an item entry exactly when the title is non-empty and the calories parse, untrimmed |
| Home.QuickAddRaisesConsumed | MyKenko-iOS/MyKenko-iOS/Views/HomeView.swift:21-22 | a quick add raises today's consumed total by exactly the calories typed |
| Home.LongPressRemove | MyKenko-iOS/MyKenko-iOS/Views/HomeView.swift:60-62 | a long press takes exactly the entries with that row's id out of every day's list |
| Home.LongPressLowersConsumed | MyKenko-iOS/MyKenko-iOS/Views/HomeView.swift:21-22 | when today's ids are distinct, the row disappears and consumed drops by exactly its calories |
| AddIntake.UserRecipes | MyKenko-iOS/MyKenko-iOS/Views/AddIntakeView.swift:20-23 | the picker lists the signed-in user's recipes in store order, each as often as stored, and nothing else; none when signed out |
| AddIntake.OnModeChange | MyKenko-iOS/MyKenko-iOS/Views/AddIntakeView.swift:33-37 | switching to recipe mode with nothing selected selects the first recipe; a selection is never replaced |
| AddIntake.OnAppear | MyKenko-iOS/MyKenko-iOS/Views/AddIntakeView.swift:81-85 | with nothing selected, appearing selects the first recipe |
| AddIntake.OpeningSelectsValidRecipe | MyKenko-iOS/MyKenko-iOS/Views/AddIntakeView.swift:33-85 | from an empty or valid selection, appearing and switching to recipe mode both leave the picker on one of the signed-in user's stored recipes, or on nothing only when they have none |
| AddIntake.OnRecipesChange | MyKenko-iOS/MyKenko-iOS/Views/AddIntakeView.swift:86-94 | a still-listed selection is kept; an empty or no longer listed one becomes the new list's first recipe; so the selection is always listed, or empty only for an empty list |
| AddIntake.RemovingSelectedRecipeMovesSelection | MyKenko-iOS/MyKenko-iOS/Views/AddIntakeView.swift:86-94 | deleting the selected recipe of the user's list takes it off the list, so the picker reconciles to the first of the user's remaining recipes, another stored recipe of theirs, or to nothing when none remain |
| AddIntake.OnRecipesChangeIdempotent | MyKenko-iOS/MyKenko-iOS/Views/AddIntakeView.swift:86-94 | reconciling twice with the same list is the same as once |
| AddIntake.AddItem | MyKenko-iOS/MyKenko-iOS/Views/AddIntakeView.swift:44-50 | logs an item and clears both fields exactly when the title is non-empty and the calories parse; otherwise nothing changes |
| AddIntake.RecipeEntry | MyKenko-iOS/MyKenko-iOS/Views/AddIntakeView.swift:67-68 | a logged recipe has its title and its calories per serving, or 0 without them, marked as from a recipe |
| AddIntake.AddSelectedRecipe | MyKenko-iOS/MyKenko-iOS/Views/AddIntakeView.swift:65-71 | with a selection, logs it and clears the selection; without one, does nothing |
| AddIntake.LoggingRecipeClearsSelection | MyKenko-iOS/MyKenko-iOS/Views/AddIntakeView.swift:65-94 | logging a recipe leaves the recipe list unchanged and the selection empty |
| AddIntake.LoggedRecipeIsOwned | MyKenko-iOS/MyKenko-iOS/Views/AddIntakeView.swift:20-23 | a valid selection is a stored recipe owned by the signed-in user |
| ExerciseHub.UserExercises | MyKenko-iOS/MyKenko-iOS/Views/ExerciseHubView.swift:34-37 | the signed-in user's exercises in store order, each as often as stored, and nothing else; none when signed out |
| ExerciseHub.UserRoutines | MyKenko-iOS/MyKenko-iOS/Views/ExerciseHubView.swift:39-42 | the signed-in user's routines in store order, each as often as stored, and nothing else; none when signed out |
| ExerciseHub.ExercisesByID | MyKenko-iOS/MyKenko-iOS/Views/ExerciseHubView.swift:44-46 | with distinct ids, which the dictionary initializer demands, the map sends each exercise's id to that exercise and holds nothing else |
| ExerciseHub.ExercisesByIDKeys | MyKenko-iOS/MyKenko-iOS/Views/ExerciseHubView.swift:44-46 | the dictionary's keys are exactly the exercises' ids |
| ExerciseHub.ResolveExercises | MyKenko-iOS/MyKenko-iOS/Views/ExerciseHubView.swift:116 | `compactMap` is filter-then-map: one exercise per id that resolves, in the ids' order, each the id's lookup; ids that resolve to nothing are skipped |
| ExerciseHub.RoutineShowsOwnedExercises | MyKenko-iOS/MyKenko-iOS/Views/ExerciseHubView.swift:113-117 | a routine card shows, in routine order, one exercise for each of the routine's ids that is an id of the user's exercises, skipping the others; every exercise shown is the user's own and named by the routine |
| ExerciseHub.CanSaveExercise | MyKenko-iOS/MyKenko-iOS/Views/ExerciseHubView.swift:214-219 | saving is possible exactly when the name is not blank and sets and reps read as positive `Int` counts |
| ExerciseHub.SaveExercise | MyKenko-iOS/MyKenko-iOS/Views/ExerciseHubView.swift:214-257 | saves exactly when the name is not blank and sets and reps are positive; the name is trimmed, and blank instructions become none |
| ExerciseHub.SaveExerciseRoundTrip | MyKenko-iOS/MyKenko-iOS/Views/ExerciseHubView.swift:244-253 | typing an exercise's own fields into the form saves that same exercise |
| ExerciseHub.ToggleExercise | MyKenko-iOS/MyKenko-iOS/Views/ExerciseHubView.swift:319-329 | a toggle sets whether that one exercise is selected and leaves every other one as it was |
| ExerciseHub.ToggleKeepsSelectionAvailable | MyKenko-iOS/MyKenko-iOS/Views/ExerciseHubView.swift:290-294 | toggles exist only for available exercises, so the selection stays among them |
| ExerciseHub.ToggleOnThenOff | MyKenko-iOS/MyKenko-iOS/Views/ExerciseHubView.swift:319-329 | switching an exercise on and off restores the selection |
| ExerciseHub.CanSaveRoutine | MyKenko-iOS/MyKenko-iOS/Views/ExerciseHubView.swift:274-276 | a routine can be saved exactly when its name is not blank, with or without exercises |
| ExerciseHub.SaveRoutine | MyKenko-iOS/MyKenko-iOS/Views/ExerciseHubView.swift:274-311 | saves exactly when the name is not blank; the routine holds each selected id once and nothing else, in some order |
| ExerciseHub.SelectedExercisesAllShown | MyKenko-iOS/MyKenko-iOS/Views/ExerciseHubView.swift:116 | a routine made only of the user's exercise ids shows every one of them |
| RecipeEditor.Open | MyKenko-iOS/MyKenko-iOS/Views/RecipeEditorView.swift:43-56 | the fields start from the recipe, with calories text that parses back to its calories; empty when there is no recipe |
| RecipeEditor.CanSave | MyKenko-iOS/MyKenko-iOS/Views/RecipeEditorView.swift:86-89 | saving is possible exactly when the saved recipe would have an owner and the title is not blank |
| RecipeEditor.Save | MyKenko-iOS/MyKenko-iOS/Views/RecipeEditorView.swift:86-109 | saves exactly when someone owns the recipe and the title is not blank; the title is trimmed, unparsable calories become none, an edit keeps id, tags and ingredients, and a new recipe gets the fresh id |
| RecipeEditor.SaveUneditedIsIdentity | MyKenko-iOS/MyKenko-iOS/Views/RecipeEditorView.swift:43-109 | opening the editor on a recipe and saving untouched returns the same recipe |
| RecipeDetail.FindRecipe | MyKenko-iOS/MyKenko-iOS/Views/RecipeDetailView.swift:20-22 | finds the first recipe with the id, and nothing exactly when none has it |
| RecipeDetail.CanEdit | MyKenko-iOS/MyKenko-iOS/Views/RecipeDetailView.swift:24-27 | editing is offered exactly when the recipe exists and its owner is the signed-in user: never when signed out, never for another user's recipe or one without an owner |
| RecipeDetail.SaveEdit | MyKenko-iOS/MyKenko-iOS/Views/RecipeDetailView.swift:74-81 | a save the editor allows is written through `update`: the first recipe with its id reads back as the saved recipe, as the backend keeps it, the rest are unchanged and the store stays valid; a save it refuses changes nothing |
| RecipeDetail.RetitleReadsBack | MyKenko-iOS/MyKenko-iOS/Views/RecipeDetailView.swift:74-81 | the owner who retitles the recipe shown finds it at the same place with the trimmed title, still their own and still editable; a blank title saves nothing |
| RecipeDetail.EditWithoutChangesIsNoOp | MyKenko-iOS/MyKenko-iOS/Views/RecipeDetailView.swift:74-81 | editing the shown recipe without changes leaves the recipes as they were |
| RecipeDetail.SaveAfterRemovalIsNoOp | MyKenko-iOS/MyKenko-iOS/Views/RecipeDetailView.swift:20-22 | after removal the recipe is not found, and a late save from an open editor changes nothing |
| TagSelector.Toggle | MyKenko-iOS/MyKenko-iOS/UI/TagSelectorView.swift:31-37 | an absent tag is appended; a present tag loses its first occurrence, and the others keep their order |
| TagSelector.ToggleFlipsSelection | MyKenko-iOS/MyKenko-iOS/UI/TagSelectorView.swift:22-23 | with no repeats, a tap flips whether the chip is selected and never creates a repeat |
| TagSelector.ToggleTwiceRestores | MyKenko-iOS/MyKenko-iOS/UI/TagSelectorView.swift:31-37 | tapping an unselected chip twice restores the selection |
| TagSelector.SelectionIsBounded | MyKenko-iOS/MyKenko-iOS/UI/TagSelectorView.swift:14 | a selection without repeats holds at most the five tags |

## Left out

- Exercise and Routine records: their Swift definitions are not part of this model. Their fields follow the hub's initializer calls (ExerciseHubView.swift lines 247-253 and 305-309).
- Exercises and routines in `InMemoryStore`, and in the `DataStore` protocol: the protocol and the in-memory store shown declare no exercise or routine operations. Only the durable backend's caches and the hub's lists are modelled.
- Container setup, the programmatic schema, CloudKit, the merge policy and `automaticallyMergesChangesFromParent`: configuration with no decision logic. The schema's one rule with behaviour, the cascade from recipe to ingredients, is modelled.
- `performAndWait`, the main actor and `StoreBox` change publishing: concurrency and UI notification. Every operation is modelled as one atomic step.
- Failed fetches and saves (`try?`), and `fatalError` when the stores fail to load: I/O failures. The model assumes every fetch and save succeeds.
- The `?? UUID()`, `?? ""`, `?? 0` and `?? 2200` read fallbacks: the schema makes those attributes non-optional, and every write stores them, so rows always carry values.
- `Date` as floating-point seconds: modelled as integer instants.
- `Calendar.current`: an abstract calendar stands in for it, with `Days.FixedOffset` as one well-formed example.
- Swift `Int` overflow traps in `totalCalories`, `goal - consumed` and `-remaining`: integers are unbounded here. Only `Int(String)`'s range check is modelled.
- `Home.RemainingTextReadsBack`: holds only when the distance fits in an `Int`, the same range the source needs to avoid trapping.
- CoreData.AddRecipeRoundTrip: states the order of the ingredients read back, which is the model's table order. An `NSSet` promises only the same ingredients.
- CoreData.UpdateRecipeReplaces: states the ingredient order in the model's table order, for the same reason.
- DataStore.AddRecipe: on the durable backend, the stated recipe and ingredient order is the model's table order.
- DataStore.UpdateRecipe: on the durable backend, the stated recipe and ingredient order is the model's table order.
- The progress ring, and the floating-point division that feeds it: presentation only.
- Sign in with Apple, and the JSON encoding of the user: the defaults store holds the user record itself. Data that does not decode is the `Unreadable` value.
- `SampleData`, the settings screen, the recipes hub, the watch apps and the previews: outside the store and the decision rules.
- The "From Recipe" quick-add button and "Save as Database Item": their actions are empty in the source.
