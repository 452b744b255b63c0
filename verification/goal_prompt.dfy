/**
 * The root view's goal onboarding: after sign-in, a user who has never
 * chosen a daily goal is shown the goal sheet, pre-filled with the store's
 * current goal; saving it stores the goal and marks onboarding complete.
 */
module GoalPrompt {
  import opened Wrappers
  import opened Domain
  import opened Session
  import opened DataStore
  import GoalEditor

  datatype PromptState = PromptState(showGoalPrompt: bool, pendingGoalValue: int)

  /** The view's initial state. */
  const InitialPrompt: PromptState := PromptState(false, DefaultGoalCalories)

  /**
   * `evaluateGoalPrompt()`, run on appear and whenever the signed-in user
   * changes. Reading the goal may provision it in the durable store, so the
   * store after the read is returned too.
   */
  function EvaluateGoalPrompt(ps: PromptState, session: Session, store: Store): (r: (PromptState, Store))
    ensures r.0.showGoalPrompt <==> NeedsGoalOnboarding(session)
    ensures !IsSignedIn(session) ==> r == (ps.(showGoalPrompt := false), store)
    ensures IsSignedIn(session) ==> r.0.pendingGoalValue == GetDailyGoal(store).0.calories
    ensures Recipes(r.1) == Recipes(store)
  {
    if !IsSignedIn(session) then (ps.(showGoalPrompt := false), store)
    else
      var (goal, store') := GetDailyGoal(store);
      (PromptState(NeedsGoalOnboarding(session), goal.calories), store')
  }

  /** The sheet's save handler: store the goal, mark onboarding done, close the sheet. */
  function SaveGoalFromPrompt(ps: PromptState, session: Session, store: Store, newGoal: int): (r: (PromptState, Session, Store))
    ensures !r.0.showGoalPrompt && r.0.pendingGoalValue == ps.pendingGoalValue
    ensures r.1.signedInUser == session.signedInUser
    ensures GetDailyGoal(r.2).0 == DailyGoal(newGoal)
    ensures IsSignedIn(session) ==> !NeedsGoalOnboarding(r.1)
  {
    (ps.(showGoalPrompt := false), MarkGoalOnboardingComplete(session), SetDailyGoal(store, DailyGoal(newGoal)))
  }

  /**
   * The onboarding flow end to end: a signed-in user who needs onboarding
   * sees the sheet pre-filled with the stored goal; saving a valid entry
   * stores it, and evaluating again keeps the sheet closed and shows the
   * new goal as pending.
   */
  lemma OnboardingFlow(session: Session, store: Store, text: string)
    requires NeedsGoalOnboarding(session)
    requires GoalEditor.SaveGoal(GoalEditor.GoalEditor(text, None)).Saved?
    ensures var (shown, s1) := EvaluateGoalPrompt(InitialPrompt, session, store);
            && shown.showGoalPrompt
            && shown.pendingGoalValue == GetDailyGoal(store).0.calories
            && var v := GoalEditor.SaveGoal(GoalEditor.GoalEditor(text, None)).goal;
               var (closed, session2, s2) := SaveGoalFromPrompt(shown, session, s1, v);
               && GetDailyGoal(s2).0.calories == v
               && var (again, _) := EvaluateGoalPrompt(closed, session2, s2);
                  !again.showGoalPrompt && again.pendingGoalValue == v
  {
  }
}
