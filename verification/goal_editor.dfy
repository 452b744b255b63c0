/**
 * `DailyGoalEditorView`: a sheet holding the goal as text. Saving accepts
 * a positive whole number, surrounded by spaces or tabs at most, and hands
 * it to the caller; anything else leaves the sheet open with an error.
 */
module GoalEditor {
  import opened Wrappers
  import opened Text

  datatype GoalEditor = GoalEditor(calorieText: string, errorMessage: Option<string>)

  const InvalidGoalMessage: string := "Enter a positive number of calories."

  /** The sheet as it opens: the initial value written out, no error. */
  function Open(initialValue: int): (ed: GoalEditor)
    ensures ed.errorMessage.None?
    ensures IsInt64(initialValue) ==> ParseInt(ed.calorieText) == Some(initialValue)
  {
    assert IsInt64(initialValue) ==> ParseInt(ShowInt(initialValue)) == Some(initialValue) by {
      if IsInt64(initialValue) {
        ParseShowInt(initialValue);
      }
    }
    GoalEditor(ShowInt(initialValue), None)
  }

  /** Typing: a change of text clears the error; setting the same text fires nothing. */
  function EditText(ed: GoalEditor, text: string): (r: GoalEditor)
    ensures r.calorieText == text
    ensures text != ed.calorieText ==> r.errorMessage.None?
    ensures text == ed.calorieText ==> r == ed
  {
    if text == ed.calorieText then ed else GoalEditor(text, None)
  }

  /** What pressing Save does: hand a goal to the caller, or stay open with the error shown. */
  datatype SaveOutcome = Saved(goal: int) | Rejected(editor: GoalEditor)

  /** `saveGoal()`: the text, trimmed of spaces and tabs (not line breaks), must parse to a positive `Int`. */
  function SaveGoal(ed: GoalEditor): (r: SaveOutcome)
    ensures r.Saved? ==> r.goal > 0 && IsInt64(r.goal)
    ensures r.Saved? <==> exists v :: ParseInt(TrimmedSpaces(ed.calorieText)) == Some(v) && v > 0
    ensures r.Rejected? ==> r.editor == ed.(errorMessage := Some(InvalidGoalMessage))
  {
    match ParseInt(TrimmedSpaces(ed.calorieText))
    case Some(v) =>
      if v > 0 then Saved(v) else Rejected(ed.(errorMessage := Some(InvalidGoalMessage)))
    case None => Rejected(ed.(errorMessage := Some(InvalidGoalMessage)))
  }

  /** Saving the sheet as it opened returns the initial goal when it is positive, and an error otherwise. */
  lemma OpenThenSave(initialValue: int)
    requires IsInt64(initialValue)
    ensures initialValue > 0 ==> SaveGoal(Open(initialValue)) == Saved(initialValue)
    ensures initialValue <= 0 ==> SaveGoal(Open(initialValue)).Rejected?
  {
    TrimShowInt(initialValue);
    ParseShowInt(initialValue);
  }

  /** Spaces and tabs around the number are ignored. */
  lemma PaddedNumberIsAccepted(pre: string, v: int, post: string, err: Option<string>)
    requires forall k :: 0 <= k < |pre| ==> IsWhitespace(pre[k])
    requires forall k :: 0 <= k < |post| ==> IsWhitespace(post[k])
    requires 0 < v <= Int64Max
    ensures SaveGoal(GoalEditor(pre + ShowInt(v) + post, err)) == Saved(v)
  {
    var mid := ShowInt(v);
    assert !IsWhitespace(mid[0]) && !IsWhitespace(mid[|mid| - 1]);
    TrimPadded(pre, mid, post, IsWhitespace);
    ParseShowInt(v);
  }

  /** A trailing line break is not trimmed, so the number is not read. */
  lemma TrailingNewlineIsRejected(v: int, err: Option<string>)
    ensures SaveGoal(GoalEditor(ShowInt(v) + "\n", err)).Rejected?
  {
    var s := ShowInt(v) + "\n";
    assert !IsWhitespace(s[0]) && !IsWhitespace(s[|s| - 1]);
    assert TrimmedSpaces(s) == s;
    assert !IsDigit(s[|s| - 1]);
  }
}
