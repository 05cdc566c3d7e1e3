/**
 * The new-goal dialog (components/AddGoalModal.tsx): its form, the reset
 * run on opening, the goal-type chooser with its custom mode, and the row
 * inserted on submit.
 */
module AddGoalModal {
  import opened Wrappers
  import opened Text

  const DefaultType: string := "Reuniões Agendadas"
  const DefaultPeriod: string := "Mensal"

  /** The inserted `goals` row: `target` is `None` when the typed target is not a number. */
  datatype GoalRow = GoalRow(userId: Option<string>, goalType: string, target: Option<int>, current: int, period: string)

  /** `handleSubmit`'s row, or `None` when the responsible user or the target is missing. */
  function NewGoalRow(userId: string, goalType: string, customType: string, isCustomType: bool,
                      targetValue: string, period: string): (r: Option<GoalRow>)
    ensures r.None? <==> userId == "" || targetValue == ""
    ensures r.Some? ==> r.value.current == 0 && r.value.period == period
    ensures r.Some? ==> (r.value.userId.None? <==> userId == "general")
    ensures r.Some? && userId != "general" ==> r.value.userId == Some(userId)
    ensures r.Some? ==> r.value.goalType == (if isCustomType then customType else goalType)
    ensures r.Some? ==> r.value.target == ParseInt(targetValue)
  {
    if userId == "" || targetValue == "" then None
    else Some(GoalRow(if userId == "general" then None else Some(userId),
                      if isCustomType then customType else goalType,
                      ParseInt(targetValue), 0, period))
  }

  /** A typed whole number is stored as that number. */
  lemma TargetRoundTrip(userId: string, n: int)
    requires userId != ""
    ensures var r := NewGoalRow(userId, DefaultType, "", false, IntToString(n), DefaultPeriod);
      r.Some? && r.value.target == Some(n)
  {
    ParseIntOfString(n);
  }

  class GoalForm {
    var userId: string
    var goalType: string
    var customType: string
    var isCustomType: bool
    var targetValue: string
    var period: string

    predicate IsReset()
      reads this
    {
      userId == "" && goalType == DefaultType && !isCustomType && customType == ""
      && targetValue == "" && period == DefaultPeriod
    }

    constructor ()
      ensures IsReset()
    {
      userId := "";
      goalType := DefaultType;
      customType := "";
      isCustomType := false;
      targetValue := "";
      period := DefaultPeriod;
    }

    /** The opening effect resets every field. */
    method Open()
      modifies this
      ensures IsReset()
    {
      userId := "";
      goalType := DefaultType;
      isCustomType := false;
      customType := "";
      targetValue := "";
      period := DefaultPeriod;
    }

    /** The type select: 'custom' switches to the free-text mode and keeps the preset; anything else is the preset. */
    method ChooseType(value: string)
      modifies this
      ensures value == "custom" ==> isCustomType && goalType == old(goalType)
      ensures value != "custom" ==> goalType == value && isCustomType == old(isCustomType)
      ensures userId == old(userId) && customType == old(customType)
      ensures targetValue == old(targetValue) && period == old(period)
    {
      if value == "custom" {
        isCustomType := true;
      } else {
        goalType := value;
      }
    }

    /** The custom box's cancel button goes back to the preset, whose value was kept. */
    method CancelCustom()
      modifies this
      ensures !isCustomType && goalType == old(goalType)
      ensures userId == old(userId) && customType == old(customType)
      ensures targetValue == old(targetValue) && period == old(period)
    {
      isCustomType := false;
    }

    method Submit() returns (r: Option<GoalRow>)
      ensures r == NewGoalRow(userId, goalType, customType, isCustomType, targetValue, period)
    {
      r := NewGoalRow(userId, goalType, customType, isCustomType, targetValue, period);
    }
  }

  /** A freshly opened dialog refuses to submit until a user and a target are chosen. */
  lemma ResetFormRefused()
    ensures NewGoalRow("", DefaultType, "", false, "", DefaultPeriod).None?
  {
  }
}
