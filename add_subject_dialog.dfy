/**
 * The validation rules of the add/edit subject dialog: the error shown under
 * the name and goal fields, when a field is drawn red, and when the save
 * button is enabled. `parseFloat` is Kotlin's `String.toFloatOrNull()`,
 * left abstract; lengths are counted in characters.
 */
module AddSubjectDialog {
  import opened Nullable
  import opened KotlinStdlib
  import SubjectViewModel

  const EnterNameMessage := "请输入科目名称。"
  const NameTooShortMessage := "科目名称过短。"
  const NameTooLongMessage := "科目名称过长。"
  const EnterGoalMessage := "请输入目标学习时长。"
  const InvalidNumberMessage := "无效数字。"
  const GoalTooSmallMessage := "请至少设置1小时。"
  const GoalTooLargeMessage := "目标时长不能超过1000小时。"

  const MinNameLength := 2
  const MaxNameLength := 20
  const MinGoalHours := 1.0
  const MaxGoalHours := 1000.0

  /** The name field's error: blank, then too short, then too long. */
  function SubjectNameError(name: string): (r: Option<string>)
    ensures r == Some(EnterNameMessage) <==> IsBlank(name)
    ensures r == Some(NameTooShortMessage) <==> !IsBlank(name) && |name| < MinNameLength
    ensures r == Some(NameTooLongMessage) <==> !IsBlank(name) && |name| > MaxNameLength
    ensures r.None? <==> !IsBlank(name) && MinNameLength <= |name| <= MaxNameLength
  {
    if IsBlank(name) then Some(EnterNameMessage)
    else if |name| < MinNameLength then Some(NameTooShortMessage)
    else if |name| > MaxNameLength then Some(NameTooLongMessage)
    else None
  }

  /**
   * The goal field's error as the dialog computes it. The IEEE comparisons
   * `< 1f` and `> 1000f` are both false for NaN, so a goal that parses to
   * NaN is accepted.
   */
  function GoalHoursErrorAsWritten(goal: string, parseFloat: string -> Option<Float>): (r: Option<string>)
    ensures r.None? <==>
      && !IsBlank(goal) && parseFloat(goal).Some?
      && (parseFloat(goal).value.NaN?
          || (parseFloat(goal).value.Finite? && MinGoalHours <= parseFloat(goal).value.value <= MaxGoalHours))
  {
    if IsBlank(goal) then Some(EnterGoalMessage)
    else if parseFloat(goal).None? then Some(InvalidNumberMessage)
    else if parseFloat(goal).value.LessThan(MinGoalHours) then Some(GoalTooSmallMessage)
    else if parseFloat(goal).value.GreaterThan(MaxGoalHours) then Some(GoalTooLargeMessage)
    else None
  }

  /** Kotlin's parser reads "NaN" as NaN, and then the dialog raises no error for it. */
  lemma NaNGoalAcceptedAsWritten(parseFloat: string -> Option<Float>)
    requires parseFloat("NaN") == Some(NaN)
    ensures GoalHoursErrorAsWritten("NaN", parseFloat).None?
  {
    assert !IsWhitespace("NaN"[0]);
  }

  /** The goal field's error with NaN reported as an invalid number, as the other checks intend. */
  function GoalHoursError(goal: string, parseFloat: string -> Option<Float>): (r: Option<string>)
    ensures r == Some(EnterGoalMessage) <==> IsBlank(goal)
    ensures r == Some(InvalidNumberMessage) <==>
      !IsBlank(goal) && (parseFloat(goal).None? || parseFloat(goal).value.NaN?)
    ensures r.None? <==>
      && !IsBlank(goal) && parseFloat(goal).Some? && parseFloat(goal).value.Finite?
      && MinGoalHours <= parseFloat(goal).value.value <= MaxGoalHours
  {
    if IsBlank(goal) then Some(EnterGoalMessage)
    else if parseFloat(goal).None? || parseFloat(goal).value.NaN? then Some(InvalidNumberMessage)
    else if parseFloat(goal).value.LessThan(MinGoalHours) then Some(GoalTooSmallMessage)
    else if parseFloat(goal).value.GreaterThan(MaxGoalHours) then Some(GoalTooLargeMessage)
    else None
  }

  /** The two definitions differ only on a goal that parses to NaN. */
  lemma GoalHoursErrorDiffersOnlyOnNaN(goal: string, parseFloat: string -> Option<Float>)
    ensures GoalHoursError(goal, parseFloat) != GoalHoursErrorAsWritten(goal, parseFloat) <==>
      !IsBlank(goal) && parseFloat(goal) == Some(NaN)
  {
  }

  /** `isError`: a field is drawn red when it has an error and is not blank. */
  predicate IsErrorShown(error: Option<string>, text: string) {
    error.Some? && !IsBlank(text)
  }

  /** An untouched (blank) field is never red; a non-blank name is red exactly when it is out of bounds. */
  lemma ErrorShownRules(name: string, goal: string, parseFloat: string -> Option<Float>)
    ensures IsBlank(name) ==> !IsErrorShown(SubjectNameError(name), name)
    ensures IsBlank(goal) ==> !IsErrorShown(GoalHoursError(goal, parseFloat), goal)
    ensures !IsBlank(name) ==>
      (IsErrorShown(SubjectNameError(name), name) <==> !(MinNameLength <= |name| <= MaxNameLength))
  {
  }

  /** The save button is enabled when neither field has an error. */
  predicate SaveEnabled(name: string, goal: string, parseFloat: string -> Option<Float>) {
    SubjectNameError(name).None? && GoalHoursError(goal, parseFloat).None?
  }

  /**
   * When the dialog lets the subject screen save, the row written has a
   * name of 2 to 20 characters and a finite goal between 1 and 1000 hours.
   */
  lemma SavedSubjectIsValid(s: SubjectViewModel.SubjectState, parseFloat: string -> Option<Float>)
    requires SaveEnabled(s.subjectName, s.goalStudyHours, parseFloat)
    ensures var subject := SubjectViewModel.SubjectFromState(s, parseFloat);
      && MinNameLength <= |subject.name| <= MaxNameLength && !IsBlank(subject.name)
      && subject.goalHours.Finite? && MinGoalHours <= subject.goalHours.value <= MaxGoalHours
  {
  }

  /** With the dialog as written, a subject saved through it can have a NaN goal. */
  lemma NaNGoalSavedAsWritten(s: SubjectViewModel.SubjectState, parseFloat: string -> Option<Float>)
    requires s.goalStudyHours == "NaN" && parseFloat("NaN") == Some(NaN)
    ensures GoalHoursErrorAsWritten(s.goalStudyHours, parseFloat).None?
    ensures SubjectViewModel.SubjectFromState(s, parseFloat).goalHours == NaN
  {
    NaNGoalAcceptedAsWritten(parseFloat);
  }
}
