/** The new-todo form of components/todos/AddTodoForm.tsx: typing into the
    title, the submit guard, what `onAdd` receives, the reset after a
    successful add and the disabled state of the submit button. */
module AddTodoForm {
  import opened Wrappers
  import opened Text

  datatype FormState = FormState(title: string, description: string, isSubmitting: bool, isExpanded: bool)

  const Initial: FormState := FormState("", "", false, false)

  /** Typing into the title: the value is stored, and a non-empty value
      expands the form, which typing never collapses again. */
  function TypeTitle(s: FormState, value: string): (s': FormState)
    ensures s'.title == value
    ensures s'.isExpanded <==> s.isExpanded || value != ""
    ensures s'.(title := s.title, isExpanded := s.isExpanded) == s
  {
    if !s.isExpanded && value != "" then s.(title := value, isExpanded := true) else s.(title := value)
  }

  /** Typing into the description changes nothing else. */
  function TypeDescription(s: FormState, value: string): FormState {
    s.(description := value)
  }

  /** Once expanded, no typing collapses the form. */
  lemma {:induction false} TypingNeverCollapses(s: FormState, values: seq<string>)
    requires s.isExpanded
    ensures TypeAll(s, values).isExpanded
    decreases |values|
  {
    if |values| > 0 {
      TypingNeverCollapses(TypeTitle(s, values[0]), values[1..]);
    }
  }

  function TypeAll(s: FormState, values: seq<string>): FormState
    decreases |values|
  {
    if |values| == 0 then s else TypeAll(TypeTitle(s, values[0]), values[1..])
  }

  /** The submit button is disabled while the title is blank or a
      submission is running. */
  predicate SubmitDisabled(s: FormState) {
    Trim(s.title) == "" || s.isSubmitting
  }

  /** The arguments of `onAdd`. */
  datatype AddCall = AddCall(title: string, description: string)

  /** What a submit produces: the next state, the `onAdd` call it made, and
      the rejection `handleSubmit` itself ends with. */
  datatype SubmitResult<E> = SubmitResult(state: FormState, call: Option<AddCall>, rejection: Option<E>)

  /** `handleSubmit`, given the outcome of the `onAdd` promise: a blank
      title submits nothing; otherwise `onAdd` gets the trimmed fields, a
      success clears and collapses the form, and `isSubmitting` ends false
      either way. There is a `finally` but no `catch`, so a rejected `onAdd`
      keeps the fields and its error propagates out of `handleSubmit`. */
  function Submit<E>(s: FormState, onAdd: Result<(), E>): (r: SubmitResult<E>)
    ensures AllWhitespace(s.title) ==> r == SubmitResult(s, None, None)
    ensures !AllWhitespace(s.title) ==>
      && r.call == Some(AddCall(Trim(s.title), Trim(s.description)))
      && !r.state.isSubmitting
      && (onAdd.Success? ==> r.state == Initial && r.rejection.None?)
      && (onAdd.Failure? ==> r.state == s.(isSubmitting := false) && r.rejection == Some(onAdd.error))
    ensures r.rejection.Some? <==> r.call.Some? && onAdd.Failure?
  {
    if Trim(s.title) == "" then SubmitResult(s, None, None)
    else
      var call := AddCall(Trim(s.title), Trim(s.description));
      match onAdd
      case Success(_) => SubmitResult(FormState("", "", false, false), Some(call), None)
      case Failure(e) => SubmitResult(s.(isSubmitting := false), Some(call), Some(e))
  }

  /** The button is enabled exactly when a submission would call `onAdd`
      (and none is running), and the title it sends is never blank. */
  lemma EnabledSubmitCallsOnAdd<E>(s: FormState, onAdd: Result<(), E>)
    ensures !SubmitDisabled(s) <==> !s.isSubmitting && Submit(s, onAdd).call.Some?
    ensures Submit(s, onAdd).call.Some? ==> !AllWhitespace(Submit(s, onAdd).call.value.title)
  {
    if Submit(s, onAdd).call.Some? {
      var t := Trim(s.title);
      assert !IsJsWhitespace(t[0]);
    }
  }
}
