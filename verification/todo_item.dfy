/** The editing logic of one row of the todo list, components/todos/TodoItem.tsx:
    the checks `handleSave` runs before calling `onEdit`, what it passes on
    and the state it leaves behind, `handleEdit` / `handleCancel`, and the
    argument of `handleToggle`. The callbacks are given by the outcome of the
    promise they return. */
module TodoItem {
  import opened Wrappers
  import opened Text

  /** The fields of a todo this component reads. */
  datatype Todo = Todo(id: nat, title: string, description: string, isCompleted: bool)

  datatype ItemState = ItemState(
    todo: Todo,
    isEditing: bool,
    isSaving: bool,
    editedTitle: string,
    editedDescription: string)

  /** A fresh row: not editing, the edit fields holding the todo's own values. */
  function Mount(todo: Todo): ItemState {
    ItemState(todo, false, false, todo.title, todo.description)
  }

  const MaxTitleLength: nat := 200
  const MaxDescriptionLength: nat := 1000

  /** Why a save was refused; each reason has its own alert. */
  datatype Rejection = EmptyTitle | TitleTooLong | DescriptionTooLong {
    function Alert(): string {
      match this
      case EmptyTitle => "Title cannot be empty!"
      case TitleTooLong => "Title is too long (max 200 characters)"
      case DescriptionTooLong => "Description is too long (max 1000 characters)"
    }
  }

  /** The three checks of `handleSave`, first failure wins: the title must
      have a non-whitespace character, and the untrimmed title and
      description must fit their limits in UTF-16 code units. */
  function CheckEdit(title: string, description: string): (r: Option<Rejection>)
    ensures r == Some(EmptyTitle) <==> AllWhitespace(title)
    ensures r == Some(TitleTooLong) <==> !AllWhitespace(title) && Utf16Length(title) > MaxTitleLength
    ensures r == Some(DescriptionTooLong) <==>
      !AllWhitespace(title) && Utf16Length(title) <= MaxTitleLength && Utf16Length(description) > MaxDescriptionLength
    ensures r.None? <==>
      !AllWhitespace(title) && Utf16Length(title) <= MaxTitleLength && Utf16Length(description) <= MaxDescriptionLength
  {
    if Trim(title) == "" then Some(EmptyTitle)
    else if Utf16Length(title) > MaxTitleLength then Some(TitleTooLong)
    else if Utf16Length(description) > MaxDescriptionLength then Some(DescriptionTooLong)
    else None
  }

  /** The arguments of `onEdit`. */
  datatype EditCall = EditCall(id: nat, title: string, description: string)

  /** What a save produces: the next state, the alert shown if it was
      refused, and the `onEdit` call it made if it was not. */
  datatype SaveResult = SaveResult(state: ItemState, alert: Option<string>, call: Option<EditCall>)

  /** `handleSave`, given the outcome of the `onEdit` promise. A refused save
      alerts and changes nothing. An accepted one sends the trimmed fields,
      leaves edit mode only when `onEdit` succeeded, and always ends with
      `isSaving` false. */
  function Save<E>(s: ItemState, onEdit: Result<(), E>): (r: SaveResult)
    ensures r.call.None? <==> CheckEdit(s.editedTitle, s.editedDescription).Some?
    ensures r.call.None? ==>
      && r.state == s
      && r.alert == Some(CheckEdit(s.editedTitle, s.editedDescription).value.Alert())
    ensures r.call.Some? ==>
      && r.alert.None?
      && r.call.value == EditCall(s.todo.id, Trim(s.editedTitle), Trim(s.editedDescription))
      && !r.state.isSaving
      && r.state.isEditing == (s.isEditing && onEdit.Failure?)
      && r.state.(isSaving := s.isSaving, isEditing := s.isEditing) == s
  {
    match CheckEdit(s.editedTitle, s.editedDescription)
    case Some(why) => SaveResult(s, Some(why.Alert()), None)
    case None =>
      var call := EditCall(s.todo.id, Trim(s.editedTitle), Trim(s.editedDescription));
      var editing := if onEdit.Success? then false else s.isEditing;
      SaveResult(s.(isSaving := false, isEditing := editing), None, Some(call))
  }

  /** What `onEdit` receives always satisfies the checks a second time: a
      non-empty title without surrounding whitespace, within both limits. */
  lemma SentFieldsWithinLimits<E>(s: ItemState, onEdit: Result<(), E>)
    requires Save(s, onEdit).call.Some?
    ensures var c := Save(s, onEdit).call.value;
      && c.title != [] && !IsJsWhitespace(c.title[0]) && !IsJsWhitespace(c.title[|c.title| - 1])
      && Utf16Length(c.title) <= MaxTitleLength
      && Utf16Length(c.description) <= MaxDescriptionLength
      && CheckEdit(c.title, c.description).None?
  {
    assert CheckEdit(s.editedTitle, s.editedDescription).None?;
    assert Save(s, onEdit).call.value == EditCall(s.todo.id, Trim(s.editedTitle), Trim(s.editedDescription));
    TrimmedFieldsPass(s.editedTitle, s.editedDescription);
  }

  lemma TrimmedFieldsPass(title: string, description: string)
    requires CheckEdit(title, description).None?
    ensures var t := Trim(title);
      && t != [] && !IsJsWhitespace(t[0]) && !IsJsWhitespace(t[|t| - 1])
      && Utf16Length(t) <= MaxTitleLength
      && Utf16Length(Trim(description)) <= MaxDescriptionLength
      && CheckEdit(t, Trim(description)).None?
  {
    var t := Trim(title);
    TrimShortens(title);
    TrimShortens(description);
    assert !AllWhitespace(t) by {
      assert !IsJsWhitespace(t[0]);
    }
  }

  /** `handleEdit`: enter edit mode with the todo's current values. */
  function StartEdit(s: ItemState): ItemState {
    s.(editedTitle := s.todo.title, editedDescription := s.todo.description, isEditing := true)
  }

  /** `handleCancel`: restore the todo's values and leave edit mode. */
  function Cancel(s: ItemState): ItemState {
    s.(editedTitle := s.todo.title, editedDescription := s.todo.description, isEditing := false)
  }

  /** Typing into the two edit fields. */
  function TypeEdits(s: ItemState, title: string, description: string): ItemState {
    s.(editedTitle := title, editedDescription := description)
  }

  /** Cancel discards whatever was typed since editing began: the row is as
      it was when mounted, apart from a save still in progress. */
  lemma CancelDiscardsEdits(todo: Todo, title: string, description: string)
    ensures Cancel(TypeEdits(StartEdit(Mount(todo)), title, description)) == Mount(todo)
    ensures forall t, d :: Cancel(TypeEdits(StartEdit(Mount(todo)), t, d)) == Cancel(StartEdit(Mount(todo)))
  {
  }

  /** The arguments of `onToggle`: the todo's id and its completion flipped.
      The contract is definitional. */
  function ToggleArgument(todo: Todo): (r: (nat, bool))
    ensures r.0 == todo.id && r.1 != todo.isCompleted
  {
    (todo.id, !todo.isCompleted)
  }
}
