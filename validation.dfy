/**
 * The input checks each operation runs before it touches the store, in the
 * order the source runs them. Each check yields the first failing `Reason`, or
 * `None` when the input is accepted. Texts are checked after trimming.
 */
module Validation {
  import opened Wrappers
  import opened Text
  import opened TodoModel

  /** A day strictly before today; an invalid date compares as not past. */
  predicate IsPast(d: DueDate, today: int)
  {
    d.Day? && d.day < today
  }

  /** The emptiness and length checks shared by every text input. */
  function TextError(text: string): (r: Option<Reason>)
    ensures r == None <==> text != "" && |text| <= MaxTextLength
    ensures r != None ==> r.value in {EmptyText, TextTooLong}
  {
    if text == "" then Some(EmptyText)
    else if |text| > MaxTextLength then Some(TextTooLong)
    else None
  }

  /** Some todo's text equals `text` ignoring case. */
  predicate TodoTextTaken(todos: seq<Todo>, text: string)
  {
    exists i :: 0 <= i < |todos| && Lower(todos[i].text) == Lower(text)
  }

  /** Some todo with an id other than `id` has `text`, ignoring case. */
  predicate OtherTodoTextTaken(todos: seq<Todo>, id: string, text: string)
  {
    exists i :: 0 <= i < |todos| && todos[i].id != id && Lower(todos[i].text) == Lower(text)
  }

  /** Some subtask of the parent has `text`, ignoring case. */
  predicate SubtaskTextTaken(subtasks: seq<Subtask>, text: string)
  {
    exists k :: 0 <= k < |subtasks| && Lower(subtasks[k].text) == Lower(text)
  }

  /** Some subtask of the parent with an id other than `id` has `text`, ignoring case. */
  predicate OtherSubtaskTextTaken(subtasks: seq<Subtask>, id: string, text: string)
  {
    exists k :: 0 <= k < |subtasks| && subtasks[k].id != id && Lower(subtasks[k].text) == Lower(text)
  }

  /**
   * The date check of `addTodo`: only the empty string is missing, and there is
   * no validity test, so a blank or unparsable date is accepted.
   */
  function AddDateError(d: DueDate, today: int): (r: Option<Reason>)
    ensures r == None <==> d != Empty && !IsPast(d, today)
  {
    if d == Empty then Some(MissingDate)
    else if IsPast(d, today) then Some(PastDate)
    else None
  }

  /**
   * The date check of the edit and subtask forms: empty or blank is missing,
   * an unparsable date is invalid, and a day before today is past.
   */
  function DateError(d: DueDate, today: int): (r: Option<Reason>)
    ensures r == None <==> d.Day? && d.day >= today
  {
    if d == Empty || d == Blank then Some(MissingDate)
    else if d == Unparsable then Some(InvalidDate)
    else if IsPast(d, today) then Some(PastDate)
    else None
  }

  /** The checks of `addTodo` on its trimmed text. */
  function NewTodoError(todos: seq<Todo>, text: string, d: DueDate, today: int): (r: Option<Reason>)
    ensures r == None <==>
      text != "" && |text| <= MaxTextLength && !TodoTextTaken(todos, text)
      && d != Empty && !IsPast(d, today)
  {
    if TextError(text) != None then TextError(text)
    else if TodoTextTaken(todos, text) then Some(DuplicateText)
    else AddDateError(d, today)
  }

  /** The checks of the edit-todo form; the todo being edited (by id) is not a duplicate of itself. */
  function EditTodoError(todos: seq<Todo>, id: string, text: string, d: DueDate, today: int): (r: Option<Reason>)
    ensures r == None <==>
      text != "" && |text| <= MaxTextLength && !OtherTodoTextTaken(todos, id, text)
      && d.Day? && d.day >= today
  {
    if TextError(text) != None then TextError(text)
    else if OtherTodoTextTaken(todos, id, text) then Some(DuplicateText)
    else DateError(d, today)
  }

  /** The checks of the add-subtask form; duplicates are sought in the parent only. */
  function NewSubtaskError(subtasks: seq<Subtask>, text: string, d: DueDate, today: int): (r: Option<Reason>)
    ensures r == None <==>
      text != "" && |text| <= MaxTextLength && !SubtaskTextTaken(subtasks, text)
      && d.Day? && d.day >= today
  {
    if TextError(text) != None then TextError(text)
    else if SubtaskTextTaken(subtasks, text) then Some(DuplicateText)
    else DateError(d, today)
  }

  /** The checks of the edit-subtask form; the subtask being edited (by id) is not a duplicate of itself. */
  function EditSubtaskError(subtasks: seq<Subtask>, id: string, text: string, d: DueDate, today: int): (r: Option<Reason>)
    ensures r == None <==>
      text != "" && |text| <= MaxTextLength && !OtherSubtaskTextTaken(subtasks, id, text)
      && d.Day? && d.day >= today
  {
    if TextError(text) != None then TextError(text)
    else if OtherSubtaskTextTaken(subtasks, id, text) then Some(DuplicateText)
    else DateError(d, today)
  }
}
