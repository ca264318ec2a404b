/**
 * The records of the todo store: a todo with its ordered subtasks, the status
 * strings, the due-date field, and the lookups by id that every operation starts with.
 */
module TodoModel {
  import opened Wrappers
  import opened Seqs

  /** The two status strings the store writes. */
  const Pending: string := "pending"
  const Completed: string := "completed"

  /** Longest accepted (trimmed) text of a todo or subtask. */
  const MaxTextLength: nat := 100

  /**
   * A due-date field as the date input delivers it, with the parse folded in:
   * `Empty` is the empty string, `Blank` a non-empty whitespace-only string,
   * `Unparsable` a string `new Date` turns into an invalid date, and `Day(n)`
   * a calendar day, counted in days since 1970-01-01.
   */
  datatype DueDate = Empty | Blank | Unparsable | Day(day: int)

  datatype Subtask = Subtask(id: string, text: string, status: string, dueDate: DueDate)

  datatype Todo = Todo(
    id: string,
    text: string,
    status: string,
    dueDate: DueDate,
    subtasks: seq<Subtask>,
    expanded: bool)

  /** Why an operation was refused; `NoText` is the null modal text, refused silently. */
  datatype Reason =
    | NoText
    | EmptyText
    | TextTooLong
    | DuplicateText
    | MissingDate
    | InvalidDate
    | PastDate
    | InvalidStatus
    | TodoNotFound
    | SubtaskNotFound
    | NoSubtasks
    | NoTodos

  /** The status after a toggle: "pending" becomes "completed", anything else "pending". */
  function Toggled(status: string): (r: string)
    ensures r == Pending || r == Completed
    ensures r == Completed <==> status == Pending
  {
    if status == Pending then Completed else Pending
  }

  /** `todos.find(t => t.id === id)`: the first todo carrying `id`. */
  function FindTodo(todos: seq<Todo>, id: string): (r: Option<nat>)
    ensures r.Some? ==> r.value < |todos| && todos[r.value].id == id
    ensures r.Some? ==> forall j :: 0 <= j < r.value ==> todos[j].id != id
    ensures r.None? <==> forall j :: 0 <= j < |todos| ==> todos[j].id != id
  {
    FirstIndex(todos, (t: Todo) => t.id == id)
  }

  /** `todo.subtasks.find(s => s.id === id)`: the first subtask carrying `id`. */
  function FindSubtask(subtasks: seq<Subtask>, id: string): (r: Option<nat>)
    ensures r.Some? ==> r.value < |subtasks| && subtasks[r.value].id == id
    ensures r.Some? ==> forall j :: 0 <= j < r.value ==> subtasks[j].id != id
    ensures r.None? <==> forall j :: 0 <= j < |subtasks| ==> subtasks[j].id != id
  {
    FirstIndex(subtasks, (s: Subtask) => s.id == id)
  }

  /** `todos.filter(t => t.id !== id)`: every todo carrying `id` is dropped. */
  function WithoutTodo(todos: seq<Todo>, id: string): (r: seq<Todo>)
    ensures forall t :: t in r <==> t in todos && t.id != id
  {
    FilterMembers(todos, (t: Todo) => t.id != id);
    Filter(todos, (t: Todo) => t.id != id)
  }

  /** `subtasks.filter(s => s.id !== id)`: every subtask carrying `id` is dropped. */
  function WithoutSubtask(subtasks: seq<Subtask>, id: string): (r: seq<Subtask>)
    ensures forall s :: s in r <==> s in subtasks && s.id != id
  {
    FilterMembers(subtasks, (s: Subtask) => s.id != id);
    Filter(subtasks, (s: Subtask) => s.id != id)
  }

  /** When only the todo at `i` carries `id`, deleting by id removes exactly that todo. */
  lemma WithoutUniqueTodo(todos: seq<Todo>, id: string, i: nat)
    requires i < |todos| && todos[i].id == id
    requires forall j :: 0 <= j < |todos| && j != i ==> todos[j].id != id
    ensures WithoutTodo(todos, id) == todos[..i] + todos[i + 1..]
  {
    FilterRemovesOne(todos, (t: Todo) => t.id != id, i);
  }

  /** When only the subtask at `k` carries `id`, deleting by id removes exactly that subtask. */
  lemma WithoutUniqueSubtask(subtasks: seq<Subtask>, id: string, k: nat)
    requires k < |subtasks| && subtasks[k].id == id
    requires forall j :: 0 <= j < |subtasks| && j != k ==> subtasks[j].id != id
    ensures WithoutSubtask(subtasks, id) == subtasks[..k] + subtasks[k + 1..]
  {
    FilterRemovesOne(subtasks, (s: Subtask) => s.id != id, k);
  }
}
