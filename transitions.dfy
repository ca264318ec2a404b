/**
 * Each store operation as a function from the old todo list to its outcome:
 * either the new list or the reason the operation was refused, in which case
 * the store keeps its old list. The operations open with the lookup the source
 * performs before showing its modal and continue with the modal's submit or
 * confirm callback.
 */
module Transitions {
  import opened Wrappers
  import opened Seqs
  import opened Text
  import opened TodoModel
  import opened Validation

  datatype Outcome = Done(todos: seq<Todo>) | Failed(reason: Reason)
  {
    /** The verdict alone: `None` on success. */
    function Error(): Option<Reason>
    {
      if Done? then None else Some(reason)
    }
  }

  /** `b` is `a` with at most position `i` replaced. */
  predicate SameExceptAt<T(==)>(a: seq<T>, b: seq<T>, i: nat)
  {
    |a| == |b| && i < |a| && forall j :: 0 <= j < |a| && j != i ==> a[j] == b[j]
  }

  /** The record `addTodo` appends. */
  function NewTodo(id: string, text: string, dueDate: DueDate): Todo
  {
    Todo(id, text, Pending, dueDate, [], false)
  }

  /** `addTodo`: append a pending todo with the trimmed text, or refuse. */
  function AddTodo(todos: seq<Todo>, id: string, input: string, dueDate: DueDate, today: int): (r: Outcome)
    ensures r.Error() == NewTodoError(todos, Trim(input), dueDate, today)
    ensures r.Done? ==> |r.todos| == |todos| + 1 && r.todos[..|todos|] == todos
    ensures r.Done? ==> r.todos[|todos|] == Todo(id, Trim(input), Pending, dueDate, [], false)
  {
    var text := Trim(input);
    match NewTodoError(todos, text, dueDate, today)
    case Some(e) => Failed(e)
    case None => Done(todos + [NewTodo(id, text, dueDate)])
  }

  /** The submit of the edit-todo modal: new trimmed text and due date for the first todo with `id`. */
  function EditTodo(todos: seq<Todo>, id: string, input: string, dueDate: DueDate, today: int): (r: Outcome)
    ensures FindTodo(todos, id).None? ==> r == Failed(TodoNotFound)
    ensures FindTodo(todos, id).Some? ==> r.Error() == EditTodoError(todos, id, Trim(input), dueDate, today)
    ensures r.Done? ==>
      var i := FindTodo(todos, id).value;
      SameExceptAt(todos, r.todos, i)
      && r.todos[i] == todos[i].(text := Trim(input), dueDate := dueDate)
  {
    match FindTodo(todos, id)
    case None => Failed(TodoNotFound)
    case Some(i) =>
      var text := Trim(input);
      match EditTodoError(todos, id, text, dueDate, today)
      case Some(e) => Failed(e)
      case None => Done(todos[i := todos[i].(text := text, dueDate := dueDate)])
  }

  /** `toggleTodoStatus`: flip the status of the first todo with `id`. */
  function ToggleTodo(todos: seq<Todo>, id: string): (r: Outcome)
    ensures r.Failed? <==> FindTodo(todos, id).None?
    ensures r.Failed? ==> r.reason == TodoNotFound
    ensures r.Done? ==>
      var i := FindTodo(todos, id).value;
      SameExceptAt(todos, r.todos, i)
      && r.todos[i] == todos[i].(status := Toggled(todos[i].status))
  {
    match FindTodo(todos, id)
    case None => Failed(TodoNotFound)
    case Some(i) => Done(todos[i := todos[i].(status := Toggled(todos[i].status))])
  }

  /** `updateTodoStatus`: set the status of the first todo with `id` to a known status. */
  function SetTodoStatus(todos: seq<Todo>, id: string, status: string): (r: Outcome)
    ensures r.Done? <==> FindTodo(todos, id).Some? && (status == Pending || status == Completed)
    ensures FindTodo(todos, id).None? ==> r == Failed(TodoNotFound)
    ensures FindTodo(todos, id).Some? && status != Pending && status != Completed ==> r == Failed(InvalidStatus)
    ensures r.Done? ==>
      var i := FindTodo(todos, id).value;
      SameExceptAt(todos, r.todos, i) && r.todos[i] == todos[i].(status := status)
  {
    match FindTodo(todos, id)
    case None => Failed(TodoNotFound)
    case Some(i) =>
      if status != Pending && status != Completed then Failed(InvalidStatus)
      else Done(todos[i := todos[i].(status := status)])
  }

  /** `toggleSubtaskExpand`: negate `expanded`, refused on a todo without subtasks. */
  function ToggleExpand(todos: seq<Todo>, id: string): (r: Outcome)
    ensures r.Done? <==> FindTodo(todos, id).Some? && todos[FindTodo(todos, id).value].subtasks != []
    ensures FindTodo(todos, id).None? ==> r == Failed(TodoNotFound)
    ensures FindTodo(todos, id).Some? && r.Failed? ==> r.reason == NoSubtasks
    ensures r.Done? ==>
      var i := FindTodo(todos, id).value;
      SameExceptAt(todos, r.todos, i) && r.todos[i] == todos[i].(expanded := !todos[i].expanded)
  {
    match FindTodo(todos, id)
    case None => Failed(TodoNotFound)
    case Some(i) =>
      if |todos[i].subtasks| == 0 then Failed(NoSubtasks)
      else Done(todos[i := todos[i].(expanded := !todos[i].expanded)])
  }

  /**
   * `addSubtask` and its submit: append a pending subtask to the first todo with
   * `todoId` and expand that todo. A null text is refused before anything else.
   */
  function AddSubtask(todos: seq<Todo>, todoId: string, subtaskId: string, input: Option<string>,
                      dueDate: DueDate, today: int): (r: Outcome)
    ensures FindTodo(todos, todoId).None? ==> r == Failed(TodoNotFound)
    ensures FindTodo(todos, todoId).Some? && input.None? ==> r == Failed(NoText)
    ensures FindTodo(todos, todoId).Some? && input.Some? ==>
      r.Error() == NewSubtaskError(todos[FindTodo(todos, todoId).value].subtasks, Trim(input.value), dueDate, today)
    ensures r.Done? ==>
      var i := FindTodo(todos, todoId).value;
      var subs := todos[i].subtasks;
      SameExceptAt(todos, r.todos, i)
      && r.todos[i].expanded
      && |r.todos[i].subtasks| == |subs| + 1 && r.todos[i].subtasks[..|subs|] == subs
      && r.todos[i].subtasks[|subs|] == Subtask(subtaskId, Trim(input.value), Pending, dueDate)
      && r.todos[i].(subtasks := subs, expanded := todos[i].expanded) == todos[i]
  {
    match FindTodo(todos, todoId)
    case None => Failed(TodoNotFound)
    case Some(i) =>
      if input.None? then Failed(NoText)
      else
        var text := Trim(input.value);
        var subs := todos[i].subtasks;
        match NewSubtaskError(subs, text, dueDate, today)
        case Some(e) => Failed(e)
        case None =>
          var added := subs + [Subtask(subtaskId, text, Pending, dueDate)];
          Done(todos[i := todos[i].(subtasks := added, expanded := true)])
  }

  /** `toggleSubtaskStatus`: flip the status of one subtask of the first todo with `todoId`. */
  function ToggleSubtask(todos: seq<Todo>, todoId: string, subtaskId: string): (r: Outcome)
    ensures FindTodo(todos, todoId).None? ==> r == Failed(TodoNotFound)
    ensures r.Done? <==>
      FindTodo(todos, todoId).Some? && FindSubtask(todos[FindTodo(todos, todoId).value].subtasks, subtaskId).Some?
    ensures FindTodo(todos, todoId).Some? && FindSubtask(todos[FindTodo(todos, todoId).value].subtasks, subtaskId).None? ==>
      r == Failed(SubtaskNotFound)
    ensures r.Done? ==>
      var i := FindTodo(todos, todoId).value;
      var subs := todos[i].subtasks;
      var k := FindSubtask(subs, subtaskId).value;
      SameExceptAt(todos, r.todos, i)
      && r.todos[i] == todos[i].(subtasks := subs[k := subs[k].(status := Toggled(subs[k].status))])
  {
    match FindTodo(todos, todoId)
    case None => Failed(TodoNotFound)
    case Some(i) =>
      var subs := todos[i].subtasks;
      match FindSubtask(subs, subtaskId)
      case None => Failed(SubtaskNotFound)
      case Some(k) =>
        var flipped := subs[k := subs[k].(status := Toggled(subs[k].status))];
        Done(todos[i := todos[i].(subtasks := flipped)])
  }

  /** `editSubtask` and its submit: new trimmed text and due date for one subtask. */
  function EditSubtask(todos: seq<Todo>, todoId: string, subtaskId: string, input: string,
                       dueDate: DueDate, today: int): (r: Outcome)
    ensures FindTodo(todos, todoId).None? ==> r == Failed(TodoNotFound)
    ensures r.Done? ==>
      FindTodo(todos, todoId).Some? && FindSubtask(todos[FindTodo(todos, todoId).value].subtasks, subtaskId).Some?
    ensures r.Done? ==>
      var i := FindTodo(todos, todoId).value;
      var subs := todos[i].subtasks;
      var k := FindSubtask(subs, subtaskId).value;
      SameExceptAt(todos, r.todos, i)
      && EditSubtaskError(subs, subtaskId, Trim(input), dueDate, today) == None
      && r.todos[i] == todos[i].(subtasks := subs[k := subs[k].(text := Trim(input), dueDate := dueDate)])
    ensures FindTodo(todos, todoId).Some? ==>
      var subs := todos[FindTodo(todos, todoId).value].subtasks;
      (FindSubtask(subs, subtaskId).None? ==> r == Failed(SubtaskNotFound))
      && (FindSubtask(subs, subtaskId).Some? ==>
            r.Error() == EditSubtaskError(subs, subtaskId, Trim(input), dueDate, today))
  {
    match FindTodo(todos, todoId)
    case None => Failed(TodoNotFound)
    case Some(i) =>
      var subs := todos[i].subtasks;
      match FindSubtask(subs, subtaskId)
      case None => Failed(SubtaskNotFound)
      case Some(k) =>
        var text := Trim(input);
        match EditSubtaskError(subs, subtaskId, text, dueDate, today)
        case Some(e) => Failed(e)
        case None =>
          var edited := subs[k := subs[k].(text := text, dueDate := dueDate)];
          Done(todos[i := todos[i].(subtasks := edited)])
  }

  /** `deleteSubtask` and its confirm: drop the subtasks with `subtaskId` from the first todo with `todoId`. */
  function DeleteSubtask(todos: seq<Todo>, todoId: string, subtaskId: string): (r: Outcome)
    ensures FindTodo(todos, todoId).None? ==> r == Failed(TodoNotFound)
    ensures r.Done? <==>
      FindTodo(todos, todoId).Some? && FindSubtask(todos[FindTodo(todos, todoId).value].subtasks, subtaskId).Some?
    ensures FindTodo(todos, todoId).Some? && FindSubtask(todos[FindTodo(todos, todoId).value].subtasks, subtaskId).None? ==>
      r == Failed(SubtaskNotFound)
    ensures r.Done? ==>
      var i := FindTodo(todos, todoId).value;
      SameExceptAt(todos, r.todos, i)
      && r.todos[i] == todos[i].(subtasks := r.todos[i].subtasks)
      && forall s :: s in r.todos[i].subtasks <==> s in todos[i].subtasks && s.id != subtaskId
  {
    match FindTodo(todos, todoId)
    case None => Failed(TodoNotFound)
    case Some(i) =>
      var subs := todos[i].subtasks;
      match FindSubtask(subs, subtaskId)
      case None => Failed(SubtaskNotFound)
      case Some(_) => Done(todos[i := todos[i].(subtasks := WithoutSubtask(subs, subtaskId))])
  }

  /** `deleteTodoById` and its confirm: drop every todo with `id`, with its subtasks. */
  function DeleteTodo(todos: seq<Todo>, id: string): (r: Outcome)
    ensures r.Failed? <==> FindTodo(todos, id).None?
    ensures r.Failed? ==> r.reason == TodoNotFound
    ensures r.Done? ==> |r.todos| < |todos|
    ensures r.Done? ==> forall t :: t in r.todos <==> t in todos && t.id != id
  {
    match FindTodo(todos, id)
    case None => Failed(TodoNotFound)
    case Some(i) =>
      FilterDrops(todos, (t: Todo) => t.id != id, i);
      Done(WithoutTodo(todos, id))
  }

  /** `deleteAllTodos` and its confirm: refused on an empty list, otherwise clears it. */
  function DeleteAll(todos: seq<Todo>): (r: Outcome)
    ensures r.Failed? <==> todos == []
    ensures r.Failed? ==> r.reason == NoTodos
    ensures r.Done? ==> r.todos == []
  {
    if |todos| == 0 then Failed(NoTodos) else Done([])
  }
}
