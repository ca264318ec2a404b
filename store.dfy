/**
 * The store object: the canonical todo list and the displayed list, with one
 * method per user operation. Each mutation validates, changes the canonical
 * list in place and re-renders (the displayed list becomes a copy of the
 * canonical list), or refuses and changes nothing. Each method is specified by
 * the matching function of `Transitions` or `Projections`.
 */
module Store {
  import opened Wrappers
  import opened Text
  import opened TodoModel
  import opened Validation
  import Transitions
  import Projections

  /** What the key-value blob store holds under the app's key on page load. */
  datatype Saved = NothingSaved | Unreadable | Stored(todos: seq<Todo>)

  class TodoStore {
    /** The canonical list, in insertion order. */
    var todos: seq<Todo>
    /** The list currently shown: the last projection, or a copy of `todos`. */
    var displayed: seq<Todo>

    constructor()
      ensures todos == [] && displayed == []
    {
      todos := [];
      displayed := [];
    }

    /** `initializeTodos`: load (an unreadable blob starts fresh), then render. */
    method Initialize(saved: Saved)
      modifies this
      ensures saved.NothingSaved? ==> todos == old(todos)
      ensures saved.Unreadable? ==> todos == []
      ensures saved.Stored? ==> todos == saved.todos
      ensures displayed == todos
    {
      match saved {
        case NothingSaved =>
        case Unreadable => todos := [];
        case Stored(ts) => todos := ts;
      }
      Render();
    }

    /** `renderTodos`: the displayed list is reset to the canonical list. */
    method Render()
      modifies this`displayed
      ensures displayed == todos
    {
      displayed := todos;
    }

    /** `addTodo`. */
    method AddTodo(id: string, input: string, dueDate: DueDate, today: int) returns (error: Option<Reason>)
      modifies this
      ensures var r := Transitions.AddTodo(old(todos), id, input, dueDate, today);
        error == r.Error()
        && (r.Done? ==> todos == r.todos && displayed == todos)
        && (r.Failed? ==> todos == old(todos) && displayed == old(displayed))
    {
      var text := Trim(input);
      error := NewTodoError(todos, text, dueDate, today);
      if error == None {
        todos := todos + [Transitions.NewTodo(id, text, dueDate)];
        Render();
      }
    }

    /** `editTodoItem` followed by its modal's submit. */
    method EditTodoItem(id: string, input: string, dueDate: DueDate, today: int) returns (error: Option<Reason>)
      modifies this
      ensures var r := Transitions.EditTodo(old(todos), id, input, dueDate, today);
        error == r.Error()
        && (r.Done? ==> todos == r.todos && displayed == todos)
        && (r.Failed? ==> todos == old(todos) && displayed == old(displayed))
    {
      var found := FindTodo(todos, id);
      if found.None? {
        return Some(TodoNotFound);
      }
      var i := found.value;
      var text := Trim(input);
      error := EditTodoError(todos, id, text, dueDate, today);
      if error == None {
        todos := todos[i := todos[i].(text := text, dueDate := dueDate)];
        Render();
      }
    }

    /** `toggleTodoStatus`; an unknown id is ignored without a message, hence the plain flag. */
    method ToggleTodoStatus(id: string) returns (found: bool)
      modifies this
      ensures var r := Transitions.ToggleTodo(old(todos), id);
        found == r.Done?
        && (r.Done? ==> todos == r.todos && displayed == todos)
        && (r.Failed? ==> todos == old(todos) && displayed == old(displayed))
    {
      var at := FindTodo(todos, id);
      found := at.Some?;
      if found {
        var i := at.value;
        todos := todos[i := todos[i].(status := Toggled(todos[i].status))];
        Render();
      }
    }

    /** `updateTodoStatus`. */
    method UpdateTodoStatus(id: string, status: string) returns (error: Option<Reason>)
      modifies this
      ensures var r := Transitions.SetTodoStatus(old(todos), id, status);
        error == r.Error()
        && (r.Done? ==> todos == r.todos && displayed == todos)
        && (r.Failed? ==> todos == old(todos) && displayed == old(displayed))
    {
      var found := FindTodo(todos, id);
      if found.None? {
        return Some(TodoNotFound);
      }
      if status != Pending && status != Completed {
        return Some(InvalidStatus);
      }
      var i := found.value;
      todos := todos[i := todos[i].(status := status)];
      Render();
      error := None;
    }

    /** `toggleSubtaskExpand`. */
    method ToggleSubtaskExpand(id: string) returns (error: Option<Reason>)
      modifies this
      ensures var r := Transitions.ToggleExpand(old(todos), id);
        error == r.Error()
        && (r.Done? ==> todos == r.todos && displayed == todos)
        && (r.Failed? ==> todos == old(todos) && displayed == old(displayed))
    {
      var found := FindTodo(todos, id);
      if found.None? {
        return Some(TodoNotFound);
      }
      var i := found.value;
      if |todos[i].subtasks| == 0 {
        return Some(NoSubtasks);
      }
      todos := todos[i := todos[i].(expanded := !todos[i].expanded)];
      Render();
      error := None;
    }

    /** `addSubtask` followed by its modal's submit; `input` is `None` for a null text. */
    method AddSubtask(todoId: string, subtaskId: string, input: Option<string>, dueDate: DueDate, today: int)
      returns (error: Option<Reason>)
      modifies this
      ensures var r := Transitions.AddSubtask(old(todos), todoId, subtaskId, input, dueDate, today);
        error == r.Error()
        && (r.Done? ==> todos == r.todos && displayed == todos)
        && (r.Failed? ==> todos == old(todos) && displayed == old(displayed))
    {
      var found := FindTodo(todos, todoId);
      if found.None? {
        return Some(TodoNotFound);
      }
      if input.None? {
        return Some(NoText);
      }
      var i := found.value;
      var text := Trim(input.value);
      error := NewSubtaskError(todos[i].subtasks, text, dueDate, today);
      if error == None {
        var added := todos[i].subtasks + [Subtask(subtaskId, text, Pending, dueDate)];
        todos := todos[i := todos[i].(subtasks := added)];
        todos := todos[i := todos[i].(expanded := true)];
        Render();
      }
    }

    /** `toggleSubtaskStatus`. */
    method ToggleSubtaskStatus(todoId: string, subtaskId: string) returns (error: Option<Reason>)
      modifies this
      ensures var r := Transitions.ToggleSubtask(old(todos), todoId, subtaskId);
        error == r.Error()
        && (r.Done? ==> todos == r.todos && displayed == todos)
        && (r.Failed? ==> todos == old(todos) && displayed == old(displayed))
    {
      var found := FindTodo(todos, todoId);
      if found.None? {
        return Some(TodoNotFound);
      }
      var i := found.value;
      var subs := todos[i].subtasks;
      var at := FindSubtask(subs, subtaskId);
      if at.None? {
        return Some(SubtaskNotFound);
      }
      var k := at.value;
      subs := subs[k := subs[k].(status := Toggled(subs[k].status))];
      todos := todos[i := todos[i].(subtasks := subs)];
      Render();
      error := None;
    }

    /** `editSubtask` followed by its modal's submit. */
    method EditSubtask(todoId: string, subtaskId: string, input: string, dueDate: DueDate, today: int)
      returns (error: Option<Reason>)
      modifies this
      ensures var r := Transitions.EditSubtask(old(todos), todoId, subtaskId, input, dueDate, today);
        error == r.Error()
        && (r.Done? ==> todos == r.todos && displayed == todos)
        && (r.Failed? ==> todos == old(todos) && displayed == old(displayed))
    {
      var found := FindTodo(todos, todoId);
      if found.None? {
        return Some(TodoNotFound);
      }
      var i := found.value;
      var subs := todos[i].subtasks;
      var at := FindSubtask(subs, subtaskId);
      if at.None? {
        return Some(SubtaskNotFound);
      }
      var k := at.value;
      var text := Trim(input);
      error := EditSubtaskError(subs, subtaskId, text, dueDate, today);
      if error == None {
        subs := subs[k := subs[k].(text := text, dueDate := dueDate)];
        todos := todos[i := todos[i].(subtasks := subs)];
        Render();
      }
    }

    /** `deleteSubtask` followed by the confirmation. */
    method DeleteSubtask(todoId: string, subtaskId: string) returns (error: Option<Reason>)
      modifies this
      ensures var r := Transitions.DeleteSubtask(old(todos), todoId, subtaskId);
        error == r.Error()
        && (r.Done? ==> todos == r.todos && displayed == todos)
        && (r.Failed? ==> todos == old(todos) && displayed == old(displayed))
    {
      var found := FindTodo(todos, todoId);
      if found.None? {
        return Some(TodoNotFound);
      }
      var i := found.value;
      if FindSubtask(todos[i].subtasks, subtaskId).None? {
        return Some(SubtaskNotFound);
      }
      todos := todos[i := todos[i].(subtasks := WithoutSubtask(todos[i].subtasks, subtaskId))];
      Render();
      error := None;
    }

    /** `deleteTodoById` followed by the confirmation. */
    method DeleteTodoById(id: string) returns (error: Option<Reason>)
      modifies this
      ensures var r := Transitions.DeleteTodo(old(todos), id);
        error == r.Error()
        && (r.Done? ==> todos == r.todos && displayed == todos)
        && (r.Failed? ==> todos == old(todos) && displayed == old(displayed))
    {
      if FindTodo(todos, id).None? {
        return Some(TodoNotFound);
      }
      todos := WithoutTodo(todos, id);
      Render();
      error := None;
    }

    /** `deleteAllTodos` followed by the confirmation. */
    method DeleteAllTodos() returns (error: Option<Reason>)
      modifies this
      ensures var r := Transitions.DeleteAll(old(todos));
        error == r.Error()
        && (r.Done? ==> todos == r.todos && displayed == todos)
        && (r.Failed? ==> todos == old(todos) && displayed == old(displayed))
    {
      if |todos| == 0 {
        return Some(NoTodos);
      }
      todos := [];
      Render();
      error := None;
    }

    /** `filterTodos`. */
    method FilterTodos(status: string)
      modifies this`displayed
      ensures displayed == Projections.FilterByStatus(todos, status)
    {
      displayed := Projections.FilterByStatus(todos, status);
    }

    /** `sortTodos`. */
    method SortTodos(order: Projections.SortOrder)
      modifies this`displayed
      ensures displayed == Projections.SortTodos(todos, order)
    {
      displayed := Projections.SortTodos(todos, order);
    }

    /** `searchTodos`: an empty term re-renders the canonical list. */
    method SearchTodos(raw: string)
      modifies this`displayed
      ensures displayed == Projections.Search(todos, raw)
    {
      var term := Projections.SearchTerm(raw);
      if term == "" {
        Render();
        return;
      }
      displayed := Projections.Matching(todos, term);
    }
  }
}
