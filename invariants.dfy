/**
 * The data-model invariants of the store and the proof that every operation,
 * started from a well-formed list, leaves a well-formed list behind; together
 * with the inverse and identity laws of the individual operations.
 */
module Invariants {
  import opened Wrappers
  import opened Text
  import opened TodoModel
  import opened Validation
  import opened Transitions

  /** A text as the store saves it: trimmed, non-empty, at most 100 characters. */
  predicate StoredText(s: string)
  {
    Trim(s) == s && s != "" && |s| <= MaxTextLength
  }

  predicate KnownStatus(s: string)
  {
    s == Pending || s == Completed
  }

  predicate SubtaskOk(s: Subtask)
  {
    StoredText(s.text) && KnownStatus(s.status)
  }

  /** Subtasks of one parent: each one well formed, ids distinct, texts distinct ignoring case. */
  predicate SubtasksWellFormed(subs: seq<Subtask>)
  {
    (forall k :: 0 <= k < |subs| ==> SubtaskOk(subs[k]))
    && (forall k, l :: 0 <= k < |subs| && 0 <= l < |subs| && k != l ==> subs[k].id != subs[l].id)
    && (forall k, l :: 0 <= k < |subs| && 0 <= l < |subs| && k != l ==> Lower(subs[k].text) != Lower(subs[l].text))
  }

  predicate TodoOk(t: Todo)
  {
    StoredText(t.text) && KnownStatus(t.status) && SubtasksWellFormed(t.subtasks)
  }

  /** The whole list: every todo well formed, ids distinct, texts distinct ignoring case. */
  predicate WellFormed(todos: seq<Todo>)
  {
    (forall i :: 0 <= i < |todos| ==> TodoOk(todos[i]))
    && (forall i, j :: 0 <= i < |todos| && 0 <= j < |todos| && i != j ==> todos[i].id != todos[j].id)
    && (forall i, j :: 0 <= i < |todos| && 0 <= j < |todos| && i != j ==> Lower(todos[i].text) != Lower(todos[j].text))
  }

  /** The outcome keeps the list well formed (a refusal trivially does). */
  predicate KeepsWellFormed(r: Outcome)
  {
    r.Done? ==> WellFormed(r.todos)
  }

  // ---------------------------------------------------------------- replacing and removing one record

  /** Replacing one todo by a well-formed one with the same id and a text no other todo has. */
  lemma ReplaceTodo(todos: seq<Todo>, i: nat, x: Todo)
    requires WellFormed(todos) && i < |todos| && TodoOk(x) && x.id == todos[i].id
    requires forall j :: 0 <= j < |todos| && j != i ==> Lower(todos[j].text) != Lower(x.text)
    ensures WellFormed(todos[i := x])
  {
  }

  /** Replacing one subtask by a well-formed one with the same id and a text no sibling has. */
  lemma ReplaceSubtask(subs: seq<Subtask>, k: nat, y: Subtask)
    requires SubtasksWellFormed(subs) && k < |subs| && SubtaskOk(y) && y.id == subs[k].id
    requires forall l :: 0 <= l < |subs| && l != k ==> Lower(subs[l].text) != Lower(y.text)
    ensures SubtasksWellFormed(subs[k := y])
  {
  }

  /** Appending a well-formed todo whose id and text no todo has. */
  lemma AppendTodo(todos: seq<Todo>, x: Todo)
    requires WellFormed(todos) && TodoOk(x)
    requires forall j :: 0 <= j < |todos| ==> todos[j].id != x.id && Lower(todos[j].text) != Lower(x.text)
    ensures WellFormed(todos + [x])
  {
    var r := todos + [x];
    var n := |todos|;
    assert forall j :: 0 <= j < n ==> r[j] == todos[j];
    assert r[n] == x;
    forall i, j | 0 <= i < |r| && 0 <= j < |r| && i != j
      ensures r[i].id != r[j].id && Lower(r[i].text) != Lower(r[j].text)
    {
      if i == n {
        assert r[j] == todos[j];
      } else if j == n {
        assert r[i] == todos[i];
      } else {
        assert r[i] == todos[i] && r[j] == todos[j];
      }
    }
  }

  /** Appending a well-formed subtask whose id and text no sibling has. */
  lemma AppendSubtask(subs: seq<Subtask>, y: Subtask)
    requires SubtasksWellFormed(subs) && SubtaskOk(y)
    requires forall l :: 0 <= l < |subs| ==> subs[l].id != y.id && Lower(subs[l].text) != Lower(y.text)
    ensures SubtasksWellFormed(subs + [y])
  {
    var r := subs + [y];
    var n := |subs|;
    assert forall l :: 0 <= l < n ==> r[l] == subs[l];
    assert r[n] == y;
    forall k, l | 0 <= k < |r| && 0 <= l < |r| && k != l
      ensures r[k].id != r[l].id && Lower(r[k].text) != Lower(r[l].text)
    {
      if k == n {
        assert r[l] == subs[l];
      } else if l == n {
        assert r[k] == subs[k];
      } else {
        assert r[k] == subs[k] && r[l] == subs[l];
      }
    }
  }

  lemma RemoveTodo(todos: seq<Todo>, i: nat)
    requires WellFormed(todos) && i < |todos|
    ensures WellFormed(todos[..i] + todos[i + 1..])
  {
    var kept := todos[..i] + todos[i + 1..];
    forall j | 0 <= j < |kept| ensures kept[j] == todos[if j < i then j else j + 1] {
    }
    forall j, l | 0 <= j < |kept| && 0 <= l < |kept| && j != l
      ensures kept[j].id != kept[l].id
    {
      assert kept[j] == todos[if j < i then j else j + 1];
      assert kept[l] == todos[if l < i then l else l + 1];
    }
    forall j, l | 0 <= j < |kept| && 0 <= l < |kept| && j != l
      ensures Lower(kept[j].text) != Lower(kept[l].text)
    {
      assert kept[j] == todos[if j < i then j else j + 1];
      assert kept[l] == todos[if l < i then l else l + 1];
    }
  }

  lemma RemoveSubtask(subs: seq<Subtask>, k: nat)
    requires SubtasksWellFormed(subs) && k < |subs|
    ensures SubtasksWellFormed(subs[..k] + subs[k + 1..])
  {
    var kept := subs[..k] + subs[k + 1..];
    forall l | 0 <= l < |kept| ensures kept[l] == subs[if l < k then l else l + 1] {
    }
    forall l, m | 0 <= l < |kept| && 0 <= m < |kept| && l != m
      ensures kept[l].id != kept[m].id
    {
      assert kept[l] == subs[if l < k then l else l + 1];
      assert kept[m] == subs[if m < k then m else m + 1];
    }
    forall l, m | 0 <= l < |kept| && 0 <= m < |kept| && l != m
      ensures Lower(kept[l].text) != Lower(kept[m].text)
    {
      assert kept[l] == subs[if l < k then l else l + 1];
      assert kept[m] == subs[if m < k then m else m + 1];
    }
  }

  // ---------------------------------------------------------------- preservation

  lemma AddTodoKeepsWellFormed(todos: seq<Todo>, id: string, input: string, dueDate: DueDate, today: int)
    requires WellFormed(todos)
    requires forall i :: 0 <= i < |todos| ==> todos[i].id != id
    ensures KeepsWellFormed(AddTodo(todos, id, input, dueDate, today))
  {
    if NewTodoError(todos, Trim(input), dueDate, today) == None {
      TrimIdempotent(input);
      assert !TodoTextTaken(todos, Trim(input));
      AppendTodo(todos, NewTodo(id, Trim(input), dueDate));
    }
  }

  lemma EditTodoKeepsWellFormed(todos: seq<Todo>, id: string, input: string, dueDate: DueDate, today: int)
    requires WellFormed(todos)
    ensures KeepsWellFormed(EditTodo(todos, id, input, dueDate, today))
  {
    var r := EditTodo(todos, id, input, dueDate, today);
    if r.Done? {
      TrimIdempotent(input);
      var i := FindTodo(todos, id).value;
      var x := todos[i].(text := Trim(input), dueDate := dueDate);
      assert !OtherTodoTextTaken(todos, id, Trim(input));
      forall j | 0 <= j < |todos| && j != i
        ensures Lower(todos[j].text) != Lower(x.text)
      {
        assert todos[j].id != id;
      }
      ReplaceTodo(todos, i, x);
      assert r.todos == todos[i := x];
    }
  }

  lemma ToggleTodoKeepsWellFormed(todos: seq<Todo>, id: string)
    requires WellFormed(todos)
    ensures KeepsWellFormed(ToggleTodo(todos, id))
  {
    var r := ToggleTodo(todos, id);
    if r.Done? {
      var i := FindTodo(todos, id).value;
      ReplaceTodo(todos, i, todos[i].(status := Toggled(todos[i].status)));
    }
  }

  lemma SetTodoStatusKeepsWellFormed(todos: seq<Todo>, id: string, status: string)
    requires WellFormed(todos)
    ensures KeepsWellFormed(SetTodoStatus(todos, id, status))
  {
    var r := SetTodoStatus(todos, id, status);
    if r.Done? {
      var i := FindTodo(todos, id).value;
      ReplaceTodo(todos, i, todos[i].(status := status));
    }
  }

  lemma ToggleExpandKeepsWellFormed(todos: seq<Todo>, id: string)
    requires WellFormed(todos)
    ensures KeepsWellFormed(ToggleExpand(todos, id))
  {
    var r := ToggleExpand(todos, id);
    if r.Done? {
      var i := FindTodo(todos, id).value;
      ReplaceTodo(todos, i, todos[i].(expanded := !todos[i].expanded));
    }
  }

  lemma AddSubtaskKeepsWellFormed(todos: seq<Todo>, todoId: string, subtaskId: string, input: Option<string>,
                                  dueDate: DueDate, today: int)
    requires WellFormed(todos)
    requires forall i, k :: 0 <= i < |todos| && 0 <= k < |todos[i].subtasks| ==> todos[i].subtasks[k].id != subtaskId
    ensures KeepsWellFormed(AddSubtask(todos, todoId, subtaskId, input, dueDate, today))
  {
    var r := AddSubtask(todos, todoId, subtaskId, input, dueDate, today);
    if r.Done? {
      TrimIdempotent(input.value);
      var i := FindTodo(todos, todoId).value;
      var subs := todos[i].subtasks;
      var y := Subtask(subtaskId, Trim(input.value), Pending, dueDate);
      assert !SubtaskTextTaken(subs, Trim(input.value));
      AppendSubtask(subs, y);
      ReplaceTodo(todos, i, todos[i].(subtasks := subs + [y], expanded := true));
      assert r.todos == todos[i := todos[i].(subtasks := subs + [y], expanded := true)];
    }
  }

  lemma ToggleSubtaskKeepsWellFormed(todos: seq<Todo>, todoId: string, subtaskId: string)
    requires WellFormed(todos)
    ensures KeepsWellFormed(ToggleSubtask(todos, todoId, subtaskId))
  {
    var r := ToggleSubtask(todos, todoId, subtaskId);
    if r.Done? {
      var i := FindTodo(todos, todoId).value;
      var subs := todos[i].subtasks;
      var k := FindSubtask(subs, subtaskId).value;
      var flipped := subs[k := subs[k].(status := Toggled(subs[k].status))];
      ReplaceSubtask(subs, k, subs[k].(status := Toggled(subs[k].status)));
      ReplaceTodo(todos, i, todos[i].(subtasks := flipped));
    }
  }

  lemma EditSubtaskKeepsWellFormed(todos: seq<Todo>, todoId: string, subtaskId: string, input: string,
                                   dueDate: DueDate, today: int)
    requires WellFormed(todos)
    ensures KeepsWellFormed(EditSubtask(todos, todoId, subtaskId, input, dueDate, today))
  {
    var r := EditSubtask(todos, todoId, subtaskId, input, dueDate, today);
    if r.Done? {
      TrimIdempotent(input);
      var i := FindTodo(todos, todoId).value;
      var subs := todos[i].subtasks;
      var k := FindSubtask(subs, subtaskId).value;
      var y := subs[k].(text := Trim(input), dueDate := dueDate);
      assert !OtherSubtaskTextTaken(subs, subtaskId, Trim(input));
      forall l | 0 <= l < |subs| && l != k
        ensures Lower(subs[l].text) != Lower(y.text)
      {
        assert subs[l].id != subtaskId;
      }
      ReplaceSubtask(subs, k, y);
      ReplaceTodo(todos, i, todos[i].(subtasks := subs[k := y]));
      assert r.todos == todos[i := todos[i].(subtasks := subs[k := y])];
    }
  }

  lemma DeleteSubtaskKeepsWellFormed(todos: seq<Todo>, todoId: string, subtaskId: string)
    requires WellFormed(todos)
    ensures KeepsWellFormed(DeleteSubtask(todos, todoId, subtaskId))
  {
    var r := DeleteSubtask(todos, todoId, subtaskId);
    if r.Done? {
      var i := FindTodo(todos, todoId).value;
      var subs := todos[i].subtasks;
      var k := FindSubtask(subs, subtaskId).value;
      WithoutUniqueSubtask(subs, subtaskId, k);
      RemoveSubtask(subs, k);
      ReplaceTodo(todos, i, todos[i].(subtasks := subs[..k] + subs[k + 1..]));
      assert r.todos == todos[i := todos[i].(subtasks := subs[..k] + subs[k + 1..])];
    }
  }

  lemma DeleteTodoKeepsWellFormed(todos: seq<Todo>, id: string)
    requires WellFormed(todos)
    ensures KeepsWellFormed(DeleteTodo(todos, id))
  {
    var r := DeleteTodo(todos, id);
    if r.Done? {
      var i := FindTodo(todos, id).value;
      WithoutUniqueTodo(todos, id, i);
      RemoveTodo(todos, i);
    }
  }

  lemma DeleteAllKeepsWellFormed(todos: seq<Todo>)
    ensures KeepsWellFormed(DeleteAll(todos))
  {
  }

  // ---------------------------------------------------------------- single-operation laws

  /** Deleting by id in a well-formed list removes exactly the one todo, keeping the order of the rest. */
  lemma DeleteTodoRemovesExactlyOne(todos: seq<Todo>, id: string)
    requires WellFormed(todos) && FindTodo(todos, id).Some?
    ensures var i := FindTodo(todos, id).value;
      DeleteTodo(todos, id) == Done(todos[..i] + todos[i + 1..])
  {
    WithoutUniqueTodo(todos, id, FindTodo(todos, id).value);
  }

  /** Deleting a subtask of a well-formed list removes exactly that subtask from its parent. */
  lemma DeleteSubtaskRemovesExactlyOne(todos: seq<Todo>, todoId: string, subtaskId: string)
    requires WellFormed(todos) && DeleteSubtask(todos, todoId, subtaskId).Done?
    ensures var i := FindTodo(todos, todoId).value;
      var subs := todos[i].subtasks;
      var k := FindSubtask(subs, subtaskId).value;
      DeleteSubtask(todos, todoId, subtaskId).todos == todos[i := todos[i].(subtasks := subs[..k] + subs[k + 1..])]
  {
    var i := FindTodo(todos, todoId).value;
    var subs := todos[i].subtasks;
    var k := FindSubtask(subs, subtaskId).value;
    assert SubtasksWellFormed(subs) by {
      assert TodoOk(todos[i]);
    }
    WithoutUniqueSubtask(subs, subtaskId, k);
  }

  /** Toggling a todo twice restores the list. */
  lemma ToggleTodoTwice(todos: seq<Todo>, id: string)
    requires FindTodo(todos, id).Some?
    requires KnownStatus(todos[FindTodo(todos, id).value].status)
    ensures ToggleTodo(todos, id).Done?
    ensures ToggleTodo(ToggleTodo(todos, id).todos, id) == Done(todos)
  {
    var i := FindTodo(todos, id).value;
    var once := ToggleTodo(todos, id).todos;
    assert FindTodo(once, id) == Some(i) by {
      assert once[i].id == id;
      assert forall j :: 0 <= j < i ==> once[j] == todos[j];
    }
    assert ToggleTodo(once, id).todos == todos;
  }

  /** Toggling a subtask twice restores the list. */
  lemma ToggleSubtaskTwice(todos: seq<Todo>, todoId: string, subtaskId: string)
    requires ToggleSubtask(todos, todoId, subtaskId).Done?
    requires var subs := todos[FindTodo(todos, todoId).value].subtasks;
      KnownStatus(subs[FindSubtask(subs, subtaskId).value].status)
    ensures ToggleSubtask(ToggleSubtask(todos, todoId, subtaskId).todos, todoId, subtaskId) == Done(todos)
  {
    var i := FindTodo(todos, todoId).value;
    var subs := todos[i].subtasks;
    var k := FindSubtask(subs, subtaskId).value;
    var once := ToggleSubtask(todos, todoId, subtaskId).todos;
    assert FindTodo(once, todoId) == Some(i) by {
      assert once[i].id == todoId;
      assert forall j :: 0 <= j < i ==> once[j] == todos[j];
    }
    var subs' := once[i].subtasks;
    assert FindSubtask(subs', subtaskId) == Some(k) by {
      assert subs'[k].id == subtaskId;
      assert forall j :: 0 <= j < k ==> subs'[j] == subs[j];
    }
    assert subs'[k := subs'[k].(status := Toggled(subs'[k].status))] == subs;
    assert ToggleSubtask(once, todoId, subtaskId).todos == todos;
  }

  /** Expanding and collapsing restores the list. */
  lemma ToggleExpandTwice(todos: seq<Todo>, id: string)
    requires ToggleExpand(todos, id).Done?
    ensures ToggleExpand(ToggleExpand(todos, id).todos, id) == Done(todos)
  {
    var i := FindTodo(todos, id).value;
    var once := ToggleExpand(todos, id).todos;
    assert FindTodo(once, id) == Some(i) by {
      assert once[i].id == id;
      assert forall j :: 0 <= j < i ==> once[j] == todos[j];
    }
    assert once[i := once[i].(expanded := !once[i].expanded)] == todos;
  }

  /** Saving a todo's own text again, with a valid date, is accepted: the duplicate test skips the todo itself. */
  lemma EditTodoKeepsOwnText(todos: seq<Todo>, id: string, dueDate: DueDate, today: int)
    requires WellFormed(todos) && FindTodo(todos, id).Some?
    requires dueDate.Day? && dueDate.day >= today
    ensures var i := FindTodo(todos, id).value;
      EditTodo(todos, id, todos[i].text, dueDate, today)
        == Done(todos[i := todos[i].(dueDate := dueDate)])
  {
    var i := FindTodo(todos, id).value;
    var text := todos[i].text;
    forall j | 0 <= j < |todos| && todos[j].id != id
      ensures Lower(todos[j].text) != Lower(text)
    {
      assert j != i;
    }
    assert !OtherTodoTextTaken(todos, id, text);
  }

  /** Saving a subtask's own text again, with a valid date, is accepted. */
  lemma EditSubtaskKeepsOwnText(todos: seq<Todo>, todoId: string, subtaskId: string, dueDate: DueDate, today: int)
    requires WellFormed(todos) && FindTodo(todos, todoId).Some?
    requires FindSubtask(todos[FindTodo(todos, todoId).value].subtasks, subtaskId).Some?
    requires dueDate.Day? && dueDate.day >= today
    ensures var i := FindTodo(todos, todoId).value;
      var subs := todos[i].subtasks;
      var k := FindSubtask(subs, subtaskId).value;
      EditSubtask(todos, todoId, subtaskId, subs[k].text, dueDate, today)
        == Done(todos[i := todos[i].(subtasks := subs[k := subs[k].(dueDate := dueDate)])])
  {
    var i := FindTodo(todos, todoId).value;
    var subs := todos[i].subtasks;
    var k := FindSubtask(subs, subtaskId).value;
    var text := subs[k].text;
    forall l | 0 <= l < |subs| && subs[l].id != subtaskId
      ensures Lower(subs[l].text) != Lower(text)
    {
      assert l != k;
    }
    assert !OtherSubtaskTextTaken(subs, subtaskId, text);
  }
}
