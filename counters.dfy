/**
 * The progress counters: todos and subtasks count as equal units, and the
 * percentage is the completed share rounded to the nearest whole percent.
 */
module Counters {
  import opened Seqs
  import opened TodoModel
  import opened Transitions
  import opened Invariants

  predicate TodoCompleted(t: Todo)
  {
    t.status == Completed
  }

  predicate SubtaskCompleted(s: Subtask)
  {
    s.status == Completed
  }

  /** `(t.subtasks && t.subtasks.length) || 0` */
  function SubtaskCount(t: Todo): nat
  {
    |t.subtasks|
  }

  /** `t.subtasks.filter(s => s.status === 'completed').length` */
  function CompletedSubtaskCount(t: Todo): nat
  {
    |Filter(t.subtasks, SubtaskCompleted)|
  }

  /** Number of todos plus number of subtasks of all todos. */
  function TotalUnits(todos: seq<Todo>): (n: nat)
    ensures |todos| <= n
    ensures forall i :: 0 <= i < |todos| ==> 1 + |todos[i].subtasks| <= n
  {
    forall i | 0 <= i < |todos|
      ensures SubtaskCount(todos[i]) <= SumOf(todos, SubtaskCount)
    {
      SumBound(todos, SubtaskCount, i);
    }
    |todos| + SumOf(todos, SubtaskCount)
  }

  /** Completed todos plus completed subtasks of all todos. */
  function CompletedUnits(todos: seq<Todo>): nat
  {
    |Filter(todos, TodoCompleted)| + SumOf(todos, CompletedSubtaskCount)
  }

  /** No more units are completed than exist. */
  lemma CompletedWithinTotal(todos: seq<Todo>)
    ensures CompletedUnits(todos) <= TotalUnits(todos)
  {
    SumMonotone(todos, CompletedSubtaskCount, SubtaskCount);
  }

  /**
   * `Math.round(completed / total * 100)`, 0 for an empty store, in integer
   * arithmetic: the nearest whole percent, halves rounded up.
   */
  function Percentage(completed: nat, total: nat): (p: nat)
    ensures total == 0 ==> p == 0
    ensures total > 0 ==> 200 * completed - total < 2 * p * total <= 200 * completed + total
    ensures completed <= total ==> p <= 100
  {
    if total == 0 then 0
    else
      var p := (200 * completed + total) / (2 * total);
      PercentageBounds(completed, total, p);
      p
  }

  /** The quotient (200c + t) div 2t lies within half a unit of 100c / t. */
  lemma PercentageBounds(completed: nat, total: nat, p: nat)
    requires total > 0 && p == (200 * completed + total) / (2 * total)
    ensures 200 * completed - total < 2 * p * total <= 200 * completed + total
    ensures completed <= total ==> p <= 100
  {
    var n, d := 200 * completed + total, 2 * total;
    var q := p * d;
    assert n - d < q <= n by {
      DivisionBounds(n, d, p);
    }
    assert 2 * p * total == q by {
      MulShift(p, total);
    }
    if completed <= total {
      assert q < 101 * d;
      MulCancel(p, 101, d);
    }
  }

  lemma DivisionBounds(n: nat, d: nat, p: nat)
    requires d > 0 && p == n / d
    ensures n - d < p * d <= n
  {
    assert n == p * d + n % d;
  }

  lemma MulShift(p: int, t: int)
    ensures 2 * p * t == p * (2 * t)
  {
  }

  lemma MulCancel(a: int, b: int, d: int)
    requires d > 0 && a * d < b * d
    ensures a < b
  {
  }

  datatype Stats = Stats(total: nat, completed: nat, pending: nat, percentage: nat)

  /** `updateCounters`: what the counters and the progress bar show. */
  function Counters(todos: seq<Todo>): (s: Stats)
    ensures s.total == |todos| + SumOf(todos, SubtaskCount)
    ensures s.completed == |Filter(todos, TodoCompleted)| + SumOf(todos, CompletedSubtaskCount)
    ensures s.completed <= s.total && s.pending == s.total - s.completed
    ensures s.percentage <= 100
    ensures s.total == 0 ==> s.percentage == 0
    ensures s.total > 0 ==> 200 * s.completed - s.total < 2 * s.percentage * s.total <= 200 * s.completed + s.total
  {
    var total := TotalUnits(todos);
    var completed := CompletedUnits(todos);
    CompletedWithinTotal(todos);
    Stats(total, completed, total - completed, Percentage(completed, total))
  }

  /** Two todos, one completed, each with one pending subtask: 4 units, 1 completed, 3 pending, 25%. */
  lemma CountersExample(a: Todo, b: Todo)
    requires a.status == Completed && b.status == Pending
    requires |a.subtasks| == 1 && |b.subtasks| == 1
    requires a.subtasks[0].status == Pending && b.subtasks[0].status == Pending
    ensures Counters([a, b]) == Stats(4, 1, 3, 25)
  {
    assert Filter([a, b], TodoCompleted) == [a] by {
      assert [a, b][1..] == [b];
      assert Filter([b], TodoCompleted) == [] by {
        assert [b][1..] == [];
      }
    }
    assert CompletedSubtaskCount(a) == 0 && CompletedSubtaskCount(b) == 0 by {
      assert a.subtasks[1..] == [] && b.subtasks[1..] == [];
    }
    assert [a, b][1..] == [b] && [b][1..] == [];
    assert SumOf([b], SubtaskCount) == 1 + SumOf([], SubtaskCount);
    assert SumOf([b], CompletedSubtaskCount) == 0 + SumOf([], CompletedSubtaskCount);
    assert Percentage(1, 4) == 25;
  }

  // ---------------------------------------------------------------- effect of the operations

  /** A successful `addTodo` adds one unit, not completed. */
  lemma AddTodoCounts(todos: seq<Todo>, id: string, input: string, dueDate: DueDate, today: int)
    requires AddTodo(todos, id, input, dueDate, today).Done?
    ensures var after := AddTodo(todos, id, input, dueDate, today).todos;
      TotalUnits(after) == TotalUnits(todos) + 1 && CompletedUnits(after) == CompletedUnits(todos)
  {
    var x := NewTodo(id, Text.Trim(input), dueDate);
    SumConcat(todos, [x], SubtaskCount);
    SumConcat(todos, [x], CompletedSubtaskCount);
    FilterConcat(todos, [x], TodoCompleted);
  }

  /** A successful `addSubtask` adds one unit, not completed. */
  lemma AddSubtaskCounts(todos: seq<Todo>, todoId: string, subtaskId: string, input: Wrappers.Option<string>,
                         dueDate: DueDate, today: int)
    requires AddSubtask(todos, todoId, subtaskId, input, dueDate, today).Done?
    ensures var after := AddSubtask(todos, todoId, subtaskId, input, dueDate, today).todos;
      TotalUnits(after) == TotalUnits(todos) + 1 && CompletedUnits(after) == CompletedUnits(todos)
  {
    var i := FindTodo(todos, todoId).value;
    var subs := todos[i].subtasks;
    var y := Subtask(subtaskId, Text.Trim(input.value), Pending, dueDate);
    var x := todos[i].(subtasks := subs + [y], expanded := true);
    SumUpdate(todos, i, x, SubtaskCount);
    SumUpdate(todos, i, x, CompletedSubtaskCount);
    FilterUpdate(todos, i, x, TodoCompleted);
    FilterConcat(subs, [y], SubtaskCompleted);
  }

  /** Toggling a pending todo completes one more unit; toggling a completed one, one fewer. */
  lemma ToggleTodoCounts(todos: seq<Todo>, id: string)
    requires FindTodo(todos, id).Some?
    ensures var before := todos[FindTodo(todos, id).value].status;
      var after := ToggleTodo(todos, id).todos;
      TotalUnits(after) == TotalUnits(todos)
      && (before == Pending ==> CompletedUnits(after) == CompletedUnits(todos) + 1)
      && (before == Completed ==> CompletedUnits(after) + 1 == CompletedUnits(todos))
  {
    var i := FindTodo(todos, id).value;
    var x := todos[i].(status := Toggled(todos[i].status));
    SumUpdate(todos, i, x, SubtaskCount);
    SumUpdate(todos, i, x, CompletedSubtaskCount);
    FilterUpdate(todos, i, x, TodoCompleted);
  }

  /** Toggling a pending subtask completes one more unit; toggling a completed one, one fewer. */
  lemma ToggleSubtaskCounts(todos: seq<Todo>, todoId: string, subtaskId: string)
    requires ToggleSubtask(todos, todoId, subtaskId).Done?
    ensures var subs := todos[FindTodo(todos, todoId).value].subtasks;
      var before := subs[FindSubtask(subs, subtaskId).value].status;
      var after := ToggleSubtask(todos, todoId, subtaskId).todos;
      TotalUnits(after) == TotalUnits(todos)
      && (before == Pending ==> CompletedUnits(after) == CompletedUnits(todos) + 1)
      && (before == Completed ==> CompletedUnits(after) + 1 == CompletedUnits(todos))
  {
    var i := FindTodo(todos, todoId).value;
    var subs := todos[i].subtasks;
    var k := FindSubtask(subs, subtaskId).value;
    var flipped := subs[k := subs[k].(status := Toggled(subs[k].status))];
    var x := todos[i].(subtasks := flipped);
    SumUpdate(todos, i, x, SubtaskCount);
    SumUpdate(todos, i, x, CompletedSubtaskCount);
    FilterUpdate(todos, i, x, TodoCompleted);
    FilterUpdate(subs, k, flipped[k], SubtaskCompleted);
  }

  /**
   * Deleting a todo of a well-formed list removes it and all its subtasks from
   * the counts: the total drops by one plus its number of subtasks.
   */
  lemma DeleteTodoCounts(todos: seq<Todo>, id: string)
    requires WellFormed(todos) && FindTodo(todos, id).Some?
    ensures var t := todos[FindTodo(todos, id).value];
      var after := DeleteTodo(todos, id).todos;
      TotalUnits(after) + 1 + |t.subtasks| == TotalUnits(todos)
      && CompletedUnits(after) + (if t.status == Completed then 1 else 0) + CompletedSubtaskCount(t)
         == CompletedUnits(todos)
  {
    var i := FindTodo(todos, id).value;
    DeleteTodoRemovesExactlyOne(todos, id);
    SumRemove(todos, i, SubtaskCount);
    SumRemove(todos, i, CompletedSubtaskCount);
    FilterRemove(todos, i, TodoCompleted);
  }

  /** Deleting everything zeroes every counter. */
  lemma DeleteAllCounts(todos: seq<Todo>)
    requires DeleteAll(todos).Done?
    ensures Counters(DeleteAll(todos).todos) == Stats(0, 0, 0, 0)
  {
  }
}
