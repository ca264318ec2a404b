# Todo store — a verified Dafny model

This project models the core of a single-page todo list manager (`js/script.js`):
the canonical list of todos, each with an ordered list of subtasks, the
operations that add, edit, toggle, expand and delete them under input
validation, the progress counters derived from the list, and the three
projections (filter by status, search by text, sort by due date) that replace
the displayed list.

Layout, one module per file:

- `wrappers.dfy` — `Option`.
- `seqs.dfy` — generic `find` / `filter` / `reduce` shapes (`FirstIndex`, `Filter`, `SumOf`) and their laws.
- `text.dfy` — `trim`, `toLowerCase` and `includes` on strings.
- `todo_model.dfy` — the `Todo` and `Subtask` records, the status strings, the due-date field, the refusal reasons, lookups and deletions by id.
- `validation.dfy` — the input checks of each form, in the order the source runs them.
- `transitions.dfy` — every store operation as a function from the old list to an `Outcome` (the new list or the reason for refusal).
- `invariants.dfy` — the data-model invariant (`WellFormed`: stored texts trimmed, non-empty and at most 100 characters, statuses known, ids distinct, texts distinct ignoring case, both among todos and among each todo's subtasks), its preservation by every operation, and the inverse and identity laws.
- `counters.dfy` — `updateCounters` and how each operation moves the counters.
- `projections.dfy` — `filterTodos`, `searchTodos`, `sortTodos` (a stable insertion sort by due day).
- `store.dfy` — class `TodoStore` with fields `todos` and `displayed`; one method per user operation, each changing the fields in place and specified by the matching function of `Transitions` or `Projections`.

Inputs the source reads from the page or the environment are parameters: the
text and date typed into a form, the id (`Date.now().toString()` in the
source), and today's day number. A due date is an abstract `DueDate`: empty
string, whitespace only, unparsable, or a day number counted from 1970-01-01.
A method returns the `Reason` the source would show in its error alert, or
`None` on success.

Behaviours of the code that the model keeps as written:

- `addTodo` has no validity test for the date, so it accepts an unparsable or whitespace-only date. The edit and subtask forms reject such a date.
- `toggleTodoStatus` ignores an unknown id silently. `Store.TodoStore.ToggleTodoStatus` therefore returns a plain flag.
- `deleteTodoById` removes every todo that carries the id, not just one. Ids are not guaranteed unique. In a well-formed list this is exactly one todo (`Invariants.DeleteTodoRemovesExactlyOne`).
- The duplicate-text test of the edit forms excludes items by id, not by identity.
- A todo can be saved with a date before today only through data that was loaded. The date rule is checked only at creation and edit time.

## Model

| member | source | states |
|---|---|---|
| `Seqs.FirstIndex` | js/script.js:226 | `find`: the result is the first index whose element satisfies the test; `None` exactly when no element does |
| `Seqs.Filter` | js/script.js:687 | `filter`: the result is no longer than the input; which elements it keeps is `FilterMembers`, their order `FilterConcat` |
| `Seqs.FilterMembers` | js/script.js:687 | the filtered sequence holds exactly the elements of the input that pass the test |
| `Seqs.FilterConcat` | js/script.js:687 | filtering a concatenation is the concatenation of the filtered parts, so filtering keeps relative order |
| `Text.Trim` | js/script.js:116 | `trim`: the result is no longer than the input and neither starts nor ends with whitespace |
| `Text.TrimIsSlice` | js/script.js:116 | the trimmed text is the slice of the input that starts where the leading whitespace ends |
| `Text.TrimDropsLeadingSpace` | js/script.js:116 | everything before that slice is whitespace |
| `Text.TrimDropsTrailingSpace` | js/script.js:116 | the slice ends inside the input and everything after it is whitespace, so trimming removes whitespace at the two ends and nothing else |
| `Text.TrimKeepsLower` | js/script.js:699 | trimming a lower-cased text leaves it lower-cased |
| `Text.TrimIdempotent` | js/script.js:274 | trimming a stored (already trimmed) text changes nothing |
| `Text.TrimEmptyIffBlank` | js/script.js:120 | the trimmed text is empty exactly when the input consists of whitespace only |
| `Text.Lower` | js/script.js:127 | `toLowerCase`: same length, each character lower-cased |
| `Text.LowerIdempotent` | js/script.js:699 | lower-casing twice equals lower-casing once |
| `Text.Contains` | js/script.js:706 | `includes`: the part is a prefix of the text or of one of its suffixes (a definition; `ContainsAt` states what it means) |
| `Text.ContainsAt` | js/script.js:706 | `includes` holds exactly when the part occurs at some offset of the text |
| `TodoModel.Toggled` | js/script.js:228 | the toggled status is always pending or completed, and is completed exactly when the old status was pending |
| `TodoModel.FindTodo` | js/script.js:226 | the first todo carrying the id; `None` exactly when no todo carries it |
| `TodoModel.FindSubtask` | js/script.js:391 | the first subtask of the parent carrying the id; `None` exactly when none carries it |
| `TodoModel.WithoutTodo` | js/script.js:626 | the remaining todos are exactly those of the old list whose id differs |
| `TodoModel.WithoutSubtask` | js/script.js:562 | the remaining subtasks are exactly those of the parent whose id differs |
| `TodoModel.WithoutUniqueTodo` | js/script.js:626 | when only one todo carries the id, deleting by id removes exactly that todo and keeps the others in order |
| `TodoModel.WithoutUniqueSubtask` | js/script.js:562 | when only one subtask carries the id, deleting by id removes exactly that subtask |
| `Validation.TodoTextTaken` | js/script.js:127 | `some`: some todo's text equals the text ignoring case (a definition used by the validators' contracts) |
| `Validation.OtherTodoTextTaken` | js/script.js:254 | some todo with another id has the text, ignoring case (a definition) |
| `Validation.SubtaskTextTaken` | js/script.js:346 | some subtask of the parent has the text, ignoring case (a definition) |
| `Validation.OtherSubtaskTextTaken` | js/script.js:514 | some subtask of the parent with another id has the text, ignoring case (a definition) |
| `Validation.TextError` | js/script.js:120-126 | a trimmed text passes exactly when it is non-empty and at most 100 characters |
| `Validation.AddDateError` | js/script.js:133-145 | `addTodo` accepts a date exactly when it is not the empty string and not a day before today (an invalid date is not past) |
| `Validation.DateError` | js/script.js:258-272 | the edit and subtask forms accept a date exactly when it is a valid day no earlier than today |
| `Validation.NewTodoError` | js/script.js:119-145 | a new todo passes exactly when its trimmed text is non-empty, at most 100 characters, not equal ignoring case to any todo's text, and its date is present and not past |
| `Validation.EditTodoError` | js/script.js:246-272 | an edited todo passes exactly when its text is non-empty, at most 100 characters, not equal ignoring case to the text of a todo with another id, and its date is a valid day not before today |
| `Validation.NewSubtaskError` | js/script.js:338-364 | a new subtask passes exactly when its text is non-empty, at most 100 characters, not equal ignoring case to a sibling's text, and its date is a valid day not before today |
| `Validation.EditSubtaskError` | js/script.js:506-532 | an edited subtask passes exactly when its text is valid, not equal ignoring case to a sibling with another id, and its date is a valid day not before today |
| `Transitions.AddTodo` | js/script.js:113-166 | refused exactly when the checks fail, with their reason; on success the list grows by one, earlier todos unchanged, the last one pending with the trimmed text, no subtasks, collapsed |
| `Transitions.EditTodo` | js/script.js:234-282 | unknown id is refused; otherwise refused exactly when the edit checks fail; on success only that todo changes, and only in its text (trimmed) and due date |
| `Transitions.ToggleTodo` | js/script.js:225-232 | refused exactly when no todo has the id; otherwise only the first such todo changes, and only its status, which is toggled |
| `Transitions.SetTodoStatus` | js/script.js:285-301 | unknown id refused with `TodoNotFound`; a found todo with a status other than pending or completed refused with `InvalidStatus`; succeeds exactly when neither applies, and then only that todo's status changes |
| `Transitions.ToggleExpand` | js/script.js:304-319 | unknown id refused with `TodoNotFound`; a found todo without subtasks refused with `NoSubtasks`; succeeds exactly when the todo exists and has subtasks, and then only its `expanded` flag changes, to its negation |
| `Transitions.AddSubtask` | js/script.js:322-381 | unknown parent refused, null text refused silently, otherwise refused exactly when the subtask checks fail; on success only the parent changes: one pending subtask with the trimmed text appended, earlier subtasks unchanged, `expanded` set |
| `Transitions.ToggleSubtask` | js/script.js:384-401 | unknown parent refused with `TodoNotFound`, unknown subtask with `SubtaskNotFound`; succeeds exactly when both exist, and then only that subtask's status changes, toggled |
| `Transitions.EditSubtask` | js/script.js:488-542 | unknown parent or subtask refused, otherwise refused exactly when the edit checks fail; on success only that subtask's text and due date change |
| `Transitions.DeleteSubtask` | js/script.js:545-568 | unknown parent refused with `TodoNotFound`, unknown subtask with `SubtaskNotFound`; succeeds exactly when both exist, and then only the parent changes, keeping exactly its subtasks with another id |
| `Transitions.DeleteTodo` | js/script.js:615-632 | refused exactly when no todo has the id; otherwise the list shrinks and keeps exactly the todos with another id |
| `Transitions.DeleteAll` | js/script.js:636-652 | refused exactly when the list is empty; otherwise the list becomes empty |
| `Invariants.WellFormed` | js/script.js:113-166 | the state every operation keeps: stored texts trimmed, non-empty and at most 100 characters, statuses pending or completed, ids distinct and texts distinct ignoring case, among todos and among each todo's subtasks (a definition) |
| `Invariants.AddTodoKeepsWellFormed` | js/script.js:119-156 | adding a todo with a fresh id to a well-formed list leaves it well formed (the trimmed, checked text is unique ignoring case) |
| `Invariants.EditTodoKeepsWellFormed` | js/script.js:246-275 | a successful edit keeps the list well formed |
| `Invariants.ToggleTodoKeepsWellFormed` | js/script.js:228 | toggling keeps the list well formed |
| `Invariants.SetTodoStatusKeepsWellFormed` | js/script.js:292-297 | setting a status keeps the list well formed |
| `Invariants.ToggleExpandKeepsWellFormed` | js/script.js:316 | expanding or collapsing keeps the list well formed |
| `Invariants.AddSubtaskKeepsWellFormed` | js/script.js:338-374 | adding a subtask with a fresh id keeps the list well formed, duplicates being checked against the parent only |
| `Invariants.ToggleSubtaskKeepsWellFormed` | js/script.js:397 | toggling a subtask keeps the list well formed |
| `Invariants.EditSubtaskKeepsWellFormed` | js/script.js:506-535 | a successful subtask edit keeps the list well formed |
| `Invariants.DeleteSubtaskKeepsWellFormed` | js/script.js:562 | deleting a subtask keeps the list well formed |
| `Invariants.DeleteTodoKeepsWellFormed` | js/script.js:626 | deleting a todo keeps the list well formed |
| `Invariants.DeleteAllKeepsWellFormed` | js/script.js:646 | clearing the list leaves a well-formed list |
| `Invariants.DeleteTodoRemovesExactlyOne` | js/script.js:626 | in a well-formed list, deleting by id removes exactly that todo with all its subtasks, the rest in order |
| `Invariants.DeleteSubtaskRemovesExactlyOne` | js/script.js:562 | in a well-formed list, deleting a subtask removes exactly that subtask from its parent and changes nothing else |
| `Invariants.ToggleTodoTwice` | js/script.js:228 | toggling a todo with a known status twice restores the list |
| `Invariants.ToggleSubtaskTwice` | js/script.js:397 | toggling a subtask with a known status twice restores the list |
| `Invariants.ToggleExpandTwice` | js/script.js:316 | expanding and collapsing restores the list |
| `Invariants.EditTodoKeepsOwnText` | js/script.js:254 | re-saving a todo's own text with a valid date succeeds and changes only its due date |
| `Invariants.EditSubtaskKeepsOwnText` | js/script.js:514 | re-saving a subtask's own text with a valid date succeeds and changes only its due date |
| `Seqs.SumOf` | js/script.js:191 | `reduce` adding one count per element (a definition; `SumBound` and the `Counters` lemmas state its laws) |
| `Seqs.SumBound` | js/script.js:191 | no element's count exceeds the sum |
| `Counters.TotalUnits` | js/script.js:190-193 | todos plus all their subtasks: at least the number of todos, and at least one plus the subtask count of any single todo |
| `Counters.CompletedUnits` | js/script.js:194-196 | completed todos plus completed subtasks of all todos (a definition; bounded by `CompletedWithinTotal`) |
| `Counters.CompletedWithinTotal` | js/script.js:190-196 | completed units (todos plus subtasks) never exceed total units |
| `Counters.Percentage` | js/script.js:199 | 0 for an empty store; otherwise the whole percent nearest to 100·completed/total, halves rounded up; at most 100 when completed ≤ total |
| `Counters.PercentageBounds` | js/script.js:199 | the integer quotient lies within half a unit of 100·completed/total and is at most 100 |
| `Counters.Counters` | js/script.js:183-206 | total is the number of todos plus all subtasks; completed is the number of completed todos plus completed subtasks; completed ≤ total; pending = total − completed; percentage in 0..100, 0 when total is 0, and the nearest whole percent otherwise |
| `Counters.CountersExample` | js/script.js:190-199 | two todos (one completed) with one pending subtask each give total 4, completed 1, pending 3, 25% |
| `Counters.AddTodoCounts` | js/script.js:156 | a successful add raises the total by one and leaves completed unchanged |
| `Counters.AddSubtaskCounts` | js/script.js:373 | a successful subtask add raises the total by one and leaves completed unchanged |
| `Counters.ToggleTodoCounts` | js/script.js:228 | toggling keeps the total; completing a pending todo adds one completed unit, reopening a completed one removes one |
| `Counters.ToggleSubtaskCounts` | js/script.js:397 | the same for subtasks |
| `Counters.DeleteTodoCounts` | js/script.js:626 | deleting a todo of a well-formed list lowers the total by one plus its subtask count, and completed by its completed units |
| `Counters.DeleteAllCounts` | js/script.js:646 | after clearing, every counter and the percentage are 0 |
| `Projections.FilterByStatus` | js/script.js:687 | the displayed todos are exactly those whose status equals the selection, or all for "all" |
| `Projections.FilterAllShowsEverything` | js/script.js:687 | filtering by "all" shows the canonical list itself, in order |
| `Projections.FilterByStatusKeepsOrder` | js/script.js:687 | the filter keeps canonical order: it distributes over any split of the list |
| `Projections.SearchTerm` | js/script.js:699 | the search term is already lower-cased and has no whitespace at either end |
| `Projections.Matching` | js/script.js:706 | exactly the todos whose lower-cased text contains the term (order: `SearchKeepsOrder`) |
| `Projections.Search` | js/script.js:697-706 | an empty (lower-cased, trimmed) term shows the canonical list; otherwise exactly the todos whose lower-cased text contains the term |
| `Projections.SearchKeepsOrder` | js/script.js:697-706 | the search keeps canonical order and multiplicity: it distributes over any split of the list |
| `Projections.BlankSearchShowsEverything` | js/script.js:699-703 | a search box holding only whitespace shows the canonical list in canonical order |
| `Projections.SearchIgnoresCase` | js/script.js:699 | searching for a lower-cased input gives the same result as for the input |
| `Projections.SortKey` | js/script.js:662-671 | the day a todo sorts by, 9999-12-31 for a todo without a valid date (a definition) |
| `Projections.Insert` | js/script.js:662-666 | inserting one todo makes the list one longer (placement: `InsertSorted`, `InsertPermutes`, `InsertStable`) |
| `Projections.SortByRank` | js/script.js:662-672 | the sorted copy has the input's length (order and permutation: `SortByRankSorted`) |
| `Projections.SortTodos` | js/script.js:659-673 | "default" shows the canonical list, the other orders a sorted copy (a definition; `SortTodosCorrect` states its properties) |
| `Projections.InsertSorted` | js/script.js:662-666 | inserting into a list ordered by rank keeps it ordered |
| `Projections.InsertPermutes` | js/script.js:662-666 | inserting adds exactly the inserted todo to the multiset |
| `Projections.SortByRankSorted` | js/script.js:662-672 | the sort result is ordered by rank and a permutation of the input |
| `Projections.SortTodosCorrect` | js/script.js:659-673 | "default" shows the list itself; "date-asc" and "date-desc" show a permutation ordered by due day ascending or descending, a missing date counting as 9999-12-31 |
| `Projections.InsertStable` | js/script.js:662-666 | among todos of one rank, insertion puts the new todo first and keeps the others in order |
| `Projections.SortStable` | js/script.js:662-672 | the sort is stable: todos of equal due day keep their canonical relative order |
| `Projections.SortExample` | js/script.js:662-672 | dates 2025-03-01, 2025-01-01 and none sort ascending as 2025-01-01, 2025-03-01, none, and descending as none, 2025-03-01, 2025-01-01 |
| `Store.TodoStore.constructor` | js/script.js:1-5 | the store starts with empty canonical and displayed lists |
| `Store.TodoStore.Initialize` | js/script.js:16-32 | nothing stored keeps the list, an unreadable blob empties it, a readable one replaces it; then the displayed list equals the canonical list |
| `Store.TodoStore.Render` | js/script.js:170-172 | the displayed list becomes the canonical list; the canonical list is untouched |
| `Store.TodoStore.AddTodo` | js/script.js:113-166 | the result and the new `todos` are those of `Transitions.AddTodo`; on success `displayed == todos`, on refusal both fields are unchanged |
| `Store.TodoStore.EditTodoItem` | js/script.js:234-282 | result and new state as `Transitions.EditTodo`; on success `displayed == todos`, on refusal nothing changes |
| `Store.TodoStore.ToggleTodoStatus` | js/script.js:225-232 | the flag says whether a todo had the id; the new state is that of `Transitions.ToggleTodo`; an unknown id changes nothing |
| `Store.TodoStore.UpdateTodoStatus` | js/script.js:285-301 | result and new state as `Transitions.SetTodoStatus`; on success `displayed == todos`, on refusal nothing changes |
| `Store.TodoStore.ToggleSubtaskExpand` | js/script.js:304-319 | result and new state as `Transitions.ToggleExpand`; on success `displayed == todos`, on refusal nothing changes |
| `Store.TodoStore.AddSubtask` | js/script.js:322-381 | result and new state as `Transitions.AddSubtask`; on success `displayed == todos`, on refusal nothing changes |
| `Store.TodoStore.ToggleSubtaskStatus` | js/script.js:384-401 | result and new state as `Transitions.ToggleSubtask`; on success `displayed == todos`, on refusal nothing changes |
| `Store.TodoStore.EditSubtask` | js/script.js:488-542 | result and new state as `Transitions.EditSubtask`; on success `displayed == todos`, on refusal nothing changes |
| `Store.TodoStore.DeleteSubtask` | js/script.js:545-568 | result and new state as `Transitions.DeleteSubtask`; on success `displayed == todos`, on refusal nothing changes |
| `Store.TodoStore.DeleteTodoById` | js/script.js:615-632 | result and new state as `Transitions.DeleteTodo`; on success `displayed == todos`, on refusal nothing changes |
| `Store.TodoStore.DeleteAllTodos` | js/script.js:636-652 | result and new state as `Transitions.DeleteAll`; on success `displayed == todos`, on refusal nothing changes |
| `Store.TodoStore.FilterTodos` | js/script.js:683-694 | the displayed list becomes `Projections.FilterByStatus` of the canonical list |
| `Store.TodoStore.SortTodos` | js/script.js:655-680 | the displayed list becomes `Projections.SortTodos` of the canonical list |
| `Store.TodoStore.SearchTodos` | js/script.js:697-718 | the displayed list becomes `Projections.Search` of the canonical list (an empty term re-renders) |

## Left out

- HTML generation and DOM writes (`formatTodoItem`, the `innerHTML` updates, the "No todos found" row, the counter text and progress-bar width): presentation only.
- `showAlert` and its timer: an operation returns its `Reason` (or `None`) instead of showing a message.
- `openEditModal` and `openConfirmModal`: each operation is the lookup done before the modal opens followed by the modal's submit or confirm callback, with the modal's text and date as parameters. A cancelled modal is an operation that was not called. The model looks the record up again at submit time, while the source uses the record found when the modal opened. The two agree unless the list changed while the modal was open.
- `saveTodos` (`localStorage` and `JSON.stringify`) is not modelled, so no `load(save(x)) == x` round trip is claimed. `loadTodos` is modelled only as the abstract `Saved` value handed to `Initialize`.
- Date parsing by `new Date`, the UTC-versus-local-midnight difference between a `YYYY-MM-DD` value and `today.setHours(0,0,0,0)`, and `toLocaleDateString`: due dates are abstract `DueDate` values and today is a day number.
- Id generation with `Date.now().toString()`: ids are parameters. The preservation lemmas for adding a todo or subtask assume the id is fresh, which the source does not guarantee.
- `Counters.Percentage`: computes `Math.round` of a floating-point quotient in exact integer arithmetic, `(200·completed + total) div (2·total)`. A quotient that floating point puts just below a half is not modelled.
- `Text.Trim`: its own contract states only that the result is no longer than the input and has no whitespace at either end. Which slice it returns is proved in `TrimIsSlice`, `TrimDropsLeadingSpace` and `TrimDropsTrailingSpace`. Keeping those facts out of the contract keeps every proof that mentions a trimmed text small.
- `Text.Lower`: maps only ASCII `A`–`Z`. It does not model the full Unicode case mapping of `toLowerCase`.
- `Validation.TextError`: counts text length in characters, not in the UTF-16 code units of JavaScript's `length`.
- `Projections.SortTodosCorrect`: a blank or unparsable stored date sorts as 9999-12-31. In the source the comparator returns NaN for such a date, and the resulting order depends on the engine.
- Loaded records without a `subtasks` array or an `expanded` flag: the source tolerates them in some places and fails in others. It reads a missing list as empty and a missing flag as false (js/script.js:39-40, 191, 195, 311), but it throws when it searches a missing list (js/script.js:346, 391, 495, 552). A model `Todo` always holds a sequence and a flag, so neither the tolerance nor the exceptions are represented.
- Records are values: `displayedTodos` shares its records with `todos` in the source. Every successful mutation resets the displayed list, and every refusal changes nothing, so the observable state is the same.
- `sortTodos` with a selection other than "default", "date-asc" or "date-desc" leaves the displayed list as it was. The selection box offers only those three values, so `SortOrder` has only three values.
