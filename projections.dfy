/**
 * The three projections that replace the displayed list: filter by status,
 * search by text, and sort by due date. Each is a function of the canonical
 * list alone; none composes with a previously applied one.
 */
module Projections {
  import opened Seqs
  import opened Text
  import opened TodoModel

  // ---------------------------------------------------------------- filterTodos

  /** The filter selection that keeps every todo. */
  const All: string := "all"

  /** `filterTodos`: the todos whose status equals the selection, or all of them for "all". */
  function FilterByStatus(todos: seq<Todo>, status: string): (r: seq<Todo>)
    ensures forall t :: t in r <==> t in todos && (t.status == status || status == All)
  {
    FilterMembers(todos, (t: Todo) => t.status == status || status == All);
    Filter(todos, (t: Todo) => t.status == status || status == All)
  }

  /** Filtering by "all" shows the canonical list unchanged. */
  lemma FilterAllShowsEverything(todos: seq<Todo>)
    ensures FilterByStatus(todos, All) == todos
  {
    FilterKeepsAll(todos, (t: Todo) => t.status == All || All == All);
  }

  /** The filter keeps canonical order: it distributes over any split of the list. */
  lemma FilterByStatusKeepsOrder(a: seq<Todo>, b: seq<Todo>, status: string)
    ensures FilterByStatus(a + b, status) == FilterByStatus(a, status) + FilterByStatus(b, status)
  {
    FilterConcat(a, b, (t: Todo) => t.status == status || status == All);
  }

  // ---------------------------------------------------------------- searchTodos

  /** `searchInput.value.toLowerCase().trim()`: already lower-cased, no whitespace at either end. */
  function SearchTerm(raw: string): (term: string)
    ensures Lower(term) == term
    ensures term != [] ==> !IsSpace(term[0]) && !IsSpace(term[|term| - 1])
  {
    LowerIdempotent(raw);
    TrimKeepsLower(Lower(raw));
    Trim(Lower(raw))
  }

  /** The todos whose lower-cased text contains `term`, in canonical order. */
  function Matching(todos: seq<Todo>, term: string): (r: seq<Todo>)
    ensures forall t :: t in r <==> t in todos && Contains(Lower(t.text), term)
  {
    FilterMembers(todos, (t: Todo) => Contains(Lower(t.text), term));
    Filter(todos, (t: Todo) => Contains(Lower(t.text), term))
  }

  /** `searchTodos`: an empty term shows the whole list, otherwise only the matching todos. */
  function Search(todos: seq<Todo>, raw: string): (r: seq<Todo>)
    ensures SearchTerm(raw) == "" ==> r == todos
    ensures SearchTerm(raw) != "" ==>
      forall t :: t in r <==> t in todos && Contains(Lower(t.text), SearchTerm(raw))
  {
    var term := SearchTerm(raw);
    if term == "" then todos else Matching(todos, term)
  }

  /** The search keeps canonical order: it distributes over any split of the list. */
  lemma SearchKeepsOrder(a: seq<Todo>, b: seq<Todo>, raw: string)
    ensures Search(a + b, raw) == Search(a, raw) + Search(b, raw)
  {
    var term := SearchTerm(raw);
    if term != "" {
      FilterConcat(a, b, (t: Todo) => Contains(Lower(t.text), term));
    }
  }

  /** A search box holding only whitespace shows the whole list in canonical order. */
  lemma BlankSearchShowsEverything(todos: seq<Todo>, raw: string)
    requires forall k :: 0 <= k < |raw| ==> IsSpace(raw[k])
    ensures Search(todos, raw) == todos
  {
    var lowered := Lower(raw);
    assert forall k :: 0 <= k < |lowered| ==> IsSpace(lowered[k]);
    TrimEmptyIffBlank(lowered);
  }

  /** The search ignores the case of what was typed. */
  lemma SearchIgnoresCase(todos: seq<Todo>, raw: string)
    ensures Search(todos, Lower(raw)) == Search(todos, raw)
  {
    LowerIdempotent(raw);
  }

  // ---------------------------------------------------------------- sortTodos

  datatype SortOrder = Default | DateAsc | DateDesc

  /** Day number of 9999-12-31, the stand-in for a todo without a due date. */
  const FarFuture: int := 2932896

  /** The day a todo sorts by. */
  function SortKey(d: DueDate): int
  {
    if d.Day? then d.day else FarFuture
  }

  /** The comparator's view of a todo: its key, negated for the descending order. */
  function Rank(t: Todo, order: SortOrder): int
  {
    if order == DateDesc then -SortKey(t.dueDate) else SortKey(t.dueDate)
  }

  predicate SortedBy(s: seq<Todo>, order: SortOrder)
  {
    forall i, j :: 0 <= i < j < |s| ==> Rank(s[i], order) <= Rank(s[j], order)
  }

  /** Places `t` before the first element that does not rank lower. */
  function Insert(t: Todo, s: seq<Todo>, order: SortOrder): (r: seq<Todo>)
    ensures |r| == |s| + 1
  {
    if s == [] || Rank(t, order) <= Rank(s[0], order) then [t] + s
    else [s[0]] + Insert(t, s[1..], order)
  }

  /** A stable sort by rank: insertion of each element in front of its equals. */
  function SortByRank(s: seq<Todo>, order: SortOrder): (r: seq<Todo>)
    ensures |r| == |s|
  {
    if s == [] then [] else Insert(s[0], SortByRank(s[1..], order), order)
  }

  /** `sortTodos`: the canonical list for "default", otherwise a copy sorted by due date. */
  function SortTodos(todos: seq<Todo>, order: SortOrder): seq<Todo>
  {
    if order == Default then todos else SortByRank(todos, order)
  }

  /** Every element of `Insert(t, s)` ranks at least `b` when `t` and all of `s` do. */
  lemma {:induction false} InsertBound(t: Todo, s: seq<Todo>, order: SortOrder, b: int)
    requires b <= Rank(t, order)
    requires forall j :: 0 <= j < |s| ==> b <= Rank(s[j], order)
    ensures forall j :: 0 <= j < |s| + 1 ==> b <= Rank(Insert(t, s, order)[j], order)
  {
    if s != [] && Rank(t, order) > Rank(s[0], order) {
      InsertBound(t, s[1..], order, b);
    }
  }

  lemma {:induction false} InsertSorted(t: Todo, s: seq<Todo>, order: SortOrder)
    requires SortedBy(s, order)
    ensures SortedBy(Insert(t, s, order), order)
  {
    if s != [] && Rank(t, order) > Rank(s[0], order) {
      var rest := Insert(t, s[1..], order);
      InsertSorted(t, s[1..], order);
      InsertBound(t, s[1..], order, Rank(s[0], order));
      var r := [s[0]] + rest;
      forall i, j | 0 <= i < j < |r| ensures Rank(r[i], order) <= Rank(r[j], order) {
        assert r[j] == rest[j - 1];
        if i > 0 {
          assert r[i] == rest[i - 1];
        }
      }
    }
  }

  lemma {:induction false} InsertPermutes(t: Todo, s: seq<Todo>, order: SortOrder)
    ensures multiset(Insert(t, s, order)) == multiset(s) + multiset{t}
  {
    if s != [] && Rank(t, order) > Rank(s[0], order) {
      InsertPermutes(t, s[1..], order);
      assert s == [s[0]] + s[1..];
    }
  }

  lemma {:induction false} SortByRankSorted(s: seq<Todo>, order: SortOrder)
    ensures SortedBy(SortByRank(s, order), order)
    ensures multiset(SortByRank(s, order)) == multiset(s)
  {
    if s != [] {
      var rest := SortByRank(s[1..], order);
      SortByRankSorted(s[1..], order);
      InsertSorted(s[0], rest, order);
      assert multiset(SortByRank(s, order)) == multiset(s) by {
        InsertPermutes(s[0], rest, order);
        assert s == [s[0]] + s[1..];
      }
    }
  }

  /**
   * "date-asc" and "date-desc" show a permutation of the list ordered by due
   * day, a missing day counting as 9999-12-31; "default" shows the list itself.
   */
  lemma SortTodosCorrect(todos: seq<Todo>, order: SortOrder)
    ensures multiset(SortTodos(todos, order)) == multiset(todos)
    ensures order == Default ==> SortTodos(todos, order) == todos
    ensures order == DateAsc ==> var r := SortTodos(todos, order);
      forall i, j :: 0 <= i < j < |r| ==> SortKey(r[i].dueDate) <= SortKey(r[j].dueDate)
    ensures order == DateDesc ==> var r := SortTodos(todos, order);
      forall i, j :: 0 <= i < j < |r| ==> SortKey(r[i].dueDate) >= SortKey(r[j].dueDate)
  {
    SortByRankSorted(todos, order);
  }

  /** The todos of rank `k`. */
  function HasRank(order: SortOrder, k: int): Todo -> bool
  {
    (t: Todo) => Rank(t, order) == k
  }

  lemma {:induction false} InsertStable(t: Todo, s: seq<Todo>, order: SortOrder, k: int)
    ensures Filter(Insert(t, s, order), HasRank(order, k))
      == (if Rank(t, order) == k then [t] else []) + Filter(s, HasRank(order, k))
  {
    var p := HasRank(order, k);
    var mine := if Rank(t, order) == k then [t] else [];
    assert Filter([t], p) == mine by {
      assert [t][1..] == [];
    }
    if s == [] || Rank(t, order) <= Rank(s[0], order) {
      FilterConcat([t], s, p);
    } else {
      var rest := Insert(t, s[1..], order);
      var tail := Filter(s[1..], p);
      var first := Filter([s[0]], p);
      assert first == (if Rank(s[0], order) == k then [s[0]] else []) by {
        assert [s[0]][1..] == [];
      }
      assert Filter(rest, p) == mine + tail by {
        InsertStable(t, s[1..], order, k);
      }
      assert Filter(Insert(t, s, order), p) == first + Filter(rest, p) by {
        FilterConcat([s[0]], rest, p);
      }
      assert Filter(s, p) == first + tail by {
        assert s == [s[0]] + s[1..];
        FilterConcat([s[0]], s[1..], p);
      }
      assert mine == [] || first == [];
      SwapEmpty(first, mine, tail);
    }
  }

  /** When one of `a` and `b` is empty, they can trade places in front of `c`. */
  lemma SwapEmpty(a: seq<Todo>, b: seq<Todo>, c: seq<Todo>)
    requires a == [] || b == []
    ensures a + (b + c) == b + (a + c)
  {
    if a == [] {
      assert a + (b + c) == b + c == b + (a + c);
    } else {
      assert a + (b + c) == a + c == b + (a + c);
    }
  }

  /** The sort is stable: todos due on the same day keep their canonical order. */
  lemma {:induction false} SortStable(s: seq<Todo>, order: SortOrder, k: int)
    ensures Filter(SortByRank(s, order), HasRank(order, k)) == Filter(s, HasRank(order, k))
  {
    if s != [] {
      SortStable(s[1..], order, k);
      InsertStable(s[0], SortByRank(s[1..], order), order, k);
    }
  }

  /** Dates 2025-03-01, 2025-01-01 and none sort ascending as 2025-01-01, 2025-03-01, none. */
  lemma SortExample(a: Todo, b: Todo, c: Todo)
    requires a.dueDate == Day(20148) && b.dueDate == Day(20089) && c.dueDate == Empty
    ensures SortTodos([a, b, c], DateAsc) == [b, a, c]
    ensures SortTodos([a, b, c], DateDesc) == [c, a, b]
  {
    assert [a, b, c][1..] == [b, c] && [b, c][1..] == [c] && [c][1..] == [];
    assert SortByRank([c], DateAsc) == [c];
    assert SortByRank([b, c], DateAsc) == [b, c];
    assert [b, c][1..] == [c];
    assert Insert(a, [c], DateAsc) == [a, c];
    assert SortByRank([c], DateDesc) == [c];
    assert Insert(b, [c], DateDesc) == [c, b] by {
      assert Insert(b, [], DateDesc) == [b];
    }
    assert SortByRank([b, c], DateDesc) == [c, b];
    assert [c, b][1..] == [b];
    assert Insert(a, [b], DateDesc) == [a, b];
    assert Insert(a, [c, b], DateDesc) == [c] + Insert(a, [b], DateDesc);
  }
}
