/**
 * The page's in-memory todo list and the three handlers that change it in
 * place: the add form (`push`), the row click (flag flip) and the delete
 * button (`splice`). Each handler is proved against its function on values
 * in TodoList, and each keeps the no-duplicate invariant.
 */
module TodoStore {
  import opened Wrappers
  import opened JsString
  import opened TodoList
  import opened Progress

  class Store {
    /** The `todos` array, in insertion order. */
    var todos: seq<Todo>

    ghost predicate Valid()
      reads this
    {
      NoDuplicates(todos)
    }

    /** Start-up: `JSON.parse(localStorage.getItem('todos')) || []`. A missing
        entry gives the empty list; a stored list is taken as it is and is
        expected to be free of duplicates. */
    constructor (stored: Option<seq<Todo>>)
      requires stored.Some? ==> NoDuplicates(stored.value)
      ensures Valid()
      ensures todos == if stored.Some? then stored.value else []
    {
      match stored
      case None => todos := [];
      case Some(list) => todos := list;
    }

    /** The add form: trims both fields, ignores the submission if either is
        empty, reports a duplicate if an entry has the same text and date, and
        otherwise appends a new entry that is not done. */
    method AddTodo(rawText: string, rawDate: string) returns (status: AddStatus)
      requires Valid()
      modifies this
      ensures Valid()
      ensures AddOutcome(status, todos) == Add(old(todos), rawText, rawDate)
      ensures status == Ignored <==> AllWhiteSpace(rawText) || AllWhiteSpace(rawDate)
      ensures status == Added ==> todos == old(todos) + [Todo(Trim(rawText), Trim(rawDate), false)]
      ensures status != Added ==> todos == old(todos)
    {
      var text := Trim(rawText);
      var date := Trim(rawDate);
      if text != [] && date != [] {
        var existing := FindIndex(todos, text, date);
        if existing.None? {
          todos := todos + [Todo(text, date, false)];
          status := Added;
        } else {
          status := Duplicate;
        }
      } else {
        status := Ignored;
      }
      AddPreservesNoDuplicates(old(todos), rawText, rawDate);
    }

    /** The row click: `todo.completed = !todo.completed` on entry `i`. The
        index is one the current rendering produced, so it is in range. */
    method ToggleComplete(i: nat)
      requires Valid() && i < |todos|
      modifies this
      ensures Valid()
      ensures todos == Toggled(old(todos), i)
      ensures |todos| == |old(todos)| && todos[i].completed == !old(todos)[i].completed
    {
      ToggledPreservesNoDuplicates(todos, i);
      var todo := todos[i];
      todos := todos[i := todo.(completed := !todo.completed)];
    }

    /** The delete button: `todos.splice(i, 1)` for an index the current
        rendering produced. */
    method DeleteTodo(i: nat)
      requires Valid() && i < |todos|
      modifies this
      ensures Valid()
      ensures todos == Removed(old(todos), i)
      ensures |todos| == |old(todos)| - 1
    {
      RemovedPreservesNoDuplicates(todos, i);
      todos := todos[..i] + todos[i + 1..];
    }

    /** The counting part of `updateProgress`: the two chart segments, and
        the percentage the page computes but never passes on. */
    method UpdateProgress() returns (data: seq<int>, percent: Percentage)
      ensures |data| == 2 && data[0] + data[1] == |todos|
      ensures data == ChartData(todos) && percent == ProgressPercent(todos)
    {
      var total := |todos|;
      var completed := CompletedCount(todos);
      data := [completed, total - completed];
      percent := if total == 0 then Percentage(0, 1) else Percentage(100 * completed, total);
    }
  }

  /** A sample session, for any filled-in task: add it to an empty list
      (one entry, not done, nothing complete), mark it done (everything
      complete), add it again (duplicate, still one entry), delete it (empty
      list, nothing complete). */
  method SampleSession(text: string, date: string)
    requires !AllWhiteSpace(text) && !AllWhiteSpace(date)
  {
    var store := new Store(None);
    AddAppendsNew([], text, date);
    var status := store.AddTodo(text, date);
    ghost var entry := Todo(Trim(text), Trim(date), false);
    assert status == Added && store.todos == [entry];
    SingleProgress(entry);
    var data, percent := store.UpdateProgress();
    assert data == [0, 1] && percent == Percentage(0, 1);

    store.ToggleComplete(0);
    ghost var done := entry.(completed := true);
    assert store.todos == [done];
    SingleProgress(done);
    data, percent := store.UpdateProgress();
    assert data == [1, 0] && percent == Percentage(100, 1);

    AddRejectsDuplicate(store.todos, text, date, 0);
    status := store.AddTodo(text, date);
    assert status == Duplicate && store.todos == [done];

    store.DeleteTodo(0);
    assert store.todos == [];
    data, percent := store.UpdateProgress();
    assert data == [0, 0] && percent == Percentage(0, 1);
  }
}
