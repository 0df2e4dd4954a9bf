/**
 * The todo collection as a value: the records, the duplicate rule, and the
 * effect of each of the three list operations (add, toggle, delete) written
 * as functions on the sequence, with the properties the page relies on.
 */
module TodoList {
  import opened Wrappers
  import opened JsString

  /** One task: its text, its due date as the date picker formats it, and
      whether it is done. */
  datatype Todo = Todo(text: string, date: string, completed: bool)

  /** The duplicate test of the add form: same text and same date. */
  predicate Matches(t: Todo, text: string, date: string)
  {
    t.text == text && t.date == date
  }

  /** The store's invariant: no two entries share both text and date. */
  predicate NoDuplicates(todos: seq<Todo>)
  {
    forall i, j :: 0 <= i < j < |todos| ==> !Matches(todos[j], todos[i].text, todos[i].date)
  }

  /** `todos.find(todo => todo.text === text && todo.date === date)`, given as
      the position of the first match (the page tests only whether the found
      element exists). */
  function FindIndex(todos: seq<Todo>, text: string, date: string): (r: Option<nat>)
    ensures r.None? <==> forall k :: 0 <= k < |todos| ==> !Matches(todos[k], text, date)
    ensures r.Some? ==> r.value < |todos| && Matches(todos[r.value], text, date)
    ensures r.Some? ==> forall k :: 0 <= k < r.value ==> !Matches(todos[k], text, date)
  {
    if |todos| == 0 then None
    else if Matches(todos[0], text, date) then Some(0)
    else match FindIndex(todos[1..], text, date)
      case None => None
      case Some(k) => Some(k + 1)
  }

  /** What the add form reports: a new entry, the duplicate notice, or
      nothing at all for an empty field. */
  datatype AddStatus = Added | Duplicate | Ignored

  datatype AddOutcome = AddOutcome(status: AddStatus, todos: seq<Todo>)

  /** The effect of submitting the add form with the raw field values. */
  function Add(todos: seq<Todo>, rawText: string, rawDate: string): (r: AddOutcome)
    ensures |r.todos| == |todos| + (if r.status == Added then 1 else 0)
    ensures r.todos[..|todos|] == todos
  {
    var text := Trim(rawText);
    var date := Trim(rawDate);
    if text == [] || date == [] then AddOutcome(Ignored, todos)
    else if FindIndex(todos, text, date).Some? then AddOutcome(Duplicate, todos)
    else
      var added := todos + [Todo(text, date, false)];
      assert added[..|todos|] == todos;
      AddOutcome(Added, added)
  }

  /** The entry at `i` with its completion flag flipped. */
  function Toggled(todos: seq<Todo>, i: nat): (r: seq<Todo>)
    requires i < |todos|
    ensures |r| == |todos|
    ensures forall k :: 0 <= k < |r| ==> Matches(r[k], todos[k].text, todos[k].date)
  {
    todos[i := todos[i].(completed := !todos[i].completed)]
  }

  /** `todos.splice(i, 1)`: the list without its entry at `i`. */
  function Removed(todos: seq<Todo>, i: nat): (r: seq<Todo>)
    requires i < |todos|
    ensures |r| == |todos| - 1
  {
    todos[..i] + todos[i + 1..]
  }

  // ---------------------------------------------------------------------
  // Add

  /** An empty text or date (after trimming) is ignored silently. */
  lemma AddIgnoresEmptyField(todos: seq<Todo>, rawText: string, rawDate: string)
    ensures Add(todos, rawText, rawDate).status == Ignored
        <==> AllWhiteSpace(rawText) || AllWhiteSpace(rawDate)
    ensures Add(todos, rawText, rawDate).status == Ignored
        ==> Add(todos, rawText, rawDate).todos == todos
  {
  }

  /** A filled-in pair equal to an existing entry is rejected and the list is
      left alone. */
  lemma AddRejectsDuplicate(todos: seq<Todo>, rawText: string, rawDate: string, k: nat)
    requires !AllWhiteSpace(rawText) && !AllWhiteSpace(rawDate)
    requires k < |todos| && Matches(todos[k], Trim(rawText), Trim(rawDate))
    ensures Add(todos, rawText, rawDate) == AddOutcome(Duplicate, todos)
  {
  }

  /** A filled-in new pair is appended, not done, and nothing before it
      changes. */
  lemma AddAppendsNew(todos: seq<Todo>, rawText: string, rawDate: string)
    requires !AllWhiteSpace(rawText) && !AllWhiteSpace(rawDate)
    requires forall k :: 0 <= k < |todos| ==> !Matches(todos[k], Trim(rawText), Trim(rawDate))
    ensures Add(todos, rawText, rawDate).status == Added
    ensures var r := Add(todos, rawText, rawDate).todos;
      |r| == |todos| + 1 && r[..|todos|] == todos
      && r[|todos|] == Todo(Trim(rawText), Trim(rawDate), false)
  {
  }

  /** Adding keeps the list free of duplicates. */
  lemma AddPreservesNoDuplicates(todos: seq<Todo>, rawText: string, rawDate: string)
    requires NoDuplicates(todos)
    ensures NoDuplicates(Add(todos, rawText, rawDate).todos)
  {
  }

  /** Submitting the same fields a second time changes nothing: the pair is
      either ignored both times or found the second time. */
  lemma AddIdempotent(todos: seq<Todo>, rawText: string, rawDate: string)
    ensures var once := Add(todos, rawText, rawDate);
      Add(once.todos, rawText, rawDate).todos == once.todos
      && (once.status != Ignored ==> Add(once.todos, rawText, rawDate).status == Duplicate)
  {
    var once := Add(todos, rawText, rawDate);
    if once.status == Added {
      var last := |todos|;
      assert Matches(once.todos[last], Trim(rawText), Trim(rawDate));
    }
  }

  // ---------------------------------------------------------------------
  // Toggle

  /** Toggling flips the flag of entry `i` and changes nothing else. */
  lemma ToggledChangesOnlyFlag(todos: seq<Todo>, i: nat)
    requires i < |todos|
    ensures var r := Toggled(todos, i);
      |r| == |todos|
      && r[i].text == todos[i].text && r[i].date == todos[i].date
      && r[i].completed == !todos[i].completed
      && forall k :: 0 <= k < |todos| && k != i ==> r[k] == todos[k]
  {
  }

  /** Toggling the same entry twice restores the list. */
  lemma ToggleTwice(todos: seq<Todo>, i: nat)
    requires i < |todos|
    ensures Toggled(Toggled(todos, i), i) == todos
  {
  }

  lemma ToggledPreservesNoDuplicates(todos: seq<Todo>, i: nat)
    requires i < |todos|
    requires NoDuplicates(todos)
    ensures NoDuplicates(Toggled(todos, i))
  {
  }

  // ---------------------------------------------------------------------
  // Delete

  /** Deleting entry `i` shortens the list by one and keeps the survivors in
      their order; exactly one copy of `todos[i]` goes. */
  lemma RemovedKeepsOrder(todos: seq<Todo>, i: nat)
    requires i < |todos|
    ensures var r := Removed(todos, i);
      |r| == |todos| - 1
      && (forall k :: 0 <= k < i ==> r[k] == todos[k])
      && (forall k :: i <= k < |r| ==> r[k] == todos[k + 1])
      && multiset(r) + multiset{todos[i]} == multiset(todos)
  {
    assert todos == todos[..i] + [todos[i]] + todos[i + 1..];
  }

  lemma RemovedPreservesNoDuplicates(todos: seq<Todo>, i: nat)
    requires i < |todos|
    requires NoDuplicates(todos)
    ensures NoDuplicates(Removed(todos, i))
  {
    var r := Removed(todos, i);
    RemovedKeepsOrder(todos, i);
    forall a, b | 0 <= a < b < |r|
      ensures !Matches(r[b], r[a].text, r[a].date)
    {
      var a' := if a < i then a else a + 1;
      var b' := if b < i then b else b + 1;
      assert r[a] == todos[a'] && r[b] == todos[b'];
    }
  }
}
