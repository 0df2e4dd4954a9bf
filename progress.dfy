/**
 * The counting half of the progress chart: how many todos there are, how many
 * are done, and the two segments of the doughnut. It also has the percentage
 * the page computes next to them, which the page never displays or passes
 * to the chart.
 */
module Progress {
  import opened TodoList

  /** `todos.filter(todo => todo.completed).length`. */
  function CompletedCount(todos: seq<Todo>): (c: nat)
    ensures c <= |todos|
    ensures c == 0 <==> forall k :: 0 <= k < |todos| ==> !todos[k].completed
    ensures c == |todos| <==> forall k :: 0 <= k < |todos| ==> todos[k].completed
  {
    if todos == [] then 0
    else (if todos[0].completed then 1 else 0) + CompletedCount(todos[1..])
  }

  /** The number of entries not done, counted on its own. */
  function IncompleteCount(todos: seq<Todo>): nat
  {
    if todos == [] then 0
    else (if todos[0].completed then 0 else 1) + IncompleteCount(todos[1..])
  }

  /** Every entry is either done or not, so the two counts add up to the
      length of the list. */
  lemma {:induction false} CompletedPlusIncomplete(todos: seq<Todo>)
    ensures CompletedCount(todos) + IncompleteCount(todos) == |todos|
  {
    if todos != [] {
      CompletedPlusIncomplete(todos[1..]);
    }
  }

  /** The data of the doughnut chart, `[completedTodos, totalTodos -
      completedTodos]`: both segments are non-negative, the second is the
      number of unfinished entries, and together they make up the list. */
  function ChartData(todos: seq<Todo>): (d: seq<int>)
    ensures |d| == 2 && d[0] >= 0 && d[1] >= 0
    ensures d[0] + d[1] == |todos|
    ensures d[0] == CompletedCount(todos) && d[1] == IncompleteCount(todos)
  {
    CompletedPlusIncomplete(todos);
    [CompletedCount(todos), |todos| - CompletedCount(todos)]
  }

  /** A percentage `num / den` kept as an exact fraction. */
  datatype Percentage = Percentage(num: nat, den: nat)

  /** `totalTodos === 0 ? 0 : (completedTodos / totalTodos) * 100`. */
  function ProgressPercent(todos: seq<Todo>): (p: Percentage)
    ensures p.den > 0 && p.num <= 100 * p.den
    ensures todos == [] ==> p.num == 0
    ensures p.num == 0 <==> forall k :: 0 <= k < |todos| ==> !todos[k].completed
    ensures todos != [] ==> (p.num == 100 * p.den <==> forall k :: 0 <= k < |todos| ==> todos[k].completed)
  {
    if |todos| == 0 then Percentage(0, 1)
    else Percentage(100 * CompletedCount(todos), |todos|)
  }

  /** The progress of a one-entry list: all of it is done or none of it. */
  lemma SingleProgress(t: Todo)
    ensures ChartData([t]) == if t.completed then [1, 0] else [0, 1]
    ensures ProgressPercent([t]) == if t.completed then Percentage(100, 1) else Percentage(0, 1)
  {
    assert [t][1..] == [];
  }

  lemma {:induction false} CompletedCountAppend(s: seq<Todo>, t: seq<Todo>)
    ensures CompletedCount(s + t) == CompletedCount(s) + CompletedCount(t)
  {
    if s == [] {
      assert s + t == t;
    } else {
      assert (s + t)[1..] == s[1..] + t;
      CompletedCountAppend(s[1..], t);
    }
  }

  /** Adding never changes the done count; a successful add adds one to the
      total. */
  lemma AddKeepsCompletedCount(todos: seq<Todo>, rawText: string, rawDate: string)
    ensures var r := Add(todos, rawText, rawDate);
      CompletedCount(r.todos) == CompletedCount(todos)
      && |r.todos| == |todos| + (if r.status == Added then 1 else 0)
  {
    var r := Add(todos, rawText, rawDate);
    if r.status == Added {
      CompletedCountAppend(todos, [r.todos[|todos|]]);
      assert r.todos == todos + [r.todos[|todos|]];
    }
  }

  /** The done count of a list is that of the part before `i`, entry `i`
      itself, and the part after it. */
  lemma CompletedCountAround(todos: seq<Todo>, i: nat)
    requires i < |todos|
    ensures CompletedCount(todos) == CompletedCount(todos[..i])
      + (if todos[i].completed then 1 else 0) + CompletedCount(todos[i + 1..])
  {
    var before, entry, after := todos[..i], [todos[i]], todos[i + 1..];
    assert todos == (before + entry) + after;
    CompletedCountAppend(before + entry, after);
    CompletedCountAppend(before, entry);
    assert entry[1..] == [];
  }

  /** Toggling entry `i` moves the done count by one, up or down according to
      the entry's old flag. */
  lemma ToggledCount(todos: seq<Todo>, i: nat)
    requires i < |todos|
    ensures CompletedCount(Toggled(todos, i))
        == CompletedCount(todos) + (if todos[i].completed then -1 else 1)
  {
    var r := Toggled(todos, i);
    assert r[..i] == todos[..i] && r[i + 1..] == todos[i + 1..];
    CompletedCountAround(todos, i);
    CompletedCountAround(r, i);
  }

  /** Deleting entry `i` lowers the done count exactly when that entry was
      done. */
  lemma RemovedCount(todos: seq<Todo>, i: nat)
    requires i < |todos|
    ensures CompletedCount(Removed(todos, i))
        == CompletedCount(todos) - (if todos[i].completed then 1 else 0)
  {
    CompletedCountAround(todos, i);
    CompletedCountAppend(todos[..i], todos[i + 1..]);
  }
}
