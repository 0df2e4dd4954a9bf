# Todo list widget: a Dafny model of its todo store

This project models the logic of a browser todo-list page. The page keeps an
ordered list of tasks. Each task has a text, a due date and a "completed" flag.
Users add tasks through a form, click a row to mark it done or not done, delete
a row with its button, and see their progress as a doughnut chart. A button
switches the page between a light and a dark theme.

The model has these modules:

- `JsString` is JavaScript's `String.prototype.trim`. It strips the white space
  and line terminators that ECMAScript 2023 (sections 12.2 and 12.3) names.
- `TodoList` holds the `Todo` record and the rule that no two entries share both
  text and date. It also has `find` as `FindIndex` and the effect of each list
  operation as a function on sequences (`Add`, `Toggled`, `Removed`). Lemmas
  prove what each operation does and that each keeps the rule.
- `Progress` holds the counts behind the chart: the number of entries done and
  the two chart segments. Lemmas show how each operation changes these counts.
  It also has the percentage that `updateProgress` computes (script.js:109).
  The page never uses that value: the chart receives only the two counts, and
  nothing on the page shows a percentage.
- `TodoStore` has the class `Store`. It owns the list and has the three event
  handlers as methods that change it in place. Each method is proved against
  its function in `TodoList` and keeps `Valid()`, the no-duplicate rule.
  `SampleSession` is a sample session that uses only the methods' contracts.
  It starts from an empty store and adds any filled-in task: one entry, not
  done, chart data `[0, 1]`. It marks the task done (chart data `[1, 0]`). It
  adds the same task again and gets the duplicate status, the list unchanged.
  It deletes the task: the list is empty and the chart data is `[0, 0]`.
- `Theme` has the theme toggle and the theme chosen at start-up.
- `Wrappers` has `Option`.

Two points of the code's behaviour are easy to miss:
- The page uses any non-empty saved theme string as it is. Toggling it gives
  `'light'`, because every value other than `'light'` toggles to `'light'`.
- The add handler trims the raw field values itself. It does nothing when
  either trimmed value is empty.

## Model

| member | source | states |
|---|---|---|
| `JsString.Trim` | script.js:34-35 | the trimmed value is no longer than the input, has no white space at either end, and is empty exactly when the input is all white space |
| `JsString.TrimStartIsSuffix` | script.js:34-35 | removing leading white space keeps a suffix of the input; everything cut off is white space, and the kept part does not start with white space |
| `JsString.TrimEndIsPrefix` | script.js:34-35 | removing trailing white space keeps a prefix of the input; everything cut off is white space, and the kept part does not end with white space |
| `JsString.TrimIsSlice` | script.js:34-35 | the trimmed value is the contiguous piece of the input that starts where the leading white space ends, with only white space before it and after it |
| `JsString.TrimEmptyIff` | script.js:34-38 | trimming gives the empty string exactly when every character is white space, which is when the add form ignores a field |
| `JsString.TrimOfTrimmed` | script.js:34-35 | a string with no white space at its ends is not changed by trimming |
| `JsString.TrimIdempotent` | script.js:34-35 | trimming twice gives the same result as trimming once |
| `TodoList.FindIndex` | script.js:40 | the search finds nothing exactly when no entry has the given text and date; otherwise it gives the first entry that does |
| `TodoList.Add` | script.js:33-57 | an add either leaves the list exactly as it was or appends one entry after the unchanged old entries; it grows the list exactly when the status is added |
| `TodoList.Toggled` | script.js:88 | toggling keeps the length of the list and the text and date of every entry |
| `TodoList.Removed` | script.js:78 | deleting an entry makes the list one entry shorter |
| `TodoList.AddIgnoresEmptyField` | script.js:34-38 | the form is ignored exactly when the text or the date is empty after trimming, and then the list is unchanged |
| `TodoList.AddRejectsDuplicate` | script.js:38-55 | adding a filled-in pair equal to an existing entry gives the duplicate status and leaves the list unchanged |
| `TodoList.AddAppendsNew` | script.js:43-48 | adding a filled-in new pair gives the added status; the list grows by one, earlier entries stay as they were, and the last entry is the trimmed text and date, not done |
| `TodoList.AddPreservesNoDuplicates` | script.js:40-48 | after an add, still no two entries share both text and date |
| `TodoList.AddIdempotent` | script.js:38-55 | submitting the same fields again does not change the list; if the first submission was not ignored, the second gives the duplicate status |
| `TodoList.ToggledChangesOnlyFlag` | script.js:88 | toggling entry i flips only its done flag; the length, its text and date, and every other entry stay the same |
| `TodoList.ToggleTwice` | script.js:88 | toggling the same entry twice gives back the original list |
| `TodoList.ToggledPreservesNoDuplicates` | script.js:88 | toggling keeps the list free of duplicates |
| `TodoList.RemovedKeepsOrder` | script.js:78 | deleting entry i shortens the list by one; entries before i keep their places, the ones after move down by one, and exactly one copy of entry i is removed |
| `TodoList.RemovedPreservesNoDuplicates` | script.js:78 | deleting keeps the list free of duplicates |
| `Progress.CompletedCount` | script.js:108 | the done count is at most the length of the list; it is zero exactly when no entry is done, and equals the length exactly when every entry is done |
| `Progress.CompletedPlusIncomplete` | script.js:107-108 | the done count plus the separately counted not-done entries equals the length of the list |
| `Progress.ChartData` | script.js:114 | the chart data has two non-negative segments that sum to the total: the done entries and the not-done entries |
| `Progress.ProgressPercent` | script.js:107-109 | the percentage the page computes, and never uses, is between 0 and 100; it is 0 for an empty list and exactly when nothing is done; it is 100 for a non-empty list exactly when every entry is done |
| `Progress.SingleProgress` | script.js:107-114 | for a one-entry list the chart data is `[1, 0]` and the percentage 100 when the entry is done, and `[0, 1]` and 0 when it is not |
| `Progress.CompletedCountAppend` | script.js:108 | the done count of two lists joined together is the sum of their done counts |
| `Progress.AddKeepsCompletedCount` | script.js:48 | an add never changes the done count, and it raises the total by one exactly when the status is added |
| `Progress.ToggledCount` | script.js:88 | toggling an entry lowers the done count by one if the entry was done and raises it by one if it was not |
| `Progress.RemovedCount` | script.js:78 | deleting an entry lowers the done count by one exactly when that entry was done |
| `Theme.Flipped` | script.js:26-27 | the toggle always gives `'light'` or `'dark'`; any value other than `'light'` gives `'light'`; either named theme gives the other one |
| `Theme.FlipTwice` | script.js:26-27 | two toggles from `'light'` or `'dark'` return to where they started |
| `Theme.SavedTheme` | script.js:137 | the start-up theme is never empty; it is `'dark'` when nothing, or the empty string, was saved, and otherwise it is the saved value |
| `Theme.SavedFlipRoundTrip` | script.js:26-29 | saving the theme a toggle wrote and then loading it at start-up gives the same theme |
| `TodoStore.Store.constructor` | script.js:9 | the list starts as the stored list, or as the empty list when nothing is stored |
| `TodoStore.Store.AddTodo` | script.js:33-57 | the add handler changes the list and reports a status exactly as `Add` says; it is ignored exactly when a field is all white space; it appends the trimmed entry, not done, or leaves the list unchanged; it keeps the no-duplicate rule |
| `TodoStore.Store.ToggleComplete` | script.js:87-88 | the row click replaces the list by `Toggled` of the old list, flipping only the clicked entry's flag, and keeps the no-duplicate rule |
| `TodoStore.Store.DeleteTodo` | script.js:77-78 | the delete button replaces the list by `Removed` of the old list, one entry shorter, and keeps the no-duplicate rule |
| `TodoStore.Store.UpdateProgress` | script.js:106-114 | for the current list it gives the chart data (two segments that sum to the total) and the unused percentage, as `ChartData` and `ProgressPercent` say |

## Left out

- Rendering and event wiring are not modelled (script.js:3-8, 18-21, 60-98): building the list items, `innerHTML`, `createElement`, the listeners, and clearing the form fields after an add (script.js:51-52). They only produce the view.
- A click on a row's delete button also reaches the row's own click handler, because the button sits inside the row. That handler flips the completion flag of an object that has already been removed from the list, so the list itself does not change. The model treats delete and toggle as separate operations by index.
- The toggle handler flips the object it captured when the list was drawn, not the entry at an index. The list is redrawn after every change, so the two are the same entry. The model uses the index.
- TodoStore.Store.ToggleComplete and TodoStore.Store.DeleteTodo require an index within the list. The page only uses indices from the current drawing of the list. `splice` with an index out of range is not modelled.
- TodoStore.Store.constructor requires the stored list to have no duplicates. The page never checks this when it loads the list. Stored text that was never trimmed is taken as it is.
- Saving to `localStorage` and reading from it, and JSON encoding, are left out (script.js:9, 29, 101-103, 137). They are browser I/O. What was stored arrives as an `Option` parameter. A stored value that is not valid JSON makes `JSON.parse` throw in the page; the model does not represent that case.
- Creating and updating the Chart.js chart (script.js:112-133) and the flatpickr date picker (script.js:13-15) are left out. They are third-party library calls. Only the chart's data is modelled.
- Progress.ProgressPercent: the page computes a floating-point percentage. The model keeps it as the exact fraction `100 * completed / total`, with no rounding.
- The duplicate `alert` (script.js:54) is a user-interface side effect. The model returns the status `Duplicate` in its place.
- JavaScript strings are sequences of UTF-16 code units. The model's strings are sequences of Unicode scalar values, so a lone surrogate cannot be represented. Every white-space character that trimming removes lies in the Basic Multilingual Plane. The white-space set is the one in ECMAScript 2023.
- The theme's `data-theme` attribute on the document and its saved copy are not kept as state. The toggle and the start-up rule are functions on the attribute's value.
