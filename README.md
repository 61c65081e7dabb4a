# Todo page store

A model of the state behind the single page of a Next.js todo application
(`src/pages/index.js`). The `Home` component keeps a list of todo records
(`id`, `title`, `description`, `completed`, `date`) and five pieces of form
state: the add form's `title` and `description`, and the edit mode's
`editingId`, `editTitle` and `editDescription`. Its handlers are:

- `addTodo`: ignores a blank title; otherwise appends one record and clears the add form.
- `toggleTodo`: flips `completed` on matching records.
- `deleteTodo`: filters matching records out.
- `startEditing` and `cancelEditing`: enter and leave edit mode.
- `saveEdit`: ignores a blank edit title; otherwise rewrites matching records and leaves edit mode.

The page also shows two counts: the number of records, and the number of
completed ones.

The project has three modules:

- `Text` (`text.dfy`) models JavaScript's `String.prototype.trim` and the
  blank test `!s.trim()`. A string is blank exactly when all of its
  characters are whitespace.
- `TodoList` (`todo_list.dfy`) holds the record type and the whole-list
  transforms as functions over `seq<Todo>`: the spread-append, the two
  `map`s, the `filter` and the completed count. It also holds the five-record
  sample list and the lemmas about all of these.
- `HomePage` (`home.dfy`) holds the class `Home`. Its six fields are the
  component's six `useState` slots, and its methods are the handlers. Each
  method states its whole new state in terms of the `TodoList` functions. The
  predicate `Valid` is the page's invariant, and every handler keeps it. It
  has two parts. First, no record has a blank title: the blank-title guards
  of `addTodo` and `saveEdit` exist to keep this (`TodoList.TitlesNonBlank`).
  Second, outside edit mode both edit buffers are empty.

The clock is a parameter. `Date.now()` becomes the `now` argument of
`AddTodo`. The `toLocaleString` text becomes the `date` argument of
`AddTodo`, `ToggleTodo` and `SaveEdit`, and is stored as an opaque string.
Ids are never assumed to be unique, because the code does not check this.
Toggle, delete and save act on every record that carries the id. Titles are
stored untrimmed; the trim is used only for the blank test.

## Model

| member | source | states |
|---|---|---|
| `Text.IsWhitespace` | src/pages/index.js:67 | the characters `trim` strips: the ECMAScript WhiteSpace and LineTerminator code points (no contract of its own; its use is stated by the rows below) |
| `Text.TrimStart` | src/pages/index.js:67 | the result is a suffix of the input, everything dropped is whitespace, and the result does not start with whitespace |
| `Text.TrimEnd` | src/pages/index.js:67 | the result is a prefix of the input, everything dropped is whitespace, and the result does not end with whitespace |
| `Text.Trim` | src/pages/index.js:67 | the result is no longer than the input and neither starts nor ends with whitespace |
| `Text.TrimDropsOnlyWhitespace` | src/pages/index.js:67 | the result of `trim` is a contiguous slice of the input with only whitespace before and after it; with `Trim`'s contract this fixes the result |
| `Text.IsBlank` | src/pages/index.js:122-123 | `!s.trim()`, the guard of `addTodo` (line 67) and `saveEdit` (line 123): the trimmed string is empty (no contract of its own; `BlankIffAllWhitespace` states its meaning) |
| `Text.BlankIffAllWhitespace` | src/pages/index.js:122-123 | `!s.trim()` holds exactly when every character of `s` is whitespace |
| `TodoList.Occurrences` | src/pages/index.js:91 | the number of records carrying an id is at most the length, and is zero exactly when no record carries it |
| `TodoList.CompletedCount` | src/pages/index.js:311 | the completed count is at most the total; it is zero exactly when no record is completed and equals the total exactly when all are |
| `TodoList.Added` | src/pages/index.js:69-84 | the list grows by one; earlier records are unchanged and in order; the new last record has the given id, the untrimmed title and description, `completed = false` and the given date |
| `TodoList.Toggled` | src/pages/index.js:89-103 | same length and order; records with another id are untouched; each record with the id has `completed` negated and the new date, with every other field kept |
| `TodoList.Deleted` | src/pages/index.js:106-108 | the result holds exactly the records whose id differs; its length is the original length minus the number of records with that id. Order is not in this contract; `DeletedAppend` states it |
| `TodoList.Edited` | src/pages/index.js:125-139 | same length and order; records with another id are untouched; each record with the id gets the edited title and description and the new date, and keeps its id and completed flag |
| `TodoList.SampleTodos` | src/pages/index.js:25-61 | the sample list has five records, all completed, with distinct ids |
| `TodoList.SampleCounts` | src/pages/index.js:306-311 | both summary counts of the sample list are 5 |
| `TodoList.AddedCounts` | src/pages/index.js:84 | adding raises the total by one and leaves the completed count unchanged |
| `TodoList.CompletedCountAppend` | src/pages/index.js:311 | the completed count of a concatenation is the sum of the two counts |
| `TodoList.ToggledTwice` | src/pages/index.js:89-103 | toggling one id twice restores every `completed` flag; only the dates of the matching records differ, and they hold the second date |
| `TodoList.AbsentIdIsNoOp` | src/pages/index.js:89-139 | toggle, delete and edit of an id that no record carries return the list unchanged |
| `TodoList.DeletedAbsent` | src/pages/index.js:106-108 | deleting an id that no record carries keeps the list |
| `TodoList.DeletedAppend` | src/pages/index.js:106-108 | the delete filter keeps order: filtering a concatenation concatenates the filtered parts (so, record by record, the kept records stay in their original order) |
| `TodoList.DeletedIdempotent` | src/pages/index.js:106-108 | a second delete of the same id is a no-op |
| `TodoList.EditedCompletedCount` | src/pages/index.js:125-139 | an edit leaves the completed count unchanged |
| `TodoList.CompletedWith` | src/pages/index.js:89-103 | the number of completed records carrying an id is at most the number of records carrying it and at most the completed count |
| `TodoList.ToggledCount` | src/pages/index.js:89-103 | for any list, ids repeated or not, a toggle changes the completed count to the old count minus the completed records with the id plus the incomplete records with the id |
| `TodoList.ToggledUniqueCount` | src/pages/index.js:89-103 | toggling an id held by exactly one record lowers the completed count by one if that record was completed, and raises it by one otherwise |
| `TodoList.UniqueCompletedWith` | src/pages/index.js:89-103 | when exactly one record carries an id, the number of completed records with that id is 1 if that record is completed and 0 otherwise |
| `Text.StartsNonBlank` | src/pages/index.js:67 | a string whose first character is not whitespace passes the blank-title guard |
| `TodoList.SampleTitlesNonBlank` | src/pages/index.js:25-61 | no sample record has a blank title |
| `TodoList.AddedTitlesNonBlank` | src/pages/index.js:65-84 | appending a record whose title passed the guard at line 67 to a list with no blank title gives a list with no blank title |
| `TodoList.ToggledTitlesNonBlank` | src/pages/index.js:89-103 | a toggle keeps a list free of blank titles |
| `TodoList.DeletedTitlesNonBlank` | src/pages/index.js:106-108 | a delete keeps a list free of blank titles |
| `TodoList.EditedTitlesNonBlank` | src/pages/index.js:122-139 | an edit whose title passed the guard at line 123 keeps a list free of blank titles |
| `TodoList.AddToggleDeleteRestores` | src/pages/index.js:65-108 | adding a record under an id not in use, toggling it and deleting it gives back the original list |
| `TodoList.ToggledAppend` | src/pages/index.js:89-103 | toggling a concatenation toggles each part |
| `HomePage.Home.constructor` | src/pages/index.js:16-63 | after mounting, the list is the sample list, both form fields are empty, no row is being edited, and the invariant holds (no blank title) |
| `HomePage.Home.SetTitle` | src/pages/index.js:167 | typing into the title field replaces `title` and nothing else |
| `HomePage.Home.SetDescription` | src/pages/index.js:179 | typing into the description field replaces `description` and nothing else |
| `HomePage.Home.SetEditTitle` | src/pages/index.js:236 | typing into the edit title input, which is shown only in edit mode, replaces `editTitle` and nothing else |
| `HomePage.Home.SetEditDescription` | src/pages/index.js:249 | typing into the edit description input, which is shown only in edit mode, replaces `editDescription` and nothing else |
| `HomePage.Home.AddTodo` | src/pages/index.js:65-87 | a blank title changes nothing; otherwise the list becomes `Added(...)` with the untrimmed form values, both form fields become empty, and edit mode is untouched; the page invariant is kept |
| `HomePage.Home.ToggleTodo` | src/pages/index.js:89-104 | the list becomes `Toggled(old list, id, date)`; all other state is untouched; the page invariant is kept |
| `HomePage.Home.DeleteTodo` | src/pages/index.js:106-108 | the list becomes `Deleted(old list, id)`; all other state is untouched; the page invariant is kept |
| `HomePage.Home.StartEditing` | src/pages/index.js:110-114 | `editingId`, `editTitle` and `editDescription` are taken from the given record; the list and the add form are untouched |
| `HomePage.Home.CancelEditing` | src/pages/index.js:116-120 | edit mode is left: `editingId` becomes null and both buffers become empty; the list and the add form are untouched |
| `HomePage.Home.SaveEdit` | src/pages/index.js:122-144 | a blank edit title changes nothing, so edit mode stays on; otherwise the list becomes `Edited(old list, id, buffers, date)` for the argument `id` rather than `editingId`, edit mode ends with empty buffers, and the add form is untouched; the page invariant is kept |
| `HomePage.AddToggleDelete` | src/pages/index.js:65-108 | on a page with a non-blank title and an unused clock value, submitting, ticking the new row and deleting it restores the list and keeps the page invariant |

## Left out

- Rendering is not modelled (src/pages/index.js:146-317): the JSX, the CSS classes and the table layout. Only the two count expressions at lines 306 and 311 are kept, as `|todos|` and `CompletedCount`.
- Font loading through `next/font/google` (lines 3-13) is a call into a foreign library.
- `Date.now()` and `toLocaleString` read the clock and the locale. They are parameters here, and a date is an opaque string. Nothing in the model claims that ids are unique.
- `TodoList.Toggled` and `TodoList.Edited` take one `date` per call and give it to every matching record. The source calls `new Date()` once for each matching record (lines 94 and 130), so records sharing an id could get dates a minute apart in the source.
- React's hook machinery is left out. The mount effect at lines 24-63 is modelled only as the constructor's initial list. The brief first render with an empty list is not a state of the model, and neither is the re-render after each `set…` call. Handlers run one at a time, each on the state the previous one left, so the stale-closure reads that React's batching could cause are not modelled.
- `e.preventDefault()` in `addTodo` is a browser event call with no effect on this state.
- `HomePage.Home.SetEditTitle`: requires edit mode to be on, besides the page invariant that every handler requires. The page renders the edit inputs only for the row whose id equals `editingId` (lines 232-257), so no other call exists. `SetEditDescription` has the same requirement for the same reason.
- `Text.IsWhitespace` lists the ECMAScript WhiteSpace and LineTerminator code points. The "Zs" category is taken as the Unicode assignment current when this was written. Later Unicode versions could change that set.
- `HomePage.AddToggleDelete`: does not restate that the add form ends empty. `AddTodo`'s own contract already says so.
