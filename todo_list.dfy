/**
 The todo records of the page and the whole-list transforms its handlers
 apply: the spread-append of `addTodo`, the `map` of `toggleTodo` and
 `saveEdit`, the `filter` of `deleteTodo`, and the two summary counts shown
 under the table. Every transform returns a new list; none inspects more than
 the `id` of a record to decide whether it applies, and none assumes that ids
 are unique.
 */
module TodoList {
  import opened Text

  /** `Date.now()` at creation: an integer number of milliseconds. */
  type Id = int

  /** The `toLocaleString` text stored in a record, treated as opaque. */
  type Date = string

  datatype Todo = Todo(id: Id, title: string, description: string, completed: bool, date: Date)

  /** The number of records carrying `id`. */
  function Occurrences(todos: seq<Todo>, id: Id): (n: nat)
    ensures n <= |todos|
    ensures n == 0 <==> forall i :: 0 <= i < |todos| ==> todos[i].id != id
  {
    if todos == [] then 0
    else (if todos[0].id == id then 1 else 0) + Occurrences(todos[1..], id)
  }

  /** The second summary count, `todos.filter(todo => todo.completed).length`. */
  function CompletedCount(todos: seq<Todo>): (n: nat)
    ensures n <= |todos|
    ensures n == 0 <==> forall i :: 0 <= i < |todos| ==> !todos[i].completed
    ensures n == |todos| <==> forall i :: 0 <= i < |todos| ==> todos[i].completed
  {
    if todos == [] then 0
    else (if todos[0].completed then 1 else 0) + CompletedCount(todos[1..])
  }

  /** `[...todos, newTodo]` with the record `addTodo` builds: the new record
      goes last, is not completed, and keeps title and description as given. */
  function Added(todos: seq<Todo>, id: Id, title: string, description: string, date: Date): (r: seq<Todo>)
    ensures |r| == |todos| + 1 && r[..|todos|] == todos
    ensures r[|todos|] == Todo(id, title, description, false, date)
  {
    todos + [Todo(id, title, description, false, date)]
  }

  /** The `map` of `toggleTodo`: every record carrying `id` gets its
      `completed` flag negated and `date` as its date; the others are kept. */
  function Toggled(todos: seq<Todo>, id: Id, date: Date): (r: seq<Todo>)
    ensures |r| == |todos|
    ensures forall i :: 0 <= i < |todos| && todos[i].id != id ==> r[i] == todos[i]
    ensures forall i :: 0 <= i < |todos| && todos[i].id == id ==>
              r[i] == todos[i].(completed := !todos[i].completed, date := date)
  {
    if todos == [] then []
    else
      var t := todos[0];
      [if t.id == id then t.(completed := !t.completed, date := date) else t]
        + Toggled(todos[1..], id, date)
  }

  /** The `filter` of `deleteTodo`: the records whose id differs from `id`. */
  function Deleted(todos: seq<Todo>, id: Id): (r: seq<Todo>)
    ensures |r| == |todos| - Occurrences(todos, id)
    ensures forall t :: t in r <==> t in todos && t.id != id
  {
    if todos == [] then []
    else (if todos[0].id == id then [] else [todos[0]]) + Deleted(todos[1..], id)
  }

  /** The `map` of `saveEdit`: every record carrying `id` gets the edited
      title and description and `date` as its date, and keeps its id and
      completed flag; the others are kept. */
  function Edited(todos: seq<Todo>, id: Id, title: string, description: string, date: Date): (r: seq<Todo>)
    ensures |r| == |todos|
    ensures forall i :: 0 <= i < |todos| && todos[i].id != id ==> r[i] == todos[i]
    ensures forall i :: 0 <= i < |todos| && todos[i].id == id ==>
              r[i] == Todo(id, title, description, todos[i].completed, date)
  {
    if todos == [] then []
    else
      var t := todos[0];
      [if t.id == id then t.(title := title, description := description, date := date) else t]
        + Edited(todos[1..], id, title, description, date)
  }

  /** No two records share an id. */
  predicate DistinctIds(todos: seq<Todo>) {
    forall i, j :: 0 <= i < j < |todos| ==> todos[i].id != todos[j].id
  }

  /** The descriptions and the date of the five sample records. */
  const GroceryDescription := "Pick up milk, eggs, cheese, and fresh produce from the market."
  const BillsDescription := "Ensure electricity and internet bills are paid before the due date (Friday)."
  const CallDescription := "Check in and finalize plans for the upcoming holiday weekend."
  const CarWashDescription := "Take the car to the wash and check the tire pressure."
  const AppointmentDescription := "Schedule the annual physical check-up with Dr. Peterson."
  const SampleDate := "November 20, 2025 09:23 PM"

  /** The five sample records the page installs when it mounts. */
  function SampleTodos(): (r: seq<Todo>)
    ensures |r| == 5 && DistinctIds(r)
    ensures forall i :: 0 <= i < |r| ==> 1700445601 <= r[i].id <= 1700445605
    ensures forall i :: 0 <= i < |r| ==> r[i].completed
  {
    [ Todo(1700445601, "Grocery Shopping", GroceryDescription, true, SampleDate),
      Todo(1700445602, "Pay Utility Bills", BillsDescription, true, SampleDate),
      Todo(1700445603, "Call Mom", CallDescription, true, SampleDate),
      Todo(1700445604, "Car Wash", CarWashDescription, true, SampleDate),
      Todo(1700445605, "Book Appointment", AppointmentDescription, true, SampleDate) ]
  }

  /** The record invariant the page keeps: no record has a blank title.
      The two blank-title guards exist to keep it. */
  predicate TitlesNonBlank(todos: seq<Todo>) {
    forall t :: t in todos ==> !IsBlank(t.title)
  }

  // ---------------------------------------------------------------------
  // Properties of the transforms
  // ---------------------------------------------------------------------

  /** Both summary counts of the sample list are five. */
  lemma SampleCounts()
    ensures |SampleTodos()| == 5 && CompletedCount(SampleTodos()) == 5
  {
  }

  /** Adding a record raises the first summary count by one and leaves the
      second one alone, since the new record is not completed. */
  lemma {:induction false} AddedCounts(todos: seq<Todo>, id: Id, title: string, description: string, date: Date)
    ensures |Added(todos, id, title, description, date)| == |todos| + 1
    ensures CompletedCount(Added(todos, id, title, description, date)) == CompletedCount(todos)
  {
    CompletedCountAppend(todos, [Todo(id, title, description, false, date)]);
  }

  /** The completed count of a concatenation is the sum of the counts. */
  lemma {:induction false} CompletedCountAppend(a: seq<Todo>, b: seq<Todo>)
    ensures CompletedCount(a + b) == CompletedCount(a) + CompletedCount(b)
  {
    if a != [] {
      assert (a + b)[1..] == a[1..] + b;
      CompletedCountAppend(a[1..], b);
    } else {
      assert a + b == b;
    }
  }

  /** Toggling the same id twice restores every record's completed flag and
      changes nothing but the dates of the records carrying that id. */
  lemma ToggledTwice(todos: seq<Todo>, id: Id, date1: Date, date2: Date)
    ensures var r := Toggled(Toggled(todos, id, date1), id, date2);
      && |r| == |todos|
      && (forall i :: 0 <= i < |todos| ==> r[i].completed == todos[i].completed)
      && (forall i :: 0 <= i < |todos| ==>
            r[i] == if todos[i].id == id then todos[i].(date := date2) else todos[i])
  {
  }

  /** A toggle, a delete or an edit of an id that no record carries leaves
      the list as it was. */
  lemma AbsentIdIsNoOp(todos: seq<Todo>, id: Id, title: string, description: string, date: Date)
    requires forall i :: 0 <= i < |todos| ==> todos[i].id != id
    ensures Toggled(todos, id, date) == todos
    ensures Deleted(todos, id) == todos
    ensures Edited(todos, id, title, description, date) == todos
  {
    DeletedAbsent(todos, id);
  }

  /** Deleting an id that no record carries keeps the list. */
  lemma {:induction false} DeletedAbsent(todos: seq<Todo>, id: Id)
    requires forall i :: 0 <= i < |todos| ==> todos[i].id != id
    ensures Deleted(todos, id) == todos
  {
    if todos != [] {
      DeletedAbsent(todos[1..], id);
      assert todos == [todos[0]] + todos[1..];
    }
  }

  /** Deleting preserves order: the filter of a concatenation is the
      concatenation of the filters. */
  lemma {:induction false} DeletedAppend(a: seq<Todo>, b: seq<Todo>, id: Id)
    ensures Deleted(a + b, id) == Deleted(a, id) + Deleted(b, id)
  {
    if a != [] {
      assert (a + b)[1..] == a[1..] + b;
      DeletedAppend(a[1..], b, id);
    } else {
      assert a + b == b;
    }
  }

  /** A second delete of the same id is a no-op. */
  lemma DeletedIdempotent(todos: seq<Todo>, id: Id)
    ensures Deleted(Deleted(todos, id), id) == Deleted(todos, id)
  {
    var r := Deleted(todos, id);
    assert forall i :: 0 <= i < |r| ==> r[i] in r;
    DeletedAbsent(r, id);
  }

  /** An edit changes neither the ids nor the completed flags, so the second
      summary count stays the same. */
  lemma {:induction false} EditedCompletedCount(todos: seq<Todo>, id: Id, title: string, description: string, date: Date)
    ensures CompletedCount(Edited(todos, id, title, description, date)) == CompletedCount(todos)
  {
    if todos != [] {
      EditedCompletedCount(todos[1..], id, title, description, date);
    }
  }

  /** The number of records carrying `id` that are completed. */
  function CompletedWith(todos: seq<Todo>, id: Id): (n: nat)
    ensures n <= Occurrences(todos, id) && n <= CompletedCount(todos)
  {
    if todos == [] then 0
    else (if todos[0].id == id && todos[0].completed then 1 else 0) + CompletedWith(todos[1..], id)
  }

  /** A toggle moves the completed count by the records it touches: the
      completed ones carrying `id` stop counting and the others carrying
      `id` start counting. */
  lemma {:induction false} ToggledCount(todos: seq<Todo>, id: Id, date: Date)
    ensures CompletedCount(Toggled(todos, id, date)) ==
      CompletedCount(todos) - CompletedWith(todos, id) + (Occurrences(todos, id) - CompletedWith(todos, id))
  {
    if todos != [] {
      var r := Toggled(todos, id, date);
      assert r[1..] == Toggled(todos[1..], id, date);
      ToggledCount(todos[1..], id, date);
    }
  }

  /** Toggling the id of a record that no other record shares moves the
      completed count by exactly one, in the direction of its new flag. */
  lemma ToggledUniqueCount(todos: seq<Todo>, k: nat, date: Date)
    requires k < |todos| && Occurrences(todos, todos[k].id) == 1
    ensures CompletedCount(Toggled(todos, todos[k].id, date)) ==
      if todos[k].completed then CompletedCount(todos) - 1 else CompletedCount(todos) + 1
  {
    ToggledCount(todos, todos[k].id, date);
    UniqueCompletedWith(todos, k);
  }

  /** When one record alone carries its id, it alone decides whether a
      completed record carries that id. */
  lemma {:induction false} UniqueCompletedWith(todos: seq<Todo>, k: nat)
    requires k < |todos| && Occurrences(todos, todos[k].id) == 1
    ensures CompletedWith(todos, todos[k].id) == if todos[k].completed then 1 else 0
  {
    var id := todos[k].id;
    if k == 0 {
      assert Occurrences(todos[1..], id) == 0;
    } else {
      assert todos[1..][k - 1] == todos[k];
      assert Occurrences(todos[1..], id) != 0;
      UniqueCompletedWith(todos[1..], k - 1);
    }
  }

  /** Adding a record under a fresh id, toggling it and deleting it gives
      back the list it started from. */
  lemma AddToggleDeleteRestores(todos: seq<Todo>, now: Id, title: string, description: string, date1: Date, date2: Date)
    requires forall i :: 0 <= i < |todos| ==> todos[i].id != now
    ensures Deleted(Toggled(Added(todos, now, title, description, date1), now, date2), now) == todos
  {
    var x := Todo(now, title, description, false, date1);
    var t := x.(completed := true, date := date2);
    assert Added(todos, now, title, description, date1) == todos + [x];
    ToggledAppend(todos, [x], now, date2);
    AbsentIdIsNoOp(todos, now, title, description, date2);
    assert Toggled([x], now, date2) == [t];
    DeletedAppend(todos, [t], now);
    assert Deleted([t], now) == [];
  }

  /** Every sample record has a non-blank title. */
  lemma SampleTitlesNonBlank()
    ensures TitlesNonBlank(SampleTodos())
  {
    var r := SampleTodos();
    forall t | t in r ensures !IsBlank(t.title) {
      StartsNonBlank(t.title);
    }
  }

  /** Appending a record with a non-blank title keeps every title non-blank. */
  lemma AddedTitlesNonBlank(todos: seq<Todo>, id: Id, title: string, description: string, date: Date)
    requires TitlesNonBlank(todos) && !IsBlank(title)
    ensures TitlesNonBlank(Added(todos, id, title, description, date))
  {
  }

  /** A toggle changes no title. */
  lemma ToggledTitlesNonBlank(todos: seq<Todo>, id: Id, date: Date)
    requires TitlesNonBlank(todos)
    ensures TitlesNonBlank(Toggled(todos, id, date))
  {
  }

  /** A delete keeps only records that were there, so only titles that were
      non-blank. */
  lemma DeletedTitlesNonBlank(todos: seq<Todo>, id: Id)
    requires TitlesNonBlank(todos)
    ensures TitlesNonBlank(Deleted(todos, id))
  {
  }

  /** An edit with a non-blank title keeps every title non-blank. */
  lemma EditedTitlesNonBlank(todos: seq<Todo>, id: Id, title: string, description: string, date: Date)
    requires TitlesNonBlank(todos) && !IsBlank(title)
    ensures TitlesNonBlank(Edited(todos, id, title, description, date))
  {
  }

  /** Toggling a concatenation toggles each part. */
  lemma ToggledAppend(a: seq<Todo>, b: seq<Todo>, id: Id, date: Date)
    ensures Toggled(a + b, id, date) == Toggled(a, id, date) + Toggled(b, id, date)
  {
  }
}
