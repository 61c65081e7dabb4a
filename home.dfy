/**
 The state of the `Home` page component and its event handlers. Each of the
 six `useState` slots is a field; each handler is a method that replaces
 some of them, computing the new list with the transforms of `TodoList`.
 The clock (`Date.now()`) and the locale date text are handed to the
 handlers that read them as the parameters `now` and `date`.
 */
module HomePage {
  import opened Text
  import opened TodoList

  datatype Option<T> = None | Some(value: T)

  class Home {
    var todos: seq<Todo>
    var title: string
    var description: string
    /** `null` when no row is being edited. */
    var editingId: Option<Id>
    var editTitle: string
    var editDescription: string

    /** No record has a blank title: the blank-title guards of `addTodo`
        and `saveEdit` keep blank titles out of the list. Outside edit mode
        the edit buffers are empty: they are filled only by `startEditing`
        and by typing into the edit inputs, which the page renders only for
        the row being edited. */
    ghost predicate Valid()
      reads this`todos, this`editingId, this`editTitle, this`editDescription
    {
      && TitlesNonBlank(todos)
      && (editingId.None? ==> editTitle == [] && editDescription == [])
    }

    /** The page just after mounting: the sample list installed by the mount
        effect, empty form fields, and no row in edit mode. */
    constructor ()
      ensures Valid()
      ensures todos == SampleTodos()
      ensures title == [] && description == []
      ensures editingId == None && editTitle == [] && editDescription == []
    {
      todos := SampleTodos();
      SampleTitlesNonBlank();
      title, description := [], [];
      editingId, editTitle, editDescription := None, [], [];
    }

    /** Typing into the Title field of the add form. */
    method SetTitle(value: string)
      modifies this`title
      ensures title == value
    {
      title := value;
    }

    /** Typing into the Description field of the add form. */
    method SetDescription(value: string)
      modifies this`description
      ensures description == value
    {
      description := value;
    }

    /** Typing into the title input of the row being edited. */
    method SetEditTitle(value: string)
      requires Valid() && editingId.Some?
      modifies this`editTitle
      ensures Valid() && editTitle == value
    {
      editTitle := value;
    }

    /** Typing into the description input of the row being edited. */
    method SetEditDescription(value: string)
      requires Valid() && editingId.Some?
      modifies this`editDescription
      ensures Valid() && editDescription == value
    {
      editDescription := value;
    }

    /** Submitting the add form. A blank title changes nothing; otherwise a
        record holding the untrimmed title and description is appended and
        both form fields are cleared. Edit mode is not touched. */
    method AddTodo(now: Id, date: Date)
      requires Valid()
      modifies this`todos, this`title, this`description
      ensures Valid()
      ensures IsBlank(old(title)) ==> unchanged(this)
      ensures !IsBlank(old(title)) ==>
        && todos == Added(old(todos), now, old(title), old(description), date)
        && title == [] && description == []
    {
      var blank := IsBlank(title);
      if blank {
        return;
      }
      AddedTitlesNonBlank(todos, now, title, description, date);
      todos := Added(todos, now, title, description, date);
      title, description := [], [];
    }

    /** Ticking the checkbox of a row: every record carrying `id` flips. */
    method ToggleTodo(id: Id, date: Date)
      requires Valid()
      modifies this`todos
      ensures Valid()
      ensures todos == Toggled(old(todos), id, date)
    {
      ToggledTitlesNonBlank(todos, id, date);
      todos := Toggled(todos, id, date);
    }

    /** The Delete button of a row: every record carrying `id` goes. */
    method DeleteTodo(id: Id)
      requires Valid()
      modifies this`todos
      ensures Valid()
      ensures todos == Deleted(old(todos), id)
    {
      DeletedTitlesNonBlank(todos, id);
      todos := Deleted(todos, id);
    }

    /** The Edit button of a row: the row enters edit mode with its current
        title and description in the edit buffers. */
    method StartEditing(todo: Todo)
      requires Valid()
      modifies this`editingId, this`editTitle, this`editDescription
      ensures Valid()
      ensures editingId == Some(todo.id)
      ensures editTitle == todo.title && editDescription == todo.description
    {
      editingId, editTitle, editDescription := Some(todo.id), todo.title, todo.description;
    }

    /** The Cancel button: edit mode ends and the buffers are discarded; the
        list is not touched. */
    method CancelEditing()
      requires Valid()
      modifies this`editingId, this`editTitle, this`editDescription
      ensures Valid()
      ensures editingId == None && editTitle == [] && editDescription == []
    {
      editingId, editTitle, editDescription := None, [], [];
    }

    /** The Save button of row `id`. A blank edit title changes nothing, so
        edit mode stays on. Otherwise every record carrying `id` (the
        argument, not `editingId`) takes the buffers' title and description,
        and edit mode ends with empty buffers. The add form is not touched. */
    method SaveEdit(id: Id, date: Date)
      requires Valid()
      modifies this`todos, this`editingId, this`editTitle, this`editDescription
      ensures Valid()
      ensures IsBlank(old(editTitle)) ==> unchanged(this)
      ensures !IsBlank(old(editTitle)) ==>
        && todos == Edited(old(todos), id, old(editTitle), old(editDescription), date)
        && editingId == None && editTitle == [] && editDescription == []
    {
      var blank := IsBlank(editTitle);
      if blank {
        return;
      }
      EditedTitlesNonBlank(todos, id, editTitle, editDescription, date);
      todos := Edited(todos, id, editTitle, editDescription, date);
      editingId, editTitle, editDescription := None, [], [];
    }
  }

  /** A caller's view of the handlers: on any page whose list does not use
      the clock value `now` and whose add form holds a non-blank title,
      submitting the form, ticking the new row and deleting it leaves the
      list as it was. */
  method AddToggleDelete(page: Home, now: Id, date1: Date, date2: Date)
    requires page.Valid() && !IsBlank(page.title)
    requires forall i :: 0 <= i < |page.todos| ==> page.todos[i].id != now
    modifies page
    ensures page.Valid() && page.todos == old(page.todos)
  {
    ghost var start, title, description := page.todos, page.title, page.description;
    page.AddTodo(now, date1);
    page.ToggleTodo(now, date2);
    page.DeleteTodo(now);
    assert page.todos == start by {
      AddToggleDeleteRestores(start, now, title, description, date1, date2);
    }
  }
}
