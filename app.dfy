/** The state of the task tracker's root component and its event handlers.
    Each handler replaces the affected piece of state with a new value, as the
    component's state setters do; rendering reads the state through the
    functions of TaskList. */
module App {
  import opened JsString
  import opened Tasks
  import opened TaskList

  class TaskStore {
    /** The task list, in insertion order. */
    var tasks: seq<Task>
    /** Whether the "Create New Task" form is open. */
    var isAddingTask: bool
    /** The filter criterion: "All", "Completed" or a priority. */
    var filter: string
    /** The form's draft. */
    var newTask: Draft
    /** What the save effect last wrote to local storage. */
    ghost var stored: seq<Task>

    /** Every change of the list is saved. */
    ghost predicate Valid()
      reads this
    {
      stored == tasks
    }

    /** The component's initial state, before anything is loaded. */
    constructor ()
      ensures Valid()
      ensures tasks == [] && !isAddingTask && filter == "All" && newTask == EmptyDraft
    {
      tasks := [];
      isAddingTask := false;
      filter := "All";
      newTask := EmptyDraft;
      stored := [];
    }

    /** A form control writes its value into the draft property it names. */
    method InputChange(f: Field, value: string)
      requires Valid()
      modifies this
      ensures Valid()
      ensures newTask == old(newTask).With(f, value)
      ensures tasks == old(tasks) && isAddingTask == old(isAddingTask) && filter == old(filter)
    {
      newTask := newTask.With(f, value);
    }

    /** Save: a draft whose name is not blank is appended as a task with the
        given clock value as id, and the form is reset and closed; a blank
        name changes nothing. */
    method AddTask(now: int)
      requires Valid()
      modifies this
      ensures Valid()
      ensures filter == old(filter)
      ensures !IsBlank(old(newTask).name) ==>
        && tasks == old(tasks) + [Stamp(old(newTask), now)]
        && newTask == EmptyDraft && !isAddingTask
      ensures IsBlank(old(newTask).name) ==>
        tasks == old(tasks) && newTask == old(newTask) && isAddingTask == old(isAddingTask)
    {
      TrimEmptyIffBlank(newTask.name);
      if Trim(newTask.name) != "" {
        tasks := tasks + [Stamp(newTask, now)];
        stored := tasks;
        newTask := EmptyDraft;
        isAddingTask := false;
      }
    }

    /** Delete every task that carries the id. */
    method DeleteTask(id: int)
      requires Valid()
      modifies this
      ensures Valid()
      ensures tasks == Remove(old(tasks), id)
      ensures newTask == old(newTask) && isAddingTask == old(isAddingTask) && filter == old(filter)
    {
      tasks := Remove(tasks, id);
      stored := tasks;
    }

    /** Replace one property of every task that carries the id. */
    method UpdateTask(id: int, f: Field, value: string)
      requires Valid()
      modifies this
      ensures Valid()
      ensures tasks == Update(old(tasks), id, f, value)
      ensures newTask == old(newTask) && isAddingTask == old(isAddingTask) && filter == old(filter)
    {
      tasks := Update(tasks, id, f, value);
      stored := tasks;
    }

    /** A filter button selects its criterion. */
    method SetFilter(criterion: string)
      requires Valid()
      modifies this
      ensures Valid()
      ensures filter == criterion
      ensures tasks == old(tasks) && newTask == old(newTask) && isAddingTask == old(isAddingTask)
    {
      filter := criterion;
    }

    /** The "+ Add New Task" / "Cancel" button opens or closes the form; the
        draft is kept either way. */
    method ToggleAdding()
      requires Valid()
      modifies this
      ensures Valid()
      ensures isAddingTask == !old(isAddingTask)
      ensures tasks == old(tasks) && newTask == old(newTask) && filter == old(filter)
    {
      isAddingTask := !isAddingTask;
    }
  }
}
