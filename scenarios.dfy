/** Worked scenarios of the task tracker, stated against the model. */
module Scenarios {
  import opened JsString
  import opened JsArray
  import opened Tasks
  import opened TaskList
  import App

  /** An empty list under "All" shows the prompt to add a task. */
  lemma EmptyListPromptsToAdd()
    ensures Filtered([], "All") == []
    ensures EmptyState([], "All") == Some(AddPrompt)
  {
  }

  /** A single task that is not completed leaves the "Completed" view empty. */
  lemma NothingCompletedYet(id: int)
    ensures var t := Task(id, "Ship report", "", "", "High", "Not Started", "");
      Filtered([t], "Completed") == [] &&
      EmptyState([t], "Completed") == Some("No completed tasks yet")
  {
    var t := Task(id, "Ship report", "", "", "High", "Not Started", "");
    EmptyStateCases([t], "Completed");
  }

  /** Under a priority criterion the view holds exactly the task of that priority. */
  lemma OnlyMediumShown(h: Task, m: Task, l: Task)
    requires h.priority == "High" && m.priority == "Medium" && l.priority == "Low"
    ensures Filtered([h, m, l], "Medium") == [m]
  {
    var p := PriorityIs("Medium");
    assert [h, m, l][1..] == [m, l];
    assert [m, l][1..] == [l];
    assert [l][1..] == [];
    assert Filter([l], p) == [];
    assert Filter([m, l], p) == [m] + Filter([l], p);
    assert Filter([h, m, l], p) == Filter([m, l], p);
  }

  /** A session of saves, an update and a delete. It reports the list's
      length after each step: a white-space-only name creates no task, a
      named save adds one, a second save without edits adds nothing because
      the draft was reset, and deleting the task's id empties the list. */
  method SaveScenarios() returns (sizes: seq<nat>)
    ensures sizes == [0, 1, 1, 1, 0]
  {
    var store := new App.TaskStore();
    store.ToggleAdding();
    store.InputChange(Name, "  ");
    assert IsBlank("  ");
    store.AddTask(1);
    assert store.isAddingTask;
    sizes := [|store.tasks|];

    store.InputChange(Name, "Ship report");
    assert !IsBlank("Ship report") by { assert !IsWhiteSpace("Ship report"[0]); }
    store.AddTask(2);
    assert store.tasks[0].id == 2 && !store.isAddingTask;
    assert store.tasks[0].Get(Name) == "Ship report";
    sizes := sizes + [|store.tasks|];
    store.AddTask(3);
    sizes := sizes + [|store.tasks|];

    store.UpdateTask(2, Status, "Completed");
    assert store.tasks[0].status == "Completed";
    sizes := sizes + [|store.tasks|];
    store.DeleteTask(2);
    sizes := sizes + [|store.tasks|];
  }
}
