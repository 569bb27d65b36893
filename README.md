# Task tracker core in Dafny

A model of the bookkeeping inside the single `App` component of a browser
task tracker. The component holds three pieces of state:

- an ordered list of tasks;
- a draft task behind the "Create New Task" form;
- a filter criterion: `All`, `Completed` or a priority.

Four handlers change that state:

- save the draft as a new task, stamped with the clock value as its id;
- delete by id;
- replace one property of the tasks with a given id;
- write one property of the draft.

Read-only expressions derive the rest from the state:

- the filtered view;
- the empty-state hint;
- the footer counters;
- the priority badge colour.

Modules:

- `JsString` (`js_string.dfy`): `String.prototype.trim` over the ECMAScript
  WhiteSpace and LineTerminator code points, and the fact that a trimmed
  string is empty exactly when the input is blank.
- `JsArray` (`js_array.dfy`): `Array.prototype.filter` and `map` as recursive
  functions. Lemmas cover order (filtering distributes over concatenation),
  exact multiplicity, counting by positions, and emptiness.
- `Tasks` (`task.dfy`): the `Draft` and `Task` records, their by-name
  property access and update, the reset draft, the offered priorities and
  statuses, and the colour table.
- `TaskList` (`task_list.dfy`): the new list each handler computes (`Remove`,
  `Update`, appending a stamped draft), the filtered view, the empty state and
  the footer. It also proves the data-model invariants (unique ids, well-formed
  tasks) and when each handler preserves them.
- `App` (`app.dfy`): class `TaskStore`, whose fields are the component's
  state and whose methods are its handlers. A ghost field `stored` stands for
  what the save effect last wrote to local storage; `Valid()` says it always
  equals the list.
- `Scenarios` (`scenarios.dfy`): worked scenarios stated against the model.

The intended data model is stricter than the code, and the model follows
the code:

- The intended data model has unique ids, non-blank names, and priority and
  status always among the offered choices.
- The code checks for a non-blank name only when a task is created
  (src/App.jsx:39; the save button is also disabled, src/App.jsx:213). Its
  controls offer only the listed priorities and statuses (src/App.jsx:159-182,
  268-276).
- Nothing validates the handlers' arguments, later updates or stored data,
  and ids taken from `Date.now()` can collide.
- The model therefore keeps priority and status as free strings. It states the
  intended invariants as the predicates `UniqueIds` and `WellFormed`, and
  proves the conditions under which each handler preserves them.
- "Delete shortens the list by one" holds only when ids are unique
  (`RemovePresentUnique`). Otherwise every task with the id goes (`Remove`).

## Model

| member | source | states |
|---|---|---|
| JsString.TrimStart | src/App.jsx:39 | the result is the longest suffix of the input that does not start with white space; everything dropped is white space |
| JsString.TrimEnd | src/App.jsx:39 | the result is the longest prefix of the input that does not end with white space; everything dropped is white space |
| JsString.Trim | src/App.jsx:39 | a non-empty trimmed string neither starts nor ends with white space |
| JsString.TrimEmptyIffBlank | src/App.jsx:39 | `name.trim()` is empty (falsy) exactly when every character of the name is white space |
| JsString.TrimIsInfix | src/App.jsx:39 | the trimmed string is the infix of the input that starts after the leading white space |
| JsArray.Filter | src/App.jsx:54 | the result is no longer than the input; every kept element is in the input and satisfies the callback; every input element that satisfies it is kept |
| JsArray.Map | src/App.jsx:58-60 | the result has the input's length and holds the callback's value of each element at the same position |
| JsArray.FilterConcat | src/App.jsx:54 | filtering a concatenation is concatenating the filtered parts, so the original order is kept |
| JsArray.FilterMultiplicity | src/App.jsx:54 | an element that satisfies the callback occurs in the result as often as in the input; any other element never occurs |
| JsArray.FilterKeepsAll | src/App.jsx:54 | when every element satisfies the callback, the result is the input |
| JsArray.FilterEmptyIff | src/App.jsx:66-67 | the result is empty exactly when no element satisfies the callback |
| JsArray.FilterAgree | src/App.jsx:63-67 | callbacks that agree on the elements select the same result |
| JsArray.FilterLengthCountsPositions | src/App.jsx:309-310 | the length of a filtered list is the number of positions of the input whose element satisfies the callback |
| JsArray.FilterDisjointLength | src/App.jsx:309-310 | two filters whose callbacks never hold together keep at most the input's length between them |
| Tasks.Draft.With | src/App.jsx:30-36 | the named draft property holds the new value; every other property is unchanged |
| Tasks.Task.With | src/App.jsx:59 | the named task property holds the new value; the id and every other property are unchanged |
| Tasks.Stamp | src/App.jsx:40 | the new task carries the given id and every property of the draft |
| Tasks.PriorityColor | src/App.jsx:69-76 | the colour is one of the four table entries, and it is the grey default exactly when the priority is not High, Medium or Low |
| Tasks.PriorityColorInjective | src/App.jsx:69-76 | the three offered priorities get three different colours |
| Tasks.EmptyDraftIsBlank | src/App.jsx:8-15 | the reset draft has a blank name, so it cannot be saved as it is, and offers valid priority and status defaults |
| Tasks.StampWellFormed | src/App.jsx:40 | a draft with a non-blank name and offered priority and status becomes a well-formed task |
| TaskList.Remove | src/App.jsx:53-55 | no task with the id remains; every survivor was in the list; every task with another id survives; the list does not grow |
| TaskList.RemoveAbsent | src/App.jsx:53-55 | deleting an id no task carries leaves the list unchanged |
| TaskList.RemoveConcat | src/App.jsx:53-55 | deletion keeps the survivors in their original order |
| TaskList.RemovePresentUnique | src/App.jsx:53-55 | with unique ids, deleting a present id shortens the list by exactly one |
| TaskList.FilterKeepsUniqueIds | src/App.jsx:54 | any filtering of a list with unique ids keeps the ids unique |
| TaskList.ConsUniqueIds | src/App.jsx:54 | putting a task in front of a list that does not use its id keeps the ids unique |
| TaskList.RemoveKeepsUniqueIds | src/App.jsx:53-55 | deletion keeps ids unique |
| TaskList.RemoveKeepsWellFormed | src/App.jsx:53-55 | deletion keeps every task well formed |
| TaskList.Update | src/App.jsx:57-61 | the length and every id are kept; a task with another id is unchanged; a task with the id holds the new value in the named property and its old values in the others |
| TaskList.UpdateAbsent | src/App.jsx:57-61 | updating an id no task carries leaves the list unchanged |
| TaskList.UpdateIdempotent | src/App.jsx:57-61 | repeating the same update changes nothing more |
| TaskList.UpdateKeepsUniqueIds | src/App.jsx:57-61 | updating keeps ids unique |
| TaskList.UpdateStatusKeepsWellFormed | src/App.jsx:268-276 | setting the status to an offered choice, as the status selector does, keeps every task well formed |
| TaskList.RemoveAfterUpdate | src/App.jsx:53-61 | deleting an id after updating it gives the same list as deleting it directly |
| TaskList.RemoveAfterAdd | src/App.jsx:40 | deleting the id of a just-added task, when no older task carried it, restores the list from before the add |
| TaskList.AddKeepsUniqueIds | src/App.jsx:40 | appending a task with an id not yet in the list keeps ids unique |
| TaskList.AddKeepsWellFormed | src/App.jsx:38-40 | appending a draft with a non-blank name and offered choices keeps every task well formed |
| TaskList.Filtered | src/App.jsx:63-67 | the view is no longer than the list; under All it is the list; every shown task is in the list and meets the criterion; every task that meets it is shown |
| TaskList.FilteredIsFilter | src/App.jsx:63-67 | under every criterion the view is the list filtered by the criterion's predicate |
| TaskList.FilteredConcat | src/App.jsx:63-67 | the view keeps the list's order |
| TaskList.FilteredMultiplicity | src/App.jsx:63-67 | a task that meets the criterion is shown exactly as often as it is in the list; any other task is never shown |
| TaskList.EmptyHint | src/App.jsx:226-231 | the add prompt appears exactly for All and "No completed tasks yet" exactly for Completed; for any other criterion the hint is "No tasks with " and " priority" around the criterion, which can be read back from it |
| TaskList.EmptyState | src/App.jsx:222-231 | the empty state appears exactly when the filtered view is empty, and then shows the criterion's hint |
| TaskList.EmptyStateCases | src/App.jsx:222-231 | under All the add prompt appears exactly when the list is empty; under Completed "No completed tasks yet" appears exactly when no task is completed; under a priority X "No tasks with X priority" appears exactly when no task has priority X |
| TaskList.FooterCounts | src/App.jsx:308-310 | total is the list's length; active is the number of positions holding an In Progress task and completed the number holding a Completed one; active plus completed is at most total; completed equals the length of the Completed view |
| App.TaskStore.constructor | src/App.jsx:5-15 | the store starts with an empty list, the form closed, the All filter and the reset draft |
| App.TaskStore.InputChange | src/App.jsx:30-36 | the draft gets the value in the named property; the list, the form flag and the filter are unchanged |
| App.TaskStore.AddTask | src/App.jsx:38-51 | with a non-blank draft name, the draft stamped with the clock value is appended after the unchanged old list, the draft is reset and the form closes; with a blank name nothing changes; the save always reaches storage |
| App.TaskStore.DeleteTask | src/App.jsx:53-55 | the list becomes `Remove` of the old list; the rest of the state is unchanged and storage follows the list |
| App.TaskStore.UpdateTask | src/App.jsx:57-61 | the list becomes `Update` of the old list; the rest of the state is unchanged and storage follows the list |
| App.TaskStore.SetFilter | src/App.jsx:96-116 | the filter becomes the chosen criterion; nothing else changes |
| App.TaskStore.ToggleAdding | src/App.jsx:120-125 | the form flag flips; the draft and everything else are kept |
| Scenarios.EmptyListPromptsToAdd | src/App.jsx:222-231 | an empty list under All shows an empty view and the add prompt |
| Scenarios.NothingCompletedYet | src/App.jsx:63-67 | one High, Not Started task under Completed gives an empty view and "No completed tasks yet" |
| Scenarios.OnlyMediumShown | src/App.jsx:63-67 | with one High, one Medium and one Low task, the Medium view holds exactly the Medium task |
| Scenarios.SaveScenarios | src/App.jsx:38-61 | in one session the list has 0 tasks after saving a white-space-only name, 1 after a named save, still 1 after saving the reset draft again, 1 after a status update and 0 after deleting the task's id |

## Left out

- Loading from local storage at mount and `JSON.parse`/`JSON.stringify` (src/App.jsx:18-28). These are browser I/O and a serialiser outside the model. Saving is kept only as the ghost `stored` copy, written on every list change. The store starts from an empty list.
- `Date.now()` (src/App.jsx:40) is the `now` parameter of `AddTask`. Nothing makes ids unique, so `Remove` and `Update` act on every task with the id.
- App.TaskStore.InputChange: takes one of the six form property names (`Field`) rather than any string. The handler would also add an unknown property, or overwrite a task's `id` in `UpdateTask`. No control in the component passes such a name, and the model has no representation for extra properties.
- App.TaskStore.UpdateTask: values are strings, as every control delivers them. A value of another JavaScript type is not modelled.
- React's effect scheduling and re-rendering, the JSX markup, CSS classes, and the disabled state of the save button (src/App.jsx:82-314) are presentation. The disabled state uses the same `trim()` test as `AddTask`.
- Deadline display through `toLocaleDateString` (src/App.jsx:283-287) is left out. It depends on locale and time zone.
- Typed per-property updates, validation of priority and status, and a fallback when stored data is corrupt are not modelled: the code has none of them. The intended invariants are stated as `UniqueIds` and `WellFormed`, with the lemmas that show when the handlers preserve them.
- Whitespace follows the ECMAScript code-point set, including the Unicode Zs category as currently defined. Strings are sequences of code points, while JavaScript strings are UTF-16. Every whitespace code point lies in the Basic Multilingual Plane, so the two agree for `trim()`.
