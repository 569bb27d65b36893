/** The pure transforms behind the task list: the new list each handler
    computes from the previous one, the filtered view, the empty-state
    message and the footer counters. */
module TaskList {
  import opened JsString
  import opened JsArray
  import opened Tasks

  datatype Option<T> = None | Some(value: T)

  /** Some task in the list carries this id. */
  predicate HasId(tasks: seq<Task>, id: int) {
    exists i :: 0 <= i < |tasks| && tasks[i].id == id
  }

  /** No two tasks share an id. The intended data model wants it; ids taken
      from the clock do not guarantee it. */
  predicate UniqueIds(tasks: seq<Task>) {
    forall i, j :: 0 <= i < j < |tasks| ==> tasks[i].id != tasks[j].id
  }

  predicate AllWellFormed(tasks: seq<Task>) {
    forall i :: 0 <= i < |tasks| ==> WellFormed(tasks[i])
  }

  // ---------------------------------------------------------------------
  // Delete: `prev.filter(task => task.id !== id)`

  function IdIsNot(id: int): Task -> bool {
    (t: Task) => t.id != id
  }

  /** The list without every task that carries the id. */
  function Remove(tasks: seq<Task>, id: int): (r: seq<Task>)
    ensures |r| <= |tasks|
    ensures !HasId(r, id)
    ensures forall i :: 0 <= i < |r| ==> r[i] in tasks
    ensures forall i :: 0 <= i < |tasks| && tasks[i].id != id ==> tasks[i] in r
  {
    Filter(tasks, IdIsNot(id))
  }

  /** Deleting an id nobody carries leaves the list as it was. */
  lemma RemoveAbsent(tasks: seq<Task>, id: int)
    requires !HasId(tasks, id)
    ensures Remove(tasks, id) == tasks
  {
    FilterKeepsAll(tasks, IdIsNot(id));
  }

  /** Deletion keeps the survivors in their original order: it acts on each
      part of a list separately. */
  lemma RemoveConcat(a: seq<Task>, b: seq<Task>, id: int)
    ensures Remove(a + b, id) == Remove(a, id) + Remove(b, id)
  {
    FilterConcat(a, b, IdIsNot(id));
  }

  /** With unique ids, deleting a present id removes exactly one task. */
  lemma {:induction false} RemovePresentUnique(tasks: seq<Task>, id: int)
    requires UniqueIds(tasks) && HasId(tasks, id)
    ensures |Remove(tasks, id)| == |tasks| - 1
  {
    var rest := tasks[1..];
    if tasks[0].id == id {
      assert !HasId(rest, id) by {
        forall i | 0 <= i < |rest| ensures rest[i].id != id {
          assert rest[i] == tasks[i + 1];
        }
      }
      RemoveAbsent(rest, id);
    } else {
      assert HasId(rest, id) by {
        var k :| 0 <= k < |tasks| && tasks[k].id == id;
        assert rest[k - 1] == tasks[k];
      }
      RemovePresentUnique(rest, id);
    }
  }

  /** A task list with unique ids keeps them under any filtering. */
  lemma {:induction false} FilterKeepsUniqueIds(tasks: seq<Task>, p: Task -> bool)
    requires UniqueIds(tasks)
    ensures UniqueIds(Filter(tasks, p))
  {
    if tasks != [] {
      var rest := tasks[1..];
      assert UniqueIds(rest) by {
        forall i, j | 0 <= i < j < |rest| ensures rest[i].id != rest[j].id {
          assert rest[i] == tasks[i + 1] && rest[j] == tasks[j + 1];
        }
      }
      FilterKeepsUniqueIds(rest, p);
      var tail := Filter(rest, p);
      if p(tasks[0]) {
        forall k | 0 <= k < |tail| ensures tail[k].id != tasks[0].id {
          var m :| 0 <= m < |rest| && rest[m] == tail[k];
          assert rest[m] == tasks[m + 1];
        }
        ConsUniqueIds(tasks[0], tail);
      }
    }
  }

  /** Putting a task in front of a list that does not use its id keeps ids unique. */
  lemma ConsUniqueIds(t: Task, tasks: seq<Task>)
    requires UniqueIds(tasks)
    requires forall k :: 0 <= k < |tasks| ==> tasks[k].id != t.id
    ensures UniqueIds([t] + tasks)
  {
    var r := [t] + tasks;
    forall i, j | 0 <= i < j < |r| ensures r[i].id != r[j].id {
      assert r[j] == tasks[j - 1];
      if i > 0 {
        assert r[i] == tasks[i - 1];
      }
    }
  }

  /** Deleting keeps ids unique. */
  lemma RemoveKeepsUniqueIds(tasks: seq<Task>, id: int)
    requires UniqueIds(tasks)
    ensures UniqueIds(Remove(tasks, id))
  {
    FilterKeepsUniqueIds(tasks, IdIsNot(id));
  }

  /** Deleting keeps every remaining task well formed. */
  lemma RemoveKeepsWellFormed(tasks: seq<Task>, id: int)
    requires AllWellFormed(tasks)
    ensures AllWellFormed(Remove(tasks, id))
  {
  }

  // ---------------------------------------------------------------------
  // Update: `prev.map(task => task.id === id ? { ...task, [field]: value } : task)`

  function PatchIf(id: int, f: Field, v: string): Task -> Task {
    (t: Task) => if t.id == id then t.With(f, v) else t
  }

  /** The list with one property replaced on every task that carries the id. */
  function Update(tasks: seq<Task>, id: int, f: Field, v: string): (r: seq<Task>)
    ensures |r| == |tasks|
    ensures forall i :: 0 <= i < |tasks| ==> r[i].id == tasks[i].id
    ensures forall i :: 0 <= i < |tasks| && tasks[i].id != id ==> r[i] == tasks[i]
    ensures forall i :: 0 <= i < |tasks| && tasks[i].id == id ==> r[i].Get(f) == v
    ensures forall i, g :: 0 <= i < |tasks| && tasks[i].id == id && g != f ==>
              r[i].Get(g) == tasks[i].Get(g)
  {
    Map(tasks, PatchIf(id, f, v))
  }

  /** Updating an id nobody carries leaves the list as it was. */
  lemma UpdateAbsent(tasks: seq<Task>, id: int, f: Field, v: string)
    requires !HasId(tasks, id)
    ensures Update(tasks, id, f, v) == tasks
  {
    assert forall i :: 0 <= i < |tasks| ==> tasks[i].id != id;
  }

  /** Repeating an update changes nothing more. */
  lemma UpdateIdempotent(tasks: seq<Task>, id: int, f: Field, v: string)
    ensures Update(Update(tasks, id, f, v), id, f, v) == Update(tasks, id, f, v)
  {
    var once := Update(tasks, id, f, v);
    var twice := Update(once, id, f, v);
    forall i | 0 <= i < |tasks| ensures twice[i] == once[i] {
      if tasks[i].id == id {
        assert once[i] == tasks[i].With(f, v);
      }
    }
  }

  /** Updating never touches ids, so it keeps them unique. */
  lemma UpdateKeepsUniqueIds(tasks: seq<Task>, id: int, f: Field, v: string)
    requires UniqueIds(tasks)
    ensures UniqueIds(Update(tasks, id, f, v))
  {
  }

  /** Setting the status to one of the offered choices keeps the list well formed. */
  lemma UpdateStatusKeepsWellFormed(tasks: seq<Task>, id: int, v: string)
    requires AllWellFormed(tasks) && v in Statuses
    ensures AllWellFormed(Update(tasks, id, Status, v))
  {
    var r := Update(tasks, id, Status, v);
    forall i | 0 <= i < |r| ensures WellFormed(r[i]) {
      if tasks[i].id == id {
        assert r[i].Get(Name) == tasks[i].Get(Name);
        assert r[i].Get(Priority) == tasks[i].Get(Priority);
        assert r[i].Get(Status) == v;
      }
    }
  }

  /** Deleting an id after updating it is the same as deleting it outright. */
  lemma {:induction false} RemoveAfterUpdate(tasks: seq<Task>, id: int, f: Field, v: string)
    ensures Remove(Update(tasks, id, f, v), id) == Remove(tasks, id)
  {
    if tasks != [] {
      var u := Update(tasks, id, f, v);
      assert u[1..] == Update(tasks[1..], id, f, v);
      RemoveAfterUpdate(tasks[1..], id, f, v);
    }
  }

  // ---------------------------------------------------------------------
  // Add: `[...prev, { ...newTask, id: Date.now() }]`

  /** Appending a task whose id is not yet taken keeps ids unique. */
  lemma AddKeepsUniqueIds(tasks: seq<Task>, d: Draft, now: int)
    requires UniqueIds(tasks) && !HasId(tasks, now)
    ensures UniqueIds(tasks + [Stamp(d, now)])
  {
    var r := tasks + [Stamp(d, now)];
    forall i, j | 0 <= i < j < |r| ensures r[i].id != r[j].id {
      if j == |tasks| {
        assert r[i] == tasks[i];
      } else {
        assert r[i] == tasks[i] && r[j] == tasks[j];
      }
    }
  }

  /** Deleting the id of a task just added, when no older task used that id,
      gives back the list as it was before the add. */
  lemma RemoveAfterAdd(tasks: seq<Task>, d: Draft, now: int)
    requires !HasId(tasks, now)
    ensures Remove(tasks + [Stamp(d, now)], now) == tasks
  {
    RemoveConcat(tasks, [Stamp(d, now)], now);
    RemoveAbsent(tasks, now);
    assert Remove([Stamp(d, now)], now) == [];
  }

  /** Appending a draft that has a name and offered choices keeps the list
      well formed. */
  lemma AddKeepsWellFormed(tasks: seq<Task>, d: Draft, now: int)
    requires AllWellFormed(tasks)
    requires !IsBlank(d.name) && d.priority in Priorities && d.status in Statuses
    ensures AllWellFormed(tasks + [Stamp(d, now)])
  {
    StampWellFormed(d, now);
  }

  // ---------------------------------------------------------------------
  // The filtered view: `filter === 'All' ? tasks : filter === 'Completed'
  //   ? tasks.filter(status === 'Completed') : tasks.filter(priority === filter)`

  function StatusIs(s: string): Task -> bool {
    (t: Task) => t.status == s
  }

  function PriorityIs(p: string): Task -> bool {
    (t: Task) => t.priority == p
  }

  /** Whether a task belongs in the view under a filter criterion: any task
      under "All", a completed one under "Completed", and otherwise one whose
      priority is spelled like the criterion. */
  predicate Shows(criterion: string, t: Task) {
    criterion == "All"
    || (criterion == "Completed" && t.status == "Completed")
    || (criterion != "Completed" && t.priority == criterion)
  }

  function ShowsUnder(criterion: string): Task -> bool {
    (t: Task) => Shows(criterion, t)
  }

  /** The tasks the list shows under a filter criterion. */
  function Filtered(tasks: seq<Task>, criterion: string): (r: seq<Task>)
    ensures |r| <= |tasks|
    ensures criterion == "All" ==> r == tasks
    ensures forall i :: 0 <= i < |r| ==> r[i] in tasks && Shows(criterion, r[i])
    ensures forall i :: 0 <= i < |tasks| && Shows(criterion, tasks[i]) ==> tasks[i] in r
  {
    if criterion == "All" then tasks
    else if criterion == "Completed" then Filter(tasks, StatusIs("Completed"))
    else Filter(tasks, PriorityIs(criterion))
  }

  /** Under every criterion the view is the list filtered by that criterion's
      predicate. */
  lemma FilteredIsFilter(tasks: seq<Task>, criterion: string)
    ensures Filtered(tasks, criterion) == Filter(tasks, ShowsUnder(criterion))
  {
    if criterion == "All" {
      FilterKeepsAll(tasks, ShowsUnder(criterion));
    } else if criterion == "Completed" {
      FilterAgree(tasks, StatusIs("Completed"), ShowsUnder(criterion));
    } else {
      FilterAgree(tasks, PriorityIs(criterion), ShowsUnder(criterion));
    }
  }

  /** The view keeps the list's order: it acts on each part separately. */
  lemma FilteredConcat(a: seq<Task>, b: seq<Task>, criterion: string)
    ensures Filtered(a + b, criterion) == Filtered(a, criterion) + Filtered(b, criterion)
  {
    FilteredIsFilter(a + b, criterion);
    FilteredIsFilter(a, criterion);
    FilteredIsFilter(b, criterion);
    FilterConcat(a, b, ShowsUnder(criterion));
  }

  /** Every task the criterion selects appears in the view exactly as often as
      in the list; no other task appears. */
  lemma FilteredMultiplicity(tasks: seq<Task>, criterion: string, t: Task)
    ensures multiset(Filtered(tasks, criterion))[t] ==
            if Shows(criterion, t) then multiset(tasks)[t] else 0
  {
    FilteredIsFilter(tasks, criterion);
    FilterMultiplicity(tasks, ShowsUnder(criterion), t);
  }

  // ---------------------------------------------------------------------
  // Empty state

  const AddPrompt := "Click \"Add New Task\" to get started"

  /** The hint under "No tasks found", chosen by the criterion: the add
      prompt exactly for "All", the completed hint exactly for "Completed",
      and otherwise a hint that names the criterion between a fixed prefix
      and suffix, so that the criterion can be read back from it. */
  function EmptyHint(criterion: string): (h: string)
    ensures h == AddPrompt <==> criterion == "All"
    ensures h == "No completed tasks yet" <==> criterion == "Completed"
    ensures criterion != "All" && criterion != "Completed" ==>
      |h| == |criterion| + 23 && h[14..|h| - 9] == criterion
  {
    if criterion == "Completed" then "No completed tasks yet"
    else if criterion != "All" then
      var h := "No tasks with " + criterion + " priority";
      assert h[0] != AddPrompt[0];
      h
    else AddPrompt
  }

  /** The empty-state hint when the view is empty, nothing otherwise. */
  function EmptyState(tasks: seq<Task>, criterion: string): (m: Option<string>)
    ensures m.Some? <==> Filtered(tasks, criterion) == []
    ensures m.Some? ==> m.value == EmptyHint(criterion)
  {
    if |Filtered(tasks, criterion)| == 0 then Some(EmptyHint(criterion)) else None
  }

  /** When the empty state appears, and what it says, for each kind of criterion. */
  lemma EmptyStateCases(tasks: seq<Task>, criterion: string)
    ensures criterion == "All" ==>
      EmptyState(tasks, criterion) == if tasks == [] then Some(AddPrompt) else None
    ensures criterion == "Completed" ==>
      EmptyState(tasks, criterion) ==
        if forall i :: 0 <= i < |tasks| ==> tasks[i].status != "Completed"
        then Some("No completed tasks yet") else None
    ensures criterion != "All" && criterion != "Completed" ==>
      EmptyState(tasks, criterion) ==
        if forall i :: 0 <= i < |tasks| ==> tasks[i].priority != criterion
        then Some("No tasks with " + criterion + " priority") else None
  {
    if criterion == "Completed" {
      FilterEmptyIff(tasks, StatusIs("Completed"));
    } else if criterion != "All" {
      FilterEmptyIff(tasks, PriorityIs(criterion));
    }
  }

  // ---------------------------------------------------------------------
  // Footer

  datatype Footer = Footer(total: nat, active: nat, completed: nat)

  /** Total tasks, tasks in progress and completed tasks, over the whole list. */
  function FooterCounts(tasks: seq<Task>): (c: Footer)
    ensures c.total == |tasks|
    ensures c.active + c.completed <= c.total
    ensures c.active == |set i | 0 <= i < |tasks| && tasks[i].status == "In Progress"|
    ensures c.completed == |set i | 0 <= i < |tasks| && tasks[i].status == "Completed"|
    ensures c.completed == |Filtered(tasks, "Completed")|
  {
    FilterLengthCountsPositions(tasks, StatusIs("In Progress"));
    FilterLengthCountsPositions(tasks, StatusIs("Completed"));
    assert Positions(tasks, StatusIs("In Progress")) ==
      set i | 0 <= i < |tasks| && tasks[i].status == "In Progress";
    assert Positions(tasks, StatusIs("Completed")) ==
      set i | 0 <= i < |tasks| && tasks[i].status == "Completed";
    FilterDisjointLength(tasks, StatusIs("In Progress"), StatusIs("Completed"));
    Footer(|tasks|,
           |Filter(tasks, StatusIs("In Progress"))|,
           |Filter(tasks, StatusIs("Completed"))|)
  }
}
