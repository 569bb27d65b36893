/** The records of the task tracker: the draft behind the "Create New Task"
    form and the stored task, which is the draft plus a numeric id. */
module Tasks {
  import opened JsString

  /** The six properties the form and the status selector write by name. */
  datatype Field = Name | Description | Deadline | Priority | Status | Notes

  /** The form's draft (`newTask`). Priority and status are plain strings:
      the controls offer fixed choices, but no handler checks the values. */
  datatype Draft = Draft(name: string, description: string, deadline: string,
                         priority: string, status: string, notes: string)
  {
    /** `draft[f]` */
    function Get(f: Field): string {
      match f
      case Name => name
      case Description => description
      case Deadline => deadline
      case Priority => priority
      case Status => status
      case Notes => notes
    }

    /** `{ ...draft, [f]: v }` */
    function With(f: Field, v: string): (d: Draft)
      ensures d.Get(f) == v
      ensures forall g :: g != f ==> d.Get(g) == Get(g)
    {
      match f
      case Name => this.(name := v)
      case Description => this.(description := v)
      case Deadline => this.(deadline := v)
      case Priority => this.(priority := v)
      case Status => this.(status := v)
      case Notes => this.(notes := v)
    }
  }

  /** A stored task: the draft's six properties and the id given at creation. */
  datatype Task = Task(id: int, name: string, description: string, deadline: string,
                       priority: string, status: string, notes: string)
  {
    /** `task[f]` */
    function Get(f: Field): string {
      match f
      case Name => name
      case Description => description
      case Deadline => deadline
      case Priority => priority
      case Status => status
      case Notes => notes
    }

    /** `{ ...task, [f]: v }`: one property replaced, the id and the others kept. */
    function With(f: Field, v: string): (t: Task)
      ensures t.id == id && t.Get(f) == v
      ensures forall g :: g != f ==> t.Get(g) == Get(g)
    {
      match f
      case Name => this.(name := v)
      case Description => this.(description := v)
      case Deadline => this.(deadline := v)
      case Priority => this.(priority := v)
      case Status => this.(status := v)
      case Notes => this.(notes := v)
    }
  }

  /** The draft the form starts from and is reset to after a save. */
  const EmptyDraft := Draft("", "", "", "Medium", "Not Started", "")

  /** The choices the priority selector and the filter buttons offer. */
  const Priorities: seq<string> := ["High", "Medium", "Low"]

  /** The choices the status selectors offer. */
  const Statuses: seq<string> := ["Not Started", "In Progress", "Completed", "On Hold"]

  /** `{ ...draft, id }`: the task a save creates. */
  function Stamp(d: Draft, id: int): (t: Task)
    ensures t.id == id
    ensures forall f :: t.Get(f) == d.Get(f)
  {
    Task(id, d.name, d.description, d.deadline, d.priority, d.status, d.notes)
  }

  /** A task that keeps the intended data model: a non-blank name, and a
      priority and a status among the offered choices. The code checks the
      name only when a task is created, and only its controls limit the
      priority and the status. */
  predicate WellFormed(t: Task) {
    !IsBlank(t.name) && t.priority in Priorities && t.status in Statuses
  }

  /** The badge colour of a priority: one colour per offered priority, grey
      for anything else. */
  function PriorityColor(priority: string): (c: string)
    ensures c in ["#dc2626", "#ea580c", "#16a34a", "#6b7280"]
    ensures c == "#6b7280" <==> priority !in Priorities
  {
    match priority
    case "High" => "#dc2626"
    case "Medium" => "#ea580c"
    case "Low" => "#16a34a"
    case _ => "#6b7280"
  }

  /** Distinct priorities get distinct colours. */
  lemma PriorityColorInjective(p: string, q: string)
    requires p in Priorities && q in Priorities && p != q
    ensures PriorityColor(p) != PriorityColor(q)
  {
  }

  /** The reset draft is well formed apart from its blank name, so it cannot
      be saved as it is. */
  lemma EmptyDraftIsBlank()
    ensures IsBlank(EmptyDraft.name)
    ensures EmptyDraft.priority in Priorities && EmptyDraft.status in Statuses
  {
  }

  /** Saving a draft with a non-blank name and offered choices yields a
      well-formed task. */
  lemma StampWellFormed(d: Draft, id: int)
    requires !IsBlank(d.name) && d.priority in Priorities && d.status in Statuses
    ensures WellFormed(Stamp(d, id))
  {
  }
}
