/** The three record kinds of the hierarchy store and the schema rules that
    govern their creation: required fields and defaults. */
module Records {

  /** A record identifier. Identifiers are handed out by the store in
      increasing order, so an identifier also tells when its record was made. */
  type Id = nat

  datatype Option<+T> = None | Some(value: T)

  /** A top-level objective, owned by exactly one user. */
  datatype Goal = Goal(
    id: Id,
    user: Id,
    title: string,
    description: Option<string>,
    category: Option<string>,
    progress: nat)

  /** A milestone of a goal; `progress` and `isCompleted` are derived from its subtasks. */
  datatype Task = Task(id: Id, goal: Id, title: string, progress: nat, isCompleted: bool)

  /** A checklist step of a task. Its completion flag is its only completion
      state: the record has no progress field. */
  datatype Subtask = Subtask(id: Id, task: Id, title: string, isCompleted: bool)

  /** A required string field is present and non-empty (an empty string fails
      a required-field check just as a missing one does). */
  predicate Required(s: Option<string>) {
    s.Some? && s.value != ""
  }

  /** Builds a task record from the request fields; None when a required
      field (the goal reference or the title) is missing. */
  function NewTask(id: Id, goal: Option<Id>, title: Option<string>): (r: Option<Task>)
    ensures r.Some? <==> goal.Some? && Required(title)
    ensures r.Some? ==> r.value.id == id && r.value.goal == goal.value && r.value.title == title.value
    ensures r.Some? ==> r.value.progress == 0 && !r.value.isCompleted
    ensures r.Some? ==> (r.value.isCompleted <==> r.value.progress == 100)
  {
    if goal.Some? && Required(title) then Some(Task(id, goal.value, title.value, 0, false)) else None
  }

  /** Builds a subtask record; None when the task reference or the title is missing. */
  function NewSubtask(id: Id, task: Option<Id>, title: Option<string>): (r: Option<Subtask>)
    ensures r.Some? <==> task.Some? && Required(title)
    ensures r.Some? ==> r.value.id == id && r.value.task == task.value && r.value.title == title.value
    ensures r.Some? ==> !r.value.isCompleted
  {
    if task.Some? && Required(title) then Some(Subtask(id, task.value, title.value, false)) else None
  }

  /** Builds a goal record stamped with its owner; None when the title is missing.
      Description and category are optional and kept exactly as supplied. */
  function NewGoal(id: Id, user: Id, title: Option<string>, description: Option<string>,
                   category: Option<string>): (r: Option<Goal>)
    ensures r.Some? <==> Required(title)
    ensures r.Some? ==> r.value.id == id && r.value.user == user && r.value.title == title.value
    ensures r.Some? ==> r.value.description == description && r.value.category == category
    ensures r.Some? ==> r.value.progress == 0
  {
    if Required(title) then Some(Goal(id, user, title.value, description, category, 0)) else None
  }
}
