/** The task record: one to-do item with an identity, a description and a
    completion flag. Tasks are modelled as values; the persistence and
    change-notification machinery around the record is not part of this model. */
module TaskModel {

  /** A task identifier. The application draws one from `UUID()` per task; only
      equality of identifiers is ever used, so any type with equality serves. */
  type Uuid = nat

  datatype Task = Task(id: Uuid, taskDescription: string, isCompleted: bool)

  /** The record's initializer. The identifier is the fresh value the
      application would draw from `UUID()`; the completion flag defaults to
      not completed when the caller omits it. */
  function NewTask(id: Uuid, taskDescription: string, isCompleted: bool := false): (t: Task)
    ensures t.id == id
    ensures t.taskDescription == taskDescription
    ensures t.isCompleted == isCompleted
  {
    Task(id, taskDescription, isCompleted)
  }

  /** A task built without an explicit completion flag starts not completed. */
  lemma NewTaskDefaultsToNotCompleted(id: Uuid, taskDescription: string)
    ensures !NewTask(id, taskDescription).isCompleted
    ensures NewTask(id, taskDescription) == NewTask(id, taskDescription, false)
  {
  }

  /** Flipping the completion flag in place (`isCompleted.toggle()`). */
  function Toggled(t: Task): (r: Task)
    ensures r.id == t.id && r.taskDescription == t.taskDescription
    ensures r.isCompleted != t.isCompleted
  {
    t.(isCompleted := !t.isCompleted)
  }

  /** Two flips restore the task; a task differs from its flipped self. */
  lemma ToggledIsInvolution(t: Task)
    ensures Toggled(Toggled(t)) == t
    ensures Toggled(t) != t
  {
  }
}
