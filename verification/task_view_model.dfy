/** The view model's in-memory task list: an ordered sequence of tasks seeded
    with three sample entries, extended by `addTask` and changed in place by
    `toggleTaskCompletion`. The list is a value; each operation returns the
    list that the mutating call would leave behind. */
module TaskViewModel {
  import opened TaskModel

  datatype Option<T> = None | Some(value: T)

  /** Some task in the list carries identifier `id`. */
  predicate HasId(tasks: seq<Task>, id: Uuid)
  {
    exists k :: 0 <= k < |tasks| && tasks[k].id == id
  }

  /** No two positions of the list share an identifier. */
  predicate UniqueIds(tasks: seq<Task>)
  {
    forall i, j :: 0 <= i < |tasks| && 0 <= j < |tasks| && tasks[i].id == tasks[j].id ==> i == j
  }

  /** Position `k` holds the first task whose identifier is `id`. */
  predicate IsFirstMatch(tasks: seq<Task>, id: Uuid, k: int)
  {
    && 0 <= k < |tasks|
    && tasks[k].id == id
    && forall j :: 0 <= j < k ==> tasks[j].id != id
  }

  /** Two lists of the same length carrying the same identifier at every position. */
  predicate SameIds(a: seq<Task>, b: seq<Task>)
  {
    |a| == |b| && forall k :: 0 <= k < |a| ==> a[k].id == b[k].id
  }

  // ---------------------------------------------------------------------
  // The seed list
  // ---------------------------------------------------------------------

  /** The three sample tasks the view model starts with; `a`, `b` and `c` are
      the identifiers their initializers draw. */
  function InitialTasks(a: Uuid, b: Uuid, c: Uuid): (r: seq<Task>)
    requires a != b && a != c && b != c
    ensures |r| == 3
    ensures r[0].id == a && r[1].id == b && r[2].id == c
    ensures r[0].taskDescription == "Comprar pan"
    ensures r[1].taskDescription == "Tomar un descanso"
    ensures r[2].taskDescription == "Terminar el objetivo"
    ensures forall k :: 0 <= k < |r| ==> (r[k].isCompleted <==> k == 1)
    ensures UniqueIds(r)
  {
    [ NewTask(a, "Comprar pan", false),
      NewTask(b, "Tomar un descanso", true),
      NewTask(c, "Terminar el objetivo", false) ]
  }

  // ---------------------------------------------------------------------
  // Fresh identifiers
  // ---------------------------------------------------------------------

  /** A stand-in for `UUID()`: an identifier larger than every identifier in
      the list, hence carried by none of them. It shows that the freshness
      precondition of `AddTask` can always be met. */
  function UnusedId(tasks: seq<Task>): (id: Uuid)
    ensures forall k :: 0 <= k < |tasks| ==> tasks[k].id < id
    ensures !HasId(tasks, id)
  {
    if |tasks| == 0 then 0
    else
      var m := UnusedId(tasks[..|tasks| - 1]);
      var last := tasks[|tasks| - 1].id;
      if last < m then m else last + 1
  }

  // ---------------------------------------------------------------------
  // addTask(description:)
  // ---------------------------------------------------------------------

  /** Appends a new, not completed task with the given description and the
      fresh identifier `id`. No check is made on the description: an empty
      one is appended like any other. */
  function AddTask(tasks: seq<Task>, description: string, id: Uuid): (r: seq<Task>)
    requires !HasId(tasks, id)
    ensures |r| == |tasks| + 1
    ensures r[..|tasks|] == tasks
    ensures r[|tasks|].id == id
    ensures r[|tasks|].taskDescription == description
    ensures !r[|tasks|].isCompleted
    ensures HasId(r, id)
    ensures UniqueIds(tasks) ==> UniqueIds(r)
  {
    tasks + [NewTask(id, description, false)]
  }

  /** The empty description is accepted: the list still grows by one and the
      new last task carries the empty text. */
  lemma AddTaskAcceptsEmptyDescription(tasks: seq<Task>, id: Uuid)
    requires !HasId(tasks, id)
    ensures |AddTask(tasks, "", id)| == |tasks| + 1
    ensures AddTask(tasks, "", id)[|tasks|].taskDescription == ""
  {
  }

  // ---------------------------------------------------------------------
  // First task carrying a given identifier
  // ---------------------------------------------------------------------

  /** The position of the first task whose identifier is `id`, scanning from
      the front, or `None` when no task carries it. */
  function FirstIndex(tasks: seq<Task>, id: Uuid): (r: Option<nat>)
    ensures r.Some? ==> IsFirstMatch(tasks, id, r.value)
    ensures r.None? <==> !HasId(tasks, id)
  {
    if |tasks| == 0 then None
    else if tasks[0].id == id then Some(0)
    else
      match FirstIndex(tasks[1..], id)
      case None =>
        assert forall k :: 1 <= k < |tasks| ==> tasks[k] == tasks[1..][k - 1];
        None
      case Some(i) =>
        assert tasks[i + 1] == tasks[1..][i];
        assert forall j :: 1 <= j < i + 1 ==> tasks[j] == tasks[1..][j - 1];
        Some(i + 1)
  }

  // ---------------------------------------------------------------------
  // toggleTaskCompletion(task:)
  // ---------------------------------------------------------------------

  /** Flips the completion flag of the first task whose identifier equals that
      of `task`; when no task carries that identifier the list is returned as
      it was. Only the identifier of `task` is consulted. */
  function ToggleTaskCompletion(tasks: seq<Task>, task: Task): (r: seq<Task>)
    ensures SameIds(r, tasks)
    ensures forall k :: 0 <= k < |r| ==> r[k].taskDescription == tasks[k].taskDescription
    ensures forall k :: 0 <= k < |r| ==>
              (r[k].isCompleted != tasks[k].isCompleted <==> IsFirstMatch(tasks, task.id, k))
    ensures !HasId(tasks, task.id) ==> r == tasks
  {
    match FirstIndex(tasks, task.id)
    case None => tasks
    case Some(i) => tasks[i := Toggled(tasks[i])]
  }

  /** Toggling the same task twice restores the original list. */
  lemma ToggleTwiceRestores(tasks: seq<Task>, task: Task)
    ensures ToggleTaskCompletion(ToggleTaskCompletion(tasks, task), task) == tasks
  {
  }

  /** Matching is on the identifier alone: two arguments with the same
      identifier, whatever their description or flag, toggle the same task. */
  lemma ToggleMatchesOnIdOnly(tasks: seq<Task>, t1: Task, t2: Task)
    requires t1.id == t2.id
    ensures ToggleTaskCompletion(tasks, t1) == ToggleTaskCompletion(tasks, t2)
  {
  }

  /** In a list with distinct identifiers, toggling flips exactly the task at
      the position carrying the argument's identifier. */
  lemma ToggleFlipsOnlyThatTask(tasks: seq<Task>, task: Task, k: int)
    requires UniqueIds(tasks)
    requires 0 <= k < |tasks| && tasks[k].id == task.id
    ensures ToggleTaskCompletion(tasks, task)[k] == Toggled(tasks[k])
    ensures forall j :: 0 <= j < |tasks| && j != k ==> ToggleTaskCompletion(tasks, task)[j] == tasks[j]
  {
  }

  /** Toggling never disturbs the distinctness of identifiers. */
  lemma ToggleKeepsUniqueIds(tasks: seq<Task>, task: Task)
    requires UniqueIds(tasks)
    ensures UniqueIds(ToggleTaskCompletion(tasks, task))
  {
  }

  /** A task just added can be found again by toggling: its flag, and only
      its flag, is flipped. */
  lemma ToggleAfterAddFlipsNewTask(tasks: seq<Task>, description: string, id: Uuid)
    requires !HasId(tasks, id)
    ensures ToggleTaskCompletion(AddTask(tasks, description, id), NewTask(id, description))
            == tasks + [NewTask(id, description, true)]
  {
  }

  // ---------------------------------------------------------------------
  // Sequences of user actions
  // ---------------------------------------------------------------------

  /** One call into the view model. */
  datatype Action = Add(description: string, id: Uuid) | Toggle(task: Task)

  /** Every `Add` in `actions` draws an identifier not yet in the list it is
      applied to, as `UUID()` does. */
  predicate FreshAdds(tasks: seq<Task>, actions: seq<Action>)
    decreases |actions|
  {
    |actions| == 0 ||
    match actions[0]
    case Add(d, id) => !HasId(tasks, id) && FreshAdds(AddTask(tasks, d, id), actions[1..])
    case Toggle(t) => FreshAdds(ToggleTaskCompletion(tasks, t), actions[1..])
  }

  /** The list left behind by performing `actions` in order. */
  function Run(tasks: seq<Task>, actions: seq<Action>): seq<Task>
    requires FreshAdds(tasks, actions)
    decreases |actions|
  {
    if |actions| == 0 then tasks
    else
      match actions[0]
      case Add(d, id) => Run(AddTask(tasks, d, id), actions[1..])
      case Toggle(t) => Run(ToggleTaskCompletion(tasks, t), actions[1..])
  }

  /** The number of `Add` actions. */
  function AddCount(actions: seq<Action>): nat
  {
    if |actions| == 0 then 0
    else (if actions[0].Add? then 1 else 0) + AddCount(actions[1..])
  }

  /** After any sequence of calls with fresh identifiers, the identifiers stay
      pairwise distinct, the list has grown by one per `Add`, and every task
      present at the start keeps its position, identifier and description. */
  lemma {:induction false} RunPreservesIdentity(tasks: seq<Task>, actions: seq<Action>)
    requires FreshAdds(tasks, actions)
    requires UniqueIds(tasks)
    ensures UniqueIds(Run(tasks, actions))
    ensures |Run(tasks, actions)| == |tasks| + AddCount(actions)
    ensures forall k :: 0 <= k < |tasks| ==>
              Run(tasks, actions)[k].id == tasks[k].id &&
              Run(tasks, actions)[k].taskDescription == tasks[k].taskDescription
    decreases |actions|
  {
    if |actions| > 0 {
      match actions[0]
      case Add(d, id) =>
        var next := AddTask(tasks, d, id);
        RunPreservesIdentity(next, actions[1..]);
        assert forall k :: 0 <= k < |tasks| ==> next[k] == tasks[k] by {
          assert next[..|tasks|] == tasks;
        }
      case Toggle(t) =>
        var next := ToggleTaskCompletion(tasks, t);
        ToggleKeepsUniqueIds(tasks, t);
        RunPreservesIdentity(next, actions[1..]);
    }
  }

  /** Starting from the seed list, any sequence of calls with fresh
      identifiers keeps the identifiers distinct and the three sample tasks
      at the front with their descriptions. */
  lemma SeededRunKeepsSamples(a: Uuid, b: Uuid, c: Uuid, actions: seq<Action>)
    requires a != b && a != c && b != c
    requires FreshAdds(InitialTasks(a, b, c), actions)
    ensures UniqueIds(Run(InitialTasks(a, b, c), actions))
    ensures |Run(InitialTasks(a, b, c), actions)| == 3 + AddCount(actions)
    ensures Run(InitialTasks(a, b, c), actions)[0].taskDescription == "Comprar pan"
    ensures Run(InitialTasks(a, b, c), actions)[1].taskDescription == "Tomar un descanso"
    ensures Run(InitialTasks(a, b, c), actions)[2].taskDescription == "Terminar el objetivo"
  {
    RunPreservesIdentity(InitialTasks(a, b, c), actions);
  }
}
