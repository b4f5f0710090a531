# LearningMVVM task list — Dafny model

This project models the in-memory task list of the LearningMVVM to-do
application: the `Task` record (identifier, description, completion flag) and
the `TaskViewModel` that owns an ordered list of tasks, starts from three sample
tasks, appends new tasks (`addTask(description:)`) and flips the completion
flag of the first task with a given identifier (`toggleTaskCompletion(task:)`).

Tasks are values (`datatype Task`), the list is a `seq<Task>`, and each
mutating call becomes a pure function returning the list the call leaves
behind. `UUID()` is abstracted: every place that would draw a fresh identifier
takes it as a parameter, and `AddTask` requires that it is not already in the
list. `UnusedId` shows that such an identifier always exists.

Files:
- `task.dfy`, module `TaskModel`: the record and its initializer, and the flag flip.
- `task_view_model.dfy`, module `TaskViewModel`: the seed list, `AddTask`,
  `FirstIndex` (the `firstIndex(where:)` search), `ToggleTaskCompletion`, and a
  small action language (`Action`, `Run`) used to state what holds after any
  sequence of calls.

`addTask(description:)` does not validate its argument
(LearningMVVM/ViewModels/TaskViewModel.swift:17-20): an empty or
whitespace-only description is appended like any other
(`AddTaskAcceptsEmptyDescription`). Only the SwiftUI view's own add path
(To-do List/LearningMVVM/ContentView.swift:53) refuses an empty text field, and
it does not trim whitespace; the view is not modelled.

## Model

| member | source | states |
|---|---|---|
| TaskModel.NewTask | LearningMVVM/Models/Task.swift:12-21 | a new task carries the identifier drawn for it, stores the description exactly as given, and stores an explicitly supplied completion flag as given |
| TaskModel.NewTaskDefaultsToNotCompleted | LearningMVVM/Models/Task.swift:17-20 | when the completion flag is omitted the new task is not completed, the same as passing `false` |
| TaskModel.Toggled | LearningMVVM/ViewModels/TaskViewModel.swift:24 | `isCompleted.toggle()` keeps identifier and description and changes the flag |
| TaskModel.ToggledIsInvolution | LearningMVVM/ViewModels/TaskViewModel.swift:24 | flipping twice gives back the task; flipping once never does |
| TaskViewModel.InitialTasks | LearningMVVM/ViewModels/TaskViewModel.swift:11-15 | the seed list has exactly three tasks, "Comprar pan", "Tomar un descanso", "Terminar el objetivo" in that order, only the second completed, carrying the identifiers drawn for them in that order, all distinct |
| TaskViewModel.UnusedId | LearningMVVM/Models/Task.swift:18 | for any list there is an identifier larger than, hence different from, every identifier in it, so a fresh identifier can always be drawn |
| TaskViewModel.AddTask | LearningMVVM/ViewModels/TaskViewModel.swift:17-20 | appending grows the list by exactly one, leaves every earlier task unchanged in its position, puts last a not-completed task with the given description and identifier, and keeps identifiers distinct when the new one is fresh |
| TaskViewModel.AddTaskAcceptsEmptyDescription | LearningMVVM/ViewModels/TaskViewModel.swift:17-19 | no validation: an empty description is appended and the list still grows by one |
| TaskViewModel.FirstIndex | LearningMVVM/ViewModels/TaskViewModel.swift:23 | the search returns the first position whose identifier matches, and returns nothing exactly when no task carries that identifier |
| TaskViewModel.ToggleTaskCompletion | LearningMVVM/ViewModels/TaskViewModel.swift:22-26 | length, every identifier and every description are unchanged; a position's flag changes if and only if it is the first one whose identifier matches the argument's; with no match the list is unchanged |
| TaskViewModel.ToggleTwiceRestores | LearningMVVM/ViewModels/TaskViewModel.swift:22-25 | toggling the same task twice restores the original list |
| TaskViewModel.ToggleMatchesOnIdOnly | LearningMVVM/ViewModels/TaskViewModel.swift:23 | matching is on the identifier alone: arguments with equal identifiers but any description or flag have the same effect |
| TaskViewModel.ToggleFlipsOnlyThatTask | LearningMVVM/ViewModels/TaskViewModel.swift:22-25 | with distinct identifiers, toggling flips exactly the task carrying the argument's identifier and leaves every other task as it was |
| TaskViewModel.ToggleKeepsUniqueIds | LearningMVVM/ViewModels/TaskViewModel.swift:22-25 | toggling keeps the identifiers pairwise distinct |
| TaskViewModel.ToggleAfterAddFlipsNewTask | LearningMVVM/ViewModels/TaskViewModel.swift:17-25 | toggling a task just added marks it, and only it, completed |
| TaskViewModel.RunPreservesIdentity | LearningMVVM/ViewModels/TaskViewModel.swift:17-26 | after any sequence of adds with fresh identifiers and toggles, identifiers stay pairwise distinct, the list has grown by one per add, and every earlier task keeps its position, identifier and description |
| TaskViewModel.SeededRunKeepsSamples | LearningMVVM/ViewModels/TaskViewModel.swift:11-26 | starting from the seed list, any such sequence keeps distinct identifiers and the three sample descriptions at the front |

## Left out

- SwiftData persistence (`@Model`, `modelContainer`, `modelContext.save()`): durable storage is an external library; the model keeps only the in-memory list.
- `ObservableObject` / `@Published` change notification: UI reactivity, no logic.
- Real `UUID()` generation: randomness is replaced by an identifier passed in, required to be fresh.
- Reference semantics of the `Task` class: tasks are values, so aliasing between the list and other holders of the same object is not modelled.
- The SwiftUI view (its sorted query by description, its empty-text guard and its text-field clearing) and the application entry point: presentation and framework wiring, not part of the view model.
