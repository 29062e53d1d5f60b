# SkillTracker progress roll-up, modelled in Dafny

SkillTracker organises a user's work as a hierarchy: a **Goal** owns **Tasks**, and a Task
owns **Subtasks**. A subtask has only a completion flag. A task's `progress` is the rounded
percentage of its completed subtasks, and its `isCompleted` flag is set exactly when that
percentage is 100. A goal's `progress` is the rounded, unweighted mean of its tasks' progress.
This project models the server side of that hierarchy. It covers the record schemas, the store
the handlers read and write, and four handlers:

- **toggle a subtask**: flip the subtask, re-roll its task, then re-roll the task's goal;
- **add a task**: insert it with progress 0, then re-average its goal;
- **create a goal**: the goal is stamped with the authenticated owner;
- **list goals**: only the caller's goals are returned.

Structure:

- `records.dfy` (module `Records`): the three record kinds and the schema rules for creating them
  (required fields, defaults).
- `rollup.dfy` (module `Rollup`): the two roll-up formulas. `Math.round` on a non-negative
  quotient `p/q` is modelled exactly, as `(2p + q) / (2q)` (halves round up). Lemmas give its
  interval characterisation, its bounds and its monotonicity.
- `store.dfy` (module `Store`):
  - the store as three maps keyed by identifier, as a value (`Snapshot`) and as a mutable
    `class Database`;
  - the query by parent field (`Find`). The handlers' queries have no sort, and the document
    store promises no order for such a query; the model chooses identifier order;
  - the store invariants: `WellFormed` for structure and `Consistent` for every derived value
    agreeing with its children;
  - the handler replies (`Reply`: `Ok` for 200, `Created` for 201, `NotFound` for 404,
    `ServerError` for 500).
- `subtask_controller.dfy`, `task_controller.dfy`, `goal_controller.dfy`: one module per
  controller. Each handler is given twice:
  - as a function from the old store to the new store and the reply (`Toggle`, `Add`,
    `Create`, `List`), about which the lemmas are proved;
  - as a method over a `Database` that performs the same steps in place (`ToggleSubtask`,
    `AddTask`, `CreateGoal`, `GetGoals`), proved to leave exactly the state and reply of the
    function.

Identifiers are natural numbers handed out in increasing order (`nextId`). Either a record
exists under an identifier or it does not (a "missing" record).

## Model

| member | source | states |
|---|---|---|
| Records.NewTask | server/models/task.js:4-7 | a task is built exactly when a goal reference and a non-empty title are given; it carries them, progress 0 and isCompleted false, so completion agrees with progress 100 |
| Records.NewSubtask | server/models/subtask.js:3-7 | a subtask is built exactly when a task reference and a non-empty title are given; it carries them and starts not completed; a subtask has no progress field |
| Records.NewGoal | server/controllers/goalController.js:7-12 | a goal is built exactly when a non-empty title is given; it carries the given owner, title, description and category unchanged, and progress 0 |
| Rollup.RoundHalfUp | server/controllers/subtaskController.js:20 | the result r is the nearest integer to p/q with halves rounded up: 2qr <= 2p+q < 2q(r+1) |
| Rollup.RoundIs | server/controllers/subtaskController.js:20 | the rounding interval determines the rounded value uniquely |
| Rollup.RoundMonotone | server/controllers/taskController.js:13 | rounding is monotone: p1/q1 <= p2/q2 gives round(p1/q1) <= round(p2/q2) |
| Rollup.Completed | server/controllers/subtaskController.js:19 | the number of completed subtasks is at most the number of subtasks |
| Rollup.CompletedAll | server/controllers/subtaskController.js:19 | the completed count equals the total exactly when every subtask is completed |
| Rollup.CompletedNone | server/controllers/subtaskController.js:19 | the completed count is 0 exactly when no subtask is completed |
| Rollup.SumProgressBound | server/controllers/subtaskController.js:36 | a sum of percentages is at most 100 per task |
| Rollup.SumProgressAppend | server/controllers/taskController.js:12 | appending a task adds its progress to the sum |
| Rollup.TaskRollup | server/controllers/subtaskController.js:18-20 | a task's percentage lies in 0..100; it is 0 exactly when fewer than half a percent of the subtasks are completed, and 100 exactly when at most half a percent are not completed (so 199 of 200 completed gives 100); all completed gives 100 and none gives 0 |
| Rollup.TaskRollupIsRounded | server/controllers/subtaskController.js:20 | a task's percentage is round(100 * completed / total), halves up |
| Rollup.GoalRollupBound | server/controllers/subtaskController.js:36-37 | the rounded mean of percentages is a percentage |
| Rollup.GoalRollupIsRoundedMean | server/controllers/subtaskController.js:36-37 | a goal's percentage is round(sum of task progress / number of tasks), halves up |
| Rollup.SumProgress | server/controllers/subtaskController.js:36 | the `reduce` sum of the tasks' progress (no contract of its own; its properties are Rollup.SumProgressBound and Rollup.SumProgressAppend) |
| Rollup.GoalRollup | server/controllers/subtaskController.js:37 | the goal percentage, the sum of task progress over the number of tasks rounded half up (no contract of its own; its properties are Rollup.GoalRollupBound and Rollup.GoalRollupIsRoundedMean) |
| Store.Find | server/controllers/subtaskController.js:18 | a query over identifiers 0..n-1 returns at most n records; which records is stated by Store.FindSound and Store.FindComplete, how many by Store.FindCount; the order is the model's choice, stated for goal queries by GoalController.FoundInOrder and for a new record's position by Store.FindInsert |
| Store.FindCount | server/controllers/subtaskController.js:18-20 | a query returns exactly one record per selected identifier: its length is the number of stored records with the queried parent, so no record is counted twice |
| Store.SubtasksOf | server/controllers/subtaskController.js:18 | the subtasks of a task, `Subtask.find({ task })` (no contract of its own; see Store.FindSound, Store.FindComplete and Store.SubtasksOfCount) |
| Store.TasksOf | server/controllers/taskController.js:11 | the tasks of a goal, `Task.find({ goal })` (no contract of its own; see Store.FindSound, Store.FindComplete and Store.TasksOfCount) |
| Store.GoalsOwnedBy | server/controllers/goalController.js:22 | the goals of a user, `Goal.find({ user })` (no contract of its own; see GoalController.ListIsExactlyOwned) |
| Store.SubtasksOfCount | server/controllers/subtaskController.js:18-20 | in a well-formed store the divisor of a task's roll-up, the length of its subtask query, is the number of stored subtasks of that task |
| Store.TasksOfCount | server/controllers/subtaskController.js:33-37 | in a well-formed store the divisor of a goal's roll-up, the length of its task query, is the number of stored tasks of that goal |
| Store.FindSound | server/controllers/subtaskController.js:18 | every record a query returns is stored and has the queried parent |
| Store.FindComplete | server/controllers/subtaskController.js:18 | every stored record with the queried parent is returned |
| Store.FindAgree | server/controllers/subtaskController.js:33 | a query answers the same on two stores that agree on the records it selects |
| Store.FindInsert | server/controllers/taskController.js:8-11 | inserting under the next identifier adds the record to the queries that select it (at the end, in the model's chosen order) and leaves the others unchanged |
| Store.FindUpdateOther | server/controllers/subtaskController.js:33 | updating a record without changing its parent leaves the queries of other parents unchanged |
| Store.FindNone | server/controllers/taskController.js:11 | a query that selects nothing returns the empty list |
| Store.TasksOfBounded | server/controllers/subtaskController.js:33-36 | in a well-formed store every task listed for a goal has progress within 0..100 |
| Store.RollUpGoal | server/controllers/subtaskController.js:33-39 | the goal, if present, gets the rounded mean over all its tasks and nothing else changes; a missing goal is a no-op; the store stays well-formed and the goal becomes consistent |
| SubtaskController.Flip | server/controllers/subtaskController.js:13 | the completion flag is negated and every other field is kept |
| SubtaskController.RollUpTask | server/controllers/subtaskController.js:18-29 | only the task is rewritten, with the rounded percentage of its subtasks and isCompleted exactly at 100; the task becomes consistent and the store stays well-formed |
| SubtaskController.Toggle | server/controllers/subtaskController.js:7-50 | NotFound exactly when the subtask is missing, and then nothing changes; otherwise the flipped subtask is saved; ServerError exactly when its task is missing, with tasks and goals unchanged; otherwise Ok with the flipped subtask, and only the parent task and parent goal are written, with the replied values |
| SubtaskController.ToggleRollsUp | server/controllers/subtaskController.js:18-46 | after a successful toggle, the replied and stored task progress is the roll-up of the task's subtasks in the new store, with completion exactly at 100; the replied goal progress is the rounded mean of the goal's tasks in the new store and is stored when the goal exists; both lie in 0..100 |
| SubtaskController.ToggleKeepsConsistent | server/controllers/subtaskController.js:13-39 | a toggle keeps every task and goal percentage in agreement with its children |
| SubtaskController.ToggleTwice | server/controllers/subtaskController.js:13-39 | toggling the same subtask twice in a consistent store restores the whole store, and the second reply reports the original subtask and the original task and goal percentages |
| SubtaskController.ToggleTwiceRestoresSubtask | server/controllers/subtaskController.js:13-14 | the second flip gives back the original subtask collection |
| SubtaskController.ToggleTwiceOk | server/controllers/subtaskController.js:18-39 | when the task exists and is rolled up, and its goal, if present, is rolled up, toggling twice restores the whole store, and the second reply is Ok with the original subtask and the original task and goal progress |
| SubtaskController.RollUpRestores | server/controllers/subtaskController.js:22-39 | a store differing from the original only in the progress of one task and of its goal, both rolled up again from unchanged subtasks and tasks, is the original store |
| Store.Database.TakeId | server/controllers/taskController.js:7-8 | a new record receives the next identifier, and only the identifier counter changes |
| Store.Database.PutSubtask | server/controllers/subtaskController.js:14 | `subtask.save()`: the subtask collection gets the given record under its identifier and nothing else changes |
| Store.Database.PutTask | server/controllers/subtaskController.js:22-29 | `Task.findByIdAndUpdate` and `newTask.save()`: the task collection gets the given record under its identifier and nothing else changes |
| Store.Database.PutGoal | server/controllers/subtaskController.js:39 | `Goal.findByIdAndUpdate` and `newGoal.save()`: the goal collection gets the given record under its identifier and nothing else changes |
| SubtaskController.ToggleSubtask | server/controllers/subtaskController.js:7-50 | the in-place handler leaves exactly the store and reply of Toggle and keeps the store well-formed |
| TaskController.Add | server/controllers/taskController.js:4-21 | ServerError with nothing saved exactly when the goal reference or the title is missing; otherwise Created with the new task (next identifier, the given goal and title, progress 0, not completed); existing tasks and all subtasks are unchanged; only the parent goal's progress may change |
| TaskController.AddTaskListed | server/controllers/taskController.js:8-11 | the new task is added to its goal's task query; that it comes last is the model's chosen order, not a promise of the store |
| TaskController.AddTaskAverage | server/controllers/taskController.js:10-15 | the goal's new progress is the old sum of its tasks' progress over one more task, rounded half up |
| TaskController.AddTaskNeverIncreases | server/controllers/taskController.js:10-13 | in a consistent store, adding a task never raises its goal's progress |
| TaskController.AddTaskKeepsConsistent | server/controllers/taskController.js:8-15 | adding a task keeps every task and goal percentage in agreement with its children |
| TaskController.AddTask | server/controllers/taskController.js:4-21 | the in-place handler leaves exactly the store and reply of Add and keeps the store well-formed |
| GoalController.Create | server/controllers/goalController.js:3-18 | ServerError with nothing saved exactly when the title is missing; otherwise Created with the goal stored under the next identifier, owned by the caller, with the supplied fields and progress 0, and nothing else changes |
| GoalController.List | server/controllers/goalController.js:20-27 | listing always succeeds |
| GoalController.ListIsExactlyOwned | server/controllers/goalController.js:22-23 | every listed goal is a stored goal of the caller, and every stored goal of the caller is listed |
| GoalController.ListInCreationOrder | server/controllers/goalController.js:22 | listed goals have strictly increasing identifiers; this order is the model's choice, since the query has no sort and the store promises no order |
| GoalController.FoundInOrder | server/controllers/goalController.js:22 | a query over goals returns identifiers below the scan bound, in increasing order (so no goal is listed twice; the order itself is the model's choice) |
| GoalController.CreatedGoalIsListed | server/controllers/goalController.js:7-14 | a created goal joins its owner's listing (last, in the model's chosen order), and no other user's listing changes |
| GoalController.CreateKeepsConsistent | server/controllers/goalController.js:7-13 | creating a goal keeps every percentage consistent when no task already names the new identifier |
| GoalController.CreateGoal | server/controllers/goalController.js:3-18 | the in-place handler leaves exactly the store and reply of Create and keeps the store well-formed |
| GoalController.GetGoals | server/controllers/goalController.js:20-27 | the in-place handler changes nothing and returns exactly the reply of List, which is Ok with the caller's stored goals, each once (in identifier order, the model's choice) |

## Left out

- HTTP and Express plumbing: routing, JSON bodies and status-code transport. Replies are a `Reply` datatype that carries its status code.
- The Mongoose/MongoDB client: connection lifecycle, `timestamps`, ObjectId generation and casting. Identifiers are natural numbers handed out in order.
  - A malformed identifier string, which the real store rejects with an error at lookup, has no counterpart here.
- Storage failures such as a lost connection. The only 500 replies modelled are:
  - failed schema validation on save;
  - the dereference of a missing task in the toggle handler.
- Concurrency: the lost-update race between two simultaneous toggles is not modelled. Handlers are atomic sequential steps.
- Floating point: `Math.round` is modelled as exact rational rounding, halves up. The JavaScript code divides in floating point first, e.g. `(completed / total) * 100`. At an exact half, the floating-point quotient can land a hair below the half and then round down. That effect is not modelled.
- Authentication: the owner of a created goal and the user whose goals are listed are parameters. They stand for the identifier the authentication middleware puts on the request.
- All web and mobile screens, including the clients' own average display and their optimistic toggle.
- The route files name handlers that have no source in the controllers: creating, reading, updating and deleting tasks through other routes, and creating and deleting subtasks. Cascade delete has no source either. None of these is modelled. `Records.NewSubtask` models only the subtask schema.
- server/models/Goal.js is not part of this model. The goal record is assumed to have the fields user, title, description, category and progress, to require a non-empty title, and to default progress to 0.
- Listing order: none of the queries (goalController.js:22, taskController.js:11, subtaskController.js:18 and 33) has a sort, and MongoDB promises no order for such a query. The model returns records in identifier order. Every order statement (GoalController.ListInCreationOrder, the order clause of GoalController.GetGoals, "last" in GoalController.CreatedGoalIsListed, TaskController.AddTaskListed and Store.FindInsert) is about that choice. A most-recent-first listing, which the code does not implement, is not modelled. The roll-ups do not depend on order: they count and sum.
- Schema re-validation on save: `WellFormed` requires every stored task and subtask to have a non-empty title, because Mongoose re-checks required fields when `subtask.save()` runs. The failure of that save on a stored record without a title is therefore outside the model; no modelled handler creates such a record.
- Store invariants the code does not maintain:
  - The add-task handler does not check that the goal exists, so the model does not require every task's goal to exist. A task filed under a missing goal leaves no goal to update, and the handler still answers 201.
  - `Consistent` takes a task with no subtasks to have progress 0, the schema default. The toggle handler never meets that case, because the toggled subtask is always among its task's subtasks.
- GoalController.CreateKeepsConsistent: assumes no existing task already names the new goal's identifier. Real object identifiers are fresh, but nothing in the store enforces this.
- When the toggled subtask's task is missing, the handler answers 500 but the flipped subtask has already been saved (`SubtaskController.Toggle` states this). There is no rollback, as in the code.
