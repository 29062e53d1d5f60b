/** Adding a task to a goal: save the new task with progress 0, then
    recompute the goal's percentage as the mean over all of its tasks. */
module TaskController {
  import opened Records
  import opened Rollup
  import opened Store

  /** The effect of the add-task handler on the store, as a value.
      ServerError, with nothing saved, when the goal reference or the title is
      missing; otherwise the task is saved under the next identifier and the
      goal, if it exists, gets the rounded mean of its tasks' progress. The
      goal's existence is not checked: a task may be filed under a missing goal. */
  function Add(s: Snapshot, goalId: Option<Id>, title: Option<string>): (r: Step<Task>)
    requires WellFormed(s)
    ensures WellFormed(r.after)
    ensures r.reply.ServerError? <==> !(goalId.Some? && Required(title))
    ensures r.reply.ServerError? ==> r.after == s
    ensures r.reply.Created? || r.reply.ServerError?
    ensures r.reply.Created? ==>
      var task := r.reply.body;
      var g := goalId.value;
      && task == Task(s.nextId, g, title.value, 0, false)
      && r.after.nextId == s.nextId + 1
      && r.after.tasks == s.tasks[s.nextId := task]
      && r.after.subtasks == s.subtasks
      // only the parent goal is written, and only its progress
      && r.after.goals.Keys == s.goals.Keys
      && (forall k :: k in s.goals && k != g ==> r.after.goals[k] == s.goals[k])
      && (g in s.goals ==> r.after.goals[g] == s.goals[g].(progress := r.after.goals[g].progress))
  {
    match NewTask(s.nextId, goalId, title)
    case None => Step(s, ServerError)
    case Some(task) =>
      InsertTaskWellFormed(s, task);
      var s1 := s.(tasks := s.tasks[s.nextId := task], nextId := s.nextId + 1);
      var g := task.goal;
      FindComplete(s1.tasks, GoalOfTask, g, s1.nextId, task.id);
      Step(RollUpGoal(s1, g), Created(task))
  }

  /** The new task is listed last among its goal's tasks. */
  lemma AddTaskListed(s: Snapshot, goalId: Option<Id>, title: Option<string>)
    requires WellFormed(s)
    ensures var r := Add(s, goalId, title);
      r.reply.Created? ==> TasksOf(r.after, goalId.value) == TasksOf(s, goalId.value) + [r.reply.body]
  {
    var r := Add(s, goalId, title);
    if r.reply.Created? {
      FindInsert(s.tasks, GoalOfTask, goalId.value, s.nextId, r.reply.body);
    }
  }

  /** The goal's new progress is the old sum of its tasks' progress divided
      by one more task (the new one counts 0), rounded half up. */
  lemma AddTaskAverage(s: Snapshot, goalId: Option<Id>, title: Option<string>)
    requires WellFormed(s)
    ensures var r := Add(s, goalId, title);
      r.reply.Created? && goalId.value in s.goals ==>
        var before := TasksOf(s, goalId.value);
        r.after.goals[goalId.value].progress == RoundHalfUp(SumProgress(before), |before| + 1)
  {
    var r := Add(s, goalId, title);
    if r.reply.Created? && goalId.value in s.goals {
      var g := goalId.value;
      var task := r.reply.body;
      AddTaskListed(s, goalId, title);
      SumProgressAppend(TasksOf(s, g), task);
      assert r.after.goals[g].progress == GoalRollup(TasksOf(r.after, g));
    }
  }

  /** Adding a task never raises its goal's percentage in a consistent store:
      the total stays the same while the count grows by one. */
  lemma AddTaskNeverIncreases(s: Snapshot, goalId: Option<Id>, title: Option<string>)
    requires WellFormed(s) && Consistent(s)
    ensures var r := Add(s, goalId, title);
      r.reply.Created? && goalId.value in s.goals ==>
        r.after.goals[goalId.value].progress <= s.goals[goalId.value].progress
  {
    var r := Add(s, goalId, title);
    if r.reply.Created? && goalId.value in s.goals {
      var g := goalId.value;
      var ts := TasksOf(s, g);
      AddTaskAverage(s, goalId, title);
      assert GoalRolledUp(s, g);
      var total := SumProgress(ts);
      if |ts| > 0 {
        MulLeftMono(total, |ts|, |ts| + 1);
        assert total * |ts| <= total * (|ts| + 1);
        RoundMonotone(total, |ts| + 1, total, |ts|);
      } else {
        assert total == 0;
        RoundIs(0, 1, 0);
      }
    }
  }

  /** Adding a task keeps every derived value in agreement with the records:
      the new task has no subtasks yet and progress 0, and only its goal's
      list of tasks has changed. */
  lemma AddTaskKeepsConsistent(s: Snapshot, goalId: Option<Id>, title: Option<string>)
    requires WellFormed(s) && Consistent(s)
    ensures Consistent(Add(s, goalId, title).after)
  {
    var r := Add(s, goalId, title);
    if r.reply.Created? {
      var n := s.nextId;
      var task := r.reply.body;
      var g := task.goal;
      var s1 := s.(tasks := s.tasks[n := task], nextId := n + 1);
      FindComplete(s1.tasks, GoalOfTask, g, s1.nextId, n);
      var a := RollUpGoal(s1, g);
      assert r.after == a;
      forall t | t in a.tasks
        ensures TaskRolledUp(a, t)
      {
        if t != n {
          assert TaskRolledUp(s, t);
        }
        AddTaskKeepsTask(s, s1, task, t);
      }
      forall k | k in a.goals && k != g
        ensures GoalRolledUp(a, k)
      {
        assert GoalRolledUp(s, k);
        AddTaskKeepsGoal(s, s1, task, k);
      }
    }
  }

  /** Every task, old or new, is still rolled up once the new task is stored:
      the new one has no subtasks and progress 0, the old ones keep theirs. */
  lemma AddTaskKeepsTask(s: Snapshot, s1: Snapshot, task: Task, t: Id)
    requires WellFormed(s)
    requires task.progress == 0 && !task.isCompleted
    requires s1 == s.(tasks := s.tasks[s.nextId := task], nextId := s.nextId + 1)
    requires t in s1.tasks && (t != s.nextId ==> TaskRolledUp(s, t))
    ensures TaskRolledUp(s1, t)
  {
    var n := s.nextId;
    FindExtend(s.subtasks, TaskOfSubtask, t, n);
    assert SubtasksOf(s1, t) == SubtasksOf(s, t);
    if t == n {
      // every stored subtask refers to an identifier handed out before n
      assert forall k :: 0 <= k < n ==> !Selects(s.subtasks, TaskOfSubtask, n, k);
      FindNone(s.subtasks, TaskOfSubtask, n, n);
    }
  }

  /** Every goal other than the new task's keeps its tasks, hence its roll-up. */
  lemma AddTaskKeepsGoal(s: Snapshot, s1: Snapshot, task: Task, k: Id)
    requires WellFormed(s)
    requires s1 == s.(tasks := s.tasks[s.nextId := task], nextId := s.nextId + 1)
    requires k in s.goals && k != task.goal && GoalRolledUp(s, k)
    ensures TasksOf(s1, k) == TasksOf(s, k) && GoalRolledUp(s1, k)
  {
    FindInsert(s.tasks, GoalOfTask, k, s.nextId, task);
  }

  /** The add-task handler, step by step over the store. */
  method AddTask(db: Database, goalId: Option<Id>, title: Option<string>) returns (r: Reply<Task>)
    requires db.Valid()
    modifies db
    ensures db.Valid()
    ensures Step(db.State(), r) == Add(old(db.State()), goalId, title)
  {
    ghost var s0 := db.State();
    // 1. build the task (schema defaults and required fields) and save it
    var newTask := NewTask(db.nextId, goalId, title);
    if newTask.None? {
      return ServerError;
    }
    var task := newTask.value;
    var id := db.TakeId();
    db.PutTask(id, task);
    ghost var s1 := db.State();
    assert s1 == s0.(tasks := s0.tasks[s0.nextId := task], nextId := s0.nextId + 1);
    InsertTaskWellFormed(s0, task);
    // 2. recompute the goal's progress from all of its tasks
    var allTasks := TasksOf(db.State(), task.goal);
    FindComplete(s1.tasks, GoalOfTask, task.goal, s1.nextId, id);
    var totalProgress := SumProgress(allTasks);
    var goalProgress := RoundHalfUp(totalProgress, |allTasks|);
    if task.goal in db.goals {
      db.PutGoal(task.goal, db.goals[task.goal].(progress := goalProgress));
    }
    assert db.State() == RollUpGoal(s1, task.goal);
    r := Created(task);
  }
}
