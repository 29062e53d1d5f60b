/** Toggling a subtask: flip its completion flag, then roll the change up to
    its task and from there to the task's goal. */
module SubtaskController {
  import opened Records
  import opened Rollup
  import opened Store

  /** The body of a successful reply: the saved subtask and the two new percentages. */
  datatype Toggled = Toggled(subtask: Subtask, taskProgress: nat, goalProgress: nat)

  function Flip(x: Subtask): (y: Subtask)
    ensures y.isCompleted == !x.isCompleted
    ensures y.id == x.id && y.task == x.task && y.title == x.title
  {
    x.(isCompleted := !x.isCompleted)
  }

  /** Writes task t's progress and completion flag, recomputed from all of its subtasks. */
  function RollUpTask(s: Snapshot, t: Id): (r: Snapshot)
    requires WellFormed(s) && t in s.tasks && |SubtasksOf(s, t)| > 0
    ensures WellFormed(r)
    ensures var p := TaskRollup(SubtasksOf(s, t));
      r == s.(tasks := s.tasks[t := s.tasks[t].(progress := p, isCompleted := p == 100)])
    ensures TaskRolledUp(r, t)
  {
    var taskProgress := TaskRollup(SubtasksOf(s, t));
    var updatedTask := s.tasks[t].(progress := taskProgress, isCompleted := taskProgress == 100);
    var r := s.(tasks := s.tasks[t := updatedTask]);
    assert SubtasksOf(r, t) == SubtasksOf(s, t);
    r
  }

  /** The effect of the toggle handler on the store, as a value.
      NotFound when no subtask has the identifier; ServerError, with the flip
      already saved, when the subtask's task is missing; otherwise the task's
      and the goal's progress are recomputed and written back (the goal's only
      if it exists). */
  function Toggle(s: Snapshot, id: Id): (r: Step<Toggled>)
    requires WellFormed(s)
    ensures WellFormed(r.after)
    ensures r.reply.NotFound? <==> id !in s.subtasks
    ensures id !in s.subtasks ==> r.after == s
    ensures r.after.nextId == s.nextId
    ensures id in s.subtasks ==> r.after.subtasks == s.subtasks[id := Flip(s.subtasks[id])]
    ensures r.reply.ServerError? <==> id in s.subtasks && s.subtasks[id].task !in s.tasks
    ensures r.reply.ServerError? ==> r.after.tasks == s.tasks && r.after.goals == s.goals
    ensures r.reply.Ok? || r.reply.NotFound? || r.reply.ServerError?
    ensures r.reply.Ok? ==>
      var t := s.subtasks[id].task;
      var g := s.tasks[t].goal;
      var b := r.reply.body;
      && b.subtask == Flip(s.subtasks[id])
      // only the parent task and the parent goal are written, with the values replied
      && r.after.tasks == s.tasks[t := s.tasks[t].(progress := b.taskProgress, isCompleted := b.taskProgress == 100)]
      && r.after.goals == (if g in s.goals then s.goals[g := s.goals[g].(progress := b.goalProgress)] else s.goals)
  {
    if id !in s.subtasks then Step(s, NotFound)
    else
      var subtask := Flip(s.subtasks[id]);
      var s1 := s.(subtasks := s.subtasks[id := subtask]);
      var taskId := subtask.task;
      FindComplete(s1.subtasks, TaskOfSubtask, taskId, s1.nextId, id);
      if taskId !in s1.tasks then Step(s1, ServerError)
      else
        var s2 := RollUpTask(s1, taskId);
        var goalId := s2.tasks[taskId].goal;
        FindComplete(s2.tasks, GoalOfTask, goalId, s2.nextId, taskId);
        Step(RollUpGoal(s2, goalId), Ok(Toggled(subtask, s2.tasks[taskId].progress, GoalRollup(TasksOf(s2, goalId)))))
  }

  /** The values a successful toggle writes and replies are the roll-ups of
      the new state: the task's rounded completion percentage, its completion
      flag set exactly at 100, and the goal's rounded mean, all within 0..100. */
  lemma ToggleRollsUp(s: Snapshot, id: Id)
    requires WellFormed(s)
    ensures var r := Toggle(s, id);
      r.reply.Ok? ==>
        var t := s.subtasks[id].task;
        var g := s.tasks[t].goal;
        && |SubtasksOf(r.after, t)| > 0
        && r.reply.body.taskProgress == TaskRollup(SubtasksOf(r.after, t))
        && TaskRolledUp(r.after, t)
        && |TasksOf(r.after, g)| > 0
        && r.reply.body.goalProgress == GoalRollup(TasksOf(r.after, g))
        && (g in s.goals ==> GoalRolledUp(r.after, g))
        && r.reply.body.taskProgress <= 100 && r.reply.body.goalProgress <= 100
  {
    var r := Toggle(s, id);
    if r.reply.Ok? {
      var t := s.subtasks[id].task;
      var s1 := s.(subtasks := s.subtasks[id := Flip(s.subtasks[id])]);
      var s2 := RollUpTask(s1, t);
      var g := s.tasks[t].goal;
      assert r.after == RollUpGoal(s2, g);
      assert SubtasksOf(r.after, t) == SubtasksOf(s2, t);
      FindComplete(r.after.tasks, GoalOfTask, g, s.nextId, t);
      TasksOfBounded(s2, g);
      GoalRollupBound(TasksOf(s2, g));
    }
  }

  /** Toggling keeps every derived value in agreement with the records: the
      touched task and goal are recomputed, and no other task's subtasks and
      no other goal's tasks have changed. */
  lemma ToggleKeepsConsistent(s: Snapshot, id: Id)
    requires WellFormed(s) && Consistent(s)
    ensures Consistent(Toggle(s, id).after)
  {
    var r := Toggle(s, id);
    if id in s.subtasks {
      var x := s.subtasks[id];
      var t := x.task;
      forall k | k in r.after.tasks && k != t
        ensures TaskRolledUp(r.after, k)
      {
        FindUpdateOther(s.subtasks, TaskOfSubtask, k, s.nextId, id, Flip(x));
        assert SubtasksOf(r.after, k) == SubtasksOf(s, k);
        assert TaskRolledUp(s, k);
      }
      if r.reply.Ok? {
        var g := s.tasks[t].goal;
        var nt := r.after.tasks[t];
        forall k | k in r.after.goals && k != g
          ensures GoalRolledUp(r.after, k)
        {
          FindUpdateOther(s.tasks, GoalOfTask, k, s.nextId, t, nt);
          assert TasksOf(r.after, k) == TasksOf(s, k);
          assert GoalRolledUp(s, k);
        }
      } else {
        forall k | k in r.after.goals
          ensures GoalRolledUp(r.after, k)
        {
          assert TasksOf(r.after, k) == TasksOf(s, k);
          assert GoalRolledUp(s, k);
        }
      }
    }
  }

  /** Toggling the same subtask twice in a consistent store restores the
      whole store, and the second reply reports the original percentages. */
  lemma ToggleTwice(s: Snapshot, id: Id)
    requires WellFormed(s) && Consistent(s)
    ensures Toggle(Toggle(s, id).after, id).after == s
    ensures id in s.subtasks && s.subtasks[id].task in s.tasks ==>
      var r2 := Toggle(Toggle(s, id).after, id).reply;
      var t := s.subtasks[id].task;
      && r2.Ok?
      && r2.body.subtask == s.subtasks[id]
      && r2.body.taskProgress == s.tasks[t].progress
      && (s.tasks[t].goal in s.goals ==> r2.body.goalProgress == s.goals[s.tasks[t].goal].progress)
  {
    if id in s.subtasks {
      var t := s.subtasks[id].task;
      if t in s.tasks {
        assert TaskRolledUp(s, t);
        assert s.tasks[t].goal in s.goals ==> GoalRolledUp(s, s.tasks[t].goal);
        ToggleTwiceOk(s, id);
      } else {
        ToggleTwiceRestoresSubtask(s, id);
      }
    }
  }

  /** The second flip restores the subtask collection. */
  lemma ToggleTwiceRestoresSubtask(s: Snapshot, id: Id)
    requires WellFormed(s) && id in s.subtasks
    ensures Toggle(Toggle(s, id).after, id).after.subtasks == s.subtasks
  {
    var x := s.subtasks[id];
    assert Flip(Flip(x)) == x;
    assert s.subtasks[id := Flip(x)][id := x] == s.subtasks;
  }

  /** The successful case of toggling twice: the second roll-up sees the
      original subtasks, hence writes back the original task and goal values. */
  lemma ToggleTwiceOk(s: Snapshot, id: Id)
    requires WellFormed(s)
    requires id in s.subtasks && s.subtasks[id].task in s.tasks
    requires TaskRolledUp(s, s.subtasks[id].task)
    requires s.tasks[s.subtasks[id].task].goal in s.goals ==> GoalRolledUp(s, s.tasks[s.subtasks[id].task].goal)
    ensures Toggle(Toggle(s, id).after, id).after == s
    ensures var r2 := Toggle(Toggle(s, id).after, id).reply;
      && r2.Ok? && r2.body.subtask == s.subtasks[id]
      && r2.body.taskProgress == s.tasks[s.subtasks[id].task].progress
      && (s.tasks[s.subtasks[id].task].goal in s.goals ==>
          r2.body.goalProgress == s.goals[s.tasks[s.subtasks[id].task].goal].progress)
  {
    var t := s.subtasks[id].task;
    var g := s.tasks[t].goal;
    var s1 := Toggle(s, id).after;
    var r2 := Toggle(s1, id);
    ToggleTwiceRestoresSubtask(s, id);
    ToggleRollsUp(s1, id);
    var b := r2.reply.body;
    assert s1.subtasks[id].task == t && s1.tasks[t].goal == g;
    assert r2.after.tasks == s.tasks[t := s.tasks[t].(progress := b.taskProgress, isCompleted := b.taskProgress == 100)];
    assert r2.after.goals == if g in s.goals then s.goals[g := s.goals[g].(progress := b.goalProgress)] else s.goals;
    RollUpRestores(s, r2.after, t);
  }

  /** A store that differs from a consistent one only in the progress of
      task t and of its goal, where both are rolled up from the unchanged
      subtasks and tasks, is the original store. */
  lemma RollUpRestores(s: Snapshot, a: Snapshot, t: Id)
    requires t in s.tasks && TaskRolledUp(s, t)
    requires s.tasks[t].goal in s.goals ==> GoalRolledUp(s, s.tasks[t].goal)
    requires a.subtasks == s.subtasks && a.nextId == s.nextId
    requires t in a.tasks && a.tasks == s.tasks[t := a.tasks[t]] && TaskRolledUp(a, t)
    requires a.tasks[t] == s.tasks[t].(progress := a.tasks[t].progress, isCompleted := a.tasks[t].isCompleted)
    requires var g := s.tasks[t].goal;
      a.goals == if g in s.goals && g in a.goals then s.goals[g := a.goals[g]] else s.goals
    requires var g := s.tasks[t].goal;
      g in s.goals && g in a.goals ==> a.goals[g] == s.goals[g].(progress := a.goals[g].progress) && GoalRolledUp(a, g)
    ensures a == s
  {
    var g := s.tasks[t].goal;
    // the task: its subtasks are the original ones
    assert SubtasksOf(a, t) == SubtasksOf(s, t);
    assert a.tasks[t] == s.tasks[t];
    assert a.tasks == s.tasks;
    // the goal: its tasks are the original ones
    assert TasksOf(a, g) == TasksOf(s, g);
    if g in s.goals {
      assert a.goals[g] == s.goals[g];
    }
    assert a.goals == s.goals;
  }

  /** The toggle handler, step by step over the store. */
  method ToggleSubtask(db: Database, id: Id) returns (r: Reply<Toggled>)
    requires db.Valid()
    modifies db
    ensures db.Valid()
    ensures Step(db.State(), r) == Toggle(old(db.State()), id)
  {
    ghost var s0 := db.State();
    if id !in db.subtasks {
      return NotFound;
    }
    // 1. flip the completion flag and save the subtask
    var subtask := db.subtasks[id].(isCompleted := !db.subtasks[id].isCompleted);
    db.PutSubtask(id, subtask);
    ghost var s1 := db.State();
    assert s1 == s0.(subtasks := s0.subtasks[id := Flip(s0.subtasks[id])]);
    // 2. recompute the parent task's progress from all of its subtasks
    var taskId := subtask.task;
    if taskId !in db.tasks {
      return ServerError;
    }
    var allSubtasks := SubtasksOf(db.State(), taskId);
    FindComplete(s1.subtasks, TaskOfSubtask, taskId, s1.nextId, id);
    var taskProgress := TaskRollup(allSubtasks);
    var updatedTask := db.tasks[taskId].(progress := taskProgress, isCompleted := taskProgress == 100);
    db.PutTask(taskId, updatedTask);
    ghost var s2 := db.State();
    assert s2 == RollUpTask(s1, taskId);
    // 3. recompute the parent goal's progress from all of its tasks
    var goalId := updatedTask.goal;
    var allTasks := TasksOf(db.State(), goalId);
    FindComplete(s2.tasks, GoalOfTask, goalId, s2.nextId, taskId);
    var goalProgress := GoalRollup(allTasks);
    if goalId in db.goals {
      db.PutGoal(goalId, db.goals[goalId].(progress := goalProgress));
    }
    assert db.State() == RollUpGoal(s2, goalId);
    r := Ok(Toggled(subtask, taskProgress, goalProgress));
  }
}
