/** The hierarchy store: three collections of records keyed by identifier,
    queries by a parent field, the store invariants, and the replies the
    handlers give. */
module Store {
  import opened Records
  import opened Rollup

  /** The content of the store at one moment. `nextId` is the identifier the
      next inserted record receives. */
  datatype Snapshot = Snapshot(
    goals: map<Id, Goal>,
    tasks: map<Id, Task>,
    subtasks: map<Id, Subtask>,
    nextId: nat)

  /** What a handler answers: `Ok` is sent with status 200, `Created` with 201,
      `NotFound` with 404 and `ServerError` with 500. */
  datatype Reply<+T> = Ok(body: T) | Created(body: T) | NotFound | ServerError

  /** The new store content together with the reply a handler gives. */
  datatype Step<+T> = Step(after: Snapshot, reply: Reply<T>)

  /** Record k is stored and its field selected by `key` equals `want`. */
  predicate Selects<K(==), T>(m: map<Id, T>, key: T -> K, want: K, k: Id) {
    k in m && key(m[k]) == want
  }

  /** A query by field value: the records among identifiers 0..n-1 whose field
      selected by `key` equals `want`. The store gives no order for a query
      without a sort; the model fixes identifier order. */
  function Find<K(==), T(==)>(m: map<Id, T>, key: T -> K, want: K, n: nat): (r: seq<T>)
    ensures |r| <= n
  {
    if n == 0 then []
    else
      var prefix := Find(m, key, want, n - 1);
      if Selects(m, key, want, n - 1) then prefix + [m[n - 1]] else prefix
  }

  /** Every record a query returns is a stored record that it selects:
      the i-th answer is the record filed under some identifier k < n. */
  lemma {:induction false} FindSound<K, T>(m: map<Id, T>, key: T -> K, want: K, n: nat, i: nat)
      returns (k: Id)
    requires i < |Find(m, key, want, n)|
    ensures k < n && Selects(m, key, want, k) && m[k] == Find(m, key, want, n)[i]
  {
    var prefix := Find(m, key, want, n - 1);
    if i < |prefix| {
      k := FindSound(m, key, want, n - 1, i);
    } else {
      k := n - 1;
    }
  }

  /** Every stored record a query selects is returned. */
  lemma {:induction false} FindComplete<K, T>(m: map<Id, T>, key: T -> K, want: K, n: nat, k: Id)
    requires k < n && Selects(m, key, want, k)
    ensures m[k] in Find(m, key, want, n)
  {
    if k < n - 1 {
      FindComplete(m, key, want, n - 1, k);
    }
  }

  /** A query returns one record per identifier below n that it selects, so
      no record is returned twice and the length of the answer is the number
      of selected records. */
  lemma {:induction false} FindCount<K, T>(m: map<Id, T>, key: T -> K, want: K, n: nat)
    ensures |Find(m, key, want, n)| == |set k | 0 <= k < n && Selects(m, key, want, k)|
  {
    if n > 0 {
      FindCount(m, key, want, n - 1);
      var before := set k | 0 <= k < n - 1 && Selects(m, key, want, k);
      var after := set k | 0 <= k < n && Selects(m, key, want, k);
      if Selects(m, key, want, n - 1) {
        assert after == before + {n - 1};
      } else {
        assert after == before;
      }
    }
  }

  /** Field projections used as query keys. */
  function TaskOfSubtask(s: Subtask): (t: Id) { s.task }
  function GoalOfTask(t: Task): (g: Id) { t.goal }
  function OwnerOfGoal(g: Goal): (u: Id) { g.user }

  /** All subtasks of task t. */
  function SubtasksOf(s: Snapshot, t: Id): (r: seq<Subtask>) {
    Find(s.subtasks, TaskOfSubtask, t, s.nextId)
  }

  /** All tasks of goal g. */
  function TasksOf(s: Snapshot, g: Id): (r: seq<Task>) {
    Find(s.tasks, GoalOfTask, g, s.nextId)
  }

  /** All goals owned by user u. */
  function GoalsOwnedBy(s: Snapshot, u: Id): (r: seq<Goal>) {
    Find(s.goals, OwnerOfGoal, u, s.nextId)
  }

  /** The structural invariant of the store: identifiers already handed out,
      each record filed under its own identifier, subtasks referring only to
      identifiers already handed out, every task and subtask carrying the
      non-empty title its schema requires on every save, and every percentage
      within 0..100. */
  ghost predicate WellFormed(s: Snapshot) {
    && (forall k :: k in s.goals ==> k < s.nextId && s.goals[k].id == k)
    && (forall k :: k in s.tasks ==> k < s.nextId && s.tasks[k].id == k)
    && (forall k :: k in s.subtasks ==> k < s.nextId && s.subtasks[k].id == k && s.subtasks[k].task < s.nextId)
    && (forall k :: k in s.tasks ==> s.tasks[k].title != "")
    && (forall k :: k in s.subtasks ==> s.subtasks[k].title != "")
    && (forall k :: k in s.tasks ==> s.tasks[k].progress <= 100)
    && (forall k :: k in s.goals ==> s.goals[k].progress <= 100)
  }

  /** The divisor of a task's roll-up: in a well-formed store the query for
      task t's subtasks returns exactly as many records as are stored for t. */
  lemma SubtasksOfCount(s: Snapshot, t: Id)
    requires WellFormed(s)
    ensures |SubtasksOf(s, t)| == |set k | k in s.subtasks && s.subtasks[k].task == t|
  {
    FindCount(s.subtasks, TaskOfSubtask, t, s.nextId);
    assert (set k | 0 <= k < s.nextId && Selects(s.subtasks, TaskOfSubtask, t, k))
        == (set k | k in s.subtasks && s.subtasks[k].task == t);
  }

  /** The divisor of a goal's roll-up: in a well-formed store the query for
      goal g's tasks returns exactly as many records as are stored for g. */
  lemma TasksOfCount(s: Snapshot, g: Id)
    requires WellFormed(s)
    ensures |TasksOf(s, g)| == |set k | k in s.tasks && s.tasks[k].goal == g|
  {
    FindCount(s.tasks, GoalOfTask, g, s.nextId);
    assert (set k | 0 <= k < s.nextId && Selects(s.tasks, GoalOfTask, g, k))
        == (set k | k in s.tasks && s.tasks[k].goal == g);
  }

  /** The tasks of a goal in a well-formed store carry percentages. */
  lemma TasksOfBounded(s: Snapshot, g: Id)
    requires WellFormed(s)
    ensures forall i :: 0 <= i < |TasksOf(s, g)| ==> TasksOf(s, g)[i].progress <= 100
  {
    forall i | 0 <= i < |TasksOf(s, g)|
      ensures TasksOf(s, g)[i].progress <= 100
    {
      var k := FindSound(s.tasks, GoalOfTask, g, s.nextId, i);
    }
  }

  /** Writes goal g's progress, recomputed from all of its tasks; a missing
      goal is left missing. */
  function RollUpGoal(s: Snapshot, g: Id): (r: Snapshot)
    requires WellFormed(s) && |TasksOf(s, g)| > 0
    ensures WellFormed(r)
    ensures r == if g in s.goals then s.(goals := s.goals[g := s.goals[g].(progress := GoalRollup(TasksOf(s, g)))]) else s
    ensures g in s.goals ==> GoalRolledUp(r, g)
  {
    var allTasks := TasksOf(s, g);
    TasksOfBounded(s, g);
    GoalRollupBound(allTasks);
    var goalProgress := GoalRollup(allTasks);
    if g in s.goals then
      var updatedGoal := s.goals[g].(progress := goalProgress);
      var r := s.(goals := s.goals[g := updatedGoal]);
      assert TasksOf(r, g) == allTasks;
      r
    else s
  }

  /** Inserting a task under the next identifier keeps the store well-formed. */
  lemma InsertTaskWellFormed(s: Snapshot, task: Task)
    requires WellFormed(s) && task.id == s.nextId && task.progress <= 100 && task.title != ""
    ensures WellFormed(s.(tasks := s.tasks[s.nextId := task], nextId := s.nextId + 1))
  {
  }

  /** Inserting a goal under the next identifier keeps the store well-formed. */
  lemma InsertGoalWellFormed(s: Snapshot, goal: Goal)
    requires WellFormed(s) && goal.id == s.nextId && goal.progress <= 100
    ensures WellFormed(s.(goals := s.goals[s.nextId := goal], nextId := s.nextId + 1))
  {
  }

  /** Task t's stored progress is the rounded percentage of its completed
      subtasks (0 when it has none), and it is completed exactly at 100. */
  ghost predicate TaskRolledUp(s: Snapshot, t: Id)
    requires t in s.tasks
  {
    var subs := SubtasksOf(s, t);
    && s.tasks[t].progress == (if |subs| == 0 then 0 else TaskRollup(subs))
    && (s.tasks[t].isCompleted <==> s.tasks[t].progress == 100)
  }

  /** Goal g's stored progress is the rounded mean of its tasks' progress
      (0 when it has none). */
  ghost predicate GoalRolledUp(s: Snapshot, g: Id)
    requires g in s.goals
  {
    var ts := TasksOf(s, g);
    s.goals[g].progress == (if |ts| == 0 then 0 else GoalRollup(ts))
  }

  /** Every derived value in the store agrees with the records it is derived from. */
  ghost predicate Consistent(s: Snapshot) {
    && (forall t :: t in s.tasks ==> TaskRolledUp(s, t))
    && (forall g :: g in s.goals ==> GoalRolledUp(s, g))
  }

  /** A query gives the same answer on two collections that agree on every
      record it selects. */
  lemma {:induction false} FindAgree<K, T>(m1: map<Id, T>, m2: map<Id, T>, key: T -> K, want: K, n: nat)
    requires forall k :: 0 <= k < n && Selects(m2, key, want, k) ==> Selects(m1, key, want, k)
    requires forall k :: 0 <= k < n && Selects(m1, key, want, k) ==> k in m2 && m1[k] == m2[k]
    ensures Find(m1, key, want, n) == Find(m2, key, want, n)
  {
    if n > 0 {
      FindAgree(m1, m2, key, want, n - 1);
    }
  }

  /** Inserting a record under the next identifier adds it at the end of
      every query that selects it and leaves every other query as it was. */
  lemma FindInsert<K, T>(m: map<Id, T>, key: T -> K, want: K, n: nat, x: T)
    requires forall k :: k in m ==> k < n
    ensures Find(m[n := x], key, want, n + 1)
         == Find(m, key, want, n) + (if key(x) == want then [x] else [])
  {
    FindAgree(m[n := x], m, key, want, n);
  }

  /** A query over one more identifier that holds no record gives the same answer. */
  lemma FindExtend<K, T>(m: map<Id, T>, key: T -> K, want: K, n: nat)
    requires n !in m
    ensures Find(m, key, want, n + 1) == Find(m, key, want, n)
  {
  }

  /** A query that selects no identifier below n returns nothing. */
  lemma {:induction false} FindNone<K, T>(m: map<Id, T>, key: T -> K, want: K, n: nat)
    requires forall k :: 0 <= k < n ==> !Selects(m, key, want, k)
    ensures Find(m, key, want, n) == []
  {
    if n > 0 {
      FindNone(m, key, want, n - 1);
    }
  }

  /** Updating one record without moving it to another parent leaves the
      queries of every other parent unchanged. */
  lemma FindUpdateOther<K, T>(m: map<Id, T>, key: T -> K, want: K, n: nat, k0: Id, x: T)
    requires k0 in m && key(x) == key(m[k0]) && key(x) != want
    ensures Find(m[k0 := x], key, want, n) == Find(m, key, want, n)
  {
    FindAgree(m[k0 := x], m, key, want, n);
  }

  /** The mutable store: three collections the handlers update in place. */
  class Database {
    var goals: map<Id, Goal>
    var tasks: map<Id, Task>
    var subtasks: map<Id, Subtask>
    var nextId: nat

    /** The store's current content as a value. */
    function State(): (s: Snapshot)
      reads this
    {
      Snapshot(goals, tasks, subtasks, nextId)
    }

    ghost predicate Valid()
      reads this
    {
      WellFormed(State())
    }

    /** Hands out the next identifier. */
    method TakeId() returns (k: Id)
      modifies this
      ensures k == old(nextId)
      ensures State() == old(State()).(nextId := k + 1)
    {
      k := nextId;
      nextId := nextId + 1;
    }

    /** Saves subtask x under identifier k. */
    method PutSubtask(k: Id, x: Subtask)
      modifies this
      ensures State() == old(State()).(subtasks := old(subtasks)[k := x])
    {
      subtasks := subtasks[k := x];
    }

    /** Saves task x under identifier k. */
    method PutTask(k: Id, x: Task)
      modifies this
      ensures State() == old(State()).(tasks := old(tasks)[k := x])
    {
      tasks := tasks[k := x];
    }

    /** Saves goal x under identifier k. */
    method PutGoal(k: Id, x: Goal)
      modifies this
      ensures State() == old(State()).(goals := old(goals)[k := x])
    {
      goals := goals[k := x];
    }

    /** An empty store. */
    constructor ()
      ensures Valid()
      ensures State() == Snapshot(map[], map[], map[], 0)
    {
      goals, tasks, subtasks, nextId := map[], map[], map[], 0;
    }
  }
}
