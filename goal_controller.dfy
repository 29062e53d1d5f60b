/** Goals: creating one stamped with its owner, and listing a user's goals. */
module GoalController {
  import opened Records
  import opened Store

  /** The effect of the create-goal handler on the store, as a value.
      The owner comes from the authenticated caller, never from the request
      fields. ServerError, with nothing saved, when the title is missing;
      otherwise the goal is saved under the next identifier with progress 0. */
  function Create(s: Snapshot, user: Id, title: Option<string>, description: Option<string>,
                  category: Option<string>): (r: Step<Goal>)
    requires WellFormed(s)
    ensures WellFormed(r.after)
    ensures r.reply.ServerError? <==> !Required(title)
    ensures r.reply.ServerError? ==> r.after == s
    ensures r.reply.Created? || r.reply.ServerError?
    ensures r.reply.Created? ==>
      && r.reply.body == Goal(s.nextId, user, title.value, description, category, 0)
      && r.after == s.(goals := s.goals[s.nextId := r.reply.body], nextId := s.nextId + 1)
  {
    match NewGoal(s.nextId, user, title, description, category)
    case None => Step(s, ServerError)
    case Some(goal) =>
      InsertGoalWellFormed(s, goal);
      Step(s.(goals := s.goals[s.nextId := goal], nextId := s.nextId + 1), Created(goal))
  }

  /** The listing a user receives: their goals, in identifier order, the
      order the model's query fixes. */
  function List(s: Snapshot, user: Id): (r: Reply<seq<Goal>>)
    ensures r.Ok?
  {
    Ok(GoalsOwnedBy(s, user))
  }

  /** A listing holds exactly the stored goals of its user: each listed goal
      belongs to the user and is stored, and every stored goal of the user is
      listed. */
  lemma ListIsExactlyOwned(s: Snapshot, user: Id)
    requires WellFormed(s)
    ensures forall i :: 0 <= i < |List(s, user).body| ==>
      var g := List(s, user).body[i];
      g.user == user && g.id in s.goals && s.goals[g.id] == g
    ensures forall k :: k in s.goals && s.goals[k].user == user ==> s.goals[k] in List(s, user).body
  {
    var gs := GoalsOwnedBy(s, user);
    forall i | 0 <= i < |gs|
      ensures gs[i].user == user && gs[i].id in s.goals && s.goals[gs[i].id] == gs[i]
    {
      var k := FindSound(s.goals, OwnerOfGoal, user, s.nextId, i);
    }
    forall k | k in s.goals && s.goals[k].user == user
      ensures s.goals[k] in gs
    {
      FindComplete(s.goals, OwnerOfGoal, user, s.nextId, k);
    }
  }

  /** A listing is in identifier order, the order the model's query fixes:
      identifiers strictly increase along it. */
  lemma ListInCreationOrder(s: Snapshot, user: Id)
    requires WellFormed(s)
    ensures forall i, j :: 0 <= i < j < |List(s, user).body| ==>
      List(s, user).body[i].id < List(s, user).body[j].id
  {
    FoundInOrder(s.goals, user, s.nextId);
  }

  lemma {:induction false} FoundInOrder(goals: map<Id, Goal>, user: Id, n: nat)
    requires forall k :: k in goals ==> goals[k].id == k
    ensures forall i :: 0 <= i < |Find(goals, OwnerOfGoal, user, n)| ==> Find(goals, OwnerOfGoal, user, n)[i].id < n
    ensures forall i, j :: 0 <= i < j < |Find(goals, OwnerOfGoal, user, n)| ==>
      Find(goals, OwnerOfGoal, user, n)[i].id < Find(goals, OwnerOfGoal, user, n)[j].id
  {
    if n > 0 {
      FoundInOrder(goals, user, n - 1);
      var prefix := Find(goals, OwnerOfGoal, user, n - 1);
      var gs := Find(goals, OwnerOfGoal, user, n);
      if Selects(goals, OwnerOfGoal, user, n - 1) {
        assert gs == prefix + [goals[n - 1]];
        assert forall i :: 0 <= i < |prefix| ==> gs[i] == prefix[i];
        assert gs[|prefix|].id == n - 1;
      }
    }
  }

  /** A created goal is listed last among its owner's goals, and no other
      user's listing changes. */
  lemma CreatedGoalIsListed(s: Snapshot, user: Id, title: Option<string>, description: Option<string>,
                            category: Option<string>, other: Id)
    requires WellFormed(s)
    ensures var r := Create(s, user, title, description, category);
      r.reply.Created? ==>
        && List(r.after, user).body == List(s, user).body + [r.reply.body]
        && (other != user ==> List(r.after, other) == List(s, other))
  {
    var r := Create(s, user, title, description, category);
    if r.reply.Created? {
      FindInsert(s.goals, OwnerOfGoal, user, s.nextId, r.reply.body);
      FindInsert(s.goals, OwnerOfGoal, other, s.nextId, r.reply.body);
      if other != user {
        assert OwnerOfGoal(r.reply.body) != other;
        assert GoalsOwnedBy(s, other) + [] == GoalsOwnedBy(s, other);
        assert GoalsOwnedBy(r.after, other) == GoalsOwnedBy(s, other);
      }
    }
  }

  /** Creating a goal keeps every derived value in agreement with the
      records, provided no task already names the new identifier as its goal
      (the new goal starts with progress 0 and no tasks). */
  lemma CreateKeepsConsistent(s: Snapshot, user: Id, title: Option<string>, description: Option<string>,
                              category: Option<string>)
    requires WellFormed(s) && Consistent(s)
    requires forall k :: k in s.tasks ==> s.tasks[k].goal != s.nextId
    ensures Consistent(Create(s, user, title, description, category).after)
  {
    var r := Create(s, user, title, description, category);
    if r.reply.Created? {
      var n := s.nextId;
      var a := r.after;
      forall t | t in a.tasks
        ensures TaskRolledUp(a, t)
      {
        FindExtend(s.subtasks, TaskOfSubtask, t, n);
        assert TaskRolledUp(s, t);
      }
      forall g | g in a.goals
        ensures GoalRolledUp(a, g)
      {
        FindExtend(s.tasks, GoalOfTask, g, n);
        if g == n {
          FindNone(s.tasks, GoalOfTask, n, n);
        } else {
          assert GoalRolledUp(s, g);
        }
      }
    }
  }

  /** The create-goal handler, step by step over the store. */
  method CreateGoal(db: Database, user: Id, title: Option<string>, description: Option<string>,
                    category: Option<string>) returns (r: Reply<Goal>)
    requires db.Valid()
    modifies db
    ensures db.Valid()
    ensures Step(db.State(), r) == Create(old(db.State()), user, title, description, category)
  {
    var newGoal := NewGoal(db.nextId, user, title, description, category);
    if newGoal.None? {
      return ServerError;
    }
    var id := db.TakeId();
    db.PutGoal(id, newGoal.value);
    r := Created(newGoal.value);
  }

  /** The list-goals handler: reads the store and changes nothing. */
  method GetGoals(db: Database, user: Id) returns (r: Reply<seq<Goal>>)
    requires db.Valid()
    ensures r == List(db.State(), user)
    ensures r.Ok?
    ensures forall i :: 0 <= i < |r.body| ==> r.body[i].user == user && r.body[i] in db.goals.Values
    ensures forall k :: k in db.goals && db.goals[k].user == user ==> db.goals[k] in r.body
    ensures forall i, j :: 0 <= i < j < |r.body| ==> r.body[i].id < r.body[j].id
  {
    var goals := GoalsOwnedBy(db.State(), user);
    ListIsExactlyOwned(db.State(), user);
    ListInCreationOrder(db.State(), user);
    assert List(db.State(), user).body == goals;
    assert forall i :: 0 <= i < |goals| ==> goals[i].id in db.goals && db.goals[goals[i].id] == goals[i];
    r := Ok(goals);
  }
}
