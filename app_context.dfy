/** The store operations of `AppContext.tsx` that build a new state from the
    old one: `login`, `register`, the task edits with their counter upkeep,
    `deleteProject` and `getMemberById`. Each is a function from the state
    before the handler to the state React holds after it. */
module AppContext {
  import opened Common
  import opened ClientModel

  /** A boolean answer together with the new state. */
  datatype Reply = Reply(ok: bool, state: AppState)

  // ----- accounts -----

  /** `login`: the first user with that email and password becomes current. */
  function Login(s: AppState, email: string, password: string): (r: Reply)
    ensures r.ok <==> exists i :: 0 <= i < |s.users| && s.users[i].email == email && s.users[i].password == password
    ensures r.ok ==> exists i :: 0 <= i < |s.users| && r.state.currentUser == Some(s.users[i])
                       && s.users[i].email == email && s.users[i].password == password
                       && forall j :: 0 <= j < i ==> !(s.users[j].email == email && s.users[j].password == password)
    ensures r.state == s.(currentUser := r.state.currentUser)
    ensures !r.ok ==> r.state == s
  {
    match FindUser(s.users, email, password)
    case Some(u) => Reply(true, s.(currentUser := Some(u)))
    case None => Reply(false, s)
  }

  /** `register`, with `id` standing for the generated `user-<time>` id. */
  function Register(s: AppState, name: string, email: string, password: string, id: string): (r: Reply)
    ensures r.ok <==> !EmailTaken(s.users, email)
    ensures !r.ok ==> r.state == s
    ensures r.ok ==> |r.state.users| == |s.users| + 1 && r.state.users[..|s.users|] == s.users
    ensures r.ok ==> r.state.currentUser == Some(r.state.users[|s.users|])
                     && r.state.users[|s.users|] == User(id, name, email, password)
    ensures r.state == s.(users := r.state.users, currentUser := r.state.currentUser)
  {
    if EmailTaken(s.users, email) then Reply(false, s)
    else
      var u := User(id, name, email, password);
      assert (s.users + [u])[..|s.users|] == s.users;
      Reply(true, s.(users := s.users + [u], currentUser := Some(u)))
  }

  /** No two users share an email. */
  predicate UniqueEmails(users: seq<User>) {
    forall i, j :: 0 <= i < j < |users| ==> users[i].email != users[j].email
  }

  /** Registering keeps emails unique, and the new account can then log in,
      which makes exactly that account current. */
  lemma RegisterThenLogin(s: AppState, name: string, email: string, password: string, id: string)
    requires UniqueEmails(s.users)
    requires Register(s, name, email, password, id).ok
    ensures UniqueEmails(Register(s, name, email, password, id).state.users)
    ensures var after := Register(s, name, email, password, id).state;
            var l := Login(after, email, password);
            l.ok && l.state.currentUser == Some(User(id, name, email, password))
  {
    var after := Register(s, name, email, password, id).state;
    var u := User(id, name, email, password);
    assert after.users == s.users + [u];
    assert after.users[|s.users|] == u;
    var l := Login(after, email, password);
    assert l.ok;
  }

  // ----- task edits -----

  /** `addTask`: the task is appended and its assignee's counter goes up by one. */
  function AddTask(s: AppState, task: Task): (r: AppState)
    ensures r.tasks == s.tasks + [task]
    ensures r == s.(tasks := r.tasks, teams := r.teams)
  {
    var teams := if task.assignedTo != Some(UnassignedId) then AdjustCount(s.teams, task.assignedTo, 1) else s.teams;
    s.(tasks := s.tasks + [task], teams := teams)
  }

  /** The counters after the assignment of a task moves from `before` to
      `after`: one off the old assignee, then one on the new, each skipped
      for `'unassigned'`. This is the two `updateMemberTaskCount` calls of
      `updateTask` applied one after the other. */
  function Reassigned(teams: seq<Team>, before: Option<string>, after: Option<string>): seq<Team> {
    if before == after then teams
    else
      var released := if before != Some(UnassignedId) then AdjustCount(teams, before, -1) else teams;
      if after != Some(UnassignedId) then AdjustCount(released, after, 1) else released
  }

  /** `updateTask` with the two counter updates applied in sequence. */
  function UpdateTask(s: AppState, taskId: string, updated: Task): (r: AppState)
    ensures r.tasks == ReplaceTask(s.tasks, taskId, updated)
    ensures r == s.(tasks := r.tasks, teams := r.teams)
  {
    var teams := match FindTask(s.tasks, taskId)
                 case None => s.teams
                 case Some(prev) => Reassigned(s.teams, prev.assignedTo, updated.assignedTo);
    s.(tasks := ReplaceTask(s.tasks, taskId, updated), teams := teams)
  }

  /** `updateTask` as React runs it: both `updateMemberTaskCount` calls
      build their teams from the same render-time `teams`, and the state
      keeps only the last `setTeams`, so when the new assignee is counted the
      old one is never released. */
  function UpdateTaskAsWritten(s: AppState, taskId: string, updated: Task): (r: AppState)
    ensures r.tasks == ReplaceTask(s.tasks, taskId, updated)
    ensures r == s.(tasks := r.tasks, teams := r.teams)
  {
    var teams := match FindTask(s.tasks, taskId)
                 case None => s.teams
                 case Some(prev) =>
                   if prev.assignedTo == updated.assignedTo then s.teams
                   else if updated.assignedTo != Some(UnassignedId) then AdjustCount(s.teams, updated.assignedTo, 1)
                   else if prev.assignedTo != Some(UnassignedId) then AdjustCount(s.teams, prev.assignedTo, -1)
                   else s.teams;
    s.(tasks := ReplaceTask(s.tasks, taskId, updated), teams := teams)
  }

  /** `deleteTask`: every task with that id goes, and the assignee of the
      first one has its counter lowered by one. */
  function DeleteTask(s: AppState, taskId: string): (r: AppState)
    ensures r.tasks == WithoutTask(s.tasks, taskId)
    ensures r == s.(tasks := r.tasks, teams := r.teams)
  {
    var teams := match FindTask(s.tasks, taskId)
                 case Some(task) =>
                   if task.assignedTo != Some(UnassignedId) then AdjustCount(s.teams, task.assignedTo, -1) else s.teams
                 case None => s.teams;
    s.(tasks := WithoutTask(s.tasks, taskId), teams := teams)
  }

  /** `deleteProject`: the project and all its tasks go; the counters are
      left as they were. */
  function DeleteProject(s: AppState, projectId: string): (r: AppState)
    ensures r.projects == WithoutProject(s.projects, projectId)
    ensures r.tasks == WithoutProjectTasks(s.tasks, projectId)
    ensures r.teams == s.teams
    ensures r == s.(projects := r.projects, tasks := r.tasks)
  {
    s.(projects := WithoutProject(s.projects, projectId), tasks := WithoutProjectTasks(s.tasks, projectId))
  }

  /** `getMemberById` on the current teams. */
  function GetMemberById(s: AppState, memberId: string): (r: Option<Member>)
    ensures r.Some? ==> exists t, m :: FirstMemberAt(s.teams, memberId, t, m) && r.value == s.teams[t].members[m]
    ensures r.None? <==> forall t, m :: 0 <= t < |s.teams| && 0 <= m < |s.teams[t].members| ==> s.teams[t].members[m].id != memberId
  {
    MemberById(s.teams, memberId)
  }

  // ----- counting tasks -----

  lemma {:induction false} CountPositive(tasks: seq<Task>, k: nat, id: string)
    requires k < |tasks| && tasks[k].assignedTo == Some(id)
    ensures Count(tasks, id) >= 1
  {
    if k > 0 {
      CountPositive(tasks[1..], k - 1, id);
    }
  }

  lemma {:induction false} CountAppend(a: seq<Task>, b: seq<Task>, id: string)
    ensures Count(a + b, id) == Count(a, id) + Count(b, id)
  {
    if a == [] {
      assert a + b == b;
    } else {
      assert (a + b)[1..] == a[1..] + b;
      CountAppend(a[1..], b, id);
    }
  }

  /** Replacing the one task with that id swaps its share of the count. */
  lemma {:induction false} CountReplace(tasks: seq<Task>, taskId: string, updated: Task, k: nat, id: string)
    requires UniqueTaskIds(tasks) && k < |tasks| && tasks[k].id == taskId
    ensures Count(ReplaceTask(tasks, taskId, updated), id) + (if tasks[k].assignedTo == Some(id) then 1 else 0)
            == Count(tasks, id) + (if updated.assignedTo == Some(id) then 1 else 0)
  {
    var r := ReplaceTask(tasks, taskId, updated);
    assert r[1..] == ReplaceTask(tasks[1..], taskId, updated);
    if k == 0 {
      CountNoSuchTask(tasks[1..], taskId, updated, id);
    } else {
      CountReplace(tasks[1..], taskId, updated, k - 1, id);
    }
  }

  /** With no task of that id, replacing changes nothing. */
  lemma {:induction false} CountNoSuchTask(tasks: seq<Task>, taskId: string, updated: Task, id: string)
    requires forall i :: 0 <= i < |tasks| ==> tasks[i].id != taskId
    ensures ReplaceTask(tasks, taskId, updated) == tasks
    ensures WithoutTask(tasks, taskId) == tasks
  {
    if tasks != [] {
      CountNoSuchTask(tasks[1..], taskId, updated, id);
      assert tasks == [tasks[0]] + tasks[1..];
    }
  }

  /** Removing the one task with that id removes its share of the count. */
  lemma {:induction false} CountWithout(tasks: seq<Task>, taskId: string, k: nat, id: string)
    requires UniqueTaskIds(tasks) && k < |tasks| && tasks[k].id == taskId
    ensures Count(WithoutTask(tasks, taskId), id) + (if tasks[k].assignedTo == Some(id) then 1 else 0) == Count(tasks, id)
  {
    if k == 0 {
      CountNoSuchTask(tasks[1..], taskId, tasks[0], id);
    } else {
      assert WithoutTask(tasks, taskId) == [tasks[0]] + WithoutTask(tasks[1..], taskId);
      assert ([tasks[0]] + WithoutTask(tasks[1..], taskId))[1..] == WithoutTask(tasks[1..], taskId);
      CountWithout(tasks[1..], taskId, k - 1, id);
    }
  }

  /** The position of the task `FindTask` returns. */
  lemma {:induction false} FindTaskAt(tasks: seq<Task>, taskId: string) returns (k: nat)
    requires FindTask(tasks, taskId).Some?
    ensures k < |tasks| && tasks[k] == FindTask(tasks, taskId).value
  {
    if tasks[0].id == taskId {
      k := 0;
    } else {
      var j := FindTaskAt(tasks[1..], taskId);
      k := j + 1;
    }
  }

  // ----- counter consistency -----

  /** One member's counter after `AdjustCount`. */
  lemma AdjustAt(teams: seq<Team>, memberId: Option<string>, change: int, t: nat, m: nat)
    requires t < |teams| && m < |teams[t].members|
    ensures |AdjustCount(teams, memberId, change)[t].members| == |teams[t].members|
    ensures AdjustCount(teams, memberId, change)[t].members[m]
            == Adjusted(teams[t].members[m], memberId, change)
  {
  }

  /** `addTask` keeps the counters equal to the task counts. */
  lemma AddTaskConsistent(s: AppState, task: Task)
    requires Consistent(s.teams, s.tasks) && NoUnassignedMember(s.teams)
    ensures Consistent(AddTask(s, task).teams, AddTask(s, task).tasks)
  {
    var r := AddTask(s, task);
    forall t, m | 0 <= t < |r.teams| && 0 <= m < |r.teams[t].members|
      ensures r.teams[t].members[m].currentTasks == Count(r.tasks, r.teams[t].members[m].id)
    {
      var id := s.teams[t].members[m].id;
      CountAppend(s.tasks, [task], id);
      if task.assignedTo != Some(UnassignedId) {
        AdjustAt(s.teams, task.assignedTo, 1, t, m);
      }
    }
  }

  /** One member after `Reassigned`: both updates apply to it in turn (the
      skipped `'unassigned'` updates would not have matched it anyway). */
  lemma ReassignedAt(teams: seq<Team>, before: Option<string>, after: Option<string>, t: nat, m: nat)
    requires t < |teams| && m < |teams[t].members| && teams[t].members[m].id != UnassignedId
    ensures SameShape(Reassigned(teams, before, after), teams)
    ensures Reassigned(teams, before, after)[t].members[m] ==
              if before == after then teams[t].members[m]
              else Adjusted(Adjusted(teams[t].members[m], before, -1), after, 1)
  {
    var mem := teams[t].members[m];
    if before != after {
      var released := if before != Some(UnassignedId) then AdjustCount(teams, before, -1) else teams;
      if before != Some(UnassignedId) {
        AdjustAt(teams, before, -1, t, m);
      }
      var mid := released[t].members[m];
      assert mid == Adjusted(mem, before, -1);
      if after != Some(UnassignedId) {
        AdjustAt(released, after, 1, t, m);
      } else {
        assert Adjusted(mid, after, 1) == mid;
      }
    }
  }

  /** One member's counter after `Reassigned`: one less if it was the old
      assignee (never below zero), one more if it is the new one. */
  lemma ReassignedCounter(mem: Member, before: Option<string>, after: Option<string>)
    ensures var r := if before == after then mem else Adjusted(Adjusted(mem, before, -1), after, 1);
            && r.id == mem.id
            && r.currentTasks ==
                 if before == after then mem.currentTasks
                 else if before == Some(mem.id) then Max(0, mem.currentTasks - 1)
                 else if after == Some(mem.id) then Max(0, mem.currentTasks + 1)
                 else mem.currentTasks
  {
  }

  /** Moving one task's assignment from `before` to `after` moves one unit
      of count, when `before` held the task. */
  lemma ReassignedConsistent(teams: seq<Team>, tasks: seq<Task>, tasks': seq<Task>, before: Option<string>, after: Option<string>)
    requires Consistent(teams, tasks) && NoUnassignedMember(teams)
    requires before.Some? ==> Count(tasks, before.value) >= 1
    requires forall t, m :: 0 <= t < |teams| && 0 <= m < |teams[t].members| ==>
               var id := teams[t].members[m].id;
               Count(tasks', id) + (if before == Some(id) then 1 else 0) == Count(tasks, id) + (if after == Some(id) then 1 else 0)
    ensures Consistent(Reassigned(teams, before, after), tasks')
  {
    var r := Reassigned(teams, before, after);
    forall t, m | 0 <= t < |r| && 0 <= m < |r[t].members|
      ensures r[t].members[m].currentTasks == Count(tasks', r[t].members[m].id)
    {
      ReassignedAt(teams, before, after, t, m);
      ReassignedCounter(teams[t].members[m], before, after);
    }
  }

  /** `updateTask`, with the counter updates applied in sequence, keeps the
      counters equal to the task counts. */
  lemma UpdateTaskConsistent(s: AppState, taskId: string, updated: Task)
    requires Consistent(s.teams, s.tasks) && UniqueTaskIds(s.tasks) && NoUnassignedMember(s.teams)
    ensures Consistent(UpdateTask(s, taskId, updated).teams, UpdateTask(s, taskId, updated).tasks)
  {
    var r := UpdateTask(s, taskId, updated);
    match FindTask(s.tasks, taskId)
    case None =>
      CountNoSuchTask(s.tasks, taskId, updated, "");
    case Some(prev) =>
      var k := FindTaskAt(s.tasks, taskId);
      forall t, m | 0 <= t < |s.teams| && 0 <= m < |s.teams[t].members|
        ensures var id := s.teams[t].members[m].id;
                Count(r.tasks, id) + (if prev.assignedTo == Some(id) then 1 else 0)
                == Count(s.tasks, id) + (if updated.assignedTo == Some(id) then 1 else 0)
      {
        CountReplace(s.tasks, taskId, updated, k, s.teams[t].members[m].id);
      }
      if prev.assignedTo.Some? {
        CountPositive(s.tasks, k, prev.assignedTo.value);
      }
      ReassignedConsistent(s.teams, s.tasks, r.tasks, prev.assignedTo, updated.assignedTo);
  }

  /** `deleteTask` keeps the counters equal to the task counts. */
  lemma DeleteTaskConsistent(s: AppState, taskId: string)
    requires Consistent(s.teams, s.tasks) && UniqueTaskIds(s.tasks) && NoUnassignedMember(s.teams)
    ensures Consistent(DeleteTask(s, taskId).teams, DeleteTask(s, taskId).tasks)
  {
    var r := DeleteTask(s, taskId);
    match FindTask(s.tasks, taskId)
    case None =>
      CountNoSuchTask(s.tasks, taskId, Task("", "", "", "", None, Low, Pending, 0), "");
    case Some(task) =>
      var k := FindTaskAt(s.tasks, taskId);
      forall t, m | 0 <= t < |r.teams| && 0 <= m < |r.teams[t].members|
        ensures r.teams[t].members[m].currentTasks == Count(r.tasks, r.teams[t].members[m].id)
      {
        var id := s.teams[t].members[m].id;
        CountWithout(s.tasks, taskId, k, id);
        if task.assignedTo != Some(UnassignedId) {
          AdjustAt(s.teams, task.assignedTo, -1, t, m);
          if task.assignedTo == Some(id) {
            CountPositive(s.tasks, k, id);
          }
        }
      }
  }

  /** A two-member team whose counters agree with its one task, which moves
      from `m1` to `m2`. */
  function Example(): AppState {
    AppState(
      None, [],
      [Team("team-1", "Team", [Member("m1", "Ann", "Dev", 3, 1), Member("m2", "Bo", "Dev", 3, 0)])],
      [],
      [Task("task-1", "Fix", "", "project-1", Some("m1"), Low, Pending, 0)],
      [])
  }

  function ExampleUpdate(): Task {
    Task("task-1", "Fix", "", "project-1", Some("m2"), Low, Pending, 0)
  }

  /** As written, moving the task leaves `m1` counting a task it no longer
      has: the counters stop agreeing with the tasks. */
  lemma UpdateTaskAsWrittenDrifts()
    ensures Consistent(Example().teams, Example().tasks)
    ensures NoUnassignedMember(Example().teams) && UniqueTaskIds(Example().tasks)
    ensures var r := UpdateTaskAsWritten(Example(), "task-1", ExampleUpdate());
            r.teams[0].members[0].currentTasks == 1 && Count(r.tasks, "m1") == 0
            && !Consistent(r.teams, r.tasks)
  {
    var s := Example();
    var tasks := s.tasks;
    assert Count(tasks, "m1") == 1 by {
      assert tasks[1..] == [];
    }
    assert Count(tasks, "m2") == 0 by {
      assert tasks[1..] == [];
    }
    var r := UpdateTaskAsWritten(s, "task-1", ExampleUpdate());
    assert FindTask(tasks, "task-1") == Some(tasks[0]);
    assert r.tasks == [ExampleUpdate()] by {
      assert ReplaceTask(tasks, "task-1", ExampleUpdate())[0] == ExampleUpdate();
    }
    assert Count(r.tasks, "m1") == 0 by {
      assert r.tasks[1..] == [];
    }
    AdjustAt(s.teams, Some("m2"), 1, 0, 0);
    assert r.teams[0].members[0] == s.teams[0].members[0];
  }

  // ----- deleteProject -----

  /** The tasks of one project, in list order. */
  function ProjectTasks(tasks: seq<Task>, projectId: string): (r: seq<Task>)
    ensures forall i :: 0 <= i < |r| ==> r[i].projectId == projectId && r[i] in tasks
  {
    if tasks == [] then []
    else if tasks[0].projectId == projectId then [tasks[0]] + ProjectTasks(tasks[1..], projectId)
    else ProjectTasks(tasks[1..], projectId)
  }

  /** The count of a member splits between the tasks kept and those removed. */
  lemma {:induction false} CountSplit(tasks: seq<Task>, projectId: string, id: string)
    ensures Count(WithoutProjectTasks(tasks, projectId), id) + Count(ProjectTasks(tasks, projectId), id) == Count(tasks, id)
  {
    if tasks != [] {
      CountSplit(tasks[1..], projectId, id);
      if tasks[0].projectId == projectId {
        assert ([tasks[0]] + ProjectTasks(tasks[1..], projectId))[1..] == ProjectTasks(tasks[1..], projectId);
      } else {
        assert ([tasks[0]] + WithoutProjectTasks(tasks[1..], projectId))[1..] == WithoutProjectTasks(tasks[1..], projectId);
      }
    }
  }

  /** One `updateMemberTaskCount(assignedTo, -1)` per removed task, in turn. */
  function Release(teams: seq<Team>, removed: seq<Task>): (r: seq<Team>)
    ensures SameShape(r, teams) && SameIds(r, teams)
    decreases |removed|
  {
    if removed == [] then teams
    else
      var next := if removed[0].assignedTo != Some(UnassignedId) then AdjustCount(teams, removed[0].assignedTo, -1) else teams;
      Release(next, removed[1..])
  }

  /** When every counter covers the removed tasks of its member, releasing
      them lowers each counter by exactly that many. */
  lemma {:induction false} ReleaseAt(teams: seq<Team>, removed: seq<Task>, t: nat, m: nat)
    requires NoUnassignedMember(teams)
    requires forall t', m' :: 0 <= t' < |teams| && 0 <= m' < |teams[t'].members| ==>
               teams[t'].members[m'].currentTasks >= Count(removed, teams[t'].members[m'].id)
    requires t < |teams| && m < |teams[t].members|
    ensures var r := Release(teams, removed);
            r[t].members[m].currentTasks == teams[t].members[m].currentTasks - Count(removed, teams[t].members[m].id)
    decreases |removed|
  {
    if removed != [] {
      var x := removed[0];
      var next := if x.assignedTo != Some(UnassignedId) then AdjustCount(teams, x.assignedTo, -1) else teams;
      forall t', m' | 0 <= t' < |teams| && 0 <= m' < |teams[t'].members|
        ensures next[t'].members[m'].currentTasks
                == teams[t'].members[m'].currentTasks - (if x.assignedTo == Some(teams[t'].members[m'].id) then 1 else 0)
      {
        if x.assignedTo != Some(UnassignedId) {
          AdjustAt(teams, x.assignedTo, -1, t', m');
        }
      }
      ReleaseAt(next, removed[1..], t, m);
    }
  }

  /** `deleteProject` with the counters of the removed tasks' assignees
      lowered, as `deleteTask` does for a single task. */
  function DeleteProjectReleasing(s: AppState, projectId: string): (r: AppState)
    ensures r.projects == WithoutProject(s.projects, projectId)
    ensures r.tasks == WithoutProjectTasks(s.tasks, projectId)
    ensures r == s.(projects := r.projects, tasks := r.tasks, teams := r.teams)
  {
    s.(projects := WithoutProject(s.projects, projectId),
       tasks := WithoutProjectTasks(s.tasks, projectId),
       teams := Release(s.teams, ProjectTasks(s.tasks, projectId)))
  }

  /** Releasing the removed tasks keeps the counters equal to the task counts. */
  lemma DeleteProjectReleasingConsistent(s: AppState, projectId: string)
    requires Consistent(s.teams, s.tasks) && NoUnassignedMember(s.teams)
    ensures Consistent(DeleteProjectReleasing(s, projectId).teams, DeleteProjectReleasing(s, projectId).tasks)
  {
    var removed := ProjectTasks(s.tasks, projectId);
    var r := DeleteProjectReleasing(s, projectId);
    forall t, m | 0 <= t < |s.teams| && 0 <= m < |s.teams[t].members|
      ensures s.teams[t].members[m].currentTasks >= Count(removed, s.teams[t].members[m].id)
    {
      CountSplit(s.tasks, projectId, s.teams[t].members[m].id);
    }
    forall t, m | 0 <= t < |r.teams| && 0 <= m < |r.teams[t].members|
      ensures r.teams[t].members[m].currentTasks == Count(r.tasks, r.teams[t].members[m].id)
    {
      ReleaseAt(s.teams, removed, t, m);
      CountSplit(s.tasks, projectId, s.teams[t].members[m].id);
    }
  }

  /** As written, deleting a project whose task is assigned leaves that
      member counting a task that no longer exists. */
  lemma DeleteProjectAsWrittenDrifts()
    ensures Consistent(Example().teams, Example().tasks) && NoUnassignedMember(Example().teams)
    ensures var r := DeleteProject(Example(), "project-1");
            r.tasks == [] && r.teams[0].members[0].currentTasks == 1 && !Consistent(r.teams, r.tasks)
  {
    var s := Example();
    assert Count(s.tasks, "m1") == 1 by {
      assert s.tasks[1..] == [];
    }
    assert Count(s.tasks, "m2") == 0 by {
      assert s.tasks[1..] == [];
    }
    var r := DeleteProject(s, "project-1");
    assert r.tasks == [] by {
      assert s.tasks[1..] == [];
    }
  }
}
