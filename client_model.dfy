/** The client's records (`src/types`) and the pure helpers of its state
    store: member counters (`updateMemberTaskCount`), lookups (`login`,
    `register`, `getMemberById`) and the task-list edits. The store keeps a
    `currentTasks` counter per team member instead of counting tasks; the
    predicate `Consistent` says the counters agree with the task list. */
module ClientModel {
  import opened Common

  /** The `assignedTo` value meaning "nobody". */
  const UnassignedId := "unassigned"

  datatype User = User(id: string, name: string, email: string, password: string)

  datatype Member = Member(id: string, name: string, role: string, capacity: nat, currentTasks: int)

  datatype Team = Team(id: string, name: string, members: seq<Member>)

  datatype Project = Project(id: string, name: string, teamId: string)

  /** `assignedTo` is None for null. */
  datatype Task = Task(
    id: string,
    title: string,
    description: string,
    projectId: string,
    assignedTo: Option<string>,
    priority: Priority,
    status: Status,
    createdAt: nat)

  datatype ActivityLog = ActivityLog(id: string, timestamp: string, action: string, taskTitle: string, fromMember: string, toMember: string)

  /** The state held by the store's provider. */
  datatype AppState = AppState(
    currentUser: Option<User>,
    users: seq<User>,
    teams: seq<Team>,
    projects: seq<Project>,
    tasks: seq<Task>,
    activityLogs: seq<ActivityLog>)

  // ----- counters -----

  /** Same number of teams and of members in each. */
  predicate SameShape(a: seq<Team>, b: seq<Team>) {
    |a| == |b| && forall t :: 0 <= t < |a| ==> |a[t].members| == |b[t].members|
  }

  /** Same member ids at the same positions. */
  predicate SameIds(a: seq<Team>, b: seq<Team>)
    requires SameShape(a, b)
  {
    forall t, m :: 0 <= t < |a| && 0 <= m < |a[t].members| ==> a[t].members[m].id == b[t].members[m].id
  }

  /** A member after `updateMemberTaskCount(memberId, change)`. */
  function Adjusted(m: Member, memberId: Option<string>, change: int): Member {
    if memberId == Some(m.id) then m.(currentTasks := Max(0, m.currentTasks + change)) else m
  }

  function AdjustMembers(members: seq<Member>, memberId: Option<string>, change: int): (r: seq<Member>)
    ensures |r| == |members|
    ensures forall i :: 0 <= i < |members| ==> r[i] == Adjusted(members[i], memberId, change)
  {
    if members == [] then [] else [Adjusted(members[0], memberId, change)] + AdjustMembers(members[1..], memberId, change)
  }

  /** `teams.map(team => ({...team, members: team.members.map(...)}))`. */
  function AdjustCount(teams: seq<Team>, memberId: Option<string>, change: int): (r: seq<Team>)
    ensures |r| == |teams|
    ensures SameShape(r, teams) && SameIds(r, teams)
    ensures forall t :: 0 <= t < |teams| ==>
              r[t] == teams[t].(members := AdjustMembers(teams[t].members, memberId, change))
  {
    if teams == [] then []
    else [teams[0].(members := AdjustMembers(teams[0].members, memberId, change))] + AdjustCount(teams[1..], memberId, change)
  }

  /** Only the members with that id change, to `max(0, currentTasks + change)`;
      teams, member order and every other field stay as they were. */
  lemma AdjustCountChanges(teams: seq<Team>, memberId: Option<string>, change: int, t: nat, m: nat)
    requires t < |teams| && m < |teams[t].members|
    ensures var r := AdjustCount(teams, memberId, change);
            var before := teams[t].members[m];
            && |r[t].members| == |teams[t].members| && r[t].id == teams[t].id && r[t].name == teams[t].name
            && r[t].members[m] == before.(currentTasks := r[t].members[m].currentTasks)
            && r[t].members[m].currentTasks ==
                 (if memberId == Some(before.id) then Max(0, before.currentTasks + change) else before.currentTasks)
  {
  }

  /** All counters non-negative. */
  predicate CountersNonNegative(teams: seq<Team>) {
    forall t, m :: 0 <= t < |teams| && 0 <= m < |teams[t].members| ==> teams[t].members[m].currentTasks >= 0
  }

  /** Adding one and then removing one restores the counters, which never go negative. */
  lemma {:induction false} AdjustRoundTrip(teams: seq<Team>, memberId: Option<string>)
    requires CountersNonNegative(teams)
    ensures CountersNonNegative(AdjustCount(teams, memberId, 1))
    ensures AdjustCount(AdjustCount(teams, memberId, 1), memberId, -1) == teams
  {
    var up := AdjustCount(teams, memberId, 1);
    var back := AdjustCount(up, memberId, -1);
    forall t | 0 <= t < |teams| ensures back[t] == teams[t] {
      MembersRoundTrip(teams[t].members, memberId);
    }
  }

  lemma MembersRoundTrip(members: seq<Member>, memberId: Option<string>)
    requires forall m :: 0 <= m < |members| ==> members[m].currentTasks >= 0
    ensures AdjustMembers(AdjustMembers(members, memberId, 1), memberId, -1) == members
  {
    var back := AdjustMembers(AdjustMembers(members, memberId, 1), memberId, -1);
    assert |back| == |members|;
    forall m | 0 <= m < |members| ensures back[m] == members[m] {
      assert AdjustMembers(members, memberId, 1)[m] == Adjusted(members[m], memberId, 1);
    }
  }

  /** The number of tasks assigned to member `id`, of any status. */
  function Count(tasks: seq<Task>, id: string): nat {
    if tasks == [] then 0
    else (if tasks[0].assignedTo == Some(id) then 1 else 0) + Count(tasks[1..], id)
  }

  /** Every member's counter is the number of tasks assigned to it. */
  predicate Consistent(teams: seq<Team>, tasks: seq<Task>) {
    forall t, m :: 0 <= t < |teams| && 0 <= m < |teams[t].members| ==>
      teams[t].members[m].currentTasks == Count(tasks, teams[t].members[m].id)
  }

  /** Task ids are generated, so distinct. */
  predicate UniqueTaskIds(tasks: seq<Task>) {
    forall i, j :: 0 <= i < j < |tasks| ==> tasks[i].id != tasks[j].id
  }

  /** No member uses the id that means "nobody". */
  predicate NoUnassignedMember(teams: seq<Team>) {
    forall t, m :: 0 <= t < |teams| && 0 <= m < |teams[t].members| ==> teams[t].members[m].id != UnassignedId
  }

  // ----- lookups -----

  /** `users.find(u => u.email === email && u.password === password)`. */
  function FindUser(users: seq<User>, email: string, password: string): Option<User> {
    Find(users, (u: User) => u.email == email && u.password == password)
  }

  /** `users.some(u => u.email === email)`. */
  predicate EmailTaken(users: seq<User>, email: string) {
    exists i :: 0 <= i < |users| && users[i].email == email
  }

  /** `team.members.find(m => m.id === memberId)`. */
  function FindMember(members: seq<Member>, memberId: string): Option<Member> {
    Find(members, (m: Member) => m.id == memberId)
  }

  /** `teams[t].members[m]` is the member `getMemberById` stops at: it has the
      id, no earlier team has a member with it, and no earlier member of
      `teams[t]` has it. */
  predicate FirstMemberAt(teams: seq<Team>, memberId: string, t: int, m: int) {
    && 0 <= t < |teams| && 0 <= m < |teams[t].members| && teams[t].members[m].id == memberId
    && (forall t', m' :: 0 <= t' < t && 0 <= m' < |teams[t'].members| ==> teams[t'].members[m'].id != memberId)
    && (forall m' :: 0 <= m' < m ==> teams[t].members[m'].id != memberId)
  }

  /** `getMemberById`: the loop over the teams returns the `find` of the first
      team that has a member with that id. */
  function MemberById(teams: seq<Team>, memberId: string): (r: Option<Member>)
    ensures r.None? <==> forall t, m :: 0 <= t < |teams| && 0 <= m < |teams[t].members| ==> teams[t].members[m].id != memberId
    ensures r.Some? ==> exists t, m :: FirstMemberAt(teams, memberId, t, m) && r.value == teams[t].members[m]
  {
    var t := FirstIndex(teams, (team: Team) => FindMember(team.members, memberId).Some?);
    if t < |teams| then FindMember(teams[t].members, memberId) else None
  }

  /** `projects.find(p => p.id === projectId)`. */
  function FindProject(projects: seq<Project>, projectId: string): Option<Project> {
    Find(projects, (p: Project) => p.id == projectId)
  }

  /** `teams.find(t => t.id === teamId)`. */
  function FindTeam(teams: seq<Team>, teamId: string): Option<Team> {
    Find(teams, (t: Team) => t.id == teamId)
  }

  /** `tasks.find(t => t.id === taskId)`. */
  function FindTask(tasks: seq<Task>, taskId: string): Option<Task> {
    Find(tasks, (t: Task) => t.id == taskId)
  }

  // ----- task-list edits -----

  /** `tasks.filter(t => t.id !== taskId)`. */
  function WithoutTask(tasks: seq<Task>, taskId: string): seq<Task> {
    Filter(tasks, (t: Task) => t.id != taskId)
  }

  /** `tasks.filter(t => t.projectId !== projectId)`. */
  function WithoutProjectTasks(tasks: seq<Task>, projectId: string): seq<Task> {
    Filter(tasks, (t: Task) => t.projectId != projectId)
  }

  /** `projects.filter(p => p.id !== projectId)`. */
  function WithoutProject(projects: seq<Project>, projectId: string): seq<Project> {
    Filter(projects, (p: Project) => p.id != projectId)
  }

  /** `tasks.map(t => t.id === taskId ? updatedTask : t)`. */
  function ReplaceTask(tasks: seq<Task>, taskId: string, updated: Task): (r: seq<Task>)
    ensures |r| == |tasks|
    ensures forall i :: 0 <= i < |tasks| ==> r[i] == if tasks[i].id == taskId then updated else tasks[i]
  {
    if tasks == [] then []
    else [if tasks[0].id == taskId then updated else tasks[0]] + ReplaceTask(tasks[1..], taskId, updated)
  }
}
