/** The decision logic of the task controller: counting a team's active tasks
    per assignee (`countTasksForTeam`), validation and the capacity warning of
    `createTask`, the field whitelist and membership check of `updateTask`,
    the recommendation of `autoAssign` and the per-account driver
    `reassignTasks`. Database reads are inputs (the stored projects, teams and
    tasks); instead of HTTP responses the operations return outcomes. */
module TaskController {
  import opened Common
  import opened Records
  import opened Selection
  import Reassign

  /** The key unassigned tasks are counted under and stored with. */
  const UnassignedKey := "UNASSIGNED"

  /** `t.assignedMemberId || "UNASSIGNED"`: a missing or empty id counts as unassigned. */
  function CountKey(t: Task): string {
    if t.assignee.Some? && t.assignee.value != "" then t.assignee.value else UnassignedKey
  }

  /** The query for the Pending and In Progress tasks of the given projects, in stored order. */
  function ActiveTasksOf(projectIds: set<string>, tasks: seq<Task>): seq<Task> {
    Filter(tasks, (t: Task) => t.projectId in projectIds && IsActive(t.status))
  }

  /** The counts `countTasksForTeam` builds, as a multiset of keys: the
      multiplicity of a key is its count. */
  function KeyBag(tasks: seq<Task>): (b: multiset<string>)
    ensures |b| == |tasks|
  {
    if tasks == [] then multiset{}
    else KeyBag(tasks[..|tasks| - 1]) + multiset{CountKey(tasks[|tasks| - 1])}
  }

  /** The active-task counts of a team's projects. */
  function TeamCounts(projects: seq<Project>, teamId: string, tasks: seq<Task>): multiset<string> {
    KeyBag(ActiveTasksOf(TeamProjectIds(projects, teamId), tasks))
  }

  /** `countTasksForTeam`: one entry per key that occurs, holding how many
      active tasks of the team's projects carry that key. */
  method CountTasksForTeam(projects: seq<Project>, teamId: string, tasks: seq<Task>) returns (counts: map<string, nat>)
    ensures forall key :: CountOf(counts, key) == TeamCounts(projects, teamId, tasks)[key]
    ensures forall key :: key in counts ==> counts[key] > 0
  {
    counts := CountKeys(ActiveTasksOf(TeamProjectIds(projects, teamId), tasks));
  }

  /** The counting loop: `counts[mid] = (counts[mid] || 0) + 1` per task. */
  method CountKeys(selected: seq<Task>) returns (counts: map<string, nat>)
    ensures forall key :: CountOf(counts, key) == KeyBag(selected)[key]
    ensures forall key :: key in counts ==> counts[key] > 0
  {
    counts := map[];
    for i := 0 to |selected|
      invariant forall key :: CountOf(counts, key) == KeyBag(selected[..i])[key]
      invariant forall key :: key in counts ==> counts[key] > 0
    {
      KeyBagSnoc(selected, i);
      var mid := CountKey(selected[i]);
      counts := counts[mid := CountOf(counts, mid) + 1];
    }
    assert selected[..|selected|] == selected;
  }

  lemma KeyBagSnoc(s: seq<Task>, i: nat)
    requires i < |s|
    ensures KeyBag(s[..i + 1]) == KeyBag(s[..i]) + multiset{CountKey(s[i])}
  {
    assert s[..i + 1][..i] == s[..i];
  }

  /** For a real member id the count is the member's number of active tasks,
      the same quantity the rebalancer calls its load. */
  lemma {:induction false} KeyBagIsLoad(tasks: seq<Task>, id: string)
    requires forall i :: 0 <= i < |tasks| ==> IsActive(tasks[i].status)
    requires id != "" && id != UnassignedKey
    ensures KeyBag(tasks)[id] == Reassign.Load(tasks, id)
  {
    if tasks != [] {
      KeyBagIsLoad(tasks[..|tasks| - 1], id);
    }
  }

  /** The counted tasks are the active tasks of the team's projects, each once. */
  lemma TeamCountsAreActive(projects: seq<Project>, teamId: string, tasks: seq<Task>)
    ensures |TeamCounts(projects, teamId, tasks)| == |ActiveTasksOf(TeamProjectIds(projects, teamId), tasks)|
    ensures forall t :: t in ActiveTasksOf(TeamProjectIds(projects, teamId), tasks) ==>
              IsActive(t.status) && t.projectId in TeamProjectIds(projects, teamId)
  {
  }

  // ----- createTask -----

  /** The body of a create request. An absent or empty string field is "". */
  datatype CreateRequest = CreateRequest(
    title: string,
    description: string,
    projectId: string,
    assignee: string,
    priority: Option<Priority>,
    status: Option<Status>)

  datatype CreateOutcome =
    | Rejected(reason: string)
    | Accepted(task: Task)
    | Warning(task: Task, message: string)

  /** The request names a real assignee (neither absent nor "UNASSIGNED"). */
  predicate Assigns(req: CreateRequest) {
    req.assignee != "" && req.assignee != UnassignedKey
  }

  /** The document `Task.create` stores for the request. */
  function NewTask(req: CreateRequest, id: string, createdAt: nat, assigneeName: string): Task {
    Task(id, req.title, req.description, req.projectId,
         Some(if req.assignee == "" then UnassignedKey else req.assignee), assigneeName,
         if req.priority.Some? then req.priority.value else Medium,
         if req.status.Some? then req.status.value else Pending,
         createdAt)
  }

  /** The team of the request's project, when both exist. */
  function TeamOfProject(projectId: string, projects: seq<Project>, teams: seq<Team>): Option<Team> {
    match FindProject(projects, projectId)
    case None => None
    case Some(project) => FindTeam(teams, project.teamId)
  }

  /** `createTask`. `id` and `createdAt` are the generated id and timestamp. */
  function CreateTask(req: CreateRequest, projects: seq<Project>, teams: seq<Team>, tasks: seq<Task>,
                      id: string, createdAt: nat): (r: CreateOutcome)
    ensures r.Rejected? <==>
              req.title == "" || req.projectId == "" || TeamOfProject(req.projectId, projects, teams).None?
              || (Assigns(req) && req.assignee !in MemberIds(TeamOfProject(req.projectId, projects, teams).value.members))
    ensures !r.Rejected? ==> r.task.id == id && r.task.title == req.title && r.task.projectId == req.projectId
    ensures !r.Rejected? ==> r.task.assignee == Some(if Assigns(req) then req.assignee else UnassignedKey)
    ensures !r.Rejected? && !Assigns(req) ==> r.Accepted? && r.task.assigneeName == "Unassigned"
  {
    if req.title == "" || req.projectId == "" then Rejected("title and projectId required")
    else match FindProject(projects, req.projectId)
      case None => Rejected("Project not found")
      case Some(project) =>
        match FindTeam(teams, project.teamId)
        case None => Rejected("Team for project not found")
        case Some(team) =>
          if Assigns(req) then
            var i := IndexOf(team.members, req.assignee);
            if i == |team.members| then
              NotMemberOf(team.members, req.assignee);
              Rejected("Assigned member not part of project team")
            else
              var member := team.members[i];
              var count := TeamCounts(projects, team.id, tasks)[req.assignee];
              var task := NewTask(req, id, createdAt, member.name);
              if count >= member.capacity then Warning(task, CapacityWarning(member.name, count, member.capacity))
              else Accepted(task)
          else Accepted(NewTask(req, id, createdAt, "Unassigned"))
  }

  lemma NotMemberOf(team: seq<Member>, id: string)
    requires IndexOf(team, id) == |team|
    ensures id !in MemberIds(team)
  {
    if id in MemberIds(team) {
      var k :| 0 <= k < |team| && team[k].id == id;
      IndexFromBefore(team, id, 0, k);
    }
  }

  /** The creation error messages, in the order the checks are made. */
  lemma CreateTaskErrors(req: CreateRequest, projects: seq<Project>, teams: seq<Team>, tasks: seq<Task>, id: string, createdAt: nat)
    ensures var r := CreateTask(req, projects, teams, tasks, id, createdAt);
            && (req.title == "" || req.projectId == "" ==> r == Rejected("title and projectId required"))
            && (req.title != "" && req.projectId != "" && FindProject(projects, req.projectId).None? ==>
                  r == Rejected("Project not found"))
            && (req.title != "" && req.projectId != "" && FindProject(projects, req.projectId).Some?
                && FindTeam(teams, FindProject(projects, req.projectId).value.teamId).None? ==>
                  r == Rejected("Team for project not found"))
  {
  }

  /** A warning is given exactly when the assignee's active count is at or
      above its capacity; the task is still created for that assignee. */
  lemma {:induction false} CreateTaskWarning(req: CreateRequest, projects: seq<Project>, teams: seq<Team>, tasks: seq<Task>,
                                             id: string, createdAt: nat, team: Team, k: nat)
    requires req.title != "" && req.projectId != "" && TeamOfProject(req.projectId, projects, teams) == Some(team)
    requires WellFormedTeam(team.members) && k < |team.members| && req.assignee == team.members[k].id
    requires req.assignee != UnassignedKey
    ensures var r := CreateTask(req, projects, teams, tasks, id, createdAt);
            var count := TeamCounts(projects, team.id, tasks)[req.assignee];
            && !r.Rejected?
            && (r.Warning? <==> count >= team.members[k].capacity)
            && (r.Warning? ==> r.message == CapacityWarning(team.members[k].name, count, team.members[k].capacity))
            && r.task.assigneeName == team.members[k].name
  {
    assert IndexOf(team.members, req.assignee) == k;
    assert FindTeam(teams, FindProject(projects, req.projectId).value.teamId) == Some(team);
  }

  /** Priority and status default to Medium and Pending. */
  lemma CreateTaskDefaults(req: CreateRequest, projects: seq<Project>, teams: seq<Team>, tasks: seq<Task>, id: string, createdAt: nat)
    requires !CreateTask(req, projects, teams, tasks, id, createdAt).Rejected?
    ensures var t := CreateTask(req, projects, teams, tasks, id, createdAt).task;
            && t.priority == (if req.priority.Some? then req.priority.value else Medium)
            && t.status == (if req.status.Some? then req.status.value else Pending)
            && t.createdAt == createdAt && t.description == req.description
  {
  }

  // ----- updateTask -----

  /** The fields `updateTask` copies from the body, in its order. */
  const Allowed: seq<string> := ["title", "description", "assignedMemberId", "priority", "status"]

  /** The whitelisted part of a request body (values kept as sent). */
  function AllowedPart(body: map<string, string>): (u: map<string, string>)
    ensures u.Keys == body.Keys * set k | k in Allowed
    ensures forall k :: k in u ==> u[k] == body[k]
  {
    map k | k in body && k in Allowed :: body[k]
  }

  /** The copying loop: a field is taken when the body has it. */
  method PickAllowed(body: map<string, string>) returns (updates: map<string, string>)
    ensures updates == AllowedPart(body)
  {
    updates := map[];
    for i := 0 to |Allowed|
      invariant updates == map k | k in body && k in Allowed[..i] :: body[k]
    {
      assert forall k :: k in Allowed[..i + 1] <==> k in Allowed[..i] || k == Allowed[i];
      if Allowed[i] in body {
        updates := updates[Allowed[i] := body[Allowed[i]]];
      }
    }
    assert Allowed[..|Allowed|] == Allowed;
  }

  /** The error responses: 400, 404 and 500 (an exception and its catch). */
  datatype Failure = BadRequest(message: string) | NotFound(message: string) | ServerError(message: string)

  datatype UpdateOutcome = Refused(failure: Failure) | Updated(updates: map<string, string>)

  /** The update is a (re)assignment: `updates.assignedMemberId` is truthy. */
  predicate Reassigning(updates: map<string, string>) {
    "assignedMemberId" in updates && updates["assignedMemberId"] != ""
  }

  /** Everything `updateTask` does after building `updates`. A missing project
      or team makes its property access throw; a missing task without an
      assignment makes `updated.title` throw. Both end in the catch. */
  function UpdateDecision(taskId: string, updates: map<string, string>, projects: seq<Project>, teams: seq<Team>, tasks: seq<Task>): UpdateOutcome {
    if Reassigning(updates) then
      match FindTask(tasks, taskId)
      case None => Refused(NotFound("Task not found"))
      case Some(task) =>
        match FindProject(projects, task.projectId)
        case None => Refused(ServerError("Error updating task"))
        case Some(project) =>
          var mid := updates["assignedMemberId"];
          if mid != UnassignedKey then
            match FindTeam(teams, project.teamId)
            case None => Refused(ServerError("Error updating task"))
            case Some(team) =>
              var i := IndexOf(team.members, mid);
              if i == |team.members| then Refused(BadRequest("Assigned member not part of project team"))
              else Updated(updates["assignedMemberName" := team.members[i].name])
          else Updated(updates["assignedMemberName" := "Unassigned"])
    else if FindTask(tasks, taskId).None? then Refused(ServerError("Error updating task"))
    else Updated(updates)
  }

  /** `updateTask`. */
  method UpdateTask(taskId: string, body: map<string, string>, projects: seq<Project>, teams: seq<Team>, tasks: seq<Task>)
    returns (r: UpdateOutcome)
    ensures r == UpdateDecision(taskId, AllowedPart(body), projects, teams, tasks)
  {
    var updates := PickAllowed(body);
    r := UpdateDecision(taskId, updates, projects, teams, tasks);
  }

  /** An update writes only whitelisted fields as sent, plus the assignee's
      name when it is a (re)assignment. There is no capacity check. */
  lemma UpdateWritesWhitelist(taskId: string, body: map<string, string>, projects: seq<Project>, teams: seq<Team>, tasks: seq<Task>)
    requires UpdateDecision(taskId, AllowedPart(body), projects, teams, tasks).Updated?
    ensures var u := UpdateDecision(taskId, AllowedPart(body), projects, teams, tasks).updates;
            && (forall k :: k in u && k != "assignedMemberName" ==> k in Allowed && k in body && u[k] == body[k])
            && (forall k :: k in Allowed && k in body ==> k in u)
            && ("assignedMemberName" in u <==> Reassigning(AllowedPart(body)))
  {
  }

  /** Assigning to a stranger is refused; to "UNASSIGNED" names it "Unassigned". */
  lemma UpdateAssignment(taskId: string, updates: map<string, string>, projects: seq<Project>, teams: seq<Team>, tasks: seq<Task>,
                         task: Task, team: Team)
    requires Reassigning(updates) && FindTask(tasks, taskId) == Some(task)
    requires TeamOfProject(task.projectId, projects, teams) == Some(team)
    ensures var r := UpdateDecision(taskId, updates, projects, teams, tasks);
            && (updates["assignedMemberId"] == UnassignedKey ==> r == Updated(updates["assignedMemberName" := "Unassigned"]))
            && (updates["assignedMemberId"] != UnassignedKey && updates["assignedMemberId"] !in MemberIds(team.members) ==>
                  r == Refused(BadRequest("Assigned member not part of project team")))
            && (updates["assignedMemberId"] != UnassignedKey && updates["assignedMemberId"] in MemberIds(team.members) ==>
                  r.Updated? && r.updates["assignedMemberName"] == team.members[IndexOf(team.members, updates["assignedMemberId"])].name)
  {
    var mid := updates["assignedMemberId"];
    if mid != UnassignedKey && mid in MemberIds(team.members) {
      var k :| 0 <= k < |team.members| && team.members[k].id == mid;
      IndexFromBefore(team.members, mid, 0, k);
    }
  }

  // ----- autoAssign -----

  /** The entries `autoAssign` sorts: a member with its active count. */
  datatype Candidate = Candidate(id: string, name: string, capacity: nat, current: nat)

  datatype PickOutcome = NotPicked(failure: Failure) | Picked(member: Option<Candidate>)

  function Candidates(members: seq<Member>, counts: multiset<string>): (r: seq<Candidate>)
    ensures |r| == |members|
    ensures forall i :: 0 <= i < |members| ==>
              r[i] == Candidate(members[i].id, members[i].name, members[i].capacity, counts[members[i].id])
  {
    if members == [] then []
    else [Candidate(members[0].id, members[0].name, members[0].capacity, counts[members[0].id])]
         + Candidates(members[1..], counts)
  }

  function Current(c: Candidate): int {
    c.current
  }

  predicate HasRoom(c: Candidate) {
    c.current < c.capacity
  }

  /** `autoAssign`: sort by count, take the first with room, else the first
      overall, else null. A project whose team is missing makes `team._id` throw. */
  function AutoAssign(projectId: string, projects: seq<Project>, teams: seq<Team>, tasks: seq<Task>): PickOutcome {
    if projectId == "" then NotPicked(BadRequest("projectId required"))
    else match FindProject(projects, projectId)
      case None => NotPicked(BadRequest("Project not found"))
      case Some(project) =>
        match FindTeam(teams, project.teamId)
        case None => NotPicked(ServerError("Error auto-assigning"))
        case Some(team) =>
          var sorted := SortByKey(Candidates(team.members, TeamCounts(projects, team.id, tasks)), Current);
          var free := Find(sorted, HasRoom);
          Picked(if free.Some? then free else Head(sorted))
  }

  /** The pick is the lowest-count member with room (the earliest in team
      order on a tie); failing that the lowest-count member; null only for an
      empty team. */
  lemma {:induction false} AutoAssignPicks(projectId: string, projects: seq<Project>, teams: seq<Team>, tasks: seq<Task>, team: Team)
    requires projectId != "" && TeamOfProject(projectId, projects, teams) == Some(team)
    ensures var cs := Candidates(team.members, TeamCounts(projects, team.id, tasks));
            var fallback := FirstMin(cs, _ => true, Current);
            AutoAssign(projectId, projects, teams, tasks) ==
              Picked(if FirstMin(cs, HasRoom, Current).Some? then FirstMin(cs, HasRoom, Current) else fallback)
    ensures AutoAssign(projectId, projects, teams, tasks).member.None? <==> team.members == []
  {
    var cs := Candidates(team.members, TeamCounts(projects, team.id, tasks));
    var sorted := SortByKey(cs, Current);
    FindSorted(cs, HasRoom, Current);
    FindSorted(cs, _ => true, Current);
    if sorted != [] {
      assert Find(sorted, _ => true) == Some(sorted[0]);
    } else {
      assert |multiset(cs)| == 0;
    }
    assert FindTeam(teams, FindProject(projects, projectId).value.teamId) == Some(team);
  }

  // ----- reassignTasks -----

  /** One entry of `results`: a team and the moves made in it. */
  datatype TeamResult = TeamResult(teamId: string, moved: seq<Reassign.Move>)

  predicate TeamsWellFormed(teams: seq<Team>) {
    forall i :: 0 <= i < |teams| ==> WellFormedTeam(teams[i].members)
  }

  /** The entry a team contributes to `results`: one when its pass moved something. */
  function Entry(team: Team, tasks: seq<Task>): (r: seq<TeamResult>)
    requires WellFormedTeam(team.members)
    ensures |r| <= 1
    ensures r != [] <==> Reassign.Rebalance(team.members, tasks).moved != []
    ensures r != [] ==> r[0] == TeamResult(team.id, Reassign.Rebalance(team.members, tasks).moved)
  {
    var moved := Reassign.Rebalance(team.members, tasks).moved;
    if moved == [] then [] else [TeamResult(team.id, moved)]
  }

  /** The results for the first `k` teams, in team order. */
  function ResultsUpTo(teams: seq<Team>, teamTasks: seq<seq<Task>>, k: nat): (r: seq<TeamResult>)
    requires k <= |teams| == |teamTasks| && TeamsWellFormed(teams)
  {
    if k == 0 then [] else ResultsUpTo(teams, teamTasks, k - 1) + Entry(teams[k - 1], teamTasks[k - 1])
  }

  /** The tasks of the first `k` teams after their passes. */
  function UpdatedUpTo(teams: seq<Team>, teamTasks: seq<seq<Task>>, k: nat): (r: seq<seq<Task>>)
    requires k <= |teams| == |teamTasks| && TeamsWellFormed(teams)
  {
    if k == 0 then [] else UpdatedUpTo(teams, teamTasks, k - 1) + [Reassign.Rebalance(teams[k - 1].members, teamTasks[k - 1]).tasks]
  }

  predicate MovedSomething(e: TeamResult) {
    e.moved != []
  }

  /** Every team's pass, reported or not: its id and its moves, in team order. */
  function AllEntries(teams: seq<Team>, teamTasks: seq<seq<Task>>, k: nat): (r: seq<TeamResult>)
    requires k <= |teams| == |teamTasks| && TeamsWellFormed(teams)
    ensures |r| == k
    ensures forall i :: 0 <= i < k ==> r[i] == TeamResult(teams[i].id, Reassign.Rebalance(teams[i].members, teamTasks[i]).moved)
  {
    if k == 0 then []
    else AllEntries(teams, teamTasks, k - 1) + [TeamResult(teams[k - 1].id, Reassign.Rebalance(teams[k - 1].members, teamTasks[k - 1]).moved)]
  }

  /** `results` holds exactly the teams whose pass moved something, each once
      with its moves, in team order: the other entries are filtered out. */
  lemma {:induction false} ResultsAreMovingTeams(teams: seq<Team>, teamTasks: seq<seq<Task>>, k: nat)
    requires k <= |teams| == |teamTasks| && TeamsWellFormed(teams)
    ensures ResultsUpTo(teams, teamTasks, k) == Filter(AllEntries(teams, teamTasks, k), MovedSomething)
  {
    if k > 0 {
      ResultsAreMovingTeams(teams, teamTasks, k - 1);
      var last := TeamResult(teams[k - 1].id, Reassign.Rebalance(teams[k - 1].members, teamTasks[k - 1]).moved);
      assert AllEntries(teams, teamTasks, k) == AllEntries(teams, teamTasks, k - 1) + [last];
      FilterSnoc(AllEntries(teams, teamTasks, k - 1), last, MovedSomething);
      assert Entry(teams[k - 1], teamTasks[k - 1]) == if MovedSomething(last) then [last] else [];
    }
  }

  /** The activities of the reported moves, team after team. */
  function ResultActivities(userId: string, stamp: string, results: seq<TeamResult>): (r: seq<Reassign.Activity>)
  {
    if results == [] then []
    else ResultActivities(userId, stamp, results[..|results| - 1]) + Reassign.ActivitiesFor(userId, stamp, results[|results| - 1].moved)
  }

  lemma ResultActivitiesSnoc(userId: string, stamp: string, results: seq<TeamResult>, entry: seq<TeamResult>)
    requires |entry| <= 1
    ensures ResultActivities(userId, stamp, results + entry)
         == ResultActivities(userId, stamp, results) + (if entry == [] then [] else Reassign.ActivitiesFor(userId, stamp, entry[0].moved))
  {
    if entry == [] {
      assert results + entry == results;
    } else {
      assert (results + entry)[..|results|] == results;
    }
  }

  /** One team of `reassignTasks`: run the pass and make its entry. */
  method RunTeam(team: Team, tasks: seq<Task>, userId: string, stamp: string)
    returns (entry: seq<TeamResult>, tasks': seq<Task>, activities: seq<Reassign.Activity>)
    requires WellFormedTeam(team.members)
    ensures entry == Entry(team, tasks)
    ensures tasks' == Reassign.Rebalance(team.members, tasks).tasks
    ensures activities == Reassign.ActivitiesFor(userId, stamp, Reassign.Rebalance(team.members, tasks).moved)
  {
    var moved;
    tasks', moved, activities := Reassign.ReassignForTeam(team.members, tasks, userId, stamp);
    entry := if |moved| > 0 then [TeamResult(team.id, moved)] else [];
  }

  /** `reassignTasks`: run the pass for every team of the account and keep
      the teams where something moved. `teamTasks[i]` is the active tasks of
      team `i`'s projects, oldest first; the teams' projects are disjoint, so
      the passes do not see each other's writes. */
  method ReassignTasks(teams: seq<Team>, teamTasks: seq<seq<Task>>, userId: string, stamp: string)
    returns (results: seq<TeamResult>, updated: seq<seq<Task>>, activities: seq<Reassign.Activity>)
    requires |teams| == |teamTasks| && TeamsWellFormed(teams)
    ensures results == ResultsUpTo(teams, teamTasks, |teams|)
    ensures updated == UpdatedUpTo(teams, teamTasks, |teams|)
    ensures activities == ResultActivities(userId, stamp, results)
  {
    results, updated, activities := [], [], [];
    for k := 0 to |teams|
      invariant results == ResultsUpTo(teams, teamTasks, k)
      invariant updated == UpdatedUpTo(teams, teamTasks, k)
      invariant activities == ResultActivities(userId, stamp, results)
    {
      var entry, tasks', acts := RunTeam(teams[k], teamTasks[k], userId, stamp);
      ResultActivitiesSnoc(userId, stamp, results, entry);
      assert acts == if entry == [] then [] else Reassign.ActivitiesFor(userId, stamp, entry[0].moved);
      results := results + entry;
      updated := updated + [tasks'];
      activities := activities + acts;
    }
  }
}
