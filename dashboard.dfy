/** The load summary of `getDashboard`: for every team of the account, one
    row per member with the number of the team's tasks assigned to it and
    whether that exceeds its capacity. */
module Dashboard {
  import opened Common
  import opened Records
  import opened Selection
  import Reassign

  datatype MemberRow = MemberRow(memberId: string, name: string, current: nat, capacity: nat, overloaded: bool)

  datatype TeamSummary = TeamSummary(teamId: string, name: string, members: seq<MemberRow>)

  /** `Task.find({projectId: {$in: teamProjects}})`: every status, stored order. */
  function TasksOfProjects(projectIds: set<string>, tasks: seq<Task>): seq<Task> {
    Filter(tasks, InProjects(projectIds))
  }

  /** The test "belongs to one of these projects". */
  function InProjects(projectIds: set<string>): Task -> bool {
    (t: Task) => t.projectId in projectIds
  }

  /** The number of tasks, of any status, assigned to member `id`. */
  function Assigned(tasks: seq<Task>, id: string): nat {
    if tasks == [] then 0
    else Assigned(tasks[..|tasks| - 1], id) + (if tasks[|tasks| - 1].assignee == Some(id) then 1 else 0)
  }

  /** The `team.members.map(...)` expression. */
  function Rows(members: seq<Member>, counts: map<string, nat>): (r: seq<MemberRow>)
    ensures |r| == |members|
    ensures forall i :: 0 <= i < |members| ==>
              r[i] == MemberRow(members[i].id, members[i].name, CountOf(counts, members[i].id), members[i].capacity,
                                CountOf(counts, members[i].id) > members[i].capacity)
  {
    if members == [] then []
    else
      var m := members[0];
      [MemberRow(m.id, m.name, CountOf(counts, m.id), m.capacity, CountOf(counts, m.id) > m.capacity)] + Rows(members[1..], counts)
  }

  /** The summary of one team: one row per member, in team order, counting
      the tasks of the team's projects, and `overloaded` iff the count exceeds
      the capacity. */
  function Summary(team: Team, projects: seq<Project>, tasks: seq<Task>): (s: TeamSummary)
    ensures s.teamId == team.id && s.name == team.name && |s.members| == |team.members|
    ensures forall i :: 0 <= i < |team.members| ==>
              var m := team.members[i];
              var n := Assigned(TasksOfProjects(TeamProjectIds(projects, team.id), tasks), m.id);
              s.members[i] == MemberRow(m.id, m.name, n, m.capacity, n > m.capacity)
  {
    var teamTasks := TasksOfProjects(TeamProjectIds(projects, team.id), tasks);
    var counts := map id | id in MemberIds(team.members) :: Assigned(teamTasks, id);
    TeamSummary(team.id, team.name, Rows(team.members, counts))
  }

  lemma AssignedSnoc(tasks: seq<Task>, i: nat, id: string)
    requires i < |tasks|
    ensures Assigned(tasks[..i + 1], id) == Assigned(tasks[..i], id) + (if tasks[i].assignee == Some(id) then 1 else 0)
  {
    assert tasks[..i + 1][..i] == tasks[..i];
  }

  /** The counting loops: a zero per member, then `+= 1` for every task
      whose assignee has an entry. */
  method CountAssigned(members: seq<Member>, teamTasks: seq<Task>) returns (counts: map<string, nat>)
    ensures counts == map id | id in MemberIds(members) :: Assigned(teamTasks, id)
  {
    counts := map[];
    for k := 0 to |members|
      invariant counts.Keys == MemberIds(members[..k])
      invariant forall id :: id in counts ==> counts[id] == 0
    {
      MemberIdsSnoc(members, k);
      counts := counts[members[k].id := 0];
    }
    assert members[..|members|] == members;
    for i := 0 to |teamTasks|
      invariant counts.Keys == MemberIds(members)
      invariant forall id :: id in counts ==> counts[id] == Assigned(teamTasks[..i], id)
    {
      forall id | id in counts
        ensures Assigned(teamTasks[..i + 1], id) == Assigned(teamTasks[..i], id) + (if teamTasks[i].assignee == Some(id) then 1 else 0)
      {
        AssignedSnoc(teamTasks, i, id);
      }
      var t := teamTasks[i];
      if t.assignee.Some? && t.assignee.value in counts {
        counts := counts[t.assignee.value := counts[t.assignee.value] + 1];
      }
    }
    assert teamTasks[..|teamTasks|] == teamTasks;
  }

  /** The loop over the account's teams, pushing one summary per team. */
  method TeamSummaries(teams: seq<Team>, projects: seq<Project>, tasks: seq<Task>) returns (summaries: seq<TeamSummary>)
    ensures |summaries| == |teams|
    ensures forall i :: 0 <= i < |teams| ==> summaries[i] == Summary(teams[i], projects, tasks)
  {
    summaries := [];
    for k := 0 to |teams|
      invariant |summaries| == k
      invariant forall i :: 0 <= i < k ==> summaries[i] == Summary(teams[i], projects, tasks)
    {
      var team := teams[k];
      var teamTasks := TasksOfProjects(TeamProjectIds(projects, team.id), tasks);
      var counts := CountAssigned(team.members, teamTasks);
      summaries := summaries + [TeamSummary(team.id, team.name, Rows(team.members, counts))];
    }
  }

  /** The dashboard counts Done tasks too: its count is at least the number
      of active tasks the rebalancer works with, and equal when none is Done. */
  lemma {:induction false} AssignedCoversLoad(tasks: seq<Task>, id: string)
    ensures Assigned(tasks, id) >= Reassign.Load(tasks, id)
    ensures (forall i :: 0 <= i < |tasks| ==> IsActive(tasks[i].status)) ==> Assigned(tasks, id) == Reassign.Load(tasks, id)
  {
    if tasks != [] {
      AssignedCoversLoad(tasks[..|tasks| - 1], id);
    }
  }

  /** Tasks of other teams' projects never change a team's summary. */
  lemma {:induction false} OtherProjectsIgnored(team: Team, projects: seq<Project>, tasks: seq<Task>, t: Task)
    requires t.projectId !in TeamProjectIds(projects, team.id)
    ensures Summary(team, projects, tasks + [t]) == Summary(team, projects, tasks)
  {
    var ids := TeamProjectIds(projects, team.id);
    FilterSnoc(tasks, t, InProjects(ids));
    assert TasksOfProjects(ids, tasks + [t]) == TasksOfProjects(ids, tasks);
  }
}
