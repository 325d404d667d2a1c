/** The server's persistent records as the controllers see them: team members
    with a capacity, and tasks with priority, status and an assignee. */
module Records {
  import opened Common

  /** A team member sub-document; `id` is its generated `_id`. */
  datatype Member = Member(id: string, name: string, role: string, capacity: nat)

  datatype Team = Team(id: string, name: string, members: seq<Member>)

  datatype Project = Project(id: string, name: string, teamId: string)

  /** A task document. `assignee` is `assignedMemberId` (None when absent or
      null); `assigneeName` is `assignedMemberName`, "" when absent. */
  datatype Task = Task(
    id: string,
    title: string,
    description: string,
    projectId: string,
    assignee: Option<string>,
    assigneeName: string,
    priority: Priority,
    status: Status,
    createdAt: nat)

  /** The position of the first member from `j` on with this id; `|team|`
      when there is none. */
  function IndexFrom(team: seq<Member>, id: string, j: nat): (r: nat)
    requires j <= |team|
    ensures j <= r <= |team|
    ensures r < |team| ==> team[r].id == id
    decreases |team| - j
  {
    if j == |team| then |team|
    else if team[j].id == id then j
    else IndexFrom(team, id, j + 1)
  }

  /** The position of the first member with this id. */
  function IndexOf(team: seq<Member>, id: string): (r: nat)
    ensures r <= |team|
    ensures r < |team| ==> team[r].id == id
  {
    IndexFrom(team, id, 0)
  }

  /** Sub-document ids are generated: non-empty and distinct within a team.
      Distinctness is put as "every member is the first with its id". */
  predicate WellFormedTeam(team: seq<Member>) {
    forall i :: 0 <= i < |team| ==> team[i].id != "" && IndexOf(team, team[i].id) == i
  }

  lemma {:induction false} IndexFromBefore(team: seq<Member>, id: string, j: nat, l: nat)
    requires j <= l < |team| && team[l].id == id
    ensures IndexFrom(team, id, j) <= l
    decreases |team| - j
  {
    if team[j].id != id {
      IndexFromBefore(team, id, j + 1, l);
    }
  }

  /** `WellFormedTeam` is exactly: ids non-empty and pairwise distinct. */
  lemma WellFormedTeamIff(team: seq<Member>)
    ensures WellFormedTeam(team) <==>
              (forall i :: 0 <= i < |team| ==> team[i].id != "")
              && (forall i, j :: 0 <= i < j < |team| ==> team[i].id != team[j].id)
  {
    if forall i, j :: 0 <= i < j < |team| ==> team[i].id != team[j].id {
      forall i | 0 <= i < |team| ensures IndexOf(team, team[i].id) == i {
        IndexFromBefore(team, team[i].id, 0, i);
      }
    }
  }

  function MemberIds(team: seq<Member>): set<string> {
    set k | 0 <= k < |team| :: team[k].id
  }

  lemma MemberIdsSnoc(members: seq<Member>, k: nat)
    requires k < |members|
    ensures MemberIds(members[..k + 1]) == MemberIds(members[..k]) + {members[k].id}
  {
    assert members[..k + 1] == members[..k] + [members[k]];
  }

  /** The capacity of the first member with that id, 0 for a stranger. */
  function CapacityOf(team: seq<Member>, id: string): nat {
    var i := IndexOf(team, id);
    if i < |team| then team[i].capacity else 0
  }

  lemma CapacityOfMember(team: seq<Member>, k: nat)
    requires WellFormedTeam(team) && k < |team|
    ensures CapacityOf(team, team[k].id) == team[k].capacity
  {
  }

  /** The ids of the projects of team `teamId`. */
  function TeamProjectIds(projects: seq<Project>, teamId: string): set<string> {
    set p | p in projects && p.teamId == teamId :: p.id
  }

  /** `Project.findById`. */
  function FindProject(projects: seq<Project>, id: string): Option<Project> {
    Find(projects, (p: Project) => p.id == id)
  }

  /** `Team.findById`. */
  function FindTeam(teams: seq<Team>, id: string): Option<Team> {
    Find(teams, (t: Team) => t.id == id)
  }

  /** `Task.findById`. */
  function FindTask(tasks: seq<Task>, id: string): Option<Task> {
    Find(tasks, (t: Task) => t.id == id)
  }
}
