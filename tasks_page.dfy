/** The decision logic of the task page: the over-capacity warning shown when
    a member is chosen, the auto-assign button and the list filter. The
    toasts and `setX` calls are returned as values. */
module TasksPage {
  import opened Common
  import opened Selection
  import opened ClientModel

  /** `checkCapacity(memberId)`: the warning text when one is shown, None
      when the warning is hidden. */
  function CheckCapacity(teams: seq<Team>, memberId: string): (r: Option<string>)
    ensures memberId == UnassignedId ==> r.None?
    ensures r.Some? <==> memberId != UnassignedId && MemberById(teams, memberId).Some?
                         && MemberById(teams, memberId).value.currentTasks >= MemberById(teams, memberId).value.capacity
    ensures r.Some? ==> var m := MemberById(teams, memberId).value;
                        r.value == CapacityWarning(m.name, m.currentTasks as nat, m.capacity)
  {
    if memberId == UnassignedId then None
    else
      match MemberById(teams, memberId)
      case Some(m) =>
        if m.currentTasks >= m.capacity then Some(CapacityWarning(m.name, m.currentTasks as nat, m.capacity)) else None
      case None => None
  }

  /** An id that no member has never raises the warning. */
  lemma UnknownMemberNoWarning(teams: seq<Team>, memberId: string)
    requires forall t, m :: 0 <= t < |teams| && 0 <= m < |teams[t].members| ==> teams[t].members[m].id != memberId
    ensures CheckCapacity(teams, memberId).None?
  {
  }

  /** What `handleAutoAssign` ends in. */
  datatype AutoAssignOutcome =
    | SelectProjectFirst
    | NothingToDo
    | Assigned(member: Member)
    | NoAvailableMembers

  predicate HasRoom(m: Member) {
    m.currentTasks < m.capacity
  }

  function ByLoad(m: Member): int {
    m.currentTasks
  }

  /** `team.members.filter(m => m.currentTasks < m.capacity).sort(by currentTasks)[0]`. */
  function LeastLoaded(members: seq<Member>): Option<Member> {
    Head(SortByKey(Filter(members, HasRoom), ByLoad))
  }

  /** `handleAutoAssign` for the project selected in the form (`""` for none). */
  function HandleAutoAssign(projects: seq<Project>, teams: seq<Team>, selectedProjectId: string): AutoAssignOutcome {
    if selectedProjectId == "" then SelectProjectFirst
    else
      match FindProject(projects, selectedProjectId)
      case None => NothingToDo
      case Some(project) =>
        match FindTeam(teams, project.teamId)
        case None => NothingToDo
        case Some(team) =>
          match LeastLoaded(team.members)
          case Some(m) => Assigned(m)
          case None => NoAvailableMembers
  }

  /** The member selected in the form after auto-assign: only a pick changes it. */
  function SelectionAfter(outcome: AutoAssignOutcome, selectedMemberId: string): (r: string)
    ensures outcome.Assigned? ==> r == outcome.member.id
    ensures !outcome.Assigned? ==> r == selectedMemberId
  {
    if outcome.Assigned? then outcome.member.id else selectedMemberId
  }

  /** Among the members below capacity, the pick is the first in team order
      of those with the fewest tasks; when every member is at or over
      capacity nothing is picked (there is no fallback). */
  lemma LeastLoadedPicks(members: seq<Member>)
    ensures LeastLoaded(members).None? <==> forall i :: 0 <= i < |members| ==> !HasRoom(members[i])
    ensures LeastLoaded(members).Some? ==>
              exists k :: 0 <= k < |members| && LeastLoaded(members).value == members[k] && HasRoom(members[k])
                && (forall j :: 0 <= j < |members| && HasRoom(members[j]) ==> members[k].currentTasks <= members[j].currentTasks)
                && (forall j :: 0 <= j < k && HasRoom(members[j]) ==> members[k].currentTasks < members[j].currentTasks)
  {
    LeastLoadedIsFirstMin(members);
    var k := FirstMinIndex(members, HasRoom, ByLoad);
    if k.Some? {
      assert LeastLoaded(members).value == members[k.value];
    }
  }

  lemma LeastLoadedIsFirstMin(members: seq<Member>)
    ensures LeastLoaded(members) == FirstMin(members, HasRoom, ByLoad)
  {
    FilterSortHead(members, HasRoom, ByLoad);
  }

  /** Without a selected project auto-assign asks for one; with an unknown
      project or team it does nothing; otherwise it ends in the team's
      least-loaded member, or in "no available members". Only a pick changes
      the selection. */
  lemma AutoAssignRoutes(projects: seq<Project>, teams: seq<Team>, selectedProjectId: string, selectedMemberId: string)
    ensures var r := HandleAutoAssign(projects, teams, selectedProjectId);
            && (selectedProjectId == "" <==> r == SelectProjectFirst)
            && (!r.Assigned? ==> SelectionAfter(r, selectedMemberId) == selectedMemberId)
            && (r.Assigned? ==> SelectionAfter(r, selectedMemberId) == r.member.id)
    ensures selectedProjectId != "" ==>
              var r := HandleAutoAssign(projects, teams, selectedProjectId);
              var project := FindProject(projects, selectedProjectId);
              var team := if project.Some? then FindTeam(teams, project.value.teamId) else None;
              && (team.None? <==> r == NothingToDo)
              && (team.Some? && LeastLoaded(team.value.members).Some? ==> r == Assigned(LeastLoaded(team.value.members).value))
              && (team.Some? && LeastLoaded(team.value.members).None? ==> r == NoAvailableMembers)
  {
  }

  /** `filteredTasks`' test: the project filter is `'all'` or the task's
      project, and the member filter is `'all'` or the task's assignee. */
  predicate Shown(filterProject: string, filterMember: string, task: Task) {
    && (filterProject == "all" || task.projectId == filterProject)
    && (filterMember == "all" || task.assignedTo == Some(filterMember))
  }

  function FilteredTasks(tasks: seq<Task>, filterProject: string, filterMember: string): seq<Task> {
    Filter(tasks, (task: Task) => Shown(filterProject, filterMember, task))
  }

  /** A task is listed iff it passes both filters; with both at `'all'`
      the whole list is shown. */
  lemma {:induction false} FilteredTasksExactly(tasks: seq<Task>, filterProject: string, filterMember: string)
    ensures forall i :: 0 <= i < |FilteredTasks(tasks, filterProject, filterMember)| ==>
              Shown(filterProject, filterMember, FilteredTasks(tasks, filterProject, filterMember)[i])
    ensures forall i :: 0 <= i < |tasks| && Shown(filterProject, filterMember, tasks[i]) ==>
              tasks[i] in FilteredTasks(tasks, filterProject, filterMember)
    ensures filterProject == "all" && filterMember == "all" ==> FilteredTasks(tasks, filterProject, filterMember) == tasks
  {
    if filterProject == "all" && filterMember == "all" {
      FilterAll(tasks, (task: Task) => Shown(filterProject, filterMember, task));
    }
  }
}
