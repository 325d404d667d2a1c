/** The client's `reassignTasks`: a rebalancer over the store's own
    `currentTasks` counters. Per team, in team order, every member whose
    counter exceeds its capacity (decided once, at the start of the team)
    gives away up to `currentTasks - capacity` of its Low and Medium tasks,
    in the order the engine's `sort` leaves them, each to the first other
    member of the team whose counter is below its capacity at that moment;
    every move is logged. The state is
    written back once at the end; the log becomes this pass's entries in
    move order followed by the old entries, cut to the first ten (so a pass
    of more than ten moves keeps its ten earliest moves).

    The three nested loops are proved against the tail-recursive functions
    `TeamLoop`, `MemberLoop` and `TaskLoop`; `Rebalanced` is the whole pass. */
module ClientReassign {
  import opened Common
  import opened ClientModel

  /** The most log entries kept. */
  const LogLimit: nat := 10

  /** The working copies: `updatedTasks`, `teamsCopy` and `newLogs`. */
  datatype Pass = Pass(tasks: seq<Task>, teams: seq<Team>, logs: seq<ActivityLog>)

  predicate Over(m: Member) {
    m.currentTasks > m.capacity
  }

  /** The positions, from `k` on, of the members over capacity, in team order. */
  function OverloadedFrom(members: seq<Member>, k: nat): (r: seq<nat>)
    requires k <= |members|
    ensures forall j :: 0 <= j < |r| ==> k <= r[j] < |members| && Over(members[r[j]])
    ensures forall i :: k <= i < |members| && Over(members[i]) ==> i in r
    ensures forall i, j :: 0 <= i < j < |r| ==> r[i] < r[j]
    decreases |members| - k
  {
    if k == |members| then []
    else if Over(members[k]) then [k] + OverloadedFrom(members, k + 1)
    else OverloadedFrom(members, k + 1)
  }

  /** `team.members.filter(m => m.currentTasks > m.capacity)`, as positions. */
  function Overloaded(members: seq<Member>): seq<nat> {
    OverloadedFrom(members, 0)
  }

  predicate MovableFor(id: string, t: Task) {
    t.assignedTo == Some(id) && t.priority != High
  }

  /** The test of `memberTasks`' filter. */
  function MovableTest(id: string): Task -> bool {
    t => MovableFor(id, t)
  }

  /** `tasks.filter(t => t.assignedTo === member.id && t.priority !== 'High')`. */
  function MemberTasks(tasks: seq<Task>, id: string): seq<Task> {
    Filter(tasks, MovableTest(id))
  }

  /** What `Array.prototype.sort` may do with the comparator
      `a.priority === 'Low' ? -1 : 1`: that comparator never answers 0 and
      is not consistent, so the order it leaves is the engine's own; all an
      engine promises is a permutation. */
  ghost predicate Permutes(sort: seq<Task> -> seq<Task>) {
    forall s :: multiset(sort(s)) == multiset(s)
  }

  /** `memberTasks`: the member's tasks that are not High, whatever their
      status, in the order the engine's `sort` leaves them. Taking that
      order as a parameter is a modelling choice: the client's comparator
      does not fix one. */
  function Movable(tasks: seq<Task>, id: string, sort: seq<Task> -> seq<Task>): seq<Task> {
    sort(MemberTasks(tasks, id))
  }

  /** Under any sort that permutes, `memberTasks` holds each of the member's
      non-High tasks as often as the task list does, and nothing else. */
  lemma MovableExactly(tasks: seq<Task>, id: string, sort: seq<Task> -> seq<Task>)
    requires Permutes(sort)
    ensures forall x :: multiset(Movable(tasks, id, sort))[x] == if MovableFor(id, x) then multiset(tasks)[x] else 0
    ensures forall i :: 0 <= i < |Movable(tasks, id, sort)| ==>
              Movable(tasks, id, sort)[i] in tasks && MovableFor(id, Movable(tasks, id, sort)[i])
  {
    FilterCounts(tasks, MovableTest(id));
    var r := Movable(tasks, id, sort);
    assert multiset(r) == multiset(MemberTasks(tasks, id));
    forall i | 0 <= i < |r| ensures r[i] in tasks && MovableFor(id, r[i]) {
      assert r[i] in multiset(r);
    }
  }

  function IsLow(t: Task): bool {
    t.priority == Low
  }

  function NotLow(t: Task): bool {
    t.priority != Low
  }

  /** One order an engine may leave: the Low tasks first, then the others,
      each group in list order (a stable partition). Other engines may leave
      other orders. */
  function LowsFirst(s: seq<Task>): seq<Task> {
    Filter(s, IsLow) + Filter(s, NotLow)
  }

  /** The stable partition is a permutation that puts every Low task first. */
  lemma LowsFirstPermutes()
    ensures Permutes(LowsFirst)
    ensures forall s: seq<Task>, i, j :: 0 <= i < j < |LowsFirst(s)| && LowsFirst(s)[j].priority == Low ==> LowsFirst(s)[i].priority == Low
  {
    forall s: seq<Task> ensures multiset(LowsFirst(s)) == multiset(s) {
      FilterCounts(s, IsLow);
      FilterCounts(s, NotLow);
      assert forall x :: multiset(LowsFirst(s))[x] == multiset(s)[x];
    }
    forall s: seq<Task>, i, j | 0 <= i < j < |LowsFirst(s)| && LowsFirst(s)[j].priority == Low
      ensures LowsFirst(s)[i].priority == Low
    {
      assert j < |Filter(s, IsLow)|;
    }
  }

  /** The position, from `k` on, of the first member other than `donorId`
      with room. */
  function AvailableFrom(members: seq<Member>, donorId: string, k: nat): (r: Option<nat>)
    requires k <= |members|
    ensures r.Some? ==> k <= r.value < |members| && members[r.value].id != donorId
                        && members[r.value].currentTasks < members[r.value].capacity
    ensures forall j :: k <= j < (if r.Some? then r.value else |members|) ==>
              !(members[j].id != donorId && members[j].currentTasks < members[j].capacity)
    decreases |members| - k
  {
    if k == |members| then None
    else if members[k].id != donorId && members[k].currentTasks < members[k].capacity then Some(k)
    else AvailableFrom(members, donorId, k + 1)
  }

  /** `team.members.find(m => m.id !== donor.id && m.currentTasks < m.capacity)`. */
  function Available(members: seq<Member>, donorId: string): Option<nat> {
    AvailableFrom(members, donorId, 0)
  }

  /** `updatedTasks.findIndex(t => t.id === id)`, with `|tasks|` for -1. */
  function TaskIndex(tasks: seq<Task>, id: string): nat {
    FirstIndex(tasks, (t: Task) => t.id == id)
  }


  /** The log id `log-<now>-<n>`. */
  function LogId(now: string, n: nat): string {
    "log-" + now + "-" + NatToString(n)
  }

  /** One move: the snapshot `task` goes, with its new assignee, to the first
      position of its id (nowhere when there is none: an index of -1 sets no
      element); the donor's counter goes down and the recipient's up; one log
      entry is added, numbered `n`. */
  function Moved(p: Pass, t: nat, m: nat, a: nat, task: Task, n: nat, now: string, stamp: string): (r: Pass)
    requires t < |p.teams| && m < |p.teams[t].members| && a < |p.teams[t].members| && m != a
    ensures SameShape(r.teams, p.teams) && |r.tasks| == |p.tasks|
  {
    var members := p.teams[t].members;
    var donor := members[m];
    var recipient := members[a];
    var idx := TaskIndex(p.tasks, task.id);
    var tasks := if idx < |p.tasks| then p.tasks[idx := task.(assignedTo := Some(recipient.id))] else p.tasks;
    var log := ActivityLog(LogId(now, n), stamp, "reassigned", task.title, donor.name, recipient.name);
    Pass(tasks, p.teams[t := p.teams[t].(members := Handed(members, m, a))], p.logs + [log])
  }

  /** The members after one hand-off from position `m` to position `a`. */
  function Handed(members: seq<Member>, m: nat, a: nat): (r: seq<Member>)
    requires m < |members| && a < |members| && m != a
    ensures |r| == |members|
  {
    members[m := members[m].(currentTasks := members[m].currentTasks - 1)][a := members[a].(currentTasks := members[a].currentTasks + 1)]
  }

  /** `for (const task of memberTasks)` from position `i`, with `count` moves
      made so far and `excess` allowed. */
  function TaskLoop(p: Pass, t: nat, m: nat, mt: seq<Task>, i: nat, count: nat, excess: int, now: string, stamp: string): (r: Pass)
    requires t < |p.teams| && m < |p.teams[t].members| && i <= |mt|
    ensures SameShape(r.teams, p.teams) && |r.tasks| == |p.tasks|
    decreases |mt| - i
  {
    if i == |mt| || count >= excess then p
    else
      var members := p.teams[t].members;
      match Available(members, members[m].id)
      case None => TaskLoop(p, t, m, mt, i + 1, count, excess, now, stamp)
      case Some(a) => TaskLoop(Moved(p, t, m, a, mt[i], count + 1, now, stamp), t, m, mt, i + 1, count + 1, excess, now, stamp)
  }

  /** The work for one overloaded member: its movable tasks and its excess
      are taken from the state when its turn comes. */
  function Donate(p: Pass, t: nat, m: nat, now: string, stamp: string, sort: seq<Task> -> seq<Task>): (r: Pass)
    requires t < |p.teams| && m < |p.teams[t].members|
    ensures SameShape(r.teams, p.teams) && |r.tasks| == |p.tasks|
  {
    var donor := p.teams[t].members[m];
    TaskLoop(p, t, m, Movable(p.tasks, donor.id, sort), 0, 0, donor.currentTasks - donor.capacity, now, stamp)
  }

  /** `overloadedMembers.forEach` from position `j`. */
  function MemberLoop(p: Pass, t: nat, over: seq<nat>, j: nat, now: string, stamp: string, sort: seq<Task> -> seq<Task>): (r: Pass)
    requires t < |p.teams| && j <= |over|
    requires forall k :: 0 <= k < |over| ==> over[k] < |p.teams[t].members|
    ensures SameShape(r.teams, p.teams) && |r.tasks| == |p.tasks|
    decreases |over| - j
  {
    if j == |over| then p
    else MemberLoop(Donate(p, t, over[j], now, stamp, sort), t, over, j + 1, now, stamp, sort)
  }

  /** `teamsCopy.forEach` from team `t`. */
  function TeamLoop(p: Pass, t: nat, now: string, stamp: string, sort: seq<Task> -> seq<Task>): (r: Pass)
    requires t <= |p.teams|
    ensures SameShape(r.teams, p.teams) && |r.tasks| == |p.tasks|
    decreases |p.teams| - t
  {
    if t == |p.teams| then p
    else TeamLoop(MemberLoop(p, t, Overloaded(p.teams[t].members), 0, now, stamp, sort), t + 1, now, stamp, sort)
  }

  /** The whole pass over the store's tasks and teams. */
  function Rebalanced(tasks: seq<Task>, teams: seq<Team>, now: string, stamp: string, sort: seq<Task> -> seq<Task>): (r: Pass)
    ensures SameShape(r.teams, teams) && |r.tasks| == |tasks|
  {
    TeamLoop(Pass(tasks, teams, []), 0, now, stamp, sort)
  }

  /** `[...newLogs, ...activityLogs].slice(0, 10)`. */
  function KeptLogs(newLogs: seq<ActivityLog>, logs: seq<ActivityLog>): (r: seq<ActivityLog>)
    ensures |r| == Min(LogLimit, |newLogs| + |logs|)
    ensures forall i :: 0 <= i < |r| ==> r[i] == (newLogs + logs)[i]
  {
    (newLogs + logs)[..Min(LogLimit, |newLogs| + |logs|)]
  }

  /** `reassignTasks()`, with `now` for `Date.now()` and `stamp` for `new Date()`. */
  method ReassignTasks(s: AppState, now: string, stamp: string, sort: seq<Task> -> seq<Task>) returns (next: AppState)
    ensures var r := Rebalanced(s.tasks, s.teams, now, stamp, sort);
            next == s.(tasks := r.tasks, teams := r.teams, activityLogs := KeptLogs(r.logs, s.activityLogs))
  {
    var updatedTasks, teamsCopy, newLogs := RebalanceTeams(s.tasks, s.teams, now, stamp, sort);
    next := s.(tasks := updatedTasks, teams := teamsCopy, activityLogs := KeptLogs(newLogs, s.activityLogs));
  }

  /** `teamsCopy.forEach`, starting with no new logs. */
  method RebalanceTeams(tasks: seq<Task>, teams: seq<Team>, now: string, stamp: string, sort: seq<Task> -> seq<Task>)
    returns (updatedTasks: seq<Task>, teamsCopy: seq<Team>, newLogs: seq<ActivityLog>)
    ensures Pass(updatedTasks, teamsCopy, newLogs) == Rebalanced(tasks, teams, now, stamp, sort)
  {
    ghost var goal := Rebalanced(tasks, teams, now, stamp, sort);
    updatedTasks, teamsCopy, newLogs := tasks, teams, [];
    var t := 0;
    while t < |teams|
      invariant t <= |teams| == |teamsCopy|
      invariant TeamLoop(Pass(updatedTasks, teamsCopy, newLogs), t, now, stamp, sort) == goal
      decreases |teams| - t
    {
      var overloadedMembers := Overloaded(teamsCopy[t].members);
      ghost var before := Pass(updatedTasks, teamsCopy, newLogs);
      updatedTasks, teamsCopy, newLogs := RebalanceTeam(updatedTasks, teamsCopy, newLogs, t, overloadedMembers, now, stamp, sort);
      assert TeamLoop(Pass(updatedTasks, teamsCopy, newLogs), t + 1, now, stamp, sort) == TeamLoop(before, t, now, stamp, sort);
      t := t + 1;
    }
  }

  /** `overloadedMembers.forEach` for team `t`. */
  method RebalanceTeam(tasks: seq<Task>, teams: seq<Team>, logs: seq<ActivityLog>, t: nat, over: seq<nat>, now: string, stamp: string, sort: seq<Task> -> seq<Task>)
    returns (tasks': seq<Task>, teams': seq<Team>, logs': seq<ActivityLog>)
    requires t < |teams|
    requires over == Overloaded(teams[t].members)
    ensures |teams'| == |teams| && SameShape(teams', teams)
    ensures TeamLoop(Pass(tasks', teams', logs'), t + 1, now, stamp, sort) == TeamLoop(Pass(tasks, teams, logs), t, now, stamp, sort)
  {
    tasks', teams', logs' := tasks, teams, logs;
    var j := 0;
    while j < |over|
      invariant j <= |over| && t < |teams'|
      invariant SameShape(teams', teams)
      invariant MemberLoop(Pass(tasks', teams', logs'), t, over, j, now, stamp, sort) == MemberLoop(Pass(tasks, teams, logs), t, over, 0, now, stamp, sort)
      decreases |over| - j
    {
      tasks', teams', logs' := DonateOne(tasks', teams', logs', t, over[j], now, stamp, sort);
      j := j + 1;
    }
  }

  /** The body of `overloadedMembers.forEach` for the member at position `m`
      of team `t`: the inner `for` loop with its `break`. */
  method DonateOne(tasks: seq<Task>, teams: seq<Team>, logs: seq<ActivityLog>, t: nat, m: nat, now: string, stamp: string, sort: seq<Task> -> seq<Task>)
    returns (tasks': seq<Task>, teams': seq<Team>, logs': seq<ActivityLog>)
    requires t < |teams| && m < |teams[t].members|
    ensures Pass(tasks', teams', logs') == Donate(Pass(tasks, teams, logs), t, m, now, stamp, sort)
  {
    var donor := teams[t].members[m];
    var memberTasks := Movable(tasks, donor.id, sort);
    var excessCount := donor.currentTasks - donor.capacity;
    tasks', teams', logs' := HandOver(tasks, teams, logs, t, m, memberTasks, excessCount, now, stamp);
  }

  /** The inner `for (const task of memberTasks)` loop with its `break`. */
  method HandOver(tasks: seq<Task>, teams: seq<Team>, logs: seq<ActivityLog>, t: nat, m: nat,
                  memberTasks: seq<Task>, excessCount: int, now: string, stamp: string)
    returns (tasks': seq<Task>, teams': seq<Team>, logs': seq<ActivityLog>)
    requires t < |teams| && m < |teams[t].members|
    ensures Pass(tasks', teams', logs') == TaskLoop(Pass(tasks, teams, logs), t, m, memberTasks, 0, 0, excessCount, now, stamp)
  {
    tasks', teams', logs' := tasks, teams, logs;
    var reassignedCount: nat := 0;
    var i := 0;
    while i < |memberTasks|
      invariant i <= |memberTasks|
      invariant t < |teams'| && m < |teams'[t].members|
      invariant TaskLoop(Pass(tasks', teams', logs'), t, m, memberTasks, i, reassignedCount, excessCount, now, stamp)
                == TaskLoop(Pass(tasks, teams, logs), t, m, memberTasks, 0, 0, excessCount, now, stamp)
      decreases |memberTasks| - i
    {
      if reassignedCount >= excessCount {
        break;
      }
      var task := memberTasks[i];
      var members := teams'[t].members;
      var availableMember := Available(members, members[m].id);
      if availableMember.Some? {
        ghost var before := Pass(tasks', teams', logs');
        tasks', teams', logs' := MoveOne(tasks', teams', logs', t, m, availableMember.value, task, reassignedCount + 1, now, stamp);
        assert TaskLoop(before, t, m, memberTasks, i, reassignedCount, excessCount, now, stamp)
               == TaskLoop(Pass(tasks', teams', logs'), t, m, memberTasks, i + 1, reassignedCount + 1, excessCount, now, stamp);
        reassignedCount := reassignedCount + 1;
      }
      i := i + 1;
    }
  }

  /** One reassignment: the task is written at `findIndex`, the two counters
      are stepped with `--` and `++`, and the log entry is pushed. */
  method MoveOne(tasks: seq<Task>, teams: seq<Team>, logs: seq<ActivityLog>, t: nat, m: nat, a: nat, task: Task, n: nat, now: string, stamp: string)
    returns (tasks': seq<Task>, teams': seq<Team>, logs': seq<ActivityLog>)
    requires t < |teams| && m < |teams[t].members| && a < |teams[t].members| && m != a
    ensures Pass(tasks', teams', logs') == Moved(Pass(tasks, teams, logs), t, m, a, task, n, now, stamp)
  {
    var members := teams[t].members;
    var from := members[m];
    var to := members[a];
    tasks' := tasks;
    var taskIndex := TaskIndex(tasks, task.id);
    if taskIndex < |tasks| {
      tasks' := tasks[taskIndex := task.(assignedTo := Some(to.id))];
    }
    members := members[m := from.(currentTasks := from.currentTasks - 1)];
    members := members[a := to.(currentTasks := to.currentTasks + 1)];
    teams' := teams[t := teams[t].(members := members)];
    logs' := logs + [ActivityLog(LogId(now, n), stamp, "reassigned", task.title, from.name, to.name)];
  }
}
