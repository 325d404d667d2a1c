/** What the client's `reassignTasks` keeps: within every team the sum of
    the counters; every member's counter between its start value and its
    capacity; every task as it was except for its assignee, and High tasks
    entirely; and one log entry for every unit a donor's counter went down. */
module ClientReassignProofs {
  import opened Common
  import opened ClientModel
  import opened ClientReassign

  // ----- measures -----

  /** The sum of the counters of a team. */
  function Sum(ms: seq<Member>): int {
    if ms == [] then 0 else ms[0].currentTasks + Sum(ms[1..])
  }

  lemma {:induction false} SumUpdate(ms: seq<Member>, i: nat, x: Member)
    requires i < |ms|
    ensures Sum(ms[i := x]) == Sum(ms) - ms[i].currentTasks + x.currentTasks
  {
    if i > 0 {
      assert ms[i := x][1..] == ms[1..][i - 1 := x];
      SumUpdate(ms[1..], i - 1, x);
    }
  }

  /** How far each counter has gone below its start value, summed. */
  function DropOf(ms0: seq<Member>, ms: seq<Member>): int
    requires |ms0| == |ms|
  {
    if ms == [] then 0 else Max(0, ms0[0].currentTasks - ms[0].currentTasks) + DropOf(ms0[1..], ms[1..])
  }

  lemma {:induction false} DropOfUpdate(ms0: seq<Member>, ms: seq<Member>, i: nat, x: Member)
    requires |ms0| == |ms| && i < |ms|
    ensures DropOf(ms0, ms[i := x]) ==
            DropOf(ms0, ms) - Max(0, ms0[i].currentTasks - ms[i].currentTasks) + Max(0, ms0[i].currentTasks - x.currentTasks)
  {
    if i > 0 {
      assert ms[i := x][1..] == ms[1..][i - 1 := x];
      DropOfUpdate(ms0[1..], ms[1..], i - 1, x);
    }
  }

  lemma {:induction false} DropOfSelf(ms: seq<Member>)
    ensures DropOf(ms, ms) == 0
  {
    if ms != [] {
      DropOfSelf(ms[1..]);
    }
  }

  /** `DropOf` over all teams: the number of task hand-offs. */
  function Given(teams0: seq<Team>, teams: seq<Team>): int
    requires SameShape(teams0, teams)
  {
    if teams == [] then 0
    else DropOf(teams0[0].members, teams[0].members) + Given(teams0[1..], teams[1..])
  }

  lemma {:induction false} GivenUpdate(teams0: seq<Team>, teams: seq<Team>, t: nat, ms: seq<Member>)
    requires SameShape(teams0, teams) && t < |teams| && |ms| == |teams[t].members|
    ensures SameShape(teams0, teams[t := teams[t].(members := ms)])
    ensures Given(teams0, teams[t := teams[t].(members := ms)]) ==
            Given(teams0, teams) - DropOf(teams0[t].members, teams[t].members) + DropOf(teams0[t].members, ms)
  {
    var u := teams[t := teams[t].(members := ms)];
    if t > 0 {
      assert u[1..] == teams[1..][t - 1 := teams[t].(members := ms)];
      GivenUpdate(teams0[1..], teams[1..], t - 1, ms);
    }
  }

  lemma {:induction false} GivenSelf(teams: seq<Team>)
    ensures Given(teams, teams) == 0
  {
    if teams != [] {
      DropOfSelf(teams[0].members);
      GivenSelf(teams[1..]);
    }
  }

  // ----- the invariant -----

  /** A counter that started at or under capacity stays between its start
      and the capacity; one that started over stays between the capacity
      and its start. */
  predicate Within(m0: Member, m: Member) {
    && (m0.currentTasks <= m0.capacity ==> m0.currentTasks <= m.currentTasks <= m0.capacity)
    && (m0.currentTasks > m0.capacity ==> m0.capacity <= m.currentTasks <= m0.currentTasks)
  }

  /** Teams and members are as they were except for the counters. */
  predicate MembersTame(teams0: seq<Team>, teams: seq<Team>) {
    && SameShape(teams0, teams)
    && (forall t :: 0 <= t < |teams| ==> teams[t] == teams0[t].(members := teams[t].members))
    && (forall t, m :: 0 <= t < |teams| && 0 <= m < |teams[t].members| ==>
          teams[t].members[m] == teams0[t].members[m].(currentTasks := teams[t].members[m].currentTasks))
  }

  /** Tasks are as they were except for the assignee, and High ones entirely. */
  predicate TasksTame(tasks0: seq<Task>, tasks: seq<Task>) {
    && |tasks| == |tasks0|
    && (forall x :: 0 <= x < |tasks| ==> tasks[x] == tasks0[x].(assignedTo := tasks[x].assignedTo))
    && (forall x :: 0 <= x < |tasks| && tasks0[x].priority == High ==> tasks[x] == tasks0[x])
  }

  predicate SumsKept(teams0: seq<Team>, teams: seq<Team>)
    requires SameShape(teams0, teams)
  {
    forall t :: 0 <= t < |teams| ==> Sum(teams[t].members) == Sum(teams0[t].members)
  }

  predicate Bounded(teams0: seq<Team>, teams: seq<Team>)
    requires SameShape(teams0, teams)
  {
    forall t, m :: 0 <= t < |teams| && 0 <= m < |teams[t].members| ==> Within(teams0[t].members[m], teams[t].members[m])
  }

  predicate Inv(tasks0: seq<Task>, teams0: seq<Team>, p: Pass) {
    && UniqueTaskIds(tasks0)
    && MembersTame(teams0, p.teams)
    && TasksTame(tasks0, p.tasks)
    && SumsKept(teams0, p.teams)
    && Bounded(teams0, p.teams)
    && |p.logs| == Given(teams0, p.teams)
  }

  /** A snapshot of a task of the starting list, with its assignee possibly
      changed, and not High. */
  predicate Snap(tasks0: seq<Task>, e: Task) {
    var x := TaskIndex(tasks0, e.id);
    x < |tasks0| && e == tasks0[x].(assignedTo := e.assignedTo) && e.priority != High
  }

  // ----- task lookups -----

  /** `findIndex` looks only at ids. */
  lemma TaskIndexSameIds(a: seq<Task>, b: seq<Task>, id: string)
    requires |a| == |b|
    requires forall x :: 0 <= x < |a| ==> a[x].id == b[x].id
    ensures TaskIndex(a, id) == TaskIndex(b, id)
  {
  }

  /** With distinct ids `findIndex` finds the one position of the id. */
  lemma TaskIndexUnique(tasks: seq<Task>, y: nat)
    requires UniqueTaskIds(tasks) && y < |tasks|
    ensures TaskIndex(tasks, tasks[y].id) == y
  {
  }

  /** Every movable task of the current list is a snapshot of a starting task. */
  lemma MovableSnaps(tasks0: seq<Task>, tasks: seq<Task>, id: string, sort: seq<Task> -> seq<Task>)
    requires UniqueTaskIds(tasks0) && TasksTame(tasks0, tasks) && Permutes(sort)
    ensures forall k :: 0 <= k < |Movable(tasks, id, sort)| ==> Snap(tasks0, Movable(tasks, id, sort)[k])
  {
    var mt := Movable(tasks, id, sort);
    MovableExactly(tasks, id, sort);
    forall k | 0 <= k < |mt| ensures Snap(tasks0, mt[k]) {
      var y :| 0 <= y < |tasks| && tasks[y] == mt[k];
      TaskIndexUnique(tasks0, y);
    }
  }

  // ----- one move -----

  /** The task list after a move of a snapshot stays tame. */
  lemma MovedTasks(tasks0: seq<Task>, teams0: seq<Team>, p: Pass, t: nat, m: nat, a: nat, task: Task, n: nat, now: string, stamp: string)
    requires Inv(tasks0, teams0, p) && Snap(tasks0, task)
    requires t < |p.teams| && m < |p.teams[t].members| && a < |p.teams[t].members| && m != a
    ensures TasksTame(tasks0, Moved(p, t, m, a, task, n, now, stamp).tasks)
  {
    var x := TaskIndex(tasks0, task.id);
    TaskIndexSameIds(p.tasks, tasks0, task.id);
  }

  /** Replacing the members of team `t` keeps the team-side invariant when
      the new members keep it for that team and hand off one more unit. */
  lemma TeamUpdateKeeps(teams0: seq<Team>, teams: seq<Team>, t: nat, ms: seq<Member>, logs: nat)
    requires MembersTame(teams0, teams) && SumsKept(teams0, teams) && Bounded(teams0, teams)
    requires logs == Given(teams0, teams) && t < |teams| && |ms| == |teams[t].members|
    requires forall k :: 0 <= k < |ms| ==> ms[k] == teams0[t].members[k].(currentTasks := ms[k].currentTasks)
    requires forall k :: 0 <= k < |ms| ==> Within(teams0[t].members[k], ms[k])
    requires Sum(ms) == Sum(teams[t].members)
    requires DropOf(teams0[t].members, ms) == DropOf(teams0[t].members, teams[t].members) + 1
    ensures var u := teams[t := teams[t].(members := ms)];
            MembersTame(teams0, u) && SumsKept(teams0, u) && Bounded(teams0, u) && logs + 1 == Given(teams0, u)
  {
    GivenUpdate(teams0, teams, t, ms);
  }

  /** The members of the team after a hand-off from a donor still at or
      over capacity after giving, to a recipient below capacity. */
  lemma HandedTeam(ms0: seq<Member>, members: seq<Member>, m: nat, a: nat)
    requires |ms0| == |members| && m < |members| && a < |members| && m != a
    requires forall k :: 0 <= k < |members| ==> members[k] == ms0[k].(currentTasks := members[k].currentTasks)
    requires forall k :: 0 <= k < |members| ==> Within(ms0[k], members[k])
    requires members[a].currentTasks < members[a].capacity
    requires members[m].currentTasks - 1 >= members[m].capacity
    ensures var ms := Handed(members, m, a);
            && (forall k :: 0 <= k < |ms| ==> ms[k] == ms0[k].(currentTasks := ms[k].currentTasks))
            && (forall k :: 0 <= k < |ms| ==> Within(ms0[k], ms[k]))
            && Sum(ms) == Sum(members)
            && DropOf(ms0, ms) == DropOf(ms0, members) + 1
            && ms[m].currentTasks == members[m].currentTasks - 1
  {
    var donor, recipient := members[m], members[a];
    var d := donor.(currentTasks := donor.currentTasks - 1);
    var rc := recipient.(currentTasks := recipient.currentTasks + 1);
    var ms1 := members[m := d];
    var ms := ms1[a := rc];
    assert Within(ms0[m], d);
    assert Within(ms0[a], rc);
    SumUpdate(members, m, d);
    SumUpdate(ms1, a, rc);
    DropOfUpdate(ms0, members, m, d);
    DropOfUpdate(ms0, ms1, a, rc);
  }

  /** The teams after such a hand-off keep the team-side invariant, with one
      more unit handed off. */
  lemma HandedTeams(teams0: seq<Team>, teams: seq<Team>, t: nat, m: nat, a: nat, logs: nat)
    requires MembersTame(teams0, teams) && SumsKept(teams0, teams) && Bounded(teams0, teams)
    requires logs == Given(teams0, teams)
    requires t < |teams| && m < |teams[t].members| && a < |teams[t].members| && m != a
    requires teams[t].members[a].currentTasks < teams[t].members[a].capacity
    requires teams[t].members[m].currentTasks - 1 >= teams[t].members[m].capacity
    ensures var u := teams[t := teams[t].(members := Handed(teams[t].members, m, a))];
            && MembersTame(teams0, u) && SumsKept(teams0, u) && Bounded(teams0, u) && logs + 1 == Given(teams0, u)
            && u[t].members[m].currentTasks == teams[t].members[m].currentTasks - 1
  {
    HandedTeam(teams0[t].members, teams[t].members, m, a);
    TeamUpdateKeeps(teams0, teams, t, Handed(teams[t].members, m, a), logs);
  }

  /** One move keeps the invariant and takes one from the donor. */
  lemma MovedKeeps(tasks0: seq<Task>, teams0: seq<Team>, p: Pass, t: nat, m: nat, a: nat, task: Task, n: nat, now: string, stamp: string)
    requires Inv(tasks0, teams0, p) && Snap(tasks0, task)
    requires t < |p.teams| && m < |p.teams[t].members| && a < |p.teams[t].members| && m != a
    requires p.teams[t].members[a].currentTasks < p.teams[t].members[a].capacity
    requires p.teams[t].members[m].currentTasks - 1 >= p.teams[t].members[m].capacity
    ensures var r := Moved(p, t, m, a, task, n, now, stamp);
            && Inv(tasks0, teams0, r)
            && r.teams[t].members[m].currentTasks == p.teams[t].members[m].currentTasks - 1
            && r.teams[t].members[m].capacity == p.teams[t].members[m].capacity
  {
    MovedTasks(tasks0, teams0, p, t, m, a, task, n, now, stamp);
    HandedTeams(teams0, p.teams, t, m, a, |p.logs|);
  }

  // ----- the loops -----

  /** The inner loop keeps the invariant while the donor's counter minus its
      capacity equals the moves still allowed. */
  lemma {:induction false} TaskLoopKeeps(tasks0: seq<Task>, teams0: seq<Team>, p: Pass, t: nat, m: nat, mt: seq<Task>, i: nat, count: nat, excess: int, now: string, stamp: string)
    requires Inv(tasks0, teams0, p)
    requires t < |p.teams| && m < |p.teams[t].members| && i <= |mt|
    requires forall k :: i <= k < |mt| ==> Snap(tasks0, mt[k])
    requires p.teams[t].members[m].currentTasks - p.teams[t].members[m].capacity == excess - count
    ensures Inv(tasks0, teams0, TaskLoop(p, t, m, mt, i, count, excess, now, stamp))
    decreases |mt| - i, 1
  {
    if i < |mt| && count < excess {
      var members := p.teams[t].members;
      match Available(members, members[m].id)
      case None =>
        assert TaskLoop(p, t, m, mt, i, count, excess, now, stamp) == TaskLoop(p, t, m, mt, i + 1, count, excess, now, stamp);
        TaskLoopKeeps(tasks0, teams0, p, t, m, mt, i + 1, count, excess, now, stamp);
      case Some(a) =>
        TaskLoopMoves(tasks0, teams0, p, t, m, a, mt, i, count, excess, now, stamp);
    }
  }

  /** The step of the inner loop that finds a recipient. */
  lemma {:induction false} TaskLoopMoves(tasks0: seq<Task>, teams0: seq<Team>, p: Pass, t: nat, m: nat, a: nat, mt: seq<Task>, i: nat, count: nat, excess: int, now: string, stamp: string)
    requires Inv(tasks0, teams0, p)
    requires t < |p.teams| && m < |p.teams[t].members| && i < |mt| && count < excess
    requires Available(p.teams[t].members, p.teams[t].members[m].id) == Some(a)
    requires forall k :: i <= k < |mt| ==> Snap(tasks0, mt[k])
    requires p.teams[t].members[m].currentTasks - p.teams[t].members[m].capacity == excess - count
    ensures Inv(tasks0, teams0, TaskLoop(p, t, m, mt, i, count, excess, now, stamp))
    decreases |mt| - i, 0
  {
    var q := Moved(p, t, m, a, mt[i], count + 1, now, stamp);
    assert TaskLoop(p, t, m, mt, i, count, excess, now, stamp) == TaskLoop(q, t, m, mt, i + 1, count + 1, excess, now, stamp);
    MovedKeeps(tasks0, teams0, p, t, m, a, mt[i], count + 1, now, stamp);
    TaskLoopKeeps(tasks0, teams0, q, t, m, mt, i + 1, count + 1, excess, now, stamp);
  }

  lemma DonateKeeps(tasks0: seq<Task>, teams0: seq<Team>, p: Pass, t: nat, m: nat, now: string, stamp: string, sort: seq<Task> -> seq<Task>)
    requires Permutes(sort)
    requires Inv(tasks0, teams0, p)
    requires t < |p.teams| && m < |p.teams[t].members|
    ensures Inv(tasks0, teams0, Donate(p, t, m, now, stamp, sort))
  {
    var donor := p.teams[t].members[m];
    MovableSnaps(tasks0, p.tasks, donor.id, sort);
    TaskLoopKeeps(tasks0, teams0, p, t, m, Movable(p.tasks, donor.id, sort), 0, 0, donor.currentTasks - donor.capacity, now, stamp);
  }

  lemma {:induction false} MemberLoopKeeps(tasks0: seq<Task>, teams0: seq<Team>, p: Pass, t: nat, over: seq<nat>, j: nat, now: string, stamp: string, sort: seq<Task> -> seq<Task>)
    requires Permutes(sort)
    requires Inv(tasks0, teams0, p)
    requires t < |p.teams| && j <= |over|
    requires forall k :: 0 <= k < |over| ==> over[k] < |p.teams[t].members|
    ensures Inv(tasks0, teams0, MemberLoop(p, t, over, j, now, stamp, sort))
    decreases |over| - j
  {
    if j < |over| {
      DonateKeeps(tasks0, teams0, p, t, over[j], now, stamp, sort);
      MemberLoopKeeps(tasks0, teams0, Donate(p, t, over[j], now, stamp, sort), t, over, j + 1, now, stamp, sort);
    }
  }

  lemma {:induction false} TeamLoopKeeps(tasks0: seq<Task>, teams0: seq<Team>, p: Pass, t: nat, now: string, stamp: string, sort: seq<Task> -> seq<Task>)
    requires Permutes(sort)
    requires Inv(tasks0, teams0, p) && t <= |p.teams|
    ensures Inv(tasks0, teams0, TeamLoop(p, t, now, stamp, sort))
    decreases |p.teams| - t
  {
    if t < |p.teams| {
      var over := Overloaded(p.teams[t].members);
      MemberLoopKeeps(tasks0, teams0, p, t, over, 0, now, stamp, sort);
      TeamLoopKeeps(tasks0, teams0, MemberLoop(p, t, over, 0, now, stamp, sort), t + 1, now, stamp, sort);
    }
  }

  /** The invariant holds of the whole pass. */
  lemma RebalancedInv(tasks: seq<Task>, teams: seq<Team>, now: string, stamp: string, sort: seq<Task> -> seq<Task>)
    requires Permutes(sort)
    requires UniqueTaskIds(tasks)
    ensures Inv(tasks, teams, Rebalanced(tasks, teams, now, stamp, sort))
  {
    GivenSelf(teams);
    TeamLoopKeeps(tasks, teams, Pass(tasks, teams, []), 0, now, stamp, sort);
  }

  // ----- the properties -----

  /** Only assignees change, and never that of a High task; teams and
      members keep everything but their counters. */
  lemma ReassignOnlyMovesLowAndMedium(tasks: seq<Task>, teams: seq<Team>, now: string, stamp: string, sort: seq<Task> -> seq<Task>)
    requires Permutes(sort)
    requires UniqueTaskIds(tasks)
    ensures var r := Rebalanced(tasks, teams, now, stamp, sort);
            && |r.tasks| == |tasks|
            && (forall x :: 0 <= x < |tasks| ==> r.tasks[x] == tasks[x].(assignedTo := r.tasks[x].assignedTo))
            && (forall x :: 0 <= x < |tasks| && tasks[x].priority == High ==> r.tasks[x] == tasks[x])
            && MembersTame(teams, r.teams)
  {
    RebalancedInv(tasks, teams, now, stamp, sort);
  }

  /** Every move takes one from a counter and gives one to another member of
      the same team, so each team's counter sum is kept. */
  lemma ReassignKeepsTeamSums(tasks: seq<Task>, teams: seq<Team>, now: string, stamp: string, sort: seq<Task> -> seq<Task>)
    requires Permutes(sort)
    requires UniqueTaskIds(tasks)
    ensures var r := Rebalanced(tasks, teams, now, stamp, sort);
            |r.teams| == |teams| && forall t :: 0 <= t < |teams| ==> Sum(r.teams[t].members) == Sum(teams[t].members)
  {
    RebalancedInv(tasks, teams, now, stamp, sort);
  }

  /** A member over capacity gives away at most its excess and never goes
      below its capacity; a member at or under capacity receives at most up
      to its capacity and never loses; no counter goes negative. */
  lemma ReassignBounds(tasks: seq<Task>, teams: seq<Team>, now: string, stamp: string, sort: seq<Task> -> seq<Task>)
    requires Permutes(sort)
    requires UniqueTaskIds(tasks)
    ensures var r := Rebalanced(tasks, teams, now, stamp, sort);
            SameShape(teams, r.teams)
            && forall t, m :: 0 <= t < |teams| && 0 <= m < |teams[t].members| ==> Within(teams[t].members[m], r.teams[t].members[m])
    ensures CountersNonNegative(teams) ==> CountersNonNegative(Rebalanced(tasks, teams, now, stamp, sort).teams)
  {
    RebalancedInv(tasks, teams, now, stamp, sort);
  }

  /** One log entry per move: the entries number the units by which donors'
      counters went down. */
  lemma ReassignLogsEveryMove(tasks: seq<Task>, teams: seq<Team>, now: string, stamp: string, sort: seq<Task> -> seq<Task>)
    requires Permutes(sort)
    requires UniqueTaskIds(tasks)
    ensures var r := Rebalanced(tasks, teams, now, stamp, sort);
            SameShape(teams, r.teams) && |r.logs| == Given(teams, r.teams)
  {
    RebalancedInv(tasks, teams, now, stamp, sort);
  }
}
