/** The server's rebalancing pass over one team (`reassignForTeam`) and the
    per-account driver that runs it for every team (`reassignTasks`).

    The pass is specified by the functions `Rebalance`, `Sweep`, `Donate` and
    `Drain`, which follow the two nested loops of the source one iteration at a
    time; the method `ReassignForTeam` is the loop program itself and is proved
    to compute exactly `Rebalance`. What the pass guarantees is proved about the
    functions in module ReassignProofs. */
module Reassign {
  import opened Common
  import opened Records

  /** One entry of the `moved` list. */
  datatype Move = Move(taskId: string, title: string, from: string, to: string)

  /** An activity document written for each reassignment. */
  datatype Activity = Activity(userId: string, message: string)

  /** The whole state the loops of the pass update: the tasks (changed in
      place), the `counts` and `freeSlots` dictionaries and the `moved` list. */
  datatype Pass = Pass(tasks: seq<Task>, counts: map<string, int>, free: map<string, int>, moved: seq<Move>)

  /** The task is a Pending or In Progress task of member `id`. */
  predicate CountsFor(t: Task, id: string) {
    IsActive(t.status) && t.assignee == Some(id)
  }

  /** The task may be moved away from member `id`: it counts for `id` and is not High. */
  predicate MovableFor(t: Task, id: string) {
    CountsFor(t, id) && t.priority != High
  }

  /** The number of active tasks of member `id`. */
  function Load(tasks: seq<Task>, id: string): nat {
    if tasks == [] then 0
    else Load(tasks[..|tasks| - 1], id) + (if CountsFor(tasks[|tasks| - 1], id) then 1 else 0)
  }

  /** The positions, in increasing order, of the tasks `movable` selects for member `id`. */
  function Movable(tasks: seq<Task>, id: string): (r: seq<nat>)
    ensures forall k :: 0 <= k < |r| ==> r[k] < |tasks| && MovableFor(tasks[r[k]], id)
    ensures forall k, l :: 0 <= k < l < |r| ==> r[k] < r[l]
  {
    if tasks == [] then []
    else
      var n := |tasks| - 1;
      var front := Movable(tasks[..n], id);
      assert forall k :: 0 <= k < |front| ==> tasks[..n][front[k]] == tasks[front[k]];
      assert forall j :: 0 <= j < n ==> tasks[..n][j] == tasks[j];
      if MovableFor(tasks[n], id) then front + [n] else front
  }

  /** Every movable task of `id` is in `Movable(tasks, id)`. */
  lemma {:induction false} MovableComplete(tasks: seq<Task>, id: string, j: nat)
    requires j < |tasks| && MovableFor(tasks[j], id)
    ensures j in Movable(tasks, id)
  {
    var n := |tasks| - 1;
    if j < n {
      assert tasks[..n][j] == tasks[j];
      MovableComplete(tasks[..n], id, j);
    }
  }

  /** `counts` after the counting loop: every member starts with its load. */
  function InitialCounts(team: seq<Member>, tasks: seq<Task>): map<string, int> {
    map id | id in MemberIds(team) :: Load(tasks, id)
  }

  /** `freeSlots` after its loop: the room each member has, never negative. */
  function InitialFree(team: seq<Member>, tasks: seq<Task>): map<string, int> {
    map id | id in MemberIds(team) :: Max(0, CapacityOf(team, id) - Load(tasks, id))
  }

  /** Member `m` can take a task from donor `mid`: `freeSlots[m] > 0 && m !== mid`. */
  predicate HasFreeSlot(free: map<string, int>, m: Member, mid: string) {
    m.id in free && free[m.id] > 0 && m.id != mid
  }

  function FirstRecipientFrom(team: seq<Member>, free: map<string, int>, mid: string, j: nat): (r: Option<nat>)
    requires j <= |team|
    ensures r.Some? ==> j <= r.value < |team| && HasFreeSlot(free, team[r.value], mid)
    ensures r.Some? ==> forall l :: j <= l < r.value ==> !HasFreeSlot(free, team[l], mid)
    ensures r.None? ==> forall l :: j <= l < |team| ==> !HasFreeSlot(free, team[l], mid)
    decreases |team| - j
  {
    if j == |team| then None
    else if HasFreeSlot(free, team[j], mid) then Some(j)
    else FirstRecipientFrom(team, free, mid, j + 1)
  }

  /** The recipient `find` picks: the first member in team order, other than
      the donor, with a free slot. */
  function FirstRecipient(team: seq<Member>, free: map<string, int>, mid: string): (r: Option<nat>)
    ensures r.Some? ==> r.value < |team| && HasFreeSlot(free, team[r.value], mid)
    ensures r.Some? ==> forall l :: 0 <= l < r.value ==> !HasFreeSlot(free, team[l], mid)
    ensures r.None? ==> forall l :: 0 <= l < |team| ==> !HasFreeSlot(free, team[l], mid)
  {
    FirstRecipientFrom(team, free, mid, 0)
  }

  /** The name recorded as `from`: `assignedMemberName || 'Unassigned'`. */
  function PreviousName(t: Task): string {
    if t.assigneeName == "" then "Unassigned" else t.assigneeName
  }

  /** The pass's state has one `counts` and one `freeSlots` entry per member. */
  predicate Shaped(team: seq<Member>, st: Pass, n: nat) {
    |st.tasks| == n && st.counts.Keys == MemberIds(team) && st.free.Keys == MemberIds(team)
  }

  /** One reassignment: task `j` goes from donor `mid` to member `r`. */
  function MoveTask(team: seq<Member>, st: Pass, mid: string, j: nat, r: nat): (st': Pass)
    requires j < |st.tasks| && r < |team|
    requires mid in st.counts && team[r].id in st.free
    ensures SameKeys(st', st)
  {
    var t := st.tasks[j];
    var rec := team[r];
    Pass(st.tasks[j := t.(assignee := Some(rec.id), assigneeName := rec.name)],
         st.counts[mid := st.counts[mid] - 1],
         st.free[rec.id := st.free[rec.id] - 1],
         st.moved + [Move(t.id, t.title, PreviousName(t), rec.name)])
  }

  /** Same number of tasks and the same `counts` and `freeSlots` keys. */
  predicate SameKeys(a: Pass, b: Pass) {
    |a.tasks| == |b.tasks| && a.counts.Keys == b.counts.Keys && a.free.Keys == b.free.Keys
  }

  predicate IndicesBelow(movable: seq<nat>, n: nat) {
    forall k :: 0 <= k < |movable| ==> movable[k] < n
  }

  /** The inner loop from iteration `i` on, with `toMove` still to move. */
  function Drain(team: seq<Member>, mid: string, movable: seq<nat>, i: nat, toMove: int, st: Pass): (r: Pass)
    requires i <= |movable| && IndicesBelow(movable, |st.tasks|) && mid in st.counts
    ensures SameKeys(r, st)
    decreases |movable| - i
  {
    if i == |movable| || toMove <= 0 then st
    else match FirstRecipient(team, st.free, mid)
      case None => st
      case Some(rec) => Drain(team, mid, movable, i + 1, toMove - 1, MoveTask(team, st, mid, movable[i], rec))
  }

  /** The body of the outer loop for member `k`: an overloaded member gives
      away up to `min(over, movable.length)` of its movable tasks. */
  function Donate(team: seq<Member>, k: nat, st: Pass): (r: Pass)
    requires k < |team| && Shaped(team, st, |st.tasks|)
    ensures Shaped(team, r, |st.tasks|)
  {
    var mid := team[k].id;
    var over := st.counts[mid] - team[k].capacity;
    if over > 0 then
      var movable := Movable(st.tasks, mid);
      Drain(team, mid, movable, 0, Min(over, |movable|), st)
    else st
  }

  /** The outer loop from member `k` on. */
  function Sweep(team: seq<Member>, k: nat, st: Pass): (r: Pass)
    requires k <= |team| && Shaped(team, st, |st.tasks|)
    ensures Shaped(team, r, |st.tasks|)
    decreases |team| - k
  {
    if k == |team| then st else Sweep(team, k + 1, Donate(team, k, st))
  }

  function Start(team: seq<Member>, tasks: seq<Task>): (st: Pass)
    requires WellFormedTeam(team)
    ensures Shaped(team, st, |tasks|)
  {
    Pass(tasks, InitialCounts(team, tasks), InitialFree(team, tasks), [])
  }

  /** The whole pass over a team's tasks: the tasks afterwards and the moves made. */
  function Rebalance(team: seq<Member>, tasks: seq<Task>): (r: Pass)
    requires WellFormedTeam(team)
    ensures |r.tasks| == |tasks|
  {
    Sweep(team, 0, Start(team, tasks))
  }

  /** The activity message written for a move; the timestamp is opaque. */
  function ReassignMessage(stamp: string, m: Move): string {
    stamp + " — Task \"" + m.title + "\" reassigned from " + m.from + " to " + m.to + "."
  }

  function ActivitiesFor(userId: string, stamp: string, moved: seq<Move>): (r: seq<Activity>)
    ensures |r| == |moved|
    ensures forall k :: 0 <= k < |moved| ==> r[k] == Activity(userId, ReassignMessage(stamp, moved[k]))
  {
    if moved == [] then []
    else ActivitiesFor(userId, stamp, moved[..|moved| - 1]) + [Activity(userId, ReassignMessage(stamp, moved[|moved| - 1]))]
  }

  lemma LoadOfPrefix(tasks: seq<Task>, i: nat, id: string)
    requires i < |tasks|
    ensures Load(tasks[..i + 1], id) == Load(tasks[..i], id) + (if CountsFor(tasks[i], id) then 1 else 0)
  {
    assert tasks[..i + 1][..i] == tasks[..i];
  }

  /** The counting loops of `reassignForTeam`: a zero entry per member, then
      one more for each active task assigned to a member. */
  method CountMembers(team: seq<Member>, tasks: seq<Task>) returns (counts: map<string, int>)
    ensures counts == InitialCounts(team, tasks)
  {
    counts := map[];
    for k := 0 to |team|
      invariant counts.Keys == MemberIds(team[..k])
      invariant forall id :: id in counts ==> counts[id] == 0
    {
      MemberIdsSnoc(team, k);
      counts := counts[team[k].id := 0];
    }
    assert team[..|team|] == team;
    for i := 0 to |tasks|
      invariant counts.Keys == MemberIds(team)
      invariant forall id :: id in counts ==> counts[id] == Load(tasks[..i], id)
    {
      forall id | id in counts
        ensures Load(tasks[..i + 1], id) == Load(tasks[..i], id) + (if CountsFor(tasks[i], id) then 1 else 0)
      {
        LoadOfPrefix(tasks, i, id);
      }
      var t := tasks[i];
      if IsActive(t.status) && t.assignee.Some? && t.assignee.value in counts {
        counts := counts[t.assignee.value := counts[t.assignee.value] + 1];
      }
    }
    assert tasks[..|tasks|] == tasks;
  }

  /** The free-slots loop: `max(0, capacity - count)` per member. */
  method FreeSlots(team: seq<Member>, tasks: seq<Task>, counts: map<string, int>) returns (free: map<string, int>)
    requires WellFormedTeam(team) && counts == InitialCounts(team, tasks)
    ensures free == InitialFree(team, tasks)
  {
    free := map[];
    for k := 0 to |team|
      invariant free.Keys == MemberIds(team[..k])
      invariant forall id :: id in free ==> id in counts && free[id] == Max(0, CapacityOf(team, id) - counts[id])
    {
      MemberIdsSnoc(team, k);
      CapacityOfMember(team, k);
      free := free[team[k].id := Max(0, team[k].capacity - counts[team[k].id])];
    }
    assert team[..|team|] == team;
    FreeSlotsMatch(team, tasks, counts, free);
  }

  lemma FreeSlotsMatch(team: seq<Member>, tasks: seq<Task>, counts: map<string, int>, free: map<string, int>)
    requires counts == InitialCounts(team, tasks) && free.Keys == MemberIds(team)
    requires forall id :: id in free ==> id in counts && free[id] == Max(0, CapacityOf(team, id) - counts[id])
    ensures free == InitialFree(team, tasks)
  {
  }

  /** One round of the inner loop, stated over the loop's new variables
      `i'`, `toMove'` and `st'` so that callers need no arithmetic. */
  lemma DrainStep(team: seq<Member>, mid: string, movable: seq<nat>, i: nat, toMove: int, st: Pass, rec: nat,
                  i': nat, toMove': int, st': Pass)
    requires i < |movable| && IndicesBelow(movable, |st.tasks|) && mid in st.counts && toMove > 0
    requires FirstRecipient(team, st.free, mid) == Some(rec)
    requires i' == i + 1 && toMove' == toMove - 1 && st' == MoveTask(team, st, mid, movable[i], rec)
    ensures Drain(team, mid, movable, i, toMove, st) == Drain(team, mid, movable, i', toMove', st')
  {
  }

  lemma DrainStop(team: seq<Member>, mid: string, movable: seq<nat>, i: nat, toMove: int, st: Pass)
    requires i <= |movable| && IndicesBelow(movable, |st.tasks|) && mid in st.counts
    requires i == |movable| || toMove <= 0 || FirstRecipient(team, st.free, mid).None?
    ensures Drain(team, mid, movable, i, toMove, st) == st
  {
  }

  /** The body of the inner loop once a recipient is found: update the task,
      log, `counts[mid]--`, `freeSlots[recipient]--`, push the move. */
  method ApplyMove(team: seq<Member>, cur: Pass, activities: seq<Activity>, mid: string, j: nat, r: nat, userId: string, stamp: string)
    returns (next: Pass, activities': seq<Activity>)
    requires j < |cur.tasks| && r < |team| && mid in cur.counts && team[r].id in cur.free
    requires activities == ActivitiesFor(userId, stamp, cur.moved)
    ensures next == MoveTask(team, cur, mid, j, r)
    ensures activities' == ActivitiesFor(userId, stamp, next.moved)
  {
    var rec := team[r];
    var task := cur.tasks[j];
    var entry := Move(task.id, task.title, PreviousName(task), rec.name);
    var tasks' := cur.tasks[j := task.(assignee := Some(rec.id), assigneeName := rec.name)];
    activities' := activities + [Activity(userId, ReassignMessage(stamp, entry))];
    var counts' := cur.counts[mid := cur.counts[mid] - 1];
    var free' := cur.free[rec.id := cur.free[rec.id] - 1];
    var moved' := cur.moved + [entry];
    assert moved'[..|moved'| - 1] == cur.moved;
    next := Pass(tasks', counts', free', moved');
  }

  /** The inner loop for donor `mid`: move `movable[i]` to the first member
      with a free slot, until `toMove` reaches 0 or no recipient is left. */
  method DrainDonor(team: seq<Member>, mid: string, over: int, st: Pass, userId: string, stamp: string, activities0: seq<Activity>)
    returns (r: Pass, activities: seq<Activity>)
    requires mid in st.counts
    requires activities0 == ActivitiesFor(userId, stamp, st.moved)
    ensures r == Drain(team, mid, Movable(st.tasks, mid), 0, Min(over, |Movable(st.tasks, mid)|), st)
    ensures activities == ActivitiesFor(userId, stamp, r.moved)
  {
    var cur := st;
    activities := activities0;
    var movable := Movable(cur.tasks, mid);
    var toMove := Min(over, |movable|);
    var i := 0;
    ghost var goal := Drain(team, mid, movable, 0, toMove, st);
    while i < |movable| && toMove > 0
      invariant i <= |movable| && |cur.tasks| == |st.tasks| && IndicesBelow(movable, |cur.tasks|)
      invariant SameKeys(cur, st)
      invariant Drain(team, mid, movable, i, toMove, cur) == goal
      invariant activities == ActivitiesFor(userId, stamp, cur.moved)
    {
      var recipient := FirstRecipient(team, cur.free, mid);
      if recipient.None? {
        break;
      }
      ghost var prev, prevI, prevToMove := cur, i, toMove;
      cur, activities := ApplyMove(team, cur, activities, mid, movable[i], recipient.value, userId, stamp);
      toMove := toMove - 1;
      i := i + 1;
      DrainStep(team, mid, movable, prevI, prevToMove, prev, recipient.value, i, toMove, cur);
    }
    DrainStop(team, mid, movable, i, toMove, cur);
    r := cur;
  }

  /** `reassignForTeam`: count, compute free slots, then walk the members in
      team order and let every overloaded one give tasks away. */
  method ReassignForTeam(team: seq<Member>, tasks: seq<Task>, userId: string, stamp: string)
    returns (updated: seq<Task>, moved: seq<Move>, activities: seq<Activity>)
    requires WellFormedTeam(team)
    ensures updated == Rebalance(team, tasks).tasks
    ensures moved == Rebalance(team, tasks).moved
    ensures activities == ActivitiesFor(userId, stamp, moved)
  {
    var counts := CountMembers(team, tasks);
    var free := FreeSlots(team, tasks, counts);
    var st := Pass(tasks, counts, free, []);
    assert st == Start(team, tasks);
    activities := [];
    var k := 0;
    while k < |team|
      invariant k <= |team| && |st.tasks| == |tasks|
      invariant Shaped(team, st, |tasks|)
      invariant Sweep(team, k, st) == Rebalance(team, tasks)
      invariant activities == ActivitiesFor(userId, stamp, st.moved)
    {
      var mid := team[k].id;
      var over := st.counts[mid] - team[k].capacity;
      if over > 0 {
        st, activities := DrainDonor(team, mid, over, st, userId, stamp, activities);
      }
      k := k + 1;
    }
    updated, moved := st.tasks, st.moved;
  }
}
