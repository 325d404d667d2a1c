/** What the server's rebalancing pass guarantees, proved about `Rebalance`
    (and so, through its postcondition, about `ReassignForTeam`). */
module ReassignProofs {
  import opened Common
  import opened Records
  import opened Reassign

  /** Member `m` is overloaded at the start of the pass. */
  predicate Donor(team: seq<Member>, t0: seq<Task>, m: nat)
    requires m < |team|
  {
    Load(t0, team[m].id) > team[m].capacity
  }

  /** `a` equals `b` except, possibly, in its assignee and assignee name. */
  predicate SameTask(a: Task, b: Task) {
    a.(assignee := b.assignee, assigneeName := b.assigneeName) == b
  }

  /** A changed task was an active non-High task of an overloaded member and
      now belongs to a member that was not overloaded, under that member's name. */
  predicate MovedFromDonor(team: seq<Member>, t0: seq<Task>, before: Task, after: Task) {
    && IsActive(before.status) && before.priority != High
    && (exists d :: 0 <= d < |team| && Donor(team, t0, d) && before.assignee == Some(team[d].id))
    && (exists r :: 0 <= r < |team| && !Donor(team, t0, r) && after.assignee == Some(team[r].id) && after.assigneeName == team[r].name)
  }

  /** The number of positions where two task lists differ. */
  function ChangedCount(a: seq<Task>, b: seq<Task>): nat
    requires |a| == |b|
  {
    if a == [] then 0
    else ChangedCount(a[..|a| - 1], b[..|b| - 1]) + (if a[|a| - 1] != b[|b| - 1] then 1 else 0)
  }

  predicate FreeMatches(team: seq<Member>, st: Pass, m: nat)
    requires m < |team|
  {
    team[m].id in st.free && st.free[team[m].id] == Max(0, team[m].capacity - Load(st.tasks, team[m].id))
  }

  predicate CountMatches(team: seq<Member>, t0: seq<Task>, st: Pass, m: nat)
    requires m < |team|
  {
    team[m].id in st.counts
    && st.counts[team[m].id] == (if Donor(team, t0, m) then Load(st.tasks, team[m].id) else Load(t0, team[m].id))
  }

  /** An overloaded member never drops below its capacity and never gains;
      any other member never loses and never rises above its capacity. */
  predicate LoadBounds(team: seq<Member>, t0: seq<Task>, st: Pass, m: nat)
    requires m < |team|
  {
    var now, was, cap := Load(st.tasks, team[m].id), Load(t0, team[m].id), team[m].capacity;
    if Donor(team, t0, m) then cap <= now <= was else was <= now <= cap
  }

  /** Every move entry describes a changed task: its id and title, the name it
      had before and the name of the member it now has. */
  predicate MovesDescribeChanges(t0: seq<Task>, st: Pass)
    requires |st.tasks| == |t0|
  {
    forall e :: e in st.moved ==>
      exists x :: (0 <= x < |t0| && st.tasks[x] != t0[x]
        && e == Move(t0[x].id, t0[x].title, PreviousName(t0[x]), st.tasks[x].assigneeName))
  }

  /** Only assignees changed, and only as `MovedFromDonor` allows. */
  predicate TasksOk(team: seq<Member>, t0: seq<Task>, st: Pass)
    requires |st.tasks| == |t0|
  {
    && (forall x :: 0 <= x < |t0| ==> SameTask(st.tasks[x], t0[x]))
    && (forall x :: 0 <= x < |t0| && st.tasks[x] != t0[x] ==> MovedFromDonor(team, t0, t0[x], st.tasks[x]))
  }

  /** The dictionaries are exact and the loads keep to their bounds. */
  predicate MembersOk(team: seq<Member>, t0: seq<Task>, st: Pass) {
    forall m :: 0 <= m < |team| ==> FreeMatches(team, st, m) && CountMatches(team, t0, st, m) && LoadBounds(team, t0, st, m)
  }

  /** One move entry per changed task. */
  predicate MovesOk(t0: seq<Task>, st: Pass)
    requires |st.tasks| == |t0|
  {
    |st.moved| == ChangedCount(t0, st.tasks) && MovesDescribeChanges(t0, st)
  }

  /** The invariant of the pass, relative to the tasks `t0` it started from. */
  predicate Inv(team: seq<Member>, t0: seq<Task>, st: Pass) {
    && WellFormedTeam(team)
    && Shaped(team, st, |t0|)
    && TasksOk(team, t0, st)
    && MembersOk(team, t0, st)
    && MovesOk(t0, st)
  }

  // ----- counting lemmas -----

  lemma {:induction false} LoadUpdate(s: seq<Task>, j: nat, t: Task, id: string)
    requires j < |s|
    ensures Load(s[j := t], id)
         == Load(s, id) - (if CountsFor(s[j], id) then 1 else 0) + (if CountsFor(t, id) then 1 else 0)
  {
    var n := |s| - 1;
    var s' := s[j := t];
    assert s'[..n] == if j < n then s[..n][j := t] else s[..n];
    if j < n {
      LoadUpdate(s[..n], j, t, id);
    }
  }

  lemma {:induction false} ChangedCountUpdate(a: seq<Task>, b: seq<Task>, j: nat, t: Task)
    requires |a| == |b| && j < |a| && a[j] == b[j] && t != a[j]
    ensures ChangedCount(a, b[j := t]) == ChangedCount(a, b) + 1
  {
    var n := |a| - 1;
    var b' := b[j := t];
    assert b'[..n] == if j < n then b[..n][j := t] else b[..n];
    if j < n {
      ChangedCountUpdate(a[..n], b[..n], j, t);
    }
  }

  lemma {:induction false} ChangedCountZero(a: seq<Task>, b: seq<Task>)
    requires |a| == |b| && ChangedCount(a, b) == 0
    ensures a == b
  {
    if a != [] {
      var n := |a| - 1;
      ChangedCountZero(a[..n], b[..n]);
      assert a == a[..n] + [a[n]] && b == b[..n] + [b[n]];
    }
  }

  lemma ChangedCountSelf(a: seq<Task>)
    ensures ChangedCount(a, a) == 0
  {
    if a != [] {
      ChangedCountSelf(a[..|a| - 1]);
    }
  }

  /** Distinct ids: a member is identified by its id. */
  lemma SameId(team: seq<Member>, a: nat, b: nat)
    requires WellFormedTeam(team) && a < |team| && b < |team| && team[a].id == team[b].id
    ensures a == b
  {
  }

  /** A changed task is never assigned to a member that was overloaded. */
  lemma ChangedNotAtDonor(team: seq<Member>, t0: seq<Task>, st: Pass, x: nat, k: nat)
    requires Inv(team, t0, st) && x < |t0| && k < |team| && Donor(team, t0, k)
    requires st.tasks[x].assignee == Some(team[k].id)
    ensures st.tasks[x] == t0[x]
  {
  }

  // ----- one move keeps the invariant -----

  /** The recipient chosen with a free slot is under capacity, so it was not overloaded. */
  lemma RecipientNotDonor(team: seq<Member>, t0: seq<Task>, st: Pass, mid: string, r: nat)
    requires Inv(team, t0, st) && r < |team| && HasFreeSlot(st.free, team[r], mid)
    ensures Load(st.tasks, team[r].id) < team[r].capacity && !Donor(team, t0, r)
  {
    assert FreeMatches(team, st, r);
    assert LoadBounds(team, t0, st, r);
  }

  lemma MoveLoads(team: seq<Member>, st: Pass, mid: string, j: nat, r: nat, st': Pass)
    requires Shaped(team, st, |st.tasks|) && j < |st.tasks| && r < |team| && mid in st.counts
    requires HasFreeSlot(st.free, team[r], mid) && CountsFor(st.tasks[j], mid)
    requires st' == MoveTask(team, st, mid, j, r)
    ensures Load(st'.tasks, mid) == Load(st.tasks, mid) - 1
    ensures Load(st'.tasks, team[r].id) == Load(st.tasks, team[r].id) + 1
    ensures forall id :: id != mid && id != team[r].id ==> Load(st'.tasks, id) == Load(st.tasks, id)
  {
    var t := st.tasks[j].(assignee := Some(team[r].id), assigneeName := team[r].name);
    assert st'.tasks == st.tasks[j := t];
    LoadUpdate(st.tasks, j, t, mid);
    LoadUpdate(st.tasks, j, t, team[r].id);
    forall id | id != mid && id != team[r].id ensures Load(st'.tasks, id) == Load(st.tasks, id) {
      LoadUpdate(st.tasks, j, t, id);
    }
  }

  lemma MoveMemberFacts(team: seq<Member>, t0: seq<Task>, st: Pass, k: nat, j: nat, r: nat, st': Pass)
    requires Inv(team, t0, st) && k < |team| && Donor(team, t0, k) && j < |st.tasks| && r < |team|
    requires CountsFor(st.tasks[j], team[k].id) && Load(st.tasks, team[k].id) > team[k].capacity
    requires HasFreeSlot(st.free, team[r], team[k].id)
    requires st' == MoveTask(team, st, team[k].id, j, r)
    ensures forall m :: 0 <= m < |team| ==> FreeMatches(team, st', m) && CountMatches(team, t0, st', m) && LoadBounds(team, t0, st', m)
  {
    var mid := team[k].id;
    RecipientNotDonor(team, t0, st, mid, r);
    MoveLoads(team, st, mid, j, r, st');
    forall m | 0 <= m < |team|
      ensures FreeMatches(team, st', m) && CountMatches(team, t0, st', m) && LoadBounds(team, t0, st', m)
    {
      assert FreeMatches(team, st, m) && CountMatches(team, t0, st, m) && LoadBounds(team, t0, st, m);
      if m != k && m != r {
        assert team[m].id != mid && team[m].id != team[r].id;
      }
    }
  }

  lemma MoveTaskFacts(team: seq<Member>, t0: seq<Task>, st: Pass, k: nat, j: nat, r: nat, st': Pass)
    requires Inv(team, t0, st) && k < |team| && Donor(team, t0, k) && j < |st.tasks| && r < |team|
    requires MovableFor(st.tasks[j], team[k].id)
    requires HasFreeSlot(st.free, team[r], team[k].id)
    requires st' == MoveTask(team, st, team[k].id, j, r)
    ensures st.tasks[j] == t0[j] && st'.tasks[j] != t0[j]
    ensures forall x :: 0 <= x < |t0| ==> SameTask(st'.tasks[x], t0[x])
    ensures forall x :: 0 <= x < |t0| && st'.tasks[x] != t0[x] ==> MovedFromDonor(team, t0, t0[x], st'.tasks[x])
  {
    var mid := team[k].id;
    ChangedNotAtDonor(team, t0, st, j, k);
    RecipientNotDonor(team, t0, st, mid, r);
    assert MovedFromDonor(team, t0, t0[j], st'.tasks[j]);
    forall x | 0 <= x < |t0| && st'.tasks[x] != t0[x] ensures MovedFromDonor(team, t0, t0[x], st'.tasks[x]) {
      if x != j {
        assert st'.tasks[x] == st.tasks[x];
      }
    }
  }

  lemma MoveKeepsInv(team: seq<Member>, t0: seq<Task>, st: Pass, k: nat, j: nat, r: nat)
    requires Inv(team, t0, st) && k < |team| && Donor(team, t0, k) && j < |st.tasks| && r < |team|
    requires MovableFor(st.tasks[j], team[k].id) && Load(st.tasks, team[k].id) > team[k].capacity
    requires HasFreeSlot(st.free, team[r], team[k].id)
    ensures Inv(team, t0, MoveTask(team, st, team[k].id, j, r))
  {
    var mid := team[k].id;
    var st' := MoveTask(team, st, mid, j, r);
    MoveTaskFacts(team, t0, st, k, j, r, st');
    MoveMemberFacts(team, t0, st, k, j, r, st');
    ChangedCountUpdate(t0, st.tasks, j, st'.tasks[j]);
    var e := st'.moved[|st'.moved| - 1];
    assert e == Move(t0[j].id, t0[j].title, PreviousName(t0[j]), st'.tasks[j].assigneeName);
    forall e' | e' in st'.moved
      ensures exists x :: (0 <= x < |t0| && st'.tasks[x] != t0[x]
        && e' == Move(t0[x].id, t0[x].title, PreviousName(t0[x]), st'.tasks[x].assigneeName))
    {
      if e' in st.moved {
        var x :| 0 <= x < |t0| && st.tasks[x] != t0[x]
          && e' == Move(t0[x].id, t0[x].title, PreviousName(t0[x]), st.tasks[x].assigneeName);
        assert x != j;
        assert st'.tasks[x] == st.tasks[x];
      } else {
        assert e' == e;
      }
    }
  }

  // ----- the loops keep the invariant -----

  /** Carries the invariant across an equality of states. */
  lemma InvOfEqual(team: seq<Member>, t0: seq<Task>, a: Pass, b: Pass)
    requires Inv(team, t0, a) && a == b
    ensures Inv(team, t0, b)
  {
  }

  /** The state inside the inner loop for donor `k`: the positions not yet
      reached are untouched and `toMove` never exceeds the donor's excess. */
  predicate DrainReady(team: seq<Member>, t0: seq<Task>, k: nat, mv: seq<nat>, i: nat, toMove: int, st: Pass, st0: Pass) {
    && Inv(team, t0, st) && k < |team| && Donor(team, t0, k)
    && |st0.tasks| == |st.tasks| && mv == Movable(st0.tasks, team[k].id) && i <= |mv|
    && (forall l :: i <= l < |mv| ==> st.tasks[mv[l]] == st0.tasks[mv[l]])
    && (toMove > 0 ==> Load(st.tasks, team[k].id) - team[k].capacity >= toMove)
  }

  lemma DrainStepReady(team: seq<Member>, t0: seq<Task>, k: nat, mv: seq<nat>, i: nat, toMove: int, st: Pass, st0: Pass, r: nat)
    requires DrainReady(team, t0, k, mv, i, toMove, st, st0) && i < |mv| && toMove > 0
    requires FirstRecipient(team, st.free, team[k].id) == Some(r)
    ensures DrainReady(team, t0, k, mv, i + 1, toMove - 1, MoveTask(team, st, team[k].id, mv[i], r), st0)
  {
    var mid := team[k].id;
    var st' := MoveTask(team, st, mid, mv[i], r);
    assert MovableFor(st.tasks[mv[i]], mid);
    MoveKeepsInv(team, t0, st, k, mv[i], r);
    MoveLoads(team, st, mid, mv[i], r, st');
    forall l | i + 1 <= l < |mv| ensures st'.tasks[mv[l]] == st0.tasks[mv[l]] {
      assert mv[i] < mv[l];
    }
  }

  lemma {:induction false} DrainKeepsInv(team: seq<Member>, t0: seq<Task>, k: nat, mv: seq<nat>, i: nat, toMove: int, st: Pass, st0: Pass)
    requires DrainReady(team, t0, k, mv, i, toMove, st, st0)
    ensures Inv(team, t0, Drain(team, team[k].id, mv, i, toMove, st))
    decreases |mv| - i, 1
  {
    if i == |mv| || toMove <= 0 || FirstRecipient(team, st.free, team[k].id).None? {
      DrainStop(team, team[k].id, mv, i, toMove, st);
    } else {
      var r := FirstRecipient(team, st.free, team[k].id).value;
      DrainStepReady(team, t0, k, mv, i, toMove, st, st0, r);
      MoveThenDrainKeepsInv(team, t0, k, mv, i, toMove, st, st0, r);
    }
  }

  /** One move, then the rest of the drain: only the state after the move
      is needed here. */
  lemma {:induction false} MoveThenDrainKeepsInv(team: seq<Member>, t0: seq<Task>, k: nat, mv: seq<nat>, i: nat, toMove: int, st: Pass, st0: Pass, r: nat)
    requires k < |team| && i < |mv| && toMove > 0 && IndicesBelow(mv, |st.tasks|) && team[k].id in st.counts
    requires FirstRecipient(team, st.free, team[k].id) == Some(r)
    requires DrainReady(team, t0, k, mv, i + 1, toMove - 1, MoveTask(team, st, team[k].id, mv[i], r), st0)
    ensures Inv(team, t0, Drain(team, team[k].id, mv, i, toMove, st))
    decreases |mv| - i, 0
  {
    var st' := MoveTask(team, st, team[k].id, mv[i], r);
    DrainKeepsInv(team, t0, k, mv, i + 1, toMove - 1, st', st0);
    DrainStep(team, team[k].id, mv, i, toMove, st, r, i + 1, toMove - 1, st');
  }

  /** Only overloaded members donate: a member that was not overloaded has
      `counts == load <= capacity`. */
  lemma DonatingMeansDonor(team: seq<Member>, t0: seq<Task>, st: Pass, k: nat)
    requires Inv(team, t0, st) && k < |team|
    requires st.counts[team[k].id] - team[k].capacity > 0
    ensures Donor(team, t0, k) && st.counts[team[k].id] == Load(st.tasks, team[k].id)
  {
    assert CountMatches(team, t0, st, k);
  }

  /** An overloaded member's drain keeps the invariant. */
  lemma DonorKeepsInv(team: seq<Member>, t0: seq<Task>, k: nat, st: Pass)
    requires Inv(team, t0, st) && k < |team|
    requires st.counts[team[k].id] - team[k].capacity > 0
    ensures Inv(team, t0, Drain(team, team[k].id, Movable(st.tasks, team[k].id), 0,
                                Min(st.counts[team[k].id] - team[k].capacity, |Movable(st.tasks, team[k].id)|), st))
  {
    DonatingMeansDonor(team, t0, st, k);
    var mv := Movable(st.tasks, team[k].id);
    DrainKeepsInv(team, t0, k, mv, 0, Min(st.counts[team[k].id] - team[k].capacity, |mv|), st, st);
  }

  lemma DonateKeepsInv(team: seq<Member>, t0: seq<Task>, k: nat, st: Pass)
    requires Inv(team, t0, st) && k < |team|
    ensures Inv(team, t0, Donate(team, k, st))
  {
    var mid := team[k].id;
    var over := st.counts[mid] - team[k].capacity;
    if over > 0 {
      DonorKeepsInv(team, t0, k, st);
      var mv := Movable(st.tasks, mid);
      assert Donate(team, k, st) == Drain(team, mid, mv, 0, Min(over, |mv|), st);
    } else {
      assert Donate(team, k, st) == st;
    }
  }

  lemma {:induction false} SweepKeepsInv(team: seq<Member>, t0: seq<Task>, k: nat, st: Pass)
    requires Inv(team, t0, st) && k <= |team|
    ensures Inv(team, t0, Sweep(team, k, st))
    decreases |team| - k
  {
    if k < |team| {
      var st' := Donate(team, k, st);
      DonateKeepsInv(team, t0, k, st);
      SweepKeepsInv(team, t0, k + 1, st');
      InvOfEqual(team, t0, Sweep(team, k + 1, st'), Sweep(team, k, st));
    }
  }

  lemma StartInv(team: seq<Member>, tasks: seq<Task>)
    requires WellFormedTeam(team)
    ensures Inv(team, tasks, Start(team, tasks))
  {
    var st := Start(team, tasks);
    ChangedCountSelf(tasks);
    forall m | 0 <= m < |team| ensures FreeMatches(team, st, m) {
      CapacityOfMember(team, m);
    }
  }

  lemma RebalanceInv(team: seq<Member>, tasks: seq<Task>)
    requires WellFormedTeam(team)
    ensures Inv(team, tasks, Rebalance(team, tasks))
  {
    StartInv(team, tasks);
    SweepKeepsInv(team, tasks, 0, Start(team, tasks));
  }
}
