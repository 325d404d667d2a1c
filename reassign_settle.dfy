/** What the server's rebalancing pass leaves behind: every member that ends
    over capacity has no movable task left or nobody else with room, so a
    second pass moves nothing; a team without overloaded members is left as
    it is; each donor gives away its movable tasks in list order (oldest
    first, as the query sorts them); free slots never grow. */
module ReassignSettle {
  import opened Common
  import opened Records
  import opened Reassign
  import opened ReassignProofs

  // ----- the outcome, stated on tasks alone -----

  /** Every member over capacity either has no movable task left or no other
      member of the team is below capacity. */
  predicate Settled(team: seq<Member>, tasks: seq<Task>) {
    forall d :: 0 <= d < |team| && Load(tasks, team[d].id) > team[d].capacity ==>
      Movable(tasks, team[d].id) == []
      || forall r :: 0 <= r < |team| && r != d ==> Load(tasks, team[r].id) >= team[r].capacity
  }

  // ----- the invariant of the outer loop -----

  /** No member other than `d` has a free slot. */
  predicate NoRoom(team: seq<Member>, st: Pass, d: nat) {
    forall r :: 0 <= r < |team| && r != d && team[r].id in st.free ==> st.free[team[r].id] <= 0
  }

  /** Donor `d` is done: back at capacity, out of movable tasks, or left
      with nobody to give to. */
  predicate Resolved(team: seq<Member>, st: Pass, d: nat)
    requires d < |team|
  {
    Load(st.tasks, team[d].id) <= team[d].capacity || Movable(st.tasks, team[d].id) == [] || NoRoom(team, st, d)
  }

  /** Among the movable tasks of `id` at the start, a changed one is preceded
      only by changed ones. */
  predicate PrefixMoved(t0: seq<Task>, st: Pass, id: string)
    requires |st.tasks| == |t0|
  {
    var mv := Movable(t0, id);
    forall l, l' :: 0 <= l < l' < |mv| && st.tasks[mv[l']] != t0[mv[l']] ==> st.tasks[mv[l]] != t0[mv[l]]
  }

  /** The task starts with an assignee that is not one of the first `k` members. */
  predicate Later(team: seq<Member>, t: Task, k: nat) {
    t.assignee.Some? && IndexOf(team, t.assignee.value) >= k
  }

  /** The tasks of members from position `k` on are untouched. */
  predicate Untouched(team: seq<Member>, t0: seq<Task>, k: nat, st: Pass)
    requires |st.tasks| == |t0|
  {
    forall x :: 0 <= x < |t0| && Later(team, t0[x], k) ==> st.tasks[x] == t0[x]
  }

  /** The donors among the first `k` members are resolved and gave away a prefix. */
  predicate Done(team: seq<Member>, t0: seq<Task>, k: nat, st: Pass)
    requires k <= |team| && |st.tasks| == |t0|
  {
    forall d :: 0 <= d < k && Donor(team, t0, d) ==> Resolved(team, st, d) && PrefixMoved(t0, st, team[d].id)
  }

  predicate SettleInv(team: seq<Member>, t0: seq<Task>, k: nat, st: Pass) {
    && Inv(team, t0, st) && k <= |team|
    && Untouched(team, t0, k, st)
    && Done(team, t0, k, st)
  }

  // ----- facts about single moves -----

  lemma {:induction false} MovableSame(a: seq<Task>, b: seq<Task>, id: string)
    requires |a| == |b|
    requires forall x :: 0 <= x < |a| ==> (MovableFor(a[x], id) <==> MovableFor(b[x], id))
    ensures Movable(a, id) == Movable(b, id)
  {
    if a != [] {
      var n := |a| - 1;
      assert forall x :: 0 <= x < n ==> a[..n][x] == a[x] && b[..n][x] == b[x];
      MovableSame(a[..n], b[..n], id);
    }
  }

  /** A move by donor `k` leaves every other donor's load and movable list as they were. */
  lemma MoveSparesOthers(team: seq<Member>, t0: seq<Task>, st: Pass, k: nat, x: nat, r: nat, d: nat)
    requires Inv(team, t0, st) && k < |team| && Donor(team, t0, k) && x < |st.tasks| && r < |team|
    requires MovableFor(st.tasks[x], team[k].id) && HasFreeSlot(st.free, team[r], team[k].id)
    requires d < |team| && d != k && Donor(team, t0, d)
    ensures var st' := MoveTask(team, st, team[k].id, x, r);
            && Load(st'.tasks, team[d].id) == Load(st.tasks, team[d].id)
            && Movable(st'.tasks, team[d].id) == Movable(st.tasks, team[d].id)
  {
    var mid := team[k].id;
    var st' := MoveTask(team, st, mid, x, r);
    RecipientNotDonor(team, t0, st, mid, r);
    assert team[d].id != mid && team[d].id != team[r].id;
    MoveLoads(team, st, mid, x, r, st');
    MovableSame(st'.tasks, st.tasks, team[d].id);
  }

  /** A move keeps every resolved donor other than the giver resolved: free
      slots only go down. */
  lemma MoveKeepsResolved(team: seq<Member>, t0: seq<Task>, st: Pass, k: nat, x: nat, r: nat, d: nat)
    requires Inv(team, t0, st) && k < |team| && Donor(team, t0, k) && x < |st.tasks| && r < |team|
    requires MovableFor(st.tasks[x], team[k].id) && HasFreeSlot(st.free, team[r], team[k].id)
    requires d < |team| && d != k && Donor(team, t0, d) && Resolved(team, st, d)
    ensures Resolved(team, MoveTask(team, st, team[k].id, x, r), d)
  {
    var st' := MoveTask(team, st, team[k].id, x, r);
    MoveSparesOthers(team, t0, st, k, x, r, d);
    assert forall id :: id in st'.free ==> id in st.free && st'.free[id] <= st.free[id];
  }

  /** One move by donor `k` of an untouched task keeps the outer invariant
      for the donors before `k`. */
  lemma MovePreserves(team: seq<Member>, t0: seq<Task>, st: Pass, k: nat, x: nat, r: nat)
    requires Inv(team, t0, st) && k < |team| && Donor(team, t0, k) && x < |st.tasks| && r < |team|
    requires st.tasks[x] == t0[x] && MovableFor(t0[x], team[k].id)
    requires Load(st.tasks, team[k].id) > team[k].capacity
    requires HasFreeSlot(st.free, team[r], team[k].id)
    requires Untouched(team, t0, k + 1, st) && Done(team, t0, k, st)
    ensures var st' := MoveTask(team, st, team[k].id, x, r);
            && Untouched(team, t0, k + 1, st') && Done(team, t0, k, st')
            && r != k && st'.tasks[x].assignee == Some(team[r].id)
            && (forall y :: 0 <= y < |st.tasks| && y != x ==> st'.tasks[y] == st.tasks[y])
  {
    var mid := team[k].id;
    RecipientNotDonor(team, t0, st, mid, r);
    assert IndexOf(team, mid) == k;
    MoveKeepsDone(team, t0, st, k, x, r);
  }

  lemma MoveKeepsDone(team: seq<Member>, t0: seq<Task>, st: Pass, k: nat, x: nat, r: nat)
    requires Inv(team, t0, st) && k < |team| && Donor(team, t0, k) && x < |st.tasks| && r < |team|
    requires st.tasks[x] == t0[x] && MovableFor(t0[x], team[k].id)
    requires HasFreeSlot(st.free, team[r], team[k].id)
    requires Done(team, t0, k, st)
    ensures Done(team, t0, k, MoveTask(team, st, team[k].id, x, r))
  {
    var st' := MoveTask(team, st, team[k].id, x, r);
    forall d | 0 <= d < k && Donor(team, t0, d)
      ensures Resolved(team, st', d) && PrefixMoved(t0, st', team[d].id)
    {
      MoveKeepsResolved(team, t0, st, k, x, r, d);
      var mv := Movable(t0, team[d].id);
      forall l | 0 <= l < |mv| ensures st'.tasks[mv[l]] == st.tasks[mv[l]] {
        assert t0[mv[l]].assignee == Some(team[d].id);
      }
    }
  }

  // ----- the inner loop -----

  /** The state inside donor `k`'s drain: the positions `mv[..i]` have gone
      to other members, the rest are untouched, and `toMove` and the load
      went down by one per move. */
  predicate Draining(team: seq<Member>, t0: seq<Task>, k: nat, mv: seq<nat>, i: nat, toMove: int, toMove0: int, st: Pass, st0: Pass) {
    && DrainReady(team, t0, k, mv, i, toMove, st, st0)
    && mv == Movable(t0, team[k].id)
    && Untouched(team, t0, k + 1, st) && Done(team, t0, k, st)
    && (forall l :: 0 <= l < i ==> st.tasks[mv[l]].assignee != Some(team[k].id))
    && (forall l :: i <= l < |mv| ==> st.tasks[mv[l]] == t0[mv[l]])
    && 0 <= toMove && toMove + i == toMove0
    && toMove0 == Min(Load(st0.tasks, team[k].id) - team[k].capacity, |mv|)
    && Load(st.tasks, team[k].id) + i == Load(st0.tasks, team[k].id)
  }

  lemma DrainingStep(team: seq<Member>, t0: seq<Task>, k: nat, mv: seq<nat>, i: nat, toMove: int, toMove0: int, st: Pass, st0: Pass, r: nat)
    requires Draining(team, t0, k, mv, i, toMove, toMove0, st, st0) && i < |mv| && toMove > 0
    requires FirstRecipient(team, st.free, team[k].id) == Some(r)
    ensures Draining(team, t0, k, mv, i + 1, toMove - 1, toMove0, MoveTask(team, st, team[k].id, mv[i], r), st0)
  {
    var mid := team[k].id;
    var x := mv[i];
    var st' := MoveTask(team, st, mid, x, r);
    DrainStepReady(team, t0, k, mv, i, toMove, st, st0, r);
    MovePreserves(team, t0, st, k, x, r);
    MoveLoads(team, st, mid, x, r, st');
    assert team[r].id != mid;
    PositionsStep(mv, i, st.tasks, st'.tasks, t0, mid, team[r].id);
  }

  /** The drain's record of which movable positions have gone, one step on. */
  lemma PositionsStep(mv: seq<nat>, i: nat, a: seq<Task>, b: seq<Task>, t0: seq<Task>, id: string, newId: string)
    requires i < |mv| && |a| == |b| == |t0| && IndicesBelow(mv, |a|)
    requires forall l, l' :: 0 <= l < l' < |mv| ==> mv[l] < mv[l']
    requires forall l :: 0 <= l < i ==> a[mv[l]].assignee != Some(id)
    requires forall l :: i <= l < |mv| ==> a[mv[l]] == t0[mv[l]]
    requires b[mv[i]].assignee == Some(newId) && newId != id
    requires forall y :: 0 <= y < |a| && y != mv[i] ==> b[y] == a[y]
    ensures forall l :: 0 <= l < i + 1 ==> b[mv[l]].assignee != Some(id)
    ensures forall l :: i + 1 <= l < |mv| ==> b[mv[l]] == t0[mv[l]]
  {
    forall l | 0 <= l < |mv| && l != i ensures b[mv[l]] == a[mv[l]] {
      assert mv[l] != mv[i];
    }
  }

  /** When the drain stops, donor `k` is resolved and has given away a prefix. */
  lemma DrainingEnd(team: seq<Member>, t0: seq<Task>, k: nat, mv: seq<nat>, i: nat, toMove: int, toMove0: int, st: Pass, st0: Pass)
    requires Draining(team, t0, k, mv, i, toMove, toMove0, st, st0)
    requires i == |mv| || toMove <= 0 || FirstRecipient(team, st.free, team[k].id).None?
    ensures SettleInv(team, t0, k + 1, st)
  {
    var id := team[k].id;
    assert PrefixMoved(t0, st, id) by {
      forall l, l' | 0 <= l < l' < |mv| && st.tasks[mv[l']] != t0[mv[l']] ensures st.tasks[mv[l]] != t0[mv[l]] {
        assert t0[mv[l]].assignee == Some(id);
      }
    }
    if FirstRecipient(team, st.free, id).None? {
      forall r | 0 <= r < |team| && r != k && team[r].id in st.free ensures st.free[team[r].id] <= 0 {
        assert !HasFreeSlot(st.free, team[r], id);
        assert IndexOf(team, team[r].id) == r;
      }
      assert NoRoom(team, st, k);
    } else if i == |mv| {
      GaveAll(team, t0, k, mv, i, toMove, toMove0, st, st0);
    } else {
      assert Load(st.tasks, id) <= team[k].capacity;
    }
  }

  /** A drain that reached the end of its list leaves the donor nothing movable. */
  lemma GaveAll(team: seq<Member>, t0: seq<Task>, k: nat, mv: seq<nat>, i: nat, toMove: int, toMove0: int, st: Pass, st0: Pass)
    requires Draining(team, t0, k, mv, i, toMove, toMove0, st, st0) && i == |mv|
    ensures Movable(st.tasks, team[k].id) == []
  {
    var id := team[k].id;
    var now := Movable(st.tasks, id);
    if now != [] {
      var x := now[0];
      ChangedNotAtDonor(team, t0, st, x, k);
      MovableComplete(t0, id, x);
      assert false;
    }
  }

  lemma {:induction false} DrainSettles(team: seq<Member>, t0: seq<Task>, k: nat, mv: seq<nat>, i: nat, toMove: int, toMove0: int, st: Pass, st0: Pass)
    requires Draining(team, t0, k, mv, i, toMove, toMove0, st, st0)
    ensures SettleInv(team, t0, k + 1, Drain(team, team[k].id, mv, i, toMove, st))
    decreases |mv| - i, 1
  {
    var mid := team[k].id;
    if i == |mv| || toMove <= 0 || FirstRecipient(team, st.free, mid).None? {
      DrainingEnd(team, t0, k, mv, i, toMove, toMove0, st, st0);
      DrainStop(team, mid, mv, i, toMove, st);
      SettleInvOfEqual(team, t0, k + 1, st, Drain(team, mid, mv, i, toMove, st));
    } else {
      var r := FirstRecipient(team, st.free, mid).value;
      DrainingStep(team, t0, k, mv, i, toMove, toMove0, st, st0, r);
      MoveThenDrainSettles(team, t0, k, mv, i, toMove, toMove0, st, st0, r);
    }
  }

  /** One move, then the rest of the drain: only the state after the move
      is needed here. */
  lemma {:induction false} MoveThenDrainSettles(team: seq<Member>, t0: seq<Task>, k: nat, mv: seq<nat>, i: nat, toMove: int, toMove0: int,
                                                st: Pass, st0: Pass, r: nat)
    requires k < |team| && i < |mv| && toMove > 0 && IndicesBelow(mv, |st.tasks|) && team[k].id in st.counts
    requires FirstRecipient(team, st.free, team[k].id) == Some(r)
    requires Draining(team, t0, k, mv, i + 1, toMove - 1, toMove0, MoveTask(team, st, team[k].id, mv[i], r), st0)
    ensures SettleInv(team, t0, k + 1, Drain(team, team[k].id, mv, i, toMove, st))
    decreases |mv| - i, 0
  {
    var mid := team[k].id;
    var st' := MoveTask(team, st, mid, mv[i], r);
    DrainSettles(team, t0, k, mv, i + 1, toMove - 1, toMove0, st', st0);
    DrainStep(team, mid, mv, i, toMove, st, r, i + 1, toMove - 1, st');
    SettleInvOfEqual(team, t0, k + 1, Drain(team, mid, mv, i + 1, toMove - 1, st'), Drain(team, mid, mv, i, toMove, st));
  }

  /** Carries the invariant across an equality of states. */
  lemma SettleInvOfEqual(team: seq<Member>, t0: seq<Task>, k: nat, a: Pass, b: Pass)
    requires SettleInv(team, t0, k, a) && a == b
    ensures SettleInv(team, t0, k, b)
  {
  }

  // ----- the outer loop -----

  /** At its turn a donor's tasks are as they were at the start. */
  lemma MovableAtTurn(team: seq<Member>, t0: seq<Task>, k: nat, st: Pass)
    requires SettleInv(team, t0, k, st) && k < |team| && Donor(team, t0, k)
    ensures Movable(st.tasks, team[k].id) == Movable(t0, team[k].id)
    ensures forall l :: 0 <= l < |Movable(t0, team[k].id)| ==>
              st.tasks[Movable(t0, team[k].id)[l]] == t0[Movable(t0, team[k].id)[l]]
  {
    var id := team[k].id;
    assert IndexOf(team, id) == k;
    forall x | 0 <= x < |t0| ensures MovableFor(st.tasks[x], id) <==> MovableFor(t0[x], id) {
      if st.tasks[x] != t0[x] {
        assert MovedFromDonor(team, t0, t0[x], st.tasks[x]);
        var r :| 0 <= r < |team| && !Donor(team, t0, r) && st.tasks[x].assignee == Some(team[r].id);
        assert IndexOf(team, team[r].id) == r;
      }
    }
    MovableSame(st.tasks, t0, id);
  }

  /** A member that does not donate at its turn: if it was overloaded at the
      start it is no longer, and none of its tasks has moved. */
  lemma NotDonatingSettles(team: seq<Member>, t0: seq<Task>, k: nat, st: Pass)
    requires SettleInv(team, t0, k, st) && k < |team|
    requires st.counts[team[k].id] - team[k].capacity <= 0
    ensures SettleInv(team, t0, k + 1, st)
  {
    var id := team[k].id;
    assert CountMatches(team, t0, st, k);
    assert IndexOf(team, id) == k;
    var mv := Movable(t0, id);
    forall l | 0 <= l < |mv| ensures st.tasks[mv[l]] == t0[mv[l]] {
      assert Later(team, t0[mv[l]], k);
    }
  }

  lemma DonateSettles(team: seq<Member>, t0: seq<Task>, k: nat, st: Pass)
    requires SettleInv(team, t0, k, st) && k < |team|
    ensures SettleInv(team, t0, k + 1, Donate(team, k, st))
  {
    if st.counts[team[k].id] - team[k].capacity > 0 {
      DonatingSettles(team, t0, k, st);
    } else {
      NotDonatingSettles(team, t0, k, st);
      assert Donate(team, k, st) == st;
    }
  }

  /** A member over capacity at its turn drains its movable list. */
  lemma DonatingSettles(team: seq<Member>, t0: seq<Task>, k: nat, st: Pass)
    requires SettleInv(team, t0, k, st) && k < |team|
    requires st.counts[team[k].id] - team[k].capacity > 0
    ensures SettleInv(team, t0, k + 1, Donate(team, k, st))
  {
    var mid := team[k].id;
    var mv := Movable(st.tasks, mid);
    var toMove0 := Min(st.counts[mid] - team[k].capacity, |mv|);
    StartDraining(team, t0, k, st);
    DrainSettles(team, t0, k, mv, 0, toMove0, toMove0, st, st);
    SettleInvOfEqual(team, t0, k + 1, Drain(team, mid, mv, 0, toMove0, st), Donate(team, k, st));
  }

  /** The drain's invariant holds before its first move. */
  lemma StartDraining(team: seq<Member>, t0: seq<Task>, k: nat, st: Pass)
    requires SettleInv(team, t0, k, st) && k < |team|
    requires st.counts[team[k].id] - team[k].capacity > 0
    ensures var mv := Movable(st.tasks, team[k].id);
            var toMove0 := Min(st.counts[team[k].id] - team[k].capacity, |mv|);
            Draining(team, t0, k, mv, 0, toMove0, toMove0, st, st)
  {
    DonatingMeansDonor(team, t0, st, k);
    MovableAtTurn(team, t0, k, st);
  }

  lemma {:induction false} SweepSettles(team: seq<Member>, t0: seq<Task>, k: nat, st: Pass)
    requires SettleInv(team, t0, k, st)
    ensures SettleInv(team, t0, |team|, Sweep(team, k, st))
    decreases |team| - k
  {
    if k < |team| {
      DonateSettles(team, t0, k, st);
      SweepSettles(team, t0, k + 1, Donate(team, k, st));
    }
  }

  lemma RebalanceSettleInv(team: seq<Member>, tasks: seq<Task>)
    requires WellFormedTeam(team)
    ensures SettleInv(team, tasks, |team|, Rebalance(team, tasks))
  {
    StartInv(team, tasks);
    SweepSettles(team, tasks, 0, Start(team, tasks));
  }

  // ----- the properties -----

  /** After the pass the team is settled: a member still over capacity has
      only High tasks left or nobody else below capacity. */
  lemma RebalanceSettles(team: seq<Member>, tasks: seq<Task>)
    requires WellFormedTeam(team)
    ensures Settled(team, Rebalance(team, tasks).tasks)
  {
    var st := Rebalance(team, tasks);
    RebalanceSettleInv(team, tasks);
    forall d | 0 <= d < |team| && Load(st.tasks, team[d].id) > team[d].capacity
      ensures Movable(st.tasks, team[d].id) == []
              || forall r :: 0 <= r < |team| && r != d ==> Load(st.tasks, team[r].id) >= team[r].capacity
    {
      assert LoadBounds(team, tasks, st, d);
      assert Resolved(team, st, d);
      if Movable(st.tasks, team[d].id) != [] {
        forall r | 0 <= r < |team| && r != d ensures Load(st.tasks, team[r].id) >= team[r].capacity {
          assert FreeMatches(team, st, r);
        }
      }
    }
  }

  /** On a settled team no member's turn changes anything. */
  lemma DonateStays(team: seq<Member>, tasks: seq<Task>, k: nat)
    requires WellFormedTeam(team) && Settled(team, tasks) && k < |team|
    ensures Donate(team, k, Start(team, tasks)) == Start(team, tasks)
  {
    var st := Start(team, tasks);
    var mid := team[k].id;
    var over := st.counts[mid] - team[k].capacity;
    if over > 0 {
      var mv := Movable(tasks, mid);
      if mv != [] {
        var rec := FirstRecipient(team, st.free, mid);
        if rec.Some? {
          var r := rec.value;
          CapacityOfMember(team, r);
          assert false;
        }
      }
      assert Donate(team, k, st) == Drain(team, mid, mv, 0, Min(over, |mv|), st);
    }
  }

  lemma {:induction false} SweepStays(team: seq<Member>, tasks: seq<Task>, k: nat)
    requires WellFormedTeam(team) && Settled(team, tasks) && k <= |team|
    ensures Sweep(team, k, Start(team, tasks)) == Start(team, tasks)
    decreases |team| - k
  {
    if k < |team| {
      DonateStays(team, tasks, k);
      SweepStays(team, tasks, k + 1);
    }
  }

  /** A settled team is a fixed point: the pass changes no task and moves nothing. */
  lemma SettledFixpoint(team: seq<Member>, tasks: seq<Task>)
    requires WellFormedTeam(team) && Settled(team, tasks)
    ensures Rebalance(team, tasks).tasks == tasks && Rebalance(team, tasks).moved == []
  {
    SweepStays(team, tasks, 0);
  }

  /** Running the pass a second time, with no change in between, moves nothing. */
  lemma RebalanceIdempotent(team: seq<Member>, tasks: seq<Task>)
    requires WellFormedTeam(team)
    ensures var once := Rebalance(team, tasks).tasks;
            Rebalance(team, once).tasks == once && Rebalance(team, once).moved == []
  {
    RebalanceSettles(team, tasks);
    SettledFixpoint(team, Rebalance(team, tasks).tasks);
  }

  /** A team with no member over capacity is left as it is: no task changes
      and the move list is empty. */
  lemma NoOverloadNoMoves(team: seq<Member>, tasks: seq<Task>)
    requires WellFormedTeam(team)
    requires forall m :: 0 <= m < |team| ==> Load(tasks, team[m].id) <= team[m].capacity
    ensures Rebalance(team, tasks).tasks == tasks && Rebalance(team, tasks).moved == []
  {
    SettledFixpoint(team, tasks);
  }

  /** A member's movable tasks leave in list order: when one moves, every
      movable task of the same member earlier in the list (with the query's
      sort, every older one) has moved too. */
  lemma MovesOldestFirst(team: seq<Member>, tasks: seq<Task>, d: nat, y: nat, x: nat)
    requires WellFormedTeam(team) && d < |team| && y < x < |tasks|
    requires MovableFor(tasks[x], team[d].id) && MovableFor(tasks[y], team[d].id)
    requires Rebalance(team, tasks).tasks[x] != tasks[x]
    ensures Rebalance(team, tasks).tasks[y] != tasks[y]
  {
    ChangedMeansDonor(team, tasks, d, x);
    DonorGavePrefix(team, tasks, d);
    PrefixOrder(tasks, Rebalance(team, tasks), team[d].id, y, x);
  }

  /** Read back on task positions: a changed movable task is preceded only
      by changed movable ones. */
  lemma PrefixOrder(t0: seq<Task>, st: Pass, id: string, y: nat, x: nat)
    requires |st.tasks| == |t0| && y < x < |t0| && PrefixMoved(t0, st, id)
    requires MovableFor(t0[x], id) && MovableFor(t0[y], id) && st.tasks[x] != t0[x]
    ensures st.tasks[y] != t0[y]
  {
    var mv := Movable(t0, id);
    MovableComplete(t0, id, x);
    MovableComplete(t0, id, y);
    var l :| 0 <= l < |mv| && mv[l] == y;
    var l' :| 0 <= l' < |mv| && mv[l'] == x;
    assert l < l';
  }

  /** A task movable for member `d` changes only if `d` was a donor. */
  lemma ChangedMeansDonor(team: seq<Member>, tasks: seq<Task>, d: nat, x: nat)
    requires WellFormedTeam(team) && d < |team| && x < |tasks|
    requires MovableFor(tasks[x], team[d].id)
    requires Rebalance(team, tasks).tasks[x] != tasks[x]
    ensures Donor(team, tasks, d)
  {
    var st := Rebalance(team, tasks);
    RebalanceInv(team, tasks);
    assert MovedFromDonor(team, tasks, tasks[x], st.tasks[x]);
    var dd :| 0 <= dd < |team| && Donor(team, tasks, dd) && tasks[x].assignee == Some(team[dd].id);
    SameId(team, d, dd);
  }

  /** A donor has given away a prefix of its movable tasks. */
  lemma DonorGavePrefix(team: seq<Member>, tasks: seq<Task>, d: nat)
    requires WellFormedTeam(team) && d < |team| && Donor(team, tasks, d)
    ensures PrefixMoved(tasks, Rebalance(team, tasks), team[d].id)
  {
    RebalanceSettleInv(team, tasks);
  }

  /** With the query's sort by `createdAt`, a moved task's owner has also
      given away every strictly older movable task. */
  lemma MovesOldestByDate(team: seq<Member>, tasks: seq<Task>, d: nat, y: nat, x: nat)
    requires WellFormedTeam(team) && d < |team| && x < |tasks| && y < |tasks|
    requires forall i, j :: 0 <= i < j < |tasks| ==> tasks[i].createdAt <= tasks[j].createdAt
    requires MovableFor(tasks[x], team[d].id) && MovableFor(tasks[y], team[d].id)
    requires tasks[y].createdAt < tasks[x].createdAt
    requires Rebalance(team, tasks).tasks[x] != tasks[x]
    ensures Rebalance(team, tasks).tasks[y] != tasks[y]
  {
    assert y < x;
    MovesOldestFirst(team, tasks, d, y, x);
  }

  /** `freeSlots` only shrinks: after the pass every member has no more free
      slots than it started with, and never a negative number. */
  lemma FreeSlotsOnlyShrink(team: seq<Member>, tasks: seq<Task>, m: nat)
    requires WellFormedTeam(team) && m < |team|
    ensures var f := Rebalance(team, tasks).free;
            team[m].id in f && 0 <= f[team[m].id] <= InitialFree(team, tasks)[team[m].id]
  {
    var st := Rebalance(team, tasks);
    RebalanceInv(team, tasks);
    assert FreeMatches(team, st, m) && LoadBounds(team, tasks, st, m);
    CapacityOfMember(team, m);
  }
}
