/** A worked run of the server's rebalancing pass: member A (capacity 2)
    holds a Low, a Medium and a High task, member B (capacity 2) holds none.
    A is one over its capacity, so exactly one task, the oldest movable one,
    goes to B; the High task stays. */
module ReassignScenario {
  import opened Common
  import opened Records
  import opened Reassign

  function ScenarioTeam(): seq<Member> {
    [Member("a", "A", "dev", 2), Member("b", "B", "dev", 2)]
  }

  function ScenarioTask(id: string, p: Priority, createdAt: nat): Task {
    Task(id, id, "", "p", Some("a"), "A", p, Pending, createdAt)
  }

  function ScenarioTasks(): seq<Task> {
    [ScenarioTask("t1", Low, 1), ScenarioTask("t2", Medium, 2), ScenarioTask("t3", High, 3)]
  }

  function Ind(b: bool): nat {
    if b then 1 else 0
  }

  lemma LoadOfThree(a: Task, b: Task, c: Task, id: string)
    ensures Load([a, b, c], id) == Ind(CountsFor(a, id)) + Ind(CountsFor(b, id)) + Ind(CountsFor(c, id))
  {
    assert [a, b, c][..2] == [a, b];
    assert [a, b][..1] == [a];
    assert [a][..0] == [];
    assert Load([a], id) == Ind(CountsFor(a, id));
    assert Load([a, b], id) == Load([a], id) + Ind(CountsFor(b, id));
  }

  lemma MovableOfThree(a: Task, b: Task, c: Task, id: string)
    ensures Movable([a, b, c], id)
         == (if MovableFor(a, id) then [0] else []) + (if MovableFor(b, id) then [1] else [])
            + (if MovableFor(c, id) then [2] else [])
  {
    assert [a, b, c][..2] == [a, b];
    assert [a, b][..1] == [a];
    assert [a][..0] == [];
    assert Movable([a], id) == if MovableFor(a, id) then [0] else [];
    assert Movable([a, b], id) == Movable([a], id) + (if MovableFor(b, id) then [1] else []);
  }

  lemma MapOfTwo(m: map<string, int>, x: string, y: string, vx: int, vy: int)
    requires m.Keys == {x, y} && x in m && y in m && m[x] == vx && m[y] == vy
    ensures m == map[x := vx, y := vy]
  {
  }

  lemma UpdateFirstOfThree(a: Task, b: Task, c: Task, x: Task)
    ensures [a, b, c][0 := x] == [x, b, c]
  {
  }

  /** The state after A's turn. */
  function ScenarioAfter(): Pass {
    var t := ScenarioTasks();
    Pass([t[0].(assignee := Some("b"), assigneeName := "B"), t[1], t[2]],
         map["a" := 2, "b" := 0], map["a" := 0, "b" := 1], [Move("t1", "t1", "A", "B")])
  }

  lemma ScenarioTeamWellFormed()
    ensures WellFormedTeam(ScenarioTeam()) && MemberIds(ScenarioTeam()) == {"a", "b"}
    ensures CapacityOf(ScenarioTeam(), "a") == 2 && CapacityOf(ScenarioTeam(), "b") == 2
  {
    var team := ScenarioTeam();
    assert IndexOf(team, "a") == 0 && IndexOf(team, "b") == 1;
    assert MemberIds(team) == {"a", "b"} by {
      assert team[0].id == "a" && team[1].id == "b";
    }
  }

  lemma ScenarioStart()
    ensures WellFormedTeam(ScenarioTeam())
    ensures Start(ScenarioTeam(), ScenarioTasks()) == Pass(ScenarioTasks(), map["a" := 3, "b" := 0], map["a" := 0, "b" := 2], [])
  {
    var team, tasks := ScenarioTeam(), ScenarioTasks();
    ScenarioTeamWellFormed();
    LoadOfThree(tasks[0], tasks[1], tasks[2], "a");
    LoadOfThree(tasks[0], tasks[1], tasks[2], "b");
    assert tasks == [tasks[0], tasks[1], tasks[2]];
    MapOfTwo(InitialCounts(team, tasks), "a", "b", 3, 0);
    MapOfTwo(InitialFree(team, tasks), "a", "b", 0, 2);
  }

  /** A's movable list is t1, t2, and B is the first member with room. */
  lemma ScenarioChoices()
    ensures WellFormedTeam(ScenarioTeam())
    ensures Movable(ScenarioTasks(), "a") == [0, 1]
    ensures FirstRecipient(ScenarioTeam(), Start(ScenarioTeam(), ScenarioTasks()).free, "a") == Some(1)
  {
    var team, tasks := ScenarioTeam(), ScenarioTasks();
    ScenarioStart();
    MovableOfThree(tasks[0], tasks[1], tasks[2], "a");
    assert tasks == [tasks[0], tasks[1], tasks[2]];
    var free := Start(team, tasks).free;
    assert FirstRecipientFrom(team, free, "a", 1) == Some(1);
  }

  /** Moving t1 to B gives the state after A's turn. */
  lemma ScenarioMove()
    ensures WellFormedTeam(ScenarioTeam()) && MemberIds(ScenarioTeam()) == {"a", "b"}
    ensures MoveTask(ScenarioTeam(), Start(ScenarioTeam(), ScenarioTasks()), "a", 0, 1) == ScenarioAfter()
  {
    var team, tasks := ScenarioTeam(), ScenarioTasks();
    ScenarioTeamWellFormed();
    ScenarioStart();
    var st1 := MoveTask(team, Start(team, tasks), "a", 0, 1);
    MapOfTwo(st1.counts, "a", "b", 2, 0);
    MapOfTwo(st1.free, "a", "b", 0, 1);
    assert PreviousName(tasks[0]) == "A";
    assert st1.moved == ScenarioAfter().moved;
    UpdateFirstOfThree(tasks[0], tasks[1], tasks[2], tasks[0].(assignee := Some("b"), assigneeName := "B"));
    assert st1.tasks == ScenarioAfter().tasks;
  }

  /** A is 1 over: one move, to B. */
  lemma ScenarioFirstTurn()
    requires WellFormedTeam(ScenarioTeam())
    ensures Donate(ScenarioTeam(), 0, Start(ScenarioTeam(), ScenarioTasks())) == ScenarioAfter()
  {
    var team, tasks := ScenarioTeam(), ScenarioTasks();
    ScenarioStart();
    ScenarioChoices();
    ScenarioMove();
    var st1 := ScenarioAfter();
    assert Drain(team, "a", [0, 1], 1, 0, st1) == st1;
  }

  /** `over` is 1, so only `t1` moves, to B, with one move entry; A stays at
      its capacity and B takes one task. */
  lemma ScenarioMovesOldestOnly()
    ensures WellFormedTeam(ScenarioTeam())
    ensures var r := Rebalance(ScenarioTeam(), ScenarioTasks());
            && r.tasks == [ScenarioTasks()[0].(assignee := Some("b"), assigneeName := "B"), ScenarioTasks()[1], ScenarioTasks()[2]]
            && r.moved == [Move("t1", "t1", "A", "B")]
            && Load(r.tasks, "a") == 2 && Load(r.tasks, "b") == 1
  {
    var team, tasks := ScenarioTeam(), ScenarioTasks();
    ScenarioStart();
    ScenarioFirstTurn();
    var st1 := ScenarioAfter();
    assert Donate(team, 1, st1) == st1;
    assert Sweep(team, 2, st1) == st1;
    assert Rebalance(team, tasks) == st1;
    var t := st1.tasks;
    assert t == [t[0], t[1], t[2]];
    LoadOfThree(t[0], t[1], t[2], "a");
    LoadOfThree(t[0], t[1], t[2], "b");
  }
}
