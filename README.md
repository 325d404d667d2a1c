# Capacity-aware task assignment and rebalancing, in Dafny

This project models the workload engine of a small task manager. Teams have
members, and each member has a capacity. Tasks belong to projects, projects
belong to teams, and a task has a priority (Low, Medium, High), a status
(Pending, In Progress, Done) and an assignee.

The engine exists twice:

- **On the server.** `reassignForTeam` counts every member's active tasks.
  It then walks the members in team order. Each member over capacity hands
  its movable tasks (active, not High), oldest first, to the first other
  member that still has a free slot. Around it, the task controller:
  - counts loads (`countTasksForTeam`);
  - validates and warns on `createTask` and `updateTask`;
  - recommends an assignee (`autoAssign`);
  - runs the rebalancer for every team (`reassignTasks`).
  An in-memory activity log keeps the 20 newest entries and serves 10. The
  dashboard reports per-member loads and an `overloaded` flag.
- **On the client.** The state store (`AppContext`) keeps a `currentTasks`
  counter per member and updates it as tasks are added, updated and deleted.
  Its own `reassignTasks` rebalances on those counters and keeps a log of
  ten entries. The task page shows a capacity warning, auto-picks a member
  and filters the task list.

How each part is modelled:

- **Loops become methods.** The loops of the source are Dafny methods whose
  loop invariants tie each step to a tail-recursive specification function.
  For example, `Reassign.ReassignForTeam` computes exactly
  `Reassign.Rebalance`, and `ClientReassign.ReassignTasks` computes exactly
  `ClientReassign.Rebalanced`.
- **Guarantees are lemmas.** What the passes guarantee is proved about the
  specification functions:
  - capacity bounds;
  - High tasks are never moved;
  - one log entry per move;
  - settledness, idempotence and oldest-first order for the server pass;
  - counter sums for the client pass.
- **Other server code** (the controller decisions and the dashboard) is
  modelled as functions that return outcome datatypes in place of HTTP
  responses.
- **The client store** is modelled as functions from the state before a
  handler to the state React holds after it, plus the imperative
  `reassignTasks`.
- **The in-memory activity log** is a class with a `seq` field.

Modelling decisions:

- **Names of ids and fields.**
  - Mongo's `_id` is modelled as `id`.
  - `assignedMemberId` and `assignedMemberName` are modelled as `assignee`
    and `assigneeName` (the client's `assignedTo` stays `assignedTo`).
  - An absent assignee is `None`.
- **Team members.** Members of a team have distinct, non-empty ids
  (`Records.WellFormedTeam`), as generated sub-document ids do.
- **Task order.** The server pass receives the team's tasks in the order of
  its database query (sorted by `createdAt`). The model takes them in list
  order. `MovesOldestByDate` restates the ordering result for a list sorted
  by `createdAt`. The query's status filter is applied inside the pass.
- **Values from the environment become parameters.** Generated ids,
  creation times, the activity time stamp (`stamp`, `now`) and the acting
  user (`userId`) are passed in.
- **The client's sort.** The client sorts with
  `a.priority === 'Low' ? -1 : 1`. That comparator is not consistent (two
  Low tasks each compare below the other), so the order it produces is the
  JavaScript engine's choice. The model takes the sort as a parameter
  `sort`, and the client lemmas hold for every `sort` that permutes its
  input (`Permutes`). `LowsFirst` (Low tasks, then Medium, each in list
  order) is one such order. It is not claimed to be the order of any
  particular engine.
- **Distinct task ids on the client.** The client passes require distinct
  task ids (`UniqueTaskIds`), because they look tasks up by id.

What the code does, stated where it is easy to misread:

- **How the recipient is chosen.** Both rebalancers give each task to the
  first member in team order that has room, not to the least-loaded one
  (`server/utils/reassign.js:39`, `src/contexts/AppContext.tsx:182-184`).
- **The order of movable tasks.** The server takes a donor's movable tasks
  in `createdAt` order only; priority plays no part beyond excluding High.
- **How many tasks move.** A donor gives away at most `min(over, movable)`
  tasks. With A at capacity 2 holding a Low, a Medium and a High task and B
  empty, only the Low task moves, and A ends at its capacity
  (`ReassignScenario.ScenarioMovesOldestOnly`).
- **What the pass achieves.** It need not bring every member down to its
  capacity. It guarantees only that every member still over capacity has no
  movable task left, or that no other member is below capacity
  (`ReassignSettle.RebalanceSettles`).

## Model

| member | source | states |
|---|---|---|
| Reassign.CountMembers | server/utils/reassign.js:16-22 | every team member's count is its number of Pending/In Progress tasks; tasks of non-members and Done tasks are not counted |
| Reassign.FreeSlots | server/utils/reassign.js:25-26 | every member's free slots are `max(0, capacity - count)` |
| Reassign.Movable | server/utils/reassign.js:35 | the movable list holds, in list order, only active non-High tasks of the donor |
| Reassign.MovableComplete | server/utils/reassign.js:35 | every active non-High task of the donor is on its movable list |
| Reassign.FirstRecipient | server/utils/reassign.js:39 | the recipient is the first member in team order, other than the donor, with a free slot above 0; None exactly when no member qualifies |
| Reassign.DrainStop | server/utils/reassign.js:36-40 | the donor's loop changes nothing once `toMove` is used up, the list is exhausted or no recipient exists |
| Reassign.ActivitiesFor | server/utils/reassign.js:50-51 | one activity per move, in move order, with the reassignment message |
| Reassign.ApplyMove | server/utils/reassign.js:42-56 | one iteration: the task goes to the recipient under its name, the donor's count and the recipient's free slots drop by one, one move entry is appended |
| Reassign.DrainDonor | server/utils/reassign.js:35-57 | the inner loop moves the first `min(over, movable.length)` movable tasks while recipients exist |
| Reassign.ReassignForTeam | server/utils/reassign.js:4-62 | the loop program returns exactly the tasks and the move list of the pass, and one activity per move |
| ReassignProofs.RebalanceInv | server/utils/reassign.js:4-62 | after the pass: only assignees change, each from an overloaded member to a member that was not overloaded; a High task is never moved; `counts` and `freeSlots` stay exact; a donor ends between its capacity and its start load, so it gives away at most `over` tasks; a recipient never rises above its capacity and never loses tasks; one move entry per changed task, each describing that change |
| ReassignProofs.RecipientNotDonor | server/utils/reassign.js:39 | a member with a free slot is below capacity and was not overloaded, so a donor never receives |
| ReassignSettle.RebalanceSettles | server/utils/reassign.js:30-57 | after the pass a member still over capacity has no movable task left, or every other member is at or above capacity |
| ReassignSettle.SettledFixpoint | server/utils/reassign.js:26-61 | on a settled team the pass changes no task and records no move |
| ReassignSettle.RebalanceIdempotent | server/utils/reassign.js:4-62 | running the pass again on its own result changes nothing and moves nothing |
| ReassignSettle.NoOverloadNoMoves | server/utils/reassign.js:30-61 | a team with no member over capacity gets an empty move list and unchanged tasks |
| ReassignSettle.MovesOldestFirst | server/utils/reassign.js:35-37 | if a movable task of a member was moved, every earlier movable task of that member was moved too |
| ReassignSettle.MovesOldestByDate | server/utils/reassign.js:10-37 | with the tasks sorted by `createdAt`, a member that gave away a task also gave away every strictly older movable task |
| ReassignSettle.FreeSlotsOnlyShrink | server/utils/reassign.js:25-54 | every member's final free slots are non-negative and at most its initial free slots |
| ReassignScenario.ScenarioMovesOldestOnly | server/utils/reassign.js:30-57 | A (capacity 2) with Low, Medium and High tasks and an empty B: only the Low task moves, to B, with one move entry |
| TaskController.CountTasksForTeam | server/controllers/taskController.js:8-19 | the per-key counts equal the multiset of assignee keys of the team's active tasks, with unassigned tasks under `UNASSIGNED`; no zero entries |
| TaskController.CountKeys | server/controllers/taskController.js:14-17 | the counting loop files every selected task under its key |
| TaskController.TeamCountsAreActive | server/controllers/taskController.js:8-19 | the counts add up to the number of active tasks of the team's projects, and only such tasks are counted |
| TaskController.KeyBagIsLoad | server/controllers/taskController.js:15-16 | for active tasks a member's count equals the load the rebalancer uses |
| TaskController.CreateTask | server/controllers/taskController.js:22-67 | rejected iff the title or projectId is missing, the project or its team is missing, or the named assignee is not a team member; otherwise the task has the given title, project and id, an unassigned task is stored under `UNASSIGNED` named `Unassigned`, and no warning is given |
| TaskController.CreateTaskErrors | server/controllers/taskController.js:26-32 | the exact rejection for a missing field, project or team |
| TaskController.CreateTaskWarning | server/controllers/taskController.js:35-63 | for a member assignee: a warning iff its active count is at least its capacity, with the text `<name> has <n> tasks but capacity is <cap>. Assign anyway?`; the task is still created with that assignee and name |
| TaskController.CreateTaskDefaults | server/controllers/taskController.js:50-58 | priority and status default to Medium and Pending; the creation time and description are stored |
| TaskController.AllowedPart | server/controllers/taskController.js:97-99 | the updates hold exactly the whitelisted fields present in the body, with their values |
| TaskController.PickAllowed | server/controllers/taskController.js:97-99 | the whitelist loop builds exactly that map |
| TaskController.UpdateTask | server/controllers/taskController.js:95-122 | the handler's outcome is the update decision on the whitelisted part of the body |
| TaskController.UpdateWritesWhitelist | server/controllers/taskController.js:97-116 | a successful update writes only whitelisted body fields, all of them, plus the member name exactly when the assignee is set |
| TaskController.UpdateAssignment | server/controllers/taskController.js:101-114 | `UNASSIGNED` gets the name `Unassigned`; a non-member is refused with no write; a member gets its name; no capacity check is made |
| TaskController.Candidates | server/controllers/taskController.js:148-153 | one candidate per member, in team order, with its active count (0 when absent) |
| TaskController.AutoAssignPicks | server/controllers/taskController.js:136-163 | the pick is the first of the lowest-count members below capacity, otherwise the first lowest-count member overall; null only for an empty team |
| TaskController.Entry | server/controllers/taskController.js:172-173 | a team has an entry iff its pass moved something, and the entry is that team's id with exactly the pass's moves |
| TaskController.RunTeam | server/controllers/taskController.js:171-174 | one iteration runs the team's pass: its entry, its tasks afterwards, and one activity per move of the pass |
| TaskController.ReassignTasks | server/controllers/taskController.js:166-182 | the results and tasks are those of every team's pass in team order, and the activities are one per reported move, team after team |
| TaskController.AllEntries | server/controllers/taskController.js:171-172 | every team's id with the moves of its pass, one per team, in team order |
| TaskController.ResultsAreMovingTeams | server/controllers/taskController.js:171-174 | `results` is exactly the teams whose pass moved something, each once with its moves, in team order |
| Selection.SortByKey | server/controllers/taskController.js:148-153 | the sorted list is a permutation of the input, sorted by the key |
| Selection.FindSorted | server/controllers/taskController.js:148-157 | the first match in the stable sort is the first of the minimal-key matches in the original order |
| ActivityLogger.PushedFront | server/utils/activityLogger.js:4-7 | the new entry is first; below the cap the old entries follow unchanged, so the log grows by one |
| ActivityLogger.PushedAtCap | server/utils/activityLogger.js:9 | at the cap only the oldest (last) entry is dropped and the rest keep their order |
| ActivityLogger.ReplayNewestFirst | server/utils/activityLogger.js:3-10 | after any sequence of calls the log is the newest entries first, cut to 20 |
| ActivityLogger.LogFromEmpty | server/utils/activityLogger.js:1-10 | from the empty log, n calls leave `min(20, n)` entries, newest first |
| ActivityLogger.Log.constructor | server/utils/activityLogger.js:1 | the log starts empty |
| ActivityLogger.Log.LogActivity | server/utils/activityLogger.js:3-10 | the log becomes the pushed log and never exceeds 20 entries |
| ActivityLogger.Log.GetActivityLogs | server/utils/activityLogger.js:12 | the first `min(10, len)` entries, without changing the log |
| Dashboard.Rows | server/controllers/dashboardController.js:28-34 | exactly one row per member, in team order, with its count (0 by default) and `overloaded` iff count > capacity |
| Dashboard.CountAssigned | server/controllers/dashboardController.js:22-26 | the counter loop counts, per member, the tasks assigned to it, of any status |
| Dashboard.Summary | server/controllers/dashboardController.js:17-36 | a team's summary counts only tasks of its own projects |
| Dashboard.TeamSummaries | server/controllers/dashboardController.js:17-37 | one summary per team, in order |
| Dashboard.AssignedCoversLoad | server/controllers/dashboardController.js:20 | Done tasks are counted too: the count is at least the active load, and equal to it when all tasks are active |
| Dashboard.OtherProjectsIgnored | server/controllers/dashboardController.js:19-20 | a task of another team's project does not change the summary |
| ClientModel.AdjustMembers | src/contexts/AppContext.tsx:133-142 | each member is adjusted one by one, in order |
| ClientModel.AdjustCount | src/contexts/AppContext.tsx:133-142 | the teams and their member ids, order and number are kept |
| ClientModel.AdjustCountChanges | src/contexts/AppContext.tsx:133-142 | only members with that id change, to `max(0, currentTasks + change)`; every other field stays |
| ClientModel.AdjustRoundTrip | src/contexts/AppContext.tsx:133-142 | adding one and then removing one restores non-negative counters |
| Common.Find | src/contexts/AppContext.tsx:48 | `find`: an element that passes the test with no passing element before it; None iff no element passes |
| Common.FirstIndex | src/contexts/AppContext.tsx:188 | `findIndex`: the position of the first passing element, the length when none passes |
| Common.Filter | src/contexts/AppContext.tsx:126 | `filter`: only passing elements are kept, and every passing element is kept |
| Common.FilterCounts | src/contexts/AppContext.tsx:96-97 | each passing element is kept as often as it occurs, the others not at all |
| Common.FilterAppend | src/contexts/AppContext.tsx:96-97 | filtering distributes over concatenation, so the kept elements stay in their order |
| ClientModel.MemberById | src/contexts/AppContext.tsx:144-150 | the first member with that id in the first team that has one; None iff no team has one |
| ClientModel.ReplaceTask | src/contexts/AppContext.tsx:121 | the task with that id is replaced and the others stay in place |
| AppContext.Login | src/contexts/AppContext.tsx:47-54 | succeeds iff a user has that email and password, and makes the first such user current; otherwise nothing changes |
| AppContext.Register | src/contexts/AppContext.tsx:60-73 | fails with no change iff the email is taken; otherwise it appends one user and makes it current |
| AppContext.RegisterThenLogin | src/contexts/AppContext.tsx:47-73 | after a registration, logging in with the same email and password gives the new user |
| AppContext.AddTask | src/contexts/AppContext.tsx:100-107 | the task is appended; only the counters change besides |
| AppContext.AddTaskConsistent | src/contexts/AppContext.tsx:100-107 | counters that agree with the task list still agree after `addTask` |
| AppContext.UpdateTask | src/contexts/AppContext.tsx:109-123 | the task with that id is replaced; only the counters change besides |
| AppContext.UpdateTaskConsistent | src/contexts/AppContext.tsx:109-123 | with the intended counter updates, counters that agree with the task list still agree |
| AppContext.UpdateTaskAsWritten | src/contexts/AppContext.tsx:109-123 | the handler as written replaces the task |
| AppContext.UpdateTaskAsWrittenDrifts | src/contexts/AppContext.tsx:114-119 | as written, moving a task off a member leaves that member's counter too high |
| AppContext.DeleteTask | src/contexts/AppContext.tsx:125-131 | exactly the tasks with that id are removed; only the counters change besides |
| AppContext.DeleteTaskConsistent | src/contexts/AppContext.tsx:125-131 | the former assignee's counter drops, so counters still agree with the tasks |
| AppContext.DeleteProject | src/contexts/AppContext.tsx:95-98 | the project and every task of it are removed; the counters are left as they were |
| AppContext.DeleteProjectAsWrittenDrifts | src/contexts/AppContext.tsx:95-98 | as written, deleting a project whose tasks are assigned leaves counters too high |
| AppContext.DeleteProjectReleasing | src/contexts/AppContext.tsx:95-98 | deleting a project also releases the counters of its tasks' assignees |
| AppContext.DeleteProjectReleasingConsistent | src/contexts/AppContext.tsx:95-98 | with that release, counters still agree with the tasks |
| AppContext.GetMemberById | src/contexts/AppContext.tsx:144-150 | the first member with that id in the first team that has one; None iff no team has one |
| AppContext.CountSplit | src/contexts/AppContext.tsx:97 | a member's tasks split into those of the deleted project and the rest |
| ClientReassign.OverloadedFrom | src/contexts/AppContext.tsx:167 | exactly the members over capacity, in team order |
| ClientReassign.MovableExactly | src/contexts/AppContext.tsx:171-173 | under any permuting sort, exactly the member's non-High tasks, whatever their status, each as often as in the list |
| ClientReassign.LowsFirstPermutes | src/contexts/AppContext.tsx:173 | the stable Low-first partition is a permuting order that puts every Low task before every Medium one |
| ClientReassign.AvailableFrom | src/contexts/AppContext.tsx:182-184 | the first other member in team order whose counter is below capacity |
| ClientReassign.KeptLogs | src/contexts/AppContext.tsx:212 | the new entries followed by the old ones, cut to 10 |
| ClientReassign.MoveOne | src/contexts/AppContext.tsx:188-204 | one move: the task's assignee is written, the counters are updated and one entry is logged |
| ClientReassign.HandOver | src/contexts/AppContext.tsx:175-206 | the task loop stops after `excessCount` moves and skips a task when no member has room |
| ClientReassign.DonateOne | src/contexts/AppContext.tsx:169-206 | one overloaded member's turn |
| ClientReassign.RebalanceTeam | src/contexts/AppContext.tsx:165-207 | one team's turn over the members overloaded at its start |
| ClientReassign.RebalanceTeams | src/contexts/AppContext.tsx:161-208 | the nested loops compute exactly the whole pass |
| ClientReassign.ReassignTasks | src/contexts/AppContext.tsx:160-213 | the handler writes the pass's tasks and teams; the log becomes the pass's entries in move order, then the old entries, cut to the first ten |
| ClientReassignProofs.ReassignOnlyMovesLowAndMedium | src/contexts/AppContext.tsx:171-172 | only `assignedTo` changes, and a High task never changes; member records change only in `currentTasks` |
| ClientReassignProofs.ReassignKeepsTeamSums | src/contexts/AppContext.tsx:192-194 | each team's sum of counters is unchanged |
| ClientReassignProofs.ReassignBounds | src/contexts/AppContext.tsx:175-194 | each member's counter stays between its capacity and its start value, on the side it started on, so an overloaded member gives at most `currentTasks - capacity`; counters stay non-negative |
| ClientReassignProofs.ReassignLogsEveryMove | src/contexts/AppContext.tsx:197-204 | one new log entry per task given away |
| TasksPage.CheckCapacity | src/pages/Tasks.tsx:47-62 | no warning for `unassigned`; a warning iff the member exists and `currentTasks >= capacity`, with the exact text |
| TasksPage.UnknownMemberNoWarning | src/pages/Tasks.tsx:53-61 | an unknown id shows no warning |
| TasksPage.LeastLoadedPicks | src/pages/Tasks.tsx:95-97 | the pick is the first of the least-loaded members below capacity; nothing when all are at or over capacity |
| TasksPage.AutoAssignRoutes | src/pages/Tasks.tsx:78-113 | with no project the user is asked to select one and the selection is unchanged; a missing project or team does nothing; otherwise the least-loaded member with room is selected or the no-member message is shown, with no fallback |
| TasksPage.FilteredTasksExactly | src/pages/Tasks.tsx:211-215 | a task is shown iff its project filter is `all` or matches and its member filter is `all` or equals `assignedTo` |

## Left out

- Mongoose and Express are left out: queries, `save`, `create`, request
  parsing and status codes. Task and member lists are inputs, and outcomes
  are datatypes.
- The database sort by `createdAt` in `reassignForTeam` is not modelled.
- ClientReassign.Movable: the order in which the client's inconsistent
  comparator leaves a member's tasks is the engine's, so it is a `sort`
  parameter. Which tasks a donor gives away therefore depends on that
  order. The client lemmas are proved for every permuting order; no
  particular engine's order is modelled.
  The task list is taken in the given order (see `MovesOldestByDate`).
- Time stamps, generated ids and the acting user come in as parameters.
- Reassign.ActivitiesFor: all activities of one pass carry the same time
  stamp, while the source reads the clock again for every move; the model
  does not capture stamps that differ within a pass.
- ClientReassign.MoveOne: every log entry of one pass uses the same `now`
  and `stamp`, while the source reads `Date.now()` and `new Date()` for
  every move.
- Concurrency is left out: the server's unlocked read-then-write across
  `await`s, and React's scheduling of state setters.
- `AppContext.UpdateTask` models the handler's evident intent, two
  sequential counter updates. `UpdateTaskAsWritten` models the two setters
  working on one snapshot (see Findings).
- On the client, the store is a value passed from handler to handler, not a
  class with fields.
- `ClientReassign.ReassignTasks`: the model does not prove that counters
  which agree with the task list still agree after the client rebalance. Its
  counters move with its assignments, as `ReassignKeepsTeamSums` and
  `ReassignLogsEveryMove` state.
- Some client store operations are left out, being plain record edits with
  no counter logic: `logout`, `addTeam`, `updateTeam`, `deleteTeam`,
  `addProject`, `updateProject`, `getProjectById` and `getTeamById`.
- On the server, `getTasks`, `getTask` and `deleteTask` (plain queries) are
  left out. So is the `recent` list that `reassignTasks` returns, which is a
  query.
- The dashboard's `totalProjects`, `totalTasks` and `recentReassignments`
  (plain counts and a query) are left out.
- Authentication (JWT, bcrypt) and the UI rendering, toasts and dialogs are
  left out.
- The toast texts of auto-assign on the task page are outcome constructors,
  not strings.

## Findings

| source | as written | input that shows it | evidently intended | confidence | as-written member | corrected member |
|---|---|---|---|---|---|---|
| src/contexts/AppContext.tsx:109-123 | `updateTask` calls `updateMemberTaskCount` twice, and both calls map the same `teams` snapshot, so the second write replaces the first and the old assignee is never decremented | task-1 assigned to m1 (counter 1) is reassigned to m2: m1 keeps counter 1 with no task | the old assignee loses one and the new one gains one | not executed | AppContext.UpdateTaskAsWrittenDrifts | AppContext.UpdateTaskConsistent |
| src/contexts/AppContext.tsx:95-98 | `deleteProject` removes the project's tasks but never touches the counters | project-1 holds task-1 assigned to m1 (counter 1): after the delete, m1 has counter 1 and no task | each removed task's assignee loses one | not executed | AppContext.DeleteProjectAsWrittenDrifts | AppContext.DeleteProjectReleasingConsistent |
