/** Admission of filter runs (src/api/filter_runs.py): lock the user's row, look for an overlapping
    run, insert; by any number of processes at once, while workers move the tasks' statuses. */
module FilterRuns {
  import opened Options
  import Extremes

  type TaskId = nat
  type UserId = nat
  type ProcessId = nat

  datatype Status = Pending | Running | AwaitingBatch | Waiting | Done | Failed | Cancelled

  predicate Active(s: Status) { s in {Pending, Running, AwaitingBatch, Waiting} }

  datatype Policy = Interactive | Scheduled

  /** The statuses that block a new run. A scheduled splitter may progress while older chunks wait. */
  predicate Blocks(s: Status, policy: Policy) { if policy == Scheduled then s in {Pending, Running} else Active(s) }

  /** A filter run; without a filter it is of all of the user's filters. */
  datatype Run = Run(user: UserId, filter: Option<nat>)

  predicate Overlap(a: Run, b: Run) { a.user == b.user && (a.filter.None? || b.filter.None? || a.filter == b.filter) }

  /** A task. `policy`, `after` and `saw` are ghost records: how it was admitted, the tasks there when it
      was, and the status each had when its conflict check ran. */
  datatype Task = Task(run: Run, dedupe: Option<string>, status: Status, policy: Policy, after: set<TaskId>, saw: map<TaskId, Status>)

  type Tasks = map<TaskId, Task>

  // ---- conflict and decision -----------------------------------------------------------

  function Conflicts(tasks: Tasks, run: Run, policy: Policy): set<TaskId> {
    set id | id in tasks && Overlap(tasks[id].run, run) && Blocks(tasks[id].status, policy)
  }

  /** ORDER BY id DESC LIMIT 1 */
  function Conflict(tasks: Tasks, run: Run, policy: Policy): (c: Option<TaskId>)
    ensures c.None? <==> Conflicts(tasks, run, policy) == {}
    ensures c.Some? ==> c.value in Conflicts(tasks, run, policy) && forall id :: id in Conflicts(tasks, run, policy) ==> id <= c.value
  {
    var ids := Conflicts(tasks, run, policy);
    if ids == {} then None else Some(Extremes.Greatest(ids))
  }

  datatype Admission = Admission(task: Option<TaskId>, conflict: Option<TaskId>, accessFailure: Option<string>)

  datatype Decision = Decision(allowed: bool, reason: Option<string>, task: Option<TaskId>)

  function DecisionOf(a: Admission): Decision {
    if a.accessFailure.Some? then Decision(false, a.accessFailure, None)
    else Decision(a.conflict.None?, if a.conflict.Some? then Some("IN_PROGRESS") else None,
                  if a.conflict.Some? then a.conflict else a.task)
  }

  // ---- processes -----------------------------------------------------------------------

  datatype Request = Request(run: Run, policy: Policy, dedupe: Option<string>)

  /** Where a process is in its transaction; `saw` is what its conflict check read. */
  datatype Process = Outside | Entered(request: Request) | Clear(request: Request, saw: Tasks)

  datatype State = State(users: set<UserId>, tasks: Tasks, processes: map<ProcessId, Process>)

  predicate Inside(p: Process) { !p.Outside? }

  /** The row lock: of the processes inside for one user that has a row there is one. */
  predicate Holds(s: State, p: ProcessId, user: UserId) {
    p in s.processes && Inside(s.processes[p]) && s.processes[p].request.run.user == user
  }

  ghost predicate Free(s: State, user: UserId) { forall p :: !Holds(s, p, user) }

  datatype Event =
    | Enter(p: ProcessId, request: Request)
    | Check(p: ProcessId)
    | Insert(p: ProcessId, id: TaskId)
    | Leave(p: ProcessId)
    | Move(id: TaskId, status: Status)

  function StatusesOf(tasks: Tasks): map<TaskId, Status> { map id | id in tasks :: tasks[id].status }

  predicate DedupeTaken(tasks: Tasks, dedupe: Option<string>) {
    dedupe.Some? && exists id :: id in tasks && tasks[id].dedupe == dedupe
  }

  function Admitted(s: State, request: Request, saw: Tasks): Task {
    Task(request.run, request.dedupe, Pending, request.policy, s.tasks.Keys, StatusesOf(saw))
  }

  ghost predicate Next(s: State, e: Event, s': State) {
    match e
    case Enter(p, request) =>
      && (p in s.processes ==> s.processes[p].Outside?)
      && (request.run.user in s.users ==> Free(s, request.run.user))
      && s' == s.(processes := s.processes[p := Entered(request)])
    case Check(p) =>
      && p in s.processes && s.processes[p].Entered?
      && var request := s.processes[p].request;
         s' == s.(processes := s.processes[p := if Conflict(s.tasks, request.run, request.policy).Some? then Outside
                                                else Clear(request, s.tasks)])
    case Insert(p, id) =>
      && p in s.processes && s.processes[p].Clear? && id !in s.tasks
      && var request := s.processes[p].request;
         s' == State(s.users,
                     if DedupeTaken(s.tasks, request.dedupe) then s.tasks
                     else s.tasks[id := Admitted(s, request, s.processes[p].saw)],
                     s.processes[p := Outside])
    case Leave(p) => p in s.processes && s' == s.(processes := s.processes[p := Outside])
    case Move(id, status) =>
      && id in s.tasks
      && s' == s.(tasks := s.tasks[id := s.tasks[id].(status := status)])
  }

  /** A run out of action is set going again. */
  predicate Revives(s: State, e: Event, id: TaskId) {
    e.Move? && e.id == id && id in s.tasks && !Active(s.tasks[id].status) && Active(e.status)
  }

  // ---- the invariant -------------------------------------------------------------------

  /** The check that let `later` pass saw `earlier`, and not in a status that blocks. */
  predicate Passed(earlier: TaskId, later: Task) {
    earlier in later.saw && !Blocks(later.saw[earlier], later.policy)
  }

  predicate TasksPass(s: State) {
    forall b, a :: b in s.tasks && a in s.tasks && a in s.tasks[b].after && Overlap(s.tasks[a].run, s.tasks[b].run)
      ==> Passed(a, s.tasks[b])
  }

  /** A process that has checked saw every run of its user there now, as it then was. */
  predicate ClearSaw(s: State, p: ProcessId)
    requires p in s.processes && s.processes[p].Clear?
  {
    var request, saw := s.processes[p].request, s.processes[p].saw;
    && Conflicts(saw, request.run, request.policy) == {}
    && forall id :: id in s.tasks && s.tasks[id].run.user == request.run.user ==>
         id in saw && saw[id].run == s.tasks[id].run
  }

  predicate Ordered(tasks: Tasks) {
    && (forall b :: b in tasks ==> tasks[b].after <= tasks.Keys && b !in tasks[b].after)
    && (forall a, b :: a in tasks && b in tasks && a != b ==> a in tasks[b].after || b in tasks[a].after)
  }

  ghost predicate Locked(s: State) {
    && (forall p :: p in s.processes && Inside(s.processes[p]) ==> s.processes[p].request.run.user in s.users)
    && (forall p, q, user: UserId :: Holds(s, p, user) && Holds(s, q, user) ==> p == q)
  }

  ghost predicate Inv(s: State) {
    && Locked(s) && Ordered(s.tasks) && TasksPass(s)
    && (forall p :: p in s.processes && s.processes[p].Clear? ==> ClearSaw(s, p))
  }

  /** Every enqueue finds its user's row. */
  predicate HasRow(s: State, e: Event) { e.Enter? ==> e.request.run.user in s.users }

  lemma NextKeepsLock(s: State, e: Event, s': State)
    requires Locked(s) && HasRow(s, e) && Next(s, e, s')
    ensures Locked(s')
  {
    hide Conflict;
    forall p, q, user: UserId | Holds(s', p, user) && Holds(s', q, user) ensures p == q {
      assert e.Enter? && e.p == q && p != q ==> Holds(s, p, user);
      assert e.Enter? && e.p == p && p != q ==> Holds(s, q, user);
      assert !e.Enter? ==> Holds(s, p, user) && Holds(s, q, user);
      assert e.Enter? && e.p != p && e.p != q ==> Holds(s, p, user) && Holds(s, q, user);
    }
  }

  lemma InsertKeepsInv(s: State, e: Event, s': State)
    requires Inv(s) && e.Insert? && Next(s, e, s')
    ensures Inv(s')
  {
    NextKeepsLock(s, e, s');
    hide Conflict, Locked;
    var request, saw := s.processes[e.p].request, s.processes[e.p].saw;
    if !DedupeTaken(s.tasks, request.dedupe) {
      InsertedPasses(s, e.p, e.id);
      OthersKeepSight(s, e, s');
    }
  }

  lemma InsertedPasses(s: State, p: ProcessId, id: TaskId)
    requires p in s.processes && s.processes[p].Clear? && ClearSaw(s, p) && id !in s.tasks
    requires Ordered(s.tasks) && TasksPass(s)
    ensures var request := s.processes[p].request;
            var tasks := s.tasks[id := Admitted(s, request, s.processes[p].saw)];
            Ordered(tasks) && TasksPass(s.(tasks := tasks))
  {
    var request, saw := s.processes[p].request, s.processes[p].saw;
    var tasks := s.tasks[id := Admitted(s, request, saw)];
    forall a | a in s.tasks && Overlap(s.tasks[a].run, request.run) ensures Passed(a, tasks[id]) {
      assert a !in Conflicts(saw, request.run, request.policy);
    }
    forall a, b | a in s.tasks && b in s.tasks && a in s.tasks[b].after && Overlap(s.tasks[a].run, s.tasks[b].run)
      ensures Passed(a, tasks[b])
    {
      assert Passed(a, s.tasks[b]);
    }
  }

  lemma OthersKeepSight(s: State, e: Event, s': State)
    requires Inv(s) && e.Insert? && Next(s, e, s')
    ensures forall q :: q in s'.processes && s'.processes[q].Clear? ==> ClearSaw(s', q)
  {
    hide Conflict;
    var user := s.processes[e.p].request.run.user;
    assert Holds(s, e.p, user);
    forall q | q in s'.processes && s'.processes[q].Clear? ensures ClearSaw(s', q) {
      assert ClearSaw(s, q) && q != e.p;
      assert Holds(s, q, s.processes[q].request.run.user);
    }
  }

  lemma MoveKeepsInv(s: State, e: Event, s': State)
    requires Inv(s) && e.Move? && Next(s, e, s')
    ensures Inv(s')
  {
    NextKeepsLock(s, e, s');
    hide Locked;
    forall a, b | a in s'.tasks && b in s'.tasks && a in s'.tasks[b].after && Overlap(s'.tasks[a].run, s'.tasks[b].run)
      ensures Passed(a, s'.tasks[b])
    {
      assert Passed(a, s.tasks[b]);
    }
    forall q | q in s'.processes && s'.processes[q].Clear? ensures ClearSaw(s', q) { assert ClearSaw(s, q); }
  }

  lemma CheckKeepsInv(s: State, e: Event, s': State)
    requires Inv(s) && e.Check? && Next(s, e, s')
    ensures Inv(s')
  {
    NextKeepsLock(s, e, s');
    hide Locked;
    forall q | q in s'.processes && s'.processes[q].Clear? ensures ClearSaw(s', q) {
      assert q != e.p ==> ClearSaw(s, q);
    }
  }

  lemma NextKeepsInv(s: State, e: Event, s': State)
    requires Inv(s) && HasRow(s, e) && Next(s, e, s')
    ensures Inv(s')
  {
    match e {
      case Insert(_, _) => InsertKeepsInv(s, e, s');
      case Move(_, _) => MoveKeepsInv(s, e, s');
      case Check(_) => CheckKeepsInv(s, e, s');
      case _ =>
        NextKeepsLock(s, e, s');
        hide Locked, Conflict;
        forall q | q in s'.processes && s'.processes[q].Clear? ensures ClearSaw(s', q) { assert ClearSaw(s, q); }
    }
  }

  /** A run in which every enqueue finds its user's row. */
  ghost predicate RunOf(states: seq<State>, events: seq<Event>) {
    && |states| == |events| + 1
    && states[0].tasks == map[] && states[0].processes == map[]
    && forall i :: 0 <= i < |events| ==> HasRow(states[i], events[i]) && Next(states[i], events[i], states[i + 1])
  }

  lemma {:induction false} RunKeepsInv(states: seq<State>, events: seq<Event>, n: nat)
    requires RunOf(states, events) && n < |states|
    ensures Inv(states[n])
  {
    hide Next, Inv;
    if n == 0 {
      EmptyInv(states[0]);
    } else {
      RunKeepsInv(states, events, n - 1);
      NextKeepsInv(states[n - 1], events[n - 1], states[n]);
    }
  }

  lemma EmptyInv(s: State)
    requires s.tasks == map[] && s.processes == map[]
    ensures Inv(s)
  {
  }

  predicate KeysDiffer(tasks: Tasks) {
    forall a, b :: a in tasks && b in tasks && tasks[a].dedupe.Some? && tasks[a].dedupe == tasks[b].dedupe ==> a == b
  }

  /** Over every run two tasks never carry one dedupe key. */
  lemma {:induction false} NoKeyTwice(states: seq<State>, events: seq<Event>, n: nat)
    requires RunOf(states, events) && n < |states|
    ensures KeysDiffer(states[n].tasks)
  {
    hide Conflict;
    if n > 0 {
      NoKeyTwice(states, events, n - 1);
      assert Next(states[n - 1], events[n - 1], states[n]);
    }
  }

  // ---- what became of a run since its check --------------------------------------------

  /** The step `c` is the conflict check that the insert of `id` at the step `j` went by. */
  ghost predicate Admits(states: seq<State>, events: seq<Event>, c: nat, j: nat, id: TaskId)
    requires |states| == |events| + 1
  {
    && c < j < |events|
    && events[c].Check? && events[j] == Insert(events[c].p, id)
    && (forall k :: c < k <= j ==> events[c].p in states[k].processes && states[k].processes[events[c].p].Clear?)
    && id !in states[j].tasks && id in states[j + 1].tasks
  }

  /** Only its status changes of a task once there. */
  lemma {:induction false} TaskStays(states: seq<State>, events: seq<Event>, k: nat, m: nat, id: TaskId)
    requires RunOf(states, events) && k <= m < |states| && id in states[k].tasks
    ensures id in states[m].tasks
    ensures states[m].tasks[id] == states[k].tasks[id].(status := states[m].tasks[id].status)
  {
    hide Conflict, DedupeTaken;
    if k < m {
      TaskStays(states, events, k, m - 1, id);
      assert Next(states[m - 1], events[m - 1], states[m]);
    }
  }

  lemma {:induction false} StaysClear(states: seq<State>, events: seq<Event>, c: nat, k: nat, p: ProcessId)
    requires RunOf(states, events) && c < k < |states| && events[c] == Check(p)
    requires forall l :: c < l <= k ==> p in states[l].processes && states[l].processes[p].Clear?
    ensures states[k].processes[p].saw == states[c].tasks
  {
    hide Conflict, DedupeTaken;
    assert Next(states[k - 1], events[k - 1], states[k]);
    if c < k - 1 { StaysClear(states, events, c, k - 1, p); }
  }

  lemma {:induction false} ClearSince(states: seq<State>, events: seq<Event>, n: nat, p: ProcessId) returns (c: nat)
    requires RunOf(states, events) && n < |states| && p in states[n].processes && states[n].processes[p].Clear?
    ensures c < n && events[c] == Check(p)
    ensures forall l :: c < l <= n ==> p in states[l].processes && states[l].processes[p].Clear?
  {
    hide Conflict, DedupeTaken;
    assert Next(states[n - 1], events[n - 1], states[n]);
    if events[n - 1] == Check(p) {
      c := n - 1;
    } else {
      c := ClearSince(states, events, n - 1, p);
    }
  }

  /** Every task there was admitted in the run. */
  lemma {:induction false} WasAdmitted(states: seq<State>, events: seq<Event>, n: nat, id: TaskId) returns (c: nat, j: nat)
    requires RunOf(states, events) && n < |states| && id in states[n].tasks
    ensures j < n && Admits(states, events, c, j, id)
  {
    hide Conflict, DedupeTaken;
    assert Next(states[n - 1], events[n - 1], states[n]);
    if id in states[n - 1].tasks {
      c, j := WasAdmitted(states, events, n - 1, id);
    } else {
      j := n - 1;
      c := ClearSince(states, events, j, events[j].p);
    }
  }

  /** What a task records of its admission is so. */
  lemma RecordsItsAdmission(states: seq<State>, events: seq<Event>, c: nat, j: nat, n: nat, id: TaskId)
    requires RunOf(states, events) && Admits(states, events, c, j, id) && j < n < |states|
    ensures id in states[n].tasks
    ensures states[n].tasks[id].saw == StatusesOf(states[c].tasks) && states[n].tasks[id].after == states[j].tasks.Keys
  {
    hide Conflict, DedupeTaken;
    StaysClear(states, events, c, j, events[c].p);
    assert Next(states[j], events[j], states[j + 1]);
    TaskStays(states, events, j + 1, n, id);
  }

  /** Set going again at the step `i`, and not out of action since. */
  ghost predicate ActiveSince(states: seq<State>, events: seq<Event>, i: nat, m: nat, id: TaskId)
    requires |states| == |events| + 1
  {
    && i < m < |states| && Revives(states[i], events[i], id)
    && forall k :: i < k <= m ==> id in states[k].tasks && Active(states[k].tasks[id].status)
  }

  lemma {:induction false} RevivedMeanwhile(states: seq<State>, events: seq<Event>, c: nat, m: nat, id: TaskId) returns (i: nat)
    requires RunOf(states, events) && c <= m < |states| && id in states[c].tasks && !Active(states[c].tasks[id].status)
    requires id in states[m].tasks && Active(states[m].tasks[id].status)
    ensures c <= i && ActiveSince(states, events, i, m, id)
  {
    hide Conflict, DedupeTaken;
    TaskStays(states, events, c, m - 1, id);
    assert Next(states[m - 1], events[m - 1], states[m]);
    if Active(states[m - 1].tasks[id].status) {
      i := RevivedMeanwhile(states, events, c, m - 1, id);
    } else {
      i := m - 1;
    }
  }

  // ---- when two active runs overlap ----------------------------------------------------

  /** `later` was admitted with `earlier` there, and they overlap. */
  predicate Paired(s: State, earlier: TaskId, later: TaskId) {
    && earlier in s.tasks && later in s.tasks && earlier in s.tasks[later].after
    && Overlap(s.tasks[earlier].run, s.tasks[later].run)
  }

  predicate BothActive(s: State, a: TaskId, b: TaskId) {
    a in s.tasks && b in s.tasks && Active(s.tasks[a].status) && Active(s.tasks[b].status)
  }

  /** The check that let the later of a pair pass saw the earlier, in no status that blocks the later. */
  lemma CheckSaw(states: seq<State>, events: seq<Event>, c: nat, j: nat, n: nat, earlier: TaskId, later: TaskId)
    requires RunOf(states, events) && Admits(states, events, c, j, later) && j < n < |states| && Paired(states[n], earlier, later)
    ensures earlier in states[c].tasks && !Blocks(states[c].tasks[earlier].status, states[n].tasks[later].policy)
  {
    hide Conflict, Next;
    RunKeepsInv(states, events, n);
    RecordsItsAdmission(states, events, c, j, n, later);
    assert Passed(earlier, states[n].tasks[later]);
  }

  /** However enqueues interleave: of two overlapping runs both active, the later was admitted as
      scheduled over the earlier awaiting or waiting for its chunks; or the earlier had ended by the
      later's conflict check, was set going again after it, and is going since. */
  lemma OverlapsAreScheduled(states: seq<State>, events: seq<Event>, c: nat, j: nat, n: nat, earlier: TaskId, later: TaskId)
    requires RunOf(states, events) && n < |states| && Admits(states, events, c, j, later) && j < n
    requires Paired(states[n], earlier, later) && BothActive(states[n], earlier, later)
    ensures earlier in states[c].tasks
    ensures (states[n].tasks[later].policy == Scheduled && states[c].tasks[earlier].status in {AwaitingBatch, Waiting})
            || (!Active(states[c].tasks[earlier].status) && exists i :: c <= i && ActiveSince(states, events, i, n, earlier))
  {
    hide Next;
    CheckSaw(states, events, c, j, n, earlier, later);
    if !Active(states[c].tasks[earlier].status) {
      var i := RevivedMeanwhile(states, events, c, n, earlier);
    }
  }

  /** Of overlapping runs the later of which is interactive: both are active if and only if the later is and
      the earlier was set going again since the later's conflict check, and is going since. */
  lemma OverlapsAreRevivals(states: seq<State>, events: seq<Event>, c: nat, j: nat, n: nat, earlier: TaskId, later: TaskId)
    requires RunOf(states, events) && n < |states| && Admits(states, events, c, j, later) && j < n
    requires Paired(states[n], earlier, later) && states[n].tasks[later].policy == Interactive
    ensures BothActive(states[n], earlier, later) <==>
            Active(states[n].tasks[later].status) && exists i :: c <= i && ActiveSince(states, events, i, n, earlier)
  {
    hide Next;
    if BothActive(states[n], earlier, later) { OverlapsAreScheduled(states, events, c, j, n, earlier, later); }
  }

  /** The step brings the earlier back while the later goes, or the later back or in while the earlier goes. */
  ghost predicate Collides(s: State, e: Event, earlier: TaskId, later: TaskId) {
    || (Paired(s, earlier, later) && Revives(s, e, earlier) && Active(s.tasks[later].status))
    || (Paired(s, earlier, later) && Revives(s, e, later) && Active(s.tasks[earlier].status))
    || (e.Insert? && e.id == later && earlier in s.tasks && Active(s.tasks[earlier].status)
        && e.p in s.processes && s.processes[e.p].Clear? && !DedupeTaken(s.tasks, s.processes[e.p].request.dedupe)
        && Overlap(s.tasks[earlier].run, s.processes[e.p].request.run))
  }

  /** The step at which two overlapping runs come to be active together, for any policies: exactly one that
      collides. If the later is interactive, the earlier was set going again since the later's check, at
      this step or before it. */
  lemma FirstOverlap(states: seq<State>, events: seq<Event>, n: nat, earlier: TaskId, later: TaskId)
    requires RunOf(states, events) && n < |events|
    requires !(Paired(states[n], earlier, later) && BothActive(states[n], earlier, later))
    ensures Paired(states[n + 1], earlier, later) && BothActive(states[n + 1], earlier, later)
            <==> Collides(states[n], events[n], earlier, later)
    ensures Collides(states[n], events[n], earlier, later) && states[n + 1].tasks[later].policy == Interactive ==>
              exists c: nat, j: nat, i: nat :: j <= n && Admits(states, events, c, j, later) && c <= i <= n && Revives(states[i], events[i], earlier)
  {
    RunKeepsInv(states, events, n);
    StepCollides(states[n], events[n], states[n + 1], earlier, later);
    hide Next, Collides, Inv;
    if Collides(states[n], events[n], earlier, later) && states[n + 1].tasks[later].policy == Interactive {
      var c, j := WasAdmitted(states, events, n + 1, later);
      OverlapsAreRevivals(states, events, c, j, n + 1, earlier, later);
    }
  }

  lemma StepCollides(s: State, e: Event, s': State, earlier: TaskId, later: TaskId)
    requires Inv(s) && Next(s, e, s') && !(Paired(s, earlier, later) && BothActive(s, earlier, later))
    ensures Paired(s', earlier, later) && BothActive(s', earlier, later) <==> Collides(s, e, earlier, later)
  {
    hide Conflict, Conflicts, Locked, TasksPass, ClearSaw;
  }

  /** Of any two runs one was admitted with the other there. */
  lemma OneIsLater(states: seq<State>, events: seq<Event>, n: nat, a: TaskId, b: TaskId)
    requires RunOf(states, events) && n < |states|
    requires a in states[n].tasks && b in states[n].tasks && a != b
    ensures a in states[n].tasks[b].after || b in states[n].tasks[a].after
  {
    RunKeepsInv(states, events, n);
  }

  /** Where every admission is interactive and what has ended stays so, no two active runs overlap. */
  lemma NoTwoActiveRunsOverlap(states: seq<State>, events: seq<Event>, n: nat, a: TaskId, b: TaskId)
    requires RunOf(states, events) && n < |states|
    requires forall id :: id in states[n].tasks ==> states[n].tasks[id].policy == Interactive
    requires forall i, id :: 0 <= i < n ==> !Revives(states[i], events[i], id)
    requires a != b && BothActive(states[n], a, b)
    ensures !Overlap(states[n].tasks[a].run, states[n].tasks[b].run)
  {
    hide Next, Inv;
    OneIsLater(states, events, n, a, b);
    var (earlier, later) := if a in states[n].tasks[b].after then (a, b) else (b, a);
    if Paired(states[n], earlier, later) {
      var c, j := WasAdmitted(states, events, n, later);
      OverlapsAreScheduled(states, events, c, j, n, earlier, later);
    }
  }

  // ---- what else it takes --------------------------------------------------------------

  /** An interactive enqueue of the process 1, alone and with no active run there. */
  lemma EnqueueAlone(s: State, run: Run, id: TaskId) returns (s1: State, s2: State, s3: State)
    requires s.users == {run.user} && id !in s.tasks && (s.processes == map[] || s.processes == map[1 := Outside])
    requires forall other :: other in s.tasks ==> !Active(s.tasks[other].status)
    ensures s1 == s.(processes := map[1 := Entered(Request(run, Interactive, None))])
    ensures s2 == s.(processes := map[1 := Clear(Request(run, Interactive, None), s.tasks)])
    ensures s3 == s.(tasks := s.tasks[id := Admitted(s, Request(run, Interactive, None), s.tasks)], processes := map[1 := Outside])
    ensures Next(s, Enter(1, Request(run, Interactive, None)), s1) && Next(s1, Check(1), s2) && Next(s2, Insert(1, id), s3)
  {
    var r := Request(run, Interactive, None);
    assert Conflicts(s.tasks, run, Interactive) == {};
    s1, s2 := s.(processes := map[1 := Entered(r)]), s.(processes := map[1 := Clear(r, s.tasks)]);
    s3 := s.(tasks := s.tasks[id := Admitted(s, r, s.tasks)], processes := map[1 := Outside]);
  }

  lemma MovesTo(s: State, id: TaskId, status: Status)
    requires id in s.tasks
    ensures Next(s, Move(id, status), s.(tasks := s.tasks[id := s.tasks[id].(status := status)]))
  {
  }

  /** The recovery of a failed chunk sets its failed parent to waiting again. So from the first enqueue on,
      one process at a time under the lock: a run admitted, failed, a second admitted in its place, and the
      first set going again beside it. */
  lemma RevivalOverlaps(run: Run, s: State) returns (states: seq<State>, events: seq<Event>)
    requires s == State({run.user}, map[], map[])
    ensures |events| == 8 && RunOf(states, events) && states[0] == s
    ensures Admits(states, events, 5, 6, 2) && Revives(states[7], events[7], 1)
    ensures Paired(states[8], 1, 2) && BothActive(states[8], 1, 2)
    ensures forall id :: id in states[8].tasks ==> states[8].tasks[id].policy == Interactive
  {
    assert Overlap(run, run);
    hide Next, Conflicts, DedupeTaken, Overlap;
    var r := Request(run, Interactive, None);
    var s1, s2, s3 := EnqueueAlone(s, run, 1);
    var s4 := s3.(tasks := s3.tasks[1 := s3.tasks[1].(status := Failed)]);
    MovesTo(s3, 1, Failed);
    var s5, s6, s7 := EnqueueAlone(s4, run, 2);
    var s8 := s7.(tasks := s7.tasks[1 := s7.tasks[1].(status := Waiting)]);
    MovesTo(s7, 1, Waiting);
    states := [s, s1, s2, s3, s4, s5, s6, s7, s8];
    events := [Enter(1, r), Check(1), Insert(1, 1), Move(1, Failed), Enter(1, r), Check(1), Insert(1, 2), Move(1, Waiting)];
  }

  /** Without a user's row there is nothing to lock, and two processes let each other through. */
  lemma NoRowNoLock(run: Run, s: State) returns (states: seq<State>, events: seq<Event>)
    requires s == State({}, map[], map[])
    ensures |events| == 6 && |states| == 7 && states[0] == s
    ensures forall i :: 0 <= i < 6 ==> Next(states[i], events[i], states[i + 1])
    ensures states[6].tasks.Keys == {1, 2} && forall id :: id in states[6].tasks ==>
              states[6].tasks[id].run == run && states[6].tasks[id].status == Pending && states[6].tasks[id].policy == Interactive
  {
    var r := Request(run, Interactive, None);
    assert Conflicts(map[], run, Interactive) == {};
    var s1 := State({}, map[], map[1 := Entered(r)]);
    var s2 := State({}, map[], map[1 := Entered(r), 2 := Entered(r)]);
    var s3 := State({}, map[], map[1 := Clear(r, map[]), 2 := Entered(r)]);
    var s4 := State({}, map[], map[1 := Clear(r, map[]), 2 := Clear(r, map[])]);
    var t1 := map[1 := Admitted(s4, r, map[])];
    var s5 := State({}, t1, map[1 := Outside, 2 := Clear(r, map[])]);
    var s6 := State({}, t1[2 := Admitted(s5, r, map[])], map[1 := Outside, 2 := Outside]);
    states := [s, s1, s2, s3, s4, s5, s6];
    events := [Enter(1, r), Enter(2, r), Check(1), Check(2), Insert(1, 1), Insert(2, 2)];
  }

  // ---- enqueue, start to end -----------------------------------------------------------

  /** Allowed without a task: the dedupe key was taken. */
  lemma DecisionTells(a: Admission)
    requires a.task.Some? ==> a.conflict.None? && a.accessFailure.None?
    ensures DecisionOf(a).allowed <==> a.conflict.None? && a.accessFailure.None?
    ensures DecisionOf(a).task.Some? <==> a.accessFailure.None? && (a.conflict.Some? || a.task.Some?)
    ensures DecisionOf(a).reason.None? <==> DecisionOf(a).allowed
  {
  }

  /** A task of the same user, of the same filter or with either of all of them, in a status that blocks. */
  predicate InTheWay(task: Task, run: Run, policy: Policy) {
    && task.run.user == run.user
    && (run.filter == None || task.run.filter == None || task.run.filter == run.filter)
    && (task.status in {Pending, Running} || (policy == Interactive && task.status in {AwaitingBatch, Waiting}))
  }

  lemma ConflictIs(tasks: Tasks, run: Run, policy: Policy)
    ensures Conflict(tasks, run, policy).Some? <==> exists id :: id in tasks && InTheWay(tasks[id], run, policy)
  {
    Extremes.EmptyOrNot(Conflicts(tasks, run, policy));
    forall id | id in tasks ensures id in Conflicts(tasks, run, policy) <==> InTheWay(tasks[id], run, policy) {}
  }

  class Queue {
    var tasks: Tasks
    var nextId: TaskId

    ghost predicate Valid()
      reads this
    {
      forall id :: id in tasks ==> id < nextId
    }

    constructor ()
      ensures Valid() && tasks == map[]
    {
      tasks, nextId := map[], 1;
    }

    /** `enqueue` of one process under the lock. */
    method Enqueue(run: Run, policy: Policy, dedupe: Option<string>) returns (a: Admission)
      requires Valid()
      modifies this
      ensures Valid() && a.accessFailure.None?
      ensures a.conflict == Conflict(old(tasks), run, policy)
      ensures a.conflict.Some? <==> exists id :: id in old(tasks) && InTheWay(old(tasks)[id], run, policy)
      ensures a.task.Some? <==>
                a.conflict.None? && (dedupe == None || forall id :: id in old(tasks) ==> old(tasks)[id].dedupe != dedupe)
      ensures a.task.Some? ==>
                && tasks.Keys == old(tasks).Keys + {a.task.value} && (forall id :: id in old(tasks) ==> tasks[id] == old(tasks)[id])
                && tasks[a.task.value].run == run && tasks[a.task.value].dedupe == dedupe
                && tasks[a.task.value].status == Pending && tasks[a.task.value].policy == policy
      ensures a.task.Some? <==> a.conflict.None? && !DedupeTaken(old(tasks), dedupe)
      ensures a.task.None? ==> tasks == old(tasks)
      ensures a.task.Some? ==> a.task.value !in old(tasks) && forall id :: id in old(tasks) ==> id < a.task.value
      ensures a.task.Some? ==>
                tasks == old(tasks)[a.task.value := Admitted(State({}, old(tasks), map[]), Request(run, policy, dedupe), old(tasks))]
    {
      var blocked := Conflict(tasks, run, policy);
      ConflictIs(tasks, run, policy);
      if blocked.Some? { return Admission(None, blocked, None); }
      if DedupeTaken(tasks, dedupe) { return Admission(None, None, None); }
      var id := nextId;
      tasks := tasks[id := Task(run, dedupe, Pending, policy, tasks.Keys, StatusesOf(tasks))];
      nextId := nextId + 1;
      a := Admission(Some(id), None, None);
    }
  }
}
