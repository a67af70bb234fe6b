/** Over every run of the task board: the event log is the history of the task table, an
    execution record exists exactly while its task runs, ended executions stay ended, and a
    claim message starts at most one execution. */
module TaskTheorems {
  import opened Common
  import opened TaskBoard

  // ---- The event log ----

  function ApplyEvent(tasks: seq<Task>, event: Event): seq<Task> {
    match event.data
    case DeviceRegistered(_) => tasks
    case TaskCreated(task) => tasks + [task]
    case TaskUpdated(task) => if event.entityId < |tasks| then tasks[event.entityId := task] else tasks
  }

  function Replay(tasks: seq<Task>, events: seq<Event>): seq<Task>
    decreases |events|
  {
    if events == [] then tasks else Replay(ApplyEvent(tasks, events[0]), events[1..])
  }

  lemma {:induction false} ReplayConcat(tasks: seq<Task>, first: seq<Event>, second: seq<Event>)
    ensures Replay(tasks, first + second) == Replay(Replay(tasks, first), second)
    decreases |first|
  {
    if first == [] {
      assert first + second == second;
    } else {
      assert (first + second)[1..] == first[1..] + second;
      ReplayConcat(ApplyEvent(tasks, first[0]), first[1..], second);
    }
  }

  predicate Concerns(event: Event, id: nat) {
    event.entityId == id && !event.data.DeviceRegistered?
  }

  function Snapshot(event: Event): Task
    requires !event.data.DeviceRegistered?
  {
    if event.data.TaskCreated? then event.data.created else event.data.updated
  }

  /** How many events a log holds about a task. */
  function Count(events: seq<Event>, id: nat): nat {
    if events == [] then 0
    else Count(events[..|events| - 1], id) + if Concerns(events[|events| - 1], id) then 1 else 0
  }

  ghost predicate WellNumbered(events: seq<Event>) {
    && (forall k | 0 <= k < |events| :: events[k].cursor == k + 1)
    && (forall k | 0 <= k < |events| && !events[k].data.DeviceRegistered? ::
          Snapshot(events[k]).version == Count(events[..k + 1], events[k].entityId))
  }

  /** The log agrees with the task table: cursors count from 1, the events of each task carry
      versions 1, 2, 3, and so on, and replaying the log rebuilds the table. */
  ghost predicate LogAgrees(b: Board) {
    && WellNumbered(b.events)
    && Replay([], b.events) == b.tasks
    && (forall i | 0 <= i < |b.tasks| :: b.tasks[i].version == Count(b.events, i) > 0)
    && (forall i: nat | i >= |b.tasks| :: Count(b.events, i) == 0)
  }

  // ---- Executions ----

  ghost predicate ExecutionsAgree(b: Board) {
    && (forall id: nat :: id in b.executions <==> id < |b.tasks| && Live(b.tasks[id].status))
    && (forall id: nat | id in b.executions :: b.executions[id].executionId < b.nextExecution)
    && (forall i: nat, j: nat | i in b.executions && j in b.executions
          && b.executions[i].executionId == b.executions[j].executionId :: i == j)
  }

  ghost predicate Inv(b: Board) {
    LogAgrees(b) && ExecutionsAgree(b)
  }

  /** What every operation keeps and never takes back: the log only grows, and only by events
      whose replay leads from the old task table to the new one. */
  ghost predicate Extends(b: Board, b': Board) {
    && b.events <= b'.events
    && Replay(b.tasks, b'.events[|b.events|..]) == b'.tasks
    && |b.tasks| <= |b'.tasks|
    && b.nextExecution <= b'.nextExecution
    && forall i | 0 <= i < |b.tasks| :: b.tasks[i].version <= b'.tasks[i].version
  }

  lemma ExtendsReflexive(b: Board)
    ensures Extends(b, b)
  {
    assert b.events[|b.events|..] == [];
  }

  lemma ExtendsTransitive(a: Board, b: Board, c: Board)
    requires Extends(a, b) && Extends(b, c)
    ensures Extends(a, c)
  {
    var first, second := b.events[|a.events|..], c.events[|b.events|..];
    assert c.events[|a.events|..] == first + second;
    ReplayConcat(a.tasks, first, second);
  }

  lemma CountAppend(events: seq<Event>, event: Event, id: nat)
    ensures Count(events + [event], id) == Count(events, id) + if Concerns(event, id) then 1 else 0
  {
    assert (events + [event])[..|events|] == events;
  }

  lemma NumberedAppend(events: seq<Event>, event: Event)
    requires WellNumbered(events) && event.cursor == |events| + 1
    requires !event.data.DeviceRegistered? ==> Snapshot(event).version == Count(events, event.entityId) + 1
    ensures WellNumbered(events + [event])
  {
    var all := events + [event];
    CountAppend(events, event, event.entityId);
    assert all[..|all|] == all;
    forall k | 0 <= k < |all| && !all[k].data.DeviceRegistered?
      ensures Snapshot(all[k]).version == Count(all[..k + 1], all[k].entityId)
    {
      if k < |events| {
        assert all[..k + 1] == events[..k + 1];
      }
    }
  }

  /** Logging one event, with the task it carries written to the table at its next version. */
  lemma AppendAgrees(b: Board, b': Board, event: Event)
    requires LogAgrees(b) && b'.events == b.events + [event] && event.cursor == |b.events| + 1
    requires b'.tasks == ApplyEvent(b.tasks, event) && b.nextExecution <= b'.nextExecution
    requires match event.data
             case DeviceRegistered(_) => true
             case TaskCreated(task) => event.entityId == |b.tasks| && task.version == 1
             case TaskUpdated(task) =>
               event.entityId < |b.tasks| && task.version == b.tasks[event.entityId].version + 1
    ensures LogAgrees(b') && Extends(b, b')
  {
    NumberedAppend(b.events, event);
    assert b'.events[|b.events|..] == [event];
    ReplayConcat([], b.events, [event]);
    assert Replay(b.tasks, [event]) == Replay(ApplyEvent(b.tasks, event), []);
    forall i: nat ensures Count(b'.events, i) == Count(b.events, i) + if Concerns(event, i) then 1 else 0 {
      CountAppend(b.events, event, i);
    }
  }

  lemma PutTaskFacts(b: Board, id: nat, task: Task)
    requires LogAgrees(b) && id < |b.tasks| && task.version == b.tasks[id].version + 1
    ensures LogAgrees(PutTask(b, id, task)) && Extends(b, PutTask(b, id, task))
  {
    var b' := PutTask(b, id, task);
    AppendAgrees(b, b', b'.events[|b.events|]);
  }

  lemma AppendDeviceFacts(b: Board, now: int)
    requires LogAgrees(b)
    ensures LogAgrees(RegisterDevice(b, now)) && Extends(b, RegisterDevice(b, now))
  {
    var b' := RegisterDevice(b, now);
    AppendAgrees(b, b', b'.events[|b.events|]);
  }

  lemma CreateTaskFacts(b: Board, now: int, title: string, deviceId: nat)
    requires LogAgrees(b)
    ensures LogAgrees(CreateTask(b, now, title, deviceId).0) && Extends(b, CreateTask(b, now, title, deviceId).0)
  {
    var (b', r) := CreateTask(b, now, title, deviceId);
    if r.Ok? {
      AppendAgrees(b, b', b'.events[|b.events|]);
    } else {
      ExtendsReflexive(b);
    }
  }

  // ---- Every step keeps the invariant ----

  /** What is proved of every operation. */
  ghost predicate Good(b: Board, b': Board) {
    Inv(b') && Extends(b, b')
  }

  lemma ExpireLeaseGood(b: Board, now: int, id: nat)
    requires Inv(b)
    ensures Good(b, ExpireLease(b, now, id))
  {
    if id < |b.tasks| && Live(b.tasks[id].status) && !LeaseActive(b, now, id) {
      var dropped := b.(executions := b.executions - {id});
      var task := ExpireLease(b, now, id).tasks[id];
      PutTaskFacts(dropped, id, task);
    } else {
      ExtendsReflexive(b);
    }
  }

  lemma ThenExpireLease(b: Board, mid: Board, now: int, id: nat)
    requires Good(b, mid)
    ensures Good(b, ExpireLease(mid, now, id))
  {
    ExpireLeaseGood(mid, now, id);
    ExtendsTransitive(b, mid, ExpireLease(mid, now, id));
  }

  ghost function GoodFrom(b: Board): Board -> bool {
    b' => Good(b, b')
  }

  /** Whatever expiring one lease keeps, expiring all of them keeps. */
  lemma {:induction false} ExpireLeasesKeep(kept: Board -> bool, b: Board, now: int, n: nat)
    requires kept(b) && forall mid, id: nat | kept(mid) :: kept(ExpireLease(mid, now, id))
    ensures kept(ExpireLeases(b, now, n))
    decreases n
  {
    if n > 0 {
      ExpireLeasesKeep(kept, b, now, n - 1);
    }
  }

  lemma ExpireLeasesGood(b: Board, now: int, n: nat, b': Board)
    requires Inv(b) && b' == ExpireLeases(b, now, n)
    ensures Good(b, b')
  {
    ExtendsReflexive(b);
    forall mid, id: nat | GoodFrom(b)(mid) ensures GoodFrom(b)(ExpireLease(mid, now, id)) {
      ThenExpireLease(b, mid, now, id);
    }
    ExpireLeasesKeep(GoodFrom(b), b, now, n);
    assert GoodFrom(b)(b');
  }

  ghost predicate ExecutionMove(b: Board, id: nat, status: TaskStatus, executions: map<nat, Execution>,
                                nextExecution: nat)
  {
    && (id in executions <==> Live(status))
    && (forall i: nat | i != id :: (i in executions <==> i in b.executions)
                                   && (i in executions ==> executions[i] == b.executions[i]))
    && (id in executions && id in b.executions ==> executions[id] == b.executions[id])
    && (id in executions && id !in b.executions ==> executions[id].executionId == b.nextExecution < nextExecution)
    && b.nextExecution <= nextExecution
  }

  lemma MoveAgrees(b: Board, id: nat, task: Task, executions: map<nat, Execution>, nextExecution: nat)
    requires ExecutionsAgree(b) && id < |b.tasks|
    requires ExecutionMove(b, id, task.status, executions, nextExecution)
    ensures ExecutionsAgree(PutTask(b.(executions := executions, nextExecution := nextExecution), id, task))
  {
    forall i: nat, j: nat | i in executions && j in executions && executions[i].executionId == executions[j].executionId
      ensures i == j
    {
      if i != id && j != id {
        assert i in b.executions && j in b.executions;
      }
    }
  }

  /** Moving a task: its next version, with executions changed for that task alone. */
  lemma MoveGood(b: Board, id: nat, task: Task, executions: map<nat, Execution>, nextExecution: nat)
    requires Inv(b) && id < |b.tasks| && task.version == b.tasks[id].version + 1
    requires ExecutionMove(b, id, task.status, executions, nextExecution)
    ensures Good(b, PutTask(b.(executions := executions, nextExecution := nextExecution), id, task))
  {
    PutTaskFacts(b.(executions := executions, nextExecution := nextExecution), id, task);
    MoveAgrees(b, id, task, executions, nextExecution);
  }

  lemma ClaimMoves(b: Board, now: int, id: nat, version: nat, claimId: string, leaseToken: string)
    requires ExecutionsAgree(ExpireLease(b, now, id))
    requires ClaimTask(b, now, id, version, claimId, leaseToken).1.Ok?
    requires !ClaimTask(b, now, id, version, claimId, leaseToken).1.value.replayed
    ensures var mid := ExpireLease(b, now, id);
            var (b', r) := ClaimTask(b, now, id, version, claimId, leaseToken);
            && id < |mid.tasks| && id !in mid.executions
            && r.value.task.status == Running && version == mid.tasks[id].version
            && r.value.task.version == version + 1
            && r.value.executionId == mid.nextExecution
            && b'.nextExecution == mid.nextExecution + 1
            && b'.executions == mid.executions[id :=
                 Execution(mid.nextExecution, claimId, leaseToken, now + TASK_LEASE_DURATION_MS)]
            && b' == PutTask(mid.(executions := b'.executions, nextExecution := b'.nextExecution), id, r.value.task)
  {
  }

  lemma ClaimTaskGood(b: Board, now: int, id: nat, version: nat, claimId: string, leaseToken: string)
    requires Inv(b)
    ensures Good(b, ClaimTask(b, now, id, version, claimId, leaseToken).0)
  {
    var mid := ExpireLease(b, now, id);
    var (b', r) := ClaimTask(b, now, id, version, claimId, leaseToken);
    ExpireLeaseGood(b, now, id);
    if r.Ok? && !r.value.replayed {
      ClaimMoves(b, now, id, version, claimId, leaseToken);
      MoveGood(mid, id, r.value.task, b'.executions, b'.nextExecution);
      ExtendsTransitive(b, mid, b');
    }
  }

  lemma UpdateTaskGood(b: Board, now: int, id: nat, status: TaskStatus, version: nat, result: Field, error: Field,
                       credential: Option<Credential>)
    requires Inv(b)
    ensures Good(b, UpdateTask(b, now, id, status, version, result, error, credential).0)
  {
    var mid := ExpireLease(b, now, id);
    var (b', r) := UpdateTask(b, now, id, status, version, result, error, credential);
    ExpireLeaseGood(b, now, id);
    if b' != mid {
      UpdateMoves(b, now, id, status, version, result, error, credential);
      MoveGood(mid, id, r.value, b'.executions, b'.nextExecution);
      ExtendsTransitive(b, mid, b');
    }
  }

  lemma ApplyMoves(b: Board, now: int, id: nat, status: TaskStatus, result: Field, error: Field)
    requires id < |b.tasks| && ApplyUpdate(b, now, id, status, result, error).0 != b
    ensures var (b', r) := ApplyUpdate(b, now, id, status, result, error);
            && r.Ok? && r.value.status == status && r.value.version == b.tasks[id].version + 1
            && b'.nextExecution == b.nextExecution
            && b'.executions == (if Final(status) then b.executions - {id} else b.executions)
            && b' == PutTask(b.(executions := b'.executions), id, r.value)
  {
  }

  /** An update that changes anything beyond expiring a lease moves the task. */
  lemma UpdateMoves(b: Board, now: int, id: nat, status: TaskStatus, version: nat, result: Field, error: Field,
                    credential: Option<Credential>)
    requires Inv(b)
    requires var mid := ExpireLease(b, now, id);
             ExecutionsAgree(mid) && UpdateTask(b, now, id, status, version, result, error, credential).0 != mid
    ensures var mid := ExpireLease(b, now, id);
            var (b', r) := UpdateTask(b, now, id, status, version, result, error, credential);
            && r.Ok? && id < |mid.tasks| && r.value.status == status && r.value.version == mid.tasks[id].version + 1
            && (status == Running ==> Live(mid.tasks[id].status))
            && Allowed(mid.tasks[id].status, status)
            && b'.nextExecution == mid.nextExecution
            && b'.executions == (if Live(status) then mid.executions else mid.executions - {id})
            && b' == PutTask(mid.(executions := b'.executions), id, r.value)
  {
    ApplyMoves(ExpireLease(b, now, id), now, id, status, result, error);
  }

  lemma RenewalGood(b: Board, id: nat, now: int, devices: seq<Device>)
    requires Inv(b) && id in b.executions
    ensures Good(b, b.(devices := devices, executions := b.executions[id := Renewed(b.executions[id], now)]))
  {
    ExtendsReflexive(b);
  }

  lemma HeartbeatGood(b: Board, now: int, deviceId: nat, beat: Option<LeaseBeat>)
    requires Inv(b)
    ensures Good(b, Heartbeat(b, now, deviceId, beat).0)
  {
    var b' := Heartbeat(b, now, deviceId, beat).0;
    if beat.Some? && Heartbeat(b, now, deviceId, beat).1.Ok? {
      RenewalGood(b, beat.value.taskId, now, b'.devices);
    } else {
      ExtendsReflexive(b);
    }
  }

  lemma RenewExecutionGood(b: Board, now: int, id: nat, executionId: nat)
    requires Inv(b)
    ensures Good(b, RenewExecution(b, now, id, executionId).0)
  {
    if AssertExecution(b, now, id, executionId).Ok? {
      RenewalGood(b, id, now, b.devices);
    } else {
      ExtendsReflexive(b);
    }
  }

  lemma RegisterDeviceGood(b: Board, now: int)
    requires Inv(b)
    ensures Good(b, RegisterDevice(b, now))
  {
    AppendDeviceFacts(b, now);
  }

  lemma CreateTaskExecutions(b: Board, now: int, title: string, deviceId: nat)
    requires ExecutionsAgree(b)
    ensures ExecutionsAgree(CreateTask(b, now, title, deviceId).0)
  {
  }

  lemma CreateTaskGood(b: Board, now: int, title: string, deviceId: nat)
    requires Inv(b)
    ensures Good(b, CreateTask(b, now, title, deviceId).0)
  {
    CreateTaskFacts(b, now, title, deviceId);
    CreateTaskExecutions(b, now, title, deviceId);
  }

  lemma ListDevicesGood(b: Board, now: int)
    requires Inv(b)
    ensures Good(b, ListDevices(b, now))
  {
    ExtendsReflexive(b);
  }

  lemma ListTasksStepGood(b: Board, now: int)
    requires Inv(b)
    ensures Good(b, Step(b, now, ListTasksOp))
  {
    ExpireLeasesGood(b, now, |b.tasks|, Step(b, now, ListTasksOp));
  }

  lemma ClaimStepGood(b: Board, now: int, id: nat, version: nat, claimId: string, leaseToken: string)
    requires Inv(b)
    ensures Good(b, Step(b, now, ClaimOp(id, version, claimId, leaseToken)))
  {
    ClaimTaskGood(b, now, id, version, claimId, leaseToken);
  }

  lemma UpdateStepGood(b: Board, now: int, id: nat, status: TaskStatus, version: nat, result: Field, error: Field,
                       credential: Option<Credential>)
    requires Inv(b)
    ensures Good(b, Step(b, now, UpdateOp(id, status, version, result, error, credential)))
  {
    UpdateTaskGood(b, now, id, status, version, result, error, credential);
  }

  lemma StepGood(b: Board, now: int, op: Op)
    requires Inv(b)
    ensures Good(b, Step(b, now, op))
  {
    match op
    case RegisterDeviceOp => RegisterDeviceGood(b, now);
    case ListDevicesOp => ListDevicesGood(b, now);
    case HeartbeatOp(deviceId, beat) => HeartbeatGood(b, now, deviceId, beat);
    case CreateTaskOp(title, deviceId) => CreateTaskGood(b, now, title, deviceId);
    case ListTasksOp => ListTasksStepGood(b, now);
    case GetTaskOp(id) => ExpireLeaseGood(b, now, id);
    case ClaimOp(id, version, claimId, leaseToken) => ClaimStepGood(b, now, id, version, claimId, leaseToken);
    case UpdateOp(id, status, version, result, error, credential) =>
      UpdateStepGood(b, now, id, status, version, result, error, credential);
    case RenewOp(id, executionId) => RenewExecutionGood(b, now, id, executionId);
    case AssertExecutionOp(id, _) => ExpireLeaseGood(b, now, id);
    case AssertLeaseOp(id, _) => ExpireLeaseGood(b, now, id);
  }

  lemma {:induction false} RunGood(b: Board, calls: seq<Call>)
    requires Inv(b)
    ensures Good(b, Run(b, calls))
    decreases |calls|
  {
    if calls == [] {
      ExtendsReflexive(b);
    } else {
      var mid := Step(b, calls[0].now, calls[0].op);
      StepGood(b, calls[0].now, calls[0].op);
      RunGood(mid, calls[1..]);
      ExtendsTransitive(b, mid, Run(mid, calls[1..]));
    }
  }

  lemma EmptyBoardInv()
    ensures Inv(EmptyBoard)
  {
  }

  // ---- Main results on the log ----

  lemma SyncRebuilds(events: seq<Event>, c: nat)
    requires c <= |events| && forall k | 0 <= k < |events| :: events[k].cursor == k + 1
    ensures Replay(Replay([], events[..c]), AfterCursor(events, c)) == Replay([], events)
  {
    AfterCursorIsSuffix(events, 0, c);
    ReplayConcat([], events[..c], events[c..]);
    assert events[..c] + events[c..] == events;
  }

  /** A client that holds the task table as the first c events of the log make it, for any c, and
      then fetches the events after cursor c, rebuilds the current table by replaying them. The
      table at any earlier moment was what the log made it then. */
  lemma SyncRebuildsTasks(before: seq<Call>, after: seq<Call>, c: nat)
    requires c <= |Run(Run(EmptyBoard, before), after).events|
    ensures var b := Run(EmptyBoard, before);
            var b' := Run(b, after);
            && LogAgrees(b')
            && b.events <= b'.events && Replay([], b.events) == b.tasks
            && Replay(Replay([], b'.events[..c]), EventsAfter(b', c)) == b'.tasks
  {
    EmptyBoardInv();
    RunGood(EmptyBoard, before);
    RunGood(Run(EmptyBoard, before), after);
    SyncRebuilds(Run(Run(EmptyBoard, before), after).events, c);
  }

  lemma {:induction false} AfterCursorIsSuffix(events: seq<Event>, offset: nat, cursor: nat)
    requires forall k | 0 <= k < |events| :: events[k].cursor == offset + k + 1
    requires offset <= cursor <= offset + |events| || cursor <= offset
    ensures AfterCursor(events, cursor) == events[if cursor <= offset then 0 else cursor - offset..]
    decreases |events|
  {
    if events != [] {
      AfterCursorIsSuffix(events[1..], offset + 1, cursor);
    }
  }

  lemma {:induction false} CountMonotone(first: seq<Event>, second: seq<Event>, id: nat)
    ensures Count(first, id) <= Count(first + second, id)
    decreases |second|
  {
    if second == [] {
      assert first + second == first;
    } else {
      var front := second[..|second| - 1];
      CountMonotone(first, front, id);
      assert (first + second)[..|first + second| - 1] == first + front;
    }
  }

  lemma {:induction false} ReplayUntouched(tasks: seq<Task>, before: seq<Event>, after: seq<Event>, id: nat)
    requires id < |tasks| && Count(before + after, id) == Count(before, id)
    ensures id < |Replay(tasks, after)| && Replay(tasks, after)[id] == tasks[id]
    decreases |after|
  {
    if after != [] {
      assert before + after == (before + [after[0]]) + after[1..];
      CountAppend(before, after[0], id);
      CountMonotone(before + [after[0]], after[1..], id);
      ReplayUntouched(ApplyEvent(tasks, after[0]), before + [after[0]], after[1..], id);
    }
  }

  /** A task that later events do not speak of stays as it is. */
  lemma SameCountSameRecord(tasks: seq<Task>, before: seq<Event>, events: seq<Event>, id: nat)
    requires before <= events && id < |tasks| && Count(events, id) == Count(before, id)
    ensures var tasks' := Replay(tasks, events[|before|..]);
            id < |tasks'| && tasks'[id] == tasks[id]
  {
    assert events == before + events[|before|..];
    ReplayUntouched(tasks, before, events[|before|..], id);
  }

  lemma VersionsCount(b: Board, id: nat)
    requires LogAgrees(b) && id < |b.tasks|
    ensures b.tasks[id].version == Count(b.events, id)
  {
  }

  lemma SameVersionBetween(b: Board, b': Board, id: nat)
    requires LogAgrees(b) && LogAgrees(b') && Extends(b, b') && id < |b.tasks|
    ensures b'.tasks[id].version == b.tasks[id].version ==> b'.tasks[id] == b.tasks[id]
  {
    VersionsCount(b, id);
    VersionsCount(b', id);
    if b'.tasks[id].version == b.tasks[id].version {
      SameCountSameRecord(b.tasks, b.events, b'.events, id);
    }
  }

  /** Two observations of a task with the same version are the same record. */
  lemma SameVersionSameRecord(b: Board, calls: seq<Call>, id: nat)
    requires Inv(b) && id < |b.tasks|
    ensures id < |Run(b, calls).tasks|
    ensures Run(b, calls).tasks[id].version == b.tasks[id].version ==> Run(b, calls).tasks[id] == b.tasks[id]
  {
    RunGood(b, calls);
    SameVersionBetween(b, Run(b, calls), id);
  }
}
