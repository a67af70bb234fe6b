/** What each call on tasks answers and writes, told from the caller's side: by the records as they
    stand, the moment of the call and what it carries. */
module TaskOutcomes {
  import opened Common
  import opened TaskBoard

  // ---- The terms ----

  predicate Working(t: Task) {
    t.status in {Running, Waiting}
  }

  /** The task is running or waiting, and no lease keeps it. */
  predicate Lapsed(b: Board, now: int, id: nat) {
    id < |b.tasks| && Working(b.tasks[id]) && !(id in b.executions && now < b.executions[id].leaseExpiresAt)
  }

  /** The credential is that of the execution the task has, and its lease has not run out. */
  predicate Presents(b: Board, now: int, id: nat, c: Credential) {
    && id in b.executions && now < b.executions[id].leaseExpiresAt
    && c == Credential(b.executions[id].executionId, b.executions[id].leaseToken)
  }

  predicate Reachable(b: Board, now: int, device: nat) {
    device < |b.devices| && b.devices[device].online && now <= b.devices[device].lastSeenAt + 45_000
  }

  predicate MayBecome(from: TaskStatus, to: TaskStatus) {
    from == to
    || (from, to) in {(Draft, Running), (Draft, TaskStatus.Failed), (Draft, Cancelled),
                      (Running, Waiting), (Running, Complete), (Running, TaskStatus.Failed), (Running, Cancelled),
                      (Waiting, Running), (Waiting, Complete), (Waiting, TaskStatus.Failed), (Waiting, Cancelled),
                      (Complete, Running), (TaskStatus.Failed, Running), (Cancelled, Running)}
  }

  predicate Longer(field: Field, limit: nat) {
    field.Text? && |field.text| > limit
  }

  /** Some text with at least one character that is not white space. */
  predicate Says(text: Option<string>) {
    text.Some? && exists c | c in text.value :: !IsSpace(c)
  }

  /** What a field holds afterwards: left out it stays, null clears it, text sets it. */
  function Given(field: Field, before: Option<string>): Option<string> {
    if field == Absent then before else if field == Null then None else Some(field.text)
  }

  /** The task is written and logged; devices stay, and of the executions at most that of the task changes. */
  predicate Writes(b: Board, b': Board, id: nat, task: Task, executions: map<nat, Execution>, next: nat) {
    id < |b.tasks|
    && b' == Board(b.devices, b.tasks[id := task], executions, next,
                   b.events + [Event(|b.events| + 1, id, TaskUpdated(task))])
  }

  // ---- Lapsed leases ----

  /** A task whose lease has run out fails, without result, with a text that says whether there was
      an execution at all, and loses the execution; any other task is left alone. */
  lemma LapsedTaskFails(b: Board, now: int, id: nat)
    ensures var b' := ExpireLease(b, now, id);
            if Lapsed(b, now, id) then
              && b'.tasks[id].status == TaskStatus.Failed && !Lapsed(b', now, id)
              && Writes(b, b', id, Task(b.tasks[id].title, b.tasks[id].deviceId, TaskStatus.Failed, now,
                                        b.tasks[id].version + 1, None,
                                        Some(if id in b.executions then TASK_LEASE_EXPIRED_ERROR
                                             else LEGACY_TASK_INTERRUPTED_ERROR)),
                        b.executions - {id}, b.nextExecution)
            else b' == b
  {
  }

  /** A claim of a lapsed task acts as if the task had failed before it, and so does an update. */
  lemma ClaimAfterExpiry(b: Board, mid: Board, now: int, id: nat, version: nat, claimId: string, leaseToken: string)
    requires mid == ExpireLease(b, now, id)
    ensures !Lapsed(mid, now, id)
    ensures ClaimTask(b, now, id, version, claimId, leaseToken)
            == ClaimTask(mid, now, id, version, claimId, leaseToken)
  {
    LapsedTaskFails(b, now, id);
    LapsedTaskFails(mid, now, id);
  }

  lemma UpdateAfterExpiry(b: Board, mid: Board, now: int, id: nat, status: TaskStatus, version: nat, result: Field,
                          error: Field, credential: Option<Credential>)
    requires mid == ExpireLease(b, now, id)
    ensures !Lapsed(mid, now, id)
    ensures UpdateTask(b, now, id, status, version, result, error, credential)
            == UpdateTask(mid, now, id, status, version, result, error, credential)
  {
    LapsedTaskFails(b, now, id);
    LapsedTaskFails(mid, now, id);
  }

  // ---- Updates ----

  /** The checks of an update, in the order in which they answer. */
  function UpdateChecks(b: Board, now: int, id: nat, status: TaskStatus, version: nat, result: Field, error: Field,
                        credential: Option<Credential>): Checks<TaskError>
    requires id < |b.tasks|
  {
    var t := b.tasks[id];
    var leased := Working(t) && status != Cancelled;
    Checks(None)
    .Then(t.version != version, VersionConflict)
    .Then(status == Running && !Working(t), ClaimRequired)
    .Then(!MayBecome(t.status, status), InvalidTransition)
    .Then(leased && credential.None?, LeaseRequired)
    .Then(leased && credential.Some? && !Presents(b, now, id, credential.value), LeaseExpired)
    .Then(Longer(result, 50_000), ResultTooLarge)
    .Then(Longer(error, 5_000), ErrorTooLarge)
  }

  lemma ChecksAgree(b: Board, now: int, id: nat, status: TaskStatus, version: nat, result: Field, error: Field,
                    credential: Option<Credential>)
    requires id < |b.tasks| && !Lapsed(b, now, id)
    ensures UpdateRefusal(b, now, id, status, version, result, error, credential)
            == UpdateChecks(b, now, id, status, version, result, error, credential).found
  {
  }

  /** An update of an unknown task fails. One refused by a check changes nothing. One that leaves the
      status and gives neither field returns the task as it is. */
  lemma UpdateIsRefused(b: Board, now: int, id: nat, status: TaskStatus, version: nat, result: Field, error: Field,
                        credential: Option<Credential>)
    requires !Lapsed(b, now, id)
    ensures var (b', r) := UpdateTask(b, now, id, status, version, result, error, credential);
            && (id >= |b.tasks| ==> b' == b && r == Err(TaskNotFound))
            && (id < |b.tasks| ==>
                  var refused := UpdateChecks(b, now, id, status, version, result, error, credential).found;
                  && (refused.Some? ==> b' == b && r == Err(refused.value))
                  && (refused.None? && b.tasks[id].status == status && result == Absent && error == Absent
                      ==> b' == b && r == Ok(b.tasks[id])))
  {
    LapsedTaskFails(b, now, id);
    if id < |b.tasks| {
      ChecksAgree(b, now, id, status, version, result, error, credential);
    }
  }

  /** What an update that passes its checks comes to: a complete task keeps no error, a failed one no
      result, a cancelled one and one that resumes neither; whatever is kept is what the caller gave,
      or what was there if nothing was given. Complete needs a result, failed an error, with some
      text in it. */
  predicate Comes(b: Board, now: int, id: nat, status: TaskStatus, result: Field, error: Field, b': Board,
                  r: Result<Task, TaskError>)
    requires id < |b.tasks|
  {
    var t := b.tasks[id];
    var resumes := t.status == Waiting && status == Running;
    var text := if status in {TaskStatus.Failed, Cancelled} || resumes then None else Given(result, t.result);
    var reason := if status in {Complete, Cancelled} || resumes then None else Given(error, t.error);
    var task := Task(t.title, t.deviceId, status, now, t.version + 1, text, reason);
    var executions := if status in {Complete, TaskStatus.Failed, Cancelled} then b.executions - {id} else b.executions;
    if status == Complete && !Says(text) then b' == b && r == Err(ResultRequired)
    else if status == TaskStatus.Failed && !Says(reason) then b' == b && r == Err(ErrorRequired)
    else r == Ok(task) && Writes(b, b', id, task, executions, b.nextExecution)
  }

  lemma ApplyComes(b: Board, now: int, id: nat, status: TaskStatus, result: Field, error: Field)
    requires id < |b.tasks| && !(b.tasks[id].status == status && result == Absent && error == Absent)
    ensures var (b', r) := ApplyUpdate(b, now, id, status, result, error);
            Comes(b, now, id, status, result, error, b', r)
  {
  }

  /** Every update that passes its checks and gives something new comes to exactly that. */
  lemma UpdateWrites(b: Board, now: int, id: nat, status: TaskStatus, version: nat, result: Field, error: Field,
                     credential: Option<Credential>)
    requires !Lapsed(b, now, id) && id < |b.tasks|
    requires UpdateChecks(b, now, id, status, version, result, error, credential).found.None?
    requires !(b.tasks[id].status == status && result == Absent && error == Absent)
    ensures var (b', r) := UpdateTask(b, now, id, status, version, result, error, credential);
            Comes(b, now, id, status, result, error, b', r)
  {
    LapsedTaskFails(b, now, id);
    ChecksAgree(b, now, id, status, version, result, error, credential);
    ApplyComes(b, now, id, status, result, error);
  }

  /** Completing a task one works on succeeds exactly when it ends with a result that says something:
      the one given, or the one it had if none is given. */
  lemma CompletingNeedsAResult(b: Board, now: int, id: nat, result: Field, error: Field, c: Credential)
    requires id < |b.tasks| && Working(b.tasks[id]) && Presents(b, now, id, c)
    requires !Longer(result, 50_000) && !Longer(error, 5_000)
    ensures var (b', r) := UpdateTask(b, now, id, Complete, b.tasks[id].version, result, error, Some(c));
            && (r.Ok? <==> Says(Given(result, b.tasks[id].result)))
            && (r.Ok? ==>
                  && r.value == b'.tasks[id] && id !in b'.executions
                  && r.value.status == Complete && r.value.result == Given(result, b.tasks[id].result)
                  && r.value.error == None)
            && (r.Err? ==> b' == b && r == Err(ResultRequired))
  {
    UpdateWrites(b, now, id, Complete, b.tasks[id].version, result, error, Some(c));
  }

  lemma FailingNeedsAnError(b: Board, now: int, id: nat, result: Field, error: Field, c: Credential)
    requires id < |b.tasks| && Working(b.tasks[id]) && Presents(b, now, id, c)
    requires !Longer(result, 50_000) && !Longer(error, 5_000)
    ensures var (b', r) := UpdateTask(b, now, id, TaskStatus.Failed, b.tasks[id].version, result, error, Some(c));
            && (r.Ok? <==> Says(Given(error, b.tasks[id].error)))
            && (r.Ok? ==>
                  && r.value == b'.tasks[id] && id !in b'.executions
                  && r.value.status == TaskStatus.Failed && r.value.error == Given(error, b.tasks[id].error)
                  && r.value.result == None)
            && (r.Err? ==> b' == b && r == Err(ErrorRequired))
  {
    UpdateWrites(b, now, id, TaskStatus.Failed, b.tasks[id].version, result, error, Some(c));
  }

  /** Anyone may cancel a task that has not ended; nothing of its result or error stays. */
  lemma AnyoneMayCancel(b: Board, now: int, id: nat, result: Field, error: Field, credential: Option<Credential>)
    requires id < |b.tasks| && !Lapsed(b, now, id) && b.tasks[id].status in {Draft, Running, Waiting}
    requires !Longer(result, 50_000) && !Longer(error, 5_000)
    ensures var (b', r) := UpdateTask(b, now, id, Cancelled, b.tasks[id].version, result, error, credential);
            && r.Ok? && r.value == b'.tasks[id] && id !in b'.executions
            && r.value.status == Cancelled && r.value.result == None && r.value.error == None
  {
    UpdateWrites(b, now, id, Cancelled, b.tasks[id].version, result, error, credential);
  }

  /** Resuming a task that waits clears both. */
  lemma ResumingClearsBoth(b: Board, now: int, id: nat, result: Field, error: Field, c: Credential)
    requires id < |b.tasks| && b.tasks[id].status == Waiting && Presents(b, now, id, c)
    requires !Longer(result, 50_000) && !Longer(error, 5_000)
    ensures var (b', r) := UpdateTask(b, now, id, Running, b.tasks[id].version, result, error, Some(c));
            && r.Ok? && r.value == b'.tasks[id] && b'.executions == b.executions
            && r.value.status == Running && r.value.result == None && r.value.error == None
  {
    UpdateWrites(b, now, id, Running, b.tasks[id].version, result, error, Some(c));
  }

  /** A report while working, or going to wait, keeps, clears or sets each field as it is given. */
  lemma ReportSetsFields(b: Board, now: int, id: nat, status: TaskStatus, result: Field, error: Field, c: Credential)
    requires id < |b.tasks| && Presents(b, now, id, c) && !(result == Absent && error == Absent)
    requires (b.tasks[id].status, status) in {(Running, Running), (Running, Waiting), (Waiting, Waiting)}
    requires !Longer(result, 50_000) && !Longer(error, 5_000)
    ensures var (b', r) := UpdateTask(b, now, id, status, b.tasks[id].version, result, error, Some(c));
            && r.Ok? && r.value == b'.tasks[id] && b'.executions == b.executions
            && r.value.status == status && r.value.result == Given(result, b.tasks[id].result)
            && r.value.error == Given(error, b.tasks[id].error)
  {
    UpdateWrites(b, now, id, status, b.tasks[id].version, result, error, Some(c));
  }

  // ---- Claims ----

  /** Claiming a task one works on gives the same execution back to who presents its claim, and to
      nobody else; no claim changes such a task. */
  lemma ClaimOfAWorkingTask(b: Board, now: int, id: nat, version: nat, claimId: string, leaseToken: string)
    requires id < |b.tasks| && Working(b.tasks[id]) && !Lapsed(b, now, id)
    ensures var (b', r) := ClaimTask(b, now, id, version, claimId, leaseToken);
            var e := b.executions[id];
            && b' == b
            && r == if e.claimId == claimId && e.leaseToken == leaseToken then
                      Ok(Claim(b.tasks[id], e.executionId, e.leaseExpiresAt, true))
                    else Err(AlreadyRunning)
  {
    LapsedTaskFails(b, now, id);
  }

  /** Claiming an idle task starts a new execution for 90 seconds exactly when the version is the
      current one and the device of the task can be reached; the task then runs, with neither result
      nor error. */
  lemma ClaimOfAnIdleTask(b: Board, now: int, id: nat, version: nat, claimId: string, leaseToken: string)
    requires !(id < |b.tasks| && Working(b.tasks[id]))
    ensures var (b', r) := ClaimTask(b, now, id, version, claimId, leaseToken);
            if id >= |b.tasks| then b' == b && r == Err(TaskNotFound)
            else
              var t := b.tasks[id];
              var task := Task(t.title, t.deviceId, Running, now, t.version + 1, None, None);
              var execution := Execution(b.nextExecution, claimId, leaseToken, now + 90_000);
              && (r.Ok? <==> version == t.version && Reachable(b, now, t.deviceId))
              && (r.Ok? ==>
                    && r.value == Claim(task, b.nextExecution, now + 90_000, false)
                    && Writes(b, b', id, task, b.executions[id := execution], b.nextExecution + 1))
              && (r.Err? ==> b' == b && r == Err(if version != t.version then VersionConflict else DeviceOffline))
  {
    LapsedTaskFails(b, now, id);
  }

  // ---- Leases ----

  /** A lease is renewed to 90 seconds from now exactly for the execution that still runs under it;
      a heartbeat with a lease asks in addition for its token and for the device of the task. */
  lemma RenewalAnswers(b: Board, now: int, id: nat, executionId: nat)
    ensures var (b', r) := RenewExecution(b, now, id, executionId);
            if id >= |b.tasks| then b' == b && r == Err(TaskNotFound)
            else if Working(b.tasks[id]) && !Lapsed(b, now, id) && b.executions[id].executionId == executionId then
              r == Ok(()) && b' == b.(executions :=
                b.executions[id := b.executions[id].(leaseExpiresAt := now + 90_000)])
            else b' == b && r == Err(LeaseExpired)
  {
  }

  lemma HeartbeatAnswers(b: Board, now: int, device: nat, beat: Option<LeaseBeat>)
    ensures var (b', r) := Heartbeat(b, now, device, beat);
            if device >= |b.devices| then b' == b && r == Err(DeviceNotFound)
            else
              var seen := b.devices[device := Device(true, now)];
              match beat
              case None => r == Ok(Device(true, now)) && b' == b.(devices := seen)
              case Some(LeaseBeat(id, c)) =>
                if id < |b.tasks| && Working(b.tasks[id]) && b.tasks[id].deviceId == device && Presents(b, now, id, c)
                then
                  r == Ok(Device(true, now))
                  && b' == b.(devices := seen,
                              executions := b.executions[id := b.executions[id].(leaseExpiresAt := now + 90_000)])
                else b' == b && r == Err(LeaseExpired)
  {
  }

  /** An execution is confirmed exactly while its task is worked on under it; a lease, exactly to who
      presents its token too. */
  lemma AssertionsAnswer(b: Board, now: int, id: nat, c: Credential)
    requires !Lapsed(b, now, id)
    ensures var (b1, execution) := AssertTaskExecution(b, now, id, c.executionId);
            var (b2, lease) := AssertTaskLease(b, now, id, c);
            && b1 == b && b2 == b
            && (id >= |b.tasks| ==> execution == Err(TaskNotFound) && lease == Err(TaskNotFound))
            && (id < |b.tasks| ==>
                  && execution == (if Working(b.tasks[id]) && b.executions[id].executionId == c.executionId then
                                     Ok(b.tasks[id]) else Err(LeaseExpired))
                  && lease == (if Working(b.tasks[id]) && Presents(b, now, id, c) then Ok(b.tasks[id])
                               else Err(LeaseExpired)))
  {
    LapsedTaskFails(b, now, id);
  }

  // ---- Outcomes over every run ----

  /** A complete task has a result that says something and no error, a failed one the reverse, a
      cancelled one neither. */
  predicate Told(t: Task) {
    && (t.status == Complete ==> Says(t.result) && t.error == None)
    && (t.status == TaskStatus.Failed ==> Says(t.error) && t.result == None)
    && (t.status == Cancelled ==> t.result == None && t.error == None)
  }

  ghost predicate AllTold(b: Board) {
    forall i | 0 <= i < |b.tasks| :: Told(b.tasks[i])
  }

  lemma ErrorsSaySomething()
    ensures Says(Some(TASK_LEASE_EXPIRED_ERROR)) && Says(Some(LEGACY_TASK_INTERRUPTED_ERROR))
  {
    assert TASK_LEASE_EXPIRED_ERROR[0] in TASK_LEASE_EXPIRED_ERROR && !IsSpace(TASK_LEASE_EXPIRED_ERROR[0]);
    assert LEGACY_TASK_INTERRUPTED_ERROR[0] in LEGACY_TASK_INTERRUPTED_ERROR
           && !IsSpace(LEGACY_TASK_INTERRUPTED_ERROR[0]);
  }

  lemma ExpiryTold(b: Board, now: int, id: nat)
    requires AllTold(b)
    ensures AllTold(ExpireLease(b, now, id))
  {
    ErrorsSaySomething();
    LapsedTaskFails(b, now, id);
  }

  lemma {:induction false} ExpiriesTold(b: Board, now: int, n: nat)
    requires AllTold(b)
    ensures AllTold(ExpireLeases(b, now, n))
    decreases n
  {
    if n > 0 {
      ExpiriesTold(b, now, n - 1);
      ExpiryTold(ExpireLeases(b, now, n - 1), now, n - 1);
    }
  }

  lemma UpdateTold(b: Board, now: int, id: nat, status: TaskStatus, version: nat, result: Field, error: Field,
                   credential: Option<Credential>, b': Board)
    requires AllTold(b) && !Lapsed(b, now, id)
    requires b' == UpdateTask(b, now, id, status, version, result, error, credential).0
    ensures AllTold(b')
  {
    UpdateIsRefused(b, now, id, status, version, result, error, credential);
    if id < |b.tasks| && UpdateChecks(b, now, id, status, version, result, error, credential).found.None?
       && !(b.tasks[id].status == status && result == Absent && error == Absent)
    {
      UpdateWrites(b, now, id, status, version, result, error, credential);
    }
  }

  lemma ClaimTold(b: Board, now: int, id: nat, version: nat, claimId: string, leaseToken: string, b': Board)
    requires AllTold(b) && !Lapsed(b, now, id) && b' == ClaimTask(b, now, id, version, claimId, leaseToken).0
    ensures AllTold(b')
  {
    if id < |b.tasks| && Working(b.tasks[id]) {
      ClaimOfAWorkingTask(b, now, id, version, claimId, leaseToken);
    } else {
      ClaimOfAnIdleTask(b, now, id, version, claimId, leaseToken);
    }
  }

  lemma ClaimStepTold(b: Board, now: int, id: nat, version: nat, claimId: string, leaseToken: string)
    requires AllTold(b)
    ensures AllTold(Step(b, now, ClaimOp(id, version, claimId, leaseToken)))
  {
    var mid := ExpireLease(b, now, id);
    ExpiryTold(b, now, id);
    ClaimAfterExpiry(b, mid, now, id, version, claimId, leaseToken);
    ClaimStepIs(b, mid, now, id, version, claimId, leaseToken);
    ClaimTold(mid, now, id, version, claimId, leaseToken, Step(b, now, ClaimOp(id, version, claimId, leaseToken)));
  }

  lemma ClaimStepIs(b: Board, mid: Board, now: int, id: nat, version: nat, claimId: string, leaseToken: string)
    requires ClaimTask(b, now, id, version, claimId, leaseToken)
             == ClaimTask(mid, now, id, version, claimId, leaseToken)
    ensures Step(b, now, ClaimOp(id, version, claimId, leaseToken))
            == ClaimTask(mid, now, id, version, claimId, leaseToken).0
  {
  }

  lemma UpdateStepTold(b: Board, now: int, id: nat, status: TaskStatus, version: nat, result: Field, error: Field,
                       credential: Option<Credential>)
    requires AllTold(b)
    ensures AllTold(Step(b, now, UpdateOp(id, status, version, result, error, credential)))
  {
    var mid := ExpireLease(b, now, id);
    ExpiryTold(b, now, id);
    UpdateAfterExpiry(b, mid, now, id, status, version, result, error, credential);
    UpdateStepIs(b, mid, now, id, status, version, result, error, credential);
    UpdateTold(mid, now, id, status, version, result, error, credential,
               Step(b, now, UpdateOp(id, status, version, result, error, credential)));
  }

  lemma UpdateStepIs(b: Board, mid: Board, now: int, id: nat, status: TaskStatus, version: nat, result: Field,
                     error: Field, credential: Option<Credential>)
    requires UpdateTask(b, now, id, status, version, result, error, credential)
             == UpdateTask(mid, now, id, status, version, result, error, credential)
    ensures Step(b, now, UpdateOp(id, status, version, result, error, credential))
            == UpdateTask(mid, now, id, status, version, result, error, credential).0
  {
  }

  lemma OtherStepTold(b: Board, now: int, op: Op)
    requires AllTold(b) && (op.RegisterDeviceOp? || op.ListDevicesOp? || op.HeartbeatOp? || op.RenewOp?)
    ensures Step(b, now, op).tasks == b.tasks
  {
  }

  lemma CreateStepTold(b: Board, now: int, title: string, device: nat)
    requires AllTold(b)
    ensures AllTold(Step(b, now, CreateTaskOp(title, device)))
  {
  }

  lemma ExpiryStepTold(b: Board, now: int, op: Op, id: nat)
    requires AllTold(b)
    requires op.ListTasksOp? || op == GetTaskOp(id) || (op.AssertExecutionOp? && op.checked == id)
             || (op.AssertLeaseOp? && op.leased == id)
    ensures AllTold(Step(b, now, op))
  {
    ExpiriesTold(b, now, |b.tasks|);
    ExpiryTold(b, now, id);
  }

  lemma StepTold(b: Board, now: int, op: Op)
    requires AllTold(b)
    ensures AllTold(Step(b, now, op))
  {
    match op
    case ListTasksOp => ExpiryStepTold(b, now, op, 0);
    case GetTaskOp(id) => ExpiryStepTold(b, now, op, id);
    case AssertExecutionOp(id, _) => ExpiryStepTold(b, now, op, id);
    case AssertLeaseOp(id, _) => ExpiryStepTold(b, now, op, id);
    case ClaimOp(id, version, claimId, leaseToken) => ClaimStepTold(b, now, id, version, claimId, leaseToken);
    case UpdateOp(id, status, version, result, error, credential) =>
      UpdateStepTold(b, now, id, status, version, result, error, credential);
    case CreateTaskOp(title, device) => CreateStepTold(b, now, title, device);
    case _ => OtherStepTold(b, now, op);
  }

  /** In every reachable state every ended task tells its outcome, and only that. */
  lemma {:induction false} EndedTasksTellTheirOutcome(b: Board, calls: seq<Call>)
    requires AllTold(b)
    ensures AllTold(Run(b, calls))
    decreases |calls|
  {
    if calls != [] {
      StepTold(b, calls[0].now, calls[0].op);
      EndedTasksTellTheirOutcome(Step(b, calls[0].now, calls[0].op), calls[1..]);
    }
  }

  // ---- Devices and new tasks ----

  /** A task is created as a draft of version 1, for a device that can be reached. */
  lemma CreationAnswers(b: Board, now: int, title: string, device: nat)
    ensures var (b', r) := CreateTask(b, now, title, device);
            var task := Task(title, device, Draft, now, 1, None, None);
            && (r.Ok? <==> Reachable(b, now, device))
            && (r.Ok? ==>
                  && r.value == |b.tasks|
                  && b' == b.(tasks := b.tasks + [task],
                              events := b.events + [Event(|b.events| + 1, |b.tasks|, TaskCreated(task))]))
            && (r.Err? ==> b' == b && r == Err(if device < |b.devices| then DeviceOffline else DeviceNotFound))
  {
  }

  /** Listing puts a device offline exactly when it was last seen more than 45 seconds ago; a device
      that registers is online. */
  lemma DevicesAnswer(b: Board, now: int, i: nat)
    ensures var listed, joined := ListDevices(b, now), RegisterDevice(b, now);
            && listed == b.(devices := listed.devices) && |listed.devices| == |b.devices|
            && (i < |b.devices| ==>
                  listed.devices[i] == if now > b.devices[i].lastSeenAt + 45_000 then
                                         Device(false, b.devices[i].lastSeenAt) else b.devices[i])
            && joined == b.(devices := b.devices + [Device(true, now)],
                            events := b.events + [Event(|b.events| + 1, |b.devices|,
                                                        DeviceRegistered(Device(true, now)))])
  {
  }
}
