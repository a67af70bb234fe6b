/** One user's devices, synced tasks, execution leases and event log, with every operation that
    changes them as a function of the board. */
module TaskBoard {
  import opened Common

  const TASK_LEASE_DURATION_MS := 90_000
  const DEVICE_OFFLINE_AFTER_MS := 45_000
  const MAX_RESULT_LENGTH := 50_000
  const MAX_ERROR_LENGTH := 5_000
  const TASK_LEASE_EXPIRED_ERROR := "执行设备已断开，任务租约过期，本次执行已中断。请检查项目状态后重新执行。"
  const LEGACY_TASK_INTERRUPTED_ERROR := "服务升级后无法确认原执行会话仍在运行，任务已安全中断。请检查项目状态后重新执行。"

  datatype TaskStatus = Draft | Running | Waiting | Complete | Failed | Cancelled

  datatype Device = Device(online: bool, lastSeenAt: int)

  datatype Task = Task(title: string, deviceId: nat, status: TaskStatus, updatedAt: int, version: nat,
                       result: Option<string>, error: Option<string>)

  /** Claim ids and lease tokens stand for their hashes: hashing keeps distinct tokens distinct. */
  datatype Execution = Execution(executionId: nat, claimId: string, leaseToken: string, leaseExpiresAt: int)

  datatype EventData = DeviceRegistered(device: Device) | TaskCreated(created: Task) | TaskUpdated(updated: Task)

  datatype Event = Event(cursor: nat, entityId: nat, data: EventData)

  /** Devices and tasks are never deleted, so ids are positions. Execution ids are serial. */
  datatype Board = Board(devices: seq<Device>, tasks: seq<Task>, executions: map<nat, Execution>,
                         nextExecution: nat, events: seq<Event>)

  const EmptyBoard := Board([], [], map[], 0, [])

  datatype TaskError =
    | DeviceNotFound | DeviceOffline | TaskNotFound | VersionConflict | AlreadyRunning | ClaimRequired
    | InvalidTransition | LeaseRequired | LeaseExpired | ResultTooLarge | ErrorTooLarge
    | ResultRequired | ErrorRequired

  datatype Credential = Credential(executionId: nat, leaseToken: string)

  datatype LeaseBeat = LeaseBeat(taskId: nat, credential: Credential)

  datatype Claim = Claim(task: Task, executionId: nat, leaseExpiresAt: int, replayed: bool)

  /** An outcome field of an update: left out, null, or text. */
  datatype Field = Absent | Null | Text(text: string)

  // ---- Transition rules ----

  predicate Live(status: TaskStatus) {
    status == Running || status == Waiting
  }

  predicate Allowed(current: TaskStatus, next: TaskStatus) {
    current == next ||
    match current
    case Draft => next in {Running, TaskStatus.Failed, Cancelled}
    case Running => next in {Waiting, Complete, TaskStatus.Failed, Cancelled}
    case Waiting => next in {Running, Complete, TaskStatus.Failed, Cancelled}
    case _ => next == Running
  }

  predicate IsSpace(c: char) {
    c in "\t\n\r \U{000B}\U{000C}\U{00A0}\U{1680}\U{2028}\U{2029}\U{202F}\U{205F}\U{3000}\U{FEFF}"
    || '\U{2000}' <= c <= '\U{200A}'
  }

  predicate Blank(text: Option<string>) {
    text.None? || forall c | c in text.value :: IsSpace(c)
  }

  function OutcomeError(status: TaskStatus, result: Option<string>, error: Option<string>): Option<TaskError> {
    if status == Complete && Blank(result) then Some(ResultRequired)
    else if status == TaskStatus.Failed && Blank(error) then Some(ErrorRequired)
    else None
  }

  // ---- The event log ----

  function Append(b: Board, entityId: nat, data: EventData): Board {
    b.(events := b.events + [Event(|b.events| + 1, entityId, data)])
  }

  function PutTask(b: Board, id: nat, task: Task): Board
    requires id < |b.tasks|
  {
    Append(b.(tasks := b.tasks[id := task]), id, TaskUpdated(task))
  }

  function EventsAfter(b: Board, cursor: nat): seq<Event> {
    AfterCursor(b.events, cursor)
  }

  function AfterCursor(events: seq<Event>, cursor: nat): seq<Event> {
    if events == [] then []
    else (if events[0].cursor > cursor then [events[0]] else []) + AfterCursor(events[1..], cursor)
  }

  // ---- Leases ----

  predicate LeaseActive(b: Board, now: int, id: nat) {
    id in b.executions && b.executions[id].leaseExpiresAt > now
  }

  /** Fail a running or waiting task whose lease has run out. */
  function ExpireLease(b: Board, now: int, id: nat): Board {
    if id >= |b.tasks| || !Live(b.tasks[id].status) || LeaseActive(b, now, id) then b
    else
      var t := b.tasks[id];
      var error := if id in b.executions then TASK_LEASE_EXPIRED_ERROR else LEGACY_TASK_INTERRUPTED_ERROR;
      PutTask(b.(executions := b.executions - {id}), id,
              t.(status := TaskStatus.Failed, result := None, error := Some(error),
                 version := t.version + 1, updatedAt := now))
  }

  /** Fail every such task among the first n, in creation order. */
  function ExpireLeases(b: Board, now: int, n: nat): Board {
    if n == 0 then b else ExpireLease(ExpireLeases(b, now, n - 1), now, n - 1)
  }

  predicate ExecutionHolds(b: Board, now: int, id: nat, executionId: nat) {
    && id < |b.tasks|
    && LeaseActive(b, now, id)
    && b.executions[id].executionId == executionId
    && Live(b.tasks[id].status)
  }

  function AssertExecution(b: Board, now: int, id: nat, executionId: nat): Result<Task, TaskError> {
    if id >= |b.tasks| then Err(TaskNotFound)
    else if !ExecutionHolds(b, now, id, executionId) then Err(LeaseExpired)
    else Ok(b.tasks[id])
  }

  // ---- Operations ----

  function DeviceReady(b: Board, now: int, deviceId: nat): bool {
    deviceId < |b.devices| && b.devices[deviceId].online
    && now - b.devices[deviceId].lastSeenAt <= DEVICE_OFFLINE_AFTER_MS
  }

  function RegisterDevice(b: Board, now: int): Board {
    var device := Device(true, now);
    Append(b.(devices := b.devices + [device]), |b.devices|, DeviceRegistered(device))
  }

  /** Listing devices marks the ones not seen for a while as offline. */
  function ListDevices(b: Board, now: int): Board {
    b.(devices := seq(|b.devices|, i requires 0 <= i < |b.devices| =>
      if now - b.devices[i].lastSeenAt <= DEVICE_OFFLINE_AFTER_MS then b.devices[i]
         else b.devices[i].(online := false)))
  }

  function CreateTask(b: Board, now: int, title: string, deviceId: nat): (Board, Result<nat, TaskError>) {
    if deviceId >= |b.devices| then (b, Err(DeviceNotFound))
    else if !DeviceReady(b, now, deviceId) then (b, Err(DeviceOffline))
    else
      var task := Task(title, deviceId, Draft, now, 1, None, None);
      (Append(b.(tasks := b.tasks + [task]), |b.tasks|, TaskCreated(task)), Ok(|b.tasks|))
  }

  function Renewed(e: Execution, now: int): Execution {
    e.(leaseExpiresAt := now + TASK_LEASE_DURATION_MS)
  }

  predicate BeatHolds(b: Board, now: int, deviceId: nat, beat: LeaseBeat) {
    && ExecutionHolds(b, now, beat.taskId, beat.credential.executionId)
    && b.tasks[beat.taskId].deviceId == deviceId
    && b.executions[beat.taskId].leaseToken == beat.credential.leaseToken
  }

  function Heartbeat(b: Board, now: int, deviceId: nat, beat: Option<LeaseBeat>): (Board, Result<Device, TaskError>) {
    if deviceId >= |b.devices| then (b, Err(DeviceNotFound))
    else if beat.Some? && !BeatHolds(b, now, deviceId, beat.value) then (b, Err(LeaseExpired))
    else
      var device := Device(true, now);
      var executions := if beat.None? then b.executions else
          b.executions[beat.value.taskId := Renewed(b.executions[beat.value.taskId], now)];
      (b.(devices := b.devices[deviceId := device], executions := executions), Ok(device))
  }

  function RenewExecution(b: Board, now: int, id: nat, executionId: nat): (Board, Result<(), TaskError>) {
    match AssertExecution(b, now, id, executionId)
    case Err(e) => (b, Err(e))
    case Ok(_) => (b.(executions := b.executions[id := Renewed(b.executions[id], now)]), Ok(()))
  }

  function AssertTaskExecution(b: Board, now: int, id: nat, executionId: nat): (Board, Result<Task, TaskError>) {
    var b' := ExpireLease(b, now, id);
    (b', AssertExecution(b', now, id, executionId))
  }

  function AssertTaskLease(b: Board, now: int, id: nat, credential: Credential): (Board, Result<Task, TaskError>) {
    var b' := ExpireLease(b, now, id);
    match AssertExecution(b', now, id, credential.executionId)
    case Err(e) => (b', Err(e))
    case Ok(task) =>
      if b'.executions[id].leaseToken != credential.leaseToken then (b', Err(LeaseExpired)) else (b', Ok(task))
  }

  function ClaimTask(b: Board, now: int, id: nat, version: nat, claimId: string, leaseToken: string)
    : (Board, Result<Claim, TaskError>)
  {
    var b' := ExpireLease(b, now, id);
    if id >= |b'.tasks| then (b', Err(TaskNotFound))
    else
      var current := b'.tasks[id];
      if Live(current.status) then
        if !LeaseActive(b', now, id) || b'.executions[id].claimId != claimId
           || b'.executions[id].leaseToken != leaseToken then
          (b', Err(AlreadyRunning))
        else
          (b', Ok(Claim(current, b'.executions[id].executionId, b'.executions[id].leaseExpiresAt, true)))
      else if current.version != version then (b', Err(VersionConflict))
      else if !Allowed(current.status, Running) then (b', Err(InvalidTransition))
      else if !DeviceReady(b', now, current.deviceId) then (b', Err(DeviceOffline))
      else
        var lease := now + TASK_LEASE_DURATION_MS;
        var task := current.(status := Running, result := None, error := None,
                             version := current.version + 1, updatedAt := now);
        var started := b'.(executions := b'.executions[id := Execution(b'.nextExecution, claimId, leaseToken, lease)],
                           nextExecution := b'.nextExecution + 1);
        (PutTask(started, id, task), Ok(Claim(task, b'.nextExecution, lease, false)))
  }

  predicate CredentialHolds(b: Board, now: int, id: nat, credential: Credential) {
    && LeaseActive(b, now, id)
    && b.executions[id].executionId == credential.executionId
    && b.executions[id].leaseToken == credential.leaseToken
  }

  function Chosen(field: Field, old_: Option<string>): Option<string> {
    match field
    case Absent => old_
    case Null => None
    case Text(text) => Some(text)
  }

  predicate Final(status: TaskStatus) {
    status == Complete || status == TaskStatus.Failed || status == Cancelled
  }

  function TransitionRefusal(current: Task, status: TaskStatus, version: nat): Option<TaskError> {
    if current.version != version then Some(VersionConflict)
    else if status == Running && !Live(current.status) then Some(ClaimRequired)
    else if !Allowed(current.status, status) then Some(InvalidTransition)
    else None
  }

  /** A running or waiting task is changed only under its lease, except that anyone may cancel it. */
  function LeaseRefusal(b: Board, now: int, id: nat, status: TaskStatus,
                        credential: Option<Credential>): Option<TaskError>
    requires id < |b.tasks|
  {
    if !Live(b.tasks[id].status) || status == Cancelled then None
    else if credential.None? then Some(LeaseRequired)
    else if !CredentialHolds(b, now, id, credential.value) then Some(LeaseExpired)
    else None
  }

  function SizeRefusal(result: Field, error: Field): Option<TaskError> {
    if result.Text? && |result.text| > MAX_RESULT_LENGTH then Some(ResultTooLarge)
    else if error.Text? && |error.text| > MAX_ERROR_LENGTH then Some(ErrorTooLarge)
    else None
  }

  /** The grounds on which an update is refused, in the order they are checked. */
  function UpdateRefusal(b: Board, now: int, id: nat, status: TaskStatus, version: nat, result: Field, error: Field,
                         credential: Option<Credential>): Option<TaskError>
    requires id < |b.tasks|
  {
    var transition := TransitionRefusal(b.tasks[id], status, version);
    var lease := LeaseRefusal(b, now, id, status, credential);
    if transition.Some? then transition
    else if lease.Some? then lease
    else SizeRefusal(result, error)
  }

  /** Result and error after an update: what the caller gave, as far as the new status keeps it. */
  function NewResult(current: Task, status: TaskStatus, given: Field): Option<string> {
    if (current.status == Waiting && status == Running) || status == TaskStatus.Failed || status == Cancelled then None
    else Chosen(given, current.result)
  }

  function NewError(current: Task, status: TaskStatus, given: Field): Option<string> {
    if (current.status == Waiting && status == Running) || status == Complete || status == Cancelled then None
    else Chosen(given, current.error)
  }

  /** The task an update writes. */
  function UpdatedTask(current: Task, now: int, status: TaskStatus, result: Field, error: Field): Task {
    current.(status := status, result := NewResult(current, status, result), error := NewError(current, status, error),
             version := current.version + 1, updatedAt := now)
  }

  /** Write a task; an ended one loses its execution. */
  function WriteTask(b: Board, id: nat, task: Task): Board
    requires id < |b.tasks|
  {
    PutTask(if Final(task.status) then b.(executions := b.executions - {id}) else b, id, task)
  }

  function UpdateTask(b: Board, now: int, id: nat, status: TaskStatus, version: nat, result: Field, error: Field,
                      credential: Option<Credential>): (Board, Result<Task, TaskError>)
  {
    var b' := ExpireLease(b, now, id);
    if id >= |b'.tasks| then (b', Err(TaskNotFound))
    else
      var refused := UpdateRefusal(b', now, id, status, version, result, error, credential);
      if refused.Some? then (b', Err(refused.value))
      else ApplyUpdate(b', now, id, status, result, error)
  }

  /** An update that is not refused: nothing to change, an outcome that is missing, or a write. */
  function ApplyUpdate(b: Board, now: int, id: nat, status: TaskStatus, result: Field, error: Field)
    : (Board, Result<Task, TaskError>)
    requires id < |b.tasks|
  {
    if b.tasks[id].status == status && result.Absent? && error.Absent? then (b, Ok(b.tasks[id]))
    else
      var task := UpdatedTask(b.tasks[id], now, status, result, error);
      match OutcomeError(status, task.result, task.error)
      case Some(refusal) => (b, Err(refusal))
      case None => (WriteTask(b, id, task), Ok(task))
  }

  // ---- One step of the board ----

  datatype Op =
    | RegisterDeviceOp
    | ListDevicesOp
    | HeartbeatOp(deviceId: nat, beat: Option<LeaseBeat>)
    | CreateTaskOp(title: string, onDevice: nat)
    | ListTasksOp
    | GetTaskOp(got: nat)
    | ClaimOp(claimed: nat, atVersion: nat, claimId: string, leaseToken: string)
    | UpdateOp(updated: nat, status: TaskStatus, version: nat, result: Field, error: Field,
               credential: Option<Credential>)
    | RenewOp(renewed: nat, renewedExecution: nat)
    | AssertExecutionOp(checked: nat, checkedExecution: nat)
    | AssertLeaseOp(leased: nat, leaseCredential: Credential)

  function Step(b: Board, now: int, op: Op): Board {
    match op
    case RegisterDeviceOp => RegisterDevice(b, now)
    case ListDevicesOp => ListDevices(b, now)
    case HeartbeatOp(deviceId, beat) => Heartbeat(b, now, deviceId, beat).0
    case CreateTaskOp(title, deviceId) => CreateTask(b, now, title, deviceId).0
    case ListTasksOp => ExpireLeases(b, now, |b.tasks|)
    case GetTaskOp(id) => ExpireLease(b, now, id)
    case ClaimOp(id, version, claimId, leaseToken) => ClaimTask(b, now, id, version, claimId, leaseToken).0
    case UpdateOp(id, status, version, result, error, credential) =>
      UpdateTask(b, now, id, status, version, result, error, credential).0
    case RenewOp(id, executionId) => RenewExecution(b, now, id, executionId).0
    case AssertExecutionOp(id, executionId) => AssertTaskExecution(b, now, id, executionId).0
    case AssertLeaseOp(id, credential) => AssertTaskLease(b, now, id, credential).0
  }

  type Call = Timed<Op>

  function Run(b: Board, calls: seq<Call>): Board
    decreases |calls|
  {
    if calls == [] then b else Run(Step(b, calls[0].now, calls[0].op), calls[1..])
  }
}
