/** The task part of a user's state as an object that its operations change in place. Every method
    does to the object what the board operation of the same name does to a board. */
module TaskStore {
  import opened Common
  import opened TaskBoard

  class TaskState {
    var devices: seq<Device>
    var tasks: seq<Task>
    var taskExecutions: map<nat, Execution>
    var nextExecution: nat
    var events: seq<Event>

    function View(): Board
      reads this
    {
      Board(devices, tasks, taskExecutions, nextExecution, events)
    }

    constructor (b: Board)
      ensures View() == b
    {
      devices, tasks, taskExecutions, nextExecution, events :=
        b.devices, b.tasks, b.executions, b.nextExecution, b.events;
    }

    method Append(entityId: nat, data: EventData)
      modifies this`events
      ensures View() == TaskBoard.Append(old(View()), entityId, data)
    {
      events := events + [Event(|events| + 1, entityId, data)];
    }

    method EventsAfter(cursor: nat) returns (out: seq<Event>)
      ensures out == TaskBoard.EventsAfter(View(), cursor)
    {
      out := [];
      assert events[0..] == events;
      for i := 0 to |events|
        invariant out + AfterCursor(events[i..], cursor) == AfterCursor(events, cursor)
      {
        assert events[i..][1..] == events[i + 1..];
        if events[i].cursor > cursor {
          out := out + [events[i]];
        }
      }
    }

    /** Fail the running and waiting tasks whose lease has run out: all of them, or only one. */
    method ExpireTaskLeases(now: int, only: Option<nat>)
      modifies this
      ensures only.None? ==> View() == ExpireLeases(old(View()), now, |old(tasks)|)
      ensures only.Some? ==> View() == ExpireLease(old(View()), now, only.value)
      ensures |tasks| == |old(tasks)|
    {
      for id := 0 to |tasks|
        invariant |tasks| == |old(tasks)|
        invariant only.None? ==> View() == ExpireLeases(old(View()), now, id)
        invariant only.Some?
                  ==> View() == if only.value < id then ExpireLease(old(View()), now, only.value) else old(View())
      {
        if only.Some? && only.value != id {
          continue;
        }
        var current := tasks[id];
        if current.status != Running && current.status != Waiting {
          continue;
        }
        if id in taskExecutions && taskExecutions[id].leaseExpiresAt > now {
          continue;
        }
        var error := if id in taskExecutions then TASK_LEASE_EXPIRED_ERROR else LEGACY_TASK_INTERRUPTED_ERROR;
        var task := current.(status := TaskStatus.Failed, result := None, error := Some(error),
                             version := current.version + 1, updatedAt := now);
        tasks := tasks[id := task];
        taskExecutions := taskExecutions - {id};
        Append(id, TaskUpdated(task));
      }
    }

    method AssertExecutionState(now: int, id: nat, executionId: nat) returns (r: Result<Task, TaskError>)
      ensures r == AssertExecution(View(), now, id, executionId)
    {
      if id >= |tasks| {
        return Err(TaskNotFound);
      }
      if id !in taskExecutions || taskExecutions[id].executionId != executionId
         || taskExecutions[id].leaseExpiresAt <= now
         || (tasks[id].status != Running && tasks[id].status != Waiting) {
        return Err(LeaseExpired);
      }
      return Ok(tasks[id]);
    }

    method RegisterDevice(now: int)
      modifies this
      ensures View() == TaskBoard.RegisterDevice(old(View()), now)
    {
      var device := Device(true, now);
      devices := devices + [device];
      Append(|devices| - 1, DeviceRegistered(device));
    }

    method ListDevices(now: int)
      modifies this`devices
      ensures View() == TaskBoard.ListDevices(old(View()), now)
    {
      for i := 0 to |devices|
        invariant |devices| == |old(devices)|
        invariant forall j | 0 <= j < |devices| ::
                    devices[j] == if j < i && now - old(devices)[j].lastSeenAt > DEVICE_OFFLINE_AFTER_MS
                                  then old(devices)[j].(online := false) else old(devices)[j]
      {
        if now - devices[i].lastSeenAt > DEVICE_OFFLINE_AFTER_MS {
          devices := devices[i := devices[i].(online := false)];
        }
      }
      assert devices == TaskBoard.ListDevices(old(View()), now).devices;
    }

    method Heartbeat(now: int, deviceId: nat, beat: Option<LeaseBeat>) returns (r: Result<Device, TaskError>)
      modifies this
      ensures (View(), r) == TaskBoard.Heartbeat(old(View()), now, deviceId, beat)
    {
      if deviceId >= |devices| {
        return Err(DeviceNotFound);
      }
      if beat.Some? {
        var id := beat.value.taskId;
        if id !in taskExecutions || id >= |tasks| || tasks[id].deviceId != deviceId
           || (tasks[id].status != Running && tasks[id].status != Waiting)
           || taskExecutions[id].executionId != beat.value.credential.executionId
           || taskExecutions[id].leaseToken != beat.value.credential.leaseToken
           || taskExecutions[id].leaseExpiresAt <= now {
          return Err(LeaseExpired);
        }
        taskExecutions := taskExecutions[id := taskExecutions[id].(leaseExpiresAt := now + TASK_LEASE_DURATION_MS)];
      }
      var device := Device(true, now);
      devices := devices[deviceId := device];
      return Ok(device);
    }

    method CreateTask(now: int, title: string, deviceId: nat) returns (r: Result<nat, TaskError>)
      modifies this
      ensures (View(), r) == TaskBoard.CreateTask(old(View()), now, title, deviceId)
    {
      if deviceId >= |devices| {
        return Err(DeviceNotFound);
      }
      if !devices[deviceId].online || now - devices[deviceId].lastSeenAt > DEVICE_OFFLINE_AFTER_MS {
        return Err(DeviceOffline);
      }
      var task := Task(title, deviceId, Draft, now, 1, None, None);
      tasks := tasks + [task];
      Append(|tasks| - 1, TaskCreated(task));
      return Ok(|tasks| - 1);
    }

    method ListTasks(now: int) returns (r: seq<Task>)
      modifies this
      ensures View() == ExpireLeases(old(View()), now, |old(tasks)|) && r == tasks
    {
      ExpireTaskLeases(now, None);
      r := tasks;
    }

    method GetTask(now: int, id: nat) returns (r: Result<Task, TaskError>)
      modifies this
      ensures View() == ExpireLease(old(View()), now, id)
      ensures r == if id < |tasks| then Ok(tasks[id]) else Err(TaskNotFound)
    {
      ExpireTaskLeases(now, Some(id));
      r := if id < |tasks| then Ok(tasks[id]) else Err(TaskNotFound);
    }

    method ClaimTask(now: int, id: nat, version: nat, claimId: string, leaseToken: string)
      returns (r: Result<Claim, TaskError>)
      modifies this
      ensures (View(), r) == TaskBoard.ClaimTask(old(View()), now, id, version, claimId, leaseToken)
    {
      ExpireTaskLeases(now, Some(id));
      if id >= |tasks| {
        return Err(TaskNotFound);
      }
      var current := tasks[id];
      if current.status == Running || current.status == Waiting {
        if id !in taskExecutions || taskExecutions[id].claimId != claimId || taskExecutions[id].leaseToken != leaseToken
           || taskExecutions[id].leaseExpiresAt <= now {
          return Err(AlreadyRunning);
        }
        return Ok(Claim(current, taskExecutions[id].executionId, taskExecutions[id].leaseExpiresAt, true));
      }
      if current.version != version {
        return Err(VersionConflict);
      }
      if !Allowed(current.status, Running) {
        return Err(InvalidTransition);
      }
      if current.deviceId >= |devices| || !devices[current.deviceId].online
         || now - devices[current.deviceId].lastSeenAt > DEVICE_OFFLINE_AFTER_MS {
        return Err(DeviceOffline);
      }
      var executionId, lease := nextExecution, now + TASK_LEASE_DURATION_MS;
      nextExecution := nextExecution + 1;
      var task := current.(status := Running, result := None, error := None, version := current.version + 1,
                           updatedAt := now);
      tasks := tasks[id := task];
      taskExecutions := taskExecutions[id := Execution(executionId, claimId, leaseToken, lease)];
      Append(id, TaskUpdated(task));
      return Ok(Claim(task, executionId, lease, false));
    }

    method RenewTaskExecution(now: int, id: nat, executionId: nat) returns (r: Result<(), TaskError>)
      modifies this
      ensures (View(), r) == RenewExecution(old(View()), now, id, executionId)
    {
      var held := AssertExecutionState(now, id, executionId);
      if held.Err? {
        return Err(held.error);
      }
      taskExecutions := taskExecutions[id := taskExecutions[id].(leaseExpiresAt := now + TASK_LEASE_DURATION_MS)];
      return Ok(());
    }

    method AssertTaskExecution(now: int, id: nat, executionId: nat) returns (r: Result<Task, TaskError>)
      modifies this
      ensures (View(), r) == TaskBoard.AssertTaskExecution(old(View()), now, id, executionId)
    {
      ExpireTaskLeases(now, Some(id));
      r := AssertExecutionState(now, id, executionId);
    }

    method AssertTaskLease(now: int, id: nat, credential: Credential) returns (r: Result<Task, TaskError>)
      modifies this
      ensures (View(), r) == TaskBoard.AssertTaskLease(old(View()), now, id, credential)
    {
      ExpireTaskLeases(now, Some(id));
      r := AssertExecutionState(now, id, credential.executionId);
      if r.Ok? && taskExecutions[id].leaseToken != credential.leaseToken {
        r := Err(LeaseExpired);
      }
    }

    method CheckLease(now: int, id: nat, status: TaskStatus, credential: Option<Credential>)
      returns (refusal: Option<TaskError>)
      requires id < |tasks|
      ensures refusal == LeaseRefusal(View(), now, id, status, credential)
    {
      if (tasks[id].status != Running && tasks[id].status != Waiting) || status == Cancelled {
        return None;
      }
      if credential.None? {
        return Some(LeaseRequired);
      }
      if id !in taskExecutions || taskExecutions[id].executionId != credential.value.executionId
         || taskExecutions[id].leaseToken != credential.value.leaseToken || taskExecutions[id].leaseExpiresAt <= now {
        return Some(LeaseExpired);
      }
      return None;
    }

    /** Result and error after an update: what the caller gave, as far as the new status keeps it. */
    method Outcome(current: Task, status: TaskStatus, newResult: Field, newError: Field)
      returns (result: Option<string>, error: Option<string>)
      ensures result == NewResult(current, status, newResult) && error == NewError(current, status, newError)
    {
      result, error := Chosen(newResult, current.result), Chosen(newError, current.error);
      if current.status == Waiting && status == Running {
        result, error := None, None;
      }
      if status == Complete {
        error := None;
      }
      if status == TaskStatus.Failed {
        result := None;
      }
      if status == Cancelled {
        result, error := None, None;
      }
    }

    /** Write a task; an ended one loses its execution. */
    method WriteTask(id: nat, task: Task)
      requires id < |tasks|
      modifies this
      ensures View() == TaskBoard.WriteTask(old(View()), id, task)
    {
      tasks := tasks[id := task];
      if task.status == Complete || task.status == TaskStatus.Failed || task.status == Cancelled {
        taskExecutions := taskExecutions - {id};
      }
      Append(id, TaskUpdated(task));
    }

    method CheckTransition(current: Task, status: TaskStatus, version: nat) returns (refusal: Option<TaskError>)
      ensures refusal == TransitionRefusal(current, status, version)
    {
      if current.version != version {
        return Some(VersionConflict);
      }
      if status == Running && current.status != Running && current.status != Waiting {
        return Some(ClaimRequired);
      }
      return if Allowed(current.status, status) then None else Some(InvalidTransition);
    }

    /** The grounds on which an update is refused. */
    method CheckUpdate(now: int, id: nat, status: TaskStatus, version: nat, newResult: Field, newError: Field,
                       credential: Option<Credential>) returns (refusal: Option<TaskError>)
      requires id < |tasks|
      ensures refusal == UpdateRefusal(View(), now, id, status, version, newResult, newError, credential)
    {
      refusal := CheckTransition(tasks[id], status, version);
      if refusal.Some? {
        return;
      }
      refusal := CheckLease(now, id, status, credential);
      if refusal.Some? {
        return;
      }
      refusal := CheckSizes(newResult, newError);
    }

    method CheckSizes(newResult: Field, newError: Field) returns (refusal: Option<TaskError>)
      ensures refusal == SizeRefusal(newResult, newError)
    {
      if newResult.Text? && |newResult.text| > MAX_RESULT_LENGTH {
        return Some(ResultTooLarge);
      }
      if newError.Text? && |newError.text| > MAX_ERROR_LENGTH {
        return Some(ErrorTooLarge);
      }
      return None;
    }

    method ApplyUpdate(now: int, id: nat, status: TaskStatus, newResult: Field, newError: Field)
      returns (r: Result<Task, TaskError>)
      requires id < |tasks|
      modifies this
      ensures (View(), r) == TaskBoard.ApplyUpdate(old(View()), now, id, status, newResult, newError)
    {
      var current := tasks[id];
      if current.status == status && newResult.Absent? && newError.Absent? {
        return Ok(current);
      }
      var result, error := Outcome(current, status, newResult, newError);
      var refusal := OutcomeError(status, result, error);
      if refusal.Some? {
        return Err(refusal.value);
      }
      var task := current.(status := status, result := result, error := error,
                           version := current.version + 1, updatedAt := now);
      WriteTask(id, task);
      return Ok(task);
    }

    method UpdateTask(now: int, id: nat, status: TaskStatus, version: nat, newResult: Field, newError: Field,
                      credential: Option<Credential>) returns (r: Result<Task, TaskError>)
      modifies this
      ensures (View(), r)
              == TaskBoard.UpdateTask(old(View()), now, id, status, version, newResult, newError, credential)
    {
      ExpireTaskLeases(now, Some(id));
      if id >= |tasks| {
        return Err(TaskNotFound);
      }
      var refused := CheckUpdate(now, id, status, version, newResult, newError, credential);
      if refused.Some? {
        return Err(refused.value);
      }
      r := ApplyUpdate(now, id, status, newResult, newError);
    }

    /** One call on the board. */
    method Perform(now: int, op: Op)
      modifies this
      ensures View() == Step(old(View()), now, op)
    {
      match op
      case RegisterDeviceOp => RegisterDevice(now);
      case ListDevicesOp => ListDevices(now);
      case HeartbeatOp(deviceId, beat) => var _ := Heartbeat(now, deviceId, beat);
      case CreateTaskOp(title, deviceId) => var _ := CreateTask(now, title, deviceId);
      case ListTasksOp => var _ := ListTasks(now);
      case GetTaskOp(id) => var _ := GetTask(now, id);
      case ClaimOp(id, version, claimId, leaseToken) => var _ := ClaimTask(now, id, version, claimId, leaseToken);
      case UpdateOp(id, status, version, result, error, credential) =>
        var _ := UpdateTask(now, id, status, version, result, error, credential);
      case RenewOp(id, executionId) => var _ := RenewTaskExecution(now, id, executionId);
      case AssertExecutionOp(id, executionId) => var _ := AssertTaskExecution(now, id, executionId);
      case AssertLeaseOp(id, credential) => var _ := AssertTaskLease(now, id, credential);
    }
  }
}
