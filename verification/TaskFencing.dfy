/** Fencing and exactly-once claims over every run of the task board. */
module TaskFencing {
  import opened Common
  import opened TaskBoard
  import opened TaskTheorems

  // ---- What one operation does to the execution table ----

  predicate SameLease(e: Execution, e': Execution) {
    e'.executionId == e.executionId && e'.claimId == e.claimId && e'.leaseToken == e.leaseToken
  }

  /** Every record after a step at a moment is an old one, perhaps renewed while its lease was
      still active, or one with a fresh execution id. */
  ghost predicate ExecutionStep(b: Board, now: int, b': Board) {
    && b.nextExecution <= b'.nextExecution
    && forall id: nat | id in b'.executions ::
         var e' := b'.executions[id];
         || e'.executionId >= b.nextExecution
         || (id in b.executions && SameLease(b.executions[id], e')
             && (e' == b.executions[id] || b.executions[id].leaseExpiresAt > now))
  }

  lemma ExpireLeaseStep(b: Board, now: int, id: nat)
    ensures ExpireLease(b, now, id).nextExecution == b.nextExecution
    ensures ExpireLease(b, now, id).executions in {b.executions, b.executions - {id}}
  {
  }

  lemma {:induction false} ExpireLeasesStep(b: Board, now: int, n: nat)
    ensures ExecutionStep(b, now, ExpireLeases(b, now, n))
    ensures ExpireLeases(b, now, n).nextExecution == b.nextExecution
    ensures forall id: nat | id in ExpireLeases(b, now, n).executions ::
              id in b.executions && ExpireLeases(b, now, n).executions[id] == b.executions[id]
  {
    if n > 0 {
      ExpireLeasesStep(b, now, n - 1);
      ExpireLeaseStep(ExpireLeases(b, now, n - 1), now, n - 1);
    }
  }

  lemma UpdateTaskStep(b: Board, now: int, id: nat, status: TaskStatus, version: nat, result: Field, error: Field,
                       credential: Option<Credential>)
    ensures ExecutionStep(b, now, UpdateTask(b, now, id, status, version, result, error, credential).0)
  {
    var mid := ExpireLease(b, now, id);
    var b' := UpdateTask(b, now, id, status, version, result, error, credential).0;
    ExpireLeaseStep(b, now, id);
    assert b'.executions in {mid.executions, mid.executions - {id}} && b'.nextExecution == mid.nextExecution;
  }

  lemma ClaimTaskStep(b: Board, now: int, id: nat, version: nat, claimId: string, leaseToken: string)
    ensures ExecutionStep(b, now, ClaimTask(b, now, id, version, claimId, leaseToken).0)
  {
    ExpireLeaseStep(b, now, id);
  }

  lemma StepExecutions(b: Board, now: int, op: Op)
    ensures ExecutionStep(b, now, Step(b, now, op))
  {
    match op
    case ListTasksOp => ExpireLeasesStep(b, now, |b.tasks|);
    case GetTaskOp(id) => ExpireLeaseStep(b, now, id);
    case ClaimOp(id, version, claimId, leaseToken) => ClaimTaskStep(b, now, id, version, claimId, leaseToken);
    case UpdateOp(id, status, version, result, error, credential) =>
      UpdateTaskStep(b, now, id, status, version, result, error, credential);
    case AssertExecutionOp(id, _) => ExpireLeaseStep(b, now, id);
    case AssertLeaseOp(id, _) => ExpireLeaseStep(b, now, id);
    case _ =>
  }

  // ---- Ended executions ----

  /** At a moment an issued execution has ended: it has no record, or its lease has run out. */
  ghost predicate Ended(b: Board, now: int, executionId: nat) {
    && executionId < b.nextExecution
    && forall id: nat | id in b.executions && b.executions[id].executionId == executionId ::
         b.executions[id].leaseExpiresAt <= now
  }

  lemma StepKeepsEnded(b: Board, start: int, now: int, op: Op, executionId: nat)
    requires start <= now && Ended(b, start, executionId)
    ensures Ended(Step(b, now, op), now, executionId)
  {
    StepExecutions(b, now, op);
  }

  lemma {:induction false} RunKeepsEnded(b: Board, start: int, calls: seq<Call>, executionId: nat)
    requires InOrder(start, calls) && Ended(b, start, executionId)
    ensures Ended(Run(b, calls), EndTime(start, calls), executionId)
    decreases |calls|
  {
    if calls != [] {
      StepKeepsEnded(b, start, calls[0].now, calls[0].op, executionId);
      RunKeepsEnded(Step(b, calls[0].now, calls[0].op), calls[0].now, calls[1..], executionId);
    }
  }

  /** The record of an issued execution stays with its task and keeps its claim and token. */
  ghost predicate KeepsIdentity(b: Board, b': Board) {
    && b.nextExecution <= b'.nextExecution
    && forall id: nat | id in b'.executions && b'.executions[id].executionId < b.nextExecution ::
         id in b.executions && SameLease(b.executions[id], b'.executions[id])
  }

  lemma {:induction false} RunKeepsIdentity(b: Board, calls: seq<Call>)
    ensures KeepsIdentity(b, Run(b, calls))
    decreases |calls|
  {
    if calls != [] {
      StepExecutions(b, calls[0].now, calls[0].op);
      RunKeepsIdentity(Step(b, calls[0].now, calls[0].op), calls[1..]);
    }
  }

  // ---- Main results on fencing ----

  /** In every reachable state a task has an execution record exactly while it is running or
      waiting, and no two tasks share an execution. */
  lemma ExecutionExactlyWhileRunning(calls: seq<Call>)
    ensures var b := Run(EmptyBoard, calls);
            && (forall id: nat :: id in b.executions <==> id < |b.tasks| && Live(b.tasks[id].status))
            && (forall i: nat, j: nat | i in b.executions && j in b.executions && i != j ::
                  b.executions[i].executionId != b.executions[j].executionId)
  {
    EmptyBoardInv();
    RunGood(EmptyBoard, calls);
  }

  /** A step after which a task no longer runs under the execution it ran under before. */
  ghost predicate Stops(b: Board, b': Board, id: nat) {
    && id in b.executions
    && (id in b'.executions ==> b'.executions[id].executionId != b.executions[id].executionId)
  }

  /** Completing, failing, cancelling and expiring all stop a running task. */
  lemma LeavingLiveStops(b: Board, now: int, op: Op, id: nat)
    requires Inv(b) && id < |b.tasks| && Live(b.tasks[id].status)
    ensures id < |Step(b, now, op).tasks|
    ensures !Live(Step(b, now, op).tasks[id].status) ==> Stops(b, Step(b, now, op), id)
  {
    StepGood(b, now, op);
  }

  /** However a task stops running, the execution it was running has ended from that step on. */
  lemma StoppingEndsExecution(b: Board, now: int, op: Op, id: nat)
    requires Inv(b) && Stops(b, Step(b, now, op), id)
    ensures Ended(Step(b, now, op), now, b.executions[id].executionId)
  {
    StepGood(b, now, op);
    StepExecutions(b, now, op);
  }

  /** The credentials of an ended execution renew no lease, pass no check and move no running or
      waiting task, except that anyone may cancel it; and none of these calls revives it. */
  lemma EndedCredentialsAreRefused(b: Board, now: int, credential: Credential, id: nat, deviceId: nat)
    requires Ended(b, now, credential.executionId)
    ensures Heartbeat(b, now, deviceId, Some(LeaseBeat(id, credential))).1.Err?
    ensures Heartbeat(b, now, deviceId, Some(LeaseBeat(id, credential))).0 == b
    ensures RenewExecution(b, now, id, credential.executionId)
            == (b, RenewExecution(b, now, id, credential.executionId).1)
    ensures RenewExecution(b, now, id, credential.executionId).1.Err?
    ensures AssertTaskExecution(b, now, id, credential.executionId).1.Err?
    ensures AssertTaskLease(b, now, id, credential).1.Err?
    ensures forall status, version, result, error ::
              var (b', r) := UpdateTask(b, now, id, status, version, result, error, Some(credential));
              r.Ok? && id < |b.tasks| && Live(ExpireLease(b, now, id).tasks[id].status) ==> status == Cancelled
  {
    ExpireLeaseStep(b, now, id);
  }

  /** However a task leaves running and waiting, the execution it was running has ended. */
  lemma LeavingLiveEndsExecution(b: Board, now: int, op: Op, id: nat)
    requires Inv(b) && id < |b.tasks| && Live(b.tasks[id].status)
    ensures id in b.executions && id < |Step(b, now, op).tasks|
    ensures !Live(Step(b, now, op).tasks[id].status) ==> Ended(Step(b, now, op), now, b.executions[id].executionId)
  {
    LeavingLiveStops(b, now, op, id);
    if !Live(Step(b, now, op).tasks[id].status) {
      StoppingEndsExecution(b, now, op, id);
    }
  }

  /** Fencing over whole runs: from the moment an execution has ended, by a step that took away
      its record or by the clock alone, however the run goes on, its credentials stay refused. */
  lemma FencedForever(b: Board, start: int, executionId: nat, leaseToken: string, calls: seq<Call>, later: int,
                      id: nat, deviceId: nat)
    requires Ended(b, start, executionId) && InOrder(start, calls) && EndTime(start, calls) <= later
    ensures var credential := Credential(executionId, leaseToken);
            var b' := Run(b, calls);
            && Heartbeat(b', later, deviceId, Some(LeaseBeat(id, credential)))
               == (b', Err(if deviceId >= |b'.devices| then DeviceNotFound else LeaseExpired))
            && RenewExecution(b', later, id, executionId).1.Err?
            && AssertTaskLease(b', later, id, credential).1.Err?
            && AssertExecution(b', later, id, executionId).Err?
            && forall status, version, result, error ::
                 var (b2, r) := UpdateTask(b', later, id, status, version, result, error, Some(credential));
                 r.Ok? && id < |b'.tasks| && Live(ExpireLease(b', later, id).tasks[id].status) ==> status == Cancelled
  {
    RunKeepsEnded(b, start, calls, executionId);
    EndedCredentialsAreRefused(Run(b, calls), later, Credential(executionId, leaseToken), id, deviceId);
  }

  // ---- Main results on claims ----

  /** The call is a claim message for this version that starts an execution. */
  predicate Starts(b: Board, call: Call, id: nat, version: nat) {
    && call.op.ClaimOp? && call.op.claimed == id && call.op.atVersion == version
    && var r := ClaimTask(b, call.now, id, version, call.op.claimId, call.op.leaseToken).1;
       r.Ok? && !r.value.replayed
  }

  function StartCount(b: Board, calls: seq<Call>, id: nat, version: nat): nat
    decreases |calls|
  {
    if calls == [] then 0
    else (if Starts(b, calls[0], id, version) then 1 else 0)
         + StartCount(Step(b, calls[0].now, calls[0].op), calls[1..], id, version)
  }

  lemma StartMovesPast(b: Board, call: Call, id: nat, version: nat)
    requires Inv(b) && Starts(b, call, id, version)
    ensures var b' := Step(b, call.now, call.op);
            && id < |b'.tasks| && b'.tasks[id].version == version + 1
            && (id < |b.tasks| ==> b.tasks[id].version <= version)
  {
    ExpireLeaseGood(b, call.now, id);
    ClaimMoves(b, call.now, id, version, call.op.claimId, call.op.leaseToken);
  }

  lemma {:induction false} NoStartOnceMoved(b: Board, calls: seq<Call>, id: nat, version: nat)
    requires Inv(b) && id < |b.tasks| && version < b.tasks[id].version
    ensures StartCount(b, calls, id, version) == 0
    decreases |calls|
  {
    if calls != [] {
      if Starts(b, calls[0], id, version) {
        StartMovesPast(b, calls[0], id, version);
      }
      StepGood(b, calls[0].now, calls[0].op);
      NoStartOnceMoved(Step(b, calls[0].now, calls[0].op), calls[1..], id, version);
    }
  }

  /** No claim message for this version, whenever it arrives from a moment on, starts an execution. */
  ghost predicate Spent(b: Board, start: int, id: nat, version: nat) {
    forall calls: seq<Call> | InOrder(start, calls) :: StartCount(b, calls, id, version) == 0
  }

  /** The task has moved past a version, or is running at it and has to move past it to be claimed. */
  predicate Moved(b: Board, id: nat, version: nat)
    requires id < |b.tasks|
  {
    version < b.tasks[id].version || Live(b.tasks[id].status)
  }

  lemma StepKeepsMoved(b: Board, now: int, op: Op, id: nat, version: nat)
    requires Inv(b) && id < |b.tasks| && version <= b.tasks[id].version && Moved(b, id, version)
    ensures var b' := Step(b, now, op);
            Inv(b') && id < |b'.tasks| && version <= b'.tasks[id].version && Moved(b', id, version)
  {
    StepGood(b, now, op);
    SameVersionSameRecord(b, [At(now, op)], id);
    assert Run(b, [At(now, op)]) == Step(b, now, op) by {
      assert [At(now, op)][1..] == [];
    }
  }

  lemma {:induction false} NoStartWhenMoved(b: Board, calls: seq<Call>, id: nat, version: nat)
    requires Inv(b) && id < |b.tasks| && version <= b.tasks[id].version && Moved(b, id, version)
    ensures StartCount(b, calls, id, version) == 0
    decreases |calls|
  {
    if calls != [] {
      assert !Starts(b, calls[0], id, version);
      StepKeepsMoved(b, calls[0].now, calls[0].op, id, version);
      NoStartWhenMoved(Step(b, calls[0].now, calls[0].op), calls[1..], id, version);
    }
  }

  /** An idle task can still be claimed at its version: its device comes back and the message arrives. */
  lemma IdleTaskCanStart(b: Board, start: int, id: nat)
    requires id < |b.tasks| && !Live(b.tasks[id].status) && b.tasks[id].deviceId < |b.devices|
    ensures !Spent(b, start, id, b.tasks[id].version)
  {
    var version := b.tasks[id].version;
    var beat, claim := At(start, HeartbeatOp(b.tasks[id].deviceId, None)), At(start, ClaimOp(id, version, "", ""));
    var calls := [beat, claim];
    var b1 := Step(b, start, beat.op);
    assert Starts(b1, claim, id, version);
    assert StartCount(b1, [claim], id, version) >= 1;
    assert calls[1..] == [claim] && [claim][1..] == [];
    assert InOrder(start, [claim]);
    assert InOrder(start, calls);
    assert StartCount(b, calls, id, version) >= StartCount(b1, calls[1..], id, version);
  }

  /** Exactly when a version of a task that was seen can no longer be claimed. */
  lemma SpentIff(b: Board, start: int, id: nat, version: nat)
    requires Inv(b) && id < |b.tasks| && version <= b.tasks[id].version && b.tasks[id].deviceId < |b.devices|
    ensures Spent(b, start, id, version) <==> Moved(b, id, version)
  {
    if Moved(b, id, version) {
      forall calls: seq<Call> | InOrder(start, calls) ensures StartCount(b, calls, id, version) == 0 {
        NoStartWhenMoved(b, calls, id, version);
      }
    } else {
      IdleTaskCanStart(b, start, id);
    }
  }

  /** The version exists: the task has it or has moved past it. */
  predicate Seen(b: Board, id: nat, version: nat) {
    id < |b.tasks| && version <= b.tasks[id].version
  }

  /** A call that moves a task one version on, and leaves it idle. */
  function BumpOp(b: Board, id: nat): Op
    requires id < |b.tasks|
  {
    var t := b.tasks[id];
    UpdateOp(id, if t.status == Complete || t.status == TaskStatus.Failed then t.status else Cancelled, t.version,
             Text("x"), Text("x"), None)
  }

  lemma BumpMoves(b: Board, now: int, id: nat)
    requires id < |b.tasks|
    ensures var b' := Step(b, now, BumpOp(b, id));
            && |b'.tasks| == |b.tasks| && |b'.devices| == |b.devices|
            && b'.tasks[id].version == b.tasks[id].version + 1 && !Live(b'.tasks[id].status)
  {
    assert !Blank(Some("x")) by {
      assert "x"[0] == 'x' && !IsSpace('x');
    }
  }

  /** Any later version of a task can come to be its version while it is idle. */
  lemma {:induction false} VersionReached(b: Board, start: int, id: nat, version: nat) returns (calls: seq<Call>)
    requires id < |b.tasks| && b.tasks[id].version <= version
    requires b.tasks[id].version == version ==> !Live(b.tasks[id].status)
    ensures InOrder(start, calls) && EndTime(start, calls) == start
    ensures var b' := Run(b, calls); id < |b'.tasks| && b'.tasks[id].version == version && !Live(b'.tasks[id].status)
    decreases version - b.tasks[id].version
  {
    if b.tasks[id].version == version {
      calls := [];
    } else {
      var bump := At(start, BumpOp(b, id));
      BumpMoves(b, start, id);
      var rest := VersionReached(Step(b, start, bump.op), start, id, version);
      calls := [bump] + rest;
      assert calls[1..] == rest;
    }
  }

  lemma CreatesOne(b: Board, now: int)
    requires b.devices != [] && b.devices[|b.devices| - 1] == Device(true, now)
    ensures var b' := Step(b, now, CreateTaskOp("", |b.devices| - 1));
            && b'.devices == b.devices && |b'.tasks| == |b.tasks| + 1
            && b'.tasks[|b.tasks|].version == 1 && b'.tasks[|b.tasks|].status == Draft
  {
  }

  /** Any task that is not there yet can come to be created. */
  lemma {:induction false} TasksCreated(b: Board, start: int, id: nat) returns (calls: seq<Call>)
    requires |b.tasks| <= id && b.devices != [] && b.devices[|b.devices| - 1] == Device(true, start)
    ensures InOrder(start, calls) && EndTime(start, calls) == start
    ensures var b' := Run(b, calls); id < |b'.tasks| && b'.tasks[id].version == 1 && b'.tasks[id].status == Draft
    decreases id - |b.tasks|
  {
    var create := At(start, CreateTaskOp("", |b.devices| - 1));
    CreatesOne(b, start);
    var rest: seq<Call> := [];
    if |b.tasks| < id {
      rest := TasksCreated(Step(b, start, create.op), start, id);
    }
    calls := [create] + rest;
    assert calls[1..] == rest;
  }

  lemma {:induction false} RunInParts(b: Board, start: int, first: seq<Call>, second: seq<Call>)
    requires InOrder(start, first) && InOrder(EndTime(start, first), second)
    ensures Run(b, first + second) == Run(Run(b, first), second)
    ensures InOrder(start, first + second) && EndTime(start, first + second) == EndTime(EndTime(start, first), second)
    decreases |first|
  {
    if first == [] {
      assert first + second == second;
    } else {
      assert (first + second)[1..] == first[1..] + second;
      RunInParts(Step(b, first[0].now, first[0].op), first[0].now, first[1..], second);
    }
  }

  /** A version that is not there yet, of a task that may not be there yet either, can come to be
      the version of the task while it is idle. */
  lemma VersionComesAbout(b: Board, start: int, id: nat, version: nat) returns (calls: seq<Call>)
    requires 0 < version && !Seen(b, id, version)
    ensures InOrder(start, calls)
    ensures var b' := Run(b, calls); id < |b'.tasks| && b'.tasks[id].version == version && !Live(b'.tasks[id].status)
  {
    if id < |b.tasks| {
      calls := VersionReached(b, start, id, version);
    } else {
      var register := At(start, RegisterDeviceOp);
      var b1 := Step(b, start, register.op);
      var create := TasksCreated(b1, start, id);
      var bump := VersionReached(Run(b1, create), start, id, version);
      RunInParts(b1, start, create, bump);
      calls := [register] + (create + bump);
      assert calls[1..] == create + bump;
    }
  }

  /** A refused claim leaves its version open to be claimed in exactly one case. */
  lemma RefusedClaimIsSpentIff(b: Board, now: int, id: nat, version: nat, claimId: string, leaseToken: string)
    requires Inv(b) && id < |b.tasks| && version <= b.tasks[id].version && b.tasks[id].deviceId < |b.devices|
    requires ClaimTask(b, now, id, version, claimId, leaseToken).1.Err?
    ensures var (b', r) := ClaimTask(b, now, id, version, claimId, leaseToken);
            Spent(b', now, id, version) <==> r.error != DeviceOffline
  {
    ExpireLeaseGood(b, now, id);
    SpentIff(ExpireLease(b, now, id), now, id, version);
  }

  /** Tasks stay on their devices, and devices are never deleted. */
  ghost predicate DevicesKept(b: Board, b': Board) {
    && |b.devices| <= |b'.devices| && |b.tasks| <= |b'.tasks|
    && forall i | 0 <= i < |b'.tasks| ::
         if i < |b.tasks| then b'.tasks[i].deviceId == b.tasks[i].deviceId else b'.tasks[i].deviceId < |b'.devices|
  }

  lemma {:induction false} ExpiringKeepsDevices(b: Board, now: int, n: nat)
    ensures DevicesKept(b, ExpireLeases(b, now, n)) && |ExpireLeases(b, now, n).tasks| == |b.tasks|
  {
    if n > 0 {
      ExpiringKeepsDevices(b, now, n - 1);
    }
  }

  lemma ExpireKeepsDevices(b: Board, now: int, id: nat)
    ensures DevicesKept(b, ExpireLease(b, now, id)) && |ExpireLease(b, now, id).tasks| == |b.tasks|
  {
  }

  lemma ApplyKeepsDevices(b: Board, now: int, id: nat, status: TaskStatus, result: Field, error: Field)
    requires id < |b.tasks|
    ensures DevicesKept(b, ApplyUpdate(b, now, id, status, result, error).0)
    ensures |ApplyUpdate(b, now, id, status, result, error).0.tasks| == |b.tasks|
  {
  }

  lemma UpdateKeepsDevices(b: Board, now: int, id: nat, status: TaskStatus, version: nat, result: Field, error: Field,
                           credential: Option<Credential>)
    ensures DevicesKept(b, UpdateTask(b, now, id, status, version, result, error, credential).0)
  {
    var mid := ExpireLease(b, now, id);
    ExpireKeepsDevices(b, now, id);
    if id < |mid.tasks| {
      ApplyKeepsDevices(mid, now, id, status, result, error);
    }
  }

  lemma ClaimKeepsDevices(b: Board, now: int, id: nat, version: nat, claimId: string, leaseToken: string)
    ensures DevicesKept(b, ClaimTask(b, now, id, version, claimId, leaseToken).0)
  {
    ExpireKeepsDevices(b, now, id);
  }

  lemma StepKeepsDevices(b: Board, now: int, op: Op)
    ensures DevicesKept(b, Step(b, now, op))
  {
    match op
    case ListTasksOp => ExpiringKeepsDevices(b, now, |b.tasks|);
    case ClaimOp(id, version, claimId, leaseToken) =>
      ClaimKeepsDevices(b, now, id, version, claimId, leaseToken);
    case UpdateOp(id, status, version, result, error, credential) =>
      UpdateKeepsDevices(b, now, id, status, version, result, error, credential);
    case _ =>
  }

  lemma {:induction false} DevicesKnown(b: Board, calls: seq<Call>)
    requires forall i | 0 <= i < |b.tasks| :: b.tasks[i].deviceId < |b.devices|
    ensures forall i | 0 <= i < |Run(b, calls).tasks| :: Run(b, calls).tasks[i].deviceId < |Run(b, calls).devices|
    decreases |calls|
  {
    if calls != [] {
      StepKeepsDevices(b, calls[0].now, calls[0].op);
      DevicesKnown(Step(b, calls[0].now, calls[0].op), calls[1..]);
    }
  }

  /** Of all claim messages for one version of a task, in any order, from any senders and with
      any duplicates, at most one ever starts an execution. */
  lemma {:induction false} OneStartPerVersion(b: Board, calls: seq<Call>, id: nat, version: nat)
    requires Inv(b)
    ensures StartCount(b, calls, id, version) <= 1
    decreases |calls|
  {
    if calls != [] {
      var b' := Step(b, calls[0].now, calls[0].op);
      StepGood(b, calls[0].now, calls[0].op);
      if Starts(b, calls[0], id, version) {
        StartMovesPast(b, calls[0], id, version);
        NoStartOnceMoved(b', calls[1..], id, version);
      } else {
        OneStartPerVersion(b', calls[1..], id, version);
      }
    }
  }

  /** A record that carries a claim's secrets and its execution. */
  ghost predicate HeldUnder(b: Board, id: nat, executionId: nat, claimId: string, leaseToken: string) {
    && id in b.executions && id < |b.tasks| && Live(b.tasks[id].status)
    && b.executions[id].executionId == executionId
    && b.executions[id].claimId == claimId && b.executions[id].leaseToken == leaseToken
  }

  lemma AliveMeansHeld(b: Board, b': Board, id: nat, executionId: nat, claimId: string, leaseToken: string, now: int)
    requires ExecutionsAgree(b) && ExecutionsAgree(b') && KeepsIdentity(b, b')
    requires HeldUnder(b, id, executionId, claimId, leaseToken) && !Ended(b', now, executionId)
    ensures HeldUnder(b', id, executionId, claimId, leaseToken) && LeaseActive(b', now, id)
  {
    var holder: nat :| holder in b'.executions && b'.executions[holder].executionId == executionId
                       && b'.executions[holder].leaseExpiresAt > now;
    assert holder in b.executions && b.executions[holder].executionId == executionId;
    assert holder == id;
  }

  /** At every later point of a run, an execution that is alive is held by its task, under the secrets
      of the claim that started it. */
  lemma HeldWhileAlive(b: Board, claim: Call, id: nat, version: nat, calls: seq<Call>, later: int, executionId: nat)
    requires Inv(b) && Starts(b, claim, id, version)
    requires executionId
             == ClaimTask(b, claim.now, id, version, claim.op.claimId, claim.op.leaseToken).1.value.executionId
    requires !Ended(Run(Step(b, claim.now, claim.op), calls), later, executionId)
    ensures var b' := Run(Step(b, claim.now, claim.op), calls);
            HeldUnder(b', id, executionId, claim.op.claimId, claim.op.leaseToken) && LeaseActive(b', later, id)
  {
    var started := Step(b, claim.now, claim.op);
    StartIsHeld(b, claim, id, version, executionId);
    StepGood(b, claim.now, claim.op);
    RunGood(started, calls);
    RunKeepsIdentity(started, calls);
    AliveMeansHeld(started, Run(started, calls), id, executionId, claim.op.claimId, claim.op.leaseToken, later);
  }

  lemma ClaimWhileHeld(b: Board, now: int, id: nat, version: nat, executionId: nat, claimId: string, leaseToken: string,
                       otherId: string, otherToken: string)
    requires HeldUnder(b, id, executionId, claimId, leaseToken) && LeaseActive(b, now, id)
    ensures ClaimTask(b, now, id, version, otherId, otherToken)
            == (b, if (otherId, otherToken) == (claimId, leaseToken) then
                     Ok(Claim(b.tasks[id], executionId, b.executions[id].leaseExpiresAt, true))
                   else Err(AlreadyRunning))
  {
  }

  lemma OldClaimStartsNothing(b: Board, now: int, id: nat, version: nat, executionId: nat, claimId: string,
                              leaseToken: string)
    requires Inv(b) && Ended(b, now, executionId)
    requires id < |b.tasks| && version < b.tasks[id].version
    ensures var r := ClaimTask(b, now, id, version, claimId, leaseToken).1;
            r.Ok? ==> r.value.replayed && r.value.executionId != executionId
  {
    ExpireLeaseGood(b, now, id);
    ExpireLeaseStep(b, now, id);
  }

  /** After a claim has started an execution, at every later point of the run: while the
      execution is alive, each redelivery of the message returns that execution and changes
      nothing, and every rival claim is refused; once it has ended, the old message starts
      nothing, and returns at most a later execution held under the very same secrets. */
  lemma RedeliveredClaim(b: Board, claim: Call, id: nat, version: nat, calls: seq<Call>, later: int,
                         rivalId: string, rivalToken: string, anyVersion: nat, executionId: nat)
    requires Inv(b) && Starts(b, claim, id, version)
    requires executionId
             == ClaimTask(b, claim.now, id, version, claim.op.claimId, claim.op.leaseToken).1.value.executionId
    requires InOrder(claim.now, calls) && EndTime(claim.now, calls) <= later
    requires (rivalId, rivalToken) != (claim.op.claimId, claim.op.leaseToken)
    ensures var b' := Run(Step(b, claim.now, claim.op), calls);
            if Ended(b', later, executionId) then
              var r := ClaimTask(b', later, id, version, claim.op.claimId, claim.op.leaseToken).1;
              r.Ok? ==> r.value.replayed && r.value.executionId != executionId
            else
              && id < |b'.tasks| && id in b'.executions
              && ClaimTask(b', later, id, anyVersion, claim.op.claimId, claim.op.leaseToken)
                 == (b', Ok(Claim(b'.tasks[id], executionId, b'.executions[id].leaseExpiresAt, true)))
              && ClaimTask(b', later, id, anyVersion, rivalId, rivalToken) == (b', Err(AlreadyRunning))
  {
    var started := Step(b, claim.now, claim.op);
    var b' := Run(started, calls);
    if Ended(b', later, executionId) {
      StepGood(b, claim.now, claim.op);
      StartMovesPast(b, claim, id, version);
      RunGood(started, calls);
      OldClaimStartsNothing(b', later, id, version, executionId, claim.op.claimId, claim.op.leaseToken);
    } else {
      HeldWhileAlive(b, claim, id, version, calls, later, executionId);
      ClaimWhileHeld(b', later, id, anyVersion, executionId, claim.op.claimId, claim.op.leaseToken,
                     claim.op.claimId, claim.op.leaseToken);
      ClaimWhileHeld(b', later, id, anyVersion, executionId, claim.op.claimId, claim.op.leaseToken, rivalId,
                     rivalToken);
    }
  }

  lemma StartIsHeld(b: Board, claim: Call, id: nat, version: nat, executionId: nat)
    requires Inv(b) && Starts(b, claim, id, version)
    requires executionId
             == ClaimTask(b, claim.now, id, version, claim.op.claimId, claim.op.leaseToken).1.value.executionId
    ensures HeldUnder(Step(b, claim.now, claim.op), id, executionId, claim.op.claimId, claim.op.leaseToken)
  {
    ExpireLeaseGood(b, claim.now, id);
    ClaimMoves(b, claim.now, id, version, claim.op.claimId, claim.op.leaseToken);
  }
}
