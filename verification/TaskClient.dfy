/** The browser's side of starting a task: the claims it has sent but not seen answered, the leases
    it holds, and one retry when an answer is lost. */
module TaskClient {
  import opened Common
  import opened TaskBoard
  import opened TaskTheorems
  import opened TaskFencing

  datatype PendingClaim = PendingClaim(claimId: string, leaseToken: string, expectedVersion: nat)

  datatype Lease = Lease(executionId: nat, leaseToken: string)

  /** What comes back from one submission: the server's answer to the claim, an answer that ends the
      matter, or none that can be relied on: a lost connection, a 429 or a 5xx. */
  datatype Answer = Accepted(lease: Lease) | Refused | NoAnswer

  datatype Outcome = Started(lease: Lease) | GivenUp | Unanswered

  /** The answer that counts: that to the retry, if the first submission brought none. */
  function FinalAnswer(first: Answer, second: Answer): Answer {
    if first.NoAnswer? then second else first
  }

  /** The claim to send: the pending one, unless the task is seen idle at another version. */
  function ClaimToSend(pending: map<nat, PendingClaim>, id: nat, live: bool, version: nat,
                       made: PendingClaim): PendingClaim
  {
    if id in pending && (live || pending[id].expectedVersion == version) then pending[id] else made
  }

  /** A pending claim outlives a list of the tasks while its task runs or is still at its version. */
  predicate StaysPending(tasks: seq<Task>, id: nat, claim: PendingClaim) {
    id < |tasks| && (Live(tasks[id].status) || tasks[id].version == claim.expectedVersion)
  }

  class Client {
    var leases: map<nat, Lease>
    var pending: map<nat, PendingClaim>

    /** Start a task the client holds no lease on. The answers are those to the first submission and
        to the one retry; `claimId` and `leaseToken` are new random secrets. */
    method StartRemoteTask(id: nat, live: bool, version: nat, claimId: string, leaseToken: string, first: Answer,
                           second: Answer)
      returns (sent: PendingClaim, r: Outcome)
      requires id !in leases
      modifies this
      ensures sent == ClaimToSend(old(pending), id, live, version, PendingClaim(claimId, leaseToken, version))
      ensures match FinalAnswer(first, second)
              case NoAnswer => r == Unanswered
              case Refused => r == GivenUp
              case Accepted(lease) => r == if lease.leaseToken == sent.leaseToken then Started(lease) else GivenUp
      ensures leases == if r.Started? then old(leases)[id := r.lease] else old(leases)
      ensures pending == if r.Unanswered? then old(pending)[id := sent] else old(pending) - {id}
    {
      if id in pending && (live || pending[id].expectedVersion == version) {
        sent := pending[id];
      } else {
        sent := PendingClaim(claimId, leaseToken, version);
        pending := pending[id := sent];
      }
      var answer := first;
      if answer.NoAnswer? {
        answer := second;
        if answer.NoAnswer? {
          return sent, Unanswered;
        }
      }
      pending := pending - {id};
      if answer.Refused? || answer.lease.leaseToken != sent.leaseToken {
        leases := leases - {id};
        return sent, GivenUp;
      }
      leases := leases[id := answer.lease];
      return sent, Started(answer.lease);
    }

    /** A list of the tasks drops the leases of tasks that are not running or waiting, and the
        claims of tasks that are idle at another version. */
    method OnTaskList(tasks: seq<Task>)
      modifies this
      ensures leases == map id | id in old(leases) && id < |tasks| && Live(tasks[id].status) :: old(leases)[id]
      ensures pending == map id | id in old(pending) && StaysPending(tasks, id, old(pending)[id]) :: old(pending)[id]
    {
      leases := map id | id in leases && id < |tasks| && Live(tasks[id].status) :: leases[id];
      pending := map id | id in pending && id < |tasks|
                          && (Live(tasks[id].status) || tasks[id].version == pending[id].expectedVersion) ::
                               pending[id];
    }
  }

  /** A claim reached the server and started an execution, but no answer came back. Whatever happens
      on the server in between, as long as the execution is alive and the claim still pending, the
      next attempt sends the very same secrets, whether the task is then seen running or still as it
      was, and gets that execution back. */
  lemma LostStartIsRecovered(b: Board, claim: Call, id: nat, sent: PendingClaim, calls: seq<Call>, later: int,
                             executionId: nat, pending: map<nat, PendingClaim>, live: bool, version: nat,
                             made: PendingClaim)
    requires Inv(b) && Starts(b, claim, id, sent.expectedVersion)
    requires claim.op.claimId == sent.claimId && claim.op.leaseToken == sent.leaseToken
    requires executionId
             == ClaimTask(b, claim.now, id, sent.expectedVersion, sent.claimId, sent.leaseToken).1.value.executionId
    requires InOrder(claim.now, calls) && EndTime(claim.now, calls) <= later
    requires !Ended(Run(Step(b, claim.now, claim.op), calls), later, executionId)
    requires id in pending && pending[id] == sent && (live || version == sent.expectedVersion)
    ensures var again := ClaimToSend(pending, id, live, version, made);
            var b' := Run(Step(b, claim.now, claim.op), calls);
            && again == sent
            && ClaimTask(b', later, id, again.expectedVersion, again.claimId, again.leaseToken).0 == b'
            && ClaimTask(b', later, id, again.expectedVersion, again.claimId, again.leaseToken).1.Ok?
            && ClaimTask(b', later, id, again.expectedVersion, again.claimId, again.leaseToken).1.value.executionId
               == executionId
  {
    RedeliveredClaim(b, claim, id, sent.expectedVersion, calls, later, sent.claimId + "x", sent.leaseToken,
                     sent.expectedVersion, executionId);
  }

  lemma StaysEnded(b: Board, start: int, calls: seq<Call>, later: int, executionId: nat)
    requires InOrder(start, calls) && EndTime(start, calls) <= later
    ensures Ended(b, start, executionId) ==> Ended(Run(b, calls), later, executionId)
  {
    if Ended(b, start, executionId) {
      RunKeepsEnded(b, start, calls, executionId);
    }
  }

  /** While its execution is alive, no list read since the start drops the claim. */
  lemma {:induction false} LiveClaimStaysPending(b: Board, claim: Call, id: nat, sent: PendingClaim, calls: seq<Call>,
                                                 after: seq<Call>, later: int, executionId: nat)
    requires Inv(b) && Starts(b, claim, id, sent.expectedVersion)
    requires var r := ClaimTask(b, claim.now, id, sent.expectedVersion, claim.op.claimId, claim.op.leaseToken).1;
             r.value.executionId == executionId
    requires InOrder(claim.now, calls) && InOrder(EndTime(claim.now, calls), after)
    requires EndTime(EndTime(claim.now, calls), after) <= later
    requires !Ended(Run(Step(b, claim.now, claim.op), calls + after), later, executionId)
    ensures StaysPending(Run(Step(b, claim.now, claim.op), calls).tasks, id, sent)
  {
    var started := Step(b, claim.now, claim.op);
    RunInParts(started, claim.now, calls, after);
    StaysEnded(Run(started, calls), EndTime(claim.now, calls), after, later, executionId);
    HeldWhileAlive(b, claim, id, sent.expectedVersion, calls, EndTime(claim.now, calls), executionId);
  }

  // ---- Claims that are dropped ----

  /** The list shows the task, at a version no lower than that of the claim. */
  predicate NotOlder(tasks: seq<Task>, id: nat, claim: PendingClaim) {
    id < |tasks| && claim.expectedVersion <= tasks[id].version
  }

  /** A list of the tasks, or a new attempt, that goes by an earlier state of the server. A new attempt
      replaces the claim exactly when a list would drop it. If what was seen is not older than the
      claim, a claim dropped is spent: nothing the server still receives of it starts an execution.
      In any case it is spent exactly when the task has moved past its version or is running. */
  lemma DroppedClaimIsSpent(before: seq<Call>, since: seq<Call>, start: int, id: nat, sent: PendingClaim,
                            made: PendingClaim)
    requires Seen(Run(Run(EmptyBoard, before), since), id, sent.expectedVersion)
    ensures var seen := Run(EmptyBoard, before);
            var b := Run(seen, since);
            && (id < |seen.tasks| ==>
                  ClaimToSend(map[id := sent], id, Live(seen.tasks[id].status), seen.tasks[id].version, made)
                  == if StaysPending(seen.tasks, id, sent) then sent else made)
            && (!StaysPending(seen.tasks, id, sent) && NotOlder(seen.tasks, id, sent)
                ==> Spent(b, start, id, sent.expectedVersion))
            && (Spent(b, start, id, sent.expectedVersion) <==> Moved(b, id, sent.expectedVersion))
  {
    var seen := Run(EmptyBoard, before);
    EmptyBoardInv();
    RunGood(EmptyBoard, before);
    RunGood(seen, since);
    DevicesKnown(EmptyBoard, before);
    DevicesKnown(seen, since);
    SpentIff(Run(seen, since), start, id, sent.expectedVersion);
  }

  /** Whatever happens after a list was read: its version of the claim has come about, and the claim
      is spent. */
  ghost predicate SpentWhenSeen(b: Board, start: int, id: nat, version: nat) {
    forall since | InOrder(start, since) && Seen(Run(b, since), id, version) ::
      Spent(Run(b, since), EndTime(start, since), id, version)
  }

  /** What a list has to show for the claims it drops to be spent whatever has happened since: the
      task, at a version no lower than that of the claim. */
  lemma ListDropsSpentIff(before: seq<Call>, start: int, id: nat, sent: PendingClaim)
    requires 0 < sent.expectedVersion && !StaysPending(Run(EmptyBoard, before).tasks, id, sent)
    ensures var seen := Run(EmptyBoard, before);
            SpentWhenSeen(seen, start, id, sent.expectedVersion) <==> NotOlder(seen.tasks, id, sent)
  {
    var seen, version := Run(EmptyBoard, before), sent.expectedVersion;
    if NotOlder(seen.tasks, id, sent) {
      forall since | InOrder(start, since) && Seen(Run(seen, since), id, version)
        ensures Spent(Run(seen, since), EndTime(start, since), id, version)
      {
        DroppedClaimIsSpent(before, since, EndTime(start, since), id, sent, sent);
      }
    } else {
      var since := VersionComesAbout(seen, start, id, version);
      DroppedClaimIsSpent(before, since, EndTime(start, since), id, sent, sent);
      assert !Moved(Run(seen, since), id, version);
    }
  }

  /** A list read before the task was created drops the claim on it, which then starts an execution;
      and a list that shows version 1 drops the claim on version 2, likewise. */
  lemma OlderListDropsOpenClaim()
    ensures var registered := Run(EmptyBoard, [At(0, RegisterDeviceOp)]);
            var created := Step(registered, 10, CreateTaskOp("task", 0));
            var cancelled := Step(created, 20, UpdateOp(0, Cancelled, 1, Absent, Absent, None));
            && !StaysPending(registered.tasks, 0, PendingClaim("claim", "token", 1))
            && Starts(created, At(20, ClaimOp(0, 1, "claim", "token")), 0, 1)
            && !StaysPending(created.tasks, 0, PendingClaim("claim", "token", 2))
            && Starts(cancelled, At(30, ClaimOp(0, 2, "claim", "token")), 0, 2)
  {
    assert [At(0, RegisterDeviceOp)][1..] == [];
  }

  /** A claim is also dropped when its retry is refused, while the first submission may still be under
      way. If the claim itself was refused, the first submission can start an execution in exactly one
      case: the device was offline. If the request was refused before, as for a lost login, which
      leaves the server as it is, it can exactly when the task is idle at the version of the claim. */
  lemma RefusedRetryIsSpentIff(calls: seq<Call>, now: int, id: nat, sent: PendingClaim)
    requires Seen(Run(EmptyBoard, calls), id, sent.expectedVersion)
    ensures var b := Run(EmptyBoard, calls);
            var (b', r) := ClaimTask(b, now, id, sent.expectedVersion, sent.claimId, sent.leaseToken);
            && (r.Err? ==> (Spent(b', now, id, sent.expectedVersion) <==> r.error != DeviceOffline))
            && (Spent(b, now, id, sent.expectedVersion) <==> Moved(b, id, sent.expectedVersion))
  {
    var b := Run(EmptyBoard, calls);
    EmptyBoardInv();
    RunGood(EmptyBoard, calls);
    DevicesKnown(EmptyBoard, calls);
    SpentIff(b, now, id, sent.expectedVersion);
    if ClaimTask(b, now, id, sent.expectedVersion, sent.claimId, sent.leaseToken).1.Err? {
      RefusedClaimIsSpentIff(b, now, id, sent.expectedVersion, sent.claimId, sent.leaseToken);
    }
  }

  /** The offline case: the device was last seen at 0, the first submission is under way, the retry at
      50 s is refused and the claim dropped, the device is back at 60 s, and then the first
      submission arrives and starts an execution whose secrets nobody holds. */
  lemma GivenUpClaimCanStart()
    ensures var b := Run(EmptyBoard, [At(0, RegisterDeviceOp), At(0, CreateTaskOp("task", 0))]);
            var (b1, retry) := ClaimTask(b, 50_000, 0, 1, "claim", "token");
            var b2 := Step(b1, 60_000, HeartbeatOp(0, None));
            retry == Err(DeviceOffline) && Starts(b2, At(60_001, ClaimOp(0, 1, "claim", "token")), 0, 1)
  {
    var create := [At(0, CreateTaskOp("task", 0))];
    assert [At(0, RegisterDeviceOp), At(0, CreateTaskOp("task", 0))][1..] == create && create[1..] == [];
  }
}
