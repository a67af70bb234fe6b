/** Fencing of money: an ended execution can never again hold or spend funds, and a reservation
    that was settled or released is final, over every run of the database. */
module UsageFencing {
  import opened Common
  import opened JsMap
  import opened Funds
  import opened Usage
  import opened UsageMoney
  import TaskBoard
  import TaskFencing

  // ---- What a step keeps of one user ----

  /** Reservations stay in place, and settled or released ones stay as they are. */
  ghost predicate FinalsKept(rs: Dict<Reservation>, rs': Dict<Reservation>) {
    && |rs| <= |rs'|
    && forall k | 0 <= k < |rs| ::
         rs'[k].key == rs[k].key && (rs[k].value.status != Reserved ==> rs'[k] == rs[k])
  }

  /** Executions that had ended by some earlier moment have ended now. */
  ghost predicate EndedKept(b: TaskBoard.Board, b': TaskBoard.Board, now: int) {
    forall t, executionId | t <= now && TaskFencing.Ended(b, t, executionId) :: TaskFencing.Ended(b', now, executionId)
  }

  ghost predicate UserKept(u: User, u': User, now: int) {
    FinalsKept(u.reservations, u'.reservations) && EndedKept(u.board, u'.board, now)
  }

  ghost predicate UsersKept(users: Dict<User>, users': Dict<User>, now: int) {
    && |users| <= |users'|
    && forall i | 0 <= i < |users| :: users'[i].key == users[i].key && UserKept(users[i].value, users'[i].value, now)
  }

  lemma UsersKeptTransitive(a: Dict<User>, b: Dict<User>, c: Dict<User>, now: int)
    requires UsersKept(a, b, now) && UsersKept(b, c, now)
    ensures UsersKept(a, c, now)
  {
    forall i | 0 <= i < |a| ensures c[i].key == a[i].key && UserKept(a[i].value, c[i].value, now) {
      assert UserKept(a[i].value, b[i].value, now) && UserKept(b[i].value, c[i].value, now);
    }
  }

  lemma ReplayFinals(u: User, now: int, id: string, completion: Option<Completion>)
    ensures FinalsKept(u.reservations, SettleReplay(u, now, id, completion).reservations)
  {
    ReservationStepsKept(u, now, id);
    assert SettleReplay(u, now, id, completion).reservations == ReleaseIfHeld(u, now, id).reservations;
  }

  lemma ChargeFinals(u: User, now: int, k: nat, key: string, billed: UsageEvent, completion: Option<Completion>)
    requires k < |u.reservations| && u.reservations[k].value.status == Reserved
    ensures FinalsKept(u.reservations, SettleCharge(u, now, k, key, billed, completion).0.reservations)
  {
    ChargeReservationCases(u, now, k, key, billed);
  }

  lemma SettleFinals(u: User, now: int, admin: bool, id: string, e: UsageEvent, completion: Option<Completion>,
                     executionId: Option<nat>)
    ensures FinalsKept(u.reservations, SettleUsage(u, now, admin, id, e, completion, executionId).0.reservations)
  {
    if SettleRefusal(u, now, admin, id, e, completion, executionId).None? {
      SettleAccepted(u, now, admin, id, e, completion, executionId);
      if ClientKey(e.idempotencyKey) in u.idempotency {
        ReplayFinals(u, now, id, completion);
      } else {
        ChargeFinals(u, now, IndexOf(u.reservations, id), e.idempotencyKey, Billed(admin, e), completion);
      }
    }
  }

  lemma BoardStepKept(u: User, now: int, op: TaskBoard.Op)
    ensures UserKept(u, u.(board := TaskBoard.Step(u.board, now, op)), now)
  {
    forall t, executionId | t <= now && TaskFencing.Ended(u.board, t, executionId)
      ensures TaskFencing.Ended(TaskBoard.Step(u.board, now, op), now, executionId)
    {
      TaskFencing.StepKeepsEnded(u.board, t, now, op, executionId);
    }
  }

  lemma SameBoardKept(u: User, u': User, now: int)
    requires u'.board == u.board && FinalsKept(u.reservations, u'.reservations)
    ensures UserKept(u, u', now)
  {
  }

  lemma SmallStepsKept(u: User, now: int, request: TopupRequest, requestKey: string, fingerprint: string,
                       executionId: Option<nat>)
    ensures UserKept(u, TopUp(u, request).0, now) && UserKept(u, SummarizeCredit(u, now), now)
    ensures UserKept(u, FailChat(u, now, requestKey, fingerprint, executionId), now)
  {
    SameBoardKept(u, TopUp(u, request).0, now);
    SameBoardKept(u, SummarizeCredit(u, now), now);
    SameBoardKept(u, FailChat(u, now, requestKey, fingerprint, executionId), now);
  }

  lemma ReservationStepsKept(u: User, now: int, id: string)
    ensures UserKept(u, RenewReservation(u, now, id).0, now) && UserKept(u, ReleaseIfHeld(u, now, id), now)
  {
    SameBoardKept(u, RenewReservation(u, now, id).0, now);
    SameBoardKept(u, ReleaseIfHeld(u, now, id), now);
  }

  lemma RecordKept(u: User, now: int, admin: bool, e: UsageEvent)
    ensures UserKept(u, RecordUsage(u, now, admin, e).0, now)
  {
    if ValidEvent(e) && ClientKey(e.idempotencyKey) !in u.idempotency {
      RecordUsageCases(u, now, admin, e);
    }
    SameBoardKept(u, RecordUsage(u, now, admin, e).0, now);
  }

  lemma UserStepKept(u: User, now: int, admin: bool, op: UserOp)
    ensures UserKept(u, UserStep(u, now, admin, op), now)
  {
    match op
    case BoardOp(boardOp) => BoardStepKept(u, now, boardOp);
    case PurchasePackOp(packId, key) =>
      PurchaseSteps(u, now, packId, key);
      SameBoardKept(u, PurchasePack(u, now, packId, key).0, now);
    case RecordOp(e) => RecordKept(u, now, admin, e);
    case SettleOp(id, e, completion, executionId) =>
      SettleFinals(u, now, admin, id, e, completion, executionId);
      SameBoardKept(u, SettleUsage(u, now, admin, id, e, completion, executionId).0, now);
    case TopUpOp(request) => SmallStepsKept(u, now, request, "", "", None);
    case SummaryOp => SmallStepsKept(u, now, TopupRequest("", 0, ""), "", "", None);
    case FailChatOp(requestKey, fingerprint, executionId) =>
      SmallStepsKept(u, now, TopupRequest("", 0, ""), requestKey, fingerprint, executionId);
    case RenewReservationOp(id) => ReservationStepsKept(u, now, id);
    case ReleaseOp(id) => ReservationStepsKept(u, now, id);
  }

  // ---- What a step keeps of the table ----

  lemma OpenKept(users: Dict<User>, key: string, now: int)
    ensures UsersKept(users, Open(users, key, now), now)
  {
  }

  lemma SetUserKept(users: Dict<User>, i: nat, u: User, now: int)
    requires i < |users| && UserKept(users[i].value, u, now)
    ensures UsersKept(users, SetUser(users, i, u), now)
  {
  }

  lemma {:induction false} ReleaseBatchKept(users: Dict<User>, batch: seq<Candidate>, now: int)
    ensures UsersKept(users, ReleaseBatch(users, batch, now), now)
    decreases |batch|
  {
    if batch != [] {
      var mid := ReleaseCandidate(users, batch[0], now);
      ReleaseBatchKept(mid, batch[1..], now);
      if mid != users {
        SetUserKept(users, batch[0].user, mid[batch[0].user].value, now);
      }
      UsersKeptTransitive(users, mid, ReleaseBatch(mid, batch[1..], now), now);
    }
  }

  lemma {:induction false} SweepUsersKept(users: Dict<User>, now: int, budget: nat)
    ensures UsersKept(users, SweepUsers(users, now, budget), now)
    decreases |users|
  {
    if users != [] {
      var u := users[0].value;
      SweepBudget(u.chats, now, budget);
      var rest := budget - (|u.chats| - |SweepChats(u.chats, now, budget)|);
      SweepUsersKept(users[1..], now, rest);
      var swept := SweepUsers(users, now, budget);
      forall i | 0 <= i < |users| ensures swept[i].key == users[i].key && UserKept(users[i].value, swept[i].value, now)
      {
        if i > 0 {
          assert users[i] == users[1..][i - 1] && swept[i] == SweepUsers(users[1..], now, rest)[i - 1];
        }
      }
    }
  }

  lemma MovedUserKept(users: Dict<User>, key: string, now: int, i: nat, u: User)
    requires i < |Open(users, key, now)| && UserKept(Open(users, key, now)[i].value, u, now)
    ensures UsersKept(users, SetUser(Open(users, key, now), i, u), now)
  {
    OpenKept(users, key, now);
    SetUserKept(Open(users, key, now), i, u, now);
    UsersKeptTransitive(users, Open(users, key, now), SetUser(Open(users, key, now), i, u), now);
  }

  lemma ReserveUsageKept(db: Database, now: int, p: Principal, id: string, amountCents: int,
                         execution: Option<TaskExecution>)
    ensures UsersKept(db.users, ReserveUsage(db, now, p, id, amountCents, execution).0.users, now)
  {
    if 0 <= amountCents {
      var reaped := Reap(db.users, now, USAGE_RESERVATION_REAP_BATCH_SIZE);
      ReleaseBatchKept(db.users, Batch(db.users, now, USAGE_RESERVATION_REAP_BATCH_SIZE), now);
      var all := Open(reaped, p.key, now);
      var i := IndexOf(all, p.key);
      ReserveCases(all[i].value, now, p.admin, id, amountCents, execution);
      MovedUserKept(reaped, p.key, now, i, Reserve(all[i].value, now, p.admin, id, amountCents, execution).0);
      UsersKeptTransitive(db.users, reaped, ReserveUsage(db, now, p, id, amountCents, execution).0.users, now);
    }
  }

  lemma ClaimChatRequestKept(db: Database, now: int, p: Principal, requestKey: string, fingerprint: string,
                             executionId: Option<nat>)
    ensures UsersKept(db.users, ClaimChatRequest(db, now, p, requestKey, fingerprint, executionId).0.users, now)
  {
    if 0 < |requestKey| <= 240 {
      var all := Open(db.users, p.key, now);
      var swept := SweepUsers(all, now, CHAT_SWEEP_BATCH_SIZE);
      var i := IndexOf(all, p.key);
      OpenKept(db.users, p.key, now);
      SweepUsersKept(all, now, CHAT_SWEEP_BATCH_SIZE);
      SetUserKept(swept, i, ClaimChat(swept[i].value, now, requestKey, fingerprint, executionId).0, now);
      UsersKeptTransitive(db.users, all, swept, now);
      UsersKeptTransitive(db.users, swept, ClaimChatRequest(db, now, p, requestKey, fingerprint, executionId).0.users,
                          now);
    }
  }

  lemma CreateOrderKept(db: Database, now: int, p: Principal, request: OrderRequest)
    ensures UsersKept(db.users, CreatePaymentOrder(db, now, p, request).0.users, now)
  {
    var all := Open(db.users, p.key, now);
    OpenKept(db.users, p.key, now);
    UsersKeptTransitive(db.users, all, CreatePaymentOrder(db, now, p, request).0.users, now);
  }

  lemma UserCallKept(db: Database, now: int, p: Principal, op: UserOp)
    ensures UsersKept(db.users, Step(db, now, UserCall(p, op)).users, now)
  {
    if !RefusedUnseen(op) {
      var all := Open(db.users, p.key, now);
      var i := IndexOf(all, p.key);
      UserStepKept(all[i].value, now, p.admin, op);
      MovedUserKept(db.users, p.key, now, i, UserStep(all[i].value, now, p.admin, op));
    }
  }

  lemma CompletePaymentKept(db: Database, now: int, event: PaymentEvent)
    ensures UsersKept(db.users, CompletePaymentOrder(db, event).0.users, now)
  {
  }

  lemma StepKept(db: Database, now: int, op: Op)
    ensures UsersKept(db.users, Step(db, now, op).users, now)
  {
    match op
    case UserCall(p, userOp) => UserCallKept(db, now, p, userOp);
    case ReserveOp(p, id, amountCents, execution) => ReserveUsageKept(db, now, p, id, amountCents, execution);
    case ReapOp(limit) => ReleaseBatchKept(db.users, Batch(db.users, now, limit), now);
    case ClaimChatOp(p, requestKey, fingerprint, executionId) =>
      ClaimChatRequestKept(db, now, p, requestKey, fingerprint, executionId);
    case CreateOrderOp(p, request) => CreateOrderKept(db, now, p, request);
    case CompletePaymentOp(event) => CompletePaymentKept(db, now, event);
  }

  // ---- Runs ----

  /** Settled and released reservations never change again, so each leaves the reserved state,
      and is charged or refunded, at most once. */
  lemma {:induction false} FinalReservations(db: Database, calls: seq<Call>, i: nat, k: nat)
    requires i < |db.users| && k < |db.users[i].value.reservations|
    requires db.users[i].value.reservations[k].value.status != Reserved
    ensures i < |Run(db, calls).users| && k < |Run(db, calls).users[i].value.reservations|
    ensures Run(db, calls).users[i].value.reservations[k] == db.users[i].value.reservations[k]
    decreases |calls|
  {
    if calls != [] {
      StepKept(db, calls[0].now, calls[0].op);
      FinalReservations(Step(db, calls[0].now, calls[0].op), calls[1..], i, k);
    }
  }

  lemma {:induction false} EndedForever(db: Database, start: int, calls: seq<Call>, i: nat, executionId: nat)
    requires InOrder(start, calls) && i < |db.users| && TaskFencing.Ended(db.users[i].value.board, start, executionId)
    ensures i < |Run(db, calls).users|
    ensures TaskFencing.Ended(Run(db, calls).users[i].value.board, EndTime(start, calls), executionId)
    decreases |calls|
  {
    if calls != [] {
      StepKept(db, calls[0].now, calls[0].op);
      EndedForever(Step(db, calls[0].now, calls[0].op), calls[0].now, calls[1..], i, executionId);
    }
  }

  // ---- Main result ----

  lemma EndedCannotReserve(u: User, now: int, admin: bool, id: string, amountCents: int, taskId: nat, executionId: nat)
    requires TaskFencing.Ended(u.board, now, executionId)
    ensures Reserve(u, now, admin, id, amountCents, Some(TaskExecution(taskId, executionId))).0 == u
    ensures !Has(u.reservations, id) ==>
              Reserve(u, now, admin, id, amountCents, Some(TaskExecution(taskId, executionId))).1.Err?
  {
    ReserveCases(u, now, admin, id, amountCents, Some(TaskExecution(taskId, executionId)));
  }

  lemma EndedCannotSettle(u: User, now: int, admin: bool, id: string, executionId: nat, e: UsageEvent,
                          completion: Option<Completion>)
    requires TaskFencing.Ended(u.board, now, executionId) && e.task.Some?
    ensures SettleUsage(u, now, admin, id, e, completion, Some(executionId)).0.ledger == u.ledger
  {
    if SettleRefusal(u, now, admin, id, e, completion, Some(executionId)).None? {
      SettleAccepted(u, now, admin, id, e, completion, Some(executionId));
    }
  }

  /** Once a step has ended an execution, then at every later moment of every run that follows,
      its id makes no reservation and adds no ledger entry by settling task usage. */
  lemma EndedExecutionNeverSpends(db: Database, start: int, calls: seq<Call>, i: nat, later: int, admin: bool,
                                  id: string, amountCents: int, taskId: nat, executionId: nat, e: UsageEvent,
                                  completion: Option<Completion>)
    requires i < |db.users| && TaskFencing.Ended(db.users[i].value.board, start, executionId)
    requires InOrder(start, calls) && EndTime(start, calls) <= later
    ensures i < |Run(db, calls).users|
    ensures var u := Run(db, calls).users[i].value;
            && Reserve(u, later, admin, id, amountCents, Some(TaskExecution(taskId, executionId))).0 == u
            && (!Has(u.reservations, id) ==>
                  Reserve(u, later, admin, id, amountCents, Some(TaskExecution(taskId, executionId))).1.Err?)
            && (e.task.Some?
                ==> SettleUsage(u, later, admin, id, e, completion, Some(executionId)).0.ledger == u.ledger)
  {
    EndedForever(db, start, calls, i, executionId);
    var u := Run(db, calls).users[i].value;
    EndedCannotReserve(u, later, admin, id, amountCents, taskId, executionId);
    if e.task.Some? {
      EndedCannotSettle(u, later, admin, id, executionId, e, completion);
    }
  }
}
