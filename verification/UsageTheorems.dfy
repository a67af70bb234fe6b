/** What one settlement means: a replay refunds in full, a refused overrun changes nothing, and
    reserving then settling is the same as charging directly. */
module UsageTheorems {
  import opened Common
  import opened JsMap
  import opened Funds
  import opened Usage
  import opened UsageFunds
  import opened UsageMoney
  import opened UsageBooks
  import opened UsageRuns
  import ReserveSettle

  // ---- Replays ----

  /** Settling usage that is already billed, through any live reservation, posts nothing, returns
      the entry on record, and gives back every cent the reservation holds, to the wallet and to
      each grant, with no cap taking effect. */
  lemma ReplayRefundsInFull(u: User, now: int, admin: bool, id: string, e: UsageEvent, completion: Option<Completion>,
                            executionId: Option<nat>)
    requires MoneyInv(u) && ClientKey(e.idempotencyKey) in u.idempotency
    requires SettleUsage(u, now, admin, id, e, completion, executionId).1.Ok?
    requires var k := IndexOf(u.reservations, id); k < |u.reservations| && u.reservations[k].value.status == Reserved
    ensures var k := IndexOf(u.reservations, id);
            var held := u.reservations[k].value.held;
            var (u', r) := SettleUsage(u, now, admin, id, e, completion, executionId);
            && r.value == u.idempotency[ClientKey(e.idempotencyKey)]
            && u'.ledger == u.ledger && u'.idempotency == u.idempotency
            && u'.reservations == u.reservations[k := Entry(id, u.reservations[k].value.(status := Released))]
            && u'.funds.balance == u.funds.balance + held.wallet
            && |u'.funds.grants| == |u.funds.grants|
            && (forall i | 0 <= i < |u.funds.grants| ::
                  u'.funds.grants[i] == Credited(u.funds.grants[i], AmountFor(held.allocations, i), now))
            && SumOf(Remaining, u'.funds.grants) == SumOf(Remaining, u.funds.grants) + SumAllocations(held.allocations)
  {
    var k := IndexOf(u.reservations, id);
    ReplayIsRelease(u, now, admin, id, e, completion, executionId);
    ReleaseRefunds(u, k, now);
  }

  lemma ReplayIsRelease(u: User, now: int, admin: bool, id: string, e: UsageEvent, completion: Option<Completion>,
                        executionId: Option<nat>)
    requires ClientKey(e.idempotencyKey) in u.idempotency
    requires SettleUsage(u, now, admin, id, e, completion, executionId).1.Ok?
    requires var k := IndexOf(u.reservations, id); k < |u.reservations| && u.reservations[k].value.status == Reserved
    ensures var released := Release(u, IndexOf(u.reservations, id), now);
            var (u', r) := SettleUsage(u, now, admin, id, e, completion, executionId);
            && r.value == u.idempotency[ClientKey(e.idempotencyKey)]
            && u'.ledger == u.ledger && u'.idempotency == u.idempotency
            && u'.reservations == released.reservations && u'.funds == released.funds
  {
  }

  lemma ReleaseRefunds(u: User, k: nat, now: int)
    requires MoneyInv(u) && k < |u.reservations| && u.reservations[k].value.status == Reserved
    ensures var held, u' := u.reservations[k].value.held, Release(u, k, now);
            && u'.reservations
               == u.reservations[k := Entry(u.reservations[k].key, u.reservations[k].value.(status := Released))]
            && u'.funds.balance == u.funds.balance + held.wallet
            && |u'.funds.grants| == |u.funds.grants|
            && (forall i | 0 <= i < |u.funds.grants| ::
                  u'.funds.grants[i] == Credited(u.funds.grants[i], AmountFor(held.allocations, i), now))
            && SumOf(Remaining, u'.funds.grants) == SumOf(Remaining, u.funds.grants) + SumAllocations(held.allocations)
  {
    HoldOut(u.funds, u.reservations, k, Released);
    RestoreKeeps(u.funds, Release(u, k, now).reservations, u.reservations[k].value.held.allocations, now);
  }

  /** Entries answer for exactly the usage they were made for: the entry of one report matches
      another exactly when both bill the same cost for the same task, model and terms. */
  lemma MatchesSameBillOnly(u: User, now: int, admin: bool, e: UsageEvent, again: UsageEvent)
    requires ClientKey(e.idempotencyKey) !in u.idempotency && RecordUsage(u, now, admin, e).1.Ok?
    requires MoneyInv(u)
    ensures UsageMatches(RecordUsage(u, now, admin, e).1.value, Billed(admin, again))
            <==> Billed(admin, again).costCents == Billed(admin, e).costCents
                 && DetailOf(Billed(admin, again)) == DetailOf(Billed(admin, e))
  {
    var billed := Billed(admin, e);
    RecordUsageCases(u, now, admin, e);
    AllocateKeeps(u.funds, u.reservations, billed.costCents, now);
  }

  // ---- Refusals ----

  lemma SettleRefusalIsNotFunds(u: User, now: int, admin: bool, id: string, e: UsageEvent,
                                completion: Option<Completion>, executionId: Option<nat>)
    ensures SettleRefusal(u, now, admin, id, e, completion, executionId) != Some(UsageError.InsufficientBalance)
  {
  }

  /** A settlement that is refused, in particular for an overrun the funds do not cover, leaves
      balance, grants, reservation, ledger, keys and chat records as they were, except that
      grants past their expiry may have been marked expired. */
  lemma RefusedSettlementIsAtomic(u: User, now: int, admin: bool, id: string, e: UsageEvent,
                                  completion: Option<Completion>, executionId: Option<nat>)
    requires MoneyInv(u)
    ensures var (u', r) := SettleUsage(u, now, admin, id, e, completion, executionId);
            r.Err? ==> u' == if r.error == UsageError.InsufficientBalance then SummarizeCredit(u, now) else u
  {
    SettleRefusalIsNotFunds(u, now, admin, id, e, completion, executionId);
    if SettleRefusal(u, now, admin, id, e, completion, executionId).None? {
      SettleAccepted(u, now, admin, id, e, completion, executionId);
      if ClientKey(e.idempotencyKey) !in u.idempotency {
        var k := IndexOf(u.reservations, id);
        ChargeReservationMoney(u, now, k, e.idempotencyKey, Billed(admin, e));
        ChargeReservationCases(u, now, k, e.idempotencyKey, Billed(admin, e));
      }
    }
  }

  // ---- Reserve, then settle ----

  ghost predicate NothingOverdue(users: Dict<User>, now: int) {
    forall i, k | 0 <= i < |users| && 0 <= k < |users[i].value.reservations| ::
      !Overdue(users[i].value.reservations[k].value, now)
  }

  lemma {:induction false} NoUserCandidates(rs: Dict<Reservation>, user: nat, now: int, n: nat)
    requires n <= |rs| && forall k | 0 <= k < |rs| :: !Overdue(rs[k].value, now)
    ensures UserCandidates(rs, user, now, n) == []
  {
    if n > 0 {
      NoUserCandidates(rs, user, now, n - 1);
    }
  }

  lemma {:induction false} NoCandidates(users: Dict<User>, now: int, n: nat)
    requires n <= |users| && NothingOverdue(users, now)
    ensures AllCandidates(users, now, n) == []
  {
    if n > 0 {
      NoCandidates(users, now, n - 1);
      NoUserCandidates(users[n - 1].value.reservations, n - 1, now, |users[n - 1].value.reservations|);
    }
  }

  /** With nothing expired, a reap changes nothing. */
  lemma NothingToReap(users: Dict<User>, now: int, limit: int)
    requires NothingOverdue(users, now)
    ensures Reap(users, now, limit) == users
  {
    NoCandidates(users, now, |users|);
  }

  /** The usage is a plain chat, or belongs to the execution the reservation is made for. */
  predicate SameWork(e: UsageEvent, execution: Option<TaskExecution>, executionId: Option<nat>) {
    e.task.Some? ==> executionId.Some? && execution == Some(TaskExecution(e.task.value, executionId.value))
  }

  /** A new hold, and what it leaves. */
  lemma ReservedHold(u: User, now: int, admin: bool, id: string, amountCents: int, execution: Option<TaskExecution>)
    requires IndexOf(u.reservations, id) == |u.reservations| && Reserve(u, now, admin, id, amountCents, execution).1.Ok?
    ensures var amount := if admin then 0 else amountCents;
            var (funds, split) := Allocate(u.funds, amount, now);
            && split.Ok?
            && (execution.Some? ==> ExecutionRefusal(u, now, execution.value).None?)
            && Reserve(u, now, admin, id, amountCents, execution).0
               == u.(funds := funds, reservations := u.reservations + [Entry(id,
                    Reservation(amount, split.value, execution, Reserved, now + USAGE_RESERVATION_LEASE_DURATION_MS))])
  {
  }

  /** A completion given with a settlement belongs to the usage and to a claimed chat request. */
  predicate CompletionFits(u: User, e: UsageEvent, completion: Option<Completion>) {
    completion.Some? ==> CompletionRefusal(u, e, completion.value).None?
  }

  /** A chat request that is complete already is in the books. */
  lemma CompleteIsBilled(u: User, e: UsageEvent, completion: Option<Completion>)
    requires ChatsInv(u) && CompletionFits(u, e, completion) && ChatIs(u, completion, Complete)
    ensures ClientKey(e.idempotencyKey) in u.idempotency
  {
    var k := IndexOf(u.chats, completion.value.requestKey);
    assert ChatOk(u, u.chats[k].key, u.chats[k].value);
  }

  lemma NewHoldIsLast(u: User, id: string, r: Reservation)
    requires IndexOf(u.reservations, id) == |u.reservations|
    ensures IndexOf(u.reservations + [Entry(id, r)], id) == |u.reservations|
  {
    var rs := u.reservations + [Entry(id, r)];
    assert rs[|u.reservations|].key == id;
    assert forall j | 0 <= j < |u.reservations| :: rs[j] == u.reservations[j];
  }

  /** A valid report, a completion that fits, and a key that is new or stands for the same usage. */
  predicate Acceptable(u: User, admin: bool, e: UsageEvent, completion: Option<Completion>) {
    && ValidEvent(e) && CompletionFits(u, e, completion)
    && (ClientKey(e.idempotencyKey) in u.idempotency
        ==> UsageMatches(u.idempotency[ClientKey(e.idempotencyKey)], Billed(admin, e)))
  }

  /** Settling a new hold is refused exactly for an invalid report, a completion that does not
      fit, or a key that is in the books for other usage. */
  lemma SettleOfHold(u: User, u1: User, now: int, admin: bool, id: string, r: Reservation, e: UsageEvent,
                     completion: Option<Completion>, executionId: Option<nat>)
    requires ChatsInv(u) && u1 == u.(funds := u1.funds, reservations := u.reservations + [Entry(id, r)])
    requires IndexOf(u.reservations, id) == |u.reservations| && r.status == Reserved && now < r.leaseExpiresAt
    requires SameWork(e, r.execution, executionId)
    requires r.execution.Some? ==> ExecutionRefusal(u, now, r.execution.value).None?
    ensures IndexOf(u1.reservations, id) == |u.reservations|
    ensures SettleRefusal(u1, now, admin, id, e, completion, executionId).None?
            <==> Acceptable(u, admin, e, completion)
  {
    NewHoldIsLast(u, id, r);
    assert u1.reservations[|u.reservations|] == Entry(id, r);
    if CompletionFits(u, e, completion) && ChatIs(u, completion, Complete) {
      CompleteIsBilled(u, e, completion);
    }
  }

  /** Reserving and settling, compared with recording the same usage directly: settling succeeds
      exactly when recording does and the completion fits; then ledger, keys and answer are the
      same, and so is every cent and every grant. Usage billed before is only looked up when
      recorded, while reserving also marks the grants that have expired. */
  ghost predicate SameOutcome(u: User, now: int, e: UsageEvent, completion: Option<Completion>,
                              direct: User, entry: Result<LedgerEntry, UsageError>,
                              settled: User, posted: Result<LedgerEntry, UsageError>)
  {
    && (posted.Ok? <==> entry.Ok? && CompletionFits(u, e, completion))
    && (posted.Ok? ==>
          && posted.value == entry.value
          && settled.ledger == direct.ledger && settled.idempotency == direct.idempotency
          && settled.funds == (if ClientKey(e.idempotencyKey) in u.idempotency then SummarizeCredit(direct, now).funds
                               else direct.funds)
          && (completion.Some? ==> ChatIs(settled, completion, Complete)))
  }

  /** Two ways of charging that end in the same funds and books, and the same answer. */
  predicate SamePosted(direct: User, entry: Result<LedgerEntry, UsageError>,
                       settled: User, posted: Result<LedgerEntry, UsageError>)
  {
    && (posted.Ok? <==> entry.Ok?)
    && (entry.Ok? ==>
          && settled.funds == direct.funds
          && settled.ledger == direct.ledger && settled.idempotency == direct.idempotency
          && posted.value == entry.value)
  }

  /** Giving back a hold at the moment it was made leaves the funds as they were, with expired
      grants marked. */
  lemma HoldThenGiveBack(f: Funds, amount: int, now: int)
    requires 0 <= amount && GrantsInBounds(f.grants) && Allocate(f, amount, now).1.Ok?
    ensures var (f1, held) := Allocate(f, amount, now);
            GiveBack(f1, held.value, now) == Funds(f.balance, ExpireGrants(f.grants, now))
  {
    RestoreUndoesDebit(ExpireGrants(f.grants, now), amount, now);
  }

  /** If charging the hold takes what charging directly takes, the two post the same entry. */
  lemma SamePosting(u: User, reserved: User, now: int, admin: bool, k: nat, e: UsageEvent)
    requires ValidEvent(e) && ClientKey(e.idempotencyKey) !in u.idempotency && k < |reserved.reservations|
    requires reserved.ledger == u.ledger && reserved.idempotency == u.idempotency
    requires var cost := Billed(admin, e).costCents;
             var (held, charged) := ChargeHeld(reserved.funds, reserved.reservations[k].value.held, cost, now);
             var (funds, split) := Allocate(u.funds, cost, now);
             && (charged.Ok? <==> split.Ok?)
             && (split.Ok? ==>
                   && held == funds
                   && charged.value == Charge(split.value.wallet, SumAllocations(split.value.allocations)))
    ensures var (direct, entry) := RecordUsage(u, now, admin, e);
            var (settled, posted) := ChargeReservation(reserved, now, k, e.idempotencyKey, Billed(admin, e));
            SamePosted(direct, entry, settled, posted)
  {
    RecordUsageCases(u, now, admin, e);
    ChargeReservationCases(reserved, now, k, e.idempotencyKey, Billed(admin, e));
  }

  /** Completing the chat request with a settlement touches nothing but the request. */
  lemma CompletedWith(u: User, now: int, c: Completion)
    ensures var u' := CompleteChat(u, now, c);
            && u' == u.(chats := u'.chats)
            && Get(u'.chats, c.requestKey)
               == Some(ChatRecord(c.fingerprint, c.executionId, Complete, Some(c.payload), now + DAY_MS))
  {
    GetPut(u.chats, c.requestKey, ChatRecord(c.fingerprint, c.executionId, Complete, Some(c.payload), now + DAY_MS),
           c.requestKey);
  }

  /** The new charge of a hold. */
  lemma ChargedAlike(u: User, u1: User, now: int, admin: bool, k: nat, e: UsageEvent, completion: Option<Completion>)
    requires ClientKey(e.idempotencyKey) !in u.idempotency && CompletionFits(u, e, completion) && k < |u1.reservations|
    requires var (direct, entry) := RecordUsage(u, now, admin, e);
             var (settled, posted) := ChargeReservation(u1, now, k, e.idempotencyKey, Billed(admin, e));
             SamePosted(direct, entry, settled, posted)
    ensures var (direct, entry) := RecordUsage(u, now, admin, e);
            var (settled, posted) := SettleCharge(u1, now, k, e.idempotencyKey, Billed(admin, e), completion);
            SameOutcome(u, now, e, completion, direct, entry, settled, posted)
  {
    if completion.Some? {
      CompletedWith(ChargeReservation(u1, now, k, e.idempotencyKey, Billed(admin, e)).0, now, completion.value);
    }
  }

  /** A hold for usage that was billed before is given back. */
  lemma ReplayedAlike(u: User, u1: User, now: int, admin: bool, id: string, k: nat, e: UsageEvent,
                      completion: Option<Completion>)
    requires ValidEvent(e) && ClientKey(e.idempotencyKey) in u.idempotency && CompletionFits(u, e, completion)
    requires UsageMatches(u.idempotency[ClientKey(e.idempotencyKey)], Billed(admin, e))
    requires u1 == u.(funds := u1.funds, reservations := u1.reservations)
    requires k == IndexOf(u1.reservations, id) < |u1.reservations| && u1.reservations[k].value.status == Reserved
    requires GiveBack(u1.funds, u1.reservations[k].value.held, now) == SummarizeCredit(u, now).funds
    ensures var (direct, entry) := RecordUsage(u, now, admin, e);
            SameOutcome(u, now, e, completion, direct, entry, SettleReplay(u1, now, id, completion),
                        Ok(u.idempotency[ClientKey(e.idempotencyKey)]))
  {
    var released := ReleaseIfHeld(u1, now, id);
    assert released == Release(u1, k, now);
    if completion.Some? {
      CompletedWith(released, now, completion.value);
    }
  }

  /** A refused settlement of a new hold: recording is refused too, or the completion does not fit. */
  lemma RefusedAlike(u: User, u1: User, now: int, admin: bool, id: string, e: UsageEvent,
                     completion: Option<Completion>, executionId: Option<nat>)
    requires SettleRefusal(u1, now, admin, id, e, completion, executionId).Some? && !Acceptable(u, admin, e, completion)
    ensures var (direct, entry) := RecordUsage(u, now, admin, e);
            var (settled, posted) := SettleUsage(u1, now, admin, id, e, completion, executionId);
            SameOutcome(u, now, e, completion, direct, entry, settled, posted)
  {
  }

  lemma AcceptedSettlement(u: User, now: int, admin: bool, id: string, e: UsageEvent, completion: Option<Completion>,
                           executionId: Option<nat>)
    requires SettleRefusal(u, now, admin, id, e, completion, executionId).None?
    ensures SettleUsage(u, now, admin, id, e, completion, executionId)
            == if ClientKey(e.idempotencyKey) in u.idempotency then
                 (SettleReplay(u, now, id, completion), Ok(u.idempotency[ClientKey(e.idempotencyKey)]))
               else SettleCharge(u, now, IndexOf(u.reservations, id), e.idempotencyKey, Billed(admin, e), completion)
  {
  }

  /** A hold of an amount, settled when its key is not in the books. */
  lemma NewChargeAlike(u: User, u1: User, now: int, admin: bool, amount: int, id: string, e: UsageEvent,
                       completion: Option<Completion>, executionId: Option<nat>)
    requires MoneyInv(u) && 0 <= amount && ValidEvent(e)
    requires ClientKey(e.idempotencyKey) !in u.idempotency && CompletionFits(u, e, completion)
    requires SettleRefusal(u1, now, admin, id, e, completion, executionId).None?
    requires u1.ledger == u.ledger && u1.idempotency == u.idempotency
    requires var k := IndexOf(u1.reservations, id);
             k < |u1.reservations| && Allocate(u.funds, amount, now) == (u1.funds, Ok(u1.reservations[k].value.held))
    ensures var (direct, entry) := RecordUsage(u, now, admin, e);
            var (settled, posted) := SettleUsage(u1, now, admin, id, e, completion, executionId);
            SameOutcome(u, now, e, completion, direct, entry, settled, posted)
  {
    var k := IndexOf(u1.reservations, id);
    AcceptedSettlement(u1, now, admin, id, e, completion, executionId);
    BoundsMeansInBounds(u.funds, u.reservations, []);
    ReserveSettle.HoldThenChargeIsDirectCharge(u.funds, amount, Billed(admin, e).costCents, now);
    SamePosting(u, u1, now, admin, k, e);
    ChargedAlike(u, u1, now, admin, k, e, completion);
  }

  /** A hold of an amount, settled when its key is in the books for this usage. */
  lemma BilledAlike(u: User, u1: User, now: int, admin: bool, amount: int, id: string, e: UsageEvent,
                    completion: Option<Completion>, executionId: Option<nat>)
    requires MoneyInv(u) && 0 <= amount && ValidEvent(e) && CompletionFits(u, e, completion)
    requires ClientKey(e.idempotencyKey) in u.idempotency
    requires UsageMatches(u.idempotency[ClientKey(e.idempotencyKey)], Billed(admin, e))
    requires SettleRefusal(u1, now, admin, id, e, completion, executionId).None?
    requires u1 == u.(funds := u1.funds, reservations := u1.reservations)
    requires var k := IndexOf(u1.reservations, id);
             && k < |u1.reservations| && u1.reservations[k].value.status == Reserved
             && Allocate(u.funds, amount, now) == (u1.funds, Ok(u1.reservations[k].value.held))
    ensures var (direct, entry) := RecordUsage(u, now, admin, e);
            var (settled, posted) := SettleUsage(u1, now, admin, id, e, completion, executionId);
            SameOutcome(u, now, e, completion, direct, entry, settled, posted)
  {
    AcceptedSettlement(u1, now, admin, id, e, completion, executionId);
    BoundsMeansInBounds(u.funds, u.reservations, []);
    HoldThenGiveBack(u.funds, amount, now);
    ReplayedAlike(u, u1, now, admin, id, IndexOf(u1.reservations, id), e, completion);
  }

  /** A new hold, whatever it holds, and the settlement of it. */
  lemma HoldThenSettle(u: User, u1: User, now: int, admin: bool, id: string, amount: int, r: Reservation, e: UsageEvent,
                       completion: Option<Completion>, executionId: Option<nat>)
    requires MoneyInv(u) && ChatsInv(u) && 0 <= amount && SameWork(e, r.execution, executionId)
    requires IndexOf(u.reservations, id) == |u.reservations| && r.status == Reserved && now < r.leaseExpiresAt
    requires r.execution.Some? ==> ExecutionRefusal(u, now, r.execution.value).None?
    requires u1 == u.(funds := u1.funds, reservations := u.reservations + [Entry(id, r)])
    requires Allocate(u.funds, amount, now) == (u1.funds, Ok(r.held))
    ensures var (direct, entry) := RecordUsage(u, now, admin, e);
            var (settled, posted) := SettleUsage(u1, now, admin, id, e, completion, executionId);
            SameOutcome(u, now, e, completion, direct, entry, settled, posted)
  {
    SettleOfHold(u, u1, now, admin, id, r, e, completion, executionId);
    if SettleRefusal(u1, now, admin, id, e, completion, executionId).Some? {
      RefusedAlike(u, u1, now, admin, id, e, completion, executionId);
    } else if ClientKey(e.idempotencyKey) in u.idempotency {
      BilledAlike(u, u1, now, admin, amount, id, e, completion, executionId);
    } else {
      NewChargeAlike(u, u1, now, admin, amount, id, e, completion, executionId);
    }
  }

  // ---- Main results on reserving and settling ----

  /** Reserve-then-settle refines direct charging, for every estimate that can be reserved, every
      cost, below, equal to or above it, every completion and every key, new or billed before. */
  lemma UserReserveThenSettle(u: User, now: int, admin: bool, id: string, amountCents: int,
                              execution: Option<TaskExecution>, e: UsageEvent, completion: Option<Completion>,
                              executionId: Option<nat>)
    requires MoneyInv(u) && ChatsInv(u) && 0 <= amountCents && SameWork(e, execution, executionId)
    requires IndexOf(u.reservations, id) == |u.reservations|
    requires Reserve(u, now, admin, id, amountCents, execution).1.Ok?
    ensures var (direct, entry) := RecordUsage(u, now, admin, e);
            var reserved := Reserve(u, now, admin, id, amountCents, execution).0;
            var (settled, posted) := SettleUsage(reserved, now, admin, id, e, completion, executionId);
            SameOutcome(u, now, e, completion, direct, entry, settled, posted)
  {
    var amount := if admin then 0 else amountCents;
    var reserved := Reserve(u, now, admin, id, amountCents, execution).0;
    ReservedHold(u, now, admin, id, amountCents, execution);
    var r := reserved.reservations[|u.reservations|].value;
    HoldThenSettle(u, reserved, now, admin, id, amount, r, e, completion, executionId);
  }

  /** The user of a principal after reserving: nobody else is touched when nothing is overdue. */
  lemma ReservedFor(db: Database, now: int, p: Principal, id: string, amountCents: int,
                    execution: Option<TaskExecution>)
    requires NothingOverdue(db.users, now) && 0 <= amountCents
    ensures var all := Open(db.users, p.key, now);
            var i := IndexOf(all, p.key);
            var (u, r) := Reserve(all[i].value, now, p.admin, id, amountCents, execution);
            ReserveUsage(db, now, p, id, amountCents, execution) == (db.(users := SetUser(all, i, u)), r)
  {
    NothingToReap(db.users, now, USAGE_RESERVATION_REAP_BATCH_SIZE);
  }

  lemma CallOnUser(db: Database, now: int, p: Principal, all: Dict<User>, i: nat, op: UserOp)
    requires all == Open(db.users, p.key, now) && i == IndexOf(all, p.key) && !RefusedUnseen(op)
    ensures Step(db, now, UserCall(p, op)).users == SetUser(all, i, UserStep(all[i].value, now, p.admin, op))
  {
  }

  lemma CallOnReserved(db: Database, now: int, p: Principal, all: Dict<User>, i: nat, u: User, op: UserOp)
    requires all == Open(db.users, p.key, now) && i == IndexOf(all, p.key) && !RefusedUnseen(op)
    ensures Step(db.(users := SetUser(all, i, u)), now, UserCall(p, op)).users
            == SetUser(all, i, UserStep(u, now, p.admin, op))
  {
    var users := SetUser(all, i, u);
    SetSameIndex(all, i, u, p.key);
    CallOnUser(db.(users := users), now, p, users, i, op);
    assert SetUser(users, i, UserStep(u, now, p.admin, op)) == SetUser(all, i, UserStep(u, now, p.admin, op));
  }

  lemma SetSameIndex(users: Dict<User>, i: nat, u: User, key: string)
    requires i == IndexOf(users, key) < |users|
    ensures IndexOf(SetUser(users, i, u), key) == i
  {
    var users' := SetUser(users, i, u);
    assert users'[i].key == key;
    assert forall j | 0 <= j < |users| :: users'[j].key == users[j].key;
  }

  /** The two calls compared, as steps of the database. */
  lemma StepsOnUser(db: Database, now: int, p: Principal, all: Dict<User>, i: nat, u: User, id: string, e: UsageEvent,
                    completion: Option<Completion>, executionId: Option<nat>)
    requires all == Open(db.users, p.key, now) && i == IndexOf(all, p.key) && ValidEvent(e)
    ensures Step(db.(users := SetUser(all, i, u)), now, UserCall(p, SettleOp(id, e, completion, executionId))).users
            == SetUser(all, i, SettleUsage(u, now, p.admin, id, e, completion, executionId).0)
    ensures Step(db, now, UserCall(p, RecordOp(e))).users
            == SetUser(all, i, RecordUsage(all[i].value, now, p.admin, e).0)
  {
    assert UserStep(u, now, p.admin, SettleOp(id, e, completion, executionId))
           == SettleUsage(u, now, p.admin, id, e, completion, executionId).0;
    assert UserStep(all[i].value, now, p.admin, RecordOp(e)) == RecordUsage(all[i].value, now, p.admin, e).0;
    CallOnReserved(db, now, p, all, i, u, SettleOp(id, e, completion, executionId));
    CallOnUser(db, now, p, all, i, RecordOp(e));
  }

  /** The same over the whole database: with nothing overdue, reserving and then settling, as two
      calls, ends as recording the usage in one call does, in the state of that user and of
      everybody else. */
  lemma ReserveThenSettleIsRecord(db: Database, now: int, p: Principal, id: string, amountCents: int,
                                  execution: Option<TaskExecution>, e: UsageEvent, completion: Option<Completion>,
                                  executionId: Option<nat>)
    requires DbInv(db) && NothingOverdue(db.users, now) && SameWork(e, execution, executionId) && ValidEvent(e)
    requires var all := Open(db.users, p.key, now);
             !Has(all[IndexOf(all, p.key)].value.reservations, id)
    requires ReserveUsage(db, now, p, id, amountCents, execution).1.Ok?
    ensures var all := Open(db.users, p.key, now);
            var i := IndexOf(all, p.key);
            var reserved := ReserveUsage(db, now, p, id, amountCents, execution).0;
            var (direct, entry) := RecordUsage(all[i].value, now, p.admin, e);
            && |reserved.users| == |all|
            && var (settled, posted) :=
              SettleUsage(reserved.users[i].value, now, p.admin, id, e, completion, executionId);
               && SameOutcome(all[i].value, now, e, completion, direct, entry, settled, posted)
               && Step(reserved, now, UserCall(p, SettleOp(id, e, completion, executionId))).users
                  == SetUser(all, i, settled)
               && Step(db, now, UserCall(p, RecordOp(e))).users == SetUser(all, i, direct)
  {
    var all := Open(db.users, p.key, now);
    var i := IndexOf(all, p.key);
    var (u, r) := Reserve(all[i].value, now, p.admin, id, amountCents, execution);
    OpenedIsGood(db.users, p.key, now, db.nextOrder);
    ReservedFor(db, now, p, id, amountCents, execution);
    UserReserveThenSettle(all[i].value, now, p.admin, id, amountCents, execution, e, completion, executionId);
    StepsOnUser(db, now, p, all, i, u, id, e, completion, executionId);
  }
}
